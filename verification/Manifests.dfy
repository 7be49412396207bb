/** CampKit manifests: their rules, their canonical form, and its round trip.
  *
  * Strings are sequences of bytes. The JSON library is any encoder with a decoder that undoes it. */
module Manifests {
  import opened Domain
  import opened Ordering
  import Keys

  const SCHEMA: int := 2
  const MAX_MANIFEST_BYTES: int := 4 * 1024 * 1024
  const MAX_PAYLOADS: int := 256
  const MAX_IMAGES: int := 8192
  const MAX_PLATFORMS: int := 2
  const MAX_STRING_BYTES: int := 4 * 1024
  const MAX_PATH_BYTES: int := 255
  const MAX_INT64: int := 0x7fff_ffff_ffff_ffff

  datatype Platform = Platform(os: string, architecture: string, variant: string)

  datatype Generation = Generation(capsule: string, branch: string, ref: GenerationRef, parent: Option<GenerationRef>,
                                   archivePath: string, metadataPath: string)

  datatype Payload = Payload(role: string, name: string, version: string, repository: string, commit: string,
                             platform: Option<Platform>, path: string, size: int, sha: string, executableSha: string,
                             mediaType: string)

  datatype Image = Image(role: string, reference: string, digest: string, platform: Platform)

  /** An instant as written in some time zone. */
  datatype Stamp = Stamp(instant: Time, zone: int)

  datatype Trust = Trust(status: string, verifier: string, verifiedAt: Option<Stamp>, evidencePath: string)

  datatype KitLineage = KitLineage(kitId: string, exportedAt: Stamp, source: GenerationRef, parentKit: string)

  datatype Manifest = Manifest(schema: int, generation: Generation, platforms: seq<Platform>, payloads: seq<Payload>,
                               images: seq<Image>, trust: Trust, lineage: KitLineage)

  /** The library functions in use: JSON encoding and decoding, and the grammar of image names without a tag. */
  datatype Library = Library(encode: Manifest -> string, decode: string -> Option<Manifest>, imageName: string -> bool)

  ghost predicate Lossless(lib: Library) { forall m :: lib.decode(lib.encode(m)) == Some(m) }

  // ---------------------------------------------------------------- strings

  predicate Hex(v: string, n: nat) { |v| == n && forall i :: 0 <= i < n ==> LowerHex(v[i]) }

  predicate Alphanumeric(c: char) { 'a' <= c <= 'z' || 'A' <= c <= 'Z' || '0' <= c <= '9' }

  predicate SafeSegment(v: string) {
    0 < |v| <= MAX_STRING_BYTES && Alphanumeric(v[0]) && forall i :: 0 < i < |v| ==> Alphanumeric(v[i]) || v[i] in "._-"
  }

  predicate Bounded(v: string) {
    |v| <= MAX_STRING_BYTES && forall i :: 0 <= i < |v| ==> v[i] >= ' ' && v[i] != '\U{7F}'
  }

  predicate ValidPart(part: string) { part != "" && part != "." && part != ".." && ':' !in part }

  predicate ValidPath(v: string) {
    && 0 < |v| <= MAX_PATH_BYTES && (forall i :: 0 <= i < |v| ==> ' ' <= v[i] < '\U{7F}')
    && "payloads/" <= v && (forall i :: 0 <= i < |v| ==> v[i] !in "\\?#")
    && |Keys.Split(v)| >= 2 && forall i :: 0 <= i < |Keys.Split(v)| ==> ValidPart(Keys.Split(v)[i])
  }

  /** Where a path leads from a directory, part by part. */
  function Walk(at: seq<string>, parts: seq<string>): seq<string>
    decreases |parts|
  {
    if parts == [] then at
    else
      var part := parts[0];
      Walk(if part == "" || part == "." then at else if part != ".." then at + [part]
           else if at == [] then [] else at[..|at| - 1], parts[1..])
  }

  lemma {:induction false} WalkPlain(at: seq<string>, parts: seq<string>)
    requires forall i :: 0 <= i < |parts| ==> ValidPart(parts[i])
    ensures Walk(at, parts) == at + parts
    decreases |parts|
  {
    if parts != [] {
      assert ValidPart(parts[0]);
      WalkPlain(at + [parts[0]], parts[1..]);
      assert at + [parts[0]] + parts[1..] == at + parts;
    }
  }

  /** A valid path leads from every directory to a place below its `payloads`, and on the way never above it. */
  lemma PathStaysInside(base: seq<string>, v: string, n: nat)
    requires ValidPath(v) && n <= |Keys.Split(v)|
    ensures Keys.Split(v)[0] == "payloads" && Walk(base, Keys.Split(v)[..n]) == base + Keys.Split(v)[..n]
  {
    WalkPlain(base, Keys.Split(v)[..n]);
    assert v == "payloads" + "/" + v[9..];
    Keys.SplitFirst("payloads", v[9..]);
  }

  // ---------------------------------------------------------------- sort keys

  function PlatformKey(p: Platform): string { p.os + "\0" + p.architecture + "\0" + p.variant }

  function PayloadPlatform(p: Payload): string { if p.platform.Some? then PlatformKey(p.platform.value) else "-" }

  function IdentityKey(p: Payload): string { p.role + "\0" + p.name + "\0" + PayloadPlatform(p) }

  function PayloadKey(p: Payload): string { p.role + "\0" + p.name + "\0" + PayloadPlatform(p) + "\0" + p.path }

  function ImageKey(i: Image): string { i.role + "\0" + i.reference + "\0" + PlatformKey(i.platform) }

  function PathOf(p: Payload): string { p.path }

  // ---------------------------------------------------------------- rules

  predicate ValidPlatform(p: Platform) { p.os == "linux" && p.architecture in {"amd64", "arm64"} && p.variant == "" }

  predicate ValidPlatforms(ps: seq<Platform>) {
    1 <= |ps| <= MAX_PLATFORMS && (forall p :: p in ps ==> ValidPlatform(p)) && DistinctKeys(ps, PlatformKey)
  }

  predicate Supported(ps: seq<Platform>, key: string) { exists i :: 0 <= i < |ps| && PlatformKey(ps[i]) == key }

  const ROLES := {"camp", "generation-archive", "generation-metadata", "runtime", "tool", "devpod-provider",
                  "trust-evidence"}

  predicate ValidPayload(p: Payload, platforms: seq<Platform>) {
    && p.role in ROLES
    && Bounded(p.name) && Bounded(p.version) && Bounded(p.repository) && Bounded(p.commit) && Bounded(p.mediaType)
    && p.name != "" && p.mediaType != "" && ValidPath(p.path) && 0 < p.size <= MAX_INT64 && Hex(p.sha, 64)
    && (if p.role in {"generation-archive", "generation-metadata", "trust-evidence"} then p.platform.None?
        else p.platform.Some? && Supported(platforms, PlatformKey(p.platform.value)) && Hex(p.executableSha, 64))
    && (p.role == "tool" ==>
          && p.repository != "" && p.version != "" && Hex(p.commit, 40) && p.name in {"devpod", "hauler"}
          && (p.name == "devpod" ==> p.sha == p.executableSha))
  }

  /** `a` lies below `b`. */
  predicate Below(a: string, b: string) { b + "/" <= a }

  /** All paths differ, and none is a directory of another. */
  predicate Apart(ps: seq<Payload>) {
    && DistinctKeys(ps, PathOf)
    && forall p, q :: p in ps && q in ps && p.path != q.path ==> !Below(p.path, q.path)
  }

  function SizeOf(p: Payload): nat { if p.size < 0 then 0 else p.size }

  predicate AllValid(ps: seq<Payload>, platforms: seq<Platform>) { forall p :: p in ps ==> ValidPayload(p, platforms) }

  predicate ValidPayloads(ps: seq<Payload>, platforms: seq<Platform>) {
    && AllValid(ps, platforms) && Apart(ps) && DistinctKeys(ps, IdentityKey)
    && Total(ps, SizeOf) <= MAX_INT64
  }

  function OfRole(role: string): Payload -> nat { (p: Payload) => if p.role == role then 1 else 0 }

  predicate BindsGeneration(g: Generation, ps: seq<Payload>) {
    && Total(ps, OfRole("generation-archive")) == 1 && Total(ps, OfRole("generation-metadata")) == 1
    && forall p :: p in ps ==>
         && (p.role == "generation-archive" ==> p.path == g.archivePath && p.sha == g.ref.sha)
         && (p.role == "generation-metadata" ==> p.path == g.metadataPath)
  }

  const REQUIRED := [("camp", ""), ("runtime", ""), ("devpod-provider", ""), ("tool", "devpod"), ("tool", "hauler")]

  function Requires(required: (string, string), platform: string): Payload -> nat {
    (p: Payload) =>
      if p.role == required.0 && p.platform.Some? && PlatformKey(p.platform.value) == platform
        && (required.1 == "" || p.name == required.1) then 1 else 0
  }

  predicate ClosedOver(ps: seq<Payload>, platforms: seq<Platform>) {
    forall q, r :: q in platforms && r in REQUIRED ==> Total(ps, Requires(r, PlatformKey(q))) == 1
  }

  predicate ValidReference(reference: string, digest: string, imageName: string -> bool) {
    && |digest| == 71 && digest[..7] == "sha256:" && Hex(digest[7..], 64)
    && 0 < |reference| <= MAX_STRING_BYTES && (forall i :: 0 <= i < |reference| ==> reference[i] !in " \t\r\n?#\\")
    && |reference| > 72 && reference[|reference| - 71..] == digest && reference[|reference| - 72] == '@'
    && imageName(reference[..|reference| - 72])
  }

  predicate ValidImage(i: Image, platforms: seq<Platform>, imageName: string -> bool) {
    && i.role in {"room", "workspace"} && Supported(platforms, PlatformKey(i.platform)) && Bounded(i.reference)
    && ValidReference(i.reference, i.digest, imageName)
  }

  function Rooms(platform: string): Image -> nat {
    (i: Image) => if i.role == "room" && PlatformKey(i.platform) == platform then 1 else 0
  }

  predicate AllImages(images: seq<Image>, platforms: seq<Platform>, imageName: string -> bool) {
    forall i :: i in images ==> ValidImage(i, platforms, imageName)
  }

  /** A reference stands for one platform. */
  predicate OnePlatform(images: seq<Image>) {
    forall i, k :: i in images && k in images && i.reference == k.reference ==>
        PlatformKey(i.platform) == PlatformKey(k.platform)
  }

  predicate ValidImages(images: seq<Image>, platforms: seq<Platform>, imageName: string -> bool) {
    && |images| <= MAX_IMAGES && ImagesSoFar(images, platforms, imageName)
    && forall q :: q in platforms ==> Total(images, Rooms(PlatformKey(q))) == 1
  }

  predicate ImagesSoFar(images: seq<Image>, platforms: seq<Platform>, imageName: string -> bool) {
    AllImages(images, platforms, imageName) && DistinctKeys(images, ImageKey) && OnePlatform(images)
  }

  predicate ValidGeneration(g: Generation) {
    && SafeSegment(g.capsule) && SafeSegment(g.branch) && ValidRef(g.ref) && ValidParent(g.ref, g.parent)
    && ValidPath(g.archivePath) && ValidPath(g.metadataPath) && g.archivePath != g.metadataPath
  }

  predicate ValidKitLineage(l: KitLineage, ref: GenerationRef) {
    SafeSegment(l.kitId) && l.exportedAt.instant != 0 && l.source == ref && (l.parentKit != "" ==> Hex(l.parentKit, 64))
  }

  predicate ValidTrust(t: Trust, exportedAt: Stamp, ps: seq<Payload>) {
    && Bounded(t.verifier)
    && match t.status
       case "unverified" =>
         t.verifier == "" && t.verifiedAt.None? && t.evidencePath == "" && Total(ps, OfRole("trust-evidence")) == 0
       case _ =>
         && t.status in {"verified", "rejected"}
         && |t.verifier| == 71 && t.verifier[..7] == "sha256:" && Hex(t.verifier[7..], 64)
         && t.verifiedAt.Some? && 0 < t.verifiedAt.value.instant <= exportedAt.instant
         && Total(ps, OfRole("trust-evidence")) == 1 && t.evidencePath != ""
         && forall p :: p in ps && p.role == "trust-evidence" ==> p.path == t.evidencePath
  }

  predicate Valid(m: Manifest, lib: Library) {
    && m.schema == SCHEMA && ValidGeneration(m.generation) && ValidPlatforms(m.platforms)
    && 1 <= |m.payloads| <= MAX_PAYLOADS && ValidKitLineage(m.lineage, m.generation.ref)
    && ValidPayloads(m.payloads, m.platforms) && BindsGeneration(m.generation, m.payloads)
    && ClosedOver(m.payloads, m.platforms) && ValidImages(m.images, m.platforms, lib.imageName)
    && ValidTrust(m.trust, m.lineage.exportedAt, m.payloads)
  }

  // ---------------------------------------------------------------- canonical form

  function Utc(s: Stamp): Stamp { s.(zone := 0) }

  function InUtc(m: Manifest): Manifest {
    m.(lineage := m.lineage.(exportedAt := Utc(m.lineage.exportedAt)),
       trust := if m.trust.verifiedAt.None? then m.trust
                else m.trust.(verifiedAt := Some(Utc(m.trust.verifiedAt.value))))
  }

  function Normalise(m: Manifest): Manifest {
    InUtc(m).(platforms := Sort(m.platforms, PlatformKey), payloads := Sort(m.payloads, PayloadKey),
              images := Sort(m.images, ImageKey))
  }

  /** All of a manifest but the order of its lists and the zones of its stamps. */
  function Unordered(m: Manifest): (Manifest, multiset<Platform>, multiset<Payload>, multiset<Image>) {
    (InUtc(m).(platforms := [], payloads := [], images := []), multiset(m.platforms), multiset(m.payloads),
     multiset(m.images))
  }

  predicate SameUpToOrder(m: Manifest, n: Manifest) { Unordered(m) == Unordered(n) }

  lemma NormaliseKeeps(m: Manifest)
    ensures SameUpToOrder(m, Normalise(m))
  {}

  // ---------------------------------------------------------------- rules do not see the order

  lemma Members<T>(a: seq<T>, b: seq<T>)
    requires multiset(a) == multiset(b)
    ensures forall x :: x in a <==> x in b
    ensures |a| == |b|
  {
    SameSize(a, b);
    forall x ensures x in a <==> x in b {
      Within(a, x);
      Within(b, x);
    }
  }

  lemma SupportedPermutes(a: seq<Platform>, b: seq<Platform>, key: string)
    requires multiset(a) == multiset(b) && Supported(a, key)
    ensures Supported(b, key)
  {
    var i :| 0 <= i < |a| && PlatformKey(a[i]) == key;
    Members(a, b);
    assert a[i] in b;
  }

  lemma PayloadPermutes(p: Payload, a: seq<Platform>, b: seq<Platform>)
    requires multiset(a) == multiset(b) && ValidPayload(p, a)
    ensures ValidPayload(p, b)
  {
    if p.platform.Some? && Supported(a, PlatformKey(p.platform.value)) {
      SupportedPermutes(a, b, PlatformKey(p.platform.value));
    }
  }

  lemma PayloadsPermute(ps: seq<Payload>, qs: seq<Payload>, a: seq<Platform>, b: seq<Platform>)
    requires multiset(ps) == multiset(qs) && multiset(a) == multiset(b) && ValidPayloads(ps, a)
    ensures ValidPayloads(qs, b)
  {
    Members(ps, qs);
    KeysPermute(ps, qs, PathOf);
    KeysPermute(ps, qs, IdentityKey);
    TotalPermutes(ps, qs, SizeOf);
    forall p | p in qs ensures ValidPayload(p, b) { PayloadPermutes(p, a, b); }
  }

  lemma ImagesPermute(xs: seq<Image>, ys: seq<Image>, a: seq<Platform>, b: seq<Platform>, imageName: string -> bool)
    requires multiset(xs) == multiset(ys) && multiset(a) == multiset(b) && ValidImages(xs, a, imageName)
    ensures ValidImages(ys, b, imageName)
  {
    Members(xs, ys);
    Members(a, b);
    KeysPermute(xs, ys, ImageKey);
    forall i | i in ys ensures ValidImage(i, b, imageName) { SupportedPermutes(a, b, PlatformKey(i.platform)); }
    forall q | q in b ensures Total(ys, Rooms(PlatformKey(q))) == 1 { TotalPermutes(xs, ys, Rooms(PlatformKey(q))); }
  }

  lemma ClosurePermutes(ps: seq<Payload>, qs: seq<Payload>, a: seq<Platform>, b: seq<Platform>)
    requires multiset(ps) == multiset(qs) && multiset(a) == multiset(b) && ClosedOver(ps, a)
    ensures ClosedOver(qs, b)
  {
    Members(a, b);
    forall q, r | q in b && r in REQUIRED ensures Total(qs, Requires(r, PlatformKey(q))) == 1 {
      TotalPermutes(ps, qs, Requires(r, PlatformKey(q)));
    }
  }

  lemma BindingsPermute(m: Manifest, n: Manifest)
    requires SameUpToOrder(m, n) && BindsGeneration(m.generation, m.payloads)
    requires ValidTrust(m.trust, m.lineage.exportedAt, m.payloads)
    ensures BindsGeneration(n.generation, n.payloads) && ValidTrust(n.trust, n.lineage.exportedAt, n.payloads)
  {
    Members(m.payloads, n.payloads);
    TotalPermutes(m.payloads, n.payloads, OfRole("generation-archive"));
    TotalPermutes(m.payloads, n.payloads, OfRole("generation-metadata"));
    TotalPermutes(m.payloads, n.payloads, OfRole("trust-evidence"));
    assert InUtc(m).generation == InUtc(n).generation && InUtc(m).trust == InUtc(n).trust &&
           InUtc(m).lineage == InUtc(n).lineage;
  }

  /** Validity does not depend on the order of platforms, payloads or images, nor on time zones. */
  lemma ValidPermutes(m: Manifest, n: Manifest, lib: Library)
    requires Valid(m, lib) && SameUpToOrder(m, n)
    ensures Valid(n, lib)
  {
    assert Unordered(m).0 == Unordered(n).0;
    Members(m.platforms, n.platforms);
    Members(m.payloads, n.payloads);
    KeysPermute(m.platforms, n.platforms, PlatformKey);
    PayloadsPermute(m.payloads, n.payloads, m.platforms, n.platforms);
    ImagesPermute(m.images, n.images, m.platforms, n.platforms, lib.imageName);
    ClosurePermutes(m.payloads, n.payloads, m.platforms, n.platforms);
    BindingsPermute(m, n);
  }

  // ---------------------------------------------------------------- one canonical form

  /** What follows the last zero byte is determined. */
  lemma AfterLastZero(a: string, x: string, b: string, y: string)
    requires a + "\0" + x == b + "\0" + y && '\0' !in x && '\0' !in y
    ensures x == y
  {
    var s := a + "\0" + x;
    assert s[|a|] == '\0' && s[|b|] == '\0' && s[|a| + 1..] == x && s[|b| + 1..] == y;
  }

  /** Payload keys end in distinct paths, and paths hold no zero byte, so the keys are distinct. */
  lemma PayloadKeysDistinct(ps: seq<Payload>, platforms: seq<Platform>)
    requires ValidPayloads(ps, platforms)
    ensures DistinctKeys(ps, PayloadKey)
  {
    forall i, j | 0 <= i < j < |ps| ensures PayloadKey(ps[i]) != PayloadKey(ps[j]) {
      assert PathOf(ps[i]) != PathOf(ps[j]);
      assert ps[i] in ps && ps[j] in ps;
      assert '\0' !in ps[i].path && '\0' !in ps[j].path;
      if PayloadKey(ps[i]) == PayloadKey(ps[j]) {
        AfterLastZero(IdentityKey(ps[i]), ps[i].path, IdentityKey(ps[j]), ps[j].path);
      }
    }
  }

  /** `Normalise` is the one result of any sort by these keys, stable or not, from any order. */
  lemma NormaliseUnique(m: Manifest, n: Manifest, lib: Library)
    requires Valid(m, lib) && SameUpToOrder(m, n)
    requires SortedBy(n.platforms, PlatformKey) && SortedBy(n.payloads, PayloadKey) && SortedBy(n.images, ImageKey)
    requires InUtc(n) == n
    ensures n == Normalise(m)
  {
    PayloadKeysDistinct(m.payloads, m.platforms);
    AnySortAgrees(m.platforms, n.platforms, PlatformKey);
    AnySortAgrees(m.payloads, n.payloads, PayloadKey);
    AnySortAgrees(m.images, n.images, ImageKey);
    assert Unordered(m).0 == Unordered(n).0;
    assert n == Unordered(n).0.(platforms := n.platforms, payloads := n.payloads, images := n.images);
  }

  lemma NormaliseAgrees(m: Manifest, n: Manifest, lib: Library)
    requires Valid(m, lib) && SameUpToOrder(m, n)
    ensures Normalise(m) == Normalise(n)
  {
    NormaliseKeeps(n);
    NormaliseUnique(m, Normalise(n), lib);
  }

  lemma NormaliseIdempotent(m: Manifest, lib: Library)
    requires Valid(m, lib)
    ensures Normalise(Normalise(m)) == Normalise(m)
  {
    NormaliseKeeps(m);
    NormaliseAgrees(m, Normalise(m), lib);
  }

  ghost function Canonical(m: Manifest, lib: Library): Option<string> {
    if Valid(m, lib) then Some(lib.encode(Normalise(m))) else None
  }

  /** Any sorting routine: all that is known of it is that it rearranges and sorts. */
  method SortSlice<T(!new)>(s: seq<T>, key: T -> string) returns (r: seq<T>)
    ensures multiset(r) == multiset(s) && SortedBy(r, key)
  {
    r := Sort(s, key);
  }

  method MarshalCanonical(m: Manifest, lib: Library) returns (body: Option<string>)
    ensures body == Canonical(m, lib)
  {
    var ok := Validate(m, lib);
    if !ok { return None; }
    var c := InUtc(m);
    var platforms := SortSlice(c.platforms, PlatformKey);
    var payloads := SortSlice(c.payloads, PayloadKey);
    var images := SortSlice(c.images, ImageKey);
    c := c.(platforms := platforms, payloads := payloads, images := images);
    NormaliseUnique(m, c, lib);
    return Some(lib.encode(c));
  }

  /** Accepts exactly the canonical encodings that fit the size bound. */
  method DecodeCanonical(body: string, lib: Library) returns (m: Option<Manifest>)
    ensures m.Some? <==> Accepts(body, lib)
    ensures m.Some? ==> m == lib.decode(body)
  {
    if |body| > MAX_MANIFEST_BYTES { return None; }
    var decoded := lib.decode(body);
    if decoded.None? { return None; }
    var canonical := MarshalCanonical(decoded.value, lib);
    if canonical != Some(body) { return None; }
    return decoded;
  }

  ghost predicate Accepts(body: string, lib: Library) {
    && |body| <= MAX_MANIFEST_BYTES && lib.decode(body).Some?
    && Canonical(lib.decode(body).value, lib) == Some(body)
  }

  lemma CanonicalNormalised(m: Manifest, lib: Library)
    requires Valid(m, lib)
    ensures Canonical(Normalise(m), lib) == Canonical(m, lib)
  {
    NormaliseKeeps(m);
    ValidPermutes(m, Normalise(m), lib);
    NormaliseIdempotent(m, lib);
  }

  /** Decoding undoes encoding, up to normalisation, exactly for manifests whose encoding fits the bound that only
    * decoding enforces. */
  lemma RoundTrip(m: Manifest, lib: Library)
    requires Lossless(lib) && Valid(m, lib)
    ensures var body := lib.encode(Normalise(m));
            && Canonical(m, lib) == Some(body) && lib.decode(body) == Some(Normalise(m))
            && (Accepts(body, lib) <==> |body| <= MAX_MANIFEST_BYTES)
  {
    CanonicalNormalised(m, lib);
  }

  /** Whatever decoding accepts is valid, is its own normal form, and encodes to the same bytes. */
  lemma AcceptedIsCanonical(body: string, lib: Library)
    requires Lossless(lib) && Accepts(body, lib)
    ensures var m := lib.decode(body).value;
            Valid(m, lib) && Normalise(m) == m && lib.encode(m) == body
  {
    var m := lib.decode(body).value;
    assert lib.encode(Normalise(m)) == body;
    assert lib.decode(lib.encode(Normalise(m))) == Some(Normalise(m));
  }

  /** Two valid manifests encode alike exactly if they differ at most in the order of their lists and in the zones
    * of their stamps. */
  lemma CanonicalIff(m: Manifest, n: Manifest, lib: Library)
    requires Lossless(lib) && Valid(m, lib) && Valid(n, lib)
    ensures Canonical(m, lib) == Canonical(n, lib) <==> SameUpToOrder(m, n)
  {
    NormaliseKeeps(m);
    NormaliseKeeps(n);
    if SameUpToOrder(m, n) { NormaliseAgrees(m, n, lib); }
    assert lib.decode(lib.encode(Normalise(m))) == Some(Normalise(m));
    assert lib.decode(lib.encode(Normalise(n))) == Some(Normalise(n));
  }

  // ---------------------------------------------------------------- the validation loops

  method ValidatePlatforms(ps: seq<Platform>) returns (ok: bool)
    ensures ok <==> ValidPlatforms(ps)
  {
    if |ps| == 0 || |ps| > MAX_PLATFORMS { return false; }
    var known := {};
    for i := 0 to |ps|
      invariant forall k :: 0 <= k < i ==> ValidPlatform(ps[k])
      invariant known == set k | 0 <= k < i :: PlatformKey(ps[k])
      invariant DistinctKeys(ps[..i], PlatformKey)
    {
      if !ValidPlatform(ps[i]) {
        assert ps[i] in ps;
        return false;
      }
      var key := PlatformKey(ps[i]);
      if key in known {
        var k :| 0 <= k < i && PlatformKey(ps[k]) == key;
        return false;
      }
      known := known + {key};
    }
    assert ps[..|ps|] == ps;
    return true;
  }

  lemma {:induction false} TotalSnoc<T>(s: seq<T>, x: T, weight: T -> nat)
    ensures Total(s + [x], weight) == Total(s, weight) + weight(x)
  {
    if s == [] {
      assert s + [x] == [x];
    } else {
      assert (s + [x])[1..] == s[1..] + [x];
      TotalSnoc(s[1..], x, weight);
    }
  }

  /** No clash between a payload and one seen before. */
  predicate Clear(p: Payload, q: Payload) {
    p.path != q.path && !Below(p.path, q.path) && !Below(q.path, p.path)
  }

  /** A list with one more payload is valid exactly if the list is, the payload is, and nothing clashes. */
  lemma SnocValid(ps: seq<Payload>, p: Payload, platforms: seq<Platform>)
    ensures ValidPayloads(ps + [p], platforms) <==>
            && ValidPayloads(ps, platforms) && ValidPayload(p, platforms)
            && SizeOf(p) <= MAX_INT64 - Total(ps, SizeOf)
            && (forall k :: 0 <= k < |ps| ==> Clear(p, ps[k]))
            && (forall k :: 0 <= k < |ps| ==> IdentityKey(ps[k]) != IdentityKey(p))
  {
    TotalSnoc(ps, p, SizeOf);
    SnocAll(ps, p, platforms);
    SnocApart(ps, p);
    SnocDistinct(ps, p, IdentityKey);
  }

  lemma SnocAll(ps: seq<Payload>, p: Payload, platforms: seq<Platform>)
    ensures AllValid(ps + [p], platforms) <==> AllValid(ps, platforms) && ValidPayload(p, platforms)
  {
    assert forall q :: q in ps + [p] <==> q in ps || q == p;
  }

  lemma SnocDistinct<T(!new)>(s: seq<T>, x: T, key: T -> string)
    ensures DistinctKeys(s + [x], key) <==> DistinctKeys(s, key) && forall k :: 0 <= k < |s| ==> key(s[k]) != key(x)
  {
    var more := s + [x];
    assert forall k :: 0 <= k < |s| ==> more[k] == s[k];
    assert more[|s|] == x;
  }

  lemma SnocApart(ps: seq<Payload>, p: Payload)
    ensures Apart(ps + [p]) <==> Apart(ps) && forall k :: 0 <= k < |ps| ==> Clear(p, ps[k])
  {
    SnocDistinct(ps, p, PathOf);
    assert forall q :: q in ps + [p] <==> q in ps || q == p;
  }

  lemma {:induction false} PrefixValid(ps: seq<Payload>, n: nat, platforms: seq<Platform>)
    requires n <= |ps| && !ValidPayloads(ps[..n], platforms)
    ensures !ValidPayloads(ps, platforms)
    decreases |ps| - n
  {
    if n == |ps| {
      assert ps[..n] == ps;
    } else {
      assert ps[..n + 1] == ps[..n] + [ps[n]];
      SnocValid(ps[..n], ps[n], platforms);
      PrefixValid(ps, n + 1, platforms);
    }
  }

  /** The comparison of one payload with the paths collected so far. */
  method ClearOfAll(ps: seq<Payload>, i: nat) returns (ok: bool)
    requires i < |ps|
    ensures ok <==> forall k :: 0 <= k < i ==> Clear(ps[i], ps[k])
  {
    for k := 0 to i
      invariant forall j :: 0 <= j < k ==> Clear(ps[i], ps[j])
    {
      if ps[i].path == ps[k].path || Below(ps[i].path, ps[k].path) || Below(ps[k].path, ps[i].path) { return false; }
    }
    return true;
  }

  /** No identity seen before. */
  predicate Unseen(ps: seq<Payload>, i: nat)
    requires i < |ps|
  {
    forall k :: 0 <= k < i ==> IdentityKey(ps[k]) != IdentityKey(ps[i])
  }

  /** The next payload is valid, keeps the total in range, and clashes with none before it. */
  predicate NextOk(ps: seq<Payload>, i: nat, platforms: seq<Platform>, total: int)
    requires i < |ps|
  {
    && ValidPayload(ps[i], platforms) && ps[i].size <= MAX_INT64 - total
    && (forall k :: 0 <= k < i ==> Clear(ps[i], ps[k])) && Unseen(ps, i)
  }

  lemma StepValid(ps: seq<Payload>, i: nat, platforms: seq<Platform>)
    requires i < |ps| && ValidPayloads(ps[..i], platforms)
    ensures ValidPayloads(ps[..i + 1], platforms) <==> NextOk(ps, i, platforms, Total(ps[..i], SizeOf))
    ensures ValidPayload(ps[i], platforms) ==> Total(ps[..i + 1], SizeOf) == Total(ps[..i], SizeOf) + ps[i].size
  {
    assert ps[..i + 1] == ps[..i] + [ps[i]];
    assert forall k :: 0 <= k < i ==> ps[..i][k] == ps[k];
    SnocValid(ps[..i], ps[i], platforms);
    TotalSnoc(ps[..i], ps[i], SizeOf);
  }

  /** The keys of a sequence. */
  function KeySet<T>(s: seq<T>, key: T -> string): set<string> {
    if s == [] then {} else KeySet(s[..|s| - 1], key) + {key(s[|s| - 1])}
  }

  lemma {:induction false} KeySetMeans<T>(s: seq<T>, key: T -> string, x: string)
    ensures x !in KeySet(s, key) <==> forall k :: 0 <= k < |s| ==> key(s[k]) != x
  {
    if s != [] {
      var rest := s[..|s| - 1];
      KeySetMeans(rest, key, x);
      assert forall k :: 0 <= k < |rest| ==> rest[k] == s[k];
    }
  }

  lemma KeySetSnoc<T>(s: seq<T>, i: nat, key: T -> string)
    requires i < |s|
    ensures KeySet(s[..i + 1], key) == KeySet(s[..i], key) + {key(s[i])}
  {
    assert s[..i + 1][..i] == s[..i];
  }

  lemma UnseenMeans(ps: seq<Payload>, i: nat)
    requires i < |ps|
    ensures IdentityKey(ps[i]) !in KeySet(ps[..i], IdentityKey) <==> Unseen(ps, i)
  {
    KeySetMeans(ps[..i], IdentityKey, IdentityKey(ps[i]));
    assert forall k :: 0 <= k < i ==> ps[..i][k] == ps[k];
  }

  method ValidateNext(ps: seq<Payload>, i: nat, platforms: seq<Platform>, total: int, semantic: set<string>)
    returns (ok: bool)
    requires i < |ps| && semantic == KeySet(ps[..i], IdentityKey)
    ensures ok <==> NextOk(ps, i, platforms, total)
  {
    UnseenMeans(ps, i);
    ok := ValidPayload(ps[i], platforms);
    if !ok { return; }
    if ps[i].size > MAX_INT64 - total { return false; }
    ok := ClearOfAll(ps, i);
    if !ok { return; }
    return IdentityKey(ps[i]) !in semantic;
  }

  /** One pass with a running total that never overflows, against each path and identity seen before. */
  method ValidatePayloads(ps: seq<Payload>, platforms: seq<Platform>) returns (ok: bool)
    ensures ok <==> ValidPayloads(ps, platforms)
  {
    var semantic := {};
    var total := 0;
    for i := 0 to |ps|
      invariant ValidPayloads(ps[..i], platforms)
      invariant total == Total(ps[..i], SizeOf) && semantic == KeySet(ps[..i], IdentityKey)
    {
      var next := ValidateNext(ps, i, platforms, total, semantic);
      StepValid(ps, i, platforms);
      if !next {
        PrefixValid(ps, i + 1, platforms);
        return false;
      }
      total := total + ps[i].size;
      KeySetSnoc(ps, i, IdentityKey);
      semantic := semantic + {IdentityKey(ps[i])};
    }
    assert ps[..|ps|] == ps;
    return true;
  }

  lemma SnocImages(images: seq<Image>, i: Image, platforms: seq<Platform>, imageName: string -> bool)
    ensures ImagesSoFar(images + [i], platforms, imageName) <==>
            && ImagesSoFar(images, platforms, imageName) && ValidImage(i, platforms, imageName)
            && (forall k :: 0 <= k < |images| ==> ImageKey(images[k]) != ImageKey(i))
            && Agree(images, ReferenceOf, ImagePlatform, i.reference, ImagePlatform(i))
  {
    SnocDistinct(images, i, ImageKey);
    assert forall q :: q in images + [i] <==> q in images || q == i;
  }

  lemma {:induction false} PrefixImages(images: seq<Image>, n: nat, platforms: seq<Platform>, imageName: string -> bool)
    requires n <= |images| && !ImagesSoFar(images[..n], platforms, imageName)
    ensures !ImagesSoFar(images, platforms, imageName)
    decreases |images| - n
  {
    if n == |images| {
      assert images[..n] == images;
    } else {
      assert images[..n + 1] == images[..n] + [images[n]];
      SnocImages(images[..n], images[n], platforms, imageName);
      PrefixImages(images, n + 1, platforms, imageName);
    }
  }

  /** The last value given to each reference in a sequence. */
  function LastValues<T>(s: seq<T>, ref: T -> string, value: T -> string): map<string, string> {
    if s == [] then map[] else LastValues(s[..|s| - 1], ref, value)[ref(s[|s| - 1]) := value(s[|s| - 1])]
  }

  predicate Agree<T(!new)>(s: seq<T>, ref: T -> string, value: T -> string, r: string, v: string) {
    forall k :: 0 <= k < |s| && ref(s[k]) == r ==> value(s[k]) == v
  }

  /** If all uses of a reference agree, they agree on its last value. */
  lemma {:induction false} LastValuesMeans<T(!new)>(s: seq<T>, ref: T -> string, value: T -> string, r: string)
    ensures r !in LastValues(s, ref, value) <==> forall k :: 0 <= k < |s| ==> ref(s[k]) != r
    ensures r in LastValues(s, ref, value) ==> exists k ::
            0 <= k < |s| && ref(s[k]) == r && value(s[k]) == LastValues(s, ref, value)[r]
  {
    if s != [] {
      var n := |s| - 1;
      var rest := s[..n];
      LastValuesMeans(rest, ref, value, r);
      assert forall k :: 0 <= k < n ==> rest[k] == s[k];
      if ref(s[n]) != r && r in LastValues(rest, ref, value) {
        var k :| 0 <= k < n && ref(rest[k]) == r && value(rest[k]) == LastValues(rest, ref, value)[r];
        assert ref(s[k]) == r && value(s[k]) == LastValues(s, ref, value)[r];
      }
    }
  }

  lemma LastValuesSnoc<T>(s: seq<T>, i: nat, ref: T -> string, value: T -> string)
    requires i < |s|
    ensures LastValues(s[..i + 1], ref, value) == LastValues(s[..i], ref, value)[ref(s[i]) := value(s[i])]
  {
    assert s[..i + 1][..i] == s[..i];
  }

  function ReferenceOf(i: Image): string { i.reference }

  function ImagePlatform(i: Image): string { PlatformKey(i.platform) }

  lemma OneValue(images: seq<Image>, image: Image)
    requires OnePlatform(images)
    ensures var last := LastValues(images, ReferenceOf, ImagePlatform);
            Agree(images, ReferenceOf, ImagePlatform, image.reference, ImagePlatform(image)) <==>
            (image.reference in last ==> last[image.reference] == ImagePlatform(image))
  {
    var last := LastValues(images, ReferenceOf, ImagePlatform);
    LastValuesMeans(images, ReferenceOf, ImagePlatform, image.reference);
    if image.reference in last {
      var k :| 0 <= k < |images| && ReferenceOf(images[k]) == image.reference &&
          ImagePlatform(images[k]) == last[image.reference];
      assert images[k] in images;
      forall j | 0 <= j < |images| && ReferenceOf(images[j]) == image.reference
        ensures ImagePlatform(images[j]) == ImagePlatform(images[k])
      {
        assert images[j] in images;
      }
    }
  }

  method ValidateNextImage(images: seq<Image>, i: nat, platforms: seq<Platform>, imageName: string -> bool,
                           semantic: set<string>, digestPlatforms: map<string, string>) returns (ok: bool)
    requires i < |images| && ImagesSoFar(images[..i], platforms, imageName)
    requires semantic == KeySet(images[..i], ImageKey)
    requires digestPlatforms == LastValues(images[..i], ReferenceOf, ImagePlatform)
    ensures ok <==> ImagesSoFar(images[..i + 1], platforms, imageName)
  {
    assert images[..i + 1] == images[..i] + [images[i]];
    SnocImages(images[..i], images[i], platforms, imageName);
    KeySetMeans(images[..i], ImageKey, ImageKey(images[i]));
    OneValue(images[..i], images[i]);
    var key, reference, platform := ImageKey(images[i]), images[i].reference, ImagePlatform(images[i]);
    ok := ValidImage(images[i], platforms, imageName);
    if !ok || key in semantic { return false; }
    return reference !in digestPlatforms || digestPlatforms[reference] == platform;
  }

  method ValidateImages(images: seq<Image>, platforms: seq<Platform>, imageName: string -> bool) returns (ok: bool)
    requires |images| <= MAX_IMAGES
    ensures ok <==> ValidImages(images, platforms, imageName)
  {
    var semantic: set<string>, digestPlatforms: map<string, string> := {}, map[];
    for i := 0 to |images|
      invariant ImagesSoFar(images[..i], platforms, imageName)
      invariant semantic == KeySet(images[..i], ImageKey)
      invariant digestPlatforms == LastValues(images[..i], ReferenceOf, ImagePlatform)
    {
      var next := ValidateNextImage(images, i, platforms, imageName, semantic, digestPlatforms);
      if !next {
        PrefixImages(images, i + 1, platforms, imageName);
        return false;
      }
      KeySetSnoc(images, i, ImageKey);
      LastValuesSnoc(images, i, ReferenceOf, ImagePlatform);
      semantic := semantic + {ImageKey(images[i])};
      digestPlatforms := digestPlatforms[images[i].reference := ImagePlatform(images[i])];
    }
    assert images[..|images|] == images;
    return forall q :: q in platforms ==> Total(images, Rooms(PlatformKey(q))) == 1;
  }

  /** The whole validation accepts exactly the valid manifests. */
  method Validate(m: Manifest, lib: Library) returns (ok: bool)
    ensures ok <==> Valid(m, lib)
  {
    if m.schema != SCHEMA || !ValidGeneration(m.generation) { return false; }
    ok := ValidatePlatforms(m.platforms);
    if !ok { return; }
    if |m.payloads| == 0 || |m.payloads| > MAX_PAYLOADS || |m.images| > MAX_IMAGES { return false; }
    if !ValidKitLineage(m.lineage, m.generation.ref) { return false; }
    ok := ValidatePayloads(m.payloads, m.platforms);
    if !ok { return; }
    if !BindsGeneration(m.generation, m.payloads) || !ClosedOver(m.payloads, m.platforms) { return false; }
    ok := ValidateImages(m.images, m.platforms, lib.imageName);
    if !ok { return; }
    return ValidTrust(m.trust, m.lineage.exportedAt, m.payloads);
  }
}
