/** Object keys as strings, and why the kinds and identities they stand for never collide. */
module Keys {
  import opened Domain

  // ---------------------------------------------------------------- slash-separated paths

  function Split(s: string): (parts: seq<string>)
    ensures |parts| >= 1
  {
    if s == "" then [""]
    else
      var rest := Split(s[1..]);
      if s[0] == '/' then [""] + rest else [[s[0]] + rest[0]] + rest[1..]
  }

  function Join(parts: seq<string>): string
    requires |parts| >= 1
  {
    if |parts| == 1 then parts[0] else parts[0] + "/" + Join(parts[1..])
  }

  predicate NoSlash(s: string) { '/' !in s }

  lemma {:induction false} JoinSplit(s: string)
    ensures Join(Split(s)) == s
  {
    if s != "" {
      JoinSplit(s[1..]);
      var rest := Split(s[1..]);
      if s[0] == '/' {
        assert ([""] + rest)[1..] == rest;
        assert s == "" + "/" + s[1..];
      } else {
        var head := [s[0]] + rest[0];
        if |rest| > 1 {
          assert ([head] + rest[1..])[1..] == rest[1..];
          assert head + "/" + Join(rest[1..]) == [s[0]] + Join(rest);
        }
        assert s == [s[0]] + s[1..];
      }
    }
  }

  lemma {:induction false} SplitFirst(a: string, rest: string)
    requires NoSlash(a)
    ensures Split(a + "/" + rest) == [a] + Split(rest)
  {
    var s := a + "/" + rest;
    if a == "" {
      assert s[1..] == rest;
    } else {
      assert s[1..] == a[1..] + "/" + rest;
      SplitFirst(a[1..], rest);
      assert [s[0]] + a[1..] == a;
    }
  }

  lemma {:induction false} SplitOne(a: string)
    requires NoSlash(a)
    ensures Split(a) == [a]
  {
    if a != "" {
      SplitOne(a[1..]);
      assert [a[0]] + a[1..] == a;
    }
  }

  lemma {:induction false} SplitJoin(parts: seq<string>)
    requires |parts| >= 1 && forall i | 0 <= i < |parts| :: NoSlash(parts[i])
    ensures Split(Join(parts)) == parts
  {
    if |parts| == 1 {
      SplitOne(parts[0]);
    } else {
      SplitJoin(parts[1..]);
      SplitFirst(parts[0], Join(parts[1..]));
    }
  }

  /** The lexical cleaning of a relative path: empty and dot elements go, and a double dot removes what
    * precedes it. */
  function CleanParts(parts: seq<string>): seq<string> {
    if parts == [] then []
    else
      var before := CleanParts(parts[..|parts| - 1]);
      var last := parts[|parts| - 1];
      if last == "" || last == "." then before
      else if last == ".." && before != [] && before[|before| - 1] != ".." then before[..|before| - 1]
      else before + [last]
  }

  function Clean(path: string): string {
    var parts := CleanParts(Split(path));
    if parts == [] then "." else Join(parts)
  }

  function Dir(path: string): string {
    var parts := Split(path);
    if |parts| == 1 then "." else Clean(Join(parts[..|parts| - 1]))
  }

  predicate PlainParts(parts: seq<string>) {
    forall i | 0 <= i < |parts| :: NoSlash(parts[i]) && parts[i] != "" && parts[i] != "." && parts[i] != ".."
  }

  lemma {:induction false} CleanPlain(parts: seq<string>)
    requires PlainParts(parts)
    ensures CleanParts(parts) == parts
  {
    if parts != [] {
      CleanPlain(parts[..|parts| - 1]);
      assert parts == parts[..|parts| - 1] + [parts[|parts| - 1]];
    }
  }

  lemma CleanJoin(parts: seq<string>)
    requires |parts| >= 1 && PlainParts(parts)
    ensures Clean(Join(parts)) == Join(parts)
  {
    SplitJoin(parts);
    CleanPlain(parts);
  }

  // ---------------------------------------------------------------- decimal numbers

  function Digit(d: nat): (c: char)
    requires d < 10
    ensures '0' <= c <= '9'
  {
    '0' + d as char
  }

  function Decimal(n: nat): (s: string)
    ensures |s| >= 1 && NoSlash(s)
  {
    if n < 10 then [Digit(n)] else Decimal(n / 10) + [Digit(n % 10)]
  }

  lemma {:induction false} DecimalInjective(a: nat, b: nat)
    requires Decimal(a) == Decimal(b)
    ensures a == b
  {
    var last := |Decimal(a)| - 1;
    assert Decimal(a)[last] == Decimal(b)[last];
    if a >= 10 && b >= 10 {
      assert Decimal(a)[..last] == Decimal(a / 10) && Decimal(b)[..last] == Decimal(b / 10);
      DecimalInjective(a / 10, b / 10);
    }
  }

  // ---------------------------------------------------------------- keys

  function PointerPath(capsule: string, lineage: Lineage): string {
    if lineage.IsMain() then capsule + "/latest.json" else capsule + "/branches/" + lineage.branch + "/latest.json"
  }

  function LeasePath(capsule: string, lineage: Lineage): string {
    if lineage.IsMain() then capsule + "/leases/writer.json"
    else capsule + "/branches/" + lineage.branch + "/leases/writer.json"
  }

  function MetadataPrefix(capsule: string, lineage: Lineage): string {
    Clean(Dir(PointerPath(capsule, lineage)) + "/" + "generations") + "/"
  }

  function Path(key: Key): string {
    match key
    case PointerKey(c, l) => PointerPath(c, l)
    case LeaseKey(c, l) => LeasePath(c, l)
    case ArchiveKey(c, r) => c + "/generations/" + Decimal(r.generation) + "-" + r.sha + ".tar.zst"
    case SidecarKey(c, l, r) => MetadataPrefix(c, l) + Decimal(r.generation) + "-" + r.sha + ".json"
  }

  predicate ValidKey(key: Key) {
    match key
    case PointerKey(c, l) => ValidLineage(c, l)
    case LeaseKey(c, l) => ValidLineage(c, l)
    case ArchiveKey(c, r) => ValidSegment(c) && ValidRef(r)
    case SidecarKey(c, l, r) => ValidLineage(c, l) && ValidRef(r)
  }

  /** Where a lineage keeps its documents. */
  function Home(capsule: string, lineage: Lineage): seq<string> {
    if lineage.IsMain() then [capsule] else [capsule, "branches", lineage.branch]
  }

  function FileName(r: GenerationRef, suffix: string): string { Decimal(r.generation) + "-" + r.sha + suffix }

  /** The parts a key is made of. */
  function Parts(key: Key): seq<string> {
    match key
    case PointerKey(c, l) => Home(c, l) + ["latest.json"]
    case LeaseKey(c, l) => Home(c, l) + ["leases", "writer.json"]
    case ArchiveKey(c, r) => [c, "generations", FileName(r, ".tar.zst")]
    case SidecarKey(c, l, r) => Home(c, l) + ["generations", FileName(r, ".json")]
  }

  lemma SegmentIsPlain(s: string)
    requires ValidSegment(s)
    ensures NoSlash(s)
  {}

  lemma FileNameIsPlain(r: GenerationRef, suffix: string)
    requires ValidRef(r) && suffix in {".json", ".tar.zst"}
    ensures NoSlash(FileName(r, suffix)) && |FileName(r, suffix)| > 2
  {
    assert forall i | 0 <= i < |r.sha| :: LowerHex(r.sha[i]);
  }

  lemma HomeIsPlain(c: string, l: Lineage)
    requires ValidLineage(c, l)
    ensures PlainParts(Home(c, l))
  {
    SegmentIsPlain(c);
    SegmentIsPlain(l.branch);
  }

  lemma DirJoin(home: seq<string>, last: string)
    requires |home| >= 1 && PlainParts(home) && NoSlash(last)
    ensures Dir(Join(home) + "/" + last) == Join(home)
  {
    var parts := home + [last];
    JoinAppend(home, last);
    SplitJoin(parts);
    assert parts[..|parts| - 1] == home;
    CleanJoin(home);
  }

  lemma MetadataPrefixIs(c: string, l: Lineage)
    requires ValidLineage(c, l)
    ensures MetadataPrefix(c, l) == Join(Home(c, l) + ["generations"]) + "/"
  {
    HomeIsPlain(c, l);
    PointerJoins(c, l);
    DirJoin(Home(c, l), "latest.json");
    JoinAppend(Home(c, l), "generations");
    CleanJoin(Home(c, l) + ["generations"]);
  }

  lemma HomeJoins(c: string, l: Lineage)
    ensures Join(Home(c, l)) == if l.IsMain() then c else c + "/branches/" + l.branch
  {
    if !l.IsMain() {
      var home := Home(c, l);
      assert home[1..] == ["branches", l.branch] && home[1..][1..] == [l.branch];
      assert Join(home[1..]) == "branches" + "/" + l.branch;
    }
  }

  lemma {:induction false} JoinAppend(parts: seq<string>, last: string)
    requires |parts| >= 1
    ensures Join(parts + [last]) == Join(parts) + "/" + last
  {
    if |parts| > 1 {
      JoinAppend(parts[1..], last);
      assert (parts + [last])[1..] == parts[1..] + [last];
    } else {
      assert (parts + [last])[1..] == [last];
    }
  }

  /** Two more parts under a joined prefix. */
  lemma JoinTwo(home: seq<string>, directory: string, name: string)
    requires |home| >= 1
    ensures Join(home + [directory, name]) == Join(home) + "/" + directory + "/" + name
    ensures Join(home + [directory]) + "/" + name == Join(home + [directory, name])
  {
    JoinAppend(home, directory);
    JoinAppend(home + [directory], name);
    assert home + [directory] + [name] == home + [directory, name];
  }

  lemma PartsArePlain(key: Key)
    requires ValidKey(key)
    ensures PlainParts(Parts(key))
  {
    match key {
      case PointerKey(c, l) => HomeIsPlain(c, l);
      case LeaseKey(c, l) => HomeIsPlain(c, l);
      case ArchiveKey(c, r) => SegmentIsPlain(c); FileNameIsPlain(r, ".tar.zst");
      case SidecarKey(c, l, r) => HomeIsPlain(c, l); FileNameIsPlain(r, ".json");
    }
  }

  lemma LeaseJoins(c: string, l: Lineage)
    ensures LeasePath(c, l) == Join(Home(c, l)) + "/" + "leases" + "/" + "writer.json"
  {
    HomeJoins(c, l);
    var home := Join(Home(c, l));
    assert "/leases/writer.json" == "/" + "leases" + "/" + "writer.json";
    assert home + "/leases/writer.json" == home + "/" + "leases" + "/" + "writer.json";
  }

  lemma PointerJoins(c: string, l: Lineage)
    ensures PointerPath(c, l) == Join(Home(c, l)) + "/" + "latest.json"
  {
    HomeJoins(c, l);
    assert "/latest.json" == "/" + "latest.json";
    assert Join(Home(c, l)) + "/latest.json" == Join(Home(c, l)) + "/" + "latest.json";
  }

  lemma NameJoins(prefix: string, r: GenerationRef, suffix: string)
    ensures prefix + Decimal(r.generation) + "-" + r.sha + suffix == prefix + FileName(r, suffix)
  {}

  lemma ArchiveJoins(c: string, name: string)
    ensures c + "/generations/" + name == c + "/" + "generations" + "/" + name
  {
    assert "/generations/" == "/" + "generations" + "/";
  }

  lemma PathJoins(key: Key)
    requires ValidKey(key)
    ensures Path(key) == Join(Parts(key))
  {
    match key {
      case PointerKey(c, l) =>
        PointerJoins(c, l);
        JoinAppend(Home(c, l), "latest.json");
      case LeaseKey(c, l) =>
        LeaseJoins(c, l);
        JoinTwo(Home(c, l), "leases", "writer.json");
      case ArchiveKey(c, r) =>
        var name := FileName(r, ".tar.zst");
        NameJoins(c + "/generations/", r, ".tar.zst");
        ArchiveJoins(c, name);
        JoinTwo([c], "generations", name);
        assert [c] + ["generations", name] == Parts(key);
      case SidecarKey(c, l, r) =>
        NameJoins(MetadataPrefix(c, l), r, ".json");
        MetadataPrefixIs(c, l);
        JoinTwo(Home(c, l), "generations", FileName(r, ".json"));
    }
  }

  /** A key's string is its parts joined by slashes, none of which contains one. */
  lemma PathIsParts(key: Key)
    requires ValidKey(key)
    ensures Path(key) == Join(Parts(key)) && Split(Path(key)) == Parts(key)
  {
    PathJoins(key);
    PartsArePlain(key);
    SplitJoin(Parts(key));
  }

  lemma FileNameInjective(r: GenerationRef, s: GenerationRef, suffix: string, suffix': string)
    requires ValidRef(r) && ValidRef(s) && suffix in {".json", ".tar.zst"} && suffix' in {".json", ".tar.zst"}
    requires FileName(r, suffix) == FileName(s, suffix')
    ensures r == s && suffix == suffix'
  {
    var a, b := FileName(r, suffix), FileName(s, suffix');
    assert a[|a| - 1] == suffix[|suffix| - 1] && b[|b| - 1] == suffix'[|suffix'| - 1];
    assert suffix == suffix';
    var n := |Decimal(r.generation)|;
    assert a[..n] == Decimal(r.generation) && b[..n] == Decimal(s.generation);
    DecimalInjective(r.generation, s.generation);
    assert a[n + 1..n + 65] == r.sha && b[n + 1..n + 65] == s.sha;
  }

  /** Over all valid capsules, branches and generations, different keys have different strings: kinds are
    * disjoint, and a key determines its capsule, lineage and generation. So a write or conditional delete
    * of a lease can never reach a pointer, an archive or a sidecar. */
  lemma PathInjective(a: Key, b: Key)
    requires ValidKey(a) && ValidKey(b) && Path(a) == Path(b)
    ensures a == b
  {
    PathIsParts(a);
    PathIsParts(b);
    if a.ArchiveKey? || a.SidecarKey? {
      GenerationParts(a, b);
    } else if b.ArchiveKey? || b.SidecarKey? {
      GenerationParts(b, a);
    } else {
      LineageParts(a, b);
    }
  }

  lemma GenerationParts(a: Key, b: Key)
    requires ValidKey(a) && ValidKey(b) && Parts(a) == Parts(b) && (a.ArchiveKey? || a.SidecarKey?)
    ensures a == b
  {
    var p, q := Parts(a), Parts(b);
    assert p[0] == q[0] && p[|p| - 1] == q[|q| - 1];
    FileNameIsPlain(a.ref, if a.ArchiveKey? then ".tar.zst" else ".json");
    assert p[|p| - 2] == "generations" && q[|q| - 2] == "generations";
    LastNames(b);
    FileNameInjective(a.ref, b.ref, if a.ArchiveKey? then ".tar.zst" else ".json",
                      if b.ArchiveKey? then ".tar.zst" else ".json");
    if |p| >= 3 { assert p[2] == q[2]; }
  }

  lemma LineageParts(a: Key, b: Key)
    requires Parts(a) == Parts(b) && (a.PointerKey? || a.LeaseKey?) && (b.PointerKey? || b.LeaseKey?)
    ensures a == b
  {
    var p, q := Parts(a), Parts(b);
    assert p[0] == q[0] && p[|p| - 1] == q[|q| - 1];
    if |p| >= 3 { assert p[2] == q[2]; }
  }

  /** Only generations end in a directory called generations. */
  lemma LastNames(key: Key)
    requires ValidKey(key) && |Parts(key)| >= 2 && Parts(key)[|Parts(key)| - 2] == "generations"
    ensures key.ArchiveKey? || key.SidecarKey? || (key.PointerKey? && Parts(key)[|Parts(key)| - 1] == "latest.json")
  {}

  // ---------------------------------------------------------------- listing pointers

  /** What a listing takes a key for. */
  function PointerIdentity(path: string): Option<(string, Lineage)> {
    var parts := Split(path);
    if |parts| == 2 && parts[1] == "latest.json" then
      if parts[0] != "" then Some((parts[0], Lineage("main"))) else None
    else if |parts| == 4 && parts[1] == "branches" && parts[3] == "latest.json" then
      if parts[0] != "" && parts[2] != "" then Some((parts[0], Lineage(parts[2]))) else None
    else None
  }

  /** A listing recognises every pointer key for what it is, and no other valid key at all. */
  lemma ListingFindsPointers(key: Key)
    requires ValidKey(key)
    ensures PointerIdentity(Path(key)) == if key.PointerKey? then Some((key.capsule, key.lineage)) else None
  {
    PathIsParts(key);
    if key.ArchiveKey? || key.SidecarKey? { FileNameIsPlain(key.ref, ".json"); }
  }

  /** Conversely, what a listing recognises is that pointer's own key unless it spells the main lineage as
    * a branch: `c/branches/main/latest.json` is read as the main pointer, whose key is `c/latest.json`. */
  lemma RecognisedIff(path: string)
    requires PointerIdentity(path).Some?
    ensures var (capsule, lineage) := PointerIdentity(path).value;
            PointerPath(capsule, lineage) == path <==> !(|Split(path)| == 4 && Split(path)[2] == "main")
  {
    JoinSplit(path);
    SplitNoSlash(path);
    var parts := Split(path);
    var (capsule, lineage) := PointerIdentity(path).value;
    var own := Home(capsule, lineage) + ["latest.json"];
    PointerJoins(capsule, lineage);
    JoinAppend(Home(capsule, lineage), "latest.json");
    SplitJoin(own);
    assert PointerPath(capsule, lineage) == path <==> own == parts;
    assert |parts| == 2 ==> own == parts;
    assert |parts| == 4 && !lineage.IsMain() ==> own == parts;
  }

  lemma {:induction false} SplitNoSlash(s: string)
    ensures forall i | 0 <= i < |Split(s)| :: NoSlash(Split(s)[i])
  {
    if s != "" { SplitNoSlash(s[1..]); }
  }
}
