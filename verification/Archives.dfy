/** CampKit archives: export, verification and extraction over the entries of a tar stream. */
module Archives {
  import opened Domain
  import opened Ordering
  import opened Manifests

  datatype Entry = Entry(name: string, plain: bool, body: string)

  /** What the decoders make of an input: its entries, whether they end cleanly, whether the input is one frame, and
    * whether it was read without exceeding the streaming limits. */
  datatype Stream = Stream(entries: seq<Entry>, ends: bool, single: bool, bounded: bool)

  /** The functions an archive depends on: digests, the metadata comparison, and the names a header can hold. */
  datatype Tools = Tools(sha: string -> string, matches: (string, Generation) -> bool, fits: string -> bool)

  datatype Limits = Limits(maxManifestBytes: int, maxOuterEntries: int, maxOuterEntryBytes: int,
                           maxTrustEvidenceBytes: int)

  const MANIFEST_NAME := "manifest.json"

  function Paths(ps: seq<Payload>): (paths: seq<string>)
    ensures |paths| == |ps| && forall i :: 0 <= i < |ps| ==> paths[i] == ps[i].path
  {
    seq(|ps|, i requires 0 <= i < |ps| => ps[i].path)
  }

  /** The paths in byte order. */
  function SortedPaths(ps: seq<Payload>): seq<string> { Paths(Sort(ps, PathOf)) }

  function FindPayload(ps: seq<Payload>, path: string): (r: Option<Payload>)
    ensures r.Some? ==> r.value in ps && r.value.path == path
    ensures r.None? ==> forall p :: p in ps ==> p.path != path
  {
    if ps == [] then None else if ps[0].path == path then Some(ps[0]) else FindPayload(ps[1..], path)
  }

  lemma PathsIn(ps: seq<Payload>, path: string)
    ensures path in SortedPaths(ps) <==> exists p :: p in ps && p.path == path
    ensures |SortedPaths(ps)| == |ps|
  {
    var sorted := Sort(ps, PathOf);
    Members(sorted, ps);
    if path in SortedPaths(ps) {
      var i :| 0 <= i < |sorted| && Paths(sorted)[i] == path;
      assert sorted[i] in sorted;
    }
    if p :| p in ps && p.path == path {
      var i :| 0 <= i < |sorted| && sorted[i] == p;
      assert Paths(sorted)[i] == path;
    }
  }

  /** With distinct paths, a path finds its payload. */
  lemma Found(ps: seq<Payload>, p: Payload)
    requires DistinctKeys(ps, PathOf) && p in ps
    ensures FindPayload(ps, p.path) == Some(p)
  {
    var q := FindPayload(ps, p.path).value;
    SameKeySame(ps, PathOf, p, q);
  }

  function RoleLimit(role: string, limits: Limits): int {
    if role == "trust-evidence" then limits.maxTrustEvidenceBytes else limits.maxOuterEntryBytes
  }

  /** An entry carries exactly what its payload declares. */
  predicate Carries(e: Entry, p: Payload, tools: Tools) {
    e.name == p.path && e.plain && |e.body| == p.size && tools.sha(e.body) == p.sha
  }

  predicate Admits(e: Entry, p: Payload, g: Generation, limits: Limits, tools: Tools) {
    && |e.body| <= RoleLimit(p.role, limits)
    && (p.role == "generation-metadata" ==> tools.matches(e.body, g))
  }

  /** The entries are the declared payloads, in the order of their paths. */
  predicate Lists(entries: seq<Entry>, ps: seq<Payload>, tools: Tools) {
    && |entries| == |ps| == |SortedPaths(ps)|
    && forall i :: 0 <= i < |entries| ==> CarriesAt(entries, ps, i, tools)
  }

  predicate CarriesAt(entries: seq<Entry>, ps: seq<Payload>, i: nat, tools: Tools)
    requires i < |entries| && i < |SortedPaths(ps)|
  {
    var p := FindPayload(ps, SortedPaths(ps)[i]);
    p.Some? && Carries(entries[i], p.value, tools)
  }

  predicate AdmitsAt(entries: seq<Entry>, m: Manifest, i: nat, limits: Limits, tools: Tools)
    requires i < |entries|
  {
    var p := FindPayload(m.payloads, entries[i].name);
    p.Some? && Admits(entries[i], p.value, m.generation, limits, tools)
  }

  /** A complete archive of manifest `m`: the canonical manifest first, then exactly the payloads. */
  ghost predicate Complete(entries: seq<Entry>, m: Manifest, lib: Library, tools: Tools) {
    && |entries| >= 1 && entries[0].name == MANIFEST_NAME && entries[0].plain
    && Canonical(m, lib) == Some(entries[0].body) && Lists(entries[1..], m.payloads, tools)
  }

  /** ... within the limits, with metadata that matches the generation. */
  ghost predicate Permitted(entries: seq<Entry>, m: Manifest, limits: Limits, tools: Tools) {
    && |entries| >= 1 && |entries[0].body| <= limits.maxManifestBytes && |m.payloads| + 1 <= limits.maxOuterEntries
    && forall i :: 0 <= i < |entries[1..]| ==> AdmitsAt(entries[1..], m, i, limits, tools)
  }

  /** What verification accepts, apart from trust. */
  ghost predicate Intact(s: Stream, m: Manifest, limits: Limits, lib: Library, tools: Tools) {
    && s.ends && s.single && s.bounded && Complete(s.entries, m, lib, tools) && Permitted(s.entries, m, limits, tools)
    && Accepts(s.entries[0].body, lib) && lib.decode(s.entries[0].body) == Some(m)
  }

  datatype Error = FormatError | LimitError | UnsafeError | DigestError | MetadataError | TrustUnsupported
                 | EvaluationFailed

  predicate AboutTrust(e: Error) { e == TrustUnsupported || e == EvaluationFailed }

  /** One payload entry against the path expected next. */
  method VerifyEntry(e: Entry, expected: string, m: Manifest, limits: Limits, tools: Tools) returns (err: Option<Error>)
    requires FindPayload(m.payloads, expected).Some?
    ensures var p := FindPayload(m.payloads, expected).value;
            err.None? <==> Carries(e, p, tools) && Admits(e, p, m.generation, limits, tools)
    ensures err.Some? ==> !AboutTrust(err.value)
  {
    if e.name != expected { return Some(FormatError); }
    if !e.plain { return Some(UnsafeError); }
    var p := FindPayload(m.payloads, expected).value;
    if |e.body| != p.size { return Some(DigestError); }
    if |e.body| > RoleLimit(p.role, limits) { return Some(LimitError); }
    if tools.sha(e.body) != p.sha { return Some(DigestError); }
    if p.role == "generation-metadata" && !tools.matches(e.body, m.generation) { return Some(MetadataError); }
    return None;
  }

  /** The last entry whose payload is trust evidence. */
  function EvidenceIn(entries: seq<Entry>, ps: seq<Payload>): Option<string> {
    if entries == [] then None
    else
      var last := entries[|entries| - 1];
      var p := FindPayload(ps, last.name);
      if p.Some? && p.value.role == "trust-evidence" then Some(last.body) else EvidenceIn(entries[..|entries| - 1], ps)
  }

  /** The payload entries, in one pass in the order of their paths, keeping the trust evidence. */
  method VerifyPayloads(entries: seq<Entry>, m: Manifest, limits: Limits, tools: Tools)
    returns (err: Option<Error>, evidence: Option<string>)
    requires DistinctKeys(m.payloads, PathOf)
    ensures err.None? <==>
            && Lists(entries, m.payloads, tools)
            && forall i :: 0 <= i < |entries| ==> AdmitsAt(entries, m, i, limits, tools)
    ensures err.None? ==> evidence == EvidenceIn(entries, m.payloads)
    ensures err.Some? ==> !AboutTrust(err.value)
  {
    var paths := SortedPaths(m.payloads);
    PathsIn(m.payloads, "");
    evidence := None;
    for expected := 0 to |entries|
      invariant expected <= |paths|
      invariant forall i :: 0 <= i < expected ==> MatchesAt(entries, m, i, limits, tools)
      invariant evidence == EvidenceIn(entries[..expected], m.payloads)
    {
      if expected >= |paths| { return Some(FormatError), None; }
      PathsIn(m.payloads, paths[expected]);
      assert paths[expected] in paths;
      var next := VerifyEntry(entries[expected], paths[expected], m, limits, tools);
      assert next.None? <==> MatchesAt(entries, m, expected, limits, tools);
      if next.Some? { return next, None; }
      assert entries[..expected + 1][..expected] == entries[..expected];
      if FindPayload(m.payloads, paths[expected]).value.role == "trust-evidence" {
        evidence := Some(entries[expected].body);
      }
    }
    assert entries[..|entries|] == entries;
    if |entries| != |m.payloads| { return Some(FormatError), None; }
    forall i | 0 <= i < |entries|
      ensures CarriesAt(entries, m.payloads, i, tools) && AdmitsAt(entries, m, i, limits, tools)
    {
      assert MatchesAt(entries, m, i, limits, tools);
    }
    return None, evidence;
  }

  predicate MatchesAt(entries: seq<Entry>, m: Manifest, i: nat, limits: Limits, tools: Tools)
    requires i < |entries| && i < |SortedPaths(m.payloads)|
  {
    CarriesAt(entries, m.payloads, i, tools) && AdmitsAt(entries, m, i, limits, tools)
  }

  // ---------------------------------------------------------------- trust

  /** Evaluates evidence for a manifest; no result is an error. */
  type Evaluator = (Manifest, string) -> Option<string>

  datatype TrustResult = Unverified | Evaluated(result: string)

  function Evaluation(evaluator: Evaluator, m: Manifest, evidence: string): Result<TrustResult, Error> {
    match evaluator(m, evidence)
    case Some(result) => Ok(Evaluated(result))
    case None => Err(EvaluationFailed)
  }

  /** What verification concludes about trust: nothing of a manifest that claims none, an error without an evaluator,
    * and otherwise the evaluation of exactly the entry under the manifest's evidence path. */
  ghost predicate TrustOk(m: Manifest, entries: seq<Entry>, evaluator: Option<Evaluator>,
                          trust: Result<TrustResult, Error>)
  {
    if m.trust.status == "unverified" then trust == Ok(Unverified)
    else if evaluator.None? then trust == Err(TrustUnsupported)
    else exists e :: e in entries && IsEvidence(e, m) && trust == Evaluation(evaluator.value, m, e.body)
  }

  predicate IsEvidence(e: Entry, m: Manifest) { e.name == m.trust.evidencePath && e.body != "" }

  lemma {:induction false} SomeOfRole(ps: seq<Payload>, role: string)
    requires Total(ps, OfRole(role)) > 0
    ensures exists p :: p in ps && p.role == role
  {
    if ps[0].role == role {
      assert ps[0] in ps;
    } else {
      SomeOfRole(ps[1..], role);
      var p :| p in ps[1..] && p.role == role;
      assert p in ps;
    }
  }

  /** Evidence found is the body of an evidence entry, and an evidence entry is found. */
  lemma {:induction false} EvidenceMeans(entries: seq<Entry>, ps: seq<Payload>)
    ensures EvidenceIn(entries, ps).Some? ==>
              exists i :: 0 <= i < |entries| && EvidenceAt(entries, ps, i) &&
                  Some(entries[i].body) == EvidenceIn(entries, ps)
    ensures EvidenceIn(entries, ps).None? ==> forall i :: 0 <= i < |entries| ==> !EvidenceAt(entries, ps, i)
  {
    if entries != [] {
      var n := |entries| - 1;
      var rest := entries[..n];
      EvidenceMeans(rest, ps);
      assert forall i :: 0 <= i < n ==> EvidenceAt(rest, ps, i) == EvidenceAt(entries, ps, i);
      if !EvidenceAt(entries, ps, n) && EvidenceIn(rest, ps).Some? {
        var i :| 0 <= i < n && EvidenceAt(rest, ps, i) && Some(rest[i].body) == EvidenceIn(rest, ps);
        assert EvidenceAt(entries, ps, i) && Some(entries[i].body) == EvidenceIn(entries, ps);
      }
    }
  }

  predicate EvidenceAt(entries: seq<Entry>, ps: seq<Payload>, i: nat)
    requires i < |entries|
  {
    var p := FindPayload(ps, entries[i].name);
    p.Some? && p.value.role == "trust-evidence"
  }

  /** An archive that claims trust carries its evidence, under the path the manifest names. */
  lemma EvidenceIsBound(entries: seq<Entry>, m: Manifest, platforms: seq<Platform>, tools: Tools)
    requires Lists(entries, m.payloads, tools) && ValidPayloads(m.payloads, platforms)
    requires ValidTrust(m.trust, m.lineage.exportedAt, m.payloads) && m.trust.status != "unverified"
    ensures var evidence := EvidenceIn(entries, m.payloads);
            evidence.Some? && exists e :: e in entries && IsEvidence(e, m) && evidence == Some(e.body)
  {
    var ps := m.payloads;
    SomeOfRole(ps, "trust-evidence");
    var p :| p in ps && p.role == "trust-evidence";
    PathsIn(ps, p.path);
    var k :| 0 <= k < |SortedPaths(ps)| && SortedPaths(ps)[k] == p.path;
    Found(ps, p);
    assert CarriesAt(entries, ps, k, tools) && EvidenceAt(entries, ps, k);
    EvidenceMeans(entries, ps);
    var i :| 0 <= i < |entries| && EvidenceAt(entries, ps, i) && Some(entries[i].body) == EvidenceIn(entries, ps);
    assert CarriesAt(entries, ps, i, tools);
    var q := FindPayload(ps, entries[i].name).value;
    assert q in ps && ValidPayload(q, platforms);
    assert entries[i] in entries && IsEvidence(entries[i], m);
  }

  /** The trust decision that ends verification. */
  method EvaluateTrust(m: Manifest, ghost entries: seq<Entry>, evidence: Option<string>, evaluator: Option<Evaluator>)
    returns (trust: Result<TrustResult, Error>)
    requires m.trust.status != "unverified" ==> exists e :: e in entries && IsEvidence(e, m) && evidence == Some(e.body)
    ensures TrustOk(m, entries, evaluator, trust)
    ensures trust.Err? ==> AboutTrust(trust.error)
  {
    if m.trust.status == "unverified" { return Ok(Unverified); }
    if evaluator.None? || evidence.None? || evidence.value == "" { return Err(TrustUnsupported); }
    return Evaluation(evaluator.value, m, evidence.value);
  }

  /** Everything but the trust decision: accepts exactly the intact archives, and hands on the trust evidence. */
  method VerifyIntegrity(s: Stream, limits: Limits, lib: Library, tools: Tools)
    returns (r: Result<(Manifest, Option<string>), Error>)
    requires Lossless(lib)
    ensures r.Ok? ==> Intact(s, r.value.0, limits, lib, tools)
    ensures r.Ok? ==> r.value.1 == EvidenceIn(s.entries[1..], r.value.0.payloads)
    ensures r.Err? ==> !AboutTrust(r.error) && forall m :: !Intact(s, m, limits, lib, tools)
  {
    if s.entries == [] || s.entries[0].name != MANIFEST_NAME { return Err(FormatError); }
    if !s.entries[0].plain { return Err(UnsafeError); }
    var body := s.entries[0].body;
    if |body| > limits.maxManifestBytes { return Err(LimitError); }
    var decoded := DecodeCanonical(body, lib);
    if decoded.None? { return Err(FormatError); }
    var m := decoded.value;
    AcceptedIsCanonical(body, lib);
    if |m.payloads| + 1 > limits.maxOuterEntries { return Err(LimitError); }
    var err, evidence := VerifyPayloads(s.entries[1..], m, limits, tools);
    if err.Some? { return Err(err.value); }
    if !s.ends || !s.single { return Err(FormatError); }
    if !s.bounded { return Err(LimitError); }
    return Ok((m, evidence));
  }

  /** Accepts exactly the intact archives whose claim to trust, if they make one, is evaluated without an error on the
    * evidence the archive itself carries. */
  method Verify(s: Stream, limits: Limits, lib: Library, tools: Tools, evaluator: Option<Evaluator>)
    returns (r: Result<(Manifest, TrustResult), Error>)
    requires Lossless(lib)
    ensures r.Ok? ==>
            Intact(s, r.value.0, limits, lib, tools) && TrustOk(r.value.0, s.entries[1..], evaluator, Ok(r.value.1))
    ensures r.Err? && AboutTrust(r.error) ==>
              exists m :: Intact(s, m, limits, lib, tools) && TrustOk(m, s.entries[1..], evaluator, Err(r.error))
    ensures r.Err? && !AboutTrust(r.error) ==> forall m :: !Intact(s, m, limits, lib, tools)
  {
    var intact := VerifyIntegrity(s, limits, lib, tools);
    if intact.Err? { return Err(intact.error); }
    var (m, evidence) := intact.value;
    IntactHoldsEvidence(s, m, limits, lib, tools);
    var trust := EvaluateTrust(m, s.entries[1..], evidence, evaluator);
    if trust.Err? { return Err(trust.error); }
    return Ok((m, trust.value));
  }

  lemma IntactHoldsEvidence(s: Stream, m: Manifest, limits: Limits, lib: Library, tools: Tools)
    requires Lossless(lib) && Intact(s, m, limits, lib, tools)
    ensures var evidence := EvidenceIn(s.entries[1..], m.payloads);
            m.trust.status != "unverified" ==>
              exists e :: e in s.entries[1..] && IsEvidence(e, m) && evidence == Some(e.body)
  {
    AcceptedIsCanonical(s.entries[0].body, lib);
    if m.trust.status != "unverified" { EvidenceIsBound(s.entries[1..], m, m.platforms, tools); }
  }

  // ---------------------------------------------------------------- export

  /** Sources that can be exported: one for each payload, holding exactly what it declares, under a name that fits. */
  predicate Exportable(m: Manifest, sources: map<string, string>, lib: Library, tools: Tools) {
    Valid(m, lib) && forall p :: p in m.payloads ==> SourceOk(p, sources, tools)
  }

  predicate SourceOk(p: Payload, sources: map<string, string>, tools: Tools) {
    p.path in sources && tools.fits(p.path) && |sources[p.path]| == p.size && tools.sha(sources[p.path]) == p.sha
  }

  /** The entry for a payload's path holds its source. */
  predicate Written(e: Entry, ps: seq<Payload>, path: string, sources: map<string, string>, tools: Tools) {
    var p := FindPayload(ps, path);
    p.Some? && SourceOk(p.value, sources, tools) && e == Entry(path, true, sources[path])
  }

  lemma AllWritten(entries: seq<Entry>, ps: seq<Payload>, sources: map<string, string>, tools: Tools)
    requires DistinctKeys(ps, PathOf) && |entries| == |SortedPaths(ps)|
    requires forall k :: 0 <= k < |entries| ==> Written(entries[k], ps, SortedPaths(ps)[k], sources, tools)
    ensures Lists(entries, ps, tools)
    ensures forall p :: p in ps ==> SourceOk(p, sources, tools)
    ensures FromSources(entries, sources)
  {
    var paths := SortedPaths(ps);
    PathsIn(ps, "");
    forall k | 0 <= k < |entries| ensures CarriesAt(entries, ps, k, tools) {
      assert Written(entries[k], ps, paths[k], sources, tools);
    }
    forall p | p in ps ensures SourceOk(p, sources, tools) {
      PathsIn(ps, p.path);
      var k :| 0 <= k < |paths| && paths[k] == p.path;
      Found(ps, p);
      assert Written(entries[k], ps, paths[k], sources, tools);
    }
  }

  predicate FromSources(entries: seq<Entry>, sources: map<string, string>) {
    forall e :: e in entries ==> e.name in sources && e.body == sources[e.name]
  }

  /** The payload entries, each from its source, in the order of their paths. */
  method ExportPayloads(ps: seq<Payload>, sources: map<string, string>, tools: Tools)
    returns (entries: Option<seq<Entry>>)
    requires DistinctKeys(ps, PathOf)
    ensures entries.Some? <==> forall p :: p in ps ==> SourceOk(p, sources, tools)
    ensures entries.Some? ==> Lists(entries.value, ps, tools) && FromSources(entries.value, sources)
  {
    var paths := SortedPaths(ps);
    var written: seq<Entry> := [];
    for i := 0 to |paths|
      invariant |written| == i
      invariant forall k :: 0 <= k < i ==> Written(written[k], ps, paths[k], sources, tools)
    {
      PathsIn(ps, paths[i]);
      assert paths[i] in paths;
      var p := FindPayload(ps, paths[i]).value;
      if !SourceOk(p, sources, tools) { return None; }
      written := written + [Entry(paths[i], true, sources[paths[i]])];
    }
    AllWritten(written, ps, sources, tools);
    return Some(written);
  }

  /** Writes the canonical manifest and then each payload from its source, in the order of their paths. */
  method Export(m: Manifest, sources: map<string, string>, lib: Library, tools: Tools)
    returns (entries: Option<seq<Entry>>)
    ensures entries.Some? <==> Exportable(m, sources, lib, tools)
    ensures entries.Some? ==> Complete(entries.value, m, lib, tools) && FromSources(entries.value[1..], sources)
  {
    var canonical := MarshalCanonical(m, lib);
    if canonical.None? { return None; }
    var payloads := ExportPayloads(m.payloads, sources, tools);
    if payloads.None? { return None; }
    var all := [Entry(MANIFEST_NAME, true, canonical.value)] + payloads.value;
    assert all[1..] == payloads.value;
    return Some(all);
  }

  // ---------------------------------------------------------------- export and verification agree

  lemma PathsPermute(ps: seq<Payload>, qs: seq<Payload>)
    requires multiset(ps) == multiset(qs) && DistinctKeys(ps, PathOf)
    ensures SortedPaths(ps) == SortedPaths(qs)
    ensures forall path :: FindPayload(ps, path) == FindPayload(qs, path)
  {
    KeysPermute(ps, qs, PathOf);
    Members(ps, qs);
    forall path ensures FindPayload(ps, path) == FindPayload(qs, path) {
      var p := FindPayload(ps, path);
      if p.Some? { Found(qs, p.value); }
    }
    AnySortAgrees(ps, Sort(qs, PathOf), PathOf);
  }

  /** Reordering payloads changes nothing that an archive's entries are compared with. */
  lemma ListsPermute(entries: seq<Entry>, ps: seq<Payload>, qs: seq<Payload>, tools: Tools)
    requires multiset(ps) == multiset(qs) && DistinctKeys(ps, PathOf) && Lists(entries, ps, tools)
    ensures Lists(entries, qs, tools)
  {
    PathsPermute(ps, qs);
    SameSize(ps, qs);
    forall i | 0 <= i < |entries| ensures CarriesAt(entries, qs, i, tools) {
      assert CarriesAt(entries, ps, i, tools);
      assert FindPayload(ps, SortedPaths(ps)[i]) == FindPayload(qs, SortedPaths(ps)[i]);
    }
  }

  lemma AdmitsPermute(entries: seq<Entry>, m: Manifest, n: Manifest, limits: Limits, tools: Tools)
    requires multiset(m.payloads) == multiset(n.payloads) && DistinctKeys(m.payloads, PathOf) &&
             m.generation == n.generation
    ensures forall i :: 0 <= i < |entries| ==>
            AdmitsAt(entries, m, i, limits, tools) == AdmitsAt(entries, n, i, limits, tools)
    ensures |m.payloads| == |n.payloads|
  {
    PathsPermute(m.payloads, n.payloads);
    SameSize(m.payloads, n.payloads);
    forall i | 0 <= i < |entries|
      ensures AdmitsAt(entries, m, i, limits, tools) == AdmitsAt(entries, n, i, limits, tools)
    {
      assert FindPayload(m.payloads, entries[i].name) == FindPayload(n.payloads, entries[i].name);
    }
  }

  lemma PermittedPermutes(entries: seq<Entry>, m: Manifest, n: Manifest, limits: Limits, tools: Tools)
    requires multiset(m.payloads) == multiset(n.payloads) && DistinctKeys(m.payloads, PathOf) &&
             m.generation == n.generation
    ensures Permitted(entries, m, limits, tools) <==> Permitted(entries, n, limits, tools)
  {
    if |entries| >= 1 { AdmitsPermute(entries[1..], m, n, limits, tools); }
  }

  lemma CompleteNormalised(entries: seq<Entry>, m: Manifest, lib: Library, tools: Tools)
    requires Valid(m, lib) && Complete(entries, m, lib, tools)
    ensures Complete(entries, Normalise(m), lib, tools)
  {
    CanonicalNormalised(m, lib);
    ListsPermute(entries[1..], m.payloads, Normalise(m).payloads, tools);
  }

  /** An exported archive is intact for its normalised manifest exactly if it is within the limits, its metadata
    * matches, and its manifest fits the bound of the decoder. */
  lemma ExportedIsIntactIff(entries: seq<Entry>, m: Manifest, limits: Limits, lib: Library, tools: Tools)
    requires Lossless(lib) && Valid(m, lib) && Complete(entries, m, lib, tools)
    ensures Intact(Stream(entries, true, true, true), Normalise(m), limits, lib, tools) <==>
            Permitted(entries, m, limits, tools) && |entries[0].body| <= MAX_MANIFEST_BYTES
  {
    RoundTrip(m, lib);
    CompleteNormalised(entries, m, lib, tools);
    PermittedPermutes(entries, m, Normalise(m), limits, tools);
  }

  // ---------------------------------------------------------------- extraction

  /** The directories on the way to a path. */
  function Parents(path: string): set<string> { set i | 0 <= i < |path| && path[i] == '/' :: path[..i] }

  datatype ExtractError = Undeclared | Collision | Failed

  class Folder {
    var files: map<string, string>
    var directories: set<string>

    /** Creates the directories and then, exclusively, the file. A calm call meets no failure but a collision. */
    method Write(path: string, body: string, calm: bool) returns (err: Option<ExtractError>)
      modifies this
      ensures calm ==> err != Some(Failed)
      ensures err == Some(Collision) ==>
                path in old(files) || path in old(directories) || path in Parents(path) ||
                    Parents(path) * old(files).Keys != {}
      ensures err.None? ==> files == old(files)[path := body] && directories == old(directories) + Parents(path)
      ensures err.None? ==>
                && path !in old(files) && path !in old(directories) && path !in Parents(path)
                && Parents(path) * old(files).Keys == {}
      ensures err.None? || err == Some(Collision) || err == Some(Failed)
      ensures directories <= old(directories) + Parents(path)
      ensures err.Some? ==> files == old(files) || (err == Some(Failed) && files == old(files)[path := ""])
    {
      var failed: bool := *;
      if failed && !calm { return Some(Failed); }
      if Parents(path) * files.Keys != {} { return Some(Collision); }
      directories := directories + Parents(path);
      if path in files || path in directories { return Some(Collision); }
      files := files[path := ""];
      failed := *;
      if failed && !calm { return Some(Failed); }
      files := files[path := body];
      return None;
    }
  }

  /** What extraction is to write: each entry's body under its name. */
  function Contents(entries: seq<Entry>): map<string, string> {
    if entries == [] then map[]
    else
      var last := entries[|entries| - 1];
      Contents(entries[..|entries| - 1])[last.name := last.body]
  }

  /** Names that neither repeat nor lie below one another. */
  predicate Separate(entries: seq<Entry>) {
    forall i, j :: 0 <= i < |entries| && 0 <= j < |entries| && i != j ==>
      entries[i].name != entries[j].name && !Below(entries[i].name, entries[j].name)
  }

  lemma ParentIsAbove(path: string, parent: string)
    requires parent in Parents(path)
    ensures Below(path, parent) && |parent| < |path|
  {
    var i :| 0 <= i < |path| && path[i] == '/' && path[..i] == parent;
    assert path == path[..i] + "/" + path[i + 1..];
  }

  lemma {:induction false} ContentsNames(entries: seq<Entry>, name: string)
    requires name in Contents(entries)
    ensures exists i :: 0 <= i < |entries| && entries[i].name == name
  {
    var n := |entries| - 1;
    if entries[n].name != name {
      ContentsNames(entries[..n], name);
      var i :| 0 <= i < n && entries[..n][i].name == name;
      assert entries[i].name == name;
    }
  }

  /** The directories made for the first `n` entries. */
  function Made(entries: seq<Entry>, n: nat): set<string>
    requires n <= |entries|
  {
    set i, d | 0 <= i < n && d in Parents(entries[i].name) :: d
  }

  /** Separate names leave every entry a place of its own. */
  lemma NoCollision(entries: seq<Entry>, n: nat)
    requires n < |entries| && Separate(entries)
    ensures var name := entries[n].name;
            && name !in Contents(entries[..n]) && name !in Made(entries, n) && name !in Parents(name)
            && Parents(name) * Contents(entries[..n]).Keys == {}
  {
    var name := entries[n].name;
    if name in Contents(entries[..n]) {
      ContentsNames(entries[..n], name);
    }
    if name in Made(entries, n) {
      var i :| 0 <= i < n && name in Parents(entries[i].name);
      ParentIsAbove(entries[i].name, name);
    }
    if name in Parents(name) { ParentIsAbove(name, name); }
    forall d | d in Parents(name) ensures d !in Contents(entries[..n]) {
      if d in Contents(entries[..n]) {
        ContentsNames(entries[..n], d);
        var i :| 0 <= i < n && entries[..n][i].name == d;
        ParentIsAbove(name, d);
      }
    }
  }

  /** The payload entries of a complete archive have separate names. */
  lemma PayloadsAreSeparate(entries: seq<Entry>, ps: seq<Payload>, tools: Tools)
    requires Lists(entries, ps, tools) && Apart(ps)
    ensures Separate(entries)
    ensures forall i :: 0 <= i < |entries| ==> FindPayload(ps, entries[i].name).Some?
  {
    var sorted := Sort(ps, PathOf);
    KeysPermute(ps, sorted, PathOf);
    Members(sorted, ps);
    forall i | 0 <= i < |entries| ensures entries[i].name == sorted[i].path && FindPayload(ps, entries[i].name).Some? {
      assert CarriesAt(entries, ps, i, tools);
    }
    forall i, j | 0 <= i < |entries| && 0 <= j < |entries| && i != j
      ensures entries[i].name != entries[j].name && !Below(entries[i].name, entries[j].name)
    {
      assert PathOf(sorted[i]) != PathOf(sorted[j]);
      assert sorted[i] in ps && sorted[j] in ps;
    }
  }

  /** Extracting the payload entries of a complete archive into an empty folder never collides: each payload is
    * written once, and when nothing else fails the folder holds exactly the payloads. */
  method Extract(folder: Folder, entries: seq<Entry>, ps: seq<Payload>, tools: Tools, calm: bool)
    returns (err: Option<ExtractError>)
    requires folder.files == map[] && folder.directories == {}
    modifies folder
    ensures Lists(entries, ps, tools) && Apart(ps) ==> (err.None? || err == Some(Failed)) && (calm ==> err.None?)
    ensures err.None? ==> folder.files == Contents(entries)
    ensures err.None? ==> forall i :: 0 <= i < |entries| ==> FindPayload(ps, entries[i].name).Some?
  {
    ghost var complete := Lists(entries, ps, tools) && Apart(ps);
    if complete { PayloadsAreSeparate(entries, ps, tools); }
    for n := 0 to |entries|
      invariant folder.files == Contents(entries[..n]) && folder.directories <= Made(entries, n)
      invariant forall i :: 0 <= i < n ==> FindPayload(ps, entries[i].name).Some?
    {
      var e := entries[n];
      var p := FindPayload(ps, e.name);
      if p.None? { return Some(Undeclared); }
      if complete { NoCollision(entries, n); }
      err := folder.Write(e.name, e.body, calm);
      if err.Some? { return; }
      assert entries[..n + 1][..n] == entries[..n];
      assert Made(entries, n) + Parents(e.name) <= Made(entries, n + 1);
    }
    assert entries[..|entries|] == entries;
    err := None;
  }

  // ---------------------------------------------------------------- export, verification and extraction together

  /** What a caller can check before exporting: the manifest and every payload within the limits, and the metadata
    * matching its generation. */
  predicate WithinLimits(m: Manifest, sources: map<string, string>, limits: Limits, lib: Library, tools: Tools) {
    var body := lib.encode(Normalise(m));
    && |body| <= limits.maxManifestBytes && |body| <= MAX_MANIFEST_BYTES && |m.payloads| + 1 <= limits.maxOuterEntries
    && forall p :: p in m.payloads ==> PayloadWithin(p, m, sources, limits, tools)
  }

  predicate PayloadWithin(p: Payload, m: Manifest, sources: map<string, string>, limits: Limits, tools: Tools) {
    && p.size <= (if p.role == "trust-evidence" then limits.maxTrustEvidenceBytes else limits.maxOuterEntryBytes)
    && (p.role == "generation-metadata" ==> p.path in sources && tools.matches(sources[p.path], m.generation))
  }

  /** Whether an exported archive is within the limits shows in the manifest and the sources. */
  lemma PermittedIff(entries: seq<Entry>, m: Manifest, sources: map<string, string>, limits: Limits, lib: Library,
                     tools: Tools)
    requires Valid(m, lib) && Complete(entries, m, lib, tools) && FromSources(entries[1..], sources)
    ensures Permitted(entries, m, limits, tools) && |entries[0].body| <= MAX_MANIFEST_BYTES <==>
            WithinLimits(m, sources, limits, lib, tools)
  {
    var rest, ps := entries[1..], m.payloads;
    if forall i :: 0 <= i < |rest| ==> AdmitsAt(rest, m, i, limits, tools) {
      forall p | p in ps ensures PayloadWithin(p, m, sources, limits, tools) {
        var i := EntryOf(entries, m, lib, tools, p);
        CarriedWithin(entries, m, sources, limits, lib, tools, i);
      }
    }
    if forall p :: p in ps ==> PayloadWithin(p, m, sources, limits, tools) {
      forall i | 0 <= i < |rest| ensures AdmitsAt(rest, m, i, limits, tools) {
        CarriedWithin(entries, m, sources, limits, lib, tools, i);
      }
    }
  }

  /** Every payload has an entry. */
  lemma EntryOf(entries: seq<Entry>, m: Manifest, lib: Library, tools: Tools, p: Payload) returns (i: nat)
    requires Valid(m, lib) && Complete(entries, m, lib, tools) && p in m.payloads
    ensures i < |entries| - 1 && FindPayload(m.payloads, entries[1..][i].name) == Some(p)
  {
    PathsIn(m.payloads, p.path);
    i :| 0 <= i < |SortedPaths(m.payloads)| && SortedPaths(m.payloads)[i] == p.path;
    Found(m.payloads, p);
    assert CarriesAt(entries[1..], m.payloads, i, tools);
  }

  lemma CarriedWithin(entries: seq<Entry>, m: Manifest, sources: map<string, string>, limits: Limits, lib: Library,
                      tools: Tools, i: nat)
    requires Valid(m, lib) && Complete(entries, m, lib, tools) && FromSources(entries[1..], sources)
    requires i < |entries| - 1
    ensures PayloadAt(entries[1..], m, i, sources, limits, tools)
    ensures var found := FindPayload(m.payloads, entries[1..][i].name); found.Some? && found.value in m.payloads
  {
    assert CarriesAt(entries[1..], m.payloads, i, tools) && entries[1..][i] in entries[1..];
  }

  /** The entry is admitted exactly if its payload is within the limits. */
  predicate PayloadAt(entries: seq<Entry>, m: Manifest, i: nat, sources: map<string, string>, limits: Limits,
                      tools: Tools)
    requires i < |entries|
  {
    var p := FindPayload(m.payloads, entries[i].name);
    p.Some? ==> (AdmitsAt(entries, m, i, limits, tools) <==> PayloadWithin(p.value, m, sources, limits, tools))
  }

  lemma {:induction false} ContentsAre(entries: seq<Entry>, sources: map<string, string>)
    requires FromSources(entries, sources)
    ensures Contents(entries).Keys == set e | e in entries :: e.name
    ensures forall name :: name in Contents(entries) ==> name in sources && Contents(entries)[name] == sources[name]
  {
    if entries != [] {
      var n := |entries| - 1;
      var rest := entries[..n];
      assert entries == rest + [entries[n]];
      assert forall e :: e in entries <==> e in rest || e == entries[n];
      ContentsAre(rest, sources);
    }
  }

  lemma NamesArePaths(entries: seq<Entry>, ps: seq<Payload>, tools: Tools)
    requires Lists(entries, ps, tools) && DistinctKeys(ps, PathOf)
    ensures (set e | e in entries :: e.name) == set p | p in ps :: p.path
  {
    forall e | e in entries ensures e.name in set p | p in ps :: p.path {
      var i :| 0 <= i < |entries| && entries[i] == e;
      assert CarriesAt(entries, ps, i, tools);
      assert FindPayload(ps, SortedPaths(ps)[i]).value in ps;
    }
    forall p | p in ps ensures p.path in set e | e in entries :: e.name {
      PathsIn(ps, p.path);
      var i :| 0 <= i < |SortedPaths(ps)| && SortedPaths(ps)[i] == p.path;
      assert CarriesAt(entries, ps, i, tools) && entries[i] in entries;
    }
  }

  datatype Shipped = NotExported | Refused(error: Error) | NotExtracted(trust: TrustResult)
                   | Shipped(trust: TrustResult)

  /** What a caller can say beforehand about trust: the verdict on the source of the evidence. */
  function TrustOf(m: Manifest, sources: map<string, string>, evaluator: Option<Evaluator>)
    : Result<TrustResult, Error>
  {
    if m.trust.status == "unverified" then Ok(Unverified)
    else if evaluator.None? || m.trust.evidencePath !in sources then Err(TrustUnsupported)
    else Evaluation(evaluator.value, Normalise(m), sources[m.trust.evidencePath])
  }

  lemma TrustOfSources(entries: seq<Entry>, m: Manifest, sources: map<string, string>, evaluator: Option<Evaluator>,
                       trust: Result<TrustResult, Error>)
    requires FromSources(entries, sources) && TrustOk(Normalise(m), entries, evaluator, trust)
    ensures trust == TrustOf(m, sources, evaluator)
  {
    assert Normalise(m).trust.status == m.trust.status && Normalise(m).trust.evidencePath == m.trust.evidencePath;
  }

  /** The folder holds exactly the declared payloads, each with the bytes of its source. */
  ghost predicate HoldsSources(files: map<string, string>, ps: seq<Payload>, sources: map<string, string>) {
    && files.Keys == (set p | p in ps :: p.path)
    && forall path :: path in files ==> path in sources && files[path] == sources[path]
  }

  /** A kit exported, verified and extracted into an empty folder; `bounded` says whether the file it makes is within
    * the streaming limits. It is exported exactly if every source matches its payload. It is then accepted exactly if
    * it is within all limits and its trust is either not claimed or evaluated without an error; one that is not
    * accepted leaves the folder empty. An accepted one has the verdict on its evidence, and its extraction ends,
    * unless something fails, with exactly the sources in the folder. */
  method ShipKit(m: Manifest, sources: map<string, string>, limits: Limits, lib: Library, tools: Tools,
                 evaluator: Option<Evaluator>, bounded: bool, folder: Folder, calm: bool)
    returns (r: Shipped)
    requires Lossless(lib) && folder.files == map[] && folder.directories == {}
    modifies folder
    ensures r == NotExported <==> !Exportable(m, sources, lib, tools)
    ensures r.Refused? <==>
              && Exportable(m, sources, lib, tools)
              && !(WithinLimits(m, sources, limits, lib, tools) && bounded && TrustOf(m, sources, evaluator).Ok?)
    ensures r == NotExported || r.Refused? ==> folder.files == map[] && folder.directories == {}
    ensures calm ==> !r.NotExtracted?
    ensures r.Shipped? ==> HoldsSources(folder.files, m.payloads, sources)
    ensures r.Shipped? || r.NotExtracted? ==> TrustOf(m, sources, evaluator) == Ok(r.trust)
  {
    var exported := Export(m, sources, lib, tools);
    if exported.None? { return NotExported; }
    var entries := exported.value;
    var verified := VerifyExported(entries, m, sources, limits, lib, tools, evaluator, bounded);
    if verified.Err? { return Refused(verified.error); }
    var (n, trust) := verified.value;
    NormaliseKeeps(m);
    ValidPermutes(m, n, lib);
    ListsPermute(entries[1..], m.payloads, n.payloads, tools);
    var err := Extract(folder, entries[1..], n.payloads, tools, calm);
    if err.Some? { return NotExtracted(trust); }
    ContentsAre(entries[1..], sources);
    NamesArePaths(entries[1..], m.payloads, tools);
    return Shipped(trust);
  }

  /** An export is accepted exactly if it is within all limits and its trust is not in question. */
  method VerifyExported(entries: seq<Entry>, m: Manifest, ghost sources: map<string, string>, limits: Limits,
                        lib: Library, tools: Tools, evaluator: Option<Evaluator>, bounded: bool)
    returns (r: Result<(Manifest, TrustResult), Error>)
    requires Lossless(lib) && Valid(m, lib) && Complete(entries, m, lib, tools) && FromSources(entries[1..], sources)
    ensures r.Ok? <==>
            WithinLimits(m, sources, limits, lib, tools) && bounded && TrustOf(m, sources, evaluator).Ok?
    ensures r.Ok? ==> r.value.0 == Normalise(m) && TrustOf(m, sources, evaluator) == Ok(r.value.1)
  {
    ExportedIsIntactIff(entries, m, limits, lib, tools);
    PermittedIff(entries, m, sources, limits, lib, tools);
    var s := Stream(entries, true, true, bounded);
    r := Verify(s, limits, lib, tools, evaluator);
    RoundTrip(m, lib);
    if r.Ok? {
      assert r.value.0 == Normalise(m);
      TrustOfSources(entries[1..], m, sources, evaluator, Ok(r.value.1));
    } else if AboutTrust(r.error) {
      ghost var n :| Intact(s, n, limits, lib, tools) && TrustOk(n, entries[1..], evaluator, Err(r.error));
      assert n == Normalise(m);
      TrustOfSources(entries[1..], m, sources, evaluator, Err(r.error));
    }
  }
}
