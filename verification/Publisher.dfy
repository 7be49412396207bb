/** The journaled checkpoint publisher: build, upload, commit the pointer, refresh serving, and resume any
  * of these after an interruption.
  *
  * A crash between two steps is the later step failing without effect, and a crash right after a step is
  * that step failing with effect; every store and journal call here may fail either way. */
module Publisher {
  import opened Domain
  import opened History
  import opened ObjectStores
  import opened PointerRuns
  import opened LeaseRuns
  import P = Pointers
  import L = Leases
  import G = Generations

  const MAX_UINT64: nat := 0xFFFF_FFFF_FFFF_FFFF

  datatype CheckpointState = NoCheckpoint | CheckpointVerified | CheckpointUploaded | CheckpointPublished

  datatype Checkpoint = Checkpoint(
    state: CheckpointState, generation: Option<GenerationRef>, haulPath: string, objectKey: Option<Key>,
    succeeded: bool)

  datatype Snapshot = Snapshot(
    session: string, capsule: string, lineage: Lineage, readWrite: bool, tools: ToolVersions,
    openedGeneration: Option<GenerationRef>, currentBase: Option<GenerationRef>,
    currentPointer: Option<LatestPointer>, expectedRev: nat,
    lease: Option<LeaseToken>, logicalAttempt: nat, checkpoint: Checkpoint)

  /** The work an intent announces. The three preparation steps mirror the workspace, capture its images
    * and seal the registry. */
  datatype Request =
    | Prepare(step: nat)
    | BuildRoot(generation: nat)
    | Upload(objectKey: Key, sha: string, size: int)
    | Commit(next: LatestPointer)
    | Refresh(ref: GenerationRef, haulPath: string)

  datatype Intent = Intent(attempt: nat, request: Request, timestamp: Time) {
    function Sequence(): nat {
      match request
      case Prepare(step) => step
      case BuildRoot(_) => 4
      case Upload(_, _, _) => 5
      case Commit(_) => 6
      case Refresh(_, _) => 7
    }
  }

  predicate SameId(a: Intent, b: Intent) { a.attempt == b.attempt && a.Sequence() == b.Sequence() }

  function Without(pending: seq<Intent>, intent: Intent): seq<Intent> {
    if pending == [] then []
    else (if SameId(pending[0], intent) then [] else [pending[0]]) + Without(pending[1..], intent)
  }

  /** A serving refresh changes none of this; any other fact keeps the journal's own lease, and a pointer commit
    * moves the baseline. */
  function Reduce(current: Snapshot, candidate: Snapshot, request: Request, commit: Option<PointerRecord>): Snapshot {
    if request.Refresh? then current
    else
      var composed := candidate.(lease := current.lease);
      if !request.Commit? || commit.None? then composed
      else
        composed.(currentBase := Some(commit.value.pointer.generation), currentPointer := Some(commit.value.pointer),
                  expectedRev := commit.value.rev)
  }

  predicate CompleteCommit(s: Snapshot, commit: Option<PointerRecord>) {
    && commit.Some? && commit.value.rev != 0
    && var p := commit.value.pointer;
       && p.schema == SCHEMA_VERSION && p.capsule != "" && p.capsule == s.capsule
       && p.lineage == s.lineage && p.lineage.branch != ""
       && p.generation.generation != 0 && |p.generation.sha| == 64 && p.size >= 0 && p.createdAt != 0 && p.session != ""
  }

  /** What a session's journal amounts to: its snapshot, what is pending, and every commit it ever announced. */
  datatype Book = Book(snapshot: Snapshot, pending: seq<Intent>, commits: seq<Intent>)

  class Journal {
    /** In a calm journal every call succeeds. */
    const calm: bool
    var snapshot: Snapshot
    var pending: seq<Intent>
    ghost var commits: seq<Intent>

    ghost function State(): Book
      reads this
    {
      Book(snapshot, pending, commits)
    }

    constructor (snapshot: Snapshot, calm: bool)
      ensures State() == Book(snapshot, [], []) && this.calm == calm
    {
      this.snapshot, this.calm := snapshot, calm;
      pending, commits := [], [];
    }

    method RecordIntent(intent: Intent) returns (ok: bool)
      modifies this
      ensures snapshot == old(snapshot)
      ensures State() == old(State()) || State() == WithIntent(old(State()), intent)
      ensures ok ==> State() == WithIntent(old(State()), intent)
      ensures calm ==> ok
    {
      var landed, reported: bool := *, *;
      if calm { landed, reported := true, true; }
      if landed {
        pending := Without(pending, intent) + [intent];
        if intent.request.Commit? { commits := commits + [intent]; }
      }
      return landed && reported;
    }

    method RecordFact(intent: Intent, candidate: Snapshot, commit: Option<PointerRecord>) returns (ok: bool)
      modifies this
      ensures State() == old(State())
              || (&& (intent.request.Commit? ==> CompleteCommit(candidate, commit))
                  && State() == WithFact(old(State()), intent, candidate, commit))
      ensures ok ==> State() == WithFact(old(State()), intent, candidate, commit)
      ensures calm && (intent.request.Commit? ==> CompleteCommit(candidate, commit)) ==> ok
    {
      if intent.request.Commit? && !CompleteCommit(candidate, commit) { return false; }
      var landed, reported: bool := *, *;
      if calm { landed, reported := true, true; }
      if landed {
        snapshot := Reduce(snapshot, candidate, intent.request, commit);
        pending := Without(pending, intent);
      }
      return landed && reported;
    }
  }

  function WithIntent(b: Book, intent: Intent): Book {
    Book(b.snapshot, Without(b.pending, intent) + [intent],
         if intent.request.Commit? then b.commits + [intent] else b.commits)
  }

  function WithFact(b: Book, intent: Intent, candidate: Snapshot, commit: Option<PointerRecord>): Book {
    Book(Reduce(b.snapshot, candidate, intent.request, commit), Without(b.pending, intent), b.commits)
  }

  // ---------------------------------------------------------------- metadata of an attempt

  function ToolsFor(s: Snapshot): ToolVersions {
    if s.tools == NO_TOOLS && s.currentPointer.Some? then s.currentPointer.value.tools else s.tools
  }

  function MetadataFor(s: Snapshot, ref: GenerationRef, size: int, createdAt: Time,
                       tools: ToolVersions): GenerationMetadata {
    GenerationMetadata(SCHEMA_VERSION, s.capsule, s.lineage, ref, s.currentBase, ArchiveKey(s.capsule, ref),
                       SidecarKey(s.capsule, s.lineage, ref), size, createdAt, tools, s.session,
                       Verification(true, false))
  }

  /** What a first attempt uploads. */
  function BuiltMetadata(s: Snapshot, ref: GenerationRef, size: int, now: Time): GenerationMetadata {
    MetadataFor(s, ref, size, now, ToolsFor(s))
  }

  /** What resuming the upload of `intent` uploads. */
  function ResumedMetadata(s: Snapshot, ref: GenerationRef, intent: Intent): GenerationMetadata
    requires intent.request.Upload?
  {
    MetadataFor(s, ref, intent.request.size, intent.timestamp, s.tools).(objectKey := intent.request.objectKey)
  }

  /** The intent a first attempt records before it uploads. */
  function UploadIntent(s: Snapshot, ref: GenerationRef, size: int, now: Time): Intent {
    Intent(s.logicalAttempt, Upload(ArchiveKey(s.capsule, ref), ref.sha, size), now)
  }

  /** A resumed upload rebuilds the interrupted attempt's metadata, and with it the pointer, exactly when
    * the snapshot names its tools or the fallback would have found none either. */
  lemma ResumeRebuildsIff(s: Snapshot, ref: GenerationRef, size: int, now: Time)
    ensures var built := BuiltMetadata(s, ref, size, now);
            var resumed := ResumedMetadata(s, ref, UploadIntent(s, ref, size, now));
            var sameTools := s.tools != NO_TOOLS || s.currentPointer.None? || s.currentPointer.value.tools == NO_TOOLS;
            && (resumed == built <==> sameTools)
            && (PointerOf(resumed) == PointerOf(built) <==> sameTools)
  {
    var built := BuiltMetadata(s, ref, size, now);
    var resumed := ResumedMetadata(s, ref, UploadIntent(s, ref, size, now));
    assert resumed == built.(tools := s.tools);
  }

  /** Where it does not, and the sidecar had landed, the resumed upload is stranded at every later instant. */
  lemma MissingFallbackStrands(log: Log, s: Snapshot, ref: GenerationRef, size: int, now: Time, i: nat, j: nat)
    requires Legal(log) && i <= j <= |log|
    requires s.tools == NO_TOOLS && s.currentPointer.Some? && s.currentPointer.value.tools != NO_TOOLS
    requires var built := BuiltMetadata(s, ref, size, now);
             var stored := Lookup(log[..i], built.metadataKey);
             stored.Some? && stored.value.doc == MetadataDoc(G.Verified(built))
    ensures Stranded(log[..j], ResumedMetadata(s, ref, UploadIntent(s, ref, size, now)))
  {
    Persists(log, SidecarKey(s.capsule, s.lineage, ref), i, j);
  }

  /** A sidecar for another pointer is stored where the sidecar of `m` belongs. */
  predicate Stranded(log: Log, m: GenerationMetadata) {
    var stored := Lookup(log, SidecarKey(m.capsule, m.lineage, m.generation));
    stored.Some? && stored.value.doc.MetadataDoc? && PointerOf(stored.value.doc.metadata) != PointerOf(m)
  }

  /** What is stranded is never backed: the sidecar in its place stays. */
  lemma StrandedForGood(log: Log, m: GenerationMetadata, i: nat, j: nat)
    requires Legal(log) && i <= j <= |log| && Stranded(log[..i], m)
    ensures Stranded(log[..j], m) && !BackedBy(log[..j], PointerOf(m))
  {
    Persists(log, SidecarKey(m.capsule, m.lineage, m.generation), i, j);
  }


  // ---------------------------------------------------------------- the session invariant

  function PointerKeyOf(s: Snapshot): Key { PointerKey(s.capsule, s.lineage) }

  predicate OwnWrite(e: Event, me: Actor, key: Key) { WritesPointer(e, key) && e.actor == me }

  function NumberOf(e: Event): nat
    requires e.Put? && e.doc.PointerDoc?
  {
    e.doc.pointer.generation.generation
  }

  predicate OwnPair(log: Log, me: Actor, key: Key, i: nat, j: nat)
    requires i < |log| && j < |log|
  {
    i < j && OwnWrite(log[i], me, key) && OwnWrite(log[j], me, key) ==> NumberOf(log[i]) < NumberOf(log[j])
  }

  /** No generation number is published twice by this session, and they only go up. */
  predicate OwnIncreasing(log: Log, me: Actor, key: Key) {
    forall i, j | 0 <= i < |log| && 0 <= j < |log| :: OwnPair(log, me, key, i, j)
  }

  /** An own write is at or below the journal's baseline, or is the announced commit, on top of it. */
  predicate AccountedAt(log: Log, me: Actor, key: Key, current: Option<LatestPointer>, rev: nat,
                        announced: Option<LatestPointer>, i: nat)
    requires i < |log|
  {
    OwnWrite(log[i], me, key) ==>
      || (current.Some? && i < rev && NumberOf(log[i]) <= current.value.generation.generation)
      || (announced == Some(log[i].doc.pointer) && rev <= i)
  }

  predicate Accounted(log: Log, me: Actor, key: Key, current: Option<LatestPointer>, rev: nat,
                      announced: Option<LatestPointer>) {
    forall i | 0 <= i < |log| :: AccountedAt(log, me, key, current, rev, announced, i)
  }

  /** What the journal takes to be stored under the pointer key. */
  function BaseObject(s: Snapshot): Option<Object> {
    if s.currentPointer.None? then None else Some(Object(PointerDoc(s.currentPointer.value), s.expectedRev))
  }

  /** The journal's baseline names a record that was written. */
  predicate Baseline(log: Log, s: Snapshot) {
    match s.currentPointer
    case None => s.expectedRev == 0
    case Some(p) =>
      && 1 <= s.expectedRev <= |log| && log[s.expectedRev - 1].Put? && log[s.expectedRev - 1].key == PointerKeyOf(s)
      && log[s.expectedRev - 1].doc == PointerDoc(p)
  }

  function Announced(pending: seq<Intent>): Option<LatestPointer> {
    if |pending| == 1 && pending[0].request.Commit? then Some(pending[0].request.next) else None
  }

  /** The store's side of a session: its own writes against its journal. */
  predicate Progress(log: Log, me: Actor, s: Snapshot, pending: seq<Intent>) {
    && Legal(log) && Baseline(log, s) && |pending| <= 1
    && Accounted(log, me, PointerKeyOf(s), s.currentPointer, s.expectedRev, Announced(pending))
    && OwnIncreasing(log, me, PointerKeyOf(s))
  }

  predicate CommitOrder(commits: seq<Intent>, k: nat, l: nat)
    requires k < |commits| && l < |commits|
  {
    k < l ==> commits[k].attempt < commits[l].attempt
  }

  predicate CommitBy(commits: seq<Intent>, attempt: nat, k: nat)
    requires k < |commits|
  {
    commits[k].request.Commit? && commits[k].attempt <= attempt
  }

  /** The current attempt has announced its commit. */
  predicate Spent(b: Book) { b.commits != [] && b.commits[|b.commits| - 1].attempt == b.snapshot.logicalAttempt }

  /** Work pending that leads on to a commit of the current attempt. */
  predicate Continues(pending: seq<Intent>) {
    |pending| == 1 && match pending[0].request
                      case Prepare(step) => step >= 2
                      case BuildRoot(_) => true
                      case Upload(_, _, _) => true
                      case _ => false
  }

  /** The journal's side: one commit an attempt, none announced before its attempt began, and an attempt that is
    * still under way has announced none. */
  predicate Orderly(b: Book) {
    && (forall k | 0 <= k < |b.commits| :: CommitBy(b.commits, b.snapshot.logicalAttempt, k))
    && (forall k, l | 0 <= k < |b.commits| && 0 <= l < |b.commits| :: CommitOrder(b.commits, k, l))
    && (Continues(b.pending) ==> !Spent(b))
    && (Announced(b.pending).Some? ==> b.commits != [] && b.commits[|b.commits| - 1] == b.pending[0])
  }

  /** The journal announced `p` under `attempt`. */
  predicate Announces(commits: seq<Intent>, attempt: nat, p: LatestPointer) {
    exists k :: 0 <= k < |commits| && commits[k].attempt == attempt && commits[k].request == Commit(p)
  }

  predicate Covers(commits: seq<Intent>, p: LatestPointer) {
    exists k :: 0 <= k < |commits| && commits[k].request == Commit(p)
  }

  /** An own write was announced, and its generation was stored before it. */
  predicate OwnAt(log: Log, me: Actor, key: Key, commits: seq<Intent>, i: nat)
    requires i < |log|
  {
    OwnWrite(log[i], me, key) ==> Covers(commits, log[i].doc.pointer) && BackedBy(log[..i], log[i].doc.pointer)
  }

  predicate CommitBacked(log: Log, commits: seq<Intent>, k: nat)
    requires k < |commits|
  {
    commits[k].request.Commit? ==> BackedBy(log, commits[k].request.next)
  }

  /** Both sides together: every own write was announced and backed, and every announced commit is backed. */
  predicate Ledger(log: Log, me: Actor, key: Key, commits: seq<Intent>) {
    && (forall i | 0 <= i < |log| :: OwnAt(log, me, key, commits, i))
    && (forall k | 0 <= k < |commits| :: CommitBacked(log, commits, k))
  }

  predicate SessionOk(log: Log, me: Actor, b: Book) {
    Progress(log, me, b.snapshot, b.pending) && Orderly(b) && Ledger(log, me, PointerKeyOf(b.snapshot), b.commits)
  }

  /** The parts of a snapshot that the session invariant reads. */
  predicate SameBaseline(s: Snapshot, t: Snapshot) {
    && s.session == t.session && s.capsule == t.capsule && s.lineage == t.lineage && s.tools == t.tools
    && s.currentBase == t.currentBase && s.currentPointer == t.currentPointer && s.expectedRev == t.expectedRev
    && s.logicalAttempt == t.logicalAttempt
  }

  // ---------------------------------------------------------------- what keeps it: events of the store

  lemma ProgressLater(log: Log, after: Log, me: Actor, s: Snapshot, pending: seq<Intent>)
    requires Progress(log, me, s, pending) && log <= after && Legal(after)
    requires forall i | |log| <= i < |after| :: !OwnWrite(after[i], me, PointerKeyOf(s))
    ensures Progress(after, me, s, pending)
  {
    var key := PointerKeyOf(s);
    forall i | 0 <= i < |after|
      ensures AccountedAt(after, me, key, s.currentPointer, s.expectedRev, Announced(pending), i)
    {
      if i < |log| { assert AccountedAt(log, me, key, s.currentPointer, s.expectedRev, Announced(pending), i); }
    }
    forall i, j | 0 <= i < |after| && 0 <= j < |after| ensures OwnPair(after, me, key, i, j) {
      if i < |log| && j < |log| { assert OwnPair(log, me, key, i, j); }
    }
  }

  /** New own writes that were announced keep the ledger, because what was announced is backed. */
  lemma LedgerLater(log: Log, after: Log, me: Actor, key: Key, commits: seq<Intent>)
    requires Ledger(log, me, key, commits) && log <= after && Legal(after)
    requires forall i | |log| <= i < |after| && OwnWrite(after[i], me, key) :: Covers(commits, after[i].doc.pointer)
    ensures Ledger(after, me, key, commits)
  {
    assert after[..|log|] == log && after[..|after|] == after;
    forall i | 0 <= i < |after| ensures OwnAt(after, me, key, commits, i) {
      if i < |log| {
        assert OwnAt(log, me, key, commits, i) && log[..i] == after[..i];
      } else if OwnWrite(after[i], me, key) {
        var k :| 0 <= k < |commits| && commits[k].request == Commit(after[i].doc.pointer);
        assert CommitBacked(log, commits, k);
        BackedByPersists(after, after[i].doc.pointer, |log|, i);
      }
    }
    forall k | 0 <= k < |commits| ensures CommitBacked(after, commits, k) {
      assert CommitBacked(log, commits, k);
      if commits[k].request.Commit? { BackedByPersists(after, commits[k].request.next, |log|, |after|); }
    }
  }

  lemma OtherEventsKeep(log: Log, after: Log, me: Actor, b: Book)
    requires SessionOk(log, me, b) && log <= after && Legal(after)
    requires forall i | |log| <= i < |after| :: !OwnWrite(after[i], me, PointerKeyOf(b.snapshot))
    ensures SessionOk(after, me, b)
  {
    ProgressLater(log, after, me, b.snapshot, b.pending);
    LedgerLater(log, after, me, PointerKeyOf(b.snapshot), b.commits);
  }

  lemma QuietKeeps(publishersOnly: bool, before: Log, after: Log, me: Actor, b: Book)
    requires SessionOk(before, me, b) && OthersGrow(publishersOnly, before, after, me)
    ensures SessionOk(after, me, b)
  {
    OtherEventsKeep(before, after, me, b);
  }

  /** An event of ours shows up among `Mine`. */
  lemma {:induction false} MineHas(log: Log, from: nat, me: Actor, i: nat)
    requires from <= i < |log| && log[i].actor == me
    ensures log[i] in Mine(log, from, me)
    decreases |log|
  {
    if i < |log| - 1 { MineHas(log[..|log| - 1], from, me, i); }
  }

  lemma {:induction false} MineOneIndex(log: Log, from: nat, me: Actor, i: nat, j: nat)
    requires from <= i < |log| && from <= j < |log| && log[i].actor == me && log[j].actor == me
    requires |Mine(log, from, me)| <= 1
    ensures i == j
    decreases |log|
  {
    var last := |log| - 1;
    if i == last || j == last {
      if i != j {
        var k := if i == last then j else i;
        MineHas(log[..last], from, me, k);
      }
    } else {
      MineOneIndex(log[..last], from, me, i, j);
    }
  }

  lemma UploadKeeps(publishersOnly: bool, before: Log, after: Log, me: Actor, b: Book, m: GenerationMetadata)
    requires SessionOk(before, me, b) && G.Uploaded(publishersOnly, before, after, me, m)
    requires ValidMetadata(m, m.capsule, m.lineage, m.generation) || Mine(after, |before|, me) == []
    ensures SessionOk(after, me, b)
  {
    forall i | |before| <= i < |after| ensures !OwnWrite(after[i], me, PointerKeyOf(b.snapshot)) {
      if after[i].actor == me { MineHas(after, |before|, me, i); }
    }
    OtherEventsKeep(before, after, me, b);
  }

  /** What one commit may have written: nothing, or the announced pointer, once, over a baseline that was in place
    * from the start. */
  predicate CommittedAtMost(before: Log, after: Log, me: Actor, s: Snapshot, next: LatestPointer) {
    && Grows(false, before, after)
    && (Mine(after, |before|, me) == []
        || (&& Mine(after, |before|, me) == [Put(me, PointerKeyOf(s), PointerDoc(next))]
            && Lookup(before, PointerKeyOf(s)) == BaseObject(s)))
  }

  /** A baseline in place later, at a revision that old, has been in place all along. */
  lemma BaselineStood(before: Log, after: Log, key: Key, base: Option<Object>, w: nat)
    requires before <= after && Legal(after) && |before| <= w <= |after| && key.PointerKey?
    requires Lookup(after[..w], key) == base && (base.Some? ==> base.value.rev <= |before|)
    ensures Lookup(before, key) == base
  {
    assert after[..|before|] == before;
    if base.None? {
      if Lookup(before, key).Some? { Persists(after, key, |before|, w); }
    } else {
      var r := base.value.rev;
      LookupWitness(after[..w], key);
      assert before[r - 1] == after[..w][r - 1];
      forall i | r <= i < |before| ensures before[i].key != key { assert before[i] == after[..w][i]; }
      LookupLast(before, key, r);
    }
  }

  lemma NothingCommitted(publishersOnly: bool, before: Log, after: Log, me: Actor, s: Snapshot, next: LatestPointer)
    requires OthersGrow(publishersOnly, before, after, me)
    ensures CommittedAtMost(before, after, me, s, next)
  {
    P.MineNone(publishersOnly, before, after, me);
  }

  lemma CommittedFrom(publishersOnly: bool, before: Log, mid: Log, after: Log, me: Actor, s: Snapshot,
                      next: LatestPointer)
    requires OthersGrow(publishersOnly, before, mid, me) && CommittedAtMost(mid, after, me, s, next)
    requires Legal(before) && Baseline(before, s)
    ensures CommittedAtMost(before, after, me, s, next)
  {
    MineSplit(after, |before|, |mid|, me);
    assert after[..|mid|] == mid && mid[..|mid|] == mid;
    P.MineNone(publishersOnly, before, mid, me);
    if Mine(after, |before|, me) != [] { BaselineStood(before, mid, PointerKeyOf(s), BaseObject(s), |mid|); }
  }

  /** Over the baseline the announced commit can land only once, because the revision it replaces never returns:
    * none of the writes accounted for so far is above the baseline. */
  lemma NotYetWritten(log: Log, after: Log, me: Actor, s: Snapshot, next: LatestPointer, i: nat, w: nat)
    requires log <= after && i < |log| <= w < |after| && Legal(after) && OwnWrite(log[i], me, PointerKeyOf(s))
    requires Baseline(log, s)
    requires AccountedAt(log, me, PointerKeyOf(s), s.currentPointer, s.expectedRev, Some(next), i)
    requires Lookup(after[..w], PointerKeyOf(s)) == BaseObject(s)
    ensures s.currentPointer.Some? && NumberOf(log[i]) <= s.currentPointer.value.generation.generation
  {
    var key := PointerKeyOf(s);
    if s.currentPointer.None? {
      assert after[..i + 1] == after[..i] + [after[i]];
      LookupAppend(after[..i], after[i], key);
      Persists(after, key, i + 1, w);
    } else if s.expectedRev <= i {
      RevisionGone(after, key, s.expectedRev, i, w);
    }
  }

  lemma ProgressWritten(log: Log, after: Log, me: Actor, s: Snapshot, pending: seq<Intent>, next: LatestPointer, w: nat)
    requires Progress(log, me, s, pending) && Announced(pending) == Some(next) && P.KeyOf(next) == PointerKeyOf(s)
    requires s.currentPointer.Some? ==> s.currentPointer.value.generation.generation < next.generation.generation
    requires log <= after && Legal(after) && |log| <= w < |after|
    requires Lookup(after[..w], PointerKeyOf(s)) == BaseObject(s)
    requires forall i | |log| <= i < |after| && OwnWrite(after[i], me, PointerKeyOf(s)) :: i == w
    requires after[w] == Put(me, P.KeyOf(next), PointerDoc(next))
    ensures Progress(after, me, s, pending)
  {
    var key := PointerKeyOf(s);
    forall i | 0 <= i < |log| && OwnWrite(after[i], me, key) ensures NumberOf(after[i]) < next.generation.generation {
      assert AccountedAt(log, me, key, s.currentPointer, s.expectedRev, Announced(pending), i);
      NotYetWritten(log, after, me, s, next, i, w);
    }
    forall i | 0 <= i < |after|
      ensures AccountedAt(after, me, key, s.currentPointer, s.expectedRev, Announced(pending), i)
    {
      if i < |log| { assert AccountedAt(log, me, key, s.currentPointer, s.expectedRev, Announced(pending), i); }
    }
    forall i, j | 0 <= i < |after| && 0 <= j < |after| ensures OwnPair(after, me, key, i, j) {
      if i < |log| && j < |log| { assert OwnPair(log, me, key, i, j); }
    }
  }

  /** Writing the announced commit keeps the session accounted for, and touches nothing else. */
  lemma CommitWritten(publishersOnly: bool, log: Log, after: Log, me: Actor, b: Book, next: LatestPointer, w: nat)
    requires SessionOk(log, me, b) && Announced(b.pending) == Some(next) && P.KeyOf(next) == PointerKeyOf(b.snapshot)
    requires b.snapshot.currentPointer.Some? ==>
               b.snapshot.currentPointer.value.generation.generation < next.generation.generation
    requires P.WroteAtMostOnce(publishersOnly, log, after, me, BaseObject(b.snapshot), next, w)
    ensures SessionOk(after, me, b) && CommittedAtMost(log, after, me, b.snapshot, next)
  {
    var key := PointerKeyOf(b.snapshot);
    forall i | |log| <= i < |after| && OwnWrite(after[i], me, key) ensures i == w && Mine(after, |log|, me) != [] {
      MineHas(after, |log|, me, i);
      MineOneIndex(after, |log|, me, i, w);
    }
    if Mine(after, |log|, me) == [] {
      OtherEventsKeep(log, after, me, b);
    } else {
      ProgressWritten(log, after, me, b.snapshot, b.pending, next, w);
      assert b.commits[|b.commits| - 1].request == Commit(next);
      LedgerLater(log, after, me, key, b.commits);
      BaselineStood(log, after, key, BaseObject(b.snapshot), w);
    }
  }

  // ---------------------------------------------------------------- what keeps it: entries of the journal

  /** An intent of the current attempt that is no commit. */
  lemma WorkAnnounced(log: Log, me: Actor, b: Book, intent: Intent)
    requires SessionOk(log, me, b) && b.pending == [] && !intent.request.Commit?
    requires Continues([intent]) ==> !Spent(b)
    ensures SessionOk(log, me, WithIntent(b, intent))
  {
    assert WithIntent(b, intent).pending == [intent];
  }

  /** Announcing the commit of a stored generation, once in its attempt. */
  lemma CommitAnnounced(log: Log, me: Actor, b: Book, intent: Intent)
    requires SessionOk(log, me, b) && b.pending == [] && intent.request.Commit? && !Spent(b)
    requires intent.attempt == b.snapshot.logicalAttempt && BackedBy(log, intent.request.next)
    ensures SessionOk(log, me, WithIntent(b, intent))
  {
    assert WithIntent(b, intent) == Book(b.snapshot, [intent], b.commits + [intent]);
    AccountMore(log, me, b.snapshot, intent.request.next);
    LedgerMore(log, me, PointerKeyOf(b.snapshot), b.commits, intent);
    OrderlyMore(b, intent);
  }

  lemma AccountMore(log: Log, me: Actor, s: Snapshot, next: LatestPointer)
    requires Accounted(log, me, PointerKeyOf(s), s.currentPointer, s.expectedRev, None)
    ensures Accounted(log, me, PointerKeyOf(s), s.currentPointer, s.expectedRev, Some(next))
  {
    forall i | 0 <= i < |log|
      ensures AccountedAt(log, me, PointerKeyOf(s), s.currentPointer, s.expectedRev, Some(next), i)
    {
      assert AccountedAt(log, me, PointerKeyOf(s), s.currentPointer, s.expectedRev, None, i);
    }
  }

  lemma OrderlyMore(b: Book, intent: Intent)
    requires Orderly(b) && !Spent(b) && intent.request.Commit? && intent.attempt == b.snapshot.logicalAttempt
    ensures Orderly(Book(b.snapshot, [intent], b.commits + [intent]))
  {
    var more := b.commits + [intent];
    forall k | 0 <= k < |more| ensures CommitBy(more, b.snapshot.logicalAttempt, k) {
      if k < |b.commits| { assert CommitBy(b.commits, b.snapshot.logicalAttempt, k); }
    }
    CommitOrderMore(b, intent);
  }

  lemma LedgerMore(log: Log, me: Actor, key: Key, commits: seq<Intent>, intent: Intent)
    requires Ledger(log, me, key, commits) && intent.request.Commit? && BackedBy(log, intent.request.next)
    ensures Ledger(log, me, key, commits + [intent])
  {
    forall i | 0 <= i < |log| ensures OwnAt(log, me, key, commits + [intent], i) {
      assert OwnAt(log, me, key, commits, i);
      if OwnWrite(log[i], me, key) { CoversMore(commits, intent, log[i].doc.pointer); }
    }
    forall k | 0 <= k <= |commits| ensures CommitBacked(log, commits + [intent], k) {
      if k < |commits| { assert CommitBacked(log, commits, k); }
    }
  }

  lemma CoversMore(commits: seq<Intent>, intent: Intent, p: LatestPointer)
    requires Covers(commits, p)
    ensures Covers(commits + [intent], p)
  {
    var k :| 0 <= k < |commits| && commits[k].request == Commit(p);
    assert (commits + [intent])[k] == commits[k];
  }

  lemma CommitOrderMore(b: Book, intent: Intent)
    requires Orderly(b) && !Spent(b) && intent.attempt == b.snapshot.logicalAttempt
    ensures var more := b.commits + [intent];
            forall k, l | 0 <= k < |more| && 0 <= l < |more| :: CommitOrder(more, k, l)
  {
    var more, n := b.commits + [intent], |b.commits|;
    forall k, l | 0 <= k < |more| && 0 <= l < |more| ensures CommitOrder(more, k, l) {
      if k < n && l < n { assert CommitOrder(b.commits, k, l); }
      if k < l == n {
        assert CommitBy(b.commits, b.snapshot.logicalAttempt, k) &&
               CommitBy(b.commits, b.snapshot.logicalAttempt, n - 1);
        assert CommitOrder(b.commits, k, n - 1);
      }
    }
  }

  lemma WithoutOnly(intent: Intent)
    ensures Without([intent], intent) == []
  {
    assert [intent][1..] == [];
  }

  /** A fact that moves no baseline. */
  lemma WorkRecorded(log: Log, me: Actor, b: Book, intent: Intent, candidate: Snapshot)
    requires SessionOk(log, me, b) && b.pending == [intent] && !intent.request.Commit?
    requires SameBaseline(b.snapshot.(logicalAttempt := candidate.logicalAttempt), candidate)
    requires b.snapshot.logicalAttempt <= candidate.logicalAttempt
    ensures SessionOk(log, me, WithFact(b, intent, candidate, None))
    ensures WithFact(b, intent, candidate, None).pending == []
    ensures !intent.request.Refresh? && (!Spent(b) || b.snapshot.logicalAttempt < candidate.logicalAttempt) ==>
              !Spent(WithFact(b, intent, candidate, None))
  {
    var c := WithFact(b, intent, candidate, None);
    WithoutOnly(intent);
    forall k | 0 <= k < |c.commits| ensures CommitBy(c.commits, c.snapshot.logicalAttempt, k) {
      assert CommitBy(b.commits, b.snapshot.logicalAttempt, k);
    }
    if c.commits != [] { assert CommitBy(b.commits, b.snapshot.logicalAttempt, |b.commits| - 1); }
  }

  /** Recording the live record as committed moves the baseline onto it. */
  lemma CommitRecorded(log: Log, me: Actor, b: Book, candidate: Snapshot, intent: Intent, record: PointerRecord)
    requires SessionOk(log, me, b) && SameBaseline(b.snapshot, candidate) && b.pending == [intent]
    requires intent.request == Commit(record.pointer) && IsLive(log, PointerKeyOf(b.snapshot), record)
    requires b.snapshot.currentPointer.Some? ==>
               b.snapshot.currentPointer.value.generation.generation < record.pointer.generation.generation
    ensures SessionOk(log, me, WithFact(b, intent, candidate, Some(record)))
    ensures WithFact(b, intent, candidate, Some(record)).pending == []
  {
    var key := PointerKeyOf(b.snapshot);
    LookupWitness(log, key);
    WithoutOnly(intent);
    forall i | 0 <= i < |log| ensures AccountedAt(log, me, key, Some(record.pointer), record.rev, None, i) {
      assert AccountedAt(log, me, key, b.snapshot.currentPointer, b.snapshot.expectedRev, Announced(b.pending), i);
    }
  }

  /** Each attempt moves the pointer at most once: two own writes announced under one attempt are one write. */
  lemma OnceAnAttempt(log: Log, me: Actor, b: Book, i: nat, j: nat, attempt: nat)
    requires SessionOk(log, me, b) && i < |log| && j < |log|
    requires OwnWrite(log[i], me, PointerKeyOf(b.snapshot)) && OwnWrite(log[j], me, PointerKeyOf(b.snapshot))
    requires Announces(b.commits, attempt, log[i].doc.pointer) && Announces(b.commits, attempt, log[j].doc.pointer)
    ensures i == j
  {
    var k :| 0 <= k < |b.commits| && b.commits[k].attempt == attempt &&
        b.commits[k].request == Commit(log[i].doc.pointer);
    var l :| 0 <= l < |b.commits| && b.commits[l].attempt == attempt &&
        b.commits[l].request == Commit(log[j].doc.pointer);
    assert CommitOrder(b.commits, k, l) && CommitOrder(b.commits, l, k);
    assert OwnPair(log, me, PointerKeyOf(b.snapshot), i, j) && OwnPair(log, me, PointerKeyOf(b.snapshot), j, i);
  }

  /** ... and every own write was announced under an attempt, over a generation that was stored before it. */
  lemma EveryWriteAnnounced(log: Log, me: Actor, b: Book, i: nat) returns (attempt: nat)
    requires SessionOk(log, me, b) && i < |log| && OwnWrite(log[i], me, PointerKeyOf(b.snapshot))
    ensures Announces(b.commits, attempt, log[i].doc.pointer) && 0 <= attempt <= b.snapshot.logicalAttempt
    ensures BackedBy(log[..i], log[i].doc.pointer)
  {
    assert OwnAt(log, me, PointerKeyOf(b.snapshot), b.commits, i);
    var k :| 0 <= k < |b.commits| && b.commits[k].request == Commit(log[i].doc.pointer);
    assert CommitBy(b.commits, b.snapshot.logicalAttempt, k);
    attempt := b.commits[k].attempt;
  }

  // ---------------------------------------------------------------- what the journal keeps for the next run

  /** The number of the generation that the session publishes next. */
  function NextNumber(s: Snapshot): nat { if s.currentBase.None? then 1 else s.currentBase.value.generation + 1 }

  /** The durable checkpoint that a pending upload or commit must belong to. */
  predicate CheckpointMatches(s: Snapshot, state: CheckpointState, generation: nat, attempt: nat) {
    var c := s.checkpoint;
    && s.session != "" && s.logicalAttempt != 0 && c.state == state && attempt == s.logicalAttempt
    && c.generation.Some? && c.generation.value.generation == generation && c.haulPath != "" && c.objectKey.Some?
  }

  /** The announced pointer is still what the durable checkpoint describes. */
  predicate Undrifted(s: Snapshot, next: LatestPointer)
    requires s.checkpoint.generation.Some? && s.checkpoint.objectKey.Some?
  {
    && next.schema == SCHEMA_VERSION && next.capsule == s.capsule && next.lineage == s.lineage
    && next.generation == s.checkpoint.generation.value && next.objectKey == s.checkpoint.objectKey.value
    && next.session == s.session && next.parent == s.currentBase
  }

  /** What is pending is what the durable snapshot describes, so that the next run can take it up. */
  predicate Durable(b: Book) {
    |b.pending| == 1 ==>
      var s, c, intent := b.snapshot, b.snapshot.checkpoint, b.pending[0];
      match intent.request
      case Prepare(step) =>
        1 <= step <= 3 && (step > 1 ==> intent.attempt == s.logicalAttempt != 0)
      case BuildRoot(n) => n == NextNumber(s) && intent.attempt == s.logicalAttempt != 0
      case Upload(key, sha, size) =>
        && CheckpointMatches(s, CheckpointVerified, NextNumber(s), intent.attempt) && size >= 0
        && key == c.objectKey.value && sha == c.generation.value.sha
      case Commit(next) => CheckpointMatches(s, CheckpointUploaded, NextNumber(s), intent.attempt) && Undrifted(s, next)
      case Refresh(ref, path) =>
        && c.state.CheckpointPublished? && c.succeeded && c.generation == Some(ref) && c.haulPath == path
        && s.currentPointer.Some?
  }

  /** ... in a session with a name. */
  predicate Tidy(b: Book) { b.snapshot.session != "" && Durable(b) }

  /** What a session never changes. */
  predicate SameSession(s: Snapshot, t: Snapshot) {
    && s.session == t.session && s.capsule == t.capsule && s.lineage == t.lineage && s.readWrite == t.readWrite
    && s.tools == t.tools && s.openedGeneration == t.openedGeneration && s.lease == t.lease
  }

  // ---------------------------------------------------------------- publication

  datatype Prepared = Worked | Unknown | Broken

  datatype Artifact = Artifact(sha: string, size: int, path: string)

  /** What the pipeline does in one run: its preparation steps, the generation it builds, the file that is uploaded, and
    * whether serving is refreshed. */
  datatype Work = Work(prepared: nat -> Prepared, artifact: Option<Artifact>, source: Doc, refreshed: bool)

  datatype PublishResult = NotPublished | Published(record: PointerRecord)

  /** A reported publication: at `at`, since the call began, the record was live and its generation stored. */
  ghost predicate LiveAt(before: Log, after: Log, key: Key, r: PublishResult, at: nat) {
    r.Published? ==>
      |before| <= at <= |after| && IsLive(after[..at], key, r.record) && BackedBy(after[..at], r.record.pointer)
  }

  /** What every part of a run keeps: the session's identity, its account, and what its journal needs to go on. */
  ghost predicate Kept(publishersOnly: bool, before: Log, after: Log, me: Actor, b: Book, c: Book, r: PublishResult,
                       at: nat)
  {
    && SameSession(b.snapshot, c.snapshot) && SessionOk(after, me, c) && Grows(publishersOnly, before, after)
    && LiveAt(before, after, PointerKeyOf(b.snapshot), r, at) && (Tidy(b) ==> Tidy(c))
  }

  /** The journal after a commit that nothing disturbed. */
  predicate Committed(b: Book, record: PointerRecord, refreshed: bool) {
    var s := b.snapshot;
    && s.currentPointer == Some(record.pointer) && s.expectedRev == record.rev
    && s.currentBase == Some(record.pointer.generation)
    && s.checkpoint.state.CheckpointPublished? && s.checkpoint.succeeded && (refreshed <==> b.pending == [])
  }

  /** Announces the serving refresh, performs it and records it; a failure leaves the intent pending. */
  method RefreshServing(journal: Journal, intent: Intent, refreshed: bool, ghost log: Log, ghost me: Actor)
    requires intent.request.Refresh? && SessionOk(log, me, journal.State())
    requires journal.pending == [] || journal.pending == [intent]
    modifies journal
    ensures SessionOk(log, me, journal.State()) && journal.snapshot == old(journal.snapshot)
    ensures journal.pending == [] || journal.pending == [intent]
    ensures journal.calm ==> journal.pending == if refreshed then [] else [intent]
    ensures old(journal.pending) == [intent] && !refreshed ==> journal.pending == [intent]
  {
    WithoutOnly(intent);
    if journal.pending == [] {
      WorkAnnounced(log, me, journal.State(), intent);
      var announced := journal.RecordIntent(intent);
      if !announced { return; }
    }
    if !refreshed { return; }
    WorkRecorded(log, me, journal.State(), intent, journal.snapshot);
    var _ := journal.RecordFact(intent, journal.snapshot, None);
  }

  /** The announced commit can be written: its baseline is live, and it is a valid child of it. */
  predicate CommitReady(log: Log, s: Snapshot, next: LatestPointer) {
    && Lookup(log, PointerKeyOf(s)) == BaseObject(s) && ValidPointer(next, s.capsule, s.lineage)
    && match s.currentPointer
       case None => s.lineage.IsMain() || next.parent.Some?
       case Some(p) => Advances(p, next)
  }

  /** The conditional write of the announced pointer over the journal's baseline. */
  method WriteCommit(store: ObjectStore, journal: Journal, me: Actor, next: LatestPointer)
    returns (r: Result<PointerRecord, P.Error>)
    requires SessionOk(store.log, me, journal.State()) && Announced(journal.pending) == Some(next)
    requires P.KeyOf(next) == PointerKeyOf(journal.snapshot) && BackedBy(store.log, next)
    requires Above(journal.snapshot, next.generation)
    modifies store
    ensures SessionOk(store.log, me, journal.State()) && Grows(store.publishersOnly, old(store.log), store.log)
    ensures CommittedAtMost(old(store.log), store.log, me, journal.snapshot, next)
    ensures r.Ok? ==> r.value.pointer == next && IsLive(store.log, PointerKeyOf(journal.snapshot), r.value)
    ensures store.calm && CommitReady(old(store.log), journal.snapshot, next) ==> r.Ok?
  {
    ghost var w;
    var s := journal.snapshot;
    if s.currentPointer.None? {
      r, w := P.Create(store, me, next);
    } else {
      var base := PointerRecord(s.currentPointer.value, s.expectedRev);
      if IsLive(store.log, PointerKeyOf(s), base) { CompleteWhenLive(store.log, s, base); }
      r, w := P.CompareAndSwap(store, me, base, next);
    }
    CommitWritten(store.publishersOnly, old(store.log), store.log, me, journal.State(), next, w);
  }

  /** The number is above the baseline's. */
  predicate Above(s: Snapshot, ref: GenerationRef) {
    s.currentPointer.Some? ==> s.currentPointer.value.generation.generation < ref.generation
  }

  lemma CompleteWhenLive(log: Log, s: Snapshot, record: PointerRecord)
    requires Legal(log) && IsLive(log, PointerKeyOf(s), record)
    ensures CompleteCommit(s, Some(record)) && ValidPointer(record.pointer, s.capsule, s.lineage)
  {
    LookupTyped(log, PointerKeyOf(s));
    LookupWitness(log, PointerKeyOf(s));
  }

  /** Records a live record as the commit that `intent` announced, and refreshes serving. */
  method RecordCommit(store: ObjectStore, journal: Journal, me: Actor, intent: Intent, record: PointerRecord, now: Time,
                      work: Work)
    requires SessionOk(store.log, me, journal.State()) && journal.pending == [intent]
    requires intent.request == Commit(record.pointer) && IsLive(store.log, PointerKeyOf(journal.snapshot), record)
    requires Above(journal.snapshot, record.pointer.generation)
    modifies journal
    ensures SessionOk(store.log, me, journal.State()) && SameSession(old(journal.snapshot), journal.snapshot)
    ensures old(Tidy(journal.State())) ==> Tidy(journal.State())
    ensures journal.calm ==> Committed(journal.State(), record, work.refreshed)
  {
    var s := journal.snapshot;
    CompleteWhenLive(store.log, s, record);
    var done := s.(checkpoint := s.checkpoint.(state := CheckpointPublished, succeeded := true));
    CommitRecorded(store.log, me, journal.State(), done, intent, record);
    var recorded := journal.RecordFact(intent, done, Some(record));
    if recorded {
      var refresh := Intent(s.logicalAttempt, Refresh(record.pointer.generation, s.checkpoint.haulPath), now);
      RefreshServing(journal, refresh, work.refreshed, store.log, me);
    }
  }

  /** Commits the announced pointer, or adopts it without a write if it is already live, and records the fact. */
  method CommitPointerAndRefresh(store: ObjectStore, journal: Journal, me: Actor, intent: Intent, now: Time, work: Work,
                                 adopted: Option<PointerRecord>)
    returns (r: PublishResult, ghost at: nat)
    requires SessionOk(store.log, me, journal.State()) && journal.pending == [intent] && intent.request.Commit?
    requires P.KeyOf(intent.request.next) == PointerKeyOf(journal.snapshot) && BackedBy(store.log, intent.request.next)
    requires Above(journal.snapshot, intent.request.next.generation)
    requires adopted.Some? ==> adopted.value.pointer == intent.request.next
    requires adopted.Some? ==> IsLive(store.log, PointerKeyOf(journal.snapshot), adopted.value)
    modifies store, journal
    ensures Kept(store.publishersOnly, old(store.log), store.log, me, old(journal.State()), journal.State(), r, at)
    ensures CommittedAtMost(old(store.log), store.log, me, old(journal.snapshot), intent.request.next)
    ensures adopted.Some? ==> store.log == old(store.log) && r == Published(adopted.value)
    ensures r.Published? ==> r.record.pointer == intent.request.next
    ensures store.calm && CommitReady(old(store.log), old(journal.snapshot), intent.request.next) ==> r.Published?
    ensures journal.calm && r.Published? ==> Committed(journal.State(), r.record, work.refreshed)
  {
    var next := intent.request.next;
    var published: Result<PointerRecord, P.Error>;
    at := |store.log|;
    if adopted.Some? {
      published := Ok(adopted.value);
      NothingCommitted(store.publishersOnly, store.log, store.log, me, journal.snapshot, next);
    } else {
      published := WriteCommit(store, journal, me, next);
      if published.Err? { return NotPublished, at; }
    }
    at := |store.log|;
    StillBacked(old(store.log), store.log, next);
    assert store.log[..at] == store.log;
    RecordCommit(store, journal, me, intent, published.value, now, work);
    return Published(published.value), at;
  }

  lemma StillBacked(before: Log, after: Log, p: LatestPointer)
    requires before <= after && Legal(after) && BackedBy(before, p)
    ensures BackedBy(after, p)
  {
    assert after[..|before|] == before && after[..|after|] == after;
    BackedByPersists(after, p, |before|, |after|);
  }

  /** The metadata belongs to the durable checkpoint. */
  predicate Describes(s: Snapshot, m: GenerationMetadata) {
    && m.capsule == s.capsule && m.lineage == s.lineage && m.session == s.session && m.parent == s.currentBase
    && s.checkpoint.generation == Some(m.generation) && s.checkpoint.objectKey == Some(m.objectKey)
  }

  /** Announces the commit of an uploaded generation, which is in the store, and carries it out. */
  method AnnounceAndCommit(store: ObjectStore, journal: Journal, me: Actor, m: GenerationMetadata, now: Time,
                           work: Work)
    returns (r: PublishResult, ghost at: nat)
    requires SessionOk(store.log, me, journal.State()) && journal.pending == [] && !Spent(journal.State())
    requires Describes(journal.snapshot, m) && BackedBy(store.log, PointerOf(m))
    requires Above(journal.snapshot, m.generation)
    modifies store, journal
    ensures Kept(store.publishersOnly, old(store.log), store.log, me, Pledge(old(journal.State()), m, now),
                 journal.State(), r, at)
    ensures CommittedAtMost(old(store.log), store.log, me, old(journal.snapshot), PointerOf(m))
    ensures r.Published? ==> r.record.pointer == PointerOf(m)
    ensures store.calm && journal.calm && CommitReady(old(store.log), old(journal.snapshot), PointerOf(m)) ==>
              r.Published? && Committed(journal.State(), r.record, work.refreshed)
  {
    var next := PointerOf(m);
    at := |store.log|;
    NothingCommitted(store.publishersOnly, store.log, store.log, me, journal.snapshot, next);
    var intent := Intent(journal.snapshot.logicalAttempt, Commit(next), now);
    CommitAnnounced(store.log, me, journal.State(), intent);
    assert WithIntent(journal.State(), intent) == Pledge(journal.State(), m, now);
    var announced := journal.RecordIntent(intent);
    if !announced { return NotPublished, at; }
    r, at := CommitPointerAndRefresh(store, journal, me, intent, now, work, None);
  }

  /** The journal once the commit of `m` is announced. */
  function Pledge(b: Book, m: GenerationMetadata, now: Time): Book {
    var intent := Intent(b.snapshot.logicalAttempt, Commit(PointerOf(m)), now);
    Book(b.snapshot, [intent], b.commits + [intent])
  }

  /** The generation `m` can be uploaded and its pointer committed. */
  predicate UploadReady(log: Log, s: Snapshot, m: GenerationMetadata, work: Work) {
    && G.MayUpload(log, m) && work.source == ArchiveDoc(m.size, m.generation.sha)
    && CommitReady(log, s, PointerOf(m))
  }

  /** Uploads `m` under the pending intent, records the fact and commits. A stranded upload fails, and leaves the
    * journal as it is. */
  method UploadAndCommit(store: ObjectStore, journal: Journal, me: Actor, m: GenerationMetadata, now: Time, work: Work)
    returns (r: PublishResult, ghost at: nat)
    requires SessionOk(store.log, me, journal.State()) && |journal.pending| == 1 && journal.pending[0].request.Upload?
    requires Describes(journal.snapshot, m) && BaseOk(journal.snapshot)
    modifies store, journal
    ensures Kept(store.publishersOnly, old(store.log), store.log, me, old(journal.State()), journal.State(), r, at)
    ensures r.Published? ==> r.record.pointer == PointerOf(m)
    ensures Stranded(old(store.log), m) ==> !r.Published? && journal.State() == old(journal.State())
    ensures store.calm && journal.calm && UploadReady(old(store.log), old(journal.snapshot), m, work) ==>
              r.Published? && Committed(journal.State(), r.record, work.refreshed)
  {
    ghost var b := journal.State();
    var ok := UploadGeneration(store, journal, me, m, work);
    if !ok { return NotPublished, 0; }
    ghost var mid, c := store.log, journal.State();
    PledgeIsTidy(b, c, m, now);
    r, at := AnnounceAndCommit(store, journal, me, m, now, work);
    KeptFrom(store.publishersOnly, old(store.log), mid, store.log, me, b, Pledge(c, m, now), journal.State(), r, at);
  }

  /** The upload of the pending intent, and its fact. */
  method UploadGeneration(store: ObjectStore, journal: Journal, me: Actor, m: GenerationMetadata, work: Work)
    returns (ok: bool)
    requires SessionOk(store.log, me, journal.State()) && |journal.pending| == 1 && journal.pending[0].request.Upload?
    requires Describes(journal.snapshot, m)
    modifies store, journal
    ensures Kept(store.publishersOnly, old(store.log), store.log, me, old(journal.State()), journal.State(),
                 NotPublished, 0)
    ensures journal.State() == old(journal.State()) || journal.State() == Uploaded(old(journal.State()))
    ensures ok ==>
              && journal.State() == Uploaded(old(journal.State())) && !Spent(journal.State())
              && BackedBy(store.log, PointerOf(m)) && ValidMetadata(m, m.capsule, m.lineage, m.generation)
    ensures Stranded(old(store.log), m) ==> !ok && journal.State() == old(journal.State())
    ensures store.calm && journal.calm && UploadReady(old(store.log), old(journal.snapshot), m, work) ==>
              ok && CommitReady(store.log, journal.snapshot, PointerOf(m))
  {
    var intent, s := journal.pending[0], journal.snapshot;
    var put := G.PutAndVerify(store, me, m, work.source);
    UploadKeeps(store.publishersOnly, old(store.log), store.log, me, journal.State(), m);
    if put.Err? { return false; }
    if Stranded(old(store.log), m) { StrandedFails(old(store.log), store.log, m); }
    var uploaded := s.(checkpoint := s.checkpoint.(state := CheckpointUploaded));
    WorkRecorded(store.log, me, journal.State(), intent, uploaded);
    WithoutOnly(intent);
    ok := journal.RecordFact(intent, uploaded, None);
  }

  /** The journal once the upload is recorded. */
  function Uploaded(b: Book): Book {
    Book(b.snapshot.(checkpoint := b.snapshot.checkpoint.(state := CheckpointUploaded)), [], b.commits)
  }

  lemma PledgeIsTidy(b: Book, c: Book, m: GenerationMetadata, now: Time)
    requires |b.pending| == 1 && b.pending[0].request.Upload? && c == Uploaded(b) && Describes(b.snapshot, m)
    ensures Tidy(b) ==> Tidy(Pledge(c, m, now))
  {}

  /** A part of a run after others' events, or after own ones that the session's account allows. */
  lemma KeptFrom(publishersOnly: bool, before: Log, mid: Log, after: Log, me: Actor, b: Book, c: Book, d: Book,
                 r: PublishResult, at: nat)
    requires Grows(publishersOnly, before, mid) && Kept(publishersOnly, mid, after, me, c, d, r, at) && Legal(before)
    requires SameSession(b.snapshot, c.snapshot) && (Tidy(b) ==> Tidy(c))
    ensures Kept(publishersOnly, before, after, me, b, d, r, at)
  {}

  lemma StrandedFails(before: Log, after: Log, m: GenerationMetadata)
    requires before <= after && Legal(after) && Stranded(before, m)
    ensures Stranded(after, m) && !BackedBy(after, PointerOf(m))
  {
    assert after[..|before|] == before && after[..|after|] == after;
    StrandedForGood(after, m, |before|, |after|);
  }

  /** The journal's own view of its base is in order. */
  predicate BaseOk(s: Snapshot) {
    s.currentPointer.Some? ==> s.currentBase == Some(s.currentPointer.value.generation)
  }

  /** The metadata that resuming the pending upload rebuilds. */
  function PendingMetadata(s: Snapshot, intent: Intent): GenerationMetadata
    requires intent.request.Upload? && s.checkpoint.generation.Some?
  {
    ResumedMetadata(s, s.checkpoint.generation.value, intent)
  }

  /** A pointer that takes the session's lineage one generation further, from its base. */
  predicate Extends(s: Snapshot, p: LatestPointer) {
    && p.capsule == s.capsule && p.lineage == s.lineage && p.session == s.session && p.parent == s.currentBase
    && p.generation.generation == NextNumber(s)
  }

  /** ... and describes what the pipeline built in this run. */
  predicate BuiltBy(s: Snapshot, now: Time, work: Work, p: LatestPointer) {
    && work.artifact.Some? && p.generation.sha == work.artifact.value.sha && p.size == work.artifact.value.size
    && p.createdAt == now && p.tools == ToolsFor(s)
  }

  /** A run that began with this journal publishes: what it builds, or what was pending. */
  predicate PublishedFrom(b: Book, now: Time, work: Work, p: LatestPointer) {
    && Extends(b.snapshot, p)
    && Durable(b) && Made(b, work)
    && if |b.pending| == 0 then BuiltBy(b.snapshot, now, work, p)
       else match b.pending[0].request
            case Upload(_, _, _) =>
              b.snapshot.checkpoint.generation.Some? && p == PointerOf(PendingMetadata(b.snapshot, b.pending[0]))
            case Commit(next) => p == next
            case _ => BuiltBy(b.snapshot, now, work, p)
  }

  /** Takes up an interrupted upload from its intent and the durable checkpoint. */
  method ResumePendingUpload(store: ObjectStore, journal: Journal, me: Actor, generation: nat, now: Time, work: Work)
    returns (r: PublishResult, ghost at: nat)
    requires SessionOk(store.log, me, journal.State()) && BaseOk(journal.snapshot)
    requires |journal.pending| == 1 && journal.pending[0].request.Upload? && generation == NextNumber(journal.snapshot)
    modifies store, journal
    ensures Kept(store.publishersOnly, old(store.log), store.log, me, old(journal.State()), journal.State(), r, at)
    ensures r.Published? ==>
              && old(journal.snapshot).checkpoint.generation.Some? && Extends(old(journal.snapshot), r.record.pointer)
              && r.record.pointer == PointerOf(PendingMetadata(old(journal.snapshot), old(journal.pending[0])))
    ensures Changed(old(store.log), store.log, me, old(journal.State()), journal.State()) || r.Published? ==>
              Durable(old(journal.State()))
    ensures StrandedNow(old(store.log), old(journal.State())) ==>
              !r.Published? && journal.State() == old(journal.State())
    ensures store.calm && journal.calm && old(Tidy(journal.State()))
            && UploadReady(old(store.log), old(journal.snapshot),
                           PendingMetadata(old(journal.snapshot), old(journal.pending[0])), work) ==>
              r.Published? && Committed(journal.State(), r.record, work.refreshed)
  {
    var s, intent := journal.snapshot, journal.pending[0];
    at := |store.log|;
    if !CheckpointMatches(s, CheckpointVerified, generation, intent.attempt) { return NotPublished, at; }
    var c, request := s.checkpoint, intent.request;
    if request.objectKey != c.objectKey.value || request.sha != c.generation.value.sha || request.size < 0 {
      return NotPublished, at;
    }
    r, at := UploadAndCommit(store, journal, me, PendingMetadata(s, intent), now, work);
  }

  /** The pending work is an upload that can never be backed. */
  predicate StrandedNow(log: Log, b: Book) {
    && |b.pending| == 1 && b.pending[0].request.Upload? && b.snapshot.checkpoint.generation.Some?
    && Stranded(log, PendingMetadata(b.snapshot, b.pending[0]))
  }

  /** The announced pointer can be committed: it is live already, or its baseline is. */
  predicate CommitPossible(log: Log, s: Snapshot, next: LatestPointer) {
    P.Stands(log, next) || CommitReady(log, s, next)
  }

  /** Whether the stored sidecar describes the announced pointer, and whether that is live already. */
  method ObserveCommit(store: ObjectStore, journal: Journal, me: Actor)
    returns (same: bool, adopted: Option<PointerRecord>)
    requires SessionOk(store.log, me, journal.State()) && Announced(journal.pending).Some?
    requires P.KeyOf(Announced(journal.pending).value) == PointerKeyOf(journal.snapshot)
    modifies store
    ensures SessionOk(store.log, me, journal.State()) && OthersGrow(store.publishersOnly, old(store.log), store.log, me)
    ensures same ==> BackedBy(store.log, Announced(journal.pending).value)
    ensures adopted.Some? ==> adopted.value.pointer == Announced(journal.pending).value
    ensures adopted.Some? ==> IsLive(store.log, PointerKeyOf(journal.snapshot), adopted.value)
    ensures store.calm ==>
              && store.log == old(store.log) && same
              && (adopted.Some? <==> P.Stands(store.log, Announced(journal.pending).value))
  {
    var s, next := journal.snapshot, journal.pending[0].request.next;
    adopted := None;
    AnnouncedIsStored(store.log, me, journal.State());
    var m := G.ReadMetadata(store, me, s.capsule, s.lineage, next.generation);
    QuietKeeps(store.publishersOnly, old(store.log), store.log, me, journal.State());
    same := m.Ok? && PointerOf(m.value) == next;
    if !same { return; }
    ghost var mid := store.log;
    var current := P.Read(store, me, s.capsule, s.lineage);
    QuietKeeps(store.publishersOnly, mid, store.log, me, journal.State());
    StillBacked(mid, store.log, next);
    if current.Ok? && current.value.pointer == next { adopted := Some(current.value); }
  }

  /** Takes up an interrupted pointer commit: the announced pointer must still be what the stored sidecar describes,
    * and it is written at most once, over the baseline. If anything but the baseline is live when the call begins,
    * the announced pointer included, nothing is written. */
  method ResumePendingPointer(store: ObjectStore, journal: Journal, me: Actor, generation: nat, now: Time, work: Work)
    returns (r: PublishResult, ghost at: nat)
    requires SessionOk(store.log, me, journal.State()) && BaseOk(journal.snapshot)
    requires |journal.pending| == 1 && journal.pending[0].request.Commit? && generation == NextNumber(journal.snapshot)
    modifies store, journal
    ensures Kept(store.publishersOnly, old(store.log), store.log, me, old(journal.State()), journal.State(), r, at)
    ensures CommittedAtMost(old(store.log), store.log, me, old(journal.snapshot), old(journal.pending[0]).request.next)
    ensures r.Published? ==>
              && r.record.pointer == old(journal.pending[0]).request.next
              && Extends(old(journal.snapshot), r.record.pointer)
    ensures Changed(old(store.log), store.log, me, old(journal.State()), journal.State()) || r.Published? ==>
              Durable(old(journal.State()))
    ensures store.calm && journal.calm && old(Tidy(journal.State()))
            && CommitPossible(old(store.log), old(journal.snapshot), old(journal.pending[0]).request.next) ==>
              r.Published? && Committed(journal.State(), r.record, work.refreshed)
  {
    var s, intent := journal.snapshot, journal.pending[0];
    var next := intent.request.next;
    at := |store.log|;
    NothingCommitted(store.publishersOnly, store.log, store.log, me, s, next);
    if !CheckpointMatches(s, CheckpointUploaded, generation, intent.attempt) { return NotPublished, at; }
    if !Undrifted(s, next) { return NotPublished, at; }
    r, at := CommitPending(store, journal, me, now, work);
  }

  /** Commits the announced pointer after a look at what is stored. */
  method CommitPending(store: ObjectStore, journal: Journal, me: Actor, now: Time, work: Work)
    returns (r: PublishResult, ghost at: nat)
    requires SessionOk(store.log, me, journal.State()) && Announced(journal.pending).Some?
    requires P.KeyOf(Announced(journal.pending).value) == PointerKeyOf(journal.snapshot)
    requires Above(journal.snapshot, Announced(journal.pending).value.generation)
    modifies store, journal
    ensures Kept(store.publishersOnly, old(store.log), store.log, me, old(journal.State()), journal.State(), r, at)
    ensures CommittedAtMost(old(store.log), store.log, me, old(journal.snapshot), old(journal.pending[0]).request.next)
    ensures r.Published? ==> r.record.pointer == old(journal.pending[0]).request.next
    ensures store.calm && journal.calm
            && CommitPossible(old(store.log), old(journal.snapshot), old(journal.pending[0]).request.next) ==>
              r.Published? && Committed(journal.State(), r.record, work.refreshed)
  {
    var s, next := journal.snapshot, journal.pending[0].request.next;
    at := |store.log|;
    ghost var b := journal.State();
    var same, adopted := ObserveCommit(store, journal, me);
    ghost var mid := store.log;
    NothingCommitted(store.publishersOnly, old(store.log), mid, me, s, next);
    if !same { return NotPublished, at; }
    r, at := CommitPointerAndRefresh(store, journal, me, journal.pending[0], now, work, adopted);
    CommittedFrom(store.publishersOnly, old(store.log), mid, store.log, me, s, next);
    KeptFrom(store.publishersOnly, old(store.log), mid, store.log, me, b, b, journal.State(), r, at);
  }

  /** The sidecar of an announced commit is stored. */
  lemma AnnouncedIsStored(log: Log, me: Actor, b: Book)
    requires SessionOk(log, me, b) && Announced(b.pending).Some?
    ensures var next := Announced(b.pending).value;
            var key := SidecarKey(next.capsule, next.lineage, next.generation);
            && BackedBy(log, next) && ValidLineage(next.capsule, next.lineage) && ValidRef(next.generation)
            && Lookup(log, key).Some? && Lookup(log, key).value.doc.MetadataDoc?
            && PointerOf(Lookup(log, key).value.doc.metadata) == next
  {
    assert CommitBacked(log, b.commits, |b.commits| - 1);
    var next := Announced(b.pending).value;
    LookupTyped(log, SidecarKey(next.capsule, next.lineage, next.generation));
  }

  predicate ConsistentSnapshot(s: Snapshot)
    requires s.lease.Some?
  {
    var l := s.lease.value.lease;
    && s.session != "" && s.capsule != "" && s.lineage.branch != ""
    && l.schema == SCHEMA_VERSION && l.session == s.session && l.capsule == s.capsule && l.lineage == s.lineage
    && l.machine != "" && l.createdAt != 0 && l.heartbeatAt != 0 && l.expiresAt != 0 &&
        l.openedRef == s.openedGeneration
    && match s.currentPointer
       case None => s.expectedRev == 0 && !(s.lineage.IsMain() && s.currentBase.Some?)
       case Some(p) =>
         s.expectedRev != 0 && p.capsule == s.capsule && p.lineage == s.lineage && s.currentBase == Some(p.generation)
  }

  /** At the instant `n`, since the call began, the session's own token was accepted at this reading of the clock. */
  ghost predicate AcceptedAt(before: Log, after: Log, s: Snapshot, now: Time, n: nat) {
    && |before| <= n <= |after| && s.lease.Some?
    && Accepted(after[..n], LeaseKey(s.capsule, s.lineage), s.lease.value, now)
  }

  ghost predicate AcceptedNow(log: Log, s: Snapshot, now: Time) { AcceptedAt(log, log, s, now, |log|) }

  /** One preparation step: its intent, pending already or announced now, its effect, and its fact. Mirroring, the
    * first, may have an unknown outcome, which is recorded, and is followed by a second look at the lease, at
    * `again`. */
  method PrepareStep(store: ObjectStore, journal: Journal, me: Actor, step: nat, attempt: nat, now: Time, work: Work)
    returns (ok: bool, ghost again: nat)
    requires 1 <= step <= 3 && SessionOk(store.log, me, journal.State()) && OwnLease(journal.snapshot)
    requires if step == 1 then attempt == journal.snapshot.logicalAttempt + 1
             else attempt == journal.snapshot.logicalAttempt != 0 && !Spent(journal.State())
    requires journal.pending == [] || (step > 1 && |journal.pending| == 1 &&
                                       journal.pending[0].request == Prepare(step))
    modifies store, journal
    ensures SessionOk(store.log, me, journal.State()) && OthersGrow(store.publishersOnly, old(store.log), store.log, me)
    ensures journal.snapshot == old(journal.snapshot).(logicalAttempt := journal.snapshot.logicalAttempt)
    ensures step > 1 ==> journal.snapshot == old(journal.snapshot)
    ensures ok ==> journal.pending == [] && journal.snapshot.logicalAttempt == attempt && !Spent(journal.State())
    ensures ok ==> work.prepared(step) == Worked
    ensures ok && step == 1 ==> AcceptedAt(old(store.log), store.log, old(journal.snapshot), now, again)
    ensures journal.calm && step == 1 && work.prepared(1) == Unknown ==>
              !ok && journal.pending == [] && journal.snapshot.logicalAttempt == attempt
    ensures journal.calm && !ok && !(step == 1 && work.prepared(1) == Unknown) ==>
              |journal.pending| == 1 && journal.pending[0].request == Prepare(step)
    ensures old(Tidy(journal.State())) ==> Tidy(journal.State())
    ensures store.calm ==> store.log == old(store.log)
    ensures store.calm && journal.calm && work.prepared(step) == Worked
            && (step == 1 ==> AcceptedNow(old(store.log), old(journal.snapshot), now)) ==>
              ok
  {
    again := |store.log|;
    ok := BeginStep(journal, step, attempt, now, store.log, me);
    if !ok { return; }
    ok := work.prepared(step) == Worked;
    if !ok && (work.prepared(step) == Broken || step != 1) { return; }
    if ok && step == 1 {
      ok, again := CheckLease(store, journal, me, now);
      if !ok { return; }
    }
    var recorded := EndStep(journal, attempt, store.log, me);
    ok := ok && recorded;
  }

  /** Announces a step whose intent is not pending yet. */
  method BeginStep(journal: Journal, step: nat, attempt: nat, now: Time, ghost log: Log, ghost me: Actor)
    returns (ok: bool)
    requires 1 <= step <= 3 && SessionOk(log, me, journal.State())
    requires step > 1 ==> attempt == journal.snapshot.logicalAttempt != 0 && !Spent(journal.State())
    requires journal.pending == [] || (step > 1 && |journal.pending| == 1 &&
                                       journal.pending[0].request == Prepare(step))
    modifies journal
    ensures SessionOk(log, me, journal.State()) && journal.snapshot == old(journal.snapshot)
    ensures journal.commits == old(journal.commits)
    ensures ok ==> |journal.pending| == 1 && journal.pending[0].request == Prepare(step)
    ensures old(Tidy(journal.State())) ==> Tidy(journal.State())
    ensures journal.calm ==> ok
  {
    if journal.pending != [] { return true; }
    var intent := Intent(attempt, Prepare(step), now);
    WorkAnnounced(log, me, journal.State(), intent);
    WithoutOnly(intent);
    ok := journal.RecordIntent(intent);
  }

  /** Records the pending step, under its attempt. */
  method EndStep(journal: Journal, attempt: nat, ghost log: Log, ghost me: Actor) returns (ok: bool)
    requires SessionOk(log, me, journal.State()) && |journal.pending| == 1 && journal.pending[0].request.Prepare?
    requires if journal.pending[0].request.step == 1 then attempt == journal.snapshot.logicalAttempt + 1
             else attempt == journal.snapshot.logicalAttempt && !Spent(journal.State())
    modifies journal
    ensures SessionOk(log, me, journal.State())
    ensures journal.snapshot == old(journal.snapshot).(logicalAttempt := journal.snapshot.logicalAttempt)
    ensures old(journal.snapshot).logicalAttempt == attempt ==> journal.snapshot == old(journal.snapshot)
    ensures ok ==> journal.pending == [] && journal.snapshot.logicalAttempt == attempt && !Spent(journal.State())
    ensures old(Tidy(journal.State())) ==> Tidy(journal.State())
    ensures journal.calm ==> ok
  {
    var intent, next := journal.pending[0], journal.snapshot.(logicalAttempt := attempt);
    WorkRecorded(log, me, journal.State(), intent, next);
    ok := journal.RecordFact(intent, next, None);
  }

  /** A look at the session's lease, at `n`. */
  method CheckLease(store: ObjectStore, journal: Journal, me: Actor, now: Time) returns (ok: bool, ghost n: nat)
    requires SessionOk(store.log, me, journal.State()) && OwnLease(journal.snapshot)
    modifies store
    ensures SessionOk(store.log, me, journal.State()) && OthersGrow(store.publishersOnly, old(store.log), store.log, me)
    ensures n == |store.log| && (ok ==> AcceptedAt(old(store.log), store.log, journal.snapshot, now, n))
    ensures store.calm ==> store.log == old(store.log) && (ok <==> AcceptedNow(store.log, journal.snapshot, now))
  {
    var held := L.Revalidate(store, me, journal.snapshot.lease.value, now);
    QuietKeeps(store.publishersOnly, old(store.log), store.log, me, journal.State());
    n := |store.log|;
    assert store.log[..n] == store.log;
    return held.Ok?, n;
  }

  /** The session holds a lease of its own lineage. */
  predicate OwnLease(s: Snapshot) {
    s.lease.Some? && L.KeyOf(s.lease.value.lease) == LeaseKey(s.capsule, s.lineage)
  }

  /** The preparation steps from `first` on all succeed. */
  predicate AllPrepared(work: Work, first: nat) { forall step :: first <= step <= 3 ==> work.prepared(step) == Worked }

  /** The three preparation steps, from `first`, whose intent may be pending already, and the announcement of the
    * build. A first step begins a new attempt, and looks at the lease once more, at `again`. */
  method PrepareRegistrySeal(store: ObjectStore, journal: Journal, me: Actor, first: nat, generation: nat, now: Time,
                             work: Work)
    returns (ok: bool, ghost again: nat)
    requires 1 <= first <= 3 && SessionOk(store.log, me, journal.State()) && OwnLease(journal.snapshot)
    requires generation == NextNumber(journal.snapshot)
    requires if first == 1 then journal.pending == []
             else && |journal.pending| == 1 && journal.pending[0].request == Prepare(first)
                  && journal.snapshot.logicalAttempt != 0
    modifies store, journal
    ensures SessionOk(store.log, me, journal.State()) && OthersGrow(store.publishersOnly, old(store.log), store.log, me)
    ensures journal.snapshot == old(journal.snapshot).(logicalAttempt := journal.snapshot.logicalAttempt)
    ensures ok ==> |journal.pending| == 1 && journal.pending[0].request == BuildRoot(generation)
    ensures ok ==> AllPrepared(work, first)
    ensures ok && first == 1 ==>
              && journal.snapshot.logicalAttempt == old(journal.snapshot.logicalAttempt) + 1 <= MAX_UINT64
              && AcceptedAt(old(store.log), store.log, old(journal.snapshot), now, again)
    ensures old(Tidy(journal.State())) ==> Tidy(journal.State())
    ensures store.calm ==> store.log == old(store.log)
    ensures store.calm && journal.calm && AllPrepared(work, first)
            && (first == 1 ==> old(journal.snapshot).logicalAttempt < MAX_UINT64)
            && (first == 1 ==> AcceptedNow(old(store.log), old(journal.snapshot), now)) ==>
              ok
  {
    again := |store.log|;
    if first == 1 && journal.snapshot.logicalAttempt >= MAX_UINT64 { return false, again; }
    var attempt := if first == 1 then journal.snapshot.logicalAttempt + 1 else journal.snapshot.logicalAttempt;
    ok, again := PrepareStep(store, journal, me, first, attempt, now, work);
    if !ok { return; }
    ghost var mid := store.log;
    ok := PrepareRest(store, journal, me, first + 1, now, work);
    if first == 1 { assert store.log[..again] == mid[..again]; }
    if !ok { return; }
    ok := AnnounceBuild(journal, now, store.log, me);
  }

  /** The preparation steps from `next` on, in an attempt that is under way. */
  method PrepareRest(store: ObjectStore, journal: Journal, me: Actor, next: nat, now: Time, work: Work)
    returns (ok: bool)
    requires 2 <= next <= 4 && Preparing(store.log, me, journal.State())
    modifies store, journal
    ensures OthersGrow(store.publishersOnly, old(store.log), store.log, me) && SessionOk(store.log, me, journal.State())
    ensures journal.snapshot == old(journal.snapshot)
    ensures ok ==> Preparing(store.log, me, journal.State()) && AllPrepared(work, next)
    ensures old(Tidy(journal.State())) ==> Tidy(journal.State())
    ensures store.calm ==> store.log == old(store.log)
    ensures store.calm && journal.calm && AllPrepared(work, next) ==> ok
  {
    for step := next to 4
      invariant Preparing(store.log, me, journal.State()) && journal.snapshot == old(journal.snapshot)
      invariant forall k :: next <= k < step ==> work.prepared(k) == Worked
      invariant OthersGrow(store.publishersOnly, old(store.log), store.log, me)
      invariant old(Tidy(journal.State())) ==> Tidy(journal.State())
      invariant store.calm ==> store.log == old(store.log)
    {
      ghost var again;
      ok, again := PrepareStep(store, journal, me, step, journal.snapshot.logicalAttempt, now, work);
      if !ok { return; }
    }
    ok := true;
  }

  /** Between two steps of an attempt that has announced no commit. */
  predicate Preparing(log: Log, me: Actor, b: Book) {
    && SessionOk(log, me, b) && OwnLease(b.snapshot) && b.pending == [] && b.snapshot.logicalAttempt != 0 && !Spent(b)
  }

  method AnnounceBuild(journal: Journal, now: Time, ghost log: Log, ghost me: Actor) returns (ok: bool)
    requires Preparing(log, me, journal.State())
    modifies journal
    ensures SessionOk(log, me, journal.State()) && journal.snapshot == old(journal.snapshot)
    ensures ok ==>
              |journal.pending| == 1 && journal.pending[0].request == BuildRoot(NextNumber(journal.snapshot))
    ensures old(Tidy(journal.State())) ==> Tidy(journal.State())
    ensures journal.calm ==> ok
  {
    var build := Intent(journal.snapshot.logicalAttempt, BuildRoot(NextNumber(journal.snapshot)), now);
    WorkAnnounced(log, me, journal.State(), build);
    WithoutOnly(build);
    ok := journal.RecordIntent(build);
  }

  /** What a first attempt with this artifact uploads. */
  function ArtifactMetadata(s: Snapshot, a: Artifact, now: Time): GenerationMetadata {
    BuiltMetadata(s, GenerationRef(NextNumber(s), a.sha), a.size, now)
  }

  /** A generation is built that can be uploaded and committed. */
  predicate BuildReady(log: Log, s: Snapshot, now: Time, work: Work) {
    && work.artifact.Some? && work.artifact.value.path != "" && work.artifact.value.size >= 0
    && UploadReady(log, s, ArtifactMetadata(s, work.artifact.value, now), work)
  }

  /** Builds generation number `generation` on the journal's base under the pending intent, records it as verified,
    * uploads it and commits. */
  method BuildAndUpload(store: ObjectStore, journal: Journal, me: Actor, generation: nat, now: Time, work: Work)
    returns (r: PublishResult, ghost at: nat)
    requires SessionOk(store.log, me, journal.State()) && BaseOk(journal.snapshot)
    requires |journal.pending| == 1 && journal.pending[0].request.BuildRoot?
    requires generation == NextNumber(journal.snapshot)
    modifies store, journal
    ensures Kept(store.publishersOnly, old(store.log), store.log, me, old(journal.State()), journal.State(), r, at)
    ensures r.Published? ==>
              && Extends(old(journal.snapshot), r.record.pointer)
              && BuiltBy(old(journal.snapshot), now, work, r.record.pointer)
    ensures store.calm && journal.calm && BuildReady(old(store.log), old(journal.snapshot), now, work) ==>
              r.Published? && Committed(journal.State(), r.record, work.refreshed)
  {
    if work.artifact.None? || work.artifact.value.path == "" || work.artifact.value.size < 0 { return NotPublished, 0; }
    var m := ArtifactMetadata(journal.snapshot, work.artifact.value, now);
    r, at := UploadBuilt(store, journal, me, m, work.artifact.value.path, now, work);
  }

  /** Records a built generation, uploads it and commits. */
  method UploadBuilt(store: ObjectStore, journal: Journal, me: Actor, m: GenerationMetadata, path: string, now: Time,
                     work: Work)
    returns (r: PublishResult, ghost at: nat)
    requires SessionOk(store.log, me, journal.State()) && BaseOk(journal.snapshot)
    requires |journal.pending| == 1 && journal.pending[0].request.BuildRoot? && path != "" && m.size >= 0
    requires m == BuiltMetadata(journal.snapshot, m.generation, m.size, now)
    requires m.generation.generation == NextNumber(journal.snapshot)
    modifies store, journal
    ensures Kept(store.publishersOnly, old(store.log), store.log, me, old(journal.State()), journal.State(), r, at)
    ensures r.Published? ==> r.record.pointer == PointerOf(m)
    ensures store.calm && journal.calm && UploadReady(old(store.log), old(journal.snapshot), m, work) ==>
              r.Published? && Committed(journal.State(), r.record, work.refreshed)
  {
    ghost var b := journal.State();
    var ok := RecordBuild(journal, m, path, now, store.log, me);
    ghost var c := journal.State();
    if !ok { return NotPublished, 0; }
    ReadyAgain(store.log, b.snapshot, c.snapshot, m, work);
    r, at := UploadAndCommit(store, journal, me, m, now, work);
    KeptFrom(store.publishersOnly, old(store.log), old(store.log), store.log, me, b, c, journal.State(), r, at);
  }

  /** What can be uploaded depends on the base, and not on the checkpoint or the attempt. */
  lemma ReadyAgain(log: Log, s: Snapshot, t: Snapshot, m: GenerationMetadata, work: Work)
    requires t == s.(checkpoint := t.checkpoint, logicalAttempt := t.logicalAttempt)
    ensures UploadReady(log, s, m, work) <==> UploadReady(log, t, m, work)
  {}

  /** Records a built generation as the durable checkpoint, and announces its upload. */
  method RecordBuild(journal: Journal, m: GenerationMetadata, path: string, now: Time, ghost log: Log, ghost me: Actor)
    returns (ok: bool)
    requires SessionOk(log, me, journal.State()) && |journal.pending| == 1 && journal.pending[0].request.BuildRoot?
    requires m == BuiltMetadata(journal.snapshot, m.generation, m.size, now) && path != "" && m.size >= 0
    requires m.generation.generation == NextNumber(journal.snapshot)
    modifies journal
    ensures Kept(false, log, log, me, old(journal.State()), journal.State(), NotPublished, 0)
    ensures journal.snapshot == old(journal.snapshot).(checkpoint := journal.snapshot.checkpoint)
    ensures ok ==> Describes(journal.snapshot, m) && |journal.pending| == 1 && journal.pending[0].request.Upload?
    ensures ok ==> journal.snapshot.checkpoint.haulPath == path
    ensures journal.calm ==> ok
  {
    var intent, s := journal.pending[0], journal.snapshot;
    s := s.(checkpoint := Checkpoint(CheckpointVerified, Some(m.generation), path, Some(m.objectKey), false));
    WorkRecorded(log, me, journal.State(), intent, s);
    ok := journal.RecordFact(intent, s, None);
    if !ok { return; }
    var upload := UploadIntent(s, m.generation, m.size, now);
    WorkAnnounced(log, me, journal.State(), upload);
    WithoutOnly(upload);
    ok := journal.RecordIntent(upload);
  }

  /** The preparation steps that were left have succeeded. */
  predicate Made(b: Book, work: Work) {
    if |b.pending| == 0 then AllPrepared(work, 1)
    else b.pending[0].request.Prepare? ==> AllPrepared(work, b.pending[0].request.step)
  }

  /** Mirroring is pending: it failed, or the process died in it. */
  predicate MirrorPending(b: Book) { |b.pending| == 1 && b.pending[0].request == Prepare(1) }

  /** What is pending can be taken to its end, or a new attempt can. */
  predicate Takable(log: Log, b: Book, now: Time, work: Work) {
    var s := b.snapshot;
    if |b.pending| == 0 then s.logicalAttempt < MAX_UINT64 && AllPrepared(work, 1) && BuildReady(log, s, now, work)
    else match b.pending[0].request
         case Prepare(step) => step > 1 && AllPrepared(work, step) && BuildReady(log, s, now, work)
         case BuildRoot(_) => BuildReady(log, s, now, work)
         case Upload(_, _, _) =>
           s.checkpoint.generation.Some? && UploadReady(log, s, PendingMetadata(s, b.pending[0]), work)
         case Commit(next) => CommitPossible(log, s, next)
         case Refresh(_, _) => false
  }

  /** Whatever is pending, taken up; or a new attempt. */
  method Resume(store: ObjectStore, journal: Journal, me: Actor, generation: nat, now: Time, work: Work)
    returns (r: PublishResult, ghost at: nat)
    requires SessionOk(store.log, me, journal.State()) && BaseOk(journal.snapshot) && OwnLease(journal.snapshot)
    requires generation == NextNumber(journal.snapshot)
    modifies store, journal
    ensures Kept(store.publishersOnly, old(store.log), store.log, me, old(journal.State()), journal.State(), r, at)
    ensures r.Published? ==> PublishedFrom(old(journal.State()), now, work, r.record.pointer)
    ensures Changed(old(store.log), store.log, me, old(journal.State()), journal.State()) ==>
              Durable(old(journal.State()))
    ensures StrandedNow(old(store.log), old(journal.State())) || old(MirrorPending(journal.State())) ==>
              !r.Published? && journal.State() == old(journal.State())
    ensures store.calm && journal.calm && old(Tidy(journal.State()))
            && AcceptedNow(old(store.log), old(journal.snapshot), now)
            && Takable(old(store.log), old(journal.State()), now, work) ==>
              r.Published? && Committed(journal.State(), r.record, work.refreshed)
  {
    var pending := journal.pending;
    if |pending| == 1 && pending[0].request.Upload? {
      r, at := ResumePendingUpload(store, journal, me, generation, now, work);
      return;
    }
    if |pending| == 1 && pending[0].request.Commit? {
      r, at := ResumePendingPointer(store, journal, me, generation, now, work);
      return;
    }
    r, at := PrepareAndBuild(store, journal, me, generation, now, work);
  }

  /** The session has written to the store or to its journal. */
  ghost predicate Changed(before: Log, after: Log, me: Actor, b: Book, c: Book)
    requires |before| <= |after|
  {
    Mine(after, |before|, me) != [] || c != b
  }

  /** Everything before an upload: the preparation steps that are left, and the build. */
  method PrepareAndBuild(store: ObjectStore, journal: Journal, me: Actor, generation: nat, now: Time, work: Work)
    returns (r: PublishResult, ghost at: nat)
    requires SessionOk(store.log, me, journal.State()) && BaseOk(journal.snapshot) && OwnLease(journal.snapshot)
    requires |journal.pending| == 1 ==> !journal.pending[0].request.Upload? && !journal.pending[0].request.Commit?
    requires generation == NextNumber(journal.snapshot)
    modifies store, journal
    ensures Kept(store.publishersOnly, old(store.log), store.log, me, old(journal.State()), journal.State(), r, at)
    ensures r.Published? ==>
              && Extends(old(journal.snapshot), r.record.pointer)
              && BuiltBy(old(journal.snapshot), now, work, r.record.pointer)
              && Durable(old(journal.State())) && Made(old(journal.State()), work)
    ensures Changed(old(store.log), store.log, me, old(journal.State()), journal.State()) ==>
              Durable(old(journal.State()))
    ensures old(MirrorPending(journal.State())) ==> !r.Published? && journal.State() == old(journal.State())
    ensures store.calm && journal.calm && old(Tidy(journal.State()))
            && AcceptedNow(old(store.log), old(journal.snapshot), now)
            && Takable(old(store.log), old(journal.State()), now, work) ==>
              r.Published? && Committed(journal.State(), r.record, work.refreshed)
  {
    ghost var b := journal.State();
    var ready := ReachBuild(store, journal, me, generation, now, work);
    P.MineNone(store.publishersOnly, old(store.log), store.log, me);
    if !ready { return NotPublished, 0; }
    ghost var mid, c := store.log, journal.State();
    r, at := BuildAndUpload(store, journal, me, generation, now, work);
    KeptFrom(store.publishersOnly, old(store.log), mid, store.log, me, b, c, journal.State(), r, at);
    if r.Published? { BuiltFrom(b.snapshot, c.snapshot, now, work, r.record.pointer); }
  }

  lemma BuiltFrom(s: Snapshot, t: Snapshot, now: Time, work: Work, p: LatestPointer)
    requires t == s.(logicalAttempt := t.logicalAttempt) && Extends(t, p) && BuiltBy(t, now, work, p)
    ensures Extends(s, p) && BuiltBy(s, now, work, p)
  {}

  /** The preparation steps that are left, unless the build is announced already. */
  method ReachBuild(store: ObjectStore, journal: Journal, me: Actor, generation: nat, now: Time, work: Work)
    returns (ready: bool)
    requires SessionOk(store.log, me, journal.State()) && OwnLease(journal.snapshot)
    requires |journal.pending| == 1 ==> !journal.pending[0].request.Upload? && !journal.pending[0].request.Commit?
    requires generation == NextNumber(journal.snapshot)
    modifies store, journal
    ensures Kept(store.publishersOnly, old(store.log), store.log, me, old(journal.State()), journal.State(),
                 NotPublished, 0)
    ensures journal.snapshot == old(journal.snapshot).(logicalAttempt := journal.snapshot.logicalAttempt)
    ensures ready ==> |journal.pending| == 1 && journal.pending[0].request == BuildRoot(generation)
    ensures OthersGrow(store.publishersOnly, old(store.log), store.log, me)
    ensures ready ==> Durable(old(journal.State())) && Made(old(journal.State()), work)
    ensures journal.State() != old(journal.State()) ==> Durable(old(journal.State()))
    ensures old(MirrorPending(journal.State())) ==> !ready && journal.State() == old(journal.State())
    ensures store.calm ==> store.log == old(store.log)
    ensures store.calm && journal.calm && old(Tidy(journal.State()))
            && AcceptedNow(old(store.log), old(journal.snapshot), now)
            && Takable(old(store.log), old(journal.State()), now, work) ==>
              ready && BuildReady(store.log, journal.snapshot, now, work)
  {
    var s, pending := journal.snapshot, journal.pending;
    if |pending| == 1 && !(pending[0].request in {Prepare(2), Prepare(3)}) {
      return pending[0].request == BuildRoot(generation) && pending[0].attempt == s.logicalAttempt != 0;
    }
    if |pending| == 1 && (pending[0].attempt != s.logicalAttempt || s.logicalAttempt == 0) { return false; }
    var first := if |pending| == 0 then 1 else pending[0].request.step;
    ghost var again;
    ready, again := PrepareRegistrySeal(store, journal, me, first, generation, now, work);
    BuildReadyAgain(store.log, s, journal.snapshot, now, work);
  }

  lemma BuildReadyAgain(log: Log, s: Snapshot, t: Snapshot, now: Time, work: Work)
    requires t == s.(logicalAttempt := t.logicalAttempt)
    ensures BuildReady(log, s, now, work) <==> BuildReady(log, t, now, work)
  {
    if work.artifact.Some? { ReadyAgain(log, s, t, ArtifactMetadata(s, work.artifact.value, now), work); }
  }

  // ---------------------------------------------------------------- runs

  /** The session may publish: writable, consistent, with a number left, and its lease accepted. */
  ghost predicate Entitled(log: Log, s: Snapshot, now: Time) {
    && s.readWrite && s.lease.Some? && s.lease.value.rev != 0 && ConsistentSnapshot(s) && NextNumber(s) <= MAX_UINT64
    && AcceptedNow(log, s, now)
  }

  /** The session's own lease was accepted at `checked`, since the call began and before any event of its own. */
  ghost predicate UnderLease(before: Log, after: Log, me: Actor, s: Snapshot, now: Time, checked: nat) {
    && AcceptedAt(before, after, s, now, checked) && s.readWrite && s.lease.value.lease.session == s.session
    && forall i | |before| <= i < checked :: after[i].actor != me
  }

  /** One run of the publisher, from whatever the journal holds. It acts only under its lease. Whatever happens, the
    * session stays accounted for, and what is pending can be taken up again; a reported publication is the next
    * generation on the session's base, live and backed in this run, or the one whose refresh was pending. Pending
    * mirroring and a stranded upload stop it. An undisturbed run publishes whatever can be published. */
  method Publish(store: ObjectStore, journal: Journal, me: Actor, now: Time, work: Work)
    returns (r: PublishResult, ghost at: nat, ghost checked: nat)
    requires SessionOk(store.log, me, journal.State())
    modifies store, journal
    ensures KeptAll(store.publishersOnly, old(store.log), store.log, me, old(journal.State()), journal.State())
    ensures Changed(old(store.log), store.log, me, old(journal.State()), journal.State()) || r.Published? ==>
              && UnderLease(old(store.log), store.log, me, old(journal.snapshot), now, checked)
              && Durable(old(journal.State()))
    ensures Reported(old(store.log), store.log, old(journal.State()), now, work, r, at)
    ensures r.Published? ==> NextNumber(old(journal.snapshot)) <= MAX_UINT64
    ensures StrandedNow(old(store.log), old(journal.State())) || old(MirrorPending(journal.State())) ==>
              !r.Published? && journal.State() == old(journal.State())
    ensures store.calm && journal.calm && old(Durable(journal.State()))
            && Entitled(old(store.log), old(journal.snapshot), now) ==>
              Finishes(old(store.log), old(journal.State()), journal.State(), now, work, r)
  {
    at := 0;
    var generation;
    generation, checked := Admit(store, journal, me, now);
    P.MineNone(store.publishersOnly, old(store.log), store.log, me);
    if generation.None? { return NotPublished, at, checked; }
    ghost var mid, b := store.log, journal.State();
    StrandedStays(old(store.log), mid, b);
    r, at := TakeUp(store, journal, me, generation.value, now, work);
    ChangedFrom(store.publishersOnly, old(store.log), mid, store.log, me, b, journal.State());
    KeptAllFrom(store.publishersOnly, old(store.log), mid, store.log, me, b, journal.State());
    ReportedFrom(old(store.log), mid, store.log, b, now, work, r, at);
    UnderLeaseLater(old(store.log), mid, store.log, me, old(journal.snapshot), now, checked);
  }

  /** Whether the session may publish, and the number of its next generation. */
  method Admit(store: ObjectStore, journal: Journal, me: Actor, now: Time)
    returns (generation: Option<nat>, ghost checked: nat)
    requires SessionOk(store.log, me, journal.State())
    modifies store
    ensures SessionOk(store.log, me, journal.State()) && OthersGrow(store.publishersOnly, old(store.log), store.log, me)
    ensures generation.Some? ==>
              && generation.value == NextNumber(journal.snapshot) <= MAX_UINT64
              && BaseOk(journal.snapshot) && OwnLease(journal.snapshot) && journal.snapshot.session != ""
              && UnderLease(old(store.log), store.log, me, journal.snapshot, now, checked)
    ensures store.calm ==>
              store.log == old(store.log) && (generation.Some? <==> Entitled(store.log, journal.snapshot, now))
  {
    checked := |store.log|;
    var s := journal.snapshot;
    generation := None;
    if !s.readWrite || s.lease.None? || s.lease.value.rev == 0 { return; }
    if !ConsistentSnapshot(s) { return; }
    var next := 1;
    if s.currentBase.Some? {
      if s.currentBase.value.generation >= MAX_UINT64 { return; }
      next := s.currentBase.value.generation + 1;
    }
    var held;
    held, checked := CheckLease(store, journal, me, now);
    if held { generation := Some(next); }
  }

  lemma StrandedStays(before: Log, after: Log, b: Book)
    requires before <= after && Legal(after)
    ensures StrandedNow(before, b) ==> StrandedNow(after, b)
  {
    if StrandedNow(before, b) { StrandedFails(before, after, PendingMetadata(b.snapshot, b.pending[0])); }
  }

  lemma UnderLeaseLater(before: Log, mid: Log, after: Log, me: Actor, s: Snapshot, now: Time, checked: nat)
    requires UnderLease(before, mid, me, s, now, checked) && mid <= after
    ensures UnderLease(before, after, me, s, now, checked)
  {
    assert after[..checked] == mid[..checked];
  }

  /** What a run keeps, whatever happens in it. */
  ghost predicate KeptAll(publishersOnly: bool, before: Log, after: Log, me: Actor, b: Book, c: Book) {
    && SameSession(b.snapshot, c.snapshot) && SessionOk(after, me, c) && Grows(publishersOnly, before, after)
    && (Durable(b) ==> Durable(c))
  }

  lemma KeptAllFrom(publishersOnly: bool, before: Log, mid: Log, after: Log, me: Actor, b: Book, c: Book)
    requires Grows(publishersOnly, before, mid) && KeptAll(publishersOnly, mid, after, me, b, c) && Legal(before)
    ensures KeptAll(publishersOnly, before, after, me, b, c)
  {}

  lemma ReportedFrom(before: Log, mid: Log, after: Log, b: Book, now: Time, work: Work, r: PublishResult, at: nat)
    requires |before| <= |mid| && Reported(mid, after, b, now, work, r, at)
    ensures Reported(before, after, b, now, work, r, at)
  {}

  /** What an undisturbed run comes to: it publishes what can be published, and finishes a pending refresh. */
  ghost predicate Finishes(log: Log, b: Book, c: Book, now: Time, work: Work, r: PublishResult) {
    && (Takable(log, b, now, work) ==> r.Published? && Committed(c, r.record, work.refreshed))
    && (RefreshPending(b) ==> r.Published? && (work.refreshed <==> c.pending == []))
  }

  /** A reported publication is the one whose refresh was pending, or else was live and backed in this run. */
  ghost predicate Reported(before: Log, after: Log, b: Book, now: Time, work: Work, r: PublishResult, at: nat) {
    r.Published? ==>
      if RefreshPending(b) then BaseObject(b.snapshot) == P.ObjectOf(r.record)
      else && LiveAt(before, after, PointerKeyOf(b.snapshot), r, at)
           && PublishedFrom(b, now, work, r.record.pointer)
  }

  lemma ChangedFrom(publishersOnly: bool, before: Log, mid: Log, after: Log, me: Actor, b: Book, c: Book)
    requires OthersGrow(publishersOnly, before, mid, me) && mid <= after
    ensures Changed(before, after, me, b, c) <==> Changed(mid, after, me, b, c)
  {
    P.MineNone(publishersOnly, before, mid, me);
    MineSplit(after, |before|, |mid|, me);
    assert after[..|mid|] == mid;
  }

  predicate RefreshPending(b: Book) { |b.pending| == 1 && b.pending[0].request.Refresh? }

  /** The run proper: a pending refresh, or whatever else is pending, or a new attempt. */
  method TakeUp(store: ObjectStore, journal: Journal, me: Actor, generation: nat, now: Time, work: Work)
    returns (r: PublishResult, ghost at: nat)
    requires SessionOk(store.log, me, journal.State()) && BaseOk(journal.snapshot) && OwnLease(journal.snapshot)
    requires generation == NextNumber(journal.snapshot) && journal.snapshot.session != ""
    modifies store, journal
    ensures KeptAll(store.publishersOnly, old(store.log), store.log, me, old(journal.State()), journal.State())
    ensures Reported(old(store.log), store.log, old(journal.State()), now, work, r, at)
    ensures Changed(old(store.log), store.log, me, old(journal.State()), journal.State()) || r.Published? ==>
              Durable(old(journal.State()))
    ensures StrandedNow(old(store.log), old(journal.State())) || old(MirrorPending(journal.State())) ==>
              !r.Published? && journal.State() == old(journal.State())
    ensures store.calm && journal.calm && old(Durable(journal.State()))
            && AcceptedNow(old(store.log), old(journal.snapshot), now) ==>
              Finishes(old(store.log), old(journal.State()), journal.State(), now, work, r)
  {
    var s, pending := journal.snapshot, journal.pending;
    if |pending| == 1 && pending[0].request.Refresh? {
      var c := s.checkpoint;
      if !c.state.CheckpointPublished? || !c.succeeded || c.generation.None? || s.currentPointer.None? {
        return NotPublished, 0;
      }
      if pending[0].request != Refresh(c.generation.value, c.haulPath) { return NotPublished, 0; }
      RefreshServing(journal, pending[0], work.refreshed, store.log, me);
      return Published(PointerRecord(s.currentPointer.value, s.expectedRev)), 0;
    }
    r, at := Resume(store, journal, me, generation, now, work);
  }

  /** What a session is held to, against the commits its journal announced: each logical attempt moves the pointer at
    * most once, every own write was announced under an attempt and backed when it was made, and numbers increase. */
  ghost predicate Accountable(log: Log, me: Actor, key: Key, commits: seq<Intent>) {
    && (forall i, j, attempt |
          && 0 <= i < |log| && OwnWrite(log[i], me, key) && 0 <= j < |log| && OwnWrite(log[j], me, key)
          && Announces(commits, attempt, log[i].doc.pointer) && Announces(commits, attempt, log[j].doc.pointer) ::
          i == j)
    && (forall i | 0 <= i < |log| && OwnWrite(log[i], me, key) ::
          && BackedBy(log[..i], log[i].doc.pointer)
          && exists attempt :: Announces(commits, attempt, log[i].doc.pointer))
    && (forall i, j | 0 <= i < j < |log| && OwnWrite(log[i], me, key) && OwnWrite(log[j], me, key) ::
          NumberOf(log[i]) < NumberOf(log[j]))
  }

  /** The event at `i` came after an acceptance of the session's own token, at a reading of one of these runs. */
  ghost predicate CoveredAt(log: Log, from: nat, s: Snapshot, runs: seq<(Time, Work)>, i: nat)
    requires i < |log|
  {
    exists k, c :: 0 <= k < |runs| && from <= c <= i && s.lease.Some?
                   && Accepted(log[..c], LeaseKey(s.capsule, s.lineage), s.lease.value, runs[k].0)
  }

  ghost predicate Covered(log: Log, from: nat, me: Actor, s: Snapshot, runs: seq<(Time, Work)>) {
    forall i | from <= i < |log| && log[i].actor == me :: CoveredAt(log, from, s, runs, i)
  }

  lemma CoveredMore(before: Log, log: Log, after: Log, me: Actor, s: Snapshot, runs: seq<(Time, Work)>, k: nat,
                    checked: nat)
    requires before <= log <= after && Covered(log, |before|, me, s, runs) && k < |runs|
    requires Mine(after, |log|, me) != [] ==> UnderLease(log, after, me, s, runs[k].0, checked)
    ensures Covered(after, |before|, me, s, runs)
  {
    forall i | |before| <= i < |after| && after[i].actor == me ensures CoveredAt(after, |before|, s, runs, i) {
      if i < |log| {
        assert CoveredAt(log, |before|, s, runs, i);
        var j, c :| 0 <= j < |runs| && |before| <= c <= i && s.lease.Some?
                    && Accepted(log[..c], LeaseKey(s.capsule, s.lineage), s.lease.value, runs[j].0);
        assert after[..c] == log[..c];
      } else {
        MineHas(after, |log|, me, i);
        assert Accepted(after[..checked], LeaseKey(s.capsule, s.lineage), s.lease.value, runs[k].0);
      }
    }
  }

  /** Any number of runs of the publisher in one session, interrupted and repeated at will: each logical attempt moves
    * the pointer at most once, every own write was announced under an attempt and backed when it was made, whatever
    * others do, and no generation number is written twice. Every event of the session came after an acceptance of its
    * own lease in one of the runs, and what is pending at the end can be taken up. */
  method Session(store: ObjectStore, journal: Journal, me: Actor, runs: seq<(Time, Work)>)
    requires SessionOk(store.log, me, journal.State())
    modifies store, journal
    ensures SameSession(old(journal.snapshot), journal.snapshot)
    ensures SessionOk(store.log, me, journal.State()) && Grows(store.publishersOnly, old(store.log), store.log)
    ensures Accountable(store.log, me, PointerKeyOf(journal.snapshot), journal.commits)
    ensures Covered(store.log, |old(store.log)|, me, old(journal.snapshot), runs)
    ensures old(Durable(journal.State())) ==> Durable(journal.State())
  {
    for k := 0 to |runs|
      invariant SameSession(old(journal.snapshot), journal.snapshot)
      invariant SessionOk(store.log, me, journal.State()) && Grows(store.publishersOnly, old(store.log), store.log)
      invariant Covered(store.log, |old(store.log)|, me, old(journal.snapshot), runs)
      invariant old(Durable(journal.State())) ==> Durable(journal.State())
    {
      ghost var before, s := store.log, journal.snapshot;
      var r, at, checked := Publish(store, journal, me, runs[k].0, runs[k].1);
      SameUnderLease(before, store.log, me, old(journal.snapshot), s, runs[k].0, checked);
      CoveredMore(old(store.log), before, store.log, me, old(journal.snapshot), runs, k, checked);
    }
    SessionSummary(store.log, me, journal.State());
  }

  lemma SameUnderLease(before: Log, after: Log, me: Actor, s: Snapshot, t: Snapshot, now: Time, checked: nat)
    requires SameSession(s, t)
    ensures UnderLease(before, after, me, t, now, checked) ==> UnderLease(before, after, me, s, now, checked)
  {}

  lemma SessionSummary(log: Log, me: Actor, b: Book)
    requires SessionOk(log, me, b)
    ensures Accountable(log, me, PointerKeyOf(b.snapshot), b.commits)
  {
    var key := PointerKeyOf(b.snapshot);
    forall i, j, attempt |
      && 0 <= i < |log| && OwnWrite(log[i], me, key) && 0 <= j < |log| && OwnWrite(log[j], me, key)
      && Announces(b.commits, attempt, log[i].doc.pointer) && Announces(b.commits, attempt, log[j].doc.pointer)
      ensures i == j
    {
      OnceAnAttempt(log, me, b, i, j, attempt);
    }
    forall i | 0 <= i < |log| && OwnWrite(log[i], me, key)
      ensures BackedBy(log[..i], log[i].doc.pointer) &&
              exists attempt :: Announces(b.commits, attempt, log[i].doc.pointer)
    {
      var attempt := EveryWriteAnnounced(log, me, b, i);
    }
    forall i, j | 0 <= i < j < |log| && OwnWrite(log[i], me, key) && OwnWrite(log[j], me, key)
      ensures NumberOf(log[i]) < NumberOf(log[j])
    {
      assert OwnPair(log, me, key, i, j);
    }
  }

  /** An upload whose metadata the missing fallback changed, and mirroring that failed or was cut short, are retried in
    * vain, however often: no run publishes, and the journal never moves. */
  method RetryStranded(store: ObjectStore, journal: Journal, me: Actor, runs: seq<(Time, Work)>)
    returns (published: bool)
    requires SessionOk(store.log, me, journal.State())
    requires StrandedNow(store.log, journal.State()) || MirrorPending(journal.State())
    modifies store, journal
    ensures !published && journal.State() == old(journal.State())
  {
    published := false;
    for k := 0 to |runs|
      invariant SessionOk(store.log, me, journal.State()) && journal.State() == old(journal.State())
      invariant (StrandedNow(store.log, journal.State()) || MirrorPending(journal.State())) && !published
    {
      ghost var before := store.log;
      var r, at, checked := Publish(store, journal, me, runs[k].0, runs[k].1);
      StrandedStays(before, store.log, journal.State());
      published := r.Published?;
    }
  }
}
