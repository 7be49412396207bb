/** A writable session from its opening to its last checkpoint: what opening leaves is what publishing needs. */
module Sessions {
  import opened Domain
  import opened History
  import opened ObjectStores
  import opened PointerRuns
  import opened LeaseRuns
  import Leases
  import OpenLease
  import Publisher

  /** The journal's snapshot once `opening` is on record for the session `s`. */
  function Handed(s: OpenLease.Snapshot, opening: OpenLease.Snapshot, tools: ToolVersions): Publisher.Snapshot {
    Publisher.Snapshot(s.session, s.capsule, s.lineage, s.readWrite, tools, opening.openedGeneration,
                       opening.currentBase, opening.currentPointer, opening.expectedRev, opening.lease, 0,
                       Publisher.Checkpoint(Publisher.NoCheckpoint, None, "", None, false))
  }

  predicate Newcomer(log: Log, me: Actor) { forall i | 0 <= i < |log| :: log[i].actor != me }

  predicate WroteNoPointer(log: Log, me: Actor, i: nat)
    requires i < |log|
  {
    log[i].actor == me ==> !log[i].key.PointerKey?
  }

  /** Acquiring a lease writes no pointer. */
  lemma OnlyLeases(publishersOnly: bool, before: Log, after: Log, later: Log, me: Actor, lease: WriterLease,
                   mayDelete: bool, i: nat)
    requires Newcomer(before, me) && Leases.TouchedOwnLease(publishersOnly, before, after, me, lease, mayDelete)
    requires OthersGrow(publishersOnly, after, later, me) && i < |later|
    ensures WroteNoPointer(later, me, i)
  {
    if later[i].actor == me {
      assert before <= later && after <= later;
      Publisher.MineHas(after, |before|, me, i);
    }
  }

  /** Such a log, and a base that was live at some instant, make a session that is accounted for. */
  lemma OpenedIsAccounted(log: Log, me: Actor, s: OpenLease.Snapshot, opening: OpenLease.Snapshot, tools: ToolVersions,
                          seen: nat)
    requires Legal(log) && seen <= |log| && forall i | 0 <= i < |log| :: WroteNoPointer(log, me, i)
    requires if opening.currentPointer.None? then opening.expectedRev == 0
             else IsLive(log[..seen], PointerKey(s.capsule, s.lineage),
                         PointerRecord(opening.currentPointer.value, opening.expectedRev))
    ensures Publisher.SessionOk(log, me, Publisher.Book(Handed(s, opening, tools), [], []))
  {
    var key := PointerKey(s.capsule, s.lineage);
    if opening.currentPointer.Some? { LookupWitness(log[..seen], key); }
    forall i | 0 <= i < |log| ensures !Publisher.OwnWrite(log[i], me, key) { assert WroteNoPointer(log, me, i); }
  }

  /** What an opening needs: a session that has written nothing and opened nothing yet, and a pointer, if one was
    * observed, of its capsule. */
  predicate MayOpen(log: Log, me: Actor, s: OpenLease.Snapshot, observed: Option<PointerRecord>, branch: bool) {
    && Legal(log) && Newcomer(log, me) && OpenLease.Fresh(s) && s.readWrite && (branch ==> observed.Some?)
    && if observed.None? then s.source == OpenLease.Adopted else observed.value.pointer.capsule == s.capsule
  }

  lemma OthersBeside(before: Log, after: Log, lease: Key)
    requires before <= after && |after| == |before| + 1 && after[|before|].key == lease && lease.LeaseKey?
    ensures forall key: Key :: !key.LeaseKey? ==> Lookup(after, key) == Lookup(before, key)
  {
    forall key: Key | !key.LeaseKey? ensures Lookup(after, key) == Lookup(before, key) {
      OpenLease.PointersBeside(before, after, lease, key);
    }
  }

  /** The session holds its lease, and its snapshot is consistent. */
  ghost predicate Armed(log: Log, s: Publisher.Snapshot, now: Time) {
    && s.lease.Some? && s.lease.value.rev != 0 && Publisher.ConsistentSnapshot(s)
    && Publisher.AcceptedNow(log, s, now)
  }

  lemma OpenedIsArmed(log: Log, s: OpenLease.Snapshot, opening: OpenLease.Snapshot, machine: string,
                      observed: Option<PointerRecord>, branch: bool, now: Time, ttl: int, later: Time,
                      tools: ToolVersions)
    requires OpenLease.Fresh(s) && Legal(log) && ttl > 0 && now <= later < now + ttl
    requires observed.Some? ==>
               observed.value.rev != 0 && observed.value.pointer.capsule == s.capsule
    requires observed.Some? && !branch ==> observed.value.pointer.lineage == s.lineage
    requires observed.Some? && branch ==> observed.value.pointer.lineage != s.lineage && !s.lineage.IsMain()
    requires branch ==> observed.Some?
    requires opening.lease.Some? && Held(log, LeaseKey(s.capsule, s.lineage), opening.lease.value)
    requires var input := OpenLease.InputFor(s, machine, observed, branch, now, ttl);
             && opening.lease.value.lease == OpenLease.LeaseFor(input)
             && OpenLease.SameOpening(opening, OpenLease.Uninterrupted(s, input, opening.lease.value))
    ensures Armed(log, Handed(s, opening, tools), later)
  {
    assert log[..|log|] == log;
    LookupTyped(log, LeaseKey(s.capsule, s.lineage));
    LookupWitness(log, LeaseKey(s.capsule, s.lineage));
  }

  /** Opens a session; an interrupted acquisition is reconciled. */
  method Open(store: ObjectStore, me: Actor, s: OpenLease.Snapshot, machine: string, observed: Option<PointerRecord>,
              branch: bool, now: Time, ttl: int, patience: nat, interrupted: bool, later: Time, tools: ToolVersions)
    returns (r: Result<Publisher.Snapshot, OpenLease.Error>)
    requires MayOpen(store.log, me, s, observed, branch)
    modifies store
    ensures Grows(store.publishersOnly, old(store.log), store.log)
    ensures forall i | 0 <= i < |store.log| :: WroteNoPointer(store.log, me, i)
    ensures r.Ok? ==> Publisher.SessionOk(store.log, me, Publisher.Book(r.value, [], []))
    ensures r.Ok? ==> Publisher.PointerKeyOf(r.value) == PointerKey(s.capsule, s.lineage) && r.value.lease.Some?
    ensures r.Ok? ==> Publisher.OwnLease(r.value) && r.value.session == s.session
    ensures store.calm && patience > 0 && now <= later < now + ttl
            && OpenLease.MayAcquire(old(store.log), s, machine, observed, branch, now, ttl) ==>
              && r.Ok? && Base(r.value, observed, s.lineage, tools) && Armed(store.log, r.value, later)
              && forall key: Key :: !key.LeaseKey? ==> Lookup(store.log, key) == Lookup(old(store.log), key)
  {
    var opening, seen := TakeLease(store, me, s, machine, observed, branch, now, ttl, patience, interrupted, later);
    if opening.Err? { return Err(opening.error); }
    if store.calm && patience > 0 && now <= later < now + ttl
      && OpenLease.MayAcquire(old(store.log), s, machine, observed, branch, now, ttl)
    {
      OthersBeside(old(store.log), store.log, LeaseKey(s.capsule, s.lineage));
      if observed.Some? { OpenLease.P.Live(old(store.log), observed.value); }
      OpenedIsArmed(store.log, s, opening.value, machine, observed, branch, now, ttl, later, tools);
    }
    OpenedIsAccounted(store.log, me, s, opening.value, tools, seen);
    return Ok(Handed(s, opening.value, tools));
  }

  /** The opening's lease, acquired or found again. */
  method TakeLease(store: ObjectStore, me: Actor, s: OpenLease.Snapshot, machine: string,
                   observed: Option<PointerRecord>, branch: bool, now: Time, ttl: int, patience: nat,
                   interrupted: bool, later: Time)
    returns (r: Result<OpenLease.Snapshot, OpenLease.Error>, ghost seen: nat)
    requires MayOpen(store.log, me, s, observed, branch)
    modifies store
    ensures Grows(store.publishersOnly, old(store.log), store.log)
    ensures forall i | 0 <= i < |store.log| :: WroteNoPointer(store.log, me, i)
    ensures r.Ok? ==>
              var input := OpenLease.InputFor(s, machine, observed, branch, now, ttl);
              && r.value.lease.Some? && r.value.lease.value.lease == OpenLease.LeaseFor(input)
              && OpenLease.SameOpening(r.value, OpenLease.Uninterrupted(s, input, r.value.lease.value))
              && seen <= |store.log|
              && (observed.Some? ==>
                    IsLive(store.log[..seen], OpenLease.P.KeyOf(observed.value.pointer), observed.value))
    ensures store.calm && patience > 0 && now <= later < now + ttl
            && OpenLease.MayAcquire(old(store.log), s, machine, observed, branch, now, ttl) ==>
              && r.Ok? && Held(store.log, LeaseKey(s.capsule, s.lineage), r.value.lease.value)
              && |store.log| == |old(store.log)| + 1
              && store.log[|old(store.log)|].key == LeaseKey(s.capsule, s.lineage)
  {
    var first;
    ghost var held, mid, absent;
    ghost var lease := OpenLease.LeaseFor(OpenLease.InputFor(s, machine, observed, branch, now, ttl));
    if interrupted {
      first, r, held, mid, seen, absent :=
        OpenLease.InterruptAndReconcile(store, me, s, machine, observed, branch, now, ttl, patience, later);
    } else {
      first, held, seen, absent :=
        OpenLease.AcquireForOpen(store, me, s, machine, observed, branch, now, ttl, patience);
      r, mid := first, store.log;
    }
    forall i | 0 <= i < |store.log| ensures WroteNoPointer(store.log, me, i) {
      OnlyLeases(store.publishersOnly, old(store.log), mid, store.log, me, lease, first.Err?, i);
    }
  }

  /** Every pointer the session ever wrote came after its own lease was accepted at the clock of one of these runs. */
  ghost predicate WritesCovered(log: Log, me: Actor, key: Key, s: Publisher.Snapshot,
                                runs: seq<(Time, Publisher.Work)>)
  {
    forall i | 0 <= i < |log| && Publisher.OwnWrite(log[i], me, key) :: Publisher.CoveredAt(log, 0, s, runs, i)
  }

  lemma CoveredFromOpening(mid: Log, log: Log, me: Actor, key: Key, s: Publisher.Snapshot, t: Publisher.Snapshot,
                           runs: seq<(Time, Publisher.Work)>)
    requires mid <= log && key.PointerKey? && Publisher.SameSession(s, t)
    requires forall i | 0 <= i < |mid| :: WroteNoPointer(mid, me, i)
    requires Publisher.Covered(log, |mid|, me, s, runs)
    ensures WritesCovered(log, me, key, t, runs)
  {
    forall i | 0 <= i < |log| && Publisher.OwnWrite(log[i], me, key) ensures Publisher.CoveredAt(log, 0, t, runs, i) {
      assert i < |mid| ==> WroteNoPointer(mid, me, i);
      assert Publisher.CoveredAt(log, |mid|, s, runs, i);
      var k, c :| 0 <= k < |runs| && |mid| <= c <= i && s.lease.Some?
                  && Accepted(log[..c], LeaseKey(s.capsule, s.lineage), s.lease.value, runs[k].0);
    }
  }

  /** Opens a session and runs the publisher in it any number of times, interrupted and repeated at will: each attempt
    * moves the pointer at most once, every pointer the session ever writes was announced by it, backed when it was
    * written and written after its own lease was accepted, and its generation numbers increase. */
  method OpenAndPublish(store: ObjectStore, me: Actor, s: OpenLease.Snapshot, machine: string,
                        observed: Option<PointerRecord>, branch: bool, now: Time, ttl: int, patience: nat,
                        interrupted: bool, later: Time, tools: ToolVersions, runs: seq<(Time, Publisher.Work)>)
    returns (r: Result<Publisher.Journal, OpenLease.Error>)
    requires MayOpen(store.log, me, s, observed, branch)
    modifies store
    ensures Grows(store.publishersOnly, old(store.log), store.log)
    ensures r.Err? ==> forall i | 0 <= i < |store.log| :: WroteNoPointer(store.log, me, i)
    ensures r.Ok? ==>
              && fresh(r.value)
              && Publisher.Accountable(store.log, me, PointerKey(s.capsule, s.lineage), r.value.commits)
              && Publisher.Durable(r.value.State())
              && WritesCovered(store.log, me, PointerKey(s.capsule, s.lineage), r.value.snapshot, runs)
  {
    var opening := Open(store, me, s, machine, observed, branch, now, ttl, patience, interrupted, later, tools);
    if opening.Err? { return Err(opening.error); }
    var journal := new Publisher.Journal(opening.value, false);
    ghost var mid, t := store.log, journal.snapshot;
    Publisher.Session(store, journal, me, runs);
    CoveredFromOpening(mid, store.log, me, PointerKey(s.capsule, s.lineage), t, journal.snapshot, runs);
    return Ok(journal);
  }

  /** The base that an opening hands on: the observed generation, and its pointer if it is of the same lineage. */
  predicate Base(s: Publisher.Snapshot, observed: Option<PointerRecord>, lineage: Lineage, tools: ToolVersions) {
    && s.tools == tools && s.readWrite && s.logicalAttempt == 0
    && match observed
       case None => s.currentBase.None? && s.currentPointer.None?
       case Some(record) =>
         && s.currentBase == Some(record.pointer.generation)
         && if record.pointer.lineage == lineage
            then s.currentPointer == Some(record.pointer) && s.expectedRev == record.rev
            else s.currentPointer.None?
  }

  /** The whole way, undisturbed: a session opened on a pointer, on the branch source of another lineage, or on nothing,
    * publishes its first checkpoint as a child of what it opened, whenever the pipeline builds a valid generation. */
  method FirstCheckpoint(store: ObjectStore, me: Actor, s: OpenLease.Snapshot, machine: string,
                         observed: Option<PointerRecord>, branch: bool, now: Time, ttl: int, interrupted: bool,
                         later: Time, tools: ToolVersions, work: Publisher.Work)
    returns (r: Publisher.PublishResult, ghost at: nat)
    requires store.calm && MayOpen(store.log, me, s, observed, branch) && now <= later < now + ttl
    requires OpenLease.MayAcquire(store.log, s, machine, observed, branch, now, ttl)
    requires Publisher.AllPrepared(work, 1) && work.artifact.Some? && work.artifact.value.path != ""
    requires Uploadable(store.log, s, observed, work)
    modifies store
    ensures r.Published?
    ensures var p := r.record.pointer;
            && at <= |store.log| && IsLive(store.log[..at], PointerKey(s.capsule, s.lineage), r.record)
            && BackedBy(store.log[..at], p) && p.parent == OpenLease.GenerationOf(observed) && p.session == s.session
            && p.generation == NextRef(observed, work.artifact.value.sha)
            && p.size == work.artifact.value.size && p.createdAt == later
  {
    var snapshot := Open(store, me, s, machine, observed, branch, now, ttl, 1, interrupted, later, tools);
    var journal := new Publisher.Journal(snapshot.value, true);
    Ready(store.log, old(store.log), s, snapshot.value, observed, branch, later, tools, work);
    ghost var checked;
    r, at, checked := Publisher.Publish(store, journal, me, later, work);
  }

  function NextRef(observed: Option<PointerRecord>, sha: string): GenerationRef {
    GenerationRef(if observed.Some? then observed.value.pointer.generation.generation + 1 else 1, sha)
  }

  /** The artifact is a valid next generation, and nothing is stored in its place. */
  predicate Uploadable(log: Log, s: OpenLease.Snapshot, observed: Option<PointerRecord>, work: Publisher.Work)
    requires work.artifact.Some?
  {
    var a, ref := work.artifact.value, NextRef(observed, work.artifact.value.sha);
    && (s.lineage.IsMain() || observed.Some?) && a.size >= 0 && ValidRef(ref) && ref.generation <= Publisher.MAX_UINT64
    && work.source == ArchiveDoc(a.size, a.sha)
    && Lookup(log, ArchiveKey(s.capsule, ref)).None? && Lookup(log, SidecarKey(s.capsule, s.lineage, ref)).None?
  }

  lemma Ready(log: Log, before: Log, s: OpenLease.Snapshot, t: Publisher.Snapshot, observed: Option<PointerRecord>,
              branch: bool, now: Time, tools: ToolVersions, work: Publisher.Work)
    requires Legal(before) && work.artifact.Some? && work.artifact.value.path != ""
    requires Uploadable(before, s, observed, work)
    requires forall key: Key :: !key.LeaseKey? ==> Lookup(log, key) == Lookup(before, key)
    requires Armed(log, t, now) && Base(t, observed, s.lineage, tools) && ValidLineage(s.capsule, s.lineage)
    requires t.session == s.session && t.capsule == s.capsule && t.lineage == s.lineage
    requires observed.Some? ==> observed.value.pointer.capsule == s.capsule
    requires observed.Some? ==> IsLive(before, OpenLease.P.KeyOf(observed.value.pointer), observed.value)
    requires branch || observed.None? ==> Lookup(before, PointerKey(s.capsule, s.lineage)).None?
    requires branch || observed.None? || observed.value.pointer.lineage == s.lineage
    ensures Publisher.Entitled(log, t, now) && Publisher.BuildReady(log, t, now, work)
  {
    if observed.Some? { OpenLease.P.Live(before, observed.value); }
  }
}
