/** Opening a session: the lease acquisition it journals, and what a later process makes of a pending one. */
module OpenLease {
  import opened Domain
  import opened History
  import opened ObjectStores
  import opened PointerRuns
  import opened LeaseRuns
  import P = Pointers
  import L = Leases

  /** What the intent of an acquisition records. */
  datatype Input = Input(capsule: string, lineage: Lineage, owner: L.LeaseOwner, observed: Option<PointerRecord>,
                         source: Option<PointerRecord>, branchSource: bool, observedRev: nat, now: Time, ttl: int)

  datatype Source = Undecided | Adopted | Remote(lineage: Lineage, generation: GenerationRef)

  datatype Snapshot = Snapshot(session: string, readWrite: bool, capsule: string, lineage: Lineage, source: Source,
                               openedGeneration: Option<GenerationRef>, currentBase: Option<GenerationRef>,
                               currentPointer: Option<LatestPointer>, expectedRev: nat, lease: Option<LeaseToken>)

  /** The intent for a pointer of the same lineage, for a branch source, or, for a local root, for no pointer. */
  function InputFor(s: Snapshot, machine: string, observed: Option<PointerRecord>, branch: bool, now: Time,
                    ttl: int): Input {
    Input(s.capsule, s.lineage, L.LeaseOwner(s.session, machine), observed, if branch then observed else None, branch,
          if observed.Some? then observed.value.rev else 0, now, ttl)
  }

  function OpenedFrom(input: Input): Option<PointerRecord> {
    if input.branchSource then input.source else input.observed
  }

  function GenerationOf(record: Option<PointerRecord>): Option<GenerationRef> {
    if record.Some? then Some(record.value.pointer.generation) else None
  }

  /** The lease that an acquisition with this input writes. */
  function LeaseFor(input: Input): WriterLease {
    L.NewLease(input.capsule, input.lineage, input.owner, GenerationOf(OpenedFrom(input)), input.now, input.ttl)
  }

  /** The field-by-field comparison of an observed lease with the intent. */
  function ValidateToken(input: Input, token: LeaseToken, observedAt: Time): Option<Option<PointerRecord>> {
    var lease, from := token.lease, OpenedFrom(input);
    if lease.session != input.owner.session || lease.machine != input.owner.machine then None
    else if from.Some? && from.value.rev == 0 then None
    else
      var expiry := L.Expiry(input.now, input.ttl);
      if lease.schema != SCHEMA_VERSION || lease.capsule != input.capsule || lease.lineage != input.lineage
        || lease.openedRef != GenerationOf(from) || lease.createdAt != input.now || lease.heartbeatAt != input.now
        || lease.expiresAt != expiry || token.rev == 0 || observedAt < input.now || !(observedAt < expiry)
      then None
      else Some(from)
  }

  /** A lease is accepted exactly if it is the one the acquisition writes, under a real revision, and unexpired. */
  lemma ValidateTokenIff(input: Input, token: LeaseToken, observedAt: Time)
    requires OpenedFrom(input).Some? ==> OpenedFrom(input).value.rev != 0
    ensures ValidateToken(input, token, observedAt).Some? <==>
            token.lease == LeaseFor(input) && token.rev != 0 && input.now <= observedAt < token.lease.expiresAt
  {}

  /** The snapshot of an uninterrupted open once it holds the lease. */
  function Uninterrupted(s: Snapshot, input: Input, token: LeaseToken): Snapshot {
    var s := s.(lease := Some(token));
    if input.observed.None? then s
    else
      var record := input.observed.value;
      var s := s.(openedGeneration := Some(record.pointer.generation), currentBase := Some(record.pointer.generation));
      if record.pointer.lineage != input.lineage then s
      else s.(currentPointer := Some(record.pointer), expectedRev := record.rev)
  }

  /** All that an open hands on: the lease and its revision, the generation, base, pointer and expected revision. */
  predicate SameOpening(a: Snapshot, b: Snapshot) {
    && a.lease == b.lease && a.openedGeneration == b.openedGeneration && a.currentBase == b.currentBase
    && a.currentPointer == b.currentPointer && a.expectedRev == b.expectedRev
  }

  /** As journaled before the acquisition: nothing opened yet. */
  predicate Fresh(s: Snapshot) {
    s.openedGeneration.None? && s.currentBase.None? && s.currentPointer.None? && s.expectedRev == 0 && s.lease.None?
  }

  datatype Error = StoreFailed | PointerChanged | Inconsistent | LeaseMismatch | NotAcquired(error: L.Error)

  /** The acquisition of an uninterrupted open, between its intent and its fact. */
  method AcquireForOpen(store: ObjectStore, me: Actor, s: Snapshot, machine: string, observed: Option<PointerRecord>,
                        branch: bool, now: Time, ttl: int, patience: nat)
    returns (r: Result<Snapshot, Error>, ghost held: nat, ghost seen: nat, ghost absent: nat)
    requires branch ==> observed.Some?
    modifies store
    ensures var input := InputFor(s, machine, observed, branch, now, ttl);
            && L.TouchedOwnLease(store.publishersOnly, old(store.log), store.log, me, LeaseFor(input), r.Err?)
            && (r.Ok? ==>
                  && Built(s, input) && r.value.lease.Some? && r.value == Uninterrupted(s, input, r.value.lease.value)
                  && r.value.lease.value.lease == LeaseFor(input) && now < r.value.lease.value.lease.expiresAt
                  && |old(store.log)| <= held <= |store.log|
                  && Held(store.log[..held], LeaseKey(s.capsule, s.lineage), r.value.lease.value)
                  && |old(store.log)| <= seen <= |store.log|
                  && (observed.Some? ==>
                        IsLive(store.log[..seen], P.KeyOf(observed.value.pointer), observed.value))
                  && (branch || observed.None? ==> NoPointerAt(old(store.log), store.log, s, absent)))
    ensures store.calm && Legal(old(store.log)) && patience > 0
            && MayAcquire(old(store.log), s, machine, observed, branch, now, ttl) ==>
              && r.Ok? && Held(store.log, LeaseKey(s.capsule, s.lineage), r.value.lease.value)
              && |store.log| == |old(store.log)| + 1
              && store.log[|old(store.log)|].key == LeaseKey(s.capsule, s.lineage)
  {
    if observed.Some? { P.Live(store.log, observed.value); }
    var input := InputFor(s, machine, observed, branch, now, ttl);
    var token;
    ghost var first;
    if branch {
      token, first, held, seen := L.AcquireBranchFrom(store, me, s.capsule, s.lineage, input.owner, observed.value, now,
                                                      ttl, patience);
    } else {
      token, held, seen := L.Acquire(store, me, s.capsule, s.lineage, input.owner, observed, now, ttl, patience);
    }
    absent := seen;
    if token.Err? { return Err(NotAcquired(token.error)), held, seen, absent; }
    LookupWitness(store.log[..held], LeaseKey(s.capsule, s.lineage));
    if ValidateToken(input, token.value, now).None? { return Err(LeaseMismatch), held, seen, absent; }
    return Ok(Uninterrupted(s, input, token.value)), held, if branch then |store.log| else seen, absent;
  }

  /** At the instant `n`, since the call began, the session's lineage had no pointer. */
  predicate NoPointerAt(before: Log, after: Log, s: Snapshot, n: nat) {
    |before| <= n <= |after| && Lookup(after[..n], PointerKey(s.capsule, s.lineage)).None?
  }

  /** A request that a store nobody else touches grants: valid, with no lease in place that has not expired, and the
    * pointers as observed. */
  ghost predicate MayAcquire(log: Log, s: Snapshot, machine: string, observed: Option<PointerRecord>, branch: bool,
                             now: Time, ttl: int)
  {
    var key := PointerKey(s.capsule, s.lineage);
    && ttl > 0 && ValidLease(LeaseFor(InputFor(s, machine, observed, branch, now, ttl)), s.capsule, s.lineage)
    && !L.HeldBeyond(log, LeaseKey(s.capsule, s.lineage), now, |log|)
    && (observed.Some? ==> observed.value.pointer.capsule == s.capsule)
    && (observed.Some? ==> IsLive(log, P.KeyOf(observed.value.pointer), observed.value))
    && (if branch then !s.lineage.IsMain() && observed.Some? && observed.value.pointer.lineage != s.lineage
        else observed.Some? ==> observed.value.pointer.lineage == s.lineage)
    && (branch || observed.None? ==> Lookup(log, key).None?)
  }

  /** What a successful acquisition implies about its own intent. */
  predicate Built(s: Snapshot, input: Input) {
    && input.capsule == s.capsule && input.lineage == s.lineage && input.owner.session == s.session
    && input.owner.machine != "" && input.now != 0 && input.ttl > 0
    && input.observedRev == (if input.observed.Some? then input.observed.value.rev else 0)
    && input.source == (if input.branchSource then input.observed else None)
    && (input.branchSource ==> input.observed.Some?)
    && (input.observed.Some? ==>
          && input.observed.value.pointer.capsule == input.capsule && input.observed.value.rev != 0
          && (input.branchSource <==> input.observed.value.pointer.lineage != input.lineage))
    && (input.branchSource ==> !input.lineage.IsMain())
  }

  /** The store checks that match the input: the branch absent and its source live, or the observed pointer live. */
  method RevalidatePointers(store: ObjectStore, me: Actor, input: Input)
    returns (r: Result<(), Error>, ghost absent: nat)
    requires input.branchSource ==> input.source.Some?
    modifies store
    ensures OthersGrow(store.publishersOnly, old(store.log), store.log, me)
    ensures r.Ok? && OpenedFrom(input).Some? ==>
            IsLive(store.log, P.KeyOf(OpenedFrom(input).value.pointer), OpenedFrom(input).value)
    ensures r.Ok? && input.branchSource ==>
              && |old(store.log)| <= absent <= |store.log|
              && Lookup(store.log[..absent], PointerKey(input.capsule, input.lineage)).None?
    ensures r.Err? ==> r.error == PointerChanged || r.error == StoreFailed
    ensures absent <= |store.log| && (store.calm ==> store.log == old(store.log))
    ensures store.calm && Legal(store.log) && ValidLineage(input.capsule, input.lineage) ==>
              (r.Ok? <==>
                 && (input.branchSource ==> Lookup(store.log, PointerKey(input.capsule, input.lineage)).None?)
                 && (OpenedFrom(input).Some? ==>
                       IsLive(store.log, P.KeyOf(OpenedFrom(input).value.pointer), OpenedFrom(input).value)))
  {
    absent := |store.log|;
    if input.branchSource {
      var branch := P.Read(store, me, input.capsule, input.lineage);
      absent := |store.log|;
      assert store.log[..absent] == store.log;
      if branch.Ok? { return Err(PointerChanged), absent; }
      if branch.error != P.NotFound { return Err(StoreFailed), absent; }
    }
    ghost var mid := store.log;
    var from := OpenedFrom(input);
    if from.Some? {
      var live := P.Revalidate(store, me, from.value);
      assert store.log[..absent] == mid[..absent];
      if live.Err? { return Err(if live.error == P.PointerChanged then PointerChanged else StoreFailed), absent; }
    }
    return Ok(()), absent;
  }

  /** The consistency of an intent read back from the journal. */
  predicate Consistent(s: Snapshot, input: Input) {
    && s.readWrite && input.capsule == s.capsule && input.lineage == s.lineage && input.owner.session == s.session
    && input.owner.machine != "" && input.now != 0 && input.ttl > 0
    && if input.branchSource then
         && !input.lineage.IsMain() && input.source.Some? && input.observed.Some?
         && input.observedRev == input.observed.value.rev && input.source.value.pointer.capsule == input.capsule
         && input.source.value.pointer.lineage != input.lineage && input.observed == input.source
       else if input.observed.Some? then
         && input.source.None? && input.observedRev == input.observed.value.rev
         && input.observed.value.pointer.lineage == input.lineage
       else
         input.source.None? && input.observedRev == 0 && s.source == Adopted
  }

  /** What is recorded of the session itself: its identity as it was, its own lease, and where it opened from. */
  predicate Decided(s: Snapshot, input: Input, opening: Snapshot) {
    && opening.session == s.session && opening.capsule == s.capsule && opening.lineage == s.lineage
    && opening.readWrite && s.readWrite && opening.lease.Some?
    && opening.lease.value.lease.session == s.session
    && L.KeyOf(opening.lease.value.lease) == LeaseKey(s.capsule, s.lineage)
    && match OpenedFrom(input)
       case None => opening.source == s.source
       case Some(record) =>
         && opening.source == Remote(record.pointer.lineage, record.pointer.generation)
         && (input.branchSource <==> record.pointer.lineage != s.lineage)
         && (input.branchSource ==> !s.lineage.IsMain())
         && opening.openedGeneration == opening.currentBase == Some(record.pointer.generation)
         && opening.currentPointer == (if input.branchSource then None else Some(record.pointer))
         && opening.expectedRev == (if input.branchSource then 0 else record.rev)
  }

  /** What reconciliation accepts: the lease that the acquisition writes, unexpired, with the pointers unmoved. */
  ghost predicate Acceptable(log: Log, s: Snapshot, input: Input, now: Time) {
    && Consistent(s, input) && L.Stands(log, LeaseFor(input)) && input.now <= now < LeaseFor(input).expiresAt
    && (input.branchSource ==> Lookup(log, PointerKey(input.capsule, input.lineage)).None?)
    && (OpenedFrom(input).Some? ==>
          IsLive(log, P.KeyOf(OpenedFrom(input).value.pointer), OpenedFrom(input).value))
  }

  /** Reconciles a pending acquisition without writing, whatever point it was interrupted at: it accepts only the very
    * lease that the acquisition writes, while its pointer is still the one it was acquired for (at `seen`), and then
    * yields what the uninterrupted open would have. */
  method Observe(store: ObjectStore, me: Actor, s: Snapshot, input: Input, now: Time)
    returns (r: Result<Snapshot, Error>, ghost seen: nat, ghost absent: nat)
    modifies store
    ensures OthersGrow(store.publishersOnly, old(store.log), store.log, me)
    ensures r.Ok? ==> Consistent(s, input) && Decided(s, input, r.value)
    ensures r.Ok? && input.branchSource ==> NoPointerAt(old(store.log), store.log, s, absent)
    ensures store.calm ==> store.log == old(store.log)
    ensures store.calm && Legal(store.log) && Acceptable(store.log, s, input, now) ==> r.Ok?
    ensures r.Ok? ==>
              && Held(store.log, LeaseKey(input.capsule, input.lineage), r.value.lease.value)
              && Ours(input, r.value.lease.value.lease, now)
    ensures r.Ok? ==> |old(store.log)| <= seen <= |store.log|
    ensures r.Ok? && OpenedFrom(input).Some? ==>
              IsLive(store.log[..seen], P.KeyOf(OpenedFrom(input).value.pointer), OpenedFrom(input).value)
    ensures r.Ok? && Fresh(s) ==> SameOpening(r.value, Uninterrupted(s, input, r.value.lease.value))
    ensures r == Err(Inconsistent) ==> !Consistent(s, input) || now == 0
    ensures r == Err(LeaseMismatch) ==> now != 0
    ensures r == Err(LeaseMismatch) && (OpenedFrom(input).Some? ==> OpenedFrom(input).value.rev != 0) ==>
              forall token :: Held(store.log, LeaseKey(input.capsule, input.lineage), token) ==>
                !Ours(input, token.lease, now)
  {
    seen, absent := |store.log|, |store.log|;
    if !Consistent(s, input) { return Err(Inconsistent), seen, absent; }
    if Legal(store.log) && L.Stands(store.log, LeaseFor(input)) {
      LookupTyped(store.log, L.KeyOf(LeaseFor(input)));
    }
    if OpenedFrom(input).Some? { P.Live(store.log, OpenedFrom(input).value); }
    var pointers;
    pointers, absent := RevalidatePointers(store, me, input);
    seen := |store.log|;
    ghost var mid := store.log;
    if pointers.Err? { return Err(pointers.error), seen, absent; }
    if now == 0 { return Err(Inconsistent), seen, absent; }
    var token := FindLease(store, me, input, now);
    assert store.log[..seen] == mid && store.log[..absent] == mid[..absent];
    if token.Err? { return Err(token.error), seen, absent; }
    var next := Adopt(s, input, token.value);
    return Ok(next), seen, absent;
  }

  /** The stored lease, if it is the very one that the acquisition writes and has not expired. */
  method FindLease(store: ObjectStore, me: Actor, input: Input, now: Time) returns (r: Result<LeaseToken, Error>)
    modifies store
    ensures OthersGrow(store.publishersOnly, old(store.log), store.log, me)
    ensures r.Ok? ==> Held(store.log, LeaseKey(input.capsule, input.lineage), r.value)
    ensures r.Ok? ==> Ours(input, r.value.lease, now)
    ensures r.Err? ==> r.error == StoreFailed || r.error == LeaseMismatch
    ensures r == Err(LeaseMismatch) && (OpenedFrom(input).Some? ==> OpenedFrom(input).value.rev != 0) ==>
              forall token :: Held(store.log, LeaseKey(input.capsule, input.lineage), token) ==>
                !Ours(input, token.lease, now)
    ensures store.calm ==> store.log == old(store.log)
    ensures && store.calm && Legal(store.log) && L.Stands(store.log, LeaseFor(input))
            && Ours(input, LeaseFor(input), now)
            && (OpenedFrom(input).Some? ==> OpenedFrom(input).value.rev != 0) ==>
              r.Ok?
  {
    if Legal(store.log) && L.Stands(store.log, LeaseFor(input)) {
      LookupTyped(store.log, L.KeyOf(LeaseFor(input)));
    }
    var token := L.Read(store, me, input.capsule, input.lineage);
    if token.Err? { return Err(StoreFailed); }
    LookupWitness(store.log, LeaseKey(input.capsule, input.lineage));
    if ValidateToken(input, token.value, now).None? { return Err(LeaseMismatch); }
    return Ok(token.value);
  }

  predicate Ours(input: Input, lease: WriterLease, now: Time) {
    lease == LeaseFor(input) && input.now <= now < lease.expiresAt
  }

  /** The snapshot with an accepted lease and what it was opened from. */
  method Adopt(s: Snapshot, input: Input, token: LeaseToken) returns (next: Snapshot)
    requires Consistent(s, input) && token.lease == LeaseFor(input)
    ensures next.lease == Some(token) && Decided(s, input, next)
    ensures Fresh(s) ==> SameOpening(next, Uninterrupted(s, input, token))
  {
    next := s.(lease := Some(token));
    var from := OpenedFrom(input);
    if from.Some? {
      var record := from.value;
      var generation := record.pointer.generation;
      next := next.(openedGeneration := Some(generation), currentBase := Some(generation),
                    source := Remote(record.pointer.lineage, generation));
      if record.pointer.lineage == input.lineage {
        next := next.(currentPointer := Some(record.pointer), expectedRev := record.rev);
      } else {
        next := next.(currentPointer := None, expectedRev := 0);
      }
    }
  }

  /** An intent that a successful acquisition wrote is never found inconsistent. */
  lemma BuiltIsConsistent(s: Snapshot, input: Input)
    requires Built(s, input) && s.readWrite && (input.observed.None? ==> s.source == Adopted)
    ensures Consistent(s, input)
  {}

  /** A lease seen at two instants has one revision exactly if nothing touched its key between them. */
  lemma SameRevisionIff(log: Log, key: Key, i: nat, first: LeaseToken, last: LeaseToken)
    requires i <= |log| && Held(log[..i], key, first) && Held(log, key, last)
    ensures first.rev == last.rev <==> forall k | i <= k < |log| :: log[k].key != key
    ensures first.rev == last.rev ==> first == last
  {
    LookupWitness(log[..i], key);
    LookupWitness(log, key);
    if first.rev == last.rev {
      assert log[..i][first.rev - 1] == log[last.rev - 1];
    } else if forall k | i <= k < |log| :: log[k].key != key {
      forall k | first.rev <= k < |log| ensures log[k].key != key {
        if k < i { assert log[..i][k] == log[k]; }
      }
      LookupLast(log, key, first.rev);
    }
  }

  /** No one but the session itself writes its lease. */
  predicate SessionQuiet(log: Log, from: nat, session: string)
    requires from <= |log|
  {
    forall k | from <= k < |log| :: log[k].Put? && log[k].doc.LeaseDoc? ==> log[k].doc.lease.session != session
  }

  /** Between two sightings of a session's lease in which no one wrote a lease for that session, nothing did. */
  lemma QuietKeepsLease(log: Log, key: Key, i: nat, first: LeaseToken, last: LeaseToken)
    requires i <= |log| && Held(log[..i], key, first) && Held(log, key, last) &&
             SessionQuiet(log, i, last.lease.session)
    ensures first == last
  {
    LookupWitness(log[..i], key);
    LookupWitness(log, key);
    assert last.rev <= i;
    assert log[..i][last.rev - 1] == log[last.rev - 1];
    forall k | last.rev <= k < i ensures log[..i][k].key != key { assert log[k].key != key; }
    LookupLast(log[..i], key, last.rev);
  }

  lemma PointersBeside(before: Log, after: Log, lease: Key, key: Key)
    requires before <= after && |after| == |before| + 1 && after[|before|].key == lease && lease != key
    ensures Lookup(after, key) == Lookup(before, key)
  {
    assert after == before + [after[|before|]];
    LookupAppend(before, after[|before|], key);
  }

  /** What an undisturbed acquisition leaves is what reconciliation accepts. */
  lemma AcquiredIsAcceptable(before: Log, mid: Log, s: Snapshot, machine: string, observed: Option<PointerRecord>,
                             branch: bool, now: Time, ttl: int, later: Time)
    requires before <= mid && |mid| == |before| + 1 && mid[|before|].key == LeaseKey(s.capsule, s.lineage)
    requires MayAcquire(before, s, machine, observed, branch, now, ttl) && now <= later < now + ttl
    requires var input := InputFor(s, machine, observed, branch, now, ttl);
             Built(s, input) && L.Stands(mid, LeaseFor(input))
    requires s.readWrite && (observed.None? ==> s.source == Adopted)
    ensures Acceptable(mid, s, InputFor(s, machine, observed, branch, now, ttl), later)
  {
    PointersBeside(before, mid, LeaseKey(s.capsule, s.lineage), PointerKey(s.capsule, s.lineage));
    if observed.Some? {
      PointersBeside(before, mid, LeaseKey(s.capsule, s.lineage), P.KeyOf(observed.value.pointer));
    }
    BuiltIsConsistent(s, InputFor(s, machine, observed, branch, now, ttl));
  }

  /** The opening and its reconciliation record the same, but for the revision of the lease, which is the same exactly
    * if nothing touched the lease in between, as when no one else writes this session's lease. */
  ghost predicate Agree(log: Log, held: nat, s: Snapshot, first: Snapshot, second: Snapshot)
    requires held <= |log|
  {
    && first.lease.Some? && second.lease.Some? && second.lease.value.lease == first.lease.value.lease
    && SameOpening(second, first.(lease := second.lease))
    && (SameOpening(first, second) <==>
          forall k | held <= k < |log| :: log[k].key != LeaseKey(s.capsule, s.lineage))
    && (SessionQuiet(log, held, s.session) ==> SameOpening(first, second))
  }

  lemma OpeningsAgree(log: Log, held: nat, s: Snapshot, input: Input, first: Snapshot, second: Snapshot)
    requires first.lease.Some? && second.lease.Some? && held <= |log|
    requires input.capsule == s.capsule && input.lineage == s.lineage && input.owner.session == s.session
    requires first.lease.value.lease == LeaseFor(input) == second.lease.value.lease
    requires SameOpening(first, Uninterrupted(s, input, first.lease.value))
    requires SameOpening(second, Uninterrupted(s, input, second.lease.value))
    requires Held(log[..held], LeaseKey(s.capsule, s.lineage), first.lease.value)
    requires Held(log, LeaseKey(s.capsule, s.lineage), second.lease.value)
    ensures Agree(log, held, s, first, second)
  {
    SameRevisionIff(log, LeaseKey(s.capsule, s.lineage), held, first.lease.value, second.lease.value);
    if SessionQuiet(log, held, s.session) {
      QuietKeepsLease(log, LeaseKey(s.capsule, s.lineage), held, first.lease.value, second.lease.value);
    }
  }

  /** An open that is interrupted, any activity of others, and a reconciliation, which writes nothing. Wherever the
    * acquisition stopped, between its lease write and its pointer check included, a successful reconciliation yields
    * what an uninterrupted open records for the lease in place, with the pointer seen live after the interruption. If
    * the acquisition had succeeded, it yields that open's lease, opened generation, base, pointer and expected
    * revision, and the same lease revision exactly if nothing touched the lease in between. */
  method InterruptAndReconcile(store: ObjectStore, me: Actor, s: Snapshot, machine: string,
                               observed: Option<PointerRecord>,
                               branch: bool, now: Time, ttl: int, patience: nat, later: Time)
    returns (first: Result<Snapshot, Error>, second: Result<Snapshot, Error>, ghost held: nat, ghost mid: Log,
             ghost seen: nat, ghost absent: nat)
    requires Fresh(s) && s.readWrite && (branch ==> observed.Some?) && (observed.None? ==> s.source == Adopted)
    modifies store
    ensures L.TouchedOwnLease(store.publishersOnly, old(store.log), mid, me,
                              LeaseFor(InputFor(s, machine, observed, branch, now, ttl)), first.Err?)
    ensures mid <= store.log && OthersGrow(store.publishersOnly, mid, store.log, me) && held <= |store.log|
    ensures first.Ok? ==> second != Err(Inconsistent) || later == 0
    ensures second.Ok? ==>
              var input := InputFor(s, machine, observed, branch, now, ttl);
              && second.value.lease.Some? && second.value.lease.value.lease == LeaseFor(input)
              && SameOpening(second.value, Uninterrupted(s, input, second.value.lease.value))
              && |mid| <= seen <= |store.log|
              && (observed.Some? ==> IsLive(store.log[..seen], P.KeyOf(observed.value.pointer), observed.value))
    ensures second.Ok? && branch ==> NoPointerAt(mid, store.log, s, absent)
    ensures store.calm && Legal(old(store.log)) && patience > 0 && now <= later < now + ttl
            && MayAcquire(old(store.log), s, machine, observed, branch, now, ttl) ==>
              && first.Ok? && second.Ok? && SameOpening(first.value, second.value)
              && Held(store.log, LeaseKey(s.capsule, s.lineage), second.value.lease.value)
              && |store.log| == |old(store.log)| + 1
              && store.log[|old(store.log)|].key == LeaseKey(s.capsule, s.lineage)
    ensures first.Ok? && second.Ok? ==> Agree(store.log, held, s, first.value, second.value)
  {
    first, held, seen, absent := AcquireForOpen(store, me, s, machine, observed, branch, now, ttl, patience);
    mid := store.log;
    if first.Err? { held := |mid|; }
    var input := InputFor(s, machine, observed, branch, now, ttl);
    if first.Ok? && |mid| == |old(store.log)| + 1 && mid[|old(store.log)|].key == LeaseKey(s.capsule, s.lineage)
      && MayAcquire(old(store.log), s, machine, observed, branch, now, ttl) && now <= later < now + ttl
      && Held(mid, LeaseKey(s.capsule, s.lineage), first.value.lease.value)
    {
      AcquiredIsAcceptable(old(store.log), mid, s, machine, observed, branch, now, ttl, later);
    }
    second, seen, absent := Observe(store, me, s, input, later);
    if first.Ok? {
      BuiltIsConsistent(s, input);
      if second.Ok? {
        assert store.log[..held] == mid[..held];
        OpeningsAgree(store.log, held, s, input, first.value, second.value);
      }
    }
  }
}
