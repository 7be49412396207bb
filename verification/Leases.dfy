/** The writer lease of a lineage: acquisition with its retry loop, renewal, release and validation. */
module Leases {
  import opened Domain
  import opened History
  import opened ObjectStores
  import opened PointerRuns
  import opened LeaseRuns
  import P = Pointers

  type Error = P.Error

  datatype LeaseOwner = LeaseOwner(session: string, machine: string)

  function KeyOf(l: WriterLease): Key { LeaseKey(l.capsule, l.lineage) }

  function Expiry(now: Time, ttl: int): Time { if ttl > 0 then now + ttl else now }

  function Renewed(lease: WriterLease, now: Time, ttl: int): WriterLease {
    lease.(heartbeatAt := now, expiresAt := Expiry(now, ttl))
  }

  /** What one operation on the lease `lease` may have done: written it once, and deleted a revision that
    * holds exactly this document, in that order. Deleting is open only with `mayDelete`. */
  predicate TouchedOwnLease(publishersOnly: bool, before: Log, after: Log, me: Actor, lease: WriterLease,
                            mayDelete: bool)
  {
    && Grows(publishersOnly, before, after)
    && var mine := Mine(after, |before|, me);
       var put := Put(me, KeyOf(lease), LeaseDoc(lease));
       || mine == [] || mine == [put]
       || (&& mayDelete && 1 <= |mine| <= 2 && (|mine| == 2 ==> mine[0] == put)
           && var last := mine[|mine| - 1];
              && last.Del? && last.key == KeyOf(lease) && 1 <= last.rev <= |after|
              && after[last.rev - 1].Put? && after[last.rev - 1].key == KeyOf(lease) &&
                  after[last.rev - 1].doc == LeaseDoc(lease))
  }

  lemma PutEffect(publishersOnly: bool, before: Log, pre: Log, after: Log, me: Actor, lease: WriterLease)
    requires OthersGrow(publishersOnly, before, pre, me)
    requires var e := Put(me, KeyOf(lease), LeaseDoc(lease));
             after == pre || (after == pre + [e] && (Legal(pre) ==> Step(pre, e)))
    ensures TouchedOwnLease(publishersOnly, before, after, me, lease, false)
    ensures after == pre ==> Mine(after, |before|, me) == []
  {
    var e := Put(me, KeyOf(lease), LeaseDoc(lease));
    P.MineNone(publishersOnly, before, pre, me);
    if after != pre {
      P.MineOne(publishersOnly, before, pre, me, e);
      if Legal(before) { LegalExtend(pre, e); }
      if publishersOnly && Backed(before) { BackedExtend(pre, e); }
    }
  }

  lemma EffectKept(publishersOnly: bool, before: Log, after: Log, later: Log, me: Actor, lease: WriterLease,
                   mayDelete: bool)
    requires TouchedOwnLease(publishersOnly, before, after, me, lease, mayDelete)
    requires OthersGrow(publishersOnly, after, later, me)
    ensures TouchedOwnLease(publishersOnly, before, later, me, lease, mayDelete)
  {
    MineOthers(after, later, |before|, me);
  }

  lemma EffectFrom(publishersOnly: bool, before: Log, checked: Log, after: Log, me: Actor, lease: WriterLease,
                   mayDelete: bool)
    requires OthersGrow(publishersOnly, before, checked, me)
    requires TouchedOwnLease(publishersOnly, checked, after, me, lease, mayDelete)
    ensures TouchedOwnLease(publishersOnly, before, after, me, lease, mayDelete)
  {
    MineSplit(after, |before|, |checked|, me);
    assert after[..|checked|] == checked;
    P.MineNone(publishersOnly, before, checked, me);
  }

  method Read(store: ObjectStore, me: Actor, capsule: string, lineage: Lineage) returns (r: Result<LeaseToken, Error>)
    modifies store
    ensures OthersGrow(store.publishersOnly, old(store.log), store.log, me)
    ensures r.Ok? ==>
            Held(store.log, LeaseKey(capsule, lineage), r.value) && ValidLease(r.value.lease, capsule, lineage)
    ensures r == Err(P.NotFound) ==> Lookup(store.log, LeaseKey(capsule, lineage)).None?
    ensures r.Err? ==> r.error in {P.NotFound, P.InvalidDocument, P.Failed}
    ensures !ValidLineage(capsule, lineage) ==> r == Err(P.InvalidDocument)
    ensures store.quiet || store.calm ==> store.log == old(store.log)
    ensures (store.quiet || store.calm) && Legal(store.log) && ValidLineage(capsule, lineage) ==>
              if Lookup(store.log, LeaseKey(capsule, lineage)).Some? then r.Ok? else r == Err(P.NotFound)
  {
    if !ValidLineage(capsule, lineage) { return Err(P.InvalidDocument); }
    var got := store.Get(me, LeaseKey(capsule, lineage));
    if Legal(store.log) && Lookup(store.log, LeaseKey(capsule, lineage)).Some? {
      LookupTyped(store.log, LeaseKey(capsule, lineage));
    }
    match got {
      case GetNotFound => return Err(P.NotFound);
      case GetFailed => return Err(P.Failed);
      case Found(o, _) =>
        if !(o.doc.LeaseDoc? && ValidLease(o.doc.lease, capsule, lineage)) { return Err(P.InvalidDocument); }
        return Ok(LeaseToken(o.doc.lease, o.rev));
    }
  }

  /** Accepts a token only while it names the stored lease and that lease has not expired. */
  method Revalidate(store: ObjectStore, me: Actor, token: LeaseToken, now: Time) returns (r: Result<(), Error>)
    modifies store
    ensures OthersGrow(store.publishersOnly, old(store.log), store.log, me)
    ensures r.Ok? ==> Accepted(store.log, KeyOf(token.lease), token, now)
    ensures r == Err(P.LeaseLost) ==> !Accepted(store.log, KeyOf(token.lease), token, now)
    ensures store.calm ==> store.log == old(store.log)
    ensures store.calm && Legal(store.log) ==> (r.Ok? <==> Accepted(store.log, KeyOf(token.lease), token, now))
    ensures && store.calm && Legal(store.log) && ValidLineage(token.lease.capsule, token.lease.lineage)
            && now != 0 && token.lease.heartbeatAt <= now && !Accepted(store.log, KeyOf(token.lease), token, now) ==>
              r == Err(P.LeaseLost)
  {
    HeldIsValid(store.log, token);
    if now == 0 || now < token.lease.heartbeatAt { return Err(P.InvalidDocument); }
    var current := Read(store, me, token.lease.capsule, token.lease.lineage);
    if current == Err(P.NotFound) { return Err(P.LeaseLost); }
    if current.Err? { return Err(current.error); }
    if current.value != token || !(now < current.value.lease.expiresAt) { return Err(P.LeaseLost); }
    return Ok(());
  }

  /** A held lease is valid, under a real revision. */
  lemma HeldIsValid(log: Log, token: LeaseToken)
    ensures Legal(log) && Held(log, KeyOf(token.lease), token) ==>
              ValidLease(token.lease, token.lease.capsule, token.lease.lineage) && token.rev != 0
  {
    if Legal(log) && Held(log, KeyOf(token.lease), token) {
      LookupTyped(log, KeyOf(token.lease));
      LookupWitness(log, KeyOf(token.lease));
    }
  }

  /** The stored lease is exactly this one. */
  predicate Stands(log: Log, lease: WriterLease) {
    Lookup(log, KeyOf(lease)).Some? && Lookup(log, KeyOf(lease)).value.doc == LeaseDoc(lease)
  }

  method Reconcile(store: ObjectStore, me: Actor, expected: WriterLease) returns (r: Option<LeaseToken>)
    modifies store
    ensures OthersGrow(store.publishersOnly, old(store.log), store.log, me)
    ensures r.Some? ==> Held(store.log, KeyOf(expected), r.value) && r.value.lease == expected
    ensures store.quiet ==> store.log == old(store.log)
    ensures store.quiet && Legal(store.log) && ValidLineage(expected.capsule, expected.lineage) ==>
              (r.Some? <==> Stands(store.log, expected))
  {
    var current := Read(store, me, expected.capsule, expected.lineage);
    if current.Ok? && current.value.lease == expected { return Some(current.value); }
    return None;
  }

  /** A put whose condition held is a legal step: the revision it names is the lease that was read. */
  lemma MayPut(read: Log, pre: Log, me: Actor, lease: WriterLease, over: Option<LeaseToken>)
    requires ValidLease(lease, lease.capsule, lease.lineage) && read <= pre
    requires MayReplace(read, lease, over) && Holds(pre, KeyOf(lease), ConditionOf(over))
    ensures Step(pre, Put(me, KeyOf(lease), LeaseDoc(lease)))
  {
    if over.Some? { SameRevisionSameObject(read, pre, KeyOf(lease)); }
  }

  lemma PutStands(pre: Log, after: Log, me: Actor, lease: WriterLease)
    ensures after == pre + [Put(me, KeyOf(lease), LeaseDoc(lease))] ==> Stands(after, lease)
  {
    LookupAppend(pre, Put(me, KeyOf(lease), LeaseDoc(lease)), KeyOf(lease));
  }

  /** What a lease may be put over: none, one that had expired, or the one it renews. */
  predicate MayReplace(log: Log, lease: WriterLease, over: Option<LeaseToken>) {
    over.Some? ==>
      && Held(log, KeyOf(lease), over.value)
      && (Renews(over.value.lease, lease) || over.value.lease.expiresAt <= lease.createdAt)
  }

  function ConditionOf(over: Option<LeaseToken>): Condition {
    if over.None? then MustBeAbsent else MatchRevision(over.value.rev)
  }

  /** One conditional put of a lease. */
  method PutOnce(store: ObjectStore, me: Actor, lease: WriterLease, over: Option<LeaseToken>, ghost before: Log)
    returns (put: PutResult)
    requires ValidLease(lease, lease.capsule, lease.lineage) && MayReplace(store.log, lease, over)
    requires OthersGrow(store.publishersOnly, before, store.log, me)
    modifies store
    ensures old(store.log) <= store.log && TouchedOwnLease(store.publishersOnly, before, store.log, me, lease, false)
    ensures put.PutConflict? ==>
              && OthersGrow(store.publishersOnly, before, store.log, me)
              && !Holds(store.log, KeyOf(lease), ConditionOf(over))
    ensures put.Stored? ==> Held(store.log, KeyOf(lease), LeaseToken(lease, put.rev))
    ensures put.PutFailed? ==> Mine(store.log, |before|, me) == []
    ensures store.quiet && Mine(store.log, |before|, me) != [] ==> Stands(store.log, lease)
    ensures store.calm ==>
              if Holds(old(store.log), KeyOf(lease), ConditionOf(over))
              then put.Stored? && store.log == old(store.log) + [Put(me, KeyOf(lease), LeaseDoc(lease))]
              else put.PutConflict? && store.log == old(store.log)
  {
    ghost var pre;
    put, pre := store.PutConditional(me, KeyOf(lease), LeaseDoc(lease), ConditionOf(over));
    if store.log != pre { MayPut(old(store.log), pre, me, lease, over); }
    PutEffect(store.publishersOnly, before, pre, store.log, me, lease);
    PutStands(pre, store.log, me, lease);
  }

  /** An ambiguous put is settled by a look at the stored lease. */
  method SettlePut(store: ObjectStore, me: Actor, lease: WriterLease, ghost before: Log)
    returns (r: Result<LeaseToken, Error>)
    requires TouchedOwnLease(store.publishersOnly, before, store.log, me, lease, false)
    modifies store
    ensures TouchedOwnLease(store.publishersOnly, before, store.log, me, lease, false) && old(store.log) <= store.log
    ensures r.Err? ==> r.error == P.Ambiguous
    ensures store.quiet && Legal(before) && ValidLineage(lease.capsule, lease.lineage) ==>
              store.log == old(store.log) && (r.Ok? <==> Stands(store.log, lease))
    ensures r.Ok? ==> r.value.lease == lease && Held(store.log, KeyOf(lease), r.value)
  {
    var reconciled := Reconcile(store, me, lease);
    EffectKept(store.publishersOnly, before, old(store.log), store.log, me, lease, false);
    return if reconciled.Some? then Ok(reconciled.value) else Err(P.Ambiguous);
  }

  /** One conditional put of a lease, over no lease, over an expired one, or over the one it renews, with the
    * ambiguous case reconciled. No outcome means that the condition failed. */
  method TryPut(store: ObjectStore, me: Actor, lease: WriterLease, over: Option<LeaseToken>, ghost before: Log)
    returns (outcome: Option<Result<LeaseToken, Error>>)
    requires ValidLease(lease, lease.capsule, lease.lineage) && MayReplace(store.log, lease, over)
    requires OthersGrow(store.publishersOnly, before, store.log, me)
    modifies store
    ensures old(store.log) <= store.log
    ensures outcome.None? ==>
              && OthersGrow(store.publishersOnly, before, store.log, me)
              && !Holds(store.log, KeyOf(lease), ConditionOf(over))
    ensures outcome.Some? ==> TouchedOwnLease(store.publishersOnly, before, store.log, me, lease, false)
    ensures outcome.Some? && outcome.value.Err? ==> outcome.value.error in {P.Failed, P.Ambiguous}
    ensures outcome.Some? && outcome.value.Ok? ==>
            outcome.value.value.lease == lease && Held(store.log, KeyOf(lease), outcome.value.value)
    ensures store.quiet && Legal(before) && Mine(store.log, |before|, me) != [] ==>
              outcome.Some? && outcome.value.Ok?
    ensures store.calm ==>
              if Holds(old(store.log), KeyOf(lease), ConditionOf(over))
              then && outcome.Some? && outcome.value.Ok?
                   && store.log == old(store.log) + [Put(me, KeyOf(lease), LeaseDoc(lease))]
              else outcome.None? && store.log == old(store.log)
  {
    var put := PutOnce(store, me, lease, over, before);
    match put {
      case Stored(rev) => return Some(Ok(LeaseToken(lease, rev)));
      case PutConflict =>
        P.MineNone(store.publishersOnly, before, store.log, me);
        return None;
      case PutFailed => return Some(Err(P.Failed));
      case PutAmbiguous =>
        var settled := SettlePut(store, me, lease, before);
        return Some(settled);
    }
  }

  /** Renews exactly the lease the token names, or changes nothing of anyone else's. */
  method Renew(store: ObjectStore, me: Actor, token: LeaseToken, now: Time, ttl: int)
    returns (r: Result<LeaseToken, Error>)
    modifies store
    ensures TouchedOwnLease(store.publishersOnly, old(store.log), store.log, me, Renewed(token.lease, now, ttl), false)
    ensures r.Ok? ==> Renews(token.lease, r.value.lease) && r.value.lease == Renewed(token.lease, now, ttl)
    ensures r.Ok? ==> Held(store.log, KeyOf(token.lease), r.value)
    ensures r.Ok? ==> r.value.lease.heartbeatAt == now && r.value.lease.expiresAt == now + ttl && ttl > 0
    ensures r == Err(P.LeaseLost) ==>
              Mine(store.log, |old(store.log)|, me) == [] && !Held(store.log, KeyOf(token.lease), token)
    ensures store.calm && Legal(old(store.log)) ==>
              (r.Ok? <==> && now != 0 && ttl > 0 && token.lease.heartbeatAt <= now
                          && Held(old(store.log), KeyOf(token.lease), token))
    ensures && store.calm && Legal(old(store.log)) && now != 0 && ttl > 0 && token.lease.heartbeatAt <= now
            && ValidLineage(token.lease.capsule, token.lease.lineage)
            && !Held(old(store.log), KeyOf(token.lease), token) ==>
              r == Err(P.LeaseLost)
  {
    HeldIsValid(store.log, token);
    var renewed := Renewed(token.lease, now, ttl);
    PutEffect(store.publishersOnly, store.log, store.log, store.log, me, renewed);
    if now == 0 || ttl <= 0 || now < token.lease.heartbeatAt { return Err(P.InvalidDocument); }
    var current := Read(store, me, token.lease.capsule, token.lease.lineage);
    PutEffect(store.publishersOnly, old(store.log), store.log, store.log, me, renewed);
    if current == Err(P.NotFound) { return Err(P.LeaseLost); }
    if current.Err? { return Err(current.error); }
    if current.value != token { return Err(P.LeaseLost); }
    var outcome := TryPut(store, me, renewed, Some(token), old(store.log));
    if outcome.None? {
      PutEffect(store.publishersOnly, old(store.log), store.log, store.log, me, renewed);
      return Err(P.LeaseLost);
    }
    return outcome.value;
  }

  /** The operation deleted nothing, or exactly the revision `rev` of `key`. */
  predicate DeletedAtMost(publishersOnly: bool, before: Log, after: Log, me: Actor, key: Key, rev: nat) {
    && Grows(publishersOnly, before, after)
    && var mine := Mine(after, |before|, me);
       mine == [] || mine == [Del(me, key, rev)]
  }

  lemma DeleteEffect(publishersOnly: bool, before: Log, pre: Log, after: Log, me: Actor, key: Key, rev: nat)
    requires key.LeaseKey? && OthersGrow(publishersOnly, before, pre, me)
    requires after == pre || (after == pre + [Del(me, key, rev)] && Holds(pre, key, MatchRevision(rev)))
    ensures DeletedAtMost(publishersOnly, before, after, me, key, rev)
    ensures after == pre ==> Mine(after, |before|, me) == []
    ensures after != pre ==> 1 <= rev <= |pre| && pre[rev - 1].Put? && pre[rev - 1].key == key
                             && Lookup(pre, key) == Some(Object(pre[rev - 1].doc, rev))
  {
    P.MineNone(publishersOnly, before, pre, me);
    if after != pre {
      P.MineOne(publishersOnly, before, pre, me, Del(me, key, rev));
      if Legal(before) { LegalExtend(pre, Del(me, key, rev)); }
      if publishersOnly && Backed(before) { BackedExtend(pre, Del(me, key, rev)); }
      LookupWitness(pre, key);
    }
  }

  method DeleteRevision(store: ObjectStore, me: Actor, token: LeaseToken, ghost before: Log)
    returns (r: Result<(), Error>)
    requires OthersGrow(store.publishersOnly, before, store.log, me)
    modifies store
    ensures DeletedAtMost(store.publishersOnly, before, store.log, me, KeyOf(token.lease), token.rev)
    ensures r.Ok? ==> !Held(store.log, KeyOf(token.lease), token)
    ensures r == Err(P.LeaseLost) ==>
              Mine(store.log, |before|, me) == [] && !Held(store.log, KeyOf(token.lease), token)
    ensures store.quiet && r == Err(P.Ambiguous) ==> Mine(store.log, |before|, me) == []
    ensures store.calm && Held(old(store.log), KeyOf(token.lease), token) ==>
              r.Ok? && Lookup(store.log, KeyOf(token.lease)).None?
  {
    var key := KeyOf(token.lease);
    var deleted, pre := store.DeleteConditional(me, key, token.rev);
    DeleteEffect(store.publishersOnly, before, pre, store.log, me, key, token.rev);
    match deleted {
      case Deleted =>
        LookupAppend(pre, Del(me, key, token.rev), key);
        return Ok(());
      case DeleteConflict => return Err(P.LeaseLost);
      case DeleteNotFound => return Err(P.LeaseLost);
      case DeleteFailed => return Err(P.Failed);
      case DeleteAmbiguous =>
        ghost var landed := store.log;
        var head := store.Get(me, key);
        MineOthers(landed, store.log, |before|, me);
        if landed != pre { LookupAppend(pre, Del(me, key, token.rev), key); }
        if head.GetNotFound? { return Ok(()); }
        return Err(P.Ambiguous);
    }
  }

  /** Deletes only the revision the token names. Success means that revision is gone. */
  method Release(store: ObjectStore, me: Actor, token: LeaseToken) returns (r: Result<(), Error>)
    modifies store
    ensures DeletedAtMost(store.publishersOnly, old(store.log), store.log, me, KeyOf(token.lease), token.rev)
    ensures r.Ok? ==> !Held(store.log, KeyOf(token.lease), token)
    ensures r == Err(P.LeaseLost) ==>
              Mine(store.log, |old(store.log)|, me) == [] && !Held(store.log, KeyOf(token.lease), token)
    ensures store.quiet && r == Err(P.Ambiguous) ==> Mine(store.log, |old(store.log)|, me) == []
    ensures store.calm && Legal(old(store.log)) ==> (r.Ok? <==> Held(old(store.log), KeyOf(token.lease), token))
    ensures store.calm && Legal(old(store.log)) && r.Ok? ==> Lookup(store.log, KeyOf(token.lease)).None?
    ensures && store.calm && Legal(old(store.log)) && ValidLineage(token.lease.capsule, token.lease.lineage)
            && !Held(old(store.log), KeyOf(token.lease), token) ==>
              r == Err(P.LeaseLost)
  {
    HeldIsValid(store.log, token);
    var key := KeyOf(token.lease);
    var current := Read(store, me, token.lease.capsule, token.lease.lineage);
    DeleteEffect(store.publishersOnly, old(store.log), store.log, store.log, me, key, token.rev);
    if current == Err(P.NotFound) { return Err(P.LeaseLost); }
    if current.Err? { return Err(current.error); }
    if current.value != token { return Err(P.LeaseLost); }
    r := DeleteRevision(store, me, token, old(store.log));
  }

  // ---------------------------------------------------------------- acquisition

  /** The pointer the caller opened from: a live record, or none at all. */
  predicate Observed(log: Log, capsule: string, lineage: Lineage, observed: Option<PointerRecord>) {
    match observed
    case None => Lookup(log, PointerKey(capsule, lineage)).None?
    case Some(record) => IsLive(log, PointerKey(capsule, lineage), record)
  }

  /** An acquired token: its lease was in the store at `held`, and later, at `seen`, the pointer was as
    * observed. */
  predicate Acquired(before: Log, after: Log, token: LeaseToken, observed: Option<PointerRecord>, held: nat,
                     seen: nat) {
    && |before| <= held <= seen <= |after|
    && Held(after[..held], KeyOf(token.lease), token)
    && Observed(after[..seen], token.lease.capsule, token.lease.lineage, observed)
  }

  function NewLease(capsule: string, lineage: Lineage, owner: LeaseOwner, openedFrom: Option<GenerationRef>, now: Time,
                    ttl: int): WriterLease {
    WriterLease(SCHEMA_VERSION, capsule, lineage, owner.session, owner.machine, openedFrom, now, now, Expiry(now, ttl))
  }

  /** The lease that an acquisition writes, field by field. */
  predicate Granted(lease: WriterLease, capsule: string, lineage: Lineage, owner: LeaseOwner,
                    openedFrom: Option<GenerationRef>, now: Time, ttl: int)
  {
    && ttl > 0 && lease.createdAt == lease.heartbeatAt == now && lease.expiresAt == now + ttl
    && lease.capsule == capsule && lease.lineage == lineage && lease.openedRef == openedFrom
    && lease.session == owner.session && lease.machine == owner.machine
    && lease == NewLease(capsule, lineage, owner, openedFrom, now, ttl)
  }

  /** Undoes an acquisition by deleting the token's own revision and nothing else. */
  method ReleaseAcquired(store: ObjectStore, me: Actor, token: LeaseToken) returns (r: Result<(), Error>)
    modifies store
    ensures DeletedAtMost(store.publishersOnly, old(store.log), store.log, me, KeyOf(token.lease), token.rev)
    ensures r.Ok? ==> Mine(store.log, |old(store.log)|, me) != []
    ensures store.calm && Held(old(store.log), KeyOf(token.lease), token) ==>
              Lookup(store.log, KeyOf(token.lease)).None?
  {
    var deleted, pre := store.DeleteConditional(me, KeyOf(token.lease), token.rev);
    DeleteEffect(store.publishersOnly, old(store.log), pre, store.log, me, KeyOf(token.lease), token.rev);
    if store.log != pre { LookupAppend(pre, Del(me, KeyOf(token.lease), token.rev), KeyOf(token.lease)); }
    match deleted {
      case Deleted => return Ok(());
      case DeleteConflict => return Err(P.LeaseLost);
      case DeleteNotFound => return Err(P.LeaseLost);
      case DeleteAmbiguous => return Err(P.Ambiguous);
      case DeleteFailed => return Err(P.Failed);
    }
  }

  lemma DeleteOwn(publishersOnly: bool, before: Log, after: Log, later: Log, me: Actor, token: LeaseToken)
    requires TouchedOwnLease(publishersOnly, before, after, me, token.lease, false)
    requires DeletedAtMost(publishersOnly, after, later, me, KeyOf(token.lease), token.rev)
    requires 1 <= token.rev <= |after| && after[token.rev - 1].Put? && after[token.rev - 1].key == KeyOf(token.lease)
    requires after[token.rev - 1].doc == LeaseDoc(token.lease)
    ensures TouchedOwnLease(publishersOnly, before, later, me, token.lease, true)
  {
    MineSplit(later, |before|, |after|, me);
    assert later[..|after|] == after;
  }

  /** Checks the pointer after the lease is in place; a pointer that moved costs the new lease. */
  method FinishAcquire(store: ObjectStore, me: Actor, token: LeaseToken, observed: Option<PointerRecord>,
                       ghost before: Log)
    returns (r: Result<LeaseToken, Error>, ghost seen: nat)
    requires observed.Some? ==> P.KeyOf(observed.value.pointer) == PointerKey(token.lease.capsule, token.lease.lineage)
    requires TouchedOwnLease(store.publishersOnly, before, store.log, me, token.lease, false)
    requires Held(store.log, KeyOf(token.lease), token)
    modifies store
    ensures TouchedOwnLease(store.publishersOnly, before, store.log, me, token.lease, r.Err?)
    ensures r.Ok? ==> r.value == token && Acquired(before, store.log, token, observed, |old(store.log)|, seen)
    ensures r.Err? ==> r.error == P.PointerChanged
    ensures store.calm && Legal(old(store.log)) ==>
              (r.Ok? <==> Observed(old(store.log), token.lease.capsule, token.lease.lineage, observed))
    ensures store.calm && r.Ok? ==> store.log == old(store.log)
    ensures store.calm && r.Err? ==> Lookup(store.log, KeyOf(token.lease)).None?
  {
    HeldIsValid(store.log, token);
    var ok: bool;
    LookupWitness(store.log, KeyOf(token.lease));
    match observed {
      case None =>
        var read := P.Read(store, me, token.lease.capsule, token.lease.lineage);
        ok := read == Err(P.NotFound);
      case Some(record) =>
        var live := P.Revalidate(store, me, record);
        ok := live.Ok?;
    }
    seen := |store.log|;
    ghost var mid := store.log;
    EffectKept(store.publishersOnly, before, old(store.log), mid, me, token.lease, false);
    assert store.log[..seen] == store.log && store.log[..|old(store.log)|] == old(store.log);
    if ok { return Ok(token), seen; }
    var _ := ReleaseAcquired(store, me, token);
    DeleteOwn(store.publishersOnly, before, mid, store.log, me, token);
    return Err(P.PointerChanged), seen;
  }

  predicate GoodRequest(owner: LeaseOwner, now: Time, ttl: int) {
    owner.session != "" && owner.machine != "" && now != 0 && ttl > 0
  }

  /** At the instant `n` some lease was in place ... */
  predicate Occupied(log: Log, key: Key, n: nat) { n <= |log| && Lookup(log[..n], key).Some? }

  /** ... and had not expired by `now`. */
  predicate HeldBeyond(log: Log, key: Key, now: Time, n: nat) {
    && Occupied(log, key, n)
    && var doc := Lookup(log[..n], key).value.doc; doc.LeaseDoc? && now < doc.lease.expiresAt
  }

  /** One round: the lease is put over none, or over one that had expired by `now`. It is refused only because a lease
    * that had not expired was in place, and tried again only because some lease was, at the instant `blocked`. */
  method AcquireRound(store: ObjectStore, me: Actor, lease: WriterLease, now: Time, ghost before: Log)
    returns (outcome: Option<Result<LeaseToken, Error>>, ghost blocked: nat)
    requires ValidLease(lease, lease.capsule, lease.lineage) && lease.createdAt == now
    requires OthersGrow(store.publishersOnly, before, store.log, me)
    modifies store
    ensures old(store.log) <= store.log
    ensures outcome.None? ==> OthersGrow(store.publishersOnly, before, store.log, me)
    ensures outcome.None? ==> Occupied(store.log, KeyOf(lease), blocked) && |old(store.log)| <= blocked
    ensures outcome == Some(Err(P.LeaseHeld)) ==> HeldBeyond(store.log, KeyOf(lease), now, blocked)
    ensures outcome == Some(Err(P.LeaseHeld)) ==> |old(store.log)| <= blocked
    ensures outcome.Some? && outcome.value.Err? ==> outcome.value.error !in {P.Cancelled, P.NotFound}
    ensures store.calm && Legal(old(store.log)) ==>
              if HeldBeyond(old(store.log), KeyOf(lease), now, |old(store.log)|)
              then outcome == Some(Err(P.LeaseHeld)) && store.log == old(store.log)
              else && outcome.Some? && outcome.value.Ok?
                   && store.log == old(store.log) + [Put(me, KeyOf(lease), LeaseDoc(lease))]
    ensures outcome.Some? ==> TouchedOwnLease(store.publishersOnly, before, store.log, me, lease, false)
    ensures outcome.Some? && outcome.value.Ok? ==>
            outcome.value.value.lease == lease && Held(store.log, KeyOf(lease), outcome.value.value)
  {
    outcome := TryPut(store, me, lease, None, before);
    blocked := |store.log|;
    assert store.log[..|store.log|] == store.log && old(store.log)[..|old(store.log)|] == old(store.log);
    if outcome.Some? { return; }
    ghost var tried := store.log;
    var current := Read(store, me, lease.capsule, lease.lineage);
    assert store.log[..blocked] == tried;
    if current == Err(P.NotFound) { return None, blocked; }
    PutEffect(store.publishersOnly, before, store.log, store.log, me, lease);
    if current.Err? { return Some(Err(current.error)), blocked; }
    assert store.log[..|store.log|] == store.log;
    if now < current.value.lease.expiresAt { return Some(Err(P.LeaseHeld)), |store.log|; }
    outcome := TryPut(store, me, lease, Some(current.value), before);
    assert store.log[..blocked] == tried;
  }

  /** A lease that had not expired by `now` was in place at some instant of the call. */
  ghost predicate RefusedFor(before: Log, after: Log, key: Key, now: Time) {
    exists n :: |before| <= n && HeldBeyond(after, key, now, n)
  }

  /** A lease was in place in each round. */
  ghost predicate BlockedAt(before: Log, after: Log, key: Key, blocked: seq<nat>) {
    forall k :: 0 <= k < |blocked| ==> |before| <= blocked[k] && Occupied(after, key, blocked[k])
  }

  /** A refusal has its reason: a lease that had not expired, or one in place in every round that was made. */
  ghost predicate Excused(before: Log, after: Log, key: Key, now: Time, rounds: nat, r: Result<LeaseToken, Error>) {
    && (r == Err(P.LeaseHeld) ==> RefusedFor(before, after, key, now))
    && (r == Err(P.Cancelled) ==> exists blocked :: |blocked| == rounds && BlockedAt(before, after, key, blocked))
  }

  lemma ExcusedFrom(before: Log, mid: Log, after: Log, key: Key, now: Time, rounds: nat, r: Result<LeaseToken, Error>)
    requires before <= mid <= after && Excused(mid, after, key, now, rounds, r)
    ensures Excused(before, after, key, now, rounds, r)
  {
    if r == Err(P.LeaseHeld) {
      var n :| |mid| <= n && HeldBeyond(after, key, now, n);
    } else if r == Err(P.Cancelled) {
      var blocked :| |blocked| == rounds && BlockedAt(mid, after, key, blocked);
      assert BlockedAt(before, after, key, blocked);
    }
  }

  lemma BlockedMore(before: Log, mid: Log, after: Log, key: Key, blocked: seq<nat>, n: nat)
    requires BlockedAt(before, mid, key, blocked) && before <= mid <= after && |before| <= n && Occupied(after, key, n)
    ensures BlockedAt(before, after, key, blocked + [n])
  {
    forall k | 0 <= k < |blocked| ensures Occupied(after, key, blocked[k]) {
      assert Occupied(mid, key, blocked[k]) && after[..blocked[k]] == mid[..blocked[k]];
    }
  }

  /** What a store that nobody else touches answers to a valid request: the lease is acquired exactly if none is in
    * place that has not expired and the pointer is as observed; and otherwise no new lease stays behind. */
  ghost predicate Answered(before: Log, after: Log, key: Key, capsule: string, lineage: Lineage,
                           observed: Option<PointerRecord>, now: Time, r: Result<LeaseToken, Error>)
  {
    if HeldBeyond(before, key, now, |before|) then r == Err(P.LeaseHeld) && after == before
    else if Observed(before, capsule, lineage, observed)
    then && r.Ok? && Held(after, key, r.value)
         && |after| == |before| + 1 && before <= after && after[|before|].key == key
    else r == Err(P.PointerChanged) && Lookup(after, key).None?
  }

  /** Writing a lease moves no pointer. */
  lemma ObservedBeside(log: Log, me: Actor, lease: WriterLease, observed: Option<PointerRecord>)
    ensures Observed(log + [Put(me, KeyOf(lease), LeaseDoc(lease))], lease.capsule, lease.lineage, observed)
            <==> Observed(log, lease.capsule, lease.lineage, observed)
  {
    LookupAppend(log, Put(me, KeyOf(lease), LeaseDoc(lease)), PointerKey(lease.capsule, lease.lineage));
  }

  /** The retry loop. `patience` bounds the rounds the caller's context allows. Every lease it overwrites
    * had expired by `now`, whatever happened between its read and its write. */
  method AcquireLoop(store: ObjectStore, me: Actor, capsule: string, lineage: Lineage, owner: LeaseOwner,
                     observed: Option<PointerRecord>, openedFrom: Option<GenerationRef>, now: Time, ttl: int,
                     patience: nat)
    returns (r: Result<LeaseToken, Error>, ghost held: nat, ghost seen: nat)
    requires observed.Some? ==> P.KeyOf(observed.value.pointer) == PointerKey(capsule, lineage)
    modifies store
    ensures TouchedOwnLease(store.publishersOnly, old(store.log), store.log, me,
                            NewLease(capsule, lineage, owner, openedFrom, now, ttl), r.Err?)
    ensures r.Ok? ==>
            now < r.value.lease.expiresAt && r.value.lease == NewLease(capsule, lineage, owner, openedFrom, now, ttl)
    ensures r.Ok? ==> GoodRequest(owner, now, ttl) && Acquired(old(store.log), store.log, r.value, observed, held, seen)
    ensures Excused(old(store.log), store.log, LeaseKey(capsule, lineage), now, patience, r)
    ensures var lease := NewLease(capsule, lineage, owner, openedFrom, now, ttl);
            store.calm && Legal(old(store.log)) && patience > 0 && ValidLease(lease, capsule, lineage) && ttl > 0 ==>
              Answered(old(store.log), store.log, LeaseKey(capsule, lineage), capsule, lineage, observed, now, r)
  {
    held, seen := 0, 0;
    ghost var blocked: seq<nat> := [];
    var lease := NewLease(capsule, lineage, owner, openedFrom, now, ttl);
    PutEffect(store.publishersOnly, store.log, store.log, store.log, me, lease);
    if !ValidLineage(capsule, lineage) || !GoodRequest(owner, now, ttl) { return Err(P.InvalidDocument), held, seen; }
    if openedFrom.Some? && !ValidRef(openedFrom.value) { return Err(P.InvalidDocument), held, seen; }
    for round := 0 to patience
      invariant OthersGrow(store.publishersOnly, old(store.log), store.log, me)
      invariant |blocked| == round && BlockedAt(old(store.log), store.log, LeaseKey(capsule, lineage), blocked)
      invariant store.calm && Legal(old(store.log)) ==> round == 0 && store.log == old(store.log)
    {
      ghost var before := store.log;
      var outcome, at := AcquireRound(store, me, lease, now, old(store.log));
      if outcome.Some? {
        if outcome.value.Err? { return outcome.value, held, seen; }
        held := |store.log|;
        if store.calm { ObservedBeside(before, me, lease, observed); }
        r, seen := FinishAcquire(store, me, outcome.value.value, observed, old(store.log));
        return r, held, seen;
      }
      BlockedMore(old(store.log), before, store.log, LeaseKey(capsule, lineage), blocked, at);
      blocked := blocked + [at];
    }
    PutEffect(store.publishersOnly, old(store.log), store.log, store.log, me, lease);
    return Err(P.Cancelled), held, seen;
  }

  /** Acquires the lease of a lineage whose pointer the caller observed (or found absent). */
  method Acquire(store: ObjectStore, me: Actor, capsule: string, lineage: Lineage, owner: LeaseOwner,
                 observed: Option<PointerRecord>, now: Time, ttl: int, patience: nat)
    returns (r: Result<LeaseToken, Error>, ghost held: nat, ghost seen: nat)
    modifies store
    ensures var openedFrom := if observed.Some? then Some(observed.value.pointer.generation) else None;
            && TouchedOwnLease(store.publishersOnly, old(store.log), store.log, me,
                               NewLease(capsule, lineage, owner, openedFrom, now, ttl), r.Err?)
            && (r.Ok? ==> Granted(r.value.lease, capsule, lineage, owner, openedFrom, now, ttl))
            && (&& store.calm && Legal(old(store.log)) && patience > 0 && ttl > 0
                && ValidLease(NewLease(capsule, lineage, owner, openedFrom, now, ttl), capsule, lineage)
                && (observed.Some? ==> observed.value.rev != 0)
                && (observed.Some? ==> ValidPointer(observed.value.pointer, capsule, lineage)) ==>
                  Answered(old(store.log), store.log, LeaseKey(capsule, lineage), capsule, lineage, observed, now, r))
    ensures Excused(old(store.log), store.log, LeaseKey(capsule, lineage), now, patience, r)
    ensures r.Ok? ==> GoodRequest(owner, now, ttl) && Acquired(old(store.log), store.log, r.value, observed, held, seen)
    ensures r.Ok? && observed.Some? ==>
            observed.value.rev != 0 && ValidPointer(observed.value.pointer, capsule, lineage)
  {
    held, seen := 0, 0;
    var openedFrom: Option<GenerationRef> := None;
    if observed.Some? {
      openedFrom := Some(observed.value.pointer.generation);
      if observed.value.rev == 0 || !ValidPointer(observed.value.pointer, capsule, lineage) {
        PutEffect(store.publishersOnly, store.log, store.log, store.log, me,
                  NewLease(capsule, lineage, owner, openedFrom, now, ttl));
        return Err(P.InvalidDocument), held, seen;
      }
    }
    r, held, seen := AcquireLoop(store, me, capsule, lineage, owner, observed, openedFrom, now, ttl, patience);
  }

  lemma BranchBracket(before: Log, checked: Log, acquired: Log, after: Log, source: PointerRecord, token: LeaseToken,
                      held: nat, seen: nat)
    requires before <= checked <= acquired <= after
    requires IsLive(checked, P.KeyOf(source.pointer), source) && IsLive(after, P.KeyOf(source.pointer), source)
    requires Acquired(checked, acquired, token, None, held, seen)
    ensures Acquired(before, after, token, None, held, seen)
    ensures |checked| <= held
    ensures forall m | |checked| <= m <= |after| :: IsLive(after[..m], P.KeyOf(source.pointer), source)
  {
    assert after[..held] == acquired[..held] && after[..seen] == acquired[..seen];
    assert after[..|checked|] == checked && after[..|after|] == after;
    forall m | |checked| <= m <= |after| ensures IsLive(after[..m], P.KeyOf(source.pointer), source) {
      RevisionContinuous(after, P.KeyOf(source.pointer), |checked|, m, |after|);
    }
  }

  lemma BesideLease(checked: Log, after: Log, key: Key, source: PointerRecord)
    ensures IsLive(checked, P.KeyOf(source.pointer), source) && key.LeaseKey?
            && |after| == |checked| + 1 && checked <= after && after[|checked|].key == key ==>
              IsLive(after, P.KeyOf(source.pointer), source)
  {
    if |after| == |checked| + 1 && checked <= after {
      assert after == checked + [after[|checked|]];
      LookupAppend(checked, after[|checked|], P.KeyOf(source.pointer));
    }
  }

  /** The second read of the source; if it moved, the acquired lease is given back. */
  method FinishBranch(store: ObjectStore, me: Actor, source: PointerRecord, token: LeaseToken, ghost before: Log,
                      ghost checked: Log, ghost held: nat, ghost seen: nat)
    returns (r: Result<LeaseToken, Error>)
    requires before <= checked <= store.log && IsLive(checked, P.KeyOf(source.pointer), source)
    requires Acquired(checked, store.log, token, None, held, seen)
    requires TouchedOwnLease(store.publishersOnly, before, store.log, me, token.lease, false)
    modifies store
    ensures TouchedOwnLease(store.publishersOnly, before, store.log, me, token.lease, r.Err?)
    ensures r.Ok? ==> r.value == token && Acquired(before, store.log, token, None, held, seen) && |checked| <= held
    ensures r.Ok? ==> forall m | |checked| <= m <= |store.log| ::
            IsLive(store.log[..m], P.KeyOf(source.pointer), source)
    ensures r.Err? ==> r.error == P.PointerChanged && old(store.log) <= store.log
    ensures store.calm && Legal(old(store.log)) && IsLive(old(store.log), P.KeyOf(source.pointer), source) ==>
              r.Ok? && store.log == old(store.log)
    ensures store.calm && r.Err? && Held(old(store.log), KeyOf(token.lease), token) ==>
              Lookup(store.log, KeyOf(token.lease)).None?
  {
    var again := P.Revalidate(store, me, source);
    ghost var mid := store.log;
    EffectKept(store.publishersOnly, before, old(store.log), mid, me, token.lease, false);
    if again.Ok? {
      BranchBracket(before, checked, old(store.log), store.log, source, token, held, seen);
      return Ok(token);
    }
    LookupWitness(old(store.log)[..held], KeyOf(token.lease));
    var _ := ReleaseAcquired(store, me, token);
    DeleteOwn(store.publishersOnly, before, mid, store.log, me, token);
    return Err(P.PointerChanged);
  }

  /** The acquisition proper, with the source known to be live, and its second read. */
  method AcquireBranch(store: ObjectStore, me: Actor, capsule: string, lineage: Lineage, owner: LeaseOwner,
                       source: PointerRecord, now: Time, ttl: int, patience: nat, ghost before: Log)
    returns (r: Result<LeaseToken, Error>, ghost held: nat, ghost seen: nat)
    requires OthersGrow(store.publishersOnly, before, store.log, me)
    requires IsLive(store.log, P.KeyOf(source.pointer), source)
    modifies store
    ensures TouchedOwnLease(store.publishersOnly, before, store.log, me,
                            NewLease(capsule, lineage, owner, Some(source.pointer.generation), now, ttl), r.Err?)
    ensures r.Ok? ==> r.value.lease == NewLease(capsule, lineage, owner, Some(source.pointer.generation), now, ttl)
    ensures r.Ok? ==> GoodRequest(owner, now, ttl) && Acquired(before, store.log, r.value, None, held, seen)
    ensures r.Ok? ==> |old(store.log)| <= held
    ensures r.Ok? ==>
              forall m | |old(store.log)| <= m <= |store.log| :: IsLive(store.log[..m], P.KeyOf(source.pointer), source)
    ensures Excused(before, store.log, LeaseKey(capsule, lineage), now, patience, r)
    ensures var lease := NewLease(capsule, lineage, owner, Some(source.pointer.generation), now, ttl);
            store.calm && Legal(old(store.log)) && patience > 0 && ttl > 0 && ValidLease(lease, capsule, lineage) ==>
              Answered(old(store.log), store.log, LeaseKey(capsule, lineage), capsule, lineage, None, now, r)
  {
    ghost var checked := store.log;
    ghost var lease := NewLease(capsule, lineage, owner, Some(source.pointer.generation), now, ttl);
    r, held, seen := AcquireLoop(store, me, capsule, lineage, owner, None, Some(source.pointer.generation), now, ttl,
                                 patience);
    EffectFrom(store.publishersOnly, before, checked, store.log, me, lease, r.Err?);
    ExcusedFrom(before, checked, store.log, LeaseKey(capsule, lineage), now, patience, r);
    BesideLease(checked, store.log, LeaseKey(capsule, lineage), source);
    if r.Ok? { r := FinishBranch(store, me, source, r.value, before, checked, held, seen); }
  }

  /** Acquires the lease of a new branch. On success the source pointer was `source` without interruption
    * from `first`, before the lease was in place, until the call returned. */
  method AcquireBranchFrom(store: ObjectStore, me: Actor, capsule: string, lineage: Lineage, owner: LeaseOwner,
                           source: PointerRecord, now: Time, ttl: int, patience: nat)
    returns (r: Result<LeaseToken, Error>, ghost first: nat, ghost held: nat, ghost seen: nat)
    modifies store
    ensures TouchedOwnLease(store.publishersOnly, old(store.log), store.log, me,
                            NewLease(capsule, lineage, owner, Some(source.pointer.generation), now, ttl), r.Err?)
    ensures r.Ok? ==>
            Granted(r.value.lease, capsule, lineage, owner, Some(source.pointer.generation), now, ttl)
    ensures Excused(old(store.log), store.log, LeaseKey(capsule, lineage), now, patience, r)
    ensures var lease := NewLease(capsule, lineage, owner, Some(source.pointer.generation), now, ttl);
            && store.calm && Legal(old(store.log)) && patience > 0 && ttl > 0 && ValidLease(lease, capsule, lineage)
            && !lineage.IsMain() && source.pointer.lineage != lineage && source.pointer.capsule == capsule
            && IsLive(old(store.log), P.KeyOf(source.pointer), source) ==>
              Answered(old(store.log), store.log, LeaseKey(capsule, lineage), capsule, lineage, None, now, r)
    ensures r.Ok? ==> Acquired(old(store.log), store.log, r.value, None, held, seen)
    ensures r.Ok? ==> GoodRequest(owner, now, ttl) && !lineage.IsMain() && source.pointer.lineage != lineage
    ensures r.Ok? ==> source.rev != 0 && ValidPointer(source.pointer, capsule, source.pointer.lineage)
    ensures r.Ok? ==> |old(store.log)| <= first <= held
    ensures r.Ok? ==> forall m | first <= m <= |store.log| :: IsLive(store.log[..m], P.KeyOf(source.pointer), source)
  {
    first, held, seen := 0, 0, 0;
    ghost var before := store.log;
    ghost var lease := NewLease(capsule, lineage, owner, Some(source.pointer.generation), now, ttl);
    PutEffect(store.publishersOnly, before, before, before, me, lease);
    P.Live(before, source);
    if lineage.IsMain() || source.pointer.lineage == lineage || source.rev == 0 {
      return Err(P.InvalidDocument), first, held, seen;
    }
    if !ValidPointer(source.pointer, capsule, source.pointer.lineage) {
      return Err(P.InvalidDocument), first, held, seen;
    }
    var live := P.Revalidate(store, me, source);
    ghost var checked := store.log;
    first := |checked|;
    PutEffect(store.publishersOnly, before, checked, checked, me, lease);
    if live.Err? { return Err(live.error), first, held, seen; }
    r, held, seen := AcquireBranch(store, me, capsule, lineage, owner, source, now, ttl, patience, before);
  }
}
