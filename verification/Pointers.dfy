/** Reading, creating and replacing the latest pointer of a lineage. */
module Pointers {
  import opened Domain
  import opened History
  import opened ObjectStores
  import opened PointerRuns

  datatype Error = NotFound | InvalidDocument | LeaseHeld | LeaseLost | PointerChanged | Conflict | Ambiguous | Failed
                 | Cancelled

  function KeyOf(p: LatestPointer): Key { PointerKey(p.capsule, p.lineage) }

  lemma MineNone(publishersOnly: bool, before: Log, after: Log, me: Actor)
    requires OthersGrow(publishersOnly, before, after, me)
    ensures Mine(after, |before|, me) == []
  {
    MineOthers(before, after, |before|, me);
  }

  /** An operation's single write on top of what others wrote. */
  lemma MineOne(publishersOnly: bool, before: Log, pre: Log, me: Actor, e: Event)
    requires OthersGrow(publishersOnly, before, pre, me) && e.actor == me
    ensures Mine(pre + [e], |before|, me) == [e]
  {
    MineNone(publishersOnly, before, pre, me);
    MineAppend(pre, |before|, me, e);
  }

  method Read(store: ObjectStore, me: Actor, capsule: string, lineage: Lineage)
    returns (r: Result<PointerRecord, Error>)
    modifies store
    ensures OthersGrow(store.publishersOnly, old(store.log), store.log, me)
    ensures r.Ok? ==>
            IsLive(store.log, PointerKey(capsule, lineage), r.value) && ValidPointer(r.value.pointer, capsule, lineage)
    ensures r == Err(NotFound) ==> Lookup(store.log, PointerKey(capsule, lineage)).None?
    ensures r.Err? ==> r.error in {NotFound, InvalidDocument, Failed}
    ensures !ValidLineage(capsule, lineage) ==> r == Err(InvalidDocument)
    ensures store.quiet || store.calm ==> store.log == old(store.log)
    ensures (store.quiet || store.calm) && Legal(store.log) && ValidLineage(capsule, lineage) ==>
              if Lookup(store.log, PointerKey(capsule, lineage)).Some? then r.Ok? else r == Err(NotFound)
  {
    if !ValidLineage(capsule, lineage) { return Err(InvalidDocument); }
    var got := store.Get(me, PointerKey(capsule, lineage));
    if Legal(store.log) && Lookup(store.log, PointerKey(capsule, lineage)).Some? {
      LookupTyped(store.log, PointerKey(capsule, lineage));
    }
    match got {
      case GetNotFound => return Err(NotFound);
      case GetFailed => return Err(Failed);
      case Found(o, _) =>
        if !(o.doc.PointerDoc? && ValidPointer(o.doc.pointer, capsule, lineage)) { return Err(InvalidDocument); }
        return Ok(PointerRecord(o.doc.pointer, o.rev));
    }
  }

  method Revalidate(store: ObjectStore, me: Actor, observed: PointerRecord) returns (r: Result<(), Error>)
    modifies store
    ensures OthersGrow(store.publishersOnly, old(store.log), store.log, me)
    ensures r.Ok? ==> IsLive(store.log, KeyOf(observed.pointer), observed)
    ensures r == Err(PointerChanged) ==> !IsLive(store.log, KeyOf(observed.pointer), observed)
    ensures r.Err? ==> r.error in {PointerChanged, InvalidDocument, Failed}
    ensures store.calm ==> store.log == old(store.log)
    ensures store.calm && Legal(store.log) && IsLive(store.log, KeyOf(observed.pointer), observed) ==> r.Ok?
    ensures && store.calm && Legal(store.log) && ValidLineage(observed.pointer.capsule, observed.pointer.lineage)
            && !IsLive(store.log, KeyOf(observed.pointer), observed) ==>
              r == Err(PointerChanged)
  {
    if Legal(store.log) && IsLive(store.log, KeyOf(observed.pointer), observed) {
      LookupTyped(store.log, KeyOf(observed.pointer));
    }
    var current := Read(store, me, observed.pointer.capsule, observed.pointer.lineage);
    if current == Err(NotFound) { return Err(PointerChanged); }
    if current.Err? { return Err(current.error); }
    if current.value != observed { return Err(PointerChanged); }
    return Ok(());
  }

  /** The history after an operation that may have written `next` once, at position `w`, over a store in
    * which `over` held the pointer. */
  predicate WroteAtMostOnce(publishersOnly: bool, before: Log, after: Log, me: Actor, over: Option<Object>,
                            next: LatestPointer, w: nat) {
    var key := KeyOf(next);
    && Grows(false, before, after)
    && (Legal(before) && BackedBy(before, next) ==> Grows(publishersOnly, before, after))
    && (Mine(after, |before|, me) == []
        || (&& Mine(after, |before|, me) == [Put(me, key, PointerDoc(next))]
            && |before| <= w < |after| && after[w] == Put(me, key, PointerDoc(next)) &&
                Lookup(after[..w], key) == over))
  }

  /** What a conditional pointer write leaves behind, whatever its outcome. */
  lemma PutEffect(publishersOnly: bool, before: Log, pre: Log, after: Log, me: Actor, over: Option<Object>,
                  next: LatestPointer)
    requires OthersGrow(publishersOnly, before, pre, me)
    requires var e := Put(me, KeyOf(next), PointerDoc(next));
             after == pre || (after == pre + [e] && (Legal(pre) ==> Step(pre, e)) && Lookup(pre, KeyOf(next)) == over)
    ensures WroteAtMostOnce(publishersOnly, before, after, me, over, next, |pre|)
    ensures after == pre ==> Mine(after, |before|, me) == []
  {
    var e := Put(me, KeyOf(next), PointerDoc(next));
    MineNone(publishersOnly, before, pre, me);
    if after != pre {
      MineOne(publishersOnly, before, pre, me, e);
      assert after[..|pre|] == pre;
      if Legal(before) {
        LegalExtend(pre, e);
        if BackedBy(before, next) && publishersOnly && Backed(before) {
          assert pre[..|before|] == before && pre[..|pre|] == pre;
          BackedByPersists(pre, next, |before|, |pre|);
          BackedExtend(pre, e);
        }
      }
    }
  }

  lemma PutEffectKept(publishersOnly: bool, before: Log, after: Log, later: Log, me: Actor, over: Option<Object>,
                      next: LatestPointer, w: nat)
    requires WroteAtMostOnce(publishersOnly, before, after, me, over, next, w) &&
             OthersGrow(publishersOnly, after, later, me)
    ensures WroteAtMostOnce(publishersOnly, before, later, me, over, next, w)
  {
    MineOthers(after, later, |before|, me);
    if w < |after| { assert later[..w] == after[..w] && later[w] == after[w]; }
  }

  /** The stored pointer is exactly this one. */
  predicate Stands(log: Log, p: LatestPointer) {
    Lookup(log, KeyOf(p)).Some? && Lookup(log, KeyOf(p)).value.doc == PointerDoc(p)
  }

  lemma PutStands(pre: Log, after: Log, me: Actor, next: LatestPointer)
    ensures after == pre + [Put(me, KeyOf(next), PointerDoc(next))] ==> Stands(after, next)
  {
    LookupAppend(pre, Put(me, KeyOf(next), PointerDoc(next)), KeyOf(next));
  }

  /** An ambiguous write is settled by a look at the stored pointer. */
  method Settle(store: ObjectStore, me: Actor, next: LatestPointer, ghost over: Option<Object>, ghost before: Log,
                ghost w: nat)
    returns (r: Result<PointerRecord, Error>)
    requires WroteAtMostOnce(store.publishersOnly, before, store.log, me, over, next, w)
    modifies store
    ensures WroteAtMostOnce(store.publishersOnly, before, store.log, me, over, next, w) && old(store.log) <= store.log
    ensures r.Ok? ==> r.value.pointer == next && IsLive(store.log, KeyOf(next), r.value)
    ensures r.Err? ==> r.error == Ambiguous
    ensures store.quiet && Legal(before) && ValidLineage(next.capsule, next.lineage) ==>
              store.log == old(store.log) && (r.Ok? <==> Stands(store.log, next))
  {
    var reread := Read(store, me, next.capsule, next.lineage);
    PutEffectKept(store.publishersOnly, before, old(store.log), store.log, me, over, next, w);
    if reread.Ok? && reread.value.pointer == next { return Ok(reread.value); }
    return Err(Ambiguous);
  }

  /** Creates a pointer where none exists. Success means the pointer is live when the call returns. */
  method Create(store: ObjectStore, me: Actor, next: LatestPointer)
    returns (r: Result<PointerRecord, Error>, ghost w: nat)
    modifies store
    ensures WroteAtMostOnce(store.publishersOnly, old(store.log), store.log, me, None, next, w)
    ensures r.Ok? ==> r.value.pointer == next && IsLive(store.log, KeyOf(next), r.value)
    ensures r.Ok? ==> ValidPointer(next, next.capsule, next.lineage) && (next.lineage.IsMain() || next.parent.Some?)
    ensures r in {Err(Conflict), Err(Failed), Err(InvalidDocument)} ==> Mine(store.log, |old(store.log)|, me) == []
    ensures store.quiet && Legal(old(store.log)) && Mine(store.log, |old(store.log)|, me) != [] ==> r.Ok?
    ensures store.calm ==>
              (r.Ok? <==> && ValidPointer(next, next.capsule, next.lineage)
                          && (next.lineage.IsMain() || next.parent.Some?)
                          && Lookup(old(store.log), KeyOf(next)).None?)
    ensures && store.calm && ValidPointer(next, next.capsule, next.lineage)
            && (next.lineage.IsMain() || next.parent.Some?) && Lookup(old(store.log), KeyOf(next)).Some? ==>
              r == Err(Conflict)
    ensures !ValidPointer(next, next.capsule, next.lineage) || !(next.lineage.IsMain() || next.parent.Some?) ==>
              r == Err(InvalidDocument)
  {
    w := |store.log|;
    PutEffect(store.publishersOnly, store.log, store.log, store.log, me, None, next);
    if !ValidPointer(next, next.capsule, next.lineage) { return Err(InvalidDocument), w; }
    if !next.lineage.IsMain() && next.parent.None? { return Err(InvalidDocument), w; }
    var put;
    put, w := PutOnce(store, me, None, next, old(store.log));
    match put {
      case Stored(rev) => return Ok(PointerRecord(next, rev)), w;
      case PutConflict => return Err(Conflict), w;
      case PutFailed => return Err(Failed), w;
      case PutAmbiguous => r := Settle(store, me, next, None, old(store.log), w);
    }
  }

  function ObjectOf(record: PointerRecord): Option<Object> { Some(Object(PointerDoc(record.pointer), record.rev)) }

  /** One conditional write of a pointer, over none or over the expected record. */
  method PutOnce(store: ObjectStore, me: Actor, over: Option<PointerRecord>, next: LatestPointer, ghost before: Log)
    returns (put: PutResult, ghost w: nat)
    requires ValidPointer(next, next.capsule, next.lineage) && OthersGrow(store.publishersOnly, before, store.log, me)
    requires match over
             case None => next.lineage.IsMain() || next.parent.Some?
             case Some(expected) =>
               && (Advances(expected.pointer, next) || RollsBack(expected.pointer, next))
               && IsLive(store.log, KeyOf(next), expected)
    modifies store
    ensures WroteAtMostOnce(store.publishersOnly, before, store.log, me, Over(over), next, w)
    ensures old(store.log) <= store.log
    ensures put.Stored? ==> IsLive(store.log, KeyOf(next), PointerRecord(next, put.rev))
    ensures put.PutConflict? || put.PutFailed? ==> Mine(store.log, |before|, me) == []
    ensures store.quiet && Mine(store.log, |before|, me) != [] ==> Stands(store.log, next)
    ensures store.calm ==> if Lookup(old(store.log), KeyOf(next)) == Over(over) then put.Stored? else put.PutConflict?
  {
    ghost var pre;
    var condition := if over.None? then MustBeAbsent else MatchRevision(over.value.rev);
    put, pre := store.PutConditional(me, KeyOf(next), PointerDoc(next), condition);
    w := |pre|;
    if over.Some? && Holds(pre, KeyOf(next), condition) { SameRevisionSameObject(old(store.log), pre, KeyOf(next)); }
    PutEffect(store.publishersOnly, before, pre, store.log, me, Over(over), next);
    PutStands(pre, store.log, me, next);
  }

  function Over(record: Option<PointerRecord>): Option<Object> {
    if record.None? then None else ObjectOf(record.value)
  }

  /** The conditional write at the expected revision, with an ambiguous outcome read back. */
  method PutOver(store: ObjectStore, me: Actor, expected: PointerRecord, next: LatestPointer, ghost before: Log)
    returns (r: Result<PointerRecord, Error>, ghost w: nat)
    requires KeyOf(next) == KeyOf(expected.pointer) && ValidPointer(next, next.capsule, next.lineage)
    requires Advances(expected.pointer, next) || RollsBack(expected.pointer, next)
    requires OthersGrow(store.publishersOnly, before, store.log, me) && IsLive(store.log, KeyOf(next), expected)
    modifies store
    ensures WroteAtMostOnce(store.publishersOnly, before, store.log, me, ObjectOf(expected), next, w)
    ensures old(store.log) <= store.log
    ensures r.Ok? ==> r.value.pointer == next && IsLive(store.log, KeyOf(next), r.value)
    ensures r == Err(PointerChanged) ==> Mine(store.log, |before|, me) == []
    ensures r.Err? ==> r.error in {PointerChanged, Failed, Ambiguous}
    ensures store.quiet && Legal(before) && Mine(store.log, |before|, me) != [] ==> r.Ok?
    ensures store.calm ==> r.Ok?
  {
    var put;
    put, w := PutOnce(store, me, Some(expected), next, before);
    match put {
      case Stored(rev) => return Ok(PointerRecord(next, rev)), w;
      case PutConflict => return Err(PointerChanged), w;
      case PutFailed => return Err(Failed), w;
      case PutAmbiguous => r := Settle(store, me, next, ObjectOf(expected), before, w);
    }
  }

  /** A live record is a valid pointer under a real revision. */
  lemma Live(log: Log, record: PointerRecord)
    ensures Legal(log) && IsLive(log, KeyOf(record.pointer), record) ==>
              ValidPointer(record.pointer, record.pointer.capsule, record.pointer.lineage) && record.rev != 0
  {
    if Legal(log) && IsLive(log, KeyOf(record.pointer), record) {
      LookupTyped(log, KeyOf(record.pointer));
      LookupWitness(log, KeyOf(record.pointer));
    }
  }

  /** The shared tail of CompareAndSwap and SelectHistorical: revalidate (at `seen`), write at the expected
    * revision, and on an ambiguous outcome read back. */
  method Replace(store: ObjectStore, me: Actor, expected: PointerRecord, next: LatestPointer)
    returns (r: Result<PointerRecord, Error>, ghost seen: nat, ghost w: nat)
    requires KeyOf(next) == KeyOf(expected.pointer) && ValidPointer(next, next.capsule, next.lineage)
    requires Advances(expected.pointer, next) || RollsBack(expected.pointer, next)
    modifies store
    ensures WroteAtMostOnce(store.publishersOnly, old(store.log), store.log, me, ObjectOf(expected), next, w)
    ensures r.Ok? ==> r.value.pointer == next && IsLive(store.log, KeyOf(next), r.value)
    ensures r.Ok? ==> seen <= |store.log| && IsLive(store.log[..seen], KeyOf(next), expected)
    ensures r in {Err(PointerChanged), Err(InvalidDocument)} ==> Mine(store.log, |old(store.log)|, me) == []
    ensures store.quiet && Legal(old(store.log)) && Mine(store.log, |old(store.log)|, me) != [] ==> r.Ok?
    ensures store.calm && Legal(old(store.log)) ==>
              if IsLive(old(store.log), KeyOf(next), expected) then r.Ok? else r == Err(PointerChanged)
  {
    var live := Revalidate(store, me, expected);
    seen, w := |store.log|, |store.log|;
    PutEffect(store.publishersOnly, old(store.log), store.log, store.log, me, ObjectOf(expected), next);
    if live.Err? { return Err(live.error), seen, w; }
    ghost var mid := store.log;
    r, w := PutOver(store, me, expected, next, old(store.log));
    assert store.log[..seen] == mid;
  }

  /** Both pointers are valid documents of one lineage, and the expected one was read under a real revision. */
  predicate WellFormedSwap(expected: PointerRecord, next: LatestPointer) {
    var p := expected.pointer;
    ValidPointer(p, p.capsule, p.lineage) && expected.rev != 0 && ValidPointer(next, p.capsule, p.lineage)
  }

  /** Moves the pointer from `expected` to its child `next`. Success means `next` is live on return and,
    * as long as nobody selected an older generation, that `next` is the write that replaced `expected`. */
  method CompareAndSwap(store: ObjectStore, me: Actor, expected: PointerRecord, next: LatestPointer)
    returns (r: Result<PointerRecord, Error>, ghost w: nat)
    modifies store
    ensures WroteAtMostOnce(store.publishersOnly, old(store.log), store.log, me, ObjectOf(expected), next, w)
    ensures r.Ok? ==>
            Advances(expected.pointer, next) && r.value.pointer == next && IsLive(store.log, KeyOf(next), r.value)
    ensures r.Ok? && Legal(old(store.log)) && OnlyAdvances(store.log, KeyOf(next)) ==>
            Swapped(store.log, KeyOf(next), expected, next)
    ensures r in {Err(PointerChanged), Err(InvalidDocument)} ==> Mine(store.log, |old(store.log)|, me) == []
    ensures Mine(store.log, |old(store.log)|, me) != [] ==> Advances(expected.pointer, next)
    ensures store.quiet && Legal(old(store.log)) && Mine(store.log, |old(store.log)|, me) != [] ==> r.Ok?
    ensures store.calm && Legal(old(store.log)) ==>
              (r.Ok? <==> && ValidPointer(next, expected.pointer.capsule, expected.pointer.lineage)
                          && Advances(expected.pointer, next)
                          && IsLive(old(store.log), KeyOf(expected.pointer), expected))
    ensures && store.calm && Legal(old(store.log)) && WellFormedSwap(expected, next)
            && Advances(expected.pointer, next) && !IsLive(old(store.log), KeyOf(expected.pointer), expected) ==>
              r == Err(PointerChanged)
    ensures !WellFormedSwap(expected, next) || !Advances(expected.pointer, next) ==> r == Err(InvalidDocument)
  {
    Live(old(store.log), expected);
    w := |store.log|;
    PutEffect(store.publishersOnly, store.log, store.log, store.log, me, ObjectOf(expected), next);
    var p := expected.pointer;
    if !ValidPointer(p, p.capsule, p.lineage) || expected.rev == 0 { return Err(InvalidDocument), w; }
    if !ValidPointer(next, p.capsule, p.lineage) { return Err(InvalidDocument), w; }
    if next.parent != Some(p.generation) { return Err(InvalidDocument), w; }
    if next.generation.generation <= p.generation.generation { return Err(InvalidDocument), w; }
    ghost var seen: nat;
    r, seen, w := Replace(store, me, expected, next);
    if r.Ok? && Legal(old(store.log)) && OnlyAdvances(store.log, KeyOf(next)) {
      assert store.log[..|store.log|] == store.log;
      ReadBackIsSwap(store.log, KeyOf(next), seen, |store.log|, expected, next);
    }
  }

  /** Selects an older generation explicitly; it never writes anything but a strict rollback. */
  method SelectHistorical(store: ObjectStore, me: Actor, expected: PointerRecord, historical: LatestPointer)
    returns (r: Result<PointerRecord, Error>, ghost w: nat)
    modifies store
    ensures WroteAtMostOnce(store.publishersOnly, old(store.log), store.log, me, ObjectOf(expected), historical, w)
    ensures Mine(store.log, |old(store.log)|, me) != [] || r.Ok? ==> RollsBack(expected.pointer, historical)
    ensures r.Ok? ==> r.value.pointer == historical && IsLive(store.log, KeyOf(historical), r.value)
    ensures store.quiet && Legal(old(store.log)) && Mine(store.log, |old(store.log)|, me) != [] ==> r.Ok?
    ensures r in {Err(PointerChanged), Err(InvalidDocument)} ==> Mine(store.log, |old(store.log)|, me) == []
    ensures store.calm && Legal(old(store.log)) ==>
              (r.Ok? <==> && ValidPointer(historical, expected.pointer.capsule, expected.pointer.lineage)
                          && RollsBack(expected.pointer, historical)
                          && IsLive(old(store.log), KeyOf(expected.pointer), expected))
    ensures && store.calm && Legal(old(store.log)) && WellFormedSwap(expected, historical)
            && RollsBack(expected.pointer, historical)
            && !IsLive(old(store.log), KeyOf(expected.pointer), expected) ==>
              r == Err(PointerChanged)
    ensures !WellFormedSwap(expected, historical) || !RollsBack(expected.pointer, historical) ==>
              r == Err(InvalidDocument)
  {
    Live(old(store.log), expected);
    w := |store.log|;
    PutEffect(store.publishersOnly, store.log, store.log, store.log, me, ObjectOf(expected), historical);
    var p := expected.pointer;
    if !ValidPointer(p, p.capsule, p.lineage) || expected.rev == 0 { return Err(InvalidDocument), w; }
    if !ValidPointer(historical, p.capsule, p.lineage) { return Err(InvalidDocument), w; }
    if historical.generation.generation >= p.generation.generation { return Err(InvalidDocument), w; }
    ghost var seen: nat;
    r, seen, w := Replace(store, me, expected, historical);
  }
}
