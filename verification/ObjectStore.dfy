/** The conditional-write object store shared by all sessions. */
module ObjectStores {
  import opened Domain
  import opened History

  datatype Condition = MustBeAbsent | MatchRevision(rev: nat)

  datatype PutResult = Stored(rev: nat) | PutConflict | PutAmbiguous | PutFailed

  /** `shaKnown` says whether the backend reported the object's digest. */
  datatype GetResult = Found(stored: Object, shaKnown: bool) | GetNotFound | GetFailed

  datatype DeleteResult = Deleted | DeleteConflict | DeleteNotFound | DeleteAmbiguous | DeleteFailed

  predicate Holds(log: Log, key: Key, condition: Condition) {
    match condition
    case MustBeAbsent => Lookup(log, key).None?
    case MatchRevision(rev) => Lookup(log, key).Some? && Lookup(log, key).value.rev == rev
  }

  /** `after` continues `before`, keeping it legal and, if all pointer writers publish, backed. */
  predicate Grows(publishersOnly: bool, before: Log, after: Log) {
    && before <= after
    && (Legal(before) ==> Legal(after))
    && (publishersOnly && Backed(before) ==> Backed(after))
  }

  /** ... and `me` added nothing. */
  predicate OthersGrow(publishersOnly: bool, before: Log, after: Log, me: Actor) {
    && Grows(publishersOnly, before, after)
    && forall i | |before| <= i < |after| :: after[i].actor != me
  }

  /** The events `me` added since the first `from`. */
  function Mine(log: Log, from: nat, me: Actor): (events: seq<Event>)
    requires from <= |log|
  {
    if |log| == from then []
    else
      var last := |log| - 1;
      Mine(log[..last], from, me) + (if log[last].actor == me then [log[last]] else [])
  }

  lemma {:induction false} MineOthers(before: Log, after: Log, from: nat, me: Actor)
    requires before <= after && from <= |before|
    requires forall i | |before| <= i < |after| :: after[i].actor != me
    ensures Mine(after, from, me) == Mine(before, from, me)
    decreases |after|
  {
    if |before| < |after| {
      MineOthers(before, after[..|after| - 1], from, me);
    } else {
      assert before == after;
    }
  }

  lemma MineAppend(log: Log, from: nat, me: Actor, e: Event)
    requires from <= |log|
    ensures Mine(log + [e], from, me) == Mine(log, from, me) + (if e.actor == me then [e] else [])
  {
    assert (log + [e])[..|log|] == log;
  }

  lemma {:induction false} MineSplit(log: Log, from: nat, at: nat, me: Actor)
    requires from <= at <= |log|
    ensures Mine(log, from, me) == Mine(log[..at], from, me) + Mine(log, at, me)
    decreases |log|
  {
    if at < |log| {
      var last := |log| - 1;
      assert log[..last][..at] == log[..at];
      MineSplit(log[..last], from, at, me);
    } else {
      assert log[..at] == log;
    }
  }

  /** A revision names one document for good. */
  lemma SameRevisionSameObject(before: Log, after: Log, key: Key)
    requires before <= after && Lookup(before, key).Some? && Lookup(after, key).Some?
    requires Lookup(before, key).value.rev == Lookup(after, key).value.rev
    ensures Lookup(before, key) == Lookup(after, key)
  {
    LookupWitness(before, key);
    LookupWitness(after, key);
  }

  class ObjectStore {
    /** Whether every session that writes a pointer is a checkpoint publisher. */
    const publishersOnly: bool
    /** In a quiet store no other operation acts, and every read answers ... */
    const quiet: bool
    /** ... and in a calm one so does every write. */
    const calm: bool
    /** Whether the backend reports the digest of every object it finds. */
    const digests: bool
    var log: Log

    constructor (publishersOnly: bool, quiet: bool, calm: bool, digests: bool)
      requires calm ==> quiet
      ensures log == [] && this.publishersOnly == publishersOnly
      ensures this.quiet == quiet && this.calm == calm && this.digests == digests
    {
      this.publishersOnly, this.quiet, this.calm, this.digests := publishersOnly, quiet, calm, digests;
      log := [];
    }

    /** Any number of legal writes by other operations. Every store call begins with it. */
    method Interfere(me: Actor)
      modifies this
      ensures OthersGrow(publishersOnly, old(log), log, me)
      ensures quiet || calm ==> log == old(log)
    {
      if quiet || calm { return; }
      var n: nat := *;
      while n > 0
        invariant OthersGrow(publishersOnly, old(log), log, me)
      {
        var e: Event := *;
        var pointerWrite := e.Put? && e.key.PointerKey? && e.doc.PointerDoc?;
        if e.actor != me && Step(log, e) && (publishersOnly && pointerWrite ==> BackedBy(log, e.doc.pointer)) {
          if Legal(old(log)) { LegalExtend(log, e); }
          if publishersOnly && Backed(old(log)) { BackedExtend(log, e); }
          log := log + [e];
        }
        n := n - 1;
      }
    }

    method Get(me: Actor, key: Key) returns (r: GetResult)
      modifies this
      ensures OthersGrow(publishersOnly, old(log), log, me)
      ensures r.Found? ==> Lookup(log, key) == Some(r.stored)
      ensures r.GetNotFound? ==> Lookup(log, key).None?
      ensures digests && r.Found? ==> r.shaKnown
      ensures quiet || calm ==> log == old(log) && !r.GetFailed?
    {
      Interfere(me);
      var failed: bool := *;
      var shaKnown: bool := *;
      if failed && !quiet && !calm { return GetFailed; }
      match Lookup(log, key) {
        case None => return GetNotFound;
        case Some(o) => return Found(o, digests || shaKnown);
      }
    }

    /** `pre` is the history the condition was judged against. An ambiguous write landed or did not. */
    method PutConditional(me: Actor, key: Key, doc: Doc, condition: Condition) returns (r: PutResult, ghost pre: Log)
      modifies this
      ensures OthersGrow(publishersOnly, old(log), pre, me)
      ensures log == pre || (Holds(pre, key, condition) && log == pre + [Put(me, key, doc)])
      ensures r.Stored? ==> log != pre && r.rev == |log|
      ensures r.PutConflict? ==> log == pre && !Holds(pre, key, condition)
      ensures r.PutFailed? ==> log == pre
      ensures quiet ==> pre == old(log)
      ensures calm ==> pre == old(log) && r == if Holds(pre, key, condition) then Stored(|pre| + 1) else PutConflict
    {
      Interfere(me);
      pre := log;
      var outcome: PutResult := *;
      if calm { outcome := PutConflict; }
      if outcome.PutFailed? { return PutFailed, pre; }
      if !Holds(log, key, condition) {
        if outcome.PutAmbiguous? { return PutAmbiguous, pre; }
        return PutConflict, pre;
      }
      var lost: bool := *;
      if outcome.PutAmbiguous? && lost { return PutAmbiguous, pre; }
      log := log + [Put(me, key, doc)];
      if outcome.PutAmbiguous? { return PutAmbiguous, pre; }
      return Stored(|log|), pre;
    }

    /** Writes `expected` once: equal bytes are accepted again, other bytes never replace them. */
    method PutImmutable(me: Actor, key: Key, source: Doc, expected: Doc) returns (r: PutResult, ghost pre: Log)
      modifies this
      ensures OthersGrow(publishersOnly, old(log), pre, me)
      ensures log == pre || (Lookup(pre, key).None? && source == expected && log == pre + [Put(me, key, expected)])
      ensures r.Stored? ==> Lookup(log, key) == Some(Object(expected, r.rev))
      ensures r.PutConflict? || r.PutFailed? ==> log == pre
      ensures calm ==> pre == old(log) && !r.PutAmbiguous?
      ensures calm && source == expected ==>
                (r.Stored? <==> Lookup(pre, key).None? || Lookup(pre, key).value.doc == expected)
    {
      Interfere(me);
      pre := log;
      var outcome: PutResult := *;
      if calm { outcome := PutConflict; }
      if outcome.PutFailed? || source != expected { return PutFailed, pre; }
      match Lookup(log, key) {
        case Some(o) =>
          if o.doc != expected { return PutConflict, pre; }
          return Stored(o.rev), pre;
        case None =>
      }
      var lost: bool := *;
      if outcome.PutAmbiguous? && lost { return PutAmbiguous, pre; }
      LookupAppend(log, Put(me, key, expected), key);
      log := log + [Put(me, key, expected)];
      if outcome.PutAmbiguous? { return PutAmbiguous, pre; }
      return Stored(|log|), pre;
    }

    /** A delete that reports failure may still have happened. */
    method DeleteConditional(me: Actor, key: Key, rev: nat) returns (r: DeleteResult, ghost pre: Log)
      modifies this
      ensures OthersGrow(publishersOnly, old(log), pre, me)
      ensures log == pre || (Holds(pre, key, MatchRevision(rev)) && log == pre + [Del(me, key, rev)])
      ensures r.Deleted? ==> log != pre
      ensures r.DeleteConflict? || r.DeleteNotFound? ==> log == pre && !Holds(pre, key, MatchRevision(rev))
      ensures quiet ==> pre == old(log)
      ensures calm ==> pre == old(log) && (r.Deleted? <==> Holds(pre, key, MatchRevision(rev)))
    {
      Interfere(me);
      pre := log;
      var outcome: DeleteResult := *;
      if calm { outcome := Deleted; }
      var vague := outcome.DeleteAmbiguous? || outcome.DeleteFailed?;
      if !Holds(log, key, MatchRevision(rev)) {
        if vague { return outcome, pre; }
        return if Lookup(log, key).None? then DeleteNotFound else DeleteConflict, pre;
      }
      var lost: bool := *;
      if vague && lost { return outcome, pre; }
      log := log + [Del(me, key, rev)];
      if vague { return outcome, pre; }
      return Deleted, pre;
    }
  }
}
