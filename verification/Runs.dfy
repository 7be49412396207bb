/** What holds of every legal run of pointer writes. */
module PointerRuns {
  import opened Domain
  import opened History

  datatype PointerRecord = PointerRecord(pointer: LatestPointer, rev: nat)

  predicate IsLive(log: Log, key: Key, record: PointerRecord) {
    Lookup(log, key) == Some(Object(PointerDoc(record.pointer), record.rev))
  }

  predicate WritesPointer(e: Event, key: Key) {
    e.Put? && e.key == key && e.doc.PointerDoc?
  }

  /** No write to `key` selects an older generation. */
  predicate OnlyAdvances(log: Log, key: Key) {
    forall i | 0 <= i < |log| && WritesPointer(log[i], key) ::
      var before := Lookup(log[..i], key);
      before.Some? && before.value.doc.PointerDoc? ==> Advances(before.value.doc.pointer, log[i].doc.pointer)
  }

  /** A write replaces the write before it: as its child with a larger generation, or, only by an
    * explicit selection, with a strictly smaller one. */
  lemma PointerChain(log: Log, key: Key, i: nat, j: nat)
    requires Legal(log) && key.PointerKey? && i < j < |log|
    requires log[i].key == key && log[j].key == key
    requires forall m | i < m < j :: log[m].key != key
    ensures WritesPointer(log[i], key) && WritesPointer(log[j], key)
    ensures Advances(log[i].doc.pointer, log[j].doc.pointer) || RollsBack(log[i].doc.pointer, log[j].doc.pointer)
    ensures OnlyAdvances(log, key) ==> Advances(log[i].doc.pointer, log[j].doc.pointer)
  {
    assert StepAt(log, i) && StepAt(log, j);
    forall m | i + 1 <= m < |log[..j]| ensures log[..j][m].key != key {}
    LookupLast(log[..j], key, i + 1);
  }

  /** The write behind a live pointer. */
  lemma LiveWrite(log: Log, key: Key, n: nat) returns (w: nat)
    requires Legal(log) && key.PointerKey? && n <= |log| && Lookup(log[..n], key).Some?
    ensures w < n && WritesPointer(log[w], key)
    ensures Lookup(log[..n], key) == Some(Object(log[w].doc, w + 1))
    ensures forall m | w < m < n :: log[m].key != key
  {
    LegalPrefix(log, n);
    LookupTyped(log[..n], key);
    LookupWitness(log[..n], key);
    w := Lookup(log[..n], key).value.rev - 1;
    assert log[..n][w] == log[w];
    forall m | w < m < n ensures log[m].key != key { assert log[..n][m] == log[m]; }
  }

  /** Along a run of creations and swaps the generations at a key strictly increase. */
  lemma {:induction false} GenerationsIncrease(log: Log, key: Key, i: nat, j: nat)
    requires Legal(log) && OnlyAdvances(log, key) && key.PointerKey?
    requires i < j < |log| && WritesPointer(log[i], key) && WritesPointer(log[j], key)
    ensures log[i].doc.pointer.generation.generation < log[j].doc.pointer.generation.generation
    decreases j
  {
    assert log[..i + 1] == log[..i] + [log[i]];
    LookupAppend(log[..i], log[i], key);
    Persists(log, key, i + 1, j);
    var w := LiveWrite(log, key, j);
    if i < w { GenerationsIncrease(log, key, i, w); }
  }

  lemma SameGenerationSameWrite(log: Log, key: Key, x: nat, y: nat)
    requires Legal(log) && OnlyAdvances(log, key) && key.PointerKey?
    requires x < |log| && y < |log| && WritesPointer(log[x], key) && WritesPointer(log[y], key)
    ensures x != y ==> log[x].doc.pointer.generation != log[y].doc.pointer.generation
    ensures x < y ==> log[x].doc.pointer.generation.generation < log[y].doc.pointer.generation.generation
  {
    if x < y { GenerationsIncrease(log, key, x, y); }
    if y < x { GenerationsIncrease(log, key, y, x); }
  }

  /** `next` was the write that replaced the record `expected`. */
  predicate Swapped(log: Log, key: Key, expected: PointerRecord, next: LatestPointer) {
    exists j :: 0 <= j < |log| && WritesPointer(log[j], key) && log[j].doc.pointer == next
                && IsLive(log[..j], key, expected)
  }

  /** A record is replaced at most once, in any run. */
  lemma SwappedOnce(log: Log, key: Key, expected: PointerRecord, next: LatestPointer, next': LatestPointer)
    requires Swapped(log, key, expected, next) && Swapped(log, key, expected, next')
    ensures next == next'
  {
    var j :| 0 <= j < |log| && WritesPointer(log[j], key) && log[j].doc.pointer == next &&
        IsLive(log[..j], key, expected);
    var k :| 0 <= k < |log| && WritesPointer(log[k], key) && log[k].doc.pointer == next' &&
        IsLive(log[..k], key, expected);
    LookupWitness(log[..j], key);
    LookupWitness(log[..k], key);
    if j < k { RevisionGone(log, key, expected.rev, j, k); }
    if k < j { RevisionGone(log, key, expected.rev, k, j); }
  }

  /** A swap whose own write was ambiguous reports success when, having seen `expected` live at `i`, it
    * reads `next` at `j`. */
  predicate ReadBack(log: Log, key: Key, i: nat, j: nat, expected: PointerRecord, next: LatestPointer) {
    && i <= j <= |log| && IsLive(log[..i], key, expected) && Advances(expected.pointer, next)
    && Lookup(log[..j], key).Some? && Lookup(log[..j], key).value.doc == PointerDoc(next)
  }

  /** While nobody selects an older generation, a read-back is proof that `next` replaced `expected`. */
  lemma ReadBackIsSwap(log: Log, key: Key, i: nat, j: nat, expected: PointerRecord, next: LatestPointer)
    requires Legal(log) && OnlyAdvances(log, key) && key.PointerKey?
    requires ReadBack(log, key, i, j, expected, next)
    ensures Swapped(log, key, expected, next)
  {
    var e := LiveWrite(log, key, i);
    var w := LiveWrite(log, key, j);
    if w < e { SameGenerationSameWrite(log, key, w, e); }
    assert i <= w;
    Persists(log, key, i, w);
    var x := LiveWrite(log, key, w);
    assert Advances(log[x].doc.pointer, log[w].doc.pointer);
    SameGenerationSameWrite(log, key, x, e);
    assert IsLive(log[..w], key, expected);
  }

  /** Two swaps from one record that both report success, by write or by read-back, committed the same
    * document. */
  lemma SuccessfulSwapsAgree(log: Log, key: Key, expected: PointerRecord, next: LatestPointer, next': LatestPointer)
    requires Legal(log) && OnlyAdvances(log, key) && key.PointerKey?
    requires Swapped(log, key, expected, next) || exists i, j :: ReadBack(log, key, i, j, expected, next)
    requires Swapped(log, key, expected, next') || exists i, j :: ReadBack(log, key, i, j, expected, next')
    ensures next == next'
  {
    if !Swapped(log, key, expected, next) {
      var i, j :| ReadBack(log, key, i, j, expected, next);
      ReadBackIsSwap(log, key, i, j, expected, next);
    }
    if !Swapped(log, key, expected, next') {
      var i, j :| ReadBack(log, key, i, j, expected, next');
      ReadBackIsSwap(log, key, i, j, expected, next');
    }
    SwappedOnce(log, key, expected, next, next');
  }

  /** A further write, after which an old swap from `expected` reads back something other than `next`. */
  ghost predicate Disagrees(log: Log, key: Key, i: nat, expected: PointerRecord, next: LatestPointer, e: Event) {
    && Legal(log + [e]) && WritesPointer(e, key) && e.doc.pointer != next
    && ReadBack(log + [e], key, i, |log| + 1, expected, e.doc.pointer)
  }

  /** A further write of `p`, with the pointer at `live`. */
  lemma FurtherWrite(log: Log, key: Key, i: nat, expected: PointerRecord, live: PointerRecord, p: LatestPointer)
    requires Legal(log) && key.PointerKey? && i <= |log| && IsLive(log[..i], key, expected) && IsLive(log, key, live)
    ensures var e := Put(0, key, PointerDoc(p));
            && (ReadBack(log + [e], key, i, |log| + 1, expected, p) <==> Advances(expected.pointer, p))
            && (Legal(log + [e]) <==>
                  ValidPointer(p, key.capsule, key.lineage) &&
                  (Advances(live.pointer, p) || RollsBack(live.pointer, p)))
  {
    var e := Put(0, key, PointerDoc(p));
    var more := log + [e];
    assert more[..i] == log[..i] && more[..|log|] == log && more[..|log| + 1] == more;
    LookupAppend(log, e, key);
    if Legal(more) { assert StepAt(more, |log|); }
    if Step(log, e) { LegalExtend(log, e); }
  }

  /** The exact condition under which a further swap can break the agreement on what replaced `expected`: the live
    * generation is `expected`'s, because nothing replaced it yet or after a rollback. */
  lemma SwapDisagreesIff(log: Log, key: Key, i: nat, expected: PointerRecord, live: PointerRecord, next: LatestPointer)
    requires Legal(log) && key.PointerKey? && i <= |log| && IsLive(log[..i], key, expected) && IsLive(log, key, live)
    requires ValidPointer(next, key.capsule, key.lineage) && Advances(expected.pointer, next)
    ensures (exists p ::
             Disagrees(log, key, i, expected, next, Put(0, key, PointerDoc(p))) && Advances(live.pointer, p))
            <==> live.pointer.generation == expected.pointer.generation
  {
    if live.pointer.generation == expected.pointer.generation {
      var p := next.(session := next.session + "'");
      FurtherWrite(log, key, i, expected, live, p);
      assert |p.session| == |next.session| + 1;
      assert Disagrees(log, key, i, expected, next, Put(0, key, PointerDoc(p)));
    }
    if p :| Disagrees(log, key, i, expected, next, Put(0, key, PointerDoc(p))) && Advances(live.pointer, p) {
      FurtherWrite(log, key, i, expected, live, p);
    }
  }

  /** ... and under which a further rollback can: the live generation is at least two past `expected`'s. */
  lemma RollbackDisagreesIff(log: Log, key: Key, i: nat, expected: PointerRecord, live: PointerRecord,
                             next: LatestPointer)
    requires Legal(log) && key.PointerKey? && i <= |log| && IsLive(log[..i], key, expected) && IsLive(log, key, live)
    requires ValidPointer(next, key.capsule, key.lineage) && Advances(expected.pointer, next)
    ensures (exists p ::
             Disagrees(log, key, i, expected, next, Put(0, key, PointerDoc(p))) && RollsBack(live.pointer, p))
            <==> live.pointer.generation.generation >= expected.pointer.generation.generation + 2
  {
    if live.pointer.generation.generation >= expected.pointer.generation.generation + 2 {
      var ref := GenerationRef(expected.pointer.generation.generation + 1, next.generation.sha);
      var p := next.(session := next.session + "'", generation := ref, objectKey := ArchiveKey(key.capsule, ref));
      FurtherWrite(log, key, i, expected, live, p);
      assert |p.session| == |next.session| + 1;
      assert Disagrees(log, key, i, expected, next, Put(0, key, PointerDoc(p)));
    }
    if p :| Disagrees(log, key, i, expected, next, Put(0, key, PointerDoc(p))) && RollsBack(live.pointer, p) {
      FurtherWrite(log, key, i, expected, live, p);
    }
  }

  function SampleRef(generation: nat, digit: char): GenerationRef {
    GenerationRef(generation, seq(64, _ => digit))
  }

  function SamplePointer(ref: GenerationRef, parent: Option<GenerationRef>): LatestPointer {
    LatestPointer(SCHEMA_VERSION, "c", Lineage("main"), ref, parent, ArchiveKey("c", ref), 0, 1, NO_TOOLS, "s")
  }

  lemma SampleIsValid(ref: GenerationRef, parent: Option<GenerationRef>)
    requires ValidRef(ref) && ValidParent(ref, parent)
    ensures ValidPointer(SamplePointer(ref, parent), "c", Lineage("main"))
  {
    assert ValidSegment("c") && ValidSegment("main");
  }

  /** A create, a swap, a rollback to the created record, and a different swap. */
  lemma SampleHistory(p: LatestPointer, n: LatestPointer, n': LatestPointer)
    returns (log: Log)
    requires ValidPointer(p, "c", Lineage("main")) && ValidPointer(n, "c", Lineage("main")) &&
             ValidPointer(n', "c", Lineage("main"))
    requires p.parent.None? && Advances(p, n) && Advances(p, n')
    ensures |log| == 4 && Legal(log)
    ensures var key := PointerKey("c", Lineage("main"));
            log[1] == Put(0, key, PointerDoc(n)) && IsLive(log[..1], key, PointerRecord(p, 1)) &&
                IsLive(log, key, PointerRecord(n', 4))
  {
    var key := PointerKey("c", Lineage("main"));
    var e1, e2, e4 := Put(0, key, PointerDoc(p)), Put(0, key, PointerDoc(n)), Put(0, key, PointerDoc(n'));
    var l1, l2, l3 := [e1], [e1, e2], [e1, e2, e1];
    log := [e1, e2, e1, e4];
    assert l1 == [] + [e1] && l2 == l1 + [e2] && l3 == l2 + [e1] && log == l3 + [e4];
    LookupAppend([], e1, key);
    LookupAppend(l1, e2, key);
    LookupAppend(l2, e1, key);
    LookupAppend(l3, e4, key);
    LegalExtend([], e1);
    LegalExtend(l1, e2);
    LegalExtend(l2, e1);
    LegalExtend(l3, e4);
    assert log[..1] == l1;
  }

  /** With a rollback in the run the agreement fails: after the record is replaced, selected again and
    * replaced differently, an old ambiguous swap reads back the second replacement. */
  lemma RollbackBreaksAgreement() returns (log: Log, expected: PointerRecord, next: LatestPointer, next': LatestPointer)
    ensures var key := PointerKey("c", Lineage("main"));
            && Legal(log) && Swapped(log, key, expected, next) && ReadBack(log, key, 1, 4, expected, next') &&
                next != next'
  {
    var key := PointerKey("c", Lineage("main"));
    var g1, g2, g3 := SampleRef(1, 'a'), SampleRef(2, 'b'), SampleRef(2, 'c');
    var p1 := SamplePointer(g1, None);
    next, next' := SamplePointer(g2, Some(g1)), SamplePointer(g3, Some(g1));
    expected := PointerRecord(p1, 1);
    SampleIsValid(g1, None);
    SampleIsValid(g2, Some(g1));
    SampleIsValid(g3, Some(g1));
    log := SampleHistory(p1, next, next');
    assert log[..4] == log && g2.sha[0] != g3.sha[0];
    assert IsLive(log[..1], key, expected);
  }
}

/** What holds of every legal run of lease writes. */
module LeaseRuns {
  import opened Domain
  import opened History

  datatype LeaseToken = LeaseToken(lease: WriterLease, rev: nat)

  predicate Held(log: Log, key: Key, token: LeaseToken) {
    Lookup(log, key) == Some(Object(LeaseDoc(token.lease), token.rev))
  }

  /** What Revalidate accepts at one instant of the store and one reading of a clock. */
  predicate Accepted(log: Log, key: Key, token: LeaseToken, now: Time) {
    now != 0 && token.lease.heartbeatAt <= now < token.lease.expiresAt && Held(log, key, token)
  }

  /** The write at `k` ends the tenure of the lease before it: a delete of that very revision, or a lease
    * created no earlier than the old one expired. */
  predicate EndsTenure(log: Log, key: Key, k: nat, holder: LeaseToken)
    requires k < |log|
  {
    && Held(log[..k], key, holder) && log[k].key == key
    && match log[k]
       case Del(_, _, rev) => rev == holder.rev
       case Put(_, _, doc) => doc.LeaseDoc? && holder.lease.expiresAt <= doc.lease.createdAt
  }

  lemma LeaseAt(log: Log, key: Key, k: nat)
    requires Legal(log) && key.LeaseKey? && k < |log|
    requires Lookup(log[..k], key).Some?
    ensures Lookup(log[..k], key).value.doc.LeaseDoc?
    ensures ValidLease(Lookup(log[..k], key).value.doc.lease, key.capsule, key.lineage)
    ensures Lookup(log[..k + 1], key) ==
            (if log[k].key != key then Lookup(log[..k], key)
             else if log[k].Put? then Some(Object(log[k].doc, k + 1)) else None)
    ensures Step(log[..k], log[k])
  {
    assert StepAt(log, k);
    LegalPrefix(log, k);
    LookupTyped(log[..k], key);
    assert log[..k + 1] == log[..k] + [log[k]];
    LookupAppend(log[..k], log[k], key);
  }

  /** Over every run, a lease passes from one session to another only after a lease of the first session
    * was released, or was replaced by a lease created at or after its expiry. */
  lemma {:induction false} Exclusion(log: Log, key: Key, i: nat, j: nat, first: LeaseToken, later: LeaseToken)
    returns (k: nat, holder: LeaseToken)
    requires Legal(log) && key.LeaseKey? && i <= j <= |log|
    requires Held(log[..i], key, first) && Held(log[..j], key, later)
    requires first.lease.session != later.lease.session
    ensures i <= k < j && holder.lease.session == first.lease.session && EndsTenure(log, key, k, holder)
    decreases j - i
  {
    LeaseAt(log, key, i);
    if log[i].key != key {
      k, holder := Exclusion(log, key, i + 1, j, first, later);
    } else if log[i].Put? && Renews(first.lease, log[i].doc.lease) {
      k, holder := Exclusion(log, key, i + 1, j, LeaseToken(log[i].doc.lease, i + 1), later);
    } else {
      k, holder := i, first;
    }
  }

  predicate NoRelease(log: Log, key: Key, i: nat, j: nat)
    requires i <= j <= |log|
  {
    forall m | i <= m < j :: log[m].key == key ==> log[m].Put?
  }

  /** No renewal between `i` and `j` brings an expiry forward. */
  predicate RenewalsExtend(log: Log, key: Key, i: nat, j: nat)
    requires i <= j <= |log|
  {
    forall m | i <= m < j && log[m].key == key && log[m].Put? && log[m].doc.LeaseDoc? ::
      var before := Lookup(log[..m], key);
      before.Some? && before.value.doc.LeaseDoc? && Renews(before.value.doc.lease, log[m].doc.lease) ==>
        before.value.doc.lease.expiresAt <= log[m].doc.lease.expiresAt
  }

  lemma {:induction false} CreationsOrdered(log: Log, key: Key, i: nat, j: nat, first: LeaseToken, later: LeaseToken)
    requires Legal(log) && key.LeaseKey? && i <= j <= |log| && NoRelease(log, key, i, j)
    requires Held(log[..i], key, first) && Held(log[..j], key, later)
    ensures first.lease.createdAt <= later.lease.createdAt
    decreases j - i
  {
    if i < j {
      LeaseAt(log, key, i);
      var next := if log[i].key != key then first else LeaseToken(log[i].doc.lease, i + 1);
      CreationsOrdered(log, key, i + 1, j, next, later);
    }
  }

  /** Without a release, the first session's last lease had expired by the time the later one was created. */
  lemma {:induction false} TakeoverAfterExpiry(log: Log, key: Key, i: nat, j: nat, first: LeaseToken, later: LeaseToken)
    requires Legal(log) && key.LeaseKey? && i <= j <= |log|
    requires NoRelease(log, key, i, j) && RenewalsExtend(log, key, i, j)
    requires Held(log[..i], key, first) && Held(log[..j], key, later)
    requires first.lease.session != later.lease.session
    ensures first.lease.expiresAt <= later.lease.createdAt
    decreases j - i
  {
    LeaseAt(log, key, i);
    if log[i].key != key {
      TakeoverAfterExpiry(log, key, i + 1, j, first, later);
    } else {
      var next := LeaseToken(log[i].doc.lease, i + 1);
      if Renews(first.lease, next.lease) {
        TakeoverAfterExpiry(log, key, i + 1, j, next, later);
      } else {
        CreationsOrdered(log, key, i + 1, j, next, later);
      }
    }
  }

  /** Writer exclusion on the clock: when tokens of two sessions are both accepted in one run with no
    * release between, the earlier was accepted at a strictly earlier reading, whatever the clock skew.
    * At one instant of the store only one token is accepted at all. */
  lemma AcceptancesOrdered(log: Log, key: Key, i: nat, j: nat, first: LeaseToken, later: LeaseToken, a: Time, b: Time)
    requires Legal(log) && key.LeaseKey? && i <= j <= |log|
    requires NoRelease(log, key, i, j) && RenewalsExtend(log, key, i, j)
    requires Accepted(log[..i], key, first, a) && Accepted(log[..j], key, later, b)
    ensures i == j ==> first == later
    ensures first.lease.session != later.lease.session ==> a < b
  {
    if first.lease.session != later.lease.session {
      TakeoverAfterExpiry(log, key, i, j, first, later);
      LegalPrefix(log, j);
      LookupTyped(log[..j], key);
    }
  }

  /** After a further write, another session's token is accepted at a reading that `first` was accepted at. */
  ghost predicate Overlaps(log: Log, key: Key, i: nat, first: LeaseToken, e: Event, later: LeaseToken, now: Time)
    requires i <= |log|
  {
    && Legal(log + [e]) && Accepted(log[..i], key, first, now) && Accepted(log + [e], key, later, now)
    && later.lease.session != first.lease.session
  }

  /** The exact condition on a renewal, which a caller can check before it renews: someone else can be accepted at a
    * reading at which the renewed lease was, if and only if the renewal brings the expiry forward. */
  lemma RenewalOverlapsIff(log: Log, key: Key, i: nat, first: LeaseToken, renewed: LeaseToken)
    requires Legal(log) && key.LeaseKey? && |log| == i + 1 && log[i].key == key
    requires Held(log[..i], key, first) && Held(log, key, renewed) && Renews(first.lease, renewed.lease)
    ensures (exists e, later, now :: Overlaps(log, key, i, first, e, later, now))
            <==> renewed.lease.expiresAt < first.lease.expiresAt
  {
    LeaseAt(log, key, i);
    assert log[..i + 1] == log;
    LookupTyped(log, key);
    if renewed.lease.expiresAt < first.lease.expiresAt {
      Takeover(log, key, i, first, renewed);
    }
    if e, later, now :| Overlaps(log, key, i, first, e, later, now) {
      var more := log + [e];
      assert more[..|log|] == log && StepAt(more, |log|);
      LookupAppend(log, e, key);
    }
  }

  lemma Takeover(log: Log, key: Key, i: nat, first: LeaseToken, renewed: LeaseToken)
    requires Legal(log) && key.LeaseKey? && |log| == i + 1
    requires Held(log[..i], key, first) && Held(log, key, renewed) && Renews(first.lease, renewed.lease)
    requires ValidLease(first.lease, key.capsule, key.lineage) && ValidLease(renewed.lease, key.capsule, key.lineage)
    requires renewed.lease.expiresAt < first.lease.expiresAt
    ensures exists e, later, now :: Overlaps(log, key, i, first, e, later, now)
  {
    var now := renewed.lease.expiresAt;
    var lease := first.lease.(session := first.lease.session + "'", createdAt := now, heartbeatAt := now,
                              expiresAt := now + 1);
    var e := Put(0, key, LeaseDoc(lease));
    var later := LeaseToken(lease, |log| + 1);
    assert |lease.session| == |first.lease.session| + 1;
    LookupAppend(log, e, key);
    LegalExtend(log, e);
    assert Overlaps(log, key, i, first, e, later, now);
  }

  /** The renewal condition is needed: a renewal by a clock that reads earlier may shorten a lease, and a
    * taker is then accepted at a reading at which the first holder had been accepted before. */
  lemma ShorteningBreaksOrder() returns (log: Log, key: Key, first: LeaseToken, later: LeaseToken, now: Time)
    ensures Legal(log) && |log| == 3 && key.LeaseKey? && NoRelease(log, key, 1, 3)
    ensures Accepted(log[..1], key, first, now) && Accepted(log[..3], key, later, now)
    ensures first.lease.session != later.lease.session
  {
    key := LeaseKey("c", Lineage("main"));
    var l1 := WriterLease(SCHEMA_VERSION, "c", Lineage("main"), "s", "m", None, 10, 10, 100);
    var l2 := l1.(expiresAt := 20);
    var l3 := l1.(session := "t", createdAt := 30, heartbeatAt := 30, expiresAt := 200);
    first, later, now := LeaseToken(l1, 1), LeaseToken(l3, 3), 50;
    var e1, e2, e3 := Put(0, key, LeaseDoc(l1)), Put(0, key, LeaseDoc(l2)), Put(1, key, LeaseDoc(l3));
    log := [e1, e2, e3];
    assert [e1] == [] + [e1] && [e1, e2] == [e1] + [e2] && log == [e1, e2] + [e3];
    LookupAppend([], e1, key);
    LookupAppend([e1], e2, key);
    LookupAppend([e1, e2], e3, key);
    assert ValidSegment("c") && ValidSegment("main");
    LegalExtend([], e1);
    LegalExtend([e1], e2);
    LegalExtend([e1, e2], e3);
    assert log[..1] == [e1] && log[..3] == log;
  }
}
