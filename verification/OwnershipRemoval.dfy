/** Removal of an owned materialization: quarantine by rename, proof of ownership, and an unlink order that keeps
  * the ownership marker until last.
  *
  * A directory listing is a sequence in the order the system returns it. Any step may fail, which also stands for
  * an interruption at that step. */
module OwnershipRemoval {
  import opened Domain

  datatype Marker = Marker(token: string, canonicalPath: string, device: nat, inode: nat)

  datatype Node =
    | File(device: nat, inode: nat, links: nat, marker: Option<Marker>)
    | Dir(device: nat, inode: nat, entries: seq<Entry>)

  datatype Entry = Entry(name: string, node: Node)

  // ---------------------------------------------------------------- order of removal

  function Priority(name: string): (p: nat)
    ensures p < 4
  {
    if name == "ownership.json" then 3 else if name == "runtime" then 2 else if name == ".camp" then 1 else 0
  }

  function Bucket(es: seq<Entry>, p: nat): seq<Entry> {
    if es == [] then []
    else (if Priority(es[0].name) == p then [es[0]] else []) + Bucket(es[1..], p)
  }

  /** The stable sort by priority: each priority's entries in listing order. */
  function Sorted(es: seq<Entry>): seq<Entry> { Bucket(es, 0) + Bucket(es, 1) + Bucket(es, 2) + Bucket(es, 3) }

  lemma {:induction false} BucketIn(es: seq<Entry>, p: nat, e: Entry)
    ensures e in Bucket(es, p) <==> e in es && Priority(e.name) == p
  {
    if es != [] { BucketIn(es[1..], p, e); }
  }

  lemma SortedIn(es: seq<Entry>, e: Entry)
    ensures e in Sorted(es) <==> e in es
  {
    BucketIn(es, 0, e);
    BucketIn(es, 1, e);
    BucketIn(es, 2, e);
    BucketIn(es, 3, e);
  }

  // ---------------------------------------------------------------- measures of a tree

  function Larger(a: nat, b: nat): nat { if a < b then b else a }

  function Height(n: Node): nat {
    if n.File? then 0 else 1 + MaxHeight(n.entries)
  }

  function MaxHeight(es: seq<Entry>): nat {
    if es == [] then 0 else Larger(Height(es[0].node), MaxHeight(es[1..]))
  }

  lemma {:induction false} HeightIn(es: seq<Entry>, e: Entry)
    requires e in es
    ensures Height(e.node) <= MaxHeight(es)
  {
    if e != es[0] { HeightIn(es[1..], e); }
  }

  lemma {:induction false} HeightBound(es: seq<Entry>, h: nat)
    requires forall e :: e in es ==> Height(e.node) <= h
    ensures MaxHeight(es) <= h
  {
    if es != [] { HeightBound(es[1..], h); }
  }

  lemma SortedHeight(es: seq<Entry>)
    ensures MaxHeight(Sorted(es)) <= MaxHeight(es)
  {
    forall e | e in Sorted(es) ensures Height(e.node) <= MaxHeight(es) {
      SortedIn(es, e);
      HeightIn(es, e);
    }
    HeightBound(Sorted(es), MaxHeight(es));
  }

  /** How many unlinks remove an entry, and a listing. */
  function Steps(n: Node): (k: nat)
    ensures k >= 1
  {
    if n.File? then 1 else 1 + ListSteps(n.entries)
  }

  function ListSteps(es: seq<Entry>): nat {
    if es == [] then 0 else Steps(es[0].node) + ListSteps(es[1..])
  }

  lemma {:induction false} StepsAppend(a: seq<Entry>, b: seq<Entry>)
    ensures ListSteps(a + b) == ListSteps(a) + ListSteps(b)
  {
    if a == [] {
      assert a + b == b;
    } else {
      assert (a + b)[1..] == a[1..] + b;
      StepsAppend(a[1..], b);
    }
  }

  function BucketSteps(es: seq<Entry>, p: nat): nat { ListSteps(Bucket(es, p)) }

  lemma BucketHead(es: seq<Entry>, p: nat)
    requires es != []
    ensures BucketSteps(es, p) == BucketSteps(es[1..], p) + if Priority(es[0].name) == p then Steps(es[0].node) else 0
  {
    StepsAppend(if Priority(es[0].name) == p then [es[0]] else [], Bucket(es[1..], p));
    assert ListSteps([es[0]]) == Steps(es[0].node);
  }

  lemma {:induction false} StepsByBucket(es: seq<Entry>)
    ensures ListSteps(es) == BucketSteps(es, 0) + BucketSteps(es, 1) + BucketSteps(es, 2) + BucketSteps(es, 3)
  {
    if es != [] {
      StepsByBucket(es[1..]);
      BucketHead(es, 0);
      BucketHead(es, 1);
      BucketHead(es, 2);
      BucketHead(es, 3);
    }
  }

  lemma SortedSteps(es: seq<Entry>)
    ensures ListSteps(Sorted(es)) == ListSteps(es)
  {
    StepsByBucket(es);
    StepsAppend(Bucket(es, 0) + Bucket(es, 1) + Bucket(es, 2), Bucket(es, 3));
    StepsAppend(Bucket(es, 0) + Bucket(es, 1), Bucket(es, 2));
    StepsAppend(Bucket(es, 0), Bucket(es, 1));
  }

  // ---------------------------------------------------------------- the tree after some unlinks

  /** What is left of a listing, taken in the given order, after `k` unlinks. */
  function Left(es: seq<Entry>, k: nat): seq<Entry>
    requires k <= ListSteps(es)
    decreases MaxHeight(es), |es| + 2
  {
    if es == [] then []
    else
      var n := Steps(es[0].node);
      if k >= n then Left(es[1..], k - n) else [LeftOf(es[0], k)] + es[1..]
  }

  function LeftOf(e: Entry, k: nat): Entry
    requires k < Steps(e.node)
    decreases Height(e.node), 1
  {
    match e.node
    case File(_, _, _, _) => e
    case Dir(device, inode, entries) => e.(node := Dir(device, inode, Remaining(entries, k)))
  }

  /** What is left of a directory after `k` unlinks in the order of removal. */
  function Remaining(es: seq<Entry>, k: nat): seq<Entry>
    requires k <= ListSteps(es)
    decreases MaxHeight(es) + 1, 0
  {
    SortedHeight(es);
    SortedSteps(es);
    if k == 0 then es else Left(Sorted(es), k)
  }

  lemma {:induction false} LeftAppend(a: seq<Entry>, b: seq<Entry>, k: nat)
    requires k <= ListSteps(a + b) && ListSteps(a + b) == ListSteps(a) + ListSteps(b)
    ensures Left(a + b, k) == if k < ListSteps(a) then Left(a, k) + b else Left(b, k - ListSteps(a))
    decreases |a|
  {
    if a == [] {
      assert a + b == b;
    } else {
      assert (a + b)[1..] == a[1..] + b && (a + b)[0] == a[0];
      StepsAppend(a[1..], b);
      if k >= Steps(a[0].node) { LeftAppend(a[1..], b, k - Steps(a[0].node)); }
    }
  }

  // ---------------------------------------------------------------- the marker

  predicate Distinct(es: seq<Entry>) { forall i, j :: 0 <= i < j < |es| ==> es[i].name != es[j].name }

  predicate Has(es: seq<Entry>, name: string) { exists i :: 0 <= i < |es| && es[i].name == name }

  function Find(es: seq<Entry>, name: string): (r: Option<Node>)
    ensures r.Some? <==> Has(es, name)
    ensures r.Some? ==> Entry(name, r.value) in es
  {
    if es == [] then None
    else if es[0].name == name then assert es[0] in es; Some(es[0].node)
    else
      var r := Find(es[1..], name);
      assert Has(es[1..], name) ==> Has(es, name);
      assert r.Some? ==> Entry(name, r.value) in es[1..];
      r
  }

  /** The listing of a subdirectory, if there is one. */
  function Subdirectory(es: seq<Entry>, name: string): Option<seq<Entry>> {
    var n := Find(es, name);
    if n.Some? && n.value.Dir? then Some(n.value.entries) else None
  }

  /** `.camp/runtime/ownership.json` is a single-linked regular file that holds the expected marker. */
  predicate HoldsMarker(es: seq<Entry>, want: Marker) {
    var camp := Subdirectory(es, ".camp");
    camp.Some? &&
    var runtime := Subdirectory(camp.value, "runtime");
    runtime.Some? &&
    var file := Find(runtime.value, "ownership.json");
    file.Some? && file.value.File? && file.value.links == 1 && file.value.marker == Some(want)
  }

  /** At most one entry, of this name, a directory whose own listing satisfies nothing more. */
  predicate OnlyChain(es: seq<Entry>) {
    es == [] || (|es| == 1 && es[0].name == ".camp" && es[0].node.Dir? && OnlyRuntime(es[0].node.entries))
  }

  predicate OnlyRuntime(es: seq<Entry>) {
    es == [] || (|es| == 1 && es[0].name == "runtime" && es[0].node.Dir? && OnlyMarker(es[0].node.entries))
  }

  predicate OnlyMarker(es: seq<Entry>) { es == [] || (|es| == 1 && es[0].name == "ownership.json") }

  /** Nothing outranks `.camp` beside it, nor `runtime` beside it. */
  predicate Guarded(es: seq<Entry>)
    requires Subdirectory(es, ".camp").Some?
  {
    && !Has(es, "runtime") && !Has(es, "ownership.json")
    && !Has(Subdirectory(es, ".camp").value, "ownership.json")
  }

  /** An entry whose name has its own priority is alone in its bucket. */
  lemma {:induction false} Alone(es: seq<Entry>, e: Entry)
    requires Distinct(es) && e in es && Priority(e.name) > 0
    ensures Bucket(es, Priority(e.name)) == [e]
  {
    var p := Priority(e.name);
    if es[0] == e {
      assert !Has(es[1..], e.name);
      NoneInBucket(es[1..], p);
    } else {
      assert es[0].name != e.name by {
        var i :| 0 <= i < |es| && es[i] == e;
        assert i > 0;
      }
      assert e in es[1..];
      Alone(es[1..], e);
    }
  }

  lemma {:induction false} NoneInBucket(es: seq<Entry>, p: nat)
    requires forall i :: 0 <= i < |es| ==> Priority(es[i].name) != p
    ensures Bucket(es, p) == []
  {
    if es != [] { NoneInBucket(es[1..], p); }
  }

  /** The entries removed before, and after, those of priority `p`. */
  function Before(es: seq<Entry>, p: nat): seq<Entry> {
    if p <= 1 then Bucket(es, 0)
    else if p == 2 then Bucket(es, 0) + Bucket(es, 1)
    else Bucket(es, 0) + Bucket(es, 1) + Bucket(es, 2)
  }

  function After(es: seq<Entry>, p: nat): seq<Entry> {
    if p <= 1 then Bucket(es, 2) + Bucket(es, 3) else if p == 2 then Bucket(es, 3) else []
  }

  lemma SplitAt(es: seq<Entry>, e: Entry)
    requires Distinct(es) && e in es && Priority(e.name) > 0
    ensures Sorted(es) == Before(es, Priority(e.name)) + [e] + After(es, Priority(e.name))
  {
    Alone(es, e);
    Regroup(Bucket(es, 0), Bucket(es, 1), Bucket(es, 2), Bucket(es, 3));
  }

  lemma Regroup<T>(a: seq<T>, b: seq<T>, c: seq<T>, d: seq<T>)
    ensures a + b + c + d == a + b + (c + d)
    ensures a + b + c + d == a + b + c + d + []
  {}

  lemma AroundIn(es: seq<Entry>, p: nat, e: Entry)
    requires 0 < p < 4
    ensures e in Before(es, p) <==> e in es && Priority(e.name) < p
    ensures e in After(es, p) <==> e in es && Priority(e.name) > p
  {
    BucketIn(es, 0, e);
    BucketIn(es, 1, e);
    BucketIn(es, 2, e);
    BucketIn(es, 3, e);
  }

  /** What is left of a list while the entries before `e`, `e` itself, or those after it are being removed. */
  lemma LeftSplit(a: seq<Entry>, e: Entry, b: seq<Entry>, k: nat)
    requires k <= ListSteps(a + [e] + b)
    ensures var n, m := ListSteps(a), Steps(e.node);
            && ListSteps(a + [e] + b) == n + m + ListSteps(b)
            && Left(a + [e] + b, k) == if k < n then Left(a, k) + [e] + b
                                       else if k < n + m then [LeftOf(e, k - n)] + b
                                       else Left(b, k - n - m)
  {
    StepsAppend(a + [e], b);
    StepsAppend(a, [e]);
    LeftAppend(a + [e], b, k);
    if k < ListSteps(a) + Steps(e.node) { LeftAppend(a, [e], k); }
  }

  /** The tree while the entries before `e`, `e` itself, or those after it are being removed. */
  lemma LeftAround(es: seq<Entry>, e: Entry, k: nat)
    requires Distinct(es) && e in es && Priority(e.name) > 0 && k <= ListSteps(es)
    ensures ListSteps(Sorted(es)) == ListSteps(es)
    ensures var a, b := Before(es, Priority(e.name)), After(es, Priority(e.name));
            var n, m := ListSteps(a), Steps(e.node);
            && ListSteps(es) == n + m + ListSteps(b)
            && Left(Sorted(es), k) == if k < n then Left(a, k) + [e] + b
                                      else if k < n + m then [LeftOf(e, k - n)] + b
                                      else Left(b, k - n - m)
  {
    SplitAt(es, e);
    SortedSteps(es);
    LeftSplit(Before(es, Priority(e.name)), e, After(es, Priority(e.name)), k);
  }

  lemma {:induction false} LeftNames(es: seq<Entry>, k: nat, name: string)
    requires k <= ListSteps(es)
    ensures Has(Left(es, k), name) ==> Has(es, name)
    decreases |es|
  {
    if es != [] {
      var n := Steps(es[0].node);
      var rest := es[1..];
      if k >= n {
        LeftNames(rest, k - n, name);
        if Has(rest, name) {
          var i :| 0 <= i < |rest| && rest[i].name == name;
          assert es[i + 1].name == name;
        }
      } else if Has(Left(es, k), name) {
        var i :| 0 <= i < |Left(es, k)| && Left(es, k)[i].name == name;
        assert LeftOf(es[0], k).name == es[0].name;
        assert es[i].name == name;
      }
    }
  }

  lemma {:induction false} FindLast(a: seq<Entry>, e: Entry)
    requires !Has(a, e.name)
    ensures Find(a + [e], e.name) == Some(e.node)
  {
    if a == [] {
      assert a + [e] == [e];
    } else {
      assert a[0].name != e.name && (a + [e])[1..] == a[1..] + [e];
      FindLast(a[1..], e);
    }
  }

  /** While anything ranked lower is left, the entry ranked highest is untouched; then it is alone. */
  lemma LastStands(es: seq<Entry>, e: Entry, k: nat)
    requires Distinct(es) && e in es && Priority(e.name) > 0 && After(es, Priority(e.name)) == []
    requires k <= ListSteps(es)
    ensures var n := ListSteps(es) - Steps(e.node);
            && n >= 0 && ListSteps(Sorted(es)) == ListSteps(es)
            && (k < n ==> Find(Left(Sorted(es), k), e.name) == Some(e.node))
            && (n <= k < ListSteps(es) ==> Left(Sorted(es), k) == [LeftOf(e, k - n)])
            && (k == ListSteps(es) ==> Left(Sorted(es), k) == [])
  {
    LeftAround(es, e, k);
    var a := Before(es, Priority(e.name));
    if k < ListSteps(a) {
      assert !Has(a, e.name) by {
        if Has(a, e.name) {
          var i :| 0 <= i < |a| && a[i].name == e.name;
          AroundIn(es, Priority(e.name), a[i]);
        }
      }
      LeftNames(a, k, e.name);
      FindLast(Left(a, k), e);
      assert Left(a, k) + [e] + [] == Left(a, k) + [e];
    }
  }

  /** No directory lists a name twice, along the chain to the marker. */
  predicate WellNamed(es: seq<Entry>, want: Marker)
    requires HoldsMarker(es, want)
  {
    var camp := Subdirectory(es, ".camp").value;
    Distinct(es) && Distinct(camp) && Distinct(Subdirectory(camp, "runtime").value)
  }

  /** A well-named listing that holds the marker with nothing outranking the chain, level by level. */
  predicate RuntimeOk(rs: seq<Entry>, want: Marker) {
    var file := Find(rs, "ownership.json");
    Distinct(rs) && file.Some? && file.value.File? && file.value.links == 1 && file.value.marker == Some(want)
  }

  predicate CampOk(cs: seq<Entry>, want: Marker) {
    var runtime := Subdirectory(cs, "runtime");
    Distinct(cs) && !Has(cs, "ownership.json") && runtime.Some? && RuntimeOk(runtime.value, want)
  }

  predicate RootOk(es: seq<Entry>, want: Marker) {
    var camp := Subdirectory(es, ".camp");
    Distinct(es) && !Has(es, "runtime") && !Has(es, "ownership.json") && camp.Some? && CampOk(camp.value, want)
  }

  lemma RootOkMeans(es: seq<Entry>, want: Marker)
    ensures RootOk(es, want) <==> HoldsMarker(es, want) && WellNamed(es, want) && Guarded(es)
  {}

  lemma {:induction false} BucketDistinct(es: seq<Entry>, p: nat)
    requires Distinct(es)
    ensures Distinct(Bucket(es, p))
  {
    if es != [] {
      BucketDistinct(es[1..], p);
      var rest := Bucket(es[1..], p);
      forall i | 0 <= i < |rest| ensures rest[i].name != es[0].name {
        BucketIn(es[1..], p, rest[i]);
      }
    }
  }

  lemma SortedDistinct(es: seq<Entry>)
    requires Distinct(es)
    ensures Distinct(Sorted(es))
  {
    forall p: nat ensures Distinct(Bucket(es, p)) { BucketDistinct(es, p); }
    forall p: nat, i: nat | i < |Bucket(es, p)| ensures Priority(Bucket(es, p)[i].name) == p {
      BucketIn(es, p, Bucket(es, p)[i]);
    }
  }

  lemma {:induction false} LeftDistinct(es: seq<Entry>, k: nat)
    requires Distinct(es) && k <= ListSteps(es)
    ensures Distinct(Left(es, k))
    decreases |es|
  {
    if es != [] {
      var n := Steps(es[0].node);
      if k >= n {
        LeftDistinct(es[1..], k - n);
      } else {
        assert LeftOf(es[0], k).name == es[0].name;
      }
    }
  }

  /** Removal adds no name and repeats none. */
  lemma NamesLeft(es: seq<Entry>, k: nat, name: string)
    requires Distinct(es) && k <= ListSteps(es)
    ensures Distinct(Remaining(es, k)) && (Has(Remaining(es, k), name) ==> Has(es, name))
  {
    if k > 0 {
      SortedDistinct(es);
      SortedSteps(es);
      LeftDistinct(Sorted(es), k);
      LeftNames(Sorted(es), k, name);
      if Has(Sorted(es), name) {
        var i :| 0 <= i < |Sorted(es)| && Sorted(es)[i].name == name;
        SortedIn(es, Sorted(es)[i]);
      }
    }
  }

  lemma MarkerInRuntime(rs: seq<Entry>, want: Marker, k: nat)
    requires RuntimeOk(rs, want) && k <= ListSteps(rs)
    ensures ListSteps(rs) >= 1
    ensures k < ListSteps(rs) ==> RuntimeOk(Remaining(rs, k), want)
    ensures k == ListSteps(rs) ==> Remaining(rs, k) == []
  {
    LastStands(rs, Entry("ownership.json", Find(rs, "ownership.json").value), k);
    NamesLeft(rs, k, "");
  }

  lemma MarkerInCamp(cs: seq<Entry>, want: Marker, k: nat)
    requires CampOk(cs, want) && k <= ListSteps(cs)
    ensures ListSteps(cs) >= 2
    ensures k < ListSteps(cs) - 1 ==> CampOk(Remaining(cs, k), want)
    ensures k >= ListSteps(cs) - 1 ==> OnlyRuntime(Remaining(cs, k)) && !HoldsRuntime(Remaining(cs, k))
  {
    var rt := Find(cs, "runtime").value;
    Outranked(cs, "runtime");
    LastStands(cs, Entry("runtime", rt), k);
    NamesLeft(cs, k, "ownership.json");
    var n := ListSteps(cs) - Steps(rt);
    MarkerInRuntime(rt.entries, want, if n <= k < ListSteps(cs) then k - n else 0);
    if n <= k < ListSteps(cs) { FindOnly(LeftOf(Entry("runtime", rt), k - n)); }
  }

  lemma FindOnly(e: Entry)
    ensures Find([e], e.name) == Some(e.node)
  {}

  /** Some marker file is left below `runtime`. */
  predicate HoldsRuntime(cs: seq<Entry>) {
    var runtime := Subdirectory(cs, "runtime");
    runtime.Some? && runtime.value != []
  }

  /** Only names ranked higher come after an entry. */
  lemma Outranked(es: seq<Entry>, name: string)
    requires Priority(name) > 0
    requires name == ".camp" ==> !Has(es, "runtime") && !Has(es, "ownership.json")
    requires name == "runtime" ==> !Has(es, "ownership.json")
    ensures After(es, Priority(name)) == []
  {
    var b := After(es, Priority(name));
    if b != [] { AroundIn(es, Priority(name), b[0]); }
  }

  /** Nothing but `.camp`, holding at most an empty `runtime`. */
  predicate Hollow(es: seq<Entry>) {
    es == [] || (&& |es| == 1 && es[0].name == ".camp" && es[0].node.Dir?
                 && OnlyRuntime(es[0].node.entries) && !HoldsRuntime(es[0].node.entries))
  }

  lemma HollowHoldsNone(es: seq<Entry>, want: Marker)
    requires Hollow(es)
    ensures OnlyChain(es) && !HoldsMarker(es, want)
  {
    if es != [] { assert Find(es, ".camp") == Some(es[0].node); }
  }

  lemma MarkerInRoot(es: seq<Entry>, want: Marker, k: nat)
    requires RootOk(es, want) && k <= ListSteps(es)
    ensures ListSteps(es) >= 3
    ensures k <= ListSteps(es) - 3 ==> RootOk(Remaining(es, k), want)
    ensures k > ListSteps(es) - 3 ==> Hollow(Remaining(es, k))
  {
    var camp := Find(es, ".camp").value;
    Outranked(es, ".camp");
    LastStands(es, Entry(".camp", camp), k);
    NamesLeft(es, k, "runtime");
    NamesLeft(es, k, "ownership.json");
    var n := ListSteps(es) - Steps(camp);
    MarkerInCamp(camp.entries, want, if n <= k < ListSteps(es) then k - n else 0);
    if n <= k < ListSteps(es) { FindOnly(LeftOf(Entry(".camp", camp), k - n)); }
  }

  /** With nothing outranking the chain, the marker is there after exactly all but the last two unlinks, and
    * those two remove the emptied `runtime` and `.camp`. */
  lemma MarkerOutlives(es: seq<Entry>, want: Marker, k: nat)
    requires HoldsMarker(es, want) && WellNamed(es, want) && Guarded(es) && k <= ListSteps(es)
    ensures ListSteps(es) >= 3
    ensures HoldsMarker(Remaining(es, k), want) <==> k <= ListSteps(es) - 3
    ensures k <= ListSteps(es) - 3 ==> RootOk(Remaining(es, k), want)
    ensures k > ListSteps(es) - 3 ==> OnlyChain(Remaining(es, k))
  {
    RootOkMeans(es, want);
    MarkerInRoot(es, want, k);
    RootOkMeans(Remaining(es, k), want);
    if k > ListSteps(es) - 3 { HollowHoldsNone(Remaining(es, k), want); }
  }

  /** Otherwise some interruption loses the marker with more than the chain still there. */
  lemma MarkerLostEarly(es: seq<Entry>, want: Marker) returns (k: nat)
    requires HoldsMarker(es, want) && WellNamed(es, want) && !Guarded(es)
    ensures k <= ListSteps(es)
    ensures !HoldsMarker(Remaining(es, k), want) && !OnlyChain(Remaining(es, k))
  {
    var camp := Find(es, ".camp").value;
    var e := Entry(".camp", camp);
    if After(es, 1) != [] {
      k := OutlivedBy(es, e);
    } else {
      OutrankedIsAfter(es, camp);
      k := LostInCamp(es, camp, want);
    }
  }

  lemma NoneAfter(es: seq<Entry>, name: string)
    requires Priority(name) > 0
    ensures !Has(After(es, Priority(name)), name)
  {
    var b := After(es, Priority(name));
    if Has(b, name) {
      var i :| 0 <= i < |b| && b[i].name == name;
      AroundIn(es, Priority(name), b[i]);
    }
  }

  lemma NoneLeft(es: seq<Entry>, name: string)
    requires es != [] && !Has(es, name)
    ensures Left(es, 0) != [] && Left(es, 0)[0].name != name && !Has(Left(es, 0), name)
  {
    LeftNames(es, 0, name);
    assert Left(es, 0)[0].name == es[0].name;
  }

  /** Where the last of `name` and what it ranks above is gone, and something that outranks it is left. */
  lemma OutlivedBy(es: seq<Entry>, e: Entry) returns (k: nat)
    requires Distinct(es) && e in es && Priority(e.name) > 0 && After(es, Priority(e.name)) != []
    ensures 0 < k < ListSteps(es)
    ensures var left := Remaining(es, k); left != [] && left[0].name != e.name && !Has(left, e.name)
  {
    NoneAfter(es, e.name);
    NoneLeft(After(es, Priority(e.name)), e.name);
    LeftAround(es, e, 0);
    k := ListSteps(Before(es, Priority(e.name))) + Steps(e.node);
    LeftAround(es, e, k);
  }

  lemma LostInCamp(es: seq<Entry>, camp: Node, want: Marker) returns (k: nat)
    requires Distinct(es) && Entry(".camp", camp) in es && After(es, 1) == [] && camp.Dir?
    requires Distinct(camp.entries) && Find(camp.entries, "runtime").Some? && After(camp.entries, 2) != []
    ensures k <= ListSteps(es)
    ensures !HoldsMarker(Remaining(es, k), want) && !OnlyChain(Remaining(es, k))
  {
    var rt := Find(camp.entries, "runtime").value;
    var j := OutlivedBy(camp.entries, Entry("runtime", rt));
    k := OnlyCampLeft(es, camp, j);
    ChainBroken(Remaining(es, k), want);
  }

  /** Once everything ranked lower is gone, only `.camp` is left, and its own removal begins. */
  lemma OnlyCampLeft(es: seq<Entry>, camp: Node, j: nat) returns (k: nat)
    requires Distinct(es) && Entry(".camp", camp) in es && After(es, 1) == [] && 0 < j < Steps(camp)
    ensures k <= ListSteps(es) && Remaining(es, k) == [LeftOf(Entry(".camp", camp), j)]
  {
    var e := Entry(".camp", camp);
    LastStands(es, e, 0);
    k := ListSteps(es) - Steps(camp) + j;
    LastStands(es, e, k);
  }

  lemma ChainBroken(es: seq<Entry>, want: Marker)
    requires |es| == 1 && es[0].name == ".camp" && es[0].node.Dir?
    requires var cs := es[0].node.entries; cs != [] && cs[0].name != "runtime" && !Has(cs, "runtime")
    ensures !HoldsMarker(es, want) && !OnlyChain(es)
  {
    assert Find(es, ".camp") == Some(es[0].node);
  }

  lemma OutrankedIsAfter(es: seq<Entry>, camp: Node)
    requires Find(es, ".camp") == Some(camp) && camp.Dir? && !Guarded(es) && After(es, 1) == []
    ensures After(camp.entries, 2) != []
  {
    if Has(es, "runtime") { AroundIn(es, 1, Entry("runtime", Find(es, "runtime").value)); }
    if Has(es, "ownership.json") { AroundIn(es, 1, Entry("ownership.json", Find(es, "ownership.json").value)); }
    if Has(camp.entries, "ownership.json") {
      AroundIn(camp.entries, 2, Entry("ownership.json", Find(camp.entries, "ownership.json").value));
    }
  }

  /** The whole claim: over every point of interruption, the marker is there as long as anything besides the chain
    * is, if and only if no entry outranks `.camp` or `runtime` beside it. */
  lemma MarkerKeptIff(es: seq<Entry>, want: Marker)
    requires HoldsMarker(es, want) && WellNamed(es, want)
    ensures Guarded(es) <==> forall k :: 0 <= k <= ListSteps(es) ==> KeptAt(es, want, k)
  {
    if Guarded(es) {
      forall k | 0 <= k <= ListSteps(es) ensures KeptAt(es, want, k) { MarkerOutlives(es, want, k); }
    } else {
      var k := MarkerLostEarly(es, want);
      assert !KeptAt(es, want, k);
    }
  }

  predicate KeptAt(es: seq<Entry>, want: Marker, k: nat)
    requires k <= ListSteps(es)
  {
    HoldsMarker(Remaining(es, k), want) || OnlyChain(Remaining(es, k))
  }

  // ---------------------------------------------------------------- other devices

  /** The nodes of a tree that lie on another device. */
  function Foreign(n: Node, device: nat): set<(nat, nat)> {
    (if n.device != device then {(n.device, n.inode)} else {}) + if n.Dir? then ListForeign(n.entries, device) else {}
  }

  function ListForeign(es: seq<Entry>, device: nat): set<(nat, nat)> {
    if es == [] then {} else Foreign(es[0].node, device) + ListForeign(es[1..], device)
  }

  lemma {:induction false} ForeignAppend(a: seq<Entry>, b: seq<Entry>, device: nat)
    ensures ListForeign(a + b, device) == ListForeign(a, device) + ListForeign(b, device)
  {
    if a == [] {
      assert a + b == b;
    } else {
      assert (a + b)[1..] == a[1..] + b;
      ForeignAppend(a[1..], b, device);
    }
  }

  lemma {:induction false} ForeignIn(es: seq<Entry>, all: seq<Entry>, device: nat)
    requires forall e :: e in es ==> e in all
    ensures ListForeign(es, device) <= ListForeign(all, device)
  {
    if es != [] {
      assert es[0] in all;
      var i :| 0 <= i < |all| && all[i] == es[0];
      assert all == all[..i] + ([all[i]] + all[i + 1..]);
      ForeignAppend(all[..i], [all[i]] + all[i + 1..], device);
      assert ([all[i]] + all[i + 1..])[1..] == all[i + 1..];
      ForeignIn(es[1..], all, device);
    }
  }

  lemma SortedForeign(es: seq<Entry>, device: nat)
    ensures ListForeign(Sorted(es), device) == ListForeign(es, device)
  {
    forall e ensures e in Sorted(es) <==> e in es { SortedIn(es, e); }
    ForeignIn(es, Sorted(es), device);
    ForeignIn(Sorted(es), es, device);
  }

  // ---------------------------------------------------------------- removal

  /** Whether the next system call fails, or the process stops before it; in a calm run none does. */
  method Fault(calm: bool) returns (failed: bool)
    ensures calm ==> !failed
  {
    failed := *;
    if calm { failed := false; }
  }

  /** The tree just before the removal of `sorted[i]` is complete, `j` of its unlinks done. */
  lemma LeftDuring(sorted: seq<Entry>, i: nat, j: nat)
    requires i < |sorted| && j < Steps(sorted[i].node)
    ensures var k := ListSteps(sorted[..i]) + j;
            k < ListSteps(sorted) && Left(sorted, k) == [LeftOf(sorted[i], j)] + sorted[i + 1..]
    ensures ListSteps(sorted[..i + 1]) == ListSteps(sorted[..i]) + Steps(sorted[i].node)
  {
    var a, b := sorted[..i], sorted[i..];
    assert sorted == a + b && b[0] == sorted[i] && b[1..] == sorted[i + 1..];
    StepsAppend(a, b);
    LeftAppend(a, b, ListSteps(a) + j);
    assert sorted[..i + 1] == a + [sorted[i]];
    StepsAppend(a, [sorted[i]]);
  }

  /** With nothing foreign before `sorted[i]`, what is foreign is in it or behind it. */
  lemma ForeignDuring(sorted: seq<Entry>, i: nat, device: nat)
    requires i < |sorted| && ListForeign(sorted[..i], device) == {}
    ensures ListForeign(sorted[i..], device) == ListForeign(sorted, device)
    ensures ListForeign(sorted, device) == Foreign(sorted[i].node, device) + ListForeign(sorted[i + 1..], device)
    ensures ListForeign(sorted[..i + 1], device) == Foreign(sorted[i].node, device)
  {
    var a, b := sorted[..i], sorted[i..];
    assert sorted == a + b && b[0] == sorted[i] && b[1..] == sorted[i + 1..];
    ForeignAppend(a, b, device);
    assert sorted[..i + 1] == a + [sorted[i]];
    ForeignAppend(a, [sorted[i]], device);
  }

  /** Removes one entry, a directory only once it is empty. */
  method RemoveEntry(e: Entry, device: nat, calm: bool) returns (left: Entry, ok: bool, k: nat)
    ensures !ok ==> k < Steps(e.node) && left == LeftOf(e, k) && Foreign(left.node, device) == Foreign(e.node, device)
    ensures ok ==> k == Steps(e.node) && Foreign(e.node, device) == {}
    ensures calm && Foreign(e.node, device) == {} ==> ok
    decreases Height(e.node), 0
  {
    left, ok, k := e, false, 0;
    var failed := Fault(calm);
    if failed || e.node.device != device { return; }
    if e.node.Dir? {
      var child, emptied;
      child, emptied, k := RemoveContents(e.node.entries, device, calm);
      left := e.(node := e.node.(entries := child));
      if !emptied { return; }
    }
    failed := Fault(calm);
    if failed { return; }
    return left, true, k + 1;
  }

  /** Removes entries in the order given, down to an interruption anywhere. */
  method RemoveAll(sorted: seq<Entry>, device: nat, calm: bool) returns (left: seq<Entry>, ok: bool, k: nat)
    ensures k <= ListSteps(sorted) && left == Left(sorted, k)
    ensures ok ==> left == [] && k == ListSteps(sorted)
    ensures ListForeign(left, device) == ListForeign(sorted, device)
    ensures calm && ListForeign(sorted, device) == {} ==> ok
    decreases MaxHeight(sorted), 1
  {
    k := 0;
    for i := 0 to |sorted|
      invariant k == ListSteps(sorted[..i]) && ListForeign(sorted[..i], device) == {}
    {
      HeightIn(sorted, sorted[i]);
      var entry, removed, j := RemoveEntry(sorted[i], device, calm);
      if !removed {
        StoppedIn(sorted, i, entry, j, device);
        ForeignDuring(sorted, i, device);
        return [entry] + sorted[i + 1..], false, k + j;
      }
      RemovedOne(sorted, i, device);
      k := k + j;
    }
    assert sorted[..|sorted|] == sorted;
    AllGone(sorted);
    return [], true, k;
  }

  lemma RemovedOne(sorted: seq<Entry>, i: nat, device: nat)
    requires i < |sorted| && ListForeign(sorted[..i], device) == {} && Foreign(sorted[i].node, device) == {}
    ensures ListSteps(sorted[..i + 1]) == ListSteps(sorted[..i]) + Steps(sorted[i].node)
    ensures ListForeign(sorted[..i + 1], device) == {}
  {
    LeftDuring(sorted, i, 0);
    ForeignDuring(sorted, i, device);
  }

  lemma StoppedIn(sorted: seq<Entry>, i: nat, entry: Entry, j: nat, device: nat)
    requires i < |sorted| && j < Steps(sorted[i].node) && ListForeign(sorted[..i], device) == {}
    requires entry == LeftOf(sorted[i], j) && Foreign(entry.node, device) == Foreign(sorted[i].node, device)
    ensures var k, left := ListSteps(sorted[..i]) + j, [entry] + sorted[i + 1..];
            k < ListSteps(sorted) && left == Left(sorted, k) && ListForeign(left, device) == ListForeign(sorted, device)
  {
    LeftDuring(sorted, i, j);
    ForeignDuring(sorted, i, device);
    assert ([entry] + sorted[i + 1..])[1..] == sorted[i + 1..];
  }

  /** Removes the contents of a directory, lowest priority first, down to an interruption anywhere: what is left is
    * the tree after exactly `k` unlinks, nothing on another device is ever unlinked, and a calm removal from one device
    * completes. */
  method RemoveContents(es: seq<Entry>, device: nat, calm: bool) returns (left: seq<Entry>, ok: bool, k: nat)
    ensures k <= ListSteps(es) && left == Remaining(es, k)
    ensures ok ==> left == [] && k == ListSteps(es)
    ensures ListForeign(left, device) == ListForeign(es, device)
    ensures calm && ListForeign(es, device) == {} ==> ok
    decreases MaxHeight(es), 2
  {
    SortedHeight(es);
    SortedSteps(es);
    SortedForeign(es, device);
    left, ok, k := RemoveAll(Sorted(es), device, calm);
    if k == 0 { left := es; }
  }

  lemma {:induction false} AllGone(es: seq<Entry>)
    ensures Left(es, ListSteps(es)) == []
    decreases |es|
  {
    if es != [] { AllGone(es[1..]); }
  }

  // ---------------------------------------------------------------- quarantine

  datatype Materialization = Materialization(token: string, canonicalPath: string, device: nat, inode: nat)

  function MarkerOf(m: Materialization): Marker { Marker(m.token, m.canonicalPath, m.device, m.inode) }

  /** Device, inode and marker all match. */
  predicate Owned(t: Node, m: Materialization) {
    t.Dir? && t.device == m.device && t.inode == m.inode && HoldsMarker(t.entries, MarkerOf(m))
  }

  function QuarantineName(token: string): string { ".camp-remove-" + token + ".quarantine" }

  /** `Stuck` is a mismatched tree that could not be put back. */
  datatype Outcome = Removed | Refused | Stuck | Failed

  class Parent {
    var roots: map<string, Node>

    /** A rename that replaces nothing. */
    method Rename(from: string, to: string, calm: bool) returns (ok: bool)
      modifies this
      ensures ok ==> from in old(roots) && to !in old(roots)
      ensures ok ==> roots == (old(roots) - {from})[to := old(roots)[from]]
      ensures !ok ==> roots == old(roots)
      ensures calm && from in old(roots) && to !in old(roots) ==> ok
    {
      var failed := Fault(calm);
      if failed || from !in roots || to in roots { return false; }
      roots := (roots - {from})[to := roots[from]];
      return true;
    }

    /** Puts a tree back, or leaves it quarantined. */
    method Restore(quarantine: string, base: string, calm: bool) returns (r: Outcome)
      requires quarantine in roots
      modifies this
      ensures r == Refused || r == Stuck
      ensures roots == if r == Stuck then old(roots) else (old(roots) - {quarantine})[base := old(roots)[quarantine]]
      ensures calm && base !in old(roots) ==> r == Refused
    {
      var ok := Rename(quarantine, base, calm);
      return if ok then Refused else Stuck;
    }

    /** Destroys a quarantined tree whose device, inode and marker all match, and refuses any other. */
    method Dispose(base: string, quarantine: string, m: Materialization, restore: bool, calm: bool)
      returns (r: Outcome, k: nat)
      requires quarantine in roots && base !in roots
      modifies this
      ensures DisposeOk(old(roots), roots, base, quarantine, m, restore, r, k)
      ensures calm ==> if Owned(old(roots)[quarantine], m)
                       then ListForeign(old(roots)[quarantine].entries, m.device) == {} ==> r == Removed
                       else r == Refused
    {
      k := 0;
      var failed := Fault(calm);
      var root := roots[quarantine];
      if failed || !Owned(root, m) {
        if !restore { return Refused, 0; }
        r := Restore(quarantine, base, calm);
        return;
      }
      r, k := Destroy(quarantine, m, calm);
    }

    method Destroy(quarantine: string, m: Materialization, calm: bool) returns (r: Outcome, k: nat)
      requires quarantine in roots && Owned(roots[quarantine], m)
      modifies this
      ensures DestroyedBy(old(roots)[quarantine], m, k, old(roots) - {quarantine}, roots, quarantine)
      ensures r == Removed ==> roots == old(roots) - {quarantine}
      ensures calm && ListForeign(old(roots)[quarantine].entries, m.device) == {} ==> r == Removed
    {
      var root := roots[quarantine];
      var left, emptied;
      left, emptied, k := RemoveContents(root.entries, root.device, calm);
      Replaced(roots, quarantine, root.(entries := left));
      roots := roots[quarantine := root.(entries := left)];
      var failed := Fault(calm);
      if !emptied || failed { return Failed, k; }
      roots := roots - {quarantine};
      failed := Fault(calm);
      return (if failed then Failed else Removed), k;
    }

    /** One attempt at removing the tree that stands at the base name or in quarantine. A calm one removes it exactly
      * if it is owned and on one device, and puts back what is not owned. */
    method RemoveOwned(base: string, m: Materialization, calm: bool) returns (r: Outcome, k: nat)
      modifies this
      ensures AttemptOk(old(roots), roots, base, QuarantineName(m.token), m, r, k)
      ensures calm ==> CalmOk(old(roots), roots, base, QuarantineName(m.token), m, r)
    {
      var quarantine := QuarantineName(m.token);
      var failed := Fault(calm);
      if failed { return Failed, 0; }
      if (quarantine in roots) == (base in roots) { return Refused, 0; }
      var newlyQuarantined := quarantine !in roots;
      ghost var t := roots[if newlyQuarantined then base else quarantine];
      ghost var others := roots - {base, quarantine};
      if newlyQuarantined {
        var moved := Rename(base, quarantine, calm);
        if !moved { return Failed, 0; }
        assert roots == others[quarantine := t] && old(roots) == others[base := t];
        failed := Fault(calm);
        if failed {
          r := Restore(quarantine, base, calm);
          assert roots == others[quarantine := t] || roots == others[base := t];
          return r, 0;
        }
      }
      assert roots == others[quarantine := t] && roots - {quarantine} == others;
      r, k := Dispose(base, quarantine, m, newlyQuarantined, calm);
    }
  }

  lemma Replaced<K, V>(m: map<K, V>, k: K, v: V)
    ensures m[k := v] == (m - {k})[k := v] && m[k := v] - {k} == m - {k}
  {}

  ghost predicate DisposeOk(before: map<string, Node>, after: map<string, Node>, base: string, quarantine: string,
                            m: Materialization, restore: bool, r: Outcome, k: nat)
    requires quarantine in before
  {
    var t, others := before[quarantine], before - {quarantine};
    && (r == Removed ==> after == others)
    && (!Owned(t, m) && after == before ==> r == if restore then Stuck else Refused)
    && (|| after == before
        || (restore && r == Refused && after == others[base := t])
        || (Owned(t, m) && DestroyedBy(t, m, k, others, after, quarantine)))
  }

  /** Some of the tree is gone from the front of the order of removal, or all of it and its quarantine name. */
  ghost predicate DestroyedBy(t: Node, m: Materialization, k: nat, others: map<string, Node>, after: map<string, Node>,
                              quarantine: string)
    requires t.Dir?
  {
    && k <= ListSteps(t.entries)
    && (|| (&& after == others[quarantine := t.(entries := Remaining(t.entries, k))]
            && ListForeign(Remaining(t.entries, k), m.device) == ListForeign(t.entries, m.device))
        || (after == others && k == ListSteps(t.entries) && ListForeign(t.entries, m.device) == {}))
  }

  /** What one attempt may do. Nothing but the two names is touched, and nothing at all unless exactly one of them
    * exists. A tree that does not match keeps all its entries, and is where it was unless putting it back failed;
    * only a tree whose device, inode and marker match loses entries. */
  ghost predicate AttemptOk(before: map<string, Node>, after: map<string, Node>, base: string, quarantine: string,
                            m: Materialization, r: Outcome, k: nat)
  {
    if (base in before) == (quarantine in before) then r != Removed && after == before
    else
      var t, others := before[if base in before then base else quarantine], before - {base, quarantine};
      && (r == Removed ==> after == others)
      && (|| after == before
          || (after == others[quarantine := t] && (Owned(t, m) || r == Stuck))
          || (&& t.Dir? && t.device == m.device && t.inode == m.inode && HoldsMarker(t.entries, MarkerOf(m))
              && DestroyedBy(t, m, k, others, after, quarantine)))
  }

  /** What a calm attempt does. */
  ghost predicate CalmOk(before: map<string, Node>, after: map<string, Node>, base: string, quarantine: string,
                         m: Materialization, r: Outcome)
  {
    if (base in before) == (quarantine in before) then r == Refused && after == before
    else
      var t := before[if base in before then base else quarantine];
      && (r == Removed <==> Owned(t, m) && ListForeign(t.entries, m.device) == {})
      && (r == Removed ==> after == before - {base, quarantine})
      && (!Owned(t, m) ==> r == Refused && after == before)
  }

  /** After any number of interrupted attempts the tree is at its name, untouched; or in quarantine, with its marker
    * and its guard, or with nothing but the empty chain; or gone. */
  ghost predicate ProgressOk(start: map<string, Node>, roots: map<string, Node>, base: string, m: Materialization)
    requires base in start && start[base].Dir?
  {
    var quarantine, others := QuarantineName(m.token), start - {base};
    || roots == start
    || roots == others
    || (&& quarantine in roots && roots[quarantine].Dir? && roots == others[quarantine := roots[quarantine]]
        && roots[quarantine].device == m.device && roots[quarantine].inode == m.inode
        && ListForeign(roots[quarantine].entries, m.device) == ListForeign(start[base].entries, m.device)
        && (RootOk(roots[quarantine].entries, MarkerOf(m)) || Hollow(roots[quarantine].entries)))
  }

  lemma AttemptProgresses(start: map<string, Node>, before: map<string, Node>, after: map<string, Node>, base: string,
                          m: Materialization, r: Outcome, k: nat)
    requires base in start && QuarantineName(m.token) !in start && Owned(start[base], m)
    requires RootOk(start[base].entries, MarkerOf(m))
    requires ProgressOk(start, before, base, m)
    requires AttemptOk(before, after, base, QuarantineName(m.token), m, r, k)
    ensures ProgressOk(start, after, base, m)
    ensures r == Removed ==> after == start - {base}
  {
    var quarantine := QuarantineName(m.token);
    if (base in before) != (quarantine in before) {
      var t := before[if base in before then base else quarantine];
      var others := start - {base};
      assert before - {base, quarantine} == others;
      if Owned(t, m) {
        assert RootOk(t.entries, MarkerOf(m)) by {
          if Hollow(t.entries) { HollowHoldsNone(t.entries, MarkerOf(m)); }
        }
        if k <= ListSteps(t.entries) { MarkerInRoot(t.entries, MarkerOf(m), k); }
        assert after == before || after == others ||
               (quarantine in after && after == others[quarantine := after[quarantine]]);
      }
    }
  }

  /** Every run of attempts, each interrupted anywhere, on an owned tree with nothing outranking its chain. */
  method RemoveRepeatedly(parent: Parent, base: string, m: Materialization, attempts: nat) returns (removed: bool)
    requires base in parent.roots && QuarantineName(m.token) !in parent.roots && Owned(parent.roots[base], m)
    requires WellNamed(parent.roots[base].entries, MarkerOf(m)) && Guarded(parent.roots[base].entries)
    modifies parent
    ensures ProgressOk(old(parent.roots), parent.roots, base, m)
    ensures removed ==> parent.roots == old(parent.roots) - {base}
    ensures attempts == 0 ==> parent.roots == old(parent.roots)
  {
    RootOkMeans(parent.roots[base].entries, MarkerOf(m));
    removed := false;
    for i := 0 to attempts
      invariant ProgressOk(old(parent.roots), parent.roots, base, m)
      invariant i == 0 ==> parent.roots == old(parent.roots)
    {
      ghost var before := parent.roots;
      var r, k := parent.RemoveOwned(base, m, false);
      AttemptProgresses(old(parent.roots), before, parent.roots, base, m, r, k);
      if r == Removed { return true; }
    }
  }

  /** ... and one calm attempt after them. Of a tree on one device nothing is left, unless an earlier attempt got to
    * the last two unlinks and was interrupted there: then the empty chain stays in quarantine. */
  method RemoveFinally(parent: Parent, base: string, m: Materialization, attempts: nat) returns (r: Outcome)
    requires base in parent.roots && QuarantineName(m.token) !in parent.roots && Owned(parent.roots[base], m)
    requires WellNamed(parent.roots[base].entries, MarkerOf(m)) && Guarded(parent.roots[base].entries)
    modifies parent
    ensures ProgressOk(old(parent.roots), parent.roots, base, m)
    ensures ListForeign(old(parent.roots)[base].entries, m.device) == {} ==>
              || parent.roots == old(parent.roots) - {base}
              || (r == Refused && LeftHollow(old(parent.roots), parent.roots, base, m))
    ensures ListForeign(old(parent.roots)[base].entries, m.device) == {} && attempts == 0 ==> r == Removed
  {
    RootOkMeans(parent.roots[base].entries, MarkerOf(m));
    var removed := RemoveRepeatedly(parent, base, m, attempts);
    ghost var before := parent.roots;
    var k;
    r, k := parent.RemoveOwned(base, m, true);
    AttemptProgresses(old(parent.roots), before, parent.roots, base, m, r, k);
  }

  ghost predicate LeftHollow(start: map<string, Node>, roots: map<string, Node>, base: string, m: Materialization)
    requires base in start
  {
    var quarantine := QuarantineName(m.token);
    && quarantine in roots && roots[quarantine].Dir? && roots == (start - {base})[quarantine := roots[quarantine]]
    && Hollow(roots[quarantine].entries)
  }
}
