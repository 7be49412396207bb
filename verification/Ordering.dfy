/** Byte order on strings, and sorting by distinct keys: whatever algorithm sorts, the result is the same. */
module Ordering {
  predicate Less(a: string, b: string) {
    if b == "" then false
    else if a == "" then true
    else a[0] < b[0] || (a[0] == b[0] && Less(a[1..], b[1..]))
  }

  lemma {:induction false} LessOrGreater(a: string, b: string)
    ensures Less(a, b) ==> !Less(b, a) && a != b
    ensures a != b ==> Less(a, b) || Less(b, a)
  {
    if a != "" && b != "" && a[0] == b[0] {
      LessOrGreater(a[1..], b[1..]);
      assert a == [a[0]] + a[1..] && b == [b[0]] + b[1..];
    }
  }

  lemma {:induction false} LessTransitive(a: string, b: string, c: string)
    requires Less(a, b) && Less(b, c)
    ensures Less(a, c)
  {
    if a != "" && a[0] == b[0] == c[0] { LessTransitive(a[1..], b[1..], c[1..]); }
  }

  predicate SortedBy<T(!new)>(s: seq<T>, key: T -> string) {
    forall i, j :: 0 <= i < j < |s| ==> !Less(key(s[j]), key(s[i]))
  }

  predicate DistinctKeys<T(!new)>(s: seq<T>, key: T -> string) {
    forall i, j :: 0 <= i < j < |s| ==> key(s[i]) != key(s[j])
  }

  lemma Within<T>(s: seq<T>, x: T)
    ensures x in s <==> x in multiset(s)
  {}

  /** With distinct keys, an element's key finds it. */
  lemma SameKeySame<T(!new)>(s: seq<T>, key: T -> string, x: T, y: T)
    requires DistinctKeys(s, key) && x in s && y in s && key(x) == key(y)
    ensures x == y
  {}

  /** The first of a sorted sequence is its least. */
  lemma HeadIsLeast<T(!new)>(s: seq<T>, key: T -> string, x: T)
    requires SortedBy(s, key) && s != [] && x in s
    ensures !Less(key(x), key(s[0]))
  {
    LessOrGreater(key(s[0]), key(s[0]));
  }

  lemma Without<T>(s: seq<T>, i: nat)
    requires i < |s|
    ensures multiset(s[..i] + s[i + 1..]) == multiset(s) - multiset{s[i]}
  {
    assert s == s[..i] + ([s[i]] + s[i + 1..]);
  }

  lemma SameHead<T(!new)>(a: seq<T>, b: seq<T>, key: T -> string)
    requires multiset(a) == multiset(b) && SortedBy(a, key) && SortedBy(b, key) && DistinctKeys(a, key)
    requires a != [] && b != []
    ensures a[0] == b[0]
  {
    Within(b, a[0]);
    Within(a, a[0]);
    Within(a, b[0]);
    Within(b, b[0]);
    HeadIsLeast(a, key, b[0]);
    HeadIsLeast(b, key, a[0]);
    LessOrGreater(key(a[0]), key(b[0]));
    SameKeySame(a, key, a[0], b[0]);
  }

  lemma TailKeeps<T(!new)>(s: seq<T>, key: T -> string)
    requires s != []
    ensures SortedBy(s, key) ==> SortedBy(s[1..], key)
    ensures DistinctKeys(s, key) ==> DistinctKeys(s[1..], key)
  {
    var t := s[1..];
    assert forall i :: 0 <= i < |t| ==> t[i] == s[i + 1];
  }

  lemma HeadGone<T>(s: seq<T>)
    requires s != []
    ensures multiset(s[1..]) == multiset(s) - multiset{s[0]}
  {
    assert s == [s[0]] + s[1..];
  }

  lemma SameTails<T>(a: seq<T>, b: seq<T>)
    requires multiset(a) == multiset(b) && a != [] && b != [] && a[0] == b[0]
    ensures multiset(a[1..]) == multiset(b[1..])
  {
    HeadGone(a);
    HeadGone(b);
  }

  lemma SameSize<T>(a: seq<T>, b: seq<T>)
    requires multiset(a) == multiset(b)
    ensures |a| == |b|
  {
    assert |a| == |multiset(a)| && |b| == |multiset(b)|;
  }

  /** Distinct keys leave one sorted arrangement. */
  lemma {:induction false} SortedUnique<T(!new)>(a: seq<T>, b: seq<T>, key: T -> string)
    requires multiset(a) == multiset(b) && SortedBy(a, key) && SortedBy(b, key) && DistinctKeys(a, key)
    ensures a == b
  {
    SameSize(a, b);
    if a != [] {
      SameHead(a, b, key);
      TailKeeps(a, key);
      TailKeeps(b, key);
      SameTails(a, b);
      SortedUnique(a[1..], b[1..], key);
      assert a == [a[0]] + a[1..] && b == [b[0]] + b[1..];
    }
  }

  function Insert<T(!new)>(x: T, s: seq<T>, key: T -> string): (r: seq<T>)
    requires SortedBy(s, key)
    ensures multiset(r) == multiset(s) + multiset{x}
  {
    if s == [] || !Less(key(s[0]), key(x)) then [x] + s
    else
      assert s == [s[0]] + s[1..];
      [s[0]] + Insert(x, s[1..], key)
  }

  lemma {:induction false} InsertSorts<T(!new)>(x: T, s: seq<T>, key: T -> string)
    requires SortedBy(s, key)
    ensures SortedBy(Insert(x, s, key), key)
  {
    var r := Insert(x, s, key);
    if s == [] || !Less(key(s[0]), key(x)) {
      forall j | 0 <= j < |s| ensures !Less(key(s[j]), key(x)) {
        LessOrGreater(key(s[j]), key(s[0]));
        if Less(key(s[j]), key(x)) {
          LessOrGreater(key(s[0]), key(x));
          if key(s[0]) != key(s[j]) { LessTransitive(key(s[0]), key(s[j]), key(x)); }
        }
      }
    } else {
      InsertSorts(x, s[1..], key);
      var rest := Insert(x, s[1..], key);
      LessOrGreater(key(s[0]), key(x));
      forall j | 0 <= j < |rest| ensures !Less(key(rest[j]), key(s[0])) {
        Within(rest, rest[j]);
        assert rest[j] == x || rest[j] in s[1..] by { Within(s[1..], rest[j]); }
      }
    }
  }

  function Sort<T(!new)>(s: seq<T>, key: T -> string): (r: seq<T>)
    ensures multiset(r) == multiset(s) && SortedBy(r, key)
  {
    if s == [] then []
    else
      assert s == [s[0]] + s[1..];
      InsertSorts(s[0], Sort(s[1..], key), key);
      Insert(s[0], Sort(s[1..], key), key)
  }

  lemma {:induction false} KeysPermute<T(!new)>(a: seq<T>, b: seq<T>, key: T -> string)
    requires multiset(a) == multiset(b) && DistinctKeys(a, key)
    ensures DistinctKeys(b, key)
  {
    forall i, j | 0 <= i < j < |b| ensures key(b[i]) != key(b[j]) {
      if key(b[i]) == key(b[j]) {
        Within(a, b[i]);
        Within(a, b[j]);
        assert b[i] in multiset(b) && b[j] in multiset(b);
        SameKeySame(a, key, b[i], b[j]);
        Twice(b, i, j);
        OnceByKey(a, key, b[i]);
      }
    }
  }

  lemma Twice<T>(s: seq<T>, i: nat, j: nat)
    requires i < j < |s| && s[i] == s[j]
    ensures multiset(s)[s[i]] >= 2
  {
    assert s == s[..i] + [s[i]] + s[i + 1..j] + [s[j]] + s[j + 1..];
  }

  lemma {:induction false} OnceByKey<T(!new)>(s: seq<T>, key: T -> string, x: T)
    requires DistinctKeys(s, key) && x in s
    ensures multiset(s)[x] == 1
  {
    var i :| 0 <= i < |s| && s[i] == x;
    var rest := s[..i] + s[i + 1..];
    Without(s, i);
    forall k | 0 <= k < |rest| ensures rest[k] != x {
      assert rest[k] == if k < i then s[k] else s[k + 1];
    }
    Within(rest, x);
    Within(s, x);
  }

  /** Any sorted rearrangement, from whatever order it started, is the one. */
  lemma AnySortAgrees<T(!new)>(s: seq<T>, r: seq<T>, key: T -> string)
    requires multiset(r) == multiset(s) && SortedBy(r, key) && DistinctKeys(s, key)
    ensures r == Sort(s, key)
  {
    KeysPermute(s, r, key);
    SortedUnique(r, Sort(s, key), key);
  }

  // ---------------------------------------------------------------- sums

  function Total<T>(s: seq<T>, weight: T -> nat): nat {
    if s == [] then 0 else weight(s[0]) + Total(s[1..], weight)
  }

  lemma {:induction false} TotalWithout<T>(s: seq<T>, weight: T -> nat, i: nat)
    requires i < |s|
    ensures Total(s, weight) == weight(s[i]) + Total(s[..i] + s[i + 1..], weight)
  {
    if i == 0 {
      assert s[..i] + s[i + 1..] == s[1..];
    } else {
      TotalWithout(s[1..], weight, i - 1);
      assert s[1..][..i - 1] + s[1..][i..] == (s[..i] + s[i + 1..])[1..];
    }
  }

  lemma {:induction false} TotalPermutes<T>(a: seq<T>, b: seq<T>, weight: T -> nat)
    requires multiset(a) == multiset(b)
    ensures Total(a, weight) == Total(b, weight)
    decreases |a|
  {
    assert |a| == |multiset(a)| == |multiset(b)| == |b|;
    if a != [] {
      Within(b, a[0]);
      Within(a, a[0]);
      var i :| 0 <= i < |b| && b[i] == a[0];
      TotalWithout(b, weight, i);
      Without(b, i);
      HeadGone(a);
      TotalPermutes(a[1..], b[..i] + b[i + 1..], weight);
    }
  }
}
