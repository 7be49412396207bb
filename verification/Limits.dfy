/** The streaming limits of CampKit, in 64-bit arithmetic that wraps. */
module Limits {
  import opened Domain

  const MAX: int := 0x7fff_ffff_ffff_ffff

  newtype int64 = x: int | -MAX - 1 <= x <= MAX

  /** 64-bit addition as Go computes it. */
  function Wrap(x: int): int64 {
    var m := x % 0x1_0000_0000_0000_0000;
    (if m > MAX then m - 0x1_0000_0000_0000_0000 else m) as int64
  }

  datatype ReadError = Eof | Failure | LimitExceeded(limit: int64, observed: int64)

  datatype ArchiveLimits = ArchiveLimits(maxOuterExpandedBytes: int64, maxCompressionRatio: int64, slack: int64)

  predicate ValidLimits(limits: ArchiveLimits) {
    limits.maxOuterExpandedBytes > 0 && limits.maxCompressionRatio > 0 && limits.slack > 0
  }

  /** What an underlying reader does with one read: how much it hands out, as far as there is room, and any error. */
  datatype Offer = Offer(bytes: int64, err: Option<ReadError>)

  function Taken(offer: Offer, max: int64): (n: int64)
    requires max >= 0
    ensures 0 <= n <= max
    ensures 0 <= offer.bytes <= max ==> n == offer.bytes
  {
    if offer.bytes < 0 then 0 else if offer.bytes > max then max else offer.bytes
  }

  lemma Quotient(c: int, a: int, b: int)
    requires a >= 0 && b > 0
    ensures c > a / b <==> c * b > a
  {
    var q := a / b;
    assert q * b <= a < q * b + b;
    if c > q {
      assert (c - q - 1) * b >= 0;
    } else {
      assert (q - c) * b >= 0;
    }
  }

  /** The expansion allowed so far is the saturated sum, and no step of computing it overflows. */
  method Allowed(limits: ArchiveLimits, compressed: int64) returns (allowed: int64)
    requires ValidLimits(limits) && compressed >= 0
    ensures allowed as int == AllowedBytes(limits, compressed)
  {
    allowed := limits.slack;
    Quotient(compressed as int, MAX - allowed as int, limits.maxCompressionRatio as int);
    if compressed > (MAX as int64 - allowed) / limits.maxCompressionRatio {
      allowed := MAX as int64;
    } else {
      allowed := allowed + compressed * limits.maxCompressionRatio;
    }
  }

  ghost function AllowedBytes(limits: ArchiveLimits, compressed: int64): int {
    var sum := limits.slack as int + limits.maxCompressionRatio as int * compressed as int;
    if sum > MAX then MAX else sum
  }

  lemma WholeTurns(x: int, turns: int)
    ensures (x - turns * 0x1_0000_0000_0000_0000) % 0x1_0000_0000_0000_0000 == x % 0x1_0000_0000_0000_0000
  {
    var q := x / 0x1_0000_0000_0000_0000;
    assert x - turns * 0x1_0000_0000_0000_0000 == (q - turns) * 0x1_0000_0000_0000_0000 + x % 0x1_0000_0000_0000_0000;
  }

  lemma WrapAdd(a: int, b: int)
    ensures Wrap(Wrap(a) as int + b) == Wrap(a + b)
  {
    var m := a % 0x1_0000_0000_0000_0000;
    var turns := a / 0x1_0000_0000_0000_0000 + if m > MAX then 1 else 0;
    assert Wrap(a) as int == a - turns * 0x1_0000_0000_0000_0000;
    WholeTurns(a + b, turns);
  }

  lemma WrapSmall(x: int)
    requires 0 <= x <= MAX
    ensures Wrap(x) as int == x
  {}

  /** The limit error for this many expanded bytes, if there is one. */
  method Exceeded(limits: ArchiveLimits, expanded: int64, compressed: int64) returns (err: Option<ReadError>)
    requires ValidLimits(limits) && compressed >= 0
    ensures err.None? <==>
            expanded <= limits.maxOuterExpandedBytes && expanded as int <= AllowedBytes(limits, compressed)
    ensures err.Some? ==> err.value.LimitExceeded?
  {
    var allowed := Allowed(limits, compressed);
    if expanded > limits.maxOuterExpandedBytes || expanded > allowed {
      return Some(LimitExceeded(if allowed < limits.maxOuterExpandedBytes then allowed
                                else limits.maxOuterExpandedBytes, expanded));
    }
    return None;
  }

  class CountingReader {
    const limit: int64
    var count: int64
    /** The bytes handed on so far, unbounded. */
    ghost var taken: nat

    ghost predicate Valid()
      reads this
    {
      0 <= count <= limit && count as int == taken
    }

    constructor (limit: int64)
      requires limit > 0
      ensures Valid() && this.limit == limit && count == 0
    {
      this.limit, count, taken := limit, 0, 0;
    }

    /** Hands on at most the limit over all reads; a byte more is an error and is not handed on. */
    method Read(max: int64, offer: Offer) returns (n: int64, err: Option<ReadError>)
      requires Valid() && max >= 0
      modifies this
      ensures Valid() && 0 <= n <= max && taken == old(taken) + n as int
      ensures var room := limit - old(count);
              room > 0 ==> n == Taken(offer, if max > room then room else max) && err == offer.err
      ensures old(count) == limit ==> n == 0 && (Taken(offer, 1) > 0 ==> err.Some? && err.value.LimitExceeded?)
    {
      var remaining := limit - count;
      if remaining <= 0 {
        var probed := Taken(offer, 1);
        if probed > 0 {
          return 0, Some(LimitExceeded(limit, Wrap(count as int + probed as int)));
        }
        return 0, offer.err;
      }
      n, err := Taken(offer, if max > remaining then remaining else max), offer.err;
      count := count + n;
      taken := taken + n as int;
    }
  }

  /** One read of the decoder: the compressed reads it makes first, and what it then yields. */
  datatype Decoding = Decoding(compressed: seq<(int64, Offer)>, yielded: Offer)

  class RatioReader {
    const compressed: CountingReader
    const limits: ArchiveLimits
    var expanded: int64
    /** The bytes handed on so far, unbounded. */
    ghost var total: nat

    ghost predicate Valid()
      reads this, compressed
    {
      ValidLimits(limits) && compressed.Valid() && expanded == Wrap(total)
    }

    constructor (compressed: CountingReader, limits: ArchiveLimits)
      requires compressed.Valid() && ValidLimits(limits)
      ensures this.compressed == compressed && this.limits == limits && total == 0 && Valid()
      ensures InBounds(limits, compressed.count, total)
    {
      this.compressed, this.limits, expanded, total := compressed, limits, 0, 0;
      new;
      Products(limits, 0, compressed.count);
    }

    /** The decoder reads compressed bytes as often as it likes before it yields some. */
    method Decode(max: int64, decoding: Decoding) returns (n: int64, err: Option<ReadError>)
      requires compressed.Valid() && max >= 0
      modifies compressed
      ensures compressed.Valid() && old(compressed.count) <= compressed.count && n == Taken(decoding.yielded, max)
      ensures decoding.compressed == [] ==> compressed.count == old(compressed.count)
      ensures err == decoding.yielded.err
    {
      for i := 0 to |decoding.compressed|
        invariant compressed.Valid() && old(compressed.count) <= compressed.count
        invariant decoding.compressed == [] ==> compressed.count == old(compressed.count)
      {
        var (size, offer) := decoding.compressed[i];
        if size >= 0 {
          var _, _ := compressed.Read(size, offer);
        }
      }
      return Taken(decoding.yielded, max), decoding.yielded.err;
    }

    /** A read passes the checks exactly as `Passes` says of the total it reaches. */
    method Read(max: int64, decoding: Decoding) returns (n: int64, err: Option<ReadError>)
      requires Valid() && max >= 0
      modifies this, compressed
      ensures Valid() && n == Taken(decoding.yielded, max) && total == old(total) + n as int
      ensures old(compressed.count) <= compressed.count
      ensures decoding.compressed == [] ==> compressed.count == old(compressed.count)
      ensures if Passes(limits, compressed.count, total) then err == decoding.yielded.err
              else err.Some? && err.value.LimitExceeded?
    {
      n, err := Decode(max, decoding);
      expanded := Wrap(expanded as int + n as int);
      total := total + n as int;
      WrapAdd(old(total), n as int);
      var exceeded := Exceeded(limits, expanded, compressed.count);
      if exceeded.Some? { err := exceeded; }
    }
  }

  /** The checks accept this total. */
  ghost predicate Passes(limits: ArchiveLimits, compressed: int64, total: nat) {
    Wrap(total) <= limits.maxOuterExpandedBytes && Wrap(total) as int <= AllowedBytes(limits, compressed)
  }

  /** The total is within both bounds. */
  ghost predicate InBounds(limits: ArchiveLimits, compressed: int64, total: nat) {
    total <= limits.maxOuterExpandedBytes as int && total <= AllowedBytes(limits, compressed)
  }

  lemma Products(limits: ArchiveLimits, low: int64, high: int64)
    requires ValidLimits(limits) && 0 <= low <= high
    ensures 0 < AllowedBytes(limits, low) <= AllowedBytes(limits, high) <= MAX
  {
    var ratio := limits.maxCompressionRatio as int;
    assert ratio * (high as int - low as int) >= 0 && ratio * low as int >= 0;
  }

  /** As long as the total fits 64 bits, the checks accept exactly what is within the bounds. */
  lemma PassesMeans(limits: ArchiveLimits, compressed: int64, total: nat)
    requires total <= MAX
    ensures Passes(limits, compressed, total) <==> InBounds(limits, compressed, total)
  {
    WrapSmall(total);
  }

  /** A total of 2^63 reads as a negative count and passes every check. */
  lemma WrappedTotalPasses(limits: ArchiveLimits, compressed: int64)
    requires ValidLimits(limits) && compressed >= 0
    ensures Passes(limits, compressed, MAX + 1) && !InBounds(limits, compressed, MAX + 1)
  {
    Products(limits, 0, compressed);
  }

  /** Whatever a read of this size may yield passes the checks only within the bounds. */
  ghost predicate SoundRead(limits: ArchiveLimits, compressed: int64, total: nat, max: int64) {
    forall reached: nat, later | total <= reached <= total + max as int && compressed <= later ::
      Passes(limits, later, reached) ==> InBounds(limits, later, reached)
  }

  /** The exact guard, which a caller can check before a read: from a total within bounds, a read of this size is
    * sound if and only if the total and the buffer together fit 64 bits. */
  lemma SoundReadIff(limits: ArchiveLimits, compressed: int64, total: nat, max: int64)
    requires ValidLimits(limits) && compressed >= 0 && max >= 0 && InBounds(limits, compressed, total)
    ensures SoundRead(limits, compressed, total, max) <==> total + max as int <= MAX
  {
    if total + max as int <= MAX {
      forall reached: nat, later | total <= reached <= total + max as int && compressed <= later
        ensures Passes(limits, later, reached) ==> InBounds(limits, later, reached)
      {
        PassesMeans(limits, later, reached);
      }
    } else {
      WrappedTotalPasses(limits, compressed);
    }
  }

  /** The total that a sequence of reads reaches, whatever the checks make of it. */
  ghost function Reached(start: nat, sizes: seq<int64>, decodings: seq<Decoding>, k: nat): (total: nat)
    requires k <= |sizes| == |decodings| && forall i :: 0 <= i < |sizes| ==> sizes[i] >= 0
    ensures total >= start
  {
    if k == 0 then start
    else Reached(start, sizes, decodings, k - 1) + Taken(decodings[k - 1].yielded, sizes[k - 1]) as int
  }

  /** Each of the first `n` reads is one that `SoundReadIff` calls sound: its buffer and the total before it fit 64
    * bits. */
  ghost predicate Fits(start: nat, sizes: seq<int64>, decodings: seq<Decoding>, n: nat)
    requires n <= |sizes| == |decodings| && forall i :: 0 <= i < |sizes| ==> sizes[i] >= 0
  {
    forall k :: 0 <= k < n ==> Reached(start, sizes, decodings, k) + sizes[k] as int <= MAX
  }

  /** Every buffer leaves room beyond the expansion limit. */
  predicate Roomy(limits: ArchiveLimits, sizes: seq<int64>) {
    forall i :: 0 <= i < |sizes| ==> sizes[i] as int <= MAX - limits.maxOuterExpandedBytes as int
  }

  /** The state after reads that fit: counted exactly, and within bounds unless the last read failed. */
  ghost predicate Sound(limits: ArchiveLimits, compressed: int64, expanded: int64, total: nat, err: Option<ReadError>) {
    && expanded as int == total
    && (err.None? ==> InBounds(limits, compressed, total))
    && (!InBounds(limits, compressed, total) ==> err.Some? && err.value.LimitExceeded?)
  }

  /** A further read. */
  lemma FitsMore(limits: ArchiveLimits, start: nat, sizes: seq<int64>, decodings: seq<Decoding>, k: nat)
    requires k < |sizes| == |decodings| && forall i :: 0 <= i < |sizes| ==> sizes[i] >= 0
    ensures Fits(start, sizes, decodings, k + 1) <==>
              Fits(start, sizes, decodings, k) && Reached(start, sizes, decodings, k) + sizes[k] as int <= MAX
    ensures Fits(start, sizes, decodings, k + 1) ==> Reached(start, sizes, decodings, k + 1) <= MAX
    ensures Fits(start, sizes, decodings, k) && Roomy(limits, sizes)
            && Reached(start, sizes, decodings, k) <= limits.maxOuterExpandedBytes as int ==>
              Fits(start, sizes, decodings, k + 1)
  {}

  lemma ReadIsSound(limits: ArchiveLimits, compressed: int64, expanded: int64, total: nat, err: Option<ReadError>)
    requires total <= MAX && expanded == Wrap(total)
    requires !Passes(limits, compressed, total) ==> err.Some? && err.value.LimitExceeded?
    ensures Sound(limits, compressed, expanded, total, err)
  {
    PassesMeans(limits, compressed, total);
    WrapSmall(total);
  }

  /** Every sequence of reads up to the first error, the `made`-th. The compressed count stays within its limit
    * throughout; and if the reads made fit, the total stays within both bounds after every error-free read, and one
    * beyond them is an error. Reads whose buffers leave room beyond the expansion limit always fit. */
  method Drain(reader: RatioReader, sizes: seq<int64>, decodings: seq<Decoding>)
    returns (made: nat, err: Option<ReadError>)
    requires reader.Valid() && InBounds(reader.limits, reader.compressed.count, reader.total) && |sizes| == |decodings|
    requires forall i :: 0 <= i < |sizes| ==> sizes[i] >= 0
    modifies reader, reader.compressed
    ensures reader.Valid() && made <= |sizes| && (err.None? ==> made == |sizes|) && (err.Some? ==> made > 0)
    ensures reader.total == Reached(old(reader.total), sizes, decodings, made)
    ensures made > 0 && Passes(reader.limits, reader.compressed.count, reader.total) ==>
              err == decodings[made - 1].yielded.err
    ensures reader.compressed.count <= reader.compressed.limit
    ensures Fits(old(reader.total), sizes, decodings, made) ==>
              Sound(reader.limits, reader.compressed.count, reader.expanded, reader.total, err)
    ensures Roomy(reader.limits, sizes) ==> Fits(old(reader.total), sizes, decodings, made)
  {
    made, err := 0, None;
    ghost var start := reader.total;
    WrapSmall(reader.total);
    while made < |sizes| && err.None?
      invariant reader.Valid() && made <= |sizes| && (err.Some? ==> made > 0)
      invariant reader.total == Reached(start, sizes, decodings, made)
      invariant made > 0 && Passes(reader.limits, reader.compressed.count, reader.total) ==>
                  err == decodings[made - 1].yielded.err
      invariant Fits(start, sizes, decodings, made) ==>
                  Sound(reader.limits, reader.compressed.count, reader.expanded, reader.total, err)
      invariant Roomy(reader.limits, sizes) ==> Fits(start, sizes, decodings, made)
      decreases |sizes| - made
    {
      FitsMore(reader.limits, start, sizes, decodings, made);
      var got;
      got, err := reader.Read(sizes[made], decodings[made]);
      made := made + 1;
      if reader.total <= MAX {
        ReadIsSound(reader.limits, reader.compressed.count, reader.expanded, reader.total, err);
      }
    }
  }

  /** A run that breaks the bound: with the largest limits, two error-free reads reach 2^63 bytes. */
  method OverflowingRun() returns (reader: RatioReader, first: Option<ReadError>, second: Option<ReadError>)
    ensures first.None? && second.None? && reader.Valid()
    ensures !InBounds(reader.limits, reader.compressed.count, reader.total)
  {
    var top := MAX as int64;
    var compressed := new CountingReader(top);
    reader := new RatioReader(compressed, ArchiveLimits(top, 1, top));
    Products(reader.limits, 0, 0);
    var n;
    n, first := reader.Read(top, Decoding([], Offer(top, None)));
    PassesMeans(reader.limits, 0, MAX);
    n, second := reader.Read(1, Decoding([], Offer(1, None)));
    WrappedTotalPasses(reader.limits, 0);
  }
}
