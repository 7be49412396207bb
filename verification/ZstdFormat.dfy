/** Zstandard frames as section 3.1.1 of RFC 8878 lays them out, written from their fields, and the scanner's verdict on
  * exactly these. Widths and lengths are those of the fields themselves. */
module ZstdFormat {
  import opened Domain
  import opened ZstdFrame

  datatype Block = Raw(content: seq<byte>) | Rle(repeated: byte, count: nat) | Compressed(content: seq<byte>)

  /** A frame without a window descriptor is a single segment. The last block is the last one listed. */
  datatype Layout = Layout(window: Option<byte>, dictionary: seq<byte>, contentSize: seq<byte>, blocks: seq<Block>,
                           checksum: Option<seq<byte>>)

  function SizeOf(b: Block): nat { if b.Rle? then b.count else |b.content| }

  predicate WellFormed(f: Layout) {
    && |f.dictionary| in {0, 1, 2, 4}
    && |f.contentSize| in (if f.window.None? then {1, 2, 4, 8} else {0, 2, 4, 8})
    && f.blocks != [] && (forall b :: b in f.blocks ==> SizeOf(b) < 0x20_0000)
    && (f.checksum.Some? ==> |f.checksum.value| == 4)
  }

  /** The frames that CampKit writes itself: no dictionary, and a checksum. */
  predicate Exact(f: Layout) { f.dictionary == [] && f.checksum.Some? }

  function WidthFlag(width: nat): nat {
    match width
    case 2 => 1
    case 4 => 2
    case 8 => 3
    case _ => 0
  }

  function DictionaryFlag(width: nat): nat {
    match width
    case 1 => 1
    case 2 => 2
    case 4 => 3
    case _ => 0
  }

  function Descriptor(f: Layout): (d: byte) {
    64 * WidthFlag(|f.contentSize|) + (if f.window.None? then 32 else 0) + (if f.checksum.Some? then 4 else 0)
    + DictionaryFlag(|f.dictionary|)
  }

  /** Three bytes, the least significant first. */
  function Little(value: nat): (h: seq<byte>)
    requires value < 0x100_0000
    ensures |h| == 3
  {
    [value % 256, value / 256 % 256, value / 256 / 256]
  }

  function TypeOf(b: Block): nat { if b.Raw? then 0 else if b.Rle? then 1 else 2 }

  function Stored(b: Block): seq<byte> { if b.Rle? then [b.repeated] else b.content }

  function HeaderOf(b: Block, last: bool): (value: nat)
    requires SizeOf(b) < 0x20_0000
    ensures value < 0x100_0000
  {
    (if last then 1 else 0) + 2 * TypeOf(b) + 8 * SizeOf(b)
  }

  function EncodeBlock(b: Block, last: bool): seq<byte>
    requires SizeOf(b) < 0x20_0000
  {
    Little(HeaderOf(b, last)) + Stored(b)
  }

  /** The blocks, and the checksum if there is one. */
  function EncodeTail(blocks: seq<Block>, checksum: Option<seq<byte>>): seq<byte>
    requires blocks != [] && forall b :: b in blocks ==> SizeOf(b) < 0x20_0000
  {
    if |blocks| == 1 then EncodeBlock(blocks[0], true) + Ending(checksum)
    else EncodeBlock(blocks[0], false) + EncodeTail(blocks[1..], checksum)
  }

  function Ending(checksum: Option<seq<byte>>): seq<byte> { if checksum.Some? then checksum.value else [] }

  function Fields(f: Layout): seq<byte> {
    (if f.window.Some? then [f.window.value] else []) + f.dictionary + f.contentSize
  }

  function Encode(f: Layout): seq<byte>
    requires WellFormed(f)
  {
    [0x28, 0xb5, 0x2f, 0xfd, Descriptor(f)] + Fields(f) + EncodeTail(f.blocks, f.checksum)
  }

  // ---------------------------------------------------------------- every frame is cut off where it ends

  lemma LittleMeans(value: nat)
    requires value < 0x100_0000
    ensures HeaderValue(Little(value)) == value
  {
    var q := value / 256;
    assert value == 256 * q + value % 256 && q == 256 * (q / 256) + q % 256;
  }

  lemma HeaderBits(last: nat, kind: nat, size: nat)
    requires last < 2 && kind < 4
    ensures var value := last + 2 * kind + 8 * size;
            value % 2 == last && value / 2 % 4 == kind && value / 8 == size
  {
    var value := last + 2 * kind + 8 * size;
    assert value / 2 == kind + 4 * size;
  }

  lemma HeaderMeans(b: Block, last: bool)
    requires SizeOf(b) < 0x20_0000
    ensures var value := HeaderOf(b, last);
            && BlockType(value) == TypeOf(b) && BlockSize(value) == |Stored(b)| && (value % 2 == 1 <==> last)
  {
    HeaderBits(if last then 1 else 0, TypeOf(b), SizeOf(b));
  }

  lemma CutsBlock(b: Block, last: bool, rest: seq<byte>, checksum: bool)
    requires SizeOf(b) < 0x20_0000
    ensures CutBlocks(EncodeBlock(b, last) + rest, checksum)
            == Shift(|EncodeBlock(b, last)|, if last then CutChecksum(rest, checksum) else CutBlocks(rest, checksum))
  {
    var value := HeaderOf(b, last);
    HeaderMeans(b, last);
    LittleMeans(value);
    CutsHeader(Little(value), Stored(b) + rest, checksum);
    assert EncodeBlock(b, last) + rest == Little(value) + (Stored(b) + rest);
    CutsData(Stored(b), rest, last, checksum);
  }

  lemma CutsHeader(h: seq<byte>, d: seq<byte>, checksum: bool)
    requires |h| == 3 && BlockType(HeaderValue(h)) != 3
    ensures CutBlocks(h + d, checksum)
            == Shift(3, CutData(d, BlockSize(HeaderValue(h)), HeaderValue(h) % 2 == 1, checksum))
  {
    assert (h + d)[..3] == h && (h + d)[3..] == d;
  }

  lemma CutsData(content: seq<byte>, rest: seq<byte>, last: bool, checksum: bool)
    ensures CutData(content + rest, |content|, last, checksum)
            == Shift(|content|, if last then CutChecksum(rest, checksum) else CutBlocks(rest, checksum))
  {
    assert (content + rest)[|content|..] == rest;
  }

  lemma {:induction false} CutsTail(blocks: seq<Block>, checksum: Option<seq<byte>>, more: seq<byte>)
    requires blocks != [] && (forall b :: b in blocks ==> SizeOf(b) < 0x20_0000)
    requires checksum.Some? ==> |checksum.value| == 4
    ensures CutBlocks(EncodeTail(blocks, checksum) + more, checksum.Some?) == Frame(|EncodeTail(blocks, checksum)|)
  {
    if |blocks| == 1 {
      var end := Ending(checksum);
      CutsBlock(blocks[0], true, end + more, checksum.Some?);
      Regroup(EncodeBlock(blocks[0], true), end, more);
    } else {
      var rest := EncodeTail(blocks[1..], checksum);
      CutsTail(blocks[1..], checksum, more);
      CutsBlock(blocks[0], false, rest + more, checksum.Some?);
      Regroup(EncodeBlock(blocks[0], false), rest, more);
    }
  }

  lemma Regroup<T>(a: seq<T>, b: seq<T>, c: seq<T>)
    ensures a + b + c == a + (b + c)
  {}

  lemma DescriptorBits(width: nat, single: nat, sum: nat, dictionary: nat)
    requires width < 4 && single < 2 && sum < 2 && dictionary < 4
    ensures var d := 64 * width + 32 * single + 4 * sum + dictionary;
            d / 64 == width && d / 32 % 2 == single && d / 8 % 4 == 0 && d / 4 % 2 == sum && d % 4 == dictionary
  {
    var d := 64 * width + 32 * single + 4 * sum + dictionary;
    assert d / 32 == 2 * width + single && d / 8 == 4 * (2 * width + single) && d / 4 == 2 * (d / 8) + sum;
  }

  lemma DescriptorMeans(f: Layout)
    requires WellFormed(f)
    ensures HeaderBytes(Descriptor(f)) == |Fields(f)| && HasChecksum(Descriptor(f)) == f.checksum.Some?
    ensures GoodDescriptor(Descriptor(f), false) && (GoodDescriptor(Descriptor(f), true) <==> Exact(f))
  {
    DescriptorBits(WidthFlag(|f.contentSize|), if f.window.None? then 1 else 0, if f.checksum.Some? then 1 else 0,
                   DictionaryFlag(|f.dictionary|));
  }

  /** Whatever follows it, a frame is cut off exactly where it ends; an exact cut refuses a frame that is not exact. */
  lemma CutsFrame(f: Layout, more: seq<byte>, exact: bool)
    requires WellFormed(f)
    ensures CutFrame(Encode(f) + more, exact) == if exact && !Exact(f) then Malformed else Frame(|Encode(f)|)
  {
    var d, tail := Encode(f) + more, EncodeTail(f.blocks, f.checksum) + more;
    DescriptorMeans(f);
    assert d[..4] == MAGIC && d[4..][0] == Descriptor(f);
    assert d[4..][1..] == Fields(f) + tail && (Fields(f) + tail)[|Fields(f)|..] == tail;
    CutsTail(f.blocks, f.checksum, more);
  }

  // ---------------------------------------------------------------- whatever is cut off is a frame

  lemma LittleInverse(h: seq<byte>)
    requires |h| == 3
    ensures HeaderValue(h) < 0x100_0000 && Little(HeaderValue(h)) == h
  {
    var value, q := HeaderValue(h), h[1] as int + 256 * (h[2] as int);
    assert value == 256 * q + h[0];
    assert value / 256 == q && value % 256 == h[0];
    assert q / 256 == h[2] && q % 256 == h[1];
  }

  /** The block that a header announces. */
  function BlockAt(value: nat, content: seq<byte>): Block
    requires BlockType(value) == 1 ==> content != []
  {
    match BlockType(value)
    case 0 => Raw(content)
    case 1 => Rle(content[0], value / 8)
    case _ => Compressed(content)
  }

  lemma BlockReads(d: seq<byte>)
    requires |d| >= 3 && BlockType(HeaderValue(d[..3])) != 3 && |d| >= 3 + BlockSize(HeaderValue(d[..3]))
    ensures var value := HeaderValue(d[..3]);
            var b := BlockAt(value, d[3..3 + BlockSize(value)]);
            SizeOf(b) < 0x20_0000 && EncodeBlock(b, value % 2 == 1) == d[..3 + BlockSize(value)]
  {
    var value := HeaderValue(d[..3]);
    LittleInverse(d[..3]);
    var b := BlockAt(value, d[3..3 + BlockSize(value)]);
    assert value == value % 2 + 2 * (value / 2 % 4) + 8 * (value / 8);
    assert HeaderOf(b, value % 2 == 1) == value;
    assert d[..3 + BlockSize(value)] == d[..3] + d[3..3 + BlockSize(value)];
  }

  /** One block further: what the cut of some blocks says about the first of them and about the rest. */
  lemma OneBlock(d: seq<byte>, checksum: bool)
    requires CutBlocks(d, checksum).Frame?
    ensures |d| >= 3 && BlockType(HeaderValue(d[..3])) != 3
    ensures var value := HeaderValue(d[..3]);
            var n := 3 + BlockSize(value);
            && |d| >= n
            && CutBlocks(d, checksum)
               == Shift(n, if value % 2 == 1 then CutChecksum(d[n..], checksum) else CutBlocks(d[n..], checksum))
  {
    var value := HeaderValue(d[..3]);
    if |d| >= 3 + BlockSize(value) { assert d[3..][BlockSize(value)..] == d[3 + BlockSize(value)..]; }
  }

  lemma Prefix<T>(d: seq<T>, n: nat, k: nat)
    requires n + k <= |d|
    ensures d[..n + k] == d[..n] + d[n..][..k]
  {}

  lemma {:induction false} ReadsTail(d: seq<byte>, checksum: bool)
    returns (blocks: seq<Block>, end: Option<seq<byte>>)
    requires CutBlocks(d, checksum).Frame?
    ensures blocks != [] && forall b :: b in blocks ==> SizeOf(b) < 0x20_0000
    ensures end.Some? == checksum && (end.Some? ==> |end.value| == 4)
    ensures CutBlocks(d, checksum).length <= |d| && EncodeTail(blocks, end) == d[..CutBlocks(d, checksum).length]
    decreases |d|
  {
    OneBlock(d, checksum);
    BlockReads(d);
    var value := HeaderValue(d[..3]);
    var n := 3 + BlockSize(value);
    var b := BlockAt(value, d[3..n]);
    if value % 2 == 1 {
      blocks, end := [b], if checksum then Some(d[n..][..4]) else None;
      Prefix(d, n, if checksum then 4 else 0);
    } else {
      var rest;
      rest, end := ReadsTail(d[n..], checksum);
      blocks := [b] + rest;
      assert blocks[1..] == rest;
      Prefix(d, n, CutBlocks(d[n..], checksum).length);
    }
  }

  function Width(flag: nat, single: bool): nat {
    match flag
    case 0 => if single then 1 else 0
    case 1 => 2
    case 2 => 4
    case _ => 8
  }

  lemma Eighth(d: nat)
    ensures d / 4 == 2 * (d / 8) + d / 4 % 2
  {}

  lemma ThirtySecond(d: nat)
    ensures d / 8 == 4 * (d / 32) + d / 8 % 4
  {}

  lemma SixtyFourth(d: nat)
    ensures d / 32 == 2 * (d / 64) + d / 32 % 2
  {}

  lemma DescriptorParts(d: nat)
    requires d / 8 % 4 == 0
    ensures d == 64 * (d / 64) + 32 * (d / 32 % 2) + 4 * (d / 4 % 2) + d % 4
  {
    Eighth(d);
    ThirtySecond(d);
    SixtyFourth(d);
  }

  lemma DescriptorInverse(d: byte, f: Layout)
    requires GoodDescriptor(d, false)
    requires f.window.None? <==> d / 32 % 2 == 1
    requires |f.dictionary| == [0, 1, 2, 4][d % 4] && |f.contentSize| == Width(d / 64, f.window.None?)
    requires f.checksum.Some? == HasChecksum(d)
    ensures Descriptor(f) == d && HeaderBytes(d) == |Fields(f)|
  {
    DescriptorParts(d);
    assert d / 64 < 4;
  }

  /** The header that a descriptor announces. */
  function LayoutAt(d: byte, header: seq<byte>, blocks: seq<Block>, end: Option<seq<byte>>): Layout
    requires |header| == HeaderBytes(d)
  {
    var single := d / 32 % 2 == 1;
    var w, k := if single then 0 else 1, [0, 1, 2, 4][d % 4];
    Layout(if single then None else Some(header[0]), header[w..w + k], header[w + k..], blocks, end)
  }

  lemma LayoutReads(d: byte, header: seq<byte>, blocks: seq<Block>, end: Option<seq<byte>>)
    requires |header| == HeaderBytes(d) && GoodDescriptor(d, false) && end.Some? == HasChecksum(d)
    ensures var f := LayoutAt(d, header, blocks, end);
            && Descriptor(f) == d && Fields(f) == header && |f.dictionary| == [0, 1, 2, 4][d % 4]
            && |f.contentSize| == Width(d / 64, f.window.None?)
  {
    var f := LayoutAt(d, header, blocks, end);
    DescriptorInverse(d, f);
    assert Fields(f) == header;
  }

  /** What the cut of a frame says about its header and its blocks. */
  lemma OneFrame(d: seq<byte>, exact: bool)
    requires CutFrame(d, exact).Frame?
    ensures |d| >= 5 && d[..4] == MAGIC && GoodDescriptor(d[4], exact) && |d| >= 5 + HeaderBytes(d[4])
    ensures var n := 5 + HeaderBytes(d[4]);
            CutFrame(d, exact) == Shift(n, CutBlocks(d[n..], HasChecksum(d[4])))
  {
    assert d[4..][1..] == d[5..];
    if |d| >= 5 + HeaderBytes(d[4]) { assert d[5..][HeaderBytes(d[4])..] == d[5 + HeaderBytes(d[4])..]; }
  }

  /** Everything that is cut off is some frame, exact if the cut is. */
  lemma FrameReads(d: seq<byte>, exact: bool) returns (f: Layout)
    requires CutFrame(d, exact).Frame?
    ensures WellFormed(f) && (exact ==> Exact(f))
    ensures CutFrame(d, exact).length <= |d| && Encode(f) == d[..CutFrame(d, exact).length]
  {
    OneFrame(d, exact);
    var n := 5 + HeaderBytes(d[4]);
    var blocks, end := ReadsTail(d[n..], HasChecksum(d[4]));
    LayoutReads(d[4], d[5..n], blocks, end);
    f := LayoutAt(d[4], d[5..n], blocks, end);
    Prefix(d, n, CutBlocks(d[n..], HasChecksum(d[4])).length);
    Start(d, n);
  }

  lemma Start(d: seq<byte>, n: nat)
    requires 5 <= n <= |d| && d[..4] == MAGIC
    ensures d[..n] == [0x28, 0xb5, 0x2f, 0xfd, d[4]] + d[5..n]
  {
    assert d[..5] == d[..4] + [d[4]];
    assert d[..n] == d[..5] + d[5..n];
  }

  ghost predicate IsFrame(d: seq<byte>, exact: bool) {
    exists f :: WellFormed(f) && (exact ==> Exact(f)) && Encode(f) == d
  }

  /** The cut is exact: it cuts off `n` bytes if and only if they are a frame. */
  lemma CutIff(d: seq<byte>, n: nat, exact: bool)
    requires n <= |d|
    ensures CutFrame(d, exact) == Frame(n) <==> IsFrame(d[..n], exact)
  {
    if CutFrame(d, exact) == Frame(n) {
      var f := FrameReads(d, exact);
    }
    if IsFrame(d[..n], exact) {
      var f :| WellFormed(f) && (exact ==> Exact(f)) && Encode(f) == d[..n];
      CutsFrame(f, d[n..], exact);
      assert d == d[..n] + d[n..];
    }
  }

  /** A whole run over an input. Only frames are accepted; a steady source that reports its end alone, read often
    * enough, is accepted if and only if it holds one frame, and of an input that begins with a frame exactly that
    * frame comes out. */
  method ScanFormat(source: Source, exactOuter: bool, sizes: seq<nat>)
    returns (emitted: seq<byte>, stopped: Option<ReadError>, verdict: Option<ReadError>)
    requires source.Valid() && source.pos == 0
    modifies source
    ensures verdict.None? ==> IsFrame(source.data, exactOuter)
    ensures forall n :: 0 <= n <= |source.data| && IsFrame(source.data[..n], exactOuter) ==>
              |emitted| <= n && (stopped == Some(Eof) ==> emitted == source.data[..n])
    ensures source.steady && source.end == Alone && Plenty(sizes, source.data) ==>
              (verdict.None? <==> IsFrame(source.data, exactOuter))
  {
    emitted, stopped, verdict := Scan(source, exactOuter, sizes);
    CutIff(source.data, |source.data|, exactOuter);
    assert source.data[..|source.data|] == source.data;
    forall n | 0 <= n <= |source.data| && IsFrame(source.data[..n], exactOuter)
      ensures CutFrame(source.data, exactOuter) == Frame(n)
    {
      CutIff(source.data, n, exactOuter);
    }
  }
}
