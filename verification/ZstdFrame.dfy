/** The incremental zstd frame scanner of CampKit, and the one-shot cut it agrees with under any chunking.
  *
  * Bit fields are written with division and remainder: bits 3 and 4 of `d` are `d / 8 % 4`. */
module ZstdFrame {
  import opened Domain

  type byte = x: int | 0 <= x < 256

  // ---------------------------------------------------------------- the one-shot cut

  /** How section 3.1.1 of RFC 8878 cuts the first frame off some data, with a stricter header: besides the reserved
    * bit 3 of the descriptor, bit 4 must be clear, which that section calls unused and lets a decoder ignore; and an
    * exact cut admits no dictionary and requires a checksum. */
  datatype Cut = Frame(length: nat) | Malformed | Truncated

  function Shift(n: nat, cut: Cut): Cut { if cut.Frame? then Frame(n + cut.length) else cut }

  const MAGIC: seq<byte> := [0x28, 0xb5, 0x2f, 0xfd]

  predicate GoodDescriptor(d: byte, exact: bool) {
    d / 8 % 4 == 0 && (exact ==> d % 4 == 0 && HasChecksum(d))
  }

  predicate HasChecksum(d: byte) { d / 4 % 2 == 1 }

  /** The window descriptor, dictionary id and content size that follow the descriptor. */
  function HeaderBytes(d: byte): (n: nat)
    ensures n >= 1
  {
    var single := d / 32 % 2 == 1;
    var dictionary := [0, 1, 2, 4][d % 4];
    var contentSize := if single && d / 64 == 0 then 1 else [0, 2, 4, 8][d / 64];
    dictionary + contentSize + if single then 0 else 1
  }

  function HeaderValue(h: seq<byte>): nat
    requires |h| == 3
  {
    h[0] as int + 256 * (h[1] as int) + 65536 * (h[2] as int)
  }

  function BlockType(value: nat): nat { value / 2 % 4 }

  function BlockSize(value: nat): nat { if BlockType(value) == 1 then 1 else value / 8 }

  function CutFrame(d: seq<byte>, exact: bool): Cut {
    if |d| < 4 then Truncated
    else if d[..4] != MAGIC then Malformed
    else Shift(4, CutHeader(d[4..], exact))
  }

  function CutHeader(d: seq<byte>, exact: bool): Cut {
    if |d| < 1 then Truncated
    else if !GoodDescriptor(d[0], exact) then Malformed
    else Shift(1, CutWindow(d[1..], HeaderBytes(d[0]), HasChecksum(d[0])))
  }

  function CutWindow(d: seq<byte>, bytes: nat, checksum: bool): Cut {
    if |d| < bytes then Truncated else Shift(bytes, CutBlocks(d[bytes..], checksum))
  }

  function CutBlocks(d: seq<byte>, checksum: bool): Cut
    decreases |d|, 1
  {
    if |d| < 3 then Truncated
    else
      var value := HeaderValue(d[..3]);
      if BlockType(value) == 3 then Malformed
      else Shift(3, CutData(d[3..], BlockSize(value), value % 2 == 1, checksum))
  }

  function CutData(d: seq<byte>, size: nat, last: bool, checksum: bool): Cut
    decreases |d|, 2
  {
    if |d| < size then Truncated
    else Shift(size, if last then CutChecksum(d[size..], checksum) else CutBlocks(d[size..], checksum))
  }

  function CutChecksum(d: seq<byte>, checksum: bool): Cut {
    if !checksum then Frame(0) else if |d| < 4 then Truncated else Frame(4)
  }

  /** A frame that is cut off lies within the data, and starts with the magic number. */
  lemma FrameFits(d: seq<byte>, exact: bool)
    requires CutFrame(d, exact).Frame?
    ensures 9 <= CutFrame(d, exact).length <= |d|
  {
    var header := d[5..];
    BlocksFit(header[HeaderBytes(d[4])..], HasChecksum(d[4]));
  }

  lemma {:induction false} BlocksFit(d: seq<byte>, checksum: bool)
    requires CutBlocks(d, checksum).Frame?
    ensures 3 <= CutBlocks(d, checksum).length <= |d|
    decreases |d|
  {
    var value := HeaderValue(d[..3]);
    if value % 2 == 0 { BlocksFit(d[3..][BlockSize(value)..], checksum); }
  }

  /** What follows changes no verdict but a truncation: the end of a frame is decided by the frame alone. */
  lemma CutIsStable(d: seq<byte>, more: seq<byte>, exact: bool)
    requires !CutFrame(d, exact).Truncated?
    ensures CutFrame(d + more, exact) == CutFrame(d, exact)
  {
    assert (d + more)[..4] == d[..4];
    if d[..4] == MAGIC && GoodDescriptor(d[4], exact) {
      var n := HeaderBytes(d[4]);
      assert (d + more)[4..] == d[4..] + more && (d + more)[4..][1..] == d[4..][1..] + more;
      assert (d[4..][1..] + more)[n..] == d[4..][1..][n..] + more;
      BlocksAreStable(d[4..][1..][n..], more, HasChecksum(d[4]));
    }
  }

  lemma {:induction false} BlocksAreStable(d: seq<byte>, more: seq<byte>, checksum: bool)
    requires !CutBlocks(d, checksum).Truncated?
    ensures CutBlocks(d + more, checksum) == CutBlocks(d, checksum)
    decreases |d|
  {
    assert (d + more)[..3] == d[..3] && (d + more)[3..] == d[3..] + more;
    var value := HeaderValue(d[..3]);
    if BlockType(value) != 3 {
      var n := BlockSize(value);
      assert (d[3..] + more)[n..] == d[3..][n..] + more;
      if value % 2 == 0 { BlocksAreStable(d[3..][n..], more, checksum); }
    }
  }

  // ---------------------------------------------------------------- the source

  datatype ReadError = Eof | Format | Failure

  /** How a source reports its end: always in a read of its own, always together with its last bytes, or either way. */
  datatype EndStyle = Alone | WithBytes | Either

  /** A byte source of any chunking, which may fail with or without bytes. A steady one never fails, and hands out
    * something whenever it can. */
  class Source {
    const data: seq<byte>
    const steady: bool
    const end: EndStyle
    var pos: nat

    ghost predicate Valid()
      reads this
    {
      pos <= |data|
    }

    /** A read that returned this told of the end in the source's style. */
    ghost predicate EndOk(chunk: seq<byte>, err: Option<ReadError>)
      reads this
    {
      && (err == Some(Eof) && chunk != [] ==> end != Alone && pos == |data|)
      && (end == WithBytes && chunk != [] && pos == |data| ==> err.Some?)
    }

    constructor (data: seq<byte>, steady: bool, end: EndStyle)
      ensures this.data == data && this.steady == steady && this.end == end && pos == 0 && Valid()
    {
      this.data, this.steady, this.end := data, steady, end;
      pos := 0;
    }

    method Read(max: nat) returns (chunk: seq<byte>, err: Option<ReadError>)
      requires Valid()
      modifies this
      ensures Valid() && old(pos) <= pos && chunk == data[old(pos)..pos] && |chunk| <= max
      ensures err.None? || err == Some(Failure) || (err == Some(Eof) && pos == |data|)
      ensures max > 0 && old(pos) == |data| ==> err.Some?
      ensures steady ==> err != Some(Failure) && (max > 0 ==> chunk != [] || err == Some(Eof))
      ensures EndOk(chunk, err)
    {
      var n: int, failed: bool, eager: bool := *, *, *;
      if n < 0 { n := 0; }
      if steady { failed, n := false, if n == 0 then 1 else n; }
      if n > max { n := max; }
      if n > |data| - pos { n := |data| - pos; }
      chunk := data[pos..pos + n];
      pos := pos + n;
      if failed { return chunk, Some(Failure); }
      var together := end == WithBytes || (end == Either && eager);
      if pos == |data| && ((n > 0 && together) || (n == 0 && (max > 0 || eager))) { return chunk, Some(Eof); }
      return chunk, None;
    }
  }

  // ---------------------------------------------------------------- the scanner

  datatype Phase =
    MagicPhase | DescriptorPhase | WindowPhase | BlockHeaderPhase | BlockDataPhase | ChecksumPhase | DonePhase

  /** Where a scanner stands: its phase, the segment it collects, how much of it there is, and what it remembers. */
  datatype Scanner = Scanner(phase: Phase, segment: seq<byte>, offset: nat, blockBytes: nat, hasChecksum: bool)

  predicate Collects(st: Scanner) { st.phase != BlockDataPhase && st.phase != DonePhase }

  /** What the one-shot cut makes of `d`, for a scanner standing at the start of its segment. */
  function Ahead(st: Scanner, exact: bool, d: seq<byte>): Cut {
    match st.phase
    case MagicPhase => CutFrame(d, exact)
    case DescriptorPhase => CutHeader(d, exact)
    case WindowPhase => CutWindow(d, |st.segment|, st.hasChecksum)
    case BlockHeaderPhase => CutBlocks(d, st.hasChecksum)
    case BlockDataPhase => CutData(d, st.blockBytes, |st.segment| == 1, st.hasChecksum)
    case ChecksumPhase => CutChecksum(d, true)
    case DonePhase => Frame(0)
  }

  predicate ShapeOk(st: Scanner) {
    match st.phase
    case MagicPhase => |st.segment| == 4
    case DescriptorPhase => |st.segment| == 1
    case WindowPhase => |st.segment| >= 1
    case BlockHeaderPhase => |st.segment| == 3
    case BlockDataPhase => st.offset == 0 && (st.segment == [] || st.segment == [if st.hasChecksum then 1 else 0])
    case ChecksumPhase => |st.segment| == 4
    case DonePhase => st.offset == 0 && st.segment == []
  }

  /** The cut of the whole input is the cut of what lies ahead, moved to where the segment began. */
  predicate Stands(data: seq<byte>, pos: nat, st: Scanner, exact: bool, whole: Cut) {
    && pos <= |data| && ShapeOk(st) && st.offset <= |st.segment| && st.offset <= pos
    && (Collects(st) ==> st.segment[..st.offset] == data[pos - st.offset..pos])
    && whole == Shift(pos - st.offset, Ahead(st, exact, data[pos - st.offset..]))
  }

  predicate Full(st: Scanner) { Collects(st) && st.offset == |st.segment| }

  /** The segment, being full, is not one a frame may have. */
  predicate Refused(st: Scanner, exact: bool) {
    match st.phase
    case MagicPhase => st.segment != MAGIC
    case DescriptorPhase => |st.segment| == 1 && !GoodDescriptor(st.segment[0], exact)
    case BlockHeaderPhase => |st.segment| == 3 && BlockType(HeaderValue(st.segment)) == 3
    case _ => false
  }

  // ---------------------------------------------------------------- its steps

  lemma Start(data: seq<byte>, exact: bool)
    ensures Stands(data, 0, Scanner(MagicPhase, [0, 0, 0, 0], 0, 0, false), exact, CutFrame(data, exact))
    ensures CutFrame(data, exact).Frame? ==> 0 < CutFrame(data, exact).length <= |data|
  {
    assert data[0..] == data;
    if CutFrame(data, exact).Frame? { FrameFits(data, exact); }
  }

  lemma FullSegment(data: seq<byte>, pos: nat, st: Scanner, exact: bool, whole: Cut)
    requires Stands(data, pos, st, exact, whole) && Full(st)
    ensures var d := data[pos - |st.segment|..];
            d[..|st.segment|] == st.segment && d[|st.segment|..] == data[pos..]
  {
    assert st.segment[..|st.segment|] == st.segment;
  }

  lemma RefusedMeans(data: seq<byte>, pos: nat, st: Scanner, exact: bool, whole: Cut)
    requires Stands(data, pos, st, exact, whole) && Full(st) && Refused(st, exact)
    ensures whole == Malformed
  {
    FullSegment(data, pos, st, exact, whole);
  }

  lemma AfterMagic(data: seq<byte>, pos: nat, st: Scanner, exact: bool, whole: Cut)
    requires Stands(data, pos, st, exact, whole) && Full(st) && st.phase == MagicPhase && st.segment == MAGIC
    ensures Stands(data, pos, st.(phase := DescriptorPhase, segment := [0], offset := 0), exact, whole)
  {
    FullSegment(data, pos, st, exact, whole);
  }

  lemma AfterDescriptor(data: seq<byte>, pos: nat, st: Scanner, exact: bool, whole: Cut, segment: seq<byte>)
    requires Stands(data, pos, st, exact, whole) && Full(st) && st.phase == DescriptorPhase && !Refused(st, exact)
    requires |segment| == HeaderBytes(st.segment[0])
    ensures Stands(data, pos, Scanner(WindowPhase, segment, 0, st.blockBytes, HasChecksum(st.segment[0])), exact, whole)
  {
    FullSegment(data, pos, st, exact, whole);
  }

  lemma AfterWindow(data: seq<byte>, pos: nat, st: Scanner, exact: bool, whole: Cut)
    requires Stands(data, pos, st, exact, whole) && Full(st) && st.phase == WindowPhase
    ensures Stands(data, pos, st.(phase := BlockHeaderPhase, segment := [0, 0, 0], offset := 0), exact, whole)
  {
    FullSegment(data, pos, st, exact, whole);
  }

  lemma AfterChecksum(data: seq<byte>, pos: nat, st: Scanner, exact: bool, whole: Cut)
    requires Stands(data, pos, st, exact, whole) && Full(st) && st.phase == ChecksumPhase
    ensures Stands(data, pos, st.(phase := DonePhase, segment := [], offset := 0), exact, whole)
  {
    FullSegment(data, pos, st, exact, whole);
  }

  /** A block opened by its header. */
  function Opened(st: Scanner, value: nat): Scanner {
    Scanner(BlockDataPhase, if value % 2 == 0 then [] else [if st.hasChecksum then 1 else 0], 0,
            BlockSize(value), st.hasChecksum)
  }

  lemma AfterBlockHeader(data: seq<byte>, pos: nat, st: Scanner, exact: bool, whole: Cut)
    requires Stands(data, pos, st, exact, whole) && Full(st) && st.phase == BlockHeaderPhase && !Refused(st, exact)
    ensures Stands(data, pos, Opened(st, HeaderValue(st.segment)), exact, whole)
  {
    FullSegment(data, pos, st, exact, whole);
  }

  /** Where an exhausted block leads: the next header, the checksum or the end. */
  function Left(st: Scanner): Scanner {
    if st.segment == [] then st.(phase := BlockHeaderPhase, segment := [0, 0, 0])
    else if st.segment[0] == 1 then st.(phase := ChecksumPhase, segment := [0, 0, 0, 0])
    else st.(phase := DonePhase, segment := [])
  }

  lemma AfterBlock(data: seq<byte>, pos: nat, st: Scanner, exact: bool, whole: Cut)
    requires Stands(data, pos, st, exact, whole) && st.phase == BlockDataPhase && st.blockBytes == 0
    ensures Stands(data, pos, Left(st), exact, whole)
  {
    assert data[pos..][0..] == data[pos..];
  }

  /** A block's bytes are cut off in any portions. */
  lemma AfterPart(data: seq<byte>, pos: nat, n: nat, st: Scanner, exact: bool, whole: Cut)
    requires Stands(data, pos, st, exact, whole) && st.phase == BlockDataPhase && n <= st.blockBytes &&
             pos + n <= |data|
    ensures Stands(data, pos + n, st.(blockBytes := st.blockBytes - n), exact, whole)
  {
    if pos + st.blockBytes <= |data| {
      assert data[pos..][st.blockBytes..] == data[pos + n..][st.blockBytes - n..];
    }
  }

  /** A chunk copied into a segment at its offset. */
  function Filled(st: Scanner, chunk: seq<byte>): (r: Scanner)
    requires st.offset + |chunk| <= |st.segment|
    ensures |r.segment| == |st.segment|
  {
    var end := st.offset + |chunk|;
    st.(segment := st.segment[..st.offset] + chunk + st.segment[end..], offset := end)
  }

  /** It extends what the segment holds of the data. */
  lemma AfterChunk(data: seq<byte>, pos: nat, chunk: seq<byte>, st: Scanner, exact: bool, whole: Cut)
    requires Stands(data, pos, st, exact, whole) && Collects(st) && st.offset + |chunk| <= |st.segment|
    requires pos + |chunk| <= |data| && chunk == data[pos..pos + |chunk|]
    ensures Stands(data, pos + |chunk|, Filled(st, chunk), exact, whole)
  {
    assert Filled(st, chunk).segment[..st.offset + |chunk|] == data[pos - st.offset..pos + |chunk|];
  }

  /** The bytes taken from the source never reach beyond the first frame. */
  lemma WithinFrame(data: seq<byte>, pos: nat, st: Scanner, exact: bool, whole: Cut)
    requires Stands(data, pos, st, exact, whole) && whole.Frame?
    ensures pos <= whole.length
    ensures st.phase == DonePhase ==> pos == whole.length
  {
    var d := data[pos - st.offset..];
    if Collects(st) { assert |st.segment| <= Ahead(st, exact, d).length; }
  }

  /** Nothing follows an unfinished segment or block at the end of the input. */
  lemma EndsShort(data: seq<byte>, st: Scanner, exact: bool, whole: Cut)
    requires Stands(data, |data|, st, exact, whole) && (Full(st) ==> Refused(st, exact))
    requires Collects(st) || (st.phase == BlockDataPhase && st.blockBytes > 0)
    ensures !whole.Frame?
  {
    if Full(st) { RefusedMeans(data, |data|, st, exact, whole); }
  }

  class FrameReader {
    const source: Source
    const exactOuter: bool
    /** What the one-shot cut makes of the whole input. */
    ghost const whole: Cut
    var phase: Phase
    var segment: seq<byte>
    var segmentOffset: nat
    var blockBytes: nat
    var hasChecksum: bool
    var done: bool

    constructor (source: Source, exactOuter: bool)
      requires source.Valid() && source.pos == 0
      ensures this.source == source && this.exactOuter == exactOuter && whole == CutFrame(source.data, exactOuter)
      ensures Valid() && Settled() && !done && (whole.Frame? ==> 0 < whole.length <= |source.data|)
    {
      this.source := source;
      this.exactOuter := exactOuter;
      whole := CutFrame(source.data, exactOuter);
      phase, segment, segmentOffset := MagicPhase, [0, 0, 0, 0], 0;
      blockBytes, hasChecksum, done := 0, false, false;
      new;
      Start(source.data, exactOuter);
    }

    function State(): Scanner
      reads this
    {
      Scanner(phase, segment, segmentOffset, blockBytes, hasChecksum)
    }

    ghost predicate Valid()
      reads this, source
    {
      Stands(source.data, source.pos, State(), exactOuter, whole) && (done ==> phase == DonePhase)
    }

    /** A segment is full only if it was refused. */
    ghost predicate Settled()
      reads this
    {
      Full(State()) ==> Refused(State(), exactOuter)
    }

    method AdvanceDescriptor() returns (ok: bool)
      requires Valid() && Full(State()) && phase == DescriptorPhase
      modifies this
      ensures Valid() && done == old(done)
      ensures ok <==> !old(Refused(State(), exactOuter))
      ensures ok ==> segmentOffset == 0
      ensures !ok ==> Refused(State(), exactOuter) && whole == Malformed
    {
      ghost var st := State();
      var descriptor := segment[0];
      if Refused(st, exactOuter) { RefusedMeans(source.data, source.pos, st, exactOuter, whole); }
      if descriptor / 8 % 4 != 0 { return false; }
      hasChecksum := HasChecksum(descriptor);
      if exactOuter && (descriptor % 4 != 0 || !hasChecksum) { return false; }
      phase, segment, segmentOffset := WindowPhase, seq(HeaderBytes(descriptor), _ => 0), 0;
      AfterDescriptor(source.data, source.pos, st, exactOuter, whole, segment);
      return true;
    }

    method AdvanceBlockHeader() returns (ok: bool)
      requires Valid() && Full(State()) && phase == BlockHeaderPhase
      modifies this
      ensures Valid() && done == old(done)
      ensures ok <==> !old(Refused(State(), exactOuter))
      ensures ok ==> segmentOffset == 0
      ensures !ok ==> Refused(State(), exactOuter) && whole == Malformed
    {
      ghost var st := State();
      if Refused(st, exactOuter) { RefusedMeans(source.data, source.pos, st, exactOuter, whole); }
      var value := HeaderValue(segment);
      if BlockType(value) == 3 { return false; }
      AfterBlockHeader(source.data, source.pos, st, exactOuter, whole);
      blockBytes, segmentOffset := BlockSize(value), 0;
      if value % 2 == 0 {
        phase, segment := BlockDataPhase, [];
      } else if blockBytes > 0 {
        phase, segment := BlockDataPhase, [if hasChecksum then 1 else 0];
      } else {
        AfterBlock(source.data, source.pos, Opened(st, value), exactOuter, whole);
        if hasChecksum {
          phase, segment := ChecksumPhase, [0, 0, 0, 0];
        } else {
          phase, segment := DonePhase, [];
        }
      }
      return true;
    }

    /** Past the magic number, the rest of the header, or the checksum. */
    method AdvanceFixed() returns (ok: bool)
      requires Valid() && Full(State()) && phase != DescriptorPhase && phase != BlockHeaderPhase
      modifies this
      ensures Valid() && done == old(done)
      ensures ok <==> !old(Refused(State(), exactOuter))
      ensures ok ==> segmentOffset == 0
      ensures !ok ==> Refused(State(), exactOuter) && whole == Malformed
    {
      ghost var st := State();
      if phase == MagicPhase {
        if segment != MAGIC {
          RefusedMeans(source.data, source.pos, st, exactOuter, whole);
          return false;
        }
        AfterMagic(source.data, source.pos, st, exactOuter, whole);
        phase, segment := DescriptorPhase, [0];
      } else if phase == WindowPhase {
        AfterWindow(source.data, source.pos, st, exactOuter, whole);
        phase, segment := BlockHeaderPhase, [0, 0, 0];
      } else {
        AfterChecksum(source.data, source.pos, st, exactOuter, whole);
        phase, segment := DonePhase, [];
      }
      segmentOffset := 0;
      return true;
    }

    /** Moves past a full segment, or refuses it exactly where the one-shot cut does. */
    method Advance() returns (ok: bool)
      requires Valid() && Full(State())
      modifies this
      ensures Valid() && done == old(done)
      ensures ok <==> !old(Refused(State(), exactOuter))
      ensures ok ==> segmentOffset == 0
      ensures !ok ==> Refused(State(), exactOuter) && whole == Malformed
    {
      if phase == DescriptorPhase {
        ok := AdvanceDescriptor();
      } else if phase == BlockHeaderPhase {
        ok := AdvanceBlockHeader();
      } else {
        ok := AdvanceFixed();
      }
    }

    /** Leaves an exhausted block for the next header, the checksum or the end. */
    method LeaveBlock()
      requires Valid() && phase == BlockDataPhase && blockBytes == 0
      modifies this
      ensures Valid() && Settled() && phase != BlockDataPhase && done == old(done)
    {
      AfterBlock(source.data, source.pos, State(), exactOuter, whole);
      if segment == [] {
        phase, segment := BlockHeaderPhase, [0, 0, 0];
      } else if segment[0] == 1 {
        phase, segment := ChecksumPhase, [0, 0, 0, 0];
      } else {
        phase, segment := DonePhase, [];
      }
    }

    /** Hands over bytes of the open block. */
    method ReadBlock(max: nat) returns (chunk: seq<byte>, err: Option<ReadError>)
      requires Valid() && phase == BlockDataPhase && blockBytes > 0 && max > 0
      modifies this, source
      ensures Valid() && Settled() && done == old(done)
      ensures old(source.pos) <= source.pos && chunk == source.data[old(source.pos)..source.pos] && |chunk| <= max
      ensures err != Some(Format)
      ensures source.EndOk(chunk, err) && (source.steady ==> err != Some(Failure) && (err.None? ==> chunk != []))
      ensures err == Some(Eof) && chunk == [] ==> !whole.Frame?
    {
      ghost var st := State();
      chunk, err := source.Read(if max > blockBytes then blockBytes else max);
      AfterPart(source.data, old(source.pos), |chunk|, st, exactOuter, whole);
      blockBytes := blockBytes - |chunk|;
      if err == Some(Eof) && chunk == [] { EndsShort(source.data, State(), exactOuter, whole); }
    }

    /** Copies bytes just taken from the source into the open segment. */
    method Fill(chunk: seq<byte>)
      requires |chunk| <= source.pos <= |source.data| && chunk == source.data[source.pos - |chunk|..source.pos]
      requires Stands(source.data, source.pos - |chunk|, State(), exactOuter, whole) && Collects(State()) && !done
      requires segmentOffset + |chunk| <= |segment|
      modifies this
      ensures Valid() && !done && State() == Filled(old(State()), chunk)
    {
      ghost var next := Filled(State(), chunk);
      assert Stands(source.data, source.pos, next, exactOuter, whole) by {
        AfterChunk(source.data, source.pos - |chunk|, chunk, State(), exactOuter, whole);
      }
      var end := segmentOffset + |chunk|;
      segment, segmentOffset := segment[..segmentOffset] + chunk + segment[end..], end;
      assert State() == next;
    }

    method Collect(max: nat) returns (chunk: seq<byte>, err: Option<ReadError>)
      requires Valid() && Collects(State()) && max > 0
      modifies this, source
      ensures Valid() && done == old(done) && Collects(State())
      ensures chunk == [] ==> State() == old(State())
      ensures old(source.pos) <= source.pos && chunk == source.data[old(source.pos)..source.pos] && |chunk| <= max
      ensures err != Some(Format) && (err == Some(Eof) ==> source.pos == |source.data|)
      ensures source.EndOk(chunk, err)
      ensures source.steady ==> err != Some(Failure) && (!old(Full(State())) && err.None? ==> chunk != [])
    {
      var remaining := |segment| - segmentOffset;
      chunk, err := source.Read(if max > remaining then remaining else max);
      if chunk != [] { Fill(chunk); }
    }

    /** Collects bytes of the open segment, and moves past it once it is full. */
    method ReadSegment(max: nat) returns (chunk: seq<byte>, err: Option<ReadError>)
      requires Valid() && Settled() && Collects(State()) && max > 0
      modifies this, source
      ensures Valid() && done == old(done)
      ensures err.None? || err == Some(Format) || chunk == [] ==> Settled()
      ensures old(source.pos) <= source.pos && chunk == source.data[old(source.pos)..source.pos] && |chunk| <= max
      ensures err == Some(Format) ==> whole == Malformed
      ensures source.EndOk(chunk, err) && (source.steady ==> err != Some(Failure) && (err.None? ==> chunk != []))
      ensures err == Some(Eof) && chunk == [] ==> !whole.Frame?
    {
      chunk, err := Collect(max);
      if err == Some(Eof) && chunk == [] { EndsShort(source.data, State(), exactOuter, whole); }
      if err.Some? || segmentOffset != |segment| { return; }
      var ok := Advance();
      if !ok { err := Some(Format); }
    }

    /** Bytes go through unchanged, an end is reported as the scanner's own only at the end of the first frame,
      * and an end that comes alone from the source means the input holds no whole frame. */
    method Read(max: nat) returns (chunk: seq<byte>, err: Option<ReadError>)
      requires Valid() && Settled()
      modifies this, source
      ensures Valid() && (err.None? || err == Some(Format) || chunk == [] ==> Settled())
      ensures old(source.pos) <= source.pos && chunk == source.data[old(source.pos)..source.pos] && |chunk| <= max
      ensures err == Some(Format) ==> whole == Malformed
      ensures err == Some(Eof) && chunk == [] ==> (done <==> whole.Frame?)
      ensures err.None? || chunk != [] ==> done == old(done)
      ensures source.EndOk(chunk, err)
      ensures source.steady ==> err != Some(Failure) && (max > 0 && err.None? ==> chunk != [])
    {
      chunk, err := [], None;
      if max == 0 { return; }
      while phase == BlockDataPhase && blockBytes == 0
        invariant Valid() && Settled() && done == old(done) && source.pos == old(source.pos)
        decreases phase == BlockDataPhase
      {
        LeaveBlock();
      }
      if phase == DonePhase {
        done := true;
        return [], Some(Eof);
      }
      if phase == BlockDataPhase {
        chunk, err := ReadBlock(max);
      } else {
        chunk, err := ReadSegment(max);
      }
    }

    /** Accepts exactly an input that ends where its first frame does. */
    method RequirePhysicalEof() returns (err: Option<ReadError>)
      requires Valid()
      modifies source
      ensures err.None? ==> whole == Frame(|source.data|)
      ensures !done ==> err == Some(Format)
      ensures err.None? || err == Some(Format) || err == Some(Failure)
      ensures done && whole == Frame(|source.data|) ==> err != Some(Format)
      ensures source.steady ==> err != Some(Failure)
    {
      if !done { return Some(Format); }
      assert whole == Frame(source.pos);
      var chunk, probe := source.Read(1);
      if chunk != [] || probe.None? { return Some(Format); }
      if probe == Some(Eof) { return None; }
      return probe;
    }
  }

  /** More reads than there are bytes, none of them empty. */
  predicate Plenty(sizes: seq<nat>, data: seq<byte>) {
    |sizes| > |data| && forall i :: 0 <= i < |sizes| ==> sizes[i] > 0
  }

  /** A consumer that reads with any buffer sizes until the first error. */
  method Drain(reader: FrameReader, sizes: seq<nat>)
    returns (emitted: seq<byte>, stopped: Option<ReadError>, withBytes: bool)
    requires reader.Valid() && reader.Settled() && reader.source.pos == 0 && !reader.done
    modifies reader, reader.source
    ensures reader.Valid()
    ensures emitted == reader.source.data[..reader.source.pos]
    ensures stopped == Some(Format) ==> reader.whole == Malformed
    ensures stopped == Some(Eof) && !withBytes ==> (reader.done <==> reader.whole.Frame?)
    ensures stopped == Some(Eof) && withBytes ==>
            reader.source.pos == |reader.source.data| && reader.source.end != Alone
    ensures withBytes ==> !reader.done
    ensures reader.source.end == WithBytes && reader.done ==>
            reader.source.pos < |reader.source.data| || reader.source.data == []
    ensures reader.source.steady ==> stopped != Some(Failure)
    ensures reader.source.steady && Plenty(sizes, reader.source.data) ==> stopped.Some?
  {
    emitted, stopped, withBytes := [], None, false;
    for i := 0 to |sizes|
      invariant reader.Valid() && reader.Settled() && !reader.done && stopped.None? && !withBytes
      invariant emitted == reader.source.data[..reader.source.pos]
      invariant reader.source.steady && Plenty(sizes, reader.source.data) ==> i <= |emitted|
      invariant reader.source.end == WithBytes ==> reader.source.pos < |reader.source.data| || reader.source.data == []
    {
      var chunk;
      chunk, stopped := reader.Read(sizes[i]);
      emitted := emitted + chunk;
      if stopped.Some? {
        withBytes := chunk != [];
        return;
      }
    }
  }

  /** What a whole run promises about an input whose one-shot cut is `cut`: nothing beyond the first frame comes out,
    * and at an end exactly the first frame has; an input is accepted only if it is that one frame. */
  ghost predicate RunOk(cut: Cut, data: seq<byte>, emitted: seq<byte>, stopped: Option<ReadError>,
                        verdict: Option<ReadError>)
  {
    && emitted <= data
    && (cut.Frame? ==> |emitted| <= cut.length <= |data|)
    && (cut.Frame? && stopped == Some(Eof) ==> emitted == data[..cut.length])
    && (verdict.None? ==> cut == Frame(|data|) && emitted == data)
  }

  /** The verdict on an input read to the end. A source that reports its end alone is accepted exactly if it holds one
    * whole frame and nothing else. A source that reports its end with its last bytes is always refused: the scanner
    * passes that end on before it notices that the frame is over. */
  ghost predicate Decided(cut: Cut, data: seq<byte>, end: EndStyle, verdict: Option<ReadError>) {
    && (verdict.None? || verdict == Some(Format))
    && (end == Alone ==> (verdict.None? <==> cut == Frame(|data|)))
    && (end == WithBytes ==> verdict == Some(Format))
  }

  method DrainAndVerify(reader: FrameReader, sizes: seq<nat>)
    returns (emitted: seq<byte>, stopped: Option<ReadError>, verdict: Option<ReadError>)
    requires reader.Valid() && reader.Settled() && reader.source.pos == 0 && !reader.done
    requires reader.whole.Frame? ==> 0 < reader.whole.length <= |reader.source.data|
    modifies reader, reader.source
    ensures RunOk(reader.whole, reader.source.data, emitted, stopped, verdict)
    ensures reader.source.steady && Plenty(sizes, reader.source.data) ==>
              stopped.Some? && Decided(reader.whole, reader.source.data, reader.source.end, verdict)
  {
    var withBytes;
    emitted, stopped, withBytes := Drain(reader, sizes);
    match stopped {
      case Some(Eof) =>
      case Some(_) =>
      case None =>
    }
    if reader.whole.Frame? {
      WithinFrame(reader.source.data, reader.source.pos, reader.State(), reader.exactOuter, reader.whole);
    }
    verdict := reader.RequirePhysicalEof();
  }

  /** A whole run, for every input, every chunking of the source and every choice of buffers. A steady source and
    * enough reads always reach a verdict, and how the source reports its end decides which. */
  method Scan(source: Source, exactOuter: bool, sizes: seq<nat>)
    returns (emitted: seq<byte>, stopped: Option<ReadError>, verdict: Option<ReadError>)
    requires source.Valid() && source.pos == 0
    modifies source
    ensures RunOk(CutFrame(source.data, exactOuter), source.data, emitted, stopped, verdict)
    ensures source.steady && Plenty(sizes, source.data) ==>
              stopped.Some? && Decided(CutFrame(source.data, exactOuter), source.data, source.end, verdict)
  {
    var reader := new FrameReader(source, exactOuter);
    emitted, stopped, verdict := DrainAndVerify(reader, sizes);
  }
}
