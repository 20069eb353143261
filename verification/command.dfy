/** The minimal hexdump command (command.go): the BytesPerLine default and the
    Executor, which cuts every read of up to 4096 bytes into lines of
    BytesPerLine bytes, renders each canonically with padding to the full
    width, and ends with the total byte count. The read loop is stated for any
    printer `p`; `LinePrinter(bpl)` is the one the command uses. */
module Command {
  import opened Formats
  import opened Reader
  import HD = Hexdump
  import HexdumpStream
  import CommandOpt

  /** The line width used when the BytesPerLine option is left at 0. */
  const DefaultBytesPerLine := 16

  /** The Executor reads into a buffer of this many bytes. */
  const BufferSize := 4096

  /** A group space goes in front of every positive multiple of this position. */
  const GroupSize := 8

  /** `Hexdump(parameters...)` once the parameters are applied: a line width
      of 0 becomes 16, and nothing else is touched. */
  function Hexdump(f: CommandOpt.Flags): (r: CommandOpt.Flags)
    ensures r.bytesPerLine != 0
    ensures f.bytesPerLine != 0 ==> r == f
    ensures f.bytesPerLine == 0 ==> r.bytesPerLine == DefaultBytesPerLine
    ensures r.(bytesPerLine := f.bytesPerLine) == f
  {
    if f.bytesPerLine == 0 then f.(bytesPerLine := DefaultBytesPerLine) else f
  }

  // ---------------------------------------------------------------------------
  // One line
  // ---------------------------------------------------------------------------

  /** The extra space in front of position `k` of a line. */
  function Gap(k: nat): string
  {
    if k > 0 && k % GroupSize == 0 then " " else ""
  }

  /** The hex cells of `data`, whose first byte sits at position `k` of the line. */
  function HexCells(data: seq<byte>, k: nat): string
    decreases |data|
  {
    if |data| == 0 then "" else Gap(k) + Hex2(data[0], false) + " " + HexCells(data[1..], k + 1)
  }

  /** The blank slots from position `k` up to the line width `bpl`. */
  function Padding(k: nat, bpl: nat): string
    decreases bpl - k
  {
    if k >= bpl then "" else Gap(k) + "   " + Padding(k + 1, bpl)
  }

  /** How many group spaces go in front of positions 0 to n - 1: one per
      positive multiple of 8 below n. */
  function GapsBelow(n: nat): nat
  {
    if n == 0 then 0 else (n - 1) / GroupSize
  }

  lemma GapStep(k: nat)
    ensures GapsBelow(k + 1) == GapsBelow(k) + |Gap(k)|
  {
  }

  /** Three columns per byte, plus the group spaces in front of its positions. */
  lemma {:induction false} HexCellsLength(data: seq<byte>, k: nat)
    ensures |HexCells(data, k)| == 3 * |data| + GapsBelow(k + |data|) - GapsBelow(k)
    decreases |data|
  {
    if |data| > 0 {
      HexCellsLength(data[1..], k + 1);
      GapStep(k);
    }
  }

  /** Three columns per blank slot, plus the group spaces in front of them:
      padding follows the same grouping rule as the bytes. */
  lemma {:induction false} PaddingLength(k: nat, bpl: nat)
    requires k <= bpl
    ensures |Padding(k, bpl)| == 3 * (bpl - k) + GapsBelow(bpl) - GapsBelow(k)
    decreases bpl - k
  {
    if k < bpl {
      PaddingLength(k + 1, bpl);
      GapStep(k);
    }
  }

  /** One line of the Executor for a slice of at most `bpl` bytes: the offset,
      a cell per byte, blank slots up to `bpl`, then the ASCII column between
      bars. However few bytes the slice holds, the cells and the padding take
      3 * bpl + (bpl - 1) / 8 columns, so the ASCII column of every full-width
      run starts in the same column. */
  function Line(chunk: seq<byte>, bpl: nat, offset: int): (line: string)
    ensures 0 < bpl && |chunk| <= bpl ==>
              |line| == |Hex8(offset)| + 6 + 3 * bpl + (bpl - 1) / GroupSize + |chunk|
  {
    HexCellsLength(chunk, 0);
    PaddingLength(if |chunk| <= bpl then |chunk| else bpl, bpl);
    Hex8(offset) + "  " + HexCells(chunk, 0) + Padding(|chunk|, bpl) + " |" + AsciiColumn(chunk) + "|\n"
  }

  /** What the Executor writes: `Line` for each slice, and `%08x\n` at the end. */
  function LinePrinter(bpl: nat): HD.Printer
  {
    HD.Printer((c: seq<byte>, o: int) => Line(c, bpl, o), (o: int) => HD.Trailer(o))
  }

  // ---------------------------------------------------------------------------
  // One read
  // ---------------------------------------------------------------------------

  /** The inner loop over one read of `data`: a line for `data[i..min(i + bpl, n)]`
      at `offset + i`, for i = 0, bpl, 2 bpl, ... while i < n. It writes the
      lines of the read's slices in order, each at the offset of its first byte. */
  function Block(p: HD.Printer, bpl: nat, data: seq<byte>, offset: int): (r: string)
    requires bpl > 0
    ensures r == HexdumpStream.Lines(p, Split(data, bpl), offset)
    decreases |data|
  {
    if |data| == 0 then ""
    else
      var end := if bpl < |data| then bpl else |data|;
      var rest := Block(p, bpl, data[end..], offset + end);
      assert Split(data, bpl) == [data[..end]] + Split(data[end..], bpl) by {
        assert data[end..] == [] ==> Split(data[end..], bpl) == [];
        assert end == |data| ==> data[..end] == data;
      }
      HexdumpStream.LinesCons(p, data[..end], Split(data[end..], bpl), offset, offset + end);
      p.line(data[..end], offset) + rest
  }

  /** The slices the inner loop cuts one read into. They partition the read:
      together they are the read, each holds 1 to `bpl` bytes, and all but
      the last hold exactly `bpl`. */
  function Split(data: seq<byte>, bpl: nat): (cs: seq<seq<byte>>)
    requires bpl > 0
    ensures HexdumpStream.Flatten(cs) == data
    ensures forall i :: 0 <= i < |cs| ==> 1 <= |cs[i]| <= bpl
    ensures forall i :: 0 <= i < |cs| - 1 ==> |cs[i]| == bpl
    decreases |data|
  {
    if |data| == 0 then []
    else if |data| <= bpl then (HexdumpStream.FlattenCons(data, []); [data])
    else
      var rest := Split(data[bpl..], bpl);
      HexdumpStream.FlattenCons(data[..bpl], rest);
      assert data == data[..bpl] + data[bpl..];
      [data[..bpl]] + rest
  }

  // ---------------------------------------------------------------------------
  // The Executor
  // ---------------------------------------------------------------------------

  /** The outer loop of the Executor over the script `s`, with `offset` bytes
      already read: every read's bytes become lines; EOF ends with the
      trailer, another error ends without it and is returned. A read of no
      bytes and no error just reads again. */
  function Run(p: HD.Printer, bpl: nat, s: Source, offset: int): (res: HD.Outcome)
    requires bpl > 0
    ensures res.err != EOF
    decreases SourceSize(s)
  {
    var st := ReadSource(s, BufferSize);
    var text := Block(p, bpl, st.data, offset);
    var next := offset + |st.data|;
    if st.err == EOF then HD.Outcome(text + p.trailer(next), Nil)
    else if st.err != Nil then HD.Outcome(text, st.err)
    else
      ReadSourceSplits(s, BufferSize);
      var rest := Run(p, bpl, st.next.src, next);
      HD.Outcome(text + rest.output, rest.err)
  }

  /** The Executor's closure on standard input `stdin`. Only BytesPerLine is
      read from the flags; the offset starts at 0. */
  function Execute(f: CommandOpt.Flags, stdin: Source): (res: HD.Outcome)
    requires f.bytesPerLine > 0
    ensures res.err != EOF
  {
    Run(LinePrinter(f.bytesPerLine), f.bytesPerLine, stdin, 0)
  }
}
