/** The full hexdump command (hexdump.go): option defaults, mode selection,
    the four line renderers, skipping and limiting the source, and the read
    loop that renders one line per read and ends with the final offset. */
module Hexdump {
  import opened Formats
  import opened Seqs
  import opened Reader
  import Opt

  /** The line width used when the BytesPerLine option is left at 0. */
  const DefaultBytesPerLine := 16

  /** Canonical lines always lay out this many hex slots, whatever the line width. */
  const CanonicalSlots := 16

  /** The canonical line puts one extra space in front of this slot. */
  const GroupBreak := 8

  /** `io.Discard` reads in blocks of this many bytes while skipping. */
  const DiscardBlock := 8192

  // ---------------------------------------------------------------------------
  // Options and mode
  // ---------------------------------------------------------------------------

  /** `Hexdump(parameters...)` once the parameters are applied: a line width of
      0 becomes 16, and nothing else is touched. */
  function Hexdump(f: Opt.Flags): (r: Opt.Flags)
    ensures r.bytesPerLine != 0
    ensures f.bytesPerLine != 0 ==> r == f
    ensures f.bytesPerLine == 0 ==> r.bytesPerLine == DefaultBytesPerLine
    ensures r.(bytesPerLine := f.bytesPerLine) == f
  {
    if f.bytesPerLine == 0 then f.(bytesPerLine := DefaultBytesPerLine) else f
  }

  datatype Mode = CanonicalMode | OctalMode | DecimalMode | HexMode

  /** The renderer a chunk goes to. The flags are tried in the order
      Canonical, Octal, Decimal, Hex-or-Uppercase, and with none of them set
      the output is canonical. */
  function SelectMode(f: Opt.Flags): (m: Mode)
    ensures m == CanonicalMode <==> f.canonical || !(f.octal || f.decimal || f.hex || f.uppercase)
    ensures m == OctalMode <==> !f.canonical && f.octal
    ensures m == DecimalMode <==> !f.canonical && !f.octal && f.decimal
    ensures m == HexMode <==> !f.canonical && !f.octal && !f.decimal && (f.hex || f.uppercase)
  {
    if f.canonical then CanonicalMode
    else if f.octal then OctalMode
    else if f.decimal then DecimalMode
    else if f.hex || f.uppercase then HexMode
    else CanonicalMode
  }

  // ---------------------------------------------------------------------------
  // Line renderers
  // ---------------------------------------------------------------------------

  /** One canonical hex slot: the byte and a space, or three spaces past the data. */
  function Slot(data: seq<byte>, upper: bool, i: nat): (s: string)
    ensures |s| == 3
  {
    if i < |data| then Hex2(data[i], upper) + " " else "   "
  }

  /** Slots `i` to 15 of a canonical line, with the extra space before slot 8. */
  function Slots(data: seq<byte>, upper: bool, i: nat): (s: string)
    requires i <= CanonicalSlots
    ensures |s| == 3 * (CanonicalSlots - i) + (if i <= GroupBreak then 1 else 0)
    decreases CanonicalSlots - i
  {
    if i == CanonicalSlots then ""
    else (if i == GroupBreak then " " else "") + Slot(data, upper, i) + Slots(data, upper, i + 1)
  }

  /** `printCanonical`: offset, sixteen hex slots, then the ASCII column of
      every byte of the chunk between bars. */
  function PrintCanonical(data: seq<byte>, offset: int, upper: bool): (line: string)
    ensures |line| == |Hex8(offset)| + 55 + |data|
    ensures 0 <= offset < 0x1_0000_0000 ==> |line| == 63 + |data|
  {
    Hex8Width2(offset);
    Hex8(offset) + "  " + Slots(data, upper, 0) + (" |" + AsciiColumn(data) + "|\n")
  }

  /** The per-byte field of the octal, decimal and hex displays. */
  datatype Verb = OctalVerb | DecimalVerb | HexVerb(upper: bool)

  function CellWidth(v: Verb): nat
  {
    if v.HexVerb? then 2 else 3
  }

  /** `%03o`, `%3d`, or `%02x`/`%02X` of one byte. */
  function Cell(v: Verb, b: byte): (s: string)
    ensures |s| == CellWidth(v)
  {
    match v
    case OctalVerb => Oct3(b)
    case DecimalVerb => Dec3(b)
    case HexVerb(upper) => Hex2(b, upper)
  }

  /** Where the group of byte `k` starts: each group is a space and a cell. */
  function GroupStart(v: Verb, k: nat): nat
  {
    if v.HexVerb? then 3 * k else 4 * k
  }

  /** One space and one cell per byte. */
  function Groups(v: Verb, data: seq<byte>): (s: string)
    ensures |s| == GroupStart(v, |data|)
  {
    if |data| == 0 then "" else " " + Cell(v, data[0]) + Groups(v, data[1..])
  }

  /** `printOctal`. */
  function PrintOctal(data: seq<byte>, offset: int): (line: string)
    ensures 0 <= offset < 0x1_0000_0000 ==> |line| == 10 + 4 * |data|
  {
    Hex8Width2(offset);
    Hex8(offset) + " " + Groups(OctalVerb, data) + "\n"
  }

  /** `printDecimal`. */
  function PrintDecimal(data: seq<byte>, offset: int): (line: string)
    ensures 0 <= offset < 0x1_0000_0000 ==> |line| == 10 + 4 * |data|
  {
    Hex8Width2(offset);
    Hex8(offset) + " " + Groups(DecimalVerb, data) + "\n"
  }

  /** `printHex`. */
  function PrintHex(data: seq<byte>, offset: int, upper: bool): (line: string)
    ensures 0 <= offset < 0x1_0000_0000 ==> |line| == 10 + 3 * |data|
  {
    Hex8Width2(offset);
    Hex8(offset) + " " + Groups(HexVerb(upper), data) + "\n"
  }

  lemma Hex8Width2(offset: int)
    ensures 0 <= offset < 0x1_0000_0000 ==> |Hex8(offset)| == 8
  {
    if 0 <= offset < 0x1_0000_0000 {
      Hex8Width(offset);
    }
  }

  /** The line the read loop writes for one chunk. Whatever the mode, it
      opens with the offset field, which reads back to the offset, and ends
      with a newline, so consecutive lines never run together. */
  function Render(f: Opt.Flags, data: seq<byte>, offset: int): (line: string)
    ensures |line| > |Hex8(offset)| && line[..|Hex8(offset)|] == Hex8(offset)
    ensures ParseOffset(line[..|Hex8(offset)|]) == offset
    ensures line[|line| - 1] == '\n'
  {
    Hex8RoundTrip(offset);
    match SelectMode(f)
    case CanonicalMode =>
      OffsetFirst(Hex8(offset), "  ", Slots(data, f.uppercase, 0), " |" + AsciiColumn(data) + "|\n");
      PrintCanonical(data, offset, f.uppercase)
    case OctalMode =>
      OffsetFirst(Hex8(offset), " ", Groups(OctalVerb, data), "\n");
      PrintOctal(data, offset)
    case DecimalMode =>
      OffsetFirst(Hex8(offset), " ", Groups(DecimalVerb, data), "\n");
      PrintDecimal(data, offset)
    case HexMode =>
      OffsetFirst(Hex8(offset), " ", Groups(HexVerb(f.uppercase), data), "\n");
      PrintHex(data, offset, f.uppercase)
  }

  /** A line made of the offset field `h`, two more fields, and a last field
      ending in a newline opens with `h` and ends with the newline. */
  lemma OffsetFirst(h: string, a: string, b: string, c: string)
    requires |c| > 0 && c[|c| - 1] == '\n'
    ensures var line := h + a + b + c;
            |line| > |h| && line[..|h|] == h && line[|line| - 1] == '\n'
  {
    Assoc(h, a, b);
    Assoc(h, a + b, c);
    PrefixOfConcat(h, a + b + c);
  }

  /** `printASCII`, built byte by byte as the string builder does; it agrees
      with the ASCII column of the canonical line. */
  method PrintASCII(data: seq<byte>) returns (s: string)
    ensures |s| == |data|
    ensures forall i :: 0 <= i < |data| ==>
              (if IsPrintable(data[i]) then s[i] as int == data[i] else s[i] == '.')
    ensures s == AsciiColumn(data)
  {
    s := "";
    var i := 0;
    while i < |data|
      invariant 0 <= i <= |data|
      invariant |s| == i
      invariant forall k :: 0 <= k < i ==> s[k] == AsciiChar(data[k])
    {
      if 32 <= data[i] <= 126 {
        s := s + [data[i] as char];
      } else {
        s := s + ".";
      }
      i := i + 1;
    }
    AsciiColumnAt(data);
  }

  // ---------------------------------------------------------------------------
  // The read loop
  // ---------------------------------------------------------------------------

  /** What a run writes to the output, and the error it returns. */
  datatype Outcome = Outcome(output: string, err: GoError)

  /** The closing line: the final offset alone, as the same lower-case field
      that opens every line, which reads back, then a newline. */
  function Trailer(offset: int): (t: string)
    ensures |t| == |Hex8(offset)| + 1 && t[|t| - 1] == '\n'
    ensures t[..|t| - 1] == Hex8(offset)
    ensures ParseOffset(t[..|t| - 1]) == offset
  {
    Hex8RoundTrip(offset);
    PrefixOfConcat(Hex8(offset), "\n");
    Hex8(offset) + "\n"
  }

  /** What the read loop writes: a line per chunk at its offset, and the
      closing line at the final offset. */
  datatype Printer = Printer(line: (seq<byte>, int) -> string, trailer: int -> string)

  /** The printer the flags select. */
  function PrinterOf(f: Opt.Flags): Printer
  {
    Printer((d: seq<byte>, o: int) => Render(f, d, o), (o: int) => Trailer(o))
  }

  /** `hexdump(reader, output)` entered with `offset`, with the flags' line
      width and renderer. */
  function Dump(f: Opt.Flags, r: Reader, offset: int): (res: Outcome)
    requires f.bytesPerLine > 0
    ensures res.err != EOF
  {
    Loop(PrinterOf(f), f.bytesPerLine, r, offset)
  }

  /** The loop of `hexdump`: read up to `bpl` bytes at a time; stop at a read
      of 0 bytes whatever its error; render every non-empty read with `p.line`;
      end with `p.trailer` at the final offset unless a read failed with an error other than
      EOF, which is returned instead. */
  function Loop(p: Printer, bpl: nat, r: Reader, offset: int): (res: Outcome)
    requires bpl > 0
    ensures res.err != EOF
    decreases Size(r)
  {
    var st := Read(r, bpl);
    if |st.data| == 0 then Outcome(p.trailer(offset), Nil)
    else
      var text := p.line(st.data, offset);
      var next := offset + |st.data|;
      if st.err == EOF then Outcome(text + p.trailer(next), Nil)
      else if st.err != Nil then Outcome(text, st.err)
      else
        ReadSplits(r, bpl);
        var rest := Loop(p, bpl, st.next, next);
        Outcome(text + rest.output, rest.err)
  }

  // ---------------------------------------------------------------------------
  // Skipping
  // ---------------------------------------------------------------------------

  datatype Discarded = Discarded(written: nat, err: GoError, rest: Reader)

  /** `io.Discard.ReadFrom(r)`: read blocks until the reader reports an error;
      EOF counts as success. `written` is what had been read on entry. */
  function DiscardFrom(r: Reader, written: nat): (d: Discarded)
    ensures d.err != EOF
    ensures d.rest.Limited? == r.Limited?
    ensures written <= d.written
    decreases Size(r)
  {
    var st := Read(r, DiscardBlock);
    var total := written + |st.data|;
    if st.err == Nil then (ReadSplits(r, DiscardBlock); DiscardFrom(st.next, total))
    else Discarded(total, if st.err == EOF then Nil else st.err, st.next)
  }

  /** What `DiscardFrom` reports as written is exactly what it took from the
      front of the source. */
  lemma {:induction false} DiscardConsumes(r: Reader, written: nat)
    ensures var d := DiscardFrom(r, written);
            && d.written - written <= |Bytes(r.src)|
            && Bytes(d.rest.src) == Bytes(r.src)[d.written - written..]
    decreases Size(r)
  {
    var st := Read(r, DiscardBlock);
    var total := written + |st.data|;
    var d := DiscardFrom(r, written);
    var rest := Bytes(st.next.src);
    ReadSplits(r, DiscardBlock);
    if st.err == Nil {
      assert d == DiscardFrom(st.next, total);
      DiscardConsumes(st.next, total);
      var j := d.written - total;
      assert 0 <= j <= |rest| && Bytes(d.rest.src) == rest[j..];
      assert d.written - written == |st.data| + j;
      DropConcat(st.data, rest, j);
    } else {
      assert d.written == total && d.rest == st.next;
      DropConcat(st.data, rest, 0);
    }
  }

  /** Through `io.LimitReader`, `DiscardFrom` takes no more than the limit. */
  lemma {:induction false} DiscardWithinLimit(r: Reader, written: nat)
    requires r.Limited? && r.remaining >= 0
    ensures DiscardFrom(r, written).written - written <= r.remaining
    decreases Size(r)
  {
    var st := Read(r, DiscardBlock);
    if st.err == Nil {
      ReadSplits(r, DiscardBlock);
      DiscardWithinLimit(st.next, written + |st.data|);
    }
  }

  datatype Skipped = Skipped(written: nat, err: GoError, rest: Source)

  /** `io.CopyN(io.Discard, s, n)`: discard through `io.LimitReader(s, n)`;
      reaching `n` bytes is success whatever the last read said, and falling
      short without an error is EOF. */
  function CopyN(s: Source, n: int): (k: Skipped)
    requires n > 0
    ensures k.written <= n
    ensures k.err == Nil <==> k.written == n
    ensures k.written <= |Bytes(s)|
    ensures Bytes(k.rest) == Bytes(s)[k.written..]
  {
    DiscardConsumes(Limited(n, s), 0);
    DiscardWithinLimit(Limited(n, s), 0);
    var d := DiscardFrom(Limited(n, s), 0);
    if d.written == n then Skipped(n, Nil, d.rest.src)
    else if d.err == Nil then Skipped(d.written, EOF, d.rest.src)
    else Skipped(d.written, d.err, d.rest.src)
  }

  /** `processSource` with the flags' line width, renderer, SkipBytes and
      ReadBytes. */
  function ProcessSource(f: Opt.Flags, s: Source): (res: Outcome)
    requires f.bytesPerLine > 0
    ensures res.err != EOF
  {
    Process(PrinterOf(f), f.bytesPerLine, f.skipBytes, f.readBytes, s)
  }

  /** `processSource`: skip `skip` bytes, giving up on any error but EOF;
      wrap the rest in `io.LimitReader` when `limit` is positive; run the loop
      with offsets counted from `skip`. */
  function Process(p: Printer, bpl: nat, skip: int, limit: int, s: Source): (res: Outcome)
    requires bpl > 0
    ensures res.err != EOF
  {
    var skipped := if skip > 0 then CopyN(s, skip) else Skipped(0, Nil, s);
    if skipped.err != Nil && skipped.err != EOF then Outcome("", skipped.err)
    else
      var reader := if limit > 0 then Limited(limit, skipped.rest) else Plain(skipped.rest);
      Loop(p, bpl, reader, skip)
  }
}
