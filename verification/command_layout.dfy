/** Properties of the minimal command's line: how wide its numeric area is
    for any line width, where every byte's cell sits and that it reads back
    to the byte, and that at width 16 it is exactly the full command's
    canonical line. */
module CommandLayout {
  import opened Formats
  import opened Seqs
  import HD = Hexdump
  import opened Command
  import HexdumpLayout

  // ---------------------------------------------------------------------------
  // Widths
  // ---------------------------------------------------------------------------

  /** Every line of a slice of `n` bytes is 14 + 3 * bpl + (bpl - 1) / 8 + n
      characters long, for offsets below 2^32. */
  lemma LineLength(chunk: seq<byte>, bpl: nat, offset: int)
    requires 0 < bpl && |chunk| <= bpl && 0 <= offset < 0x1_0000_0000
    ensures |Line(chunk, bpl, offset)| == 14 + 3 * bpl + (bpl - 1) / 8 + |chunk|
  {
    Hex8Width(offset);
  }

  // ---------------------------------------------------------------------------
  // Fields
  // ---------------------------------------------------------------------------

  lemma LineParts(chunk: seq<byte>, bpl: nat, offset: int)
    ensures var area := HexCells(chunk, 0) + Padding(|chunk|, bpl);
            Line(chunk, bpl, offset) == Hex8(offset) + ("  " + area + (" |" + AsciiColumn(chunk) + "|\n"))
  {
    var h, cells, pad, ascii := Hex8(offset), HexCells(chunk, 0), Padding(|chunk|, bpl), AsciiColumn(chunk);
    assert Line(chunk, bpl, offset) == h + "  " + cells + pad + " |" + ascii + "|\n";
    var cd, efg := cells + pad, " |" + ascii + "|\n";
    Assoc(h + "  ", cells, pad);
    Assoc(h + "  " + cd, " |", ascii);
    Assoc(h + "  " + cd, " |" + ascii, "|\n");
    Assoc(h, "  ", cd);
    Assoc(h, "  " + cd, efg);
  }

  /** The line starts with the offset, which reads back, and two spaces, and
      ends with the ASCII column of the slice between ` |` and `|\n`. */
  lemma LineFields(chunk: seq<byte>, bpl: nat, offset: int)
    requires 0 <= offset < 0x1_0000_0000
    ensures var line := Line(chunk, bpl, offset);
            && |line| >= 14 + |chunk|
            && line[..8] == Hex8(offset) && ParseOffset(line[..8]) == offset
            && line[8..10] == "  "
            && line[|line| - |chunk| - 4..] == " |" + AsciiColumn(chunk) + "|\n"
  {
    var line := Line(chunk, bpl, offset);
    var h := Hex8(offset);
    var area := HexCells(chunk, 0) + Padding(|chunk|, bpl);
    var tail := " |" + AsciiColumn(chunk) + "|\n";
    assert line == h + ("  " + area + tail) && |h| == 8 by {
      Hex8Width(offset);
      LineParts(chunk, bpl, offset);
    }
    FieldsOf(line, h, area, tail);
    Hex8RoundTrip(offset);
  }

  /** The fields of a line made of an eight-column offset field, two spaces,
      the numeric area and the tail. */
  lemma FieldsOf(line: string, h: string, area: string, tail: string)
    requires line == h + ("  " + area + tail) && |h| == 8
    ensures |line| == 10 + |area| + |tail|
    ensures line[..8] == h && line[8..10] == "  " && line[|line| - |tail|..] == tail
  {
    SuffixThree(h, "  ", area, tail);
    PrefixOfConcat(h, "  " + area + tail);
  }

  lemma {:induction false} HexCellsConcat(a: seq<byte>, b: seq<byte>, k: nat)
    ensures HexCells(a + b, k) == HexCells(a, k) + HexCells(b, k + |a|)
    decreases |a|
  {
    if |a| > 0 {
      var head := Gap(k) + (Hex2(a[0], false) + " ");
      var x, y := HexCells(a[1..], k + 1), HexCells(b, k + |a|);
      assert (a + b)[0] == a[0] && (a + b)[1..] == a[1..] + b;
      assert HexCells(a[1..] + b, k + 1) == x + y by {
        assert k + 1 + |a[1..]| == k + |a|;
        HexCellsConcat(a[1..], b, k + 1);
      }
      HexCellsHead(a + b, k);
      HexCellsHead(a, k);
      Assoc(head, x, y);
    } else {
      assert a + b == b;
    }
  }

  /** Where the cell of byte `j` starts in the numeric area: three columns per
      earlier byte, plus the group spaces up to and including its own. */
  function CellStart(j: nat): nat
  {
    3 * j + GapsBelow(j + 1)
  }

  /** Byte `j` of the slice is shown as its two lower-case hex digits and a
      space at `CellStart(j)` of the numeric area. */
  lemma CellAt(chunk: seq<byte>, j: nat)
    requires j < |chunk|
    ensures var cells := HexCells(chunk, 0);
            && CellStart(j) + 3 <= |cells|
            && cells[CellStart(j)..CellStart(j) + 2] == Hex2(chunk[j], false)
            && cells[CellStart(j) + 2] == ' '
  {
    var pre, x, post := CellsAround(chunk, j);
    PieceAt(HexCells(chunk, 0), pre, x, post, CellStart(j));
  }

  /** The cells of a slice around byte `j`: the cells before it and its group
      space, which end at `CellStart(j)`, then its two digits and a space,
      then the cells after it. */
  lemma CellsAround(chunk: seq<byte>, j: nat) returns (pre: string, x: string, post: string)
    requires j < |chunk|
    ensures pre == HexCells(chunk[..j], 0) + Gap(j) && |pre| == CellStart(j)
    ensures x == Hex2(chunk[j], false)
    ensures HexCells(chunk, 0) == pre + (x + " ") + post
  {
    var before, rest := chunk[..j], chunk[j..];
    x := Hex2(chunk[j], false);
    pre := HexCells(before, 0) + Gap(j);
    post := HexCells(rest[1..], j + 1);
    assert chunk == before + rest;
    HexCellsConcat(before, rest, 0);
    HexCellsHead(rest, j);
    assert rest[0] == chunk[j];
    Assoc(HexCells(before, 0), Gap(j) + (x + " "), post);
    Assoc(HexCells(before, 0), Gap(j), x + " ");
    PrefixLength(before, j);
  }

  lemma PieceAt(s: string, pre: string, x: string, post: string, i: nat)
    requires s == pre + (x + " ") + post && |pre| == i
    ensures i + |x| + 1 <= |s| && s[i..i + |x|] == x && s[i + |x|] == ' '
  {
    ThreeSlices(pre, x + " ", post);
    assert (x + " ")[..|x|] == x;
  }

  lemma HexCellsHead(data: seq<byte>, k: nat)
    requires |data| > 0
    ensures HexCells(data, k) == Gap(k) + (Hex2(data[0], false) + " ") + HexCells(data[1..], k + 1)
  {
  }

  /** The cells of the first `j` bytes and the gap in front of byte `j` end
      where byte `j`'s cell starts. */
  lemma PrefixLength(before: seq<byte>, j: nat)
    requires |before| == j
    ensures |HexCells(before, 0) + Gap(j)| == CellStart(j)
  {
    HexCellsLength(before, 0);
    GapStep(j);
  }

  /** Between the digits of byte j - 1 and those of byte j there is one
      space, and a second one, the group space, exactly when j is a multiple
      of 8: cells are grouped by eight for any line width. */
  lemma CellSpacing(chunk: seq<byte>, j: nat)
    requires 0 < j < |chunk|
    ensures CellStart(j) == CellStart(j - 1) + 3 + (if j % GroupSize == 0 then 1 else 0)
    ensures CellStart(j) < |HexCells(chunk, 0)|
    ensures forall i :: CellStart(j - 1) + 2 <= i < CellStart(j) ==> HexCells(chunk, 0)[i] == ' '
  {
    GapStep(j);
    CellAt(chunk, j - 1);
    CellAt(chunk, j);
    if j % GroupSize == 0 {
      GroupSpaceAt(chunk, j);
    }
  }

  /** The column just before the cell of byte j, a positive multiple of 8,
      is the group space. */
  lemma GroupSpaceAt(chunk: seq<byte>, j: nat)
    requires 0 < j < |chunk| && j % GroupSize == 0
    ensures 0 < CellStart(j) <= |HexCells(chunk, 0)|
    ensures HexCells(chunk, 0)[CellStart(j) - 1] == ' '
  {
    var pre, x, post := CellsAround(chunk, j);
    assert Gap(j) == " ";
    assert pre[|pre| - 1] == ' ';
    LastOfPrefix(HexCells(chunk, 0), pre, (x + " ") + post);
  }

  lemma LastOfPrefix(s: string, pre: string, rest: string)
    requires s == pre + rest && |pre| > 0
    ensures s[|pre| - 1] == pre[|pre| - 1]
  {
  }

  /** The padding is blank: every column of it is a space, for any line width. */
  lemma {:induction false} PaddingBlank(k: nat, bpl: nat)
    ensures forall i :: 0 <= i < |Padding(k, bpl)| ==> Padding(k, bpl)[i] == ' '
    decreases bpl - k
  {
    if k < bpl {
      PaddingBlank(k + 1, bpl);
      var slot, rest := Gap(k) + "   ", Padding(k + 1, bpl);
      assert Padding(k, bpl) == slot + rest;
      assert forall i :: 0 <= i < |slot| ==> slot[i] == ' ';
    }
  }

  /** The two characters of `line` at column `at` are hex digits denoting `b`. */
  predicate ReadsBackAt(line: string, at: nat, b: byte)
  {
    at + 2 <= |line| && AllDigits(line[at..at + 2], 16) && Value(line[at..at + 2], 16) == b
  }

  /** Reading the two digits of a byte's cell gives the byte back. */
  lemma CellDecodes(chunk: seq<byte>, bpl: nat, offset: int, j: nat)
    requires j < |chunk| && 0 <= offset < 0x1_0000_0000
    ensures ReadsBackAt(Line(chunk, bpl, offset), 10 + CellStart(j), chunk[j])
  {
    var cells := HexCells(chunk, 0);
    var area := cells + Padding(|chunk|, bpl);
    var tail := " |" + AsciiColumn(chunk) + "|\n";
    var x := Hex2(chunk[j], false);
    var i := CellStart(j);
    assert area[i..i + 2] == x by {
      CellAt(chunk, j);
      SliceLeft(cells, Padding(|chunk|, bpl), i, i + 2);
    }
    assert AllDigits(x, 16) && Value(x, 16) == chunk[j] by {
      Hex2Value(chunk[j], false);
    }
    var h := Hex8(offset);
    assert Line(chunk, bpl, offset) == h + ("  " + area + tail) && |h| == 8 by {
      Hex8Width(offset);
      LineParts(chunk, bpl, offset);
    }
    LocateInLine(Line(chunk, bpl, offset), h, area, tail, i, x, chunk[j]);
  }

  /** Two digits at position `i` of the numeric area sit at column 10 + i of
      the line, behind the eight offset digits and two spaces. */
  lemma LocateInLine(line: string, h: string, area: string, tail: string, i: nat, x: string, b: byte)
    requires line == h + ("  " + area + tail) && |h| == 8
    requires |x| == 2 && i + 2 <= |area| && area[i..i + 2] == x
    requires AllDigits(x, 16) && Value(x, 16) == b
    ensures ReadsBackAt(line, 10 + i, b)
  {
    assert "  " + area + tail == "  " + (area + tail);
    SliceLeft(area, tail, i, i + 2);
    SliceShift("  ", area + tail, i, x);
    SliceShift(h, "  " + area + tail, 2 + i, x);
  }

  // ---------------------------------------------------------------------------
  // Agreement with the full command
  // ---------------------------------------------------------------------------

  /** Below width 16, a group space goes only in front of position 8. */
  lemma GapBelowSixteen(i: nat)
    requires i < 16
    ensures Gap(i) == if i == HD.GroupBreak then " " else ""
  {
  }

  /** Blank slots from position `i` are the canonical line's empty slots. */
  lemma {:induction false} PaddingAsSlots(chunk: seq<byte>, i: nat)
    requires |chunk| <= i <= 16
    ensures Padding(i, 16) == HD.Slots(chunk, false, i)
    decreases 16 - i
  {
    if i < 16 {
      PaddingAsSlots(chunk, i + 1);
      GapBelowSixteen(i);
    }
  }

  /** Cells from byte `i` on, then the padding, are the canonical line's slots from `i`. */
  lemma {:induction false} CellsAsSlots(chunk: seq<byte>, i: nat)
    requires i <= |chunk| <= 16
    ensures HexCells(chunk[i..], i) + Padding(|chunk|, 16) == HD.Slots(chunk, false, i)
    decreases |chunk| - i
  {
    if i == |chunk| {
      assert chunk[i..] == [];
      PaddingAsSlots(chunk, i);
    } else {
      CellsAsSlots(chunk, i + 1);
      CellsStep(chunk, i);
    }
  }

  lemma CellsStep(chunk: seq<byte>, i: nat)
    requires i < |chunk| <= 16
    requires HexCells(chunk[i + 1..], i + 1) + Padding(|chunk|, 16) == HD.Slots(chunk, false, i + 1)
    ensures HexCells(chunk[i..], i) + Padding(|chunk|, 16) == HD.Slots(chunk, false, i)
  {
    var gap, cell := Gap(i), Hex2(chunk[i], false) + " ";
    var later, pad := HexCells(chunk[i + 1..], i + 1), Padding(|chunk|, 16);
    assert chunk[i..][0] == chunk[i] && chunk[i..][1..] == chunk[i + 1..];
    HexCellsHead(chunk[i..], i);
    GapBelowSixteen(i);
    HexdumpLayout.SlotsUnfold(chunk, false, i);
    assert HD.Slot(chunk, false, i) == cell;
    Assoc(gap + cell, later, pad);
  }

  /** At width 16 the minimal command prints exactly the full command's
      canonical line: two implementations of one layout. */
  lemma AgreesWithCanonical(chunk: seq<byte>, offset: int)
    requires |chunk| <= 16
    ensures Line(chunk, 16, offset) == HD.PrintCanonical(chunk, offset, false)
  {
    var slots := HD.Slots(chunk, false, 0);
    var tail := " |" + AsciiColumn(chunk) + "|\n";
    assert HexCells(chunk, 0) + Padding(|chunk|, 16) == slots by {
      CellsAsSlots(chunk, 0);
      assert chunk[0..] == chunk;
    }
    LineParts(chunk, 16, offset);
    assert HD.PrintCanonical(chunk, offset, false) == Hex8(offset) + "  " + slots + tail;
    Assoc(Hex8(offset), "  " + slots, tail);
    Assoc(Hex8(offset), "  ", slots);
  }
}
