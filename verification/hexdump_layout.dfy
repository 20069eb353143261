/** Properties of the hexdump.go line renderers: where every field of a line
    sits, that each line can be read back to the offset and bytes it shows,
    and what the Uppercase and mode flags change. */
module HexdumpLayout {
  import opened Formats
  import opened Seqs
  import opened Hexdump
  import Opt

  // ---------------------------------------------------------------------------
  // Canonical lines
  // ---------------------------------------------------------------------------

  /** Where hex slot `k` starts on a canonical line: after the 10-column
      offset prefix, three columns per slot, one more from slot 8 on. */
  function SlotStart(k: nat): nat
  {
    10 + 3 * k + (if k >= GroupBreak then 1 else 0)
  }

  /** Where slot `k` starts inside `Slots(_, _, i)`. */
  function RelativeStart(i: nat, k: nat): int
  {
    3 * (k - i) + (if i <= GroupBreak <= k then 1 else 0)
  }

  /** Slots `i` to 15: the gap if `i` is 8, slot `i`, then the slots after it. */
  lemma SlotsUnfold(data: seq<byte>, upper: bool, i: nat)
    requires i < CanonicalSlots
    ensures Slots(data, upper, i) ==
            (if i == GroupBreak then " " else "") + Slot(data, upper, i) + Slots(data, upper, i + 1)
  {
  }

  lemma {:induction false} SlotAt(data: seq<byte>, upper: bool, i: nat, k: nat)
    requires i <= k < CanonicalSlots
    ensures 0 <= RelativeStart(i, k) && RelativeStart(i, k) + 3 <= |Slots(data, upper, i)|
    ensures Slots(data, upper, i)[RelativeStart(i, k)..RelativeStart(i, k) + 3] == Slot(data, upper, k)
    decreases k - i
  {
    SlotsUnfold(data, upper, i);
    if k == i {
      SlotAtHere(data, upper, i);
    } else {
      SlotAt(data, upper, i + 1, k);
      SlotAtLater(data, upper, i, k);
    }
  }

  lemma SlotAtHere(data: seq<byte>, upper: bool, i: nat)
    requires i < CanonicalSlots
    ensures Slots(data, upper, i)[RelativeStart(i, i)..RelativeStart(i, i) + 3] == Slot(data, upper, i)
  {
    var gap: string := if i == GroupBreak then " " else "";
    SlotsUnfold(data, upper, i);
    SliceLeft(gap + Slot(data, upper, i), Slots(data, upper, i + 1), |gap|, |gap| + 3);
  }

  lemma SlotAtLater(data: seq<byte>, upper: bool, i: nat, k: nat)
    requires i < k < CanonicalSlots
    requires Slots(data, upper, i + 1)[RelativeStart(i + 1, k)..RelativeStart(i + 1, k) + 3] == Slot(data, upper, k)
    ensures Slots(data, upper, i)[RelativeStart(i, k)..RelativeStart(i, k) + 3] == Slot(data, upper, k)
  {
    var head := (if i == GroupBreak then " " else "") + Slot(data, upper, i);
    SlotsUnfold(data, upper, i);
    SliceShift(head, Slots(data, upper, i + 1), RelativeStart(i + 1, k), Slot(data, upper, k));
  }

  /** The extra space sits right before slot 8. */
  lemma {:induction false} GapBeforeBreak(data: seq<byte>, upper: bool, i: nat)
    requires i <= GroupBreak
    ensures 1 <= RelativeStart(i, GroupBreak) <= |Slots(data, upper, i)|
    ensures Slots(data, upper, i)[RelativeStart(i, GroupBreak) - 1] == ' '
    decreases GroupBreak - i
  {
    var gap: string := if i == GroupBreak then " " else "";
    var head := gap + Slot(data, upper, i);
    var rest := Slots(data, upper, i + 1);
    assert Slots(data, upper, i) == head + rest;
    if i < GroupBreak {
      GapBeforeBreak(data, upper, i + 1);
      assert RelativeStart(i, GroupBreak) == |head| + RelativeStart(i + 1, GroupBreak);
    }
  }

  /** A canonical line is the 10-column offset field, the 49 columns of hex
      slots, and the ASCII column between bars. */
  lemma {:induction false} CanonicalParts(data: seq<byte>, offset: int, upper: bool)
    requires 0 <= offset < 0x1_0000_0000
    ensures var front := Hex8(offset) + "  ";
            && |front| == 10 && |Slots(data, upper, 0)| == 49
            && PrintCanonical(data, offset, upper) ==
               front + Slots(data, upper, 0) + (" |" + AsciiColumn(data) + "|\n")
  {
    Hex8Width(offset);
  }

  lemma {:induction false} CanonicalSlotAt(data: seq<byte>, offset: int, upper: bool, k: nat)
    requires 0 <= offset < 0x1_0000_0000
    requires k < CanonicalSlots
    ensures SlotStart(k) + 3 <= |PrintCanonical(data, offset, upper)|
    ensures PrintCanonical(data, offset, upper)[SlotStart(k)..SlotStart(k) + 3] ==
            if k < |data| then Hex2(data[k], upper) + " " else "   "
  {
    var front := Hex8(offset) + "  ";
    var slots := Slots(data, upper, 0);
    var tail := " |" + AsciiColumn(data) + "|\n";
    CanonicalParts(data, offset, upper);
    SlotAt(data, upper, 0, k);
    var line := PrintCanonical(data, offset, upper);
    var j := RelativeStart(0, k);
    assert SlotStart(k) == |front| + j;
    MiddleSlice(front, slots, tail, j, j + 3);
    assert line[SlotStart(k)..SlotStart(k) + 3] == slots[j..j + 3];
  }

  lemma {:induction false} CanonicalGap(data: seq<byte>, offset: int, upper: bool)
    requires 0 <= offset < 0x1_0000_0000
    ensures SlotStart(GroupBreak) < |PrintCanonical(data, offset, upper)|
    ensures PrintCanonical(data, offset, upper)[SlotStart(GroupBreak) - 1] == ' '
  {
    var front := Hex8(offset) + "  ";
    var slots := Slots(data, upper, 0);
    var tail := " |" + AsciiColumn(data) + "|\n";
    CanonicalParts(data, offset, upper);
    GapBeforeBreak(data, upper, 0);
    var line := PrintCanonical(data, offset, upper);
    assert slots[24] == ' ';
    assert line[34] == (front + slots)[34] == slots[24];
  }

  /** A canonical line opens with the 8-digit offset and two spaces. */
  lemma {:induction false} CanonicalPrefix(data: seq<byte>, offset: int, upper: bool)
    requires 0 <= offset < 0x1_0000_0000
    ensures |PrintCanonical(data, offset, upper)| == 63 + |data|
    ensures PrintCanonical(data, offset, upper)[..8] == Hex8(offset)
    ensures PrintCanonical(data, offset, upper)[8..10] == "  "
  {
    var front := Hex8(offset) + "  ";
    var slots := Slots(data, upper, 0);
    var tail := " |" + AsciiColumn(data) + "|\n";
    CanonicalParts(data, offset, upper);
    SliceLeft(front + slots, tail, 0, 8);
    SliceLeft(front, slots, 0, 8);
    SliceLeft(front + slots, tail, 8, 10);
    SliceLeft(front, slots, 8, 10);
  }

  /** A canonical line closes with ` |`, the ASCII column of the whole chunk,
      and `|` and a newline. */
  lemma {:induction false} CanonicalTail(data: seq<byte>, offset: int, upper: bool)
    requires 0 <= offset < 0x1_0000_0000
    ensures |PrintCanonical(data, offset, upper)| == 63 + |data|
    ensures PrintCanonical(data, offset, upper)[59..61] == " |"
    ensures PrintCanonical(data, offset, upper)[61..61 + |data|] == AsciiColumn(data)
    ensures PrintCanonical(data, offset, upper)[61 + |data|..] == "|\n"
  {
    CanonicalParts(data, offset, upper);
    SuffixThree(Hex8(offset) + "  " + Slots(data, upper, 0), " |", AsciiColumn(data), "|\n");
  }

  /** The sixteen hex slots of a canonical line: the byte's two hex digits
      and a space for every byte of the chunk, three spaces past it. */
  lemma {:induction false} CanonicalSlotsLayout(data: seq<byte>, offset: int, upper: bool)
    requires 0 <= offset < 0x1_0000_0000
    ensures forall k: nat :: k < CanonicalSlots ==>
              SlotStart(k) + 3 <= |PrintCanonical(data, offset, upper)| &&
              PrintCanonical(data, offset, upper)[SlotStart(k)..SlotStart(k) + 3] ==
              if k < |data| then Hex2(data[k], upper) + " " else "   "
  {
    forall k: nat | k < CanonicalSlots
      ensures SlotStart(k) + 3 <= |PrintCanonical(data, offset, upper)|
      ensures PrintCanonical(data, offset, upper)[SlotStart(k)..SlotStart(k) + 3] ==
              if k < |data| then Hex2(data[k], upper) + " " else "   "
    {
      CanonicalSlotAt(data, offset, upper, k);
    }
  }

  /** Bytes past the sixteenth appear in the ASCII column only. */
  lemma {:induction false} SlotsIgnoreTail(data: seq<byte>, upper: bool, i: nat)
    requires i <= CanonicalSlots <= |data|
    ensures Slots(data, upper, i) == Slots(data[..CanonicalSlots], upper, i)
    decreases CanonicalSlots - i
  {
    if i < CanonicalSlots {
      SlotsIgnoreTail(data, upper, i + 1);
      assert Slot(data, upper, i) == Slot(data[..CanonicalSlots], upper, i);
    }
  }

  lemma {:induction false} CanonicalDigitsAt(data: seq<byte>, offset: int, upper: bool, k: nat)
    requires 0 <= offset < 0x1_0000_0000
    requires k < |data| && k < CanonicalSlots
    ensures SlotStart(k) + 2 <= |PrintCanonical(data, offset, upper)|
    ensures PrintCanonical(data, offset, upper)[SlotStart(k)..SlotStart(k) + 2] == Hex2(data[k], upper)
  {
    CanonicalSlotAt(data, offset, upper, k);
    SlicePrefix(PrintCanonical(data, offset, upper), SlotStart(k), Hex2(data[k], upper), " ");
  }

  /** The offset field of a canonical line reads back to the offset. */
  lemma {:induction false} CanonicalOffsetDecodes(data: seq<byte>, offset: int, upper: bool)
    requires 0 <= offset < 0x1_0000_0000
    ensures ParseOffset(PrintCanonical(data, offset, upper)[..8]) == offset
  {
    CanonicalPrefix(data, offset, upper);
    Hex8RoundTrip(offset);
  }

  /** Hex slot `k` of a canonical line reads back to byte `k` of the chunk. */
  lemma {:induction false} CanonicalByteDecodes(data: seq<byte>, offset: int, upper: bool, k: nat)
    requires 0 <= offset < 0x1_0000_0000
    requires k < |data| && k < CanonicalSlots
    ensures SlotStart(k) + 2 <= |PrintCanonical(data, offset, upper)|
    ensures AllDigits(PrintCanonical(data, offset, upper)[SlotStart(k)..SlotStart(k) + 2], 16)
    ensures Value(PrintCanonical(data, offset, upper)[SlotStart(k)..SlotStart(k) + 2], 16) == data[k]
  {
    CanonicalDigitsAt(data, offset, upper, k);
    Hex2Value(data[k], upper);
  }

  // ---------------------------------------------------------------------------
  // Octal, decimal and hex lines
  // ---------------------------------------------------------------------------

  /** The value a cell shows, or -1 when it is not a number in the verb's base. */
  function CellValue(v: Verb, s: string): int
  {
    match v
    case OctalVerb => if AllDigits(s, 8) then Value(s, 8) else -1
    case DecimalVerb =>
      var t := StripLeading(s, ' ');
      if AllDigits(t, 10) then Value(t, 10) else -1
    case HexVerb(_) => if AllDigits(s, 16) then Value(s, 16) else -1
  }

  /** Reads the bytes back from the groups of an octal, decimal or hex line. */
  function DecodeGroups(v: Verb, s: string): seq<int>
    decreases |s|
  {
    var w := CellWidth(v) + 1;
    if |s| < w then [] else [CellValue(v, s[1..w])] + DecodeGroups(v, s[w..])
  }

  /** Every cell reads back to the byte it shows. */
  lemma {:induction false} CellRoundTrip(v: Verb, b: byte)
    ensures CellValue(v, Cell(v, b)) == b
  {
    match v
    case OctalVerb => Oct3Value(b);
    case DecimalVerb => Dec3Value(b);
    case HexVerb(upper) => Hex2Value(b, upper);
  }

  lemma {:induction false} GroupsRoundTrip(v: Verb, data: seq<byte>)
    ensures DecodeGroups(v, Groups(v, data)) == data
  {
    if |data| > 0 {
      GroupsCons(v, data);
      DecodeStep(v, Cell(v, data[0]), Groups(v, data[1..]));
      CellRoundTrip(v, data[0]);
      GroupsRoundTrip(v, data[1..]);
      assert data == [data[0]] + data[1..];
    }
  }

  /** A line's groups are the first byte's group followed by the others'. */
  lemma GroupsCons(v: Verb, data: seq<byte>)
    requires |data| > 0
    ensures Groups(v, data) == " " + Cell(v, data[0]) + Groups(v, data[1..])
  {
  }

  /** Decoding takes one cell off the front. */
  lemma DecodeStep(v: Verb, cell: string, rest: string)
    requires |cell| == CellWidth(v)
    ensures DecodeGroups(v, " " + cell + rest) == [CellValue(v, cell)] + DecodeGroups(v, rest)
  {
    var s := " " + cell + rest;
    assert s[1..CellWidth(v) + 1] == cell;
    assert s[CellWidth(v) + 1..] == rest;
  }

  /** Group `k` of a line is a space followed by the cell of byte `k`. */
  lemma {:induction false} GroupAt(v: Verb, data: seq<byte>, k: nat)
    requires k < |data|
    ensures GroupStart(v, k + 1) <= |Groups(v, data)|
    ensures Groups(v, data)[GroupStart(v, k)..GroupStart(v, k + 1)] == " " + Cell(v, data[k])
    decreases k
  {
    if k == 0 {
      GroupAtFirst(v, data);
    } else {
      GroupAt(v, data[1..], k - 1);
      GroupAtNext(v, data, k);
    }
  }

  lemma {:induction false} GroupAtFirst(v: Verb, data: seq<byte>)
    requires 0 < |data|
    ensures GroupStart(v, 1) <= |Groups(v, data)|
    ensures Groups(v, data)[GroupStart(v, 0)..GroupStart(v, 1)] == " " + Cell(v, data[0])
  {
    GroupsCons(v, data);
    SliceShift([], Groups(v, data), 0, " " + Cell(v, data[0]));
    PrefixOfConcat(" " + Cell(v, data[0]), Groups(v, data[1..]));
    SliceFromZero(Groups(v, data), GroupStart(v, 1));
  }

  /** Group `k` of a line is group `k - 1` of the line without its first byte. */
  lemma {:induction false} GroupAtNext(v: Verb, data: seq<byte>, k: nat)
    requires 0 < k < |data|
    requires GroupStart(v, k) <= |Groups(v, data[1..])|
    requires Groups(v, data[1..])[GroupStart(v, k - 1)..GroupStart(v, k)] == " " + Cell(v, data[1..][k - 1])
    ensures GroupStart(v, k + 1) <= |Groups(v, data)|
    ensures Groups(v, data)[GroupStart(v, k)..GroupStart(v, k + 1)] == " " + Cell(v, data[k])
  {
    var head := " " + Cell(v, data[0]);
    GroupsCons(v, data);
    assert data[1..][k - 1] == data[k];
    SliceShift(head, Groups(v, data[1..]), GroupStart(v, k - 1), " " + Cell(v, data[k]));
    assert GroupStart(v, k) == |head| + GroupStart(v, k - 1);
  }

  /** Every group of a line, at once. */
  lemma {:induction false} GroupsContent(v: Verb, data: seq<byte>)
    ensures forall k :: 0 <= k < |data| ==>
              Groups(v, data)[GroupStart(v, k)..GroupStart(v, k + 1)] == " " + Cell(v, data[k])
  {
    forall k | 0 <= k < |data|
      ensures Groups(v, data)[GroupStart(v, k)..GroupStart(v, k + 1)] == " " + Cell(v, data[k])
    {
      GroupAt(v, data, k);
    }
  }

  /** The line printOctal, printDecimal or printHex writes for a verb. */
  function NumericLine(v: Verb, data: seq<byte>, offset: int): string
  {
    match v
    case OctalVerb => PrintOctal(data, offset)
    case DecimalVerb => PrintDecimal(data, offset)
    case HexVerb(upper) => PrintHex(data, offset, upper)
  }

  /** An octal, decimal or hex line is the offset, a space, one group per byte
      and a newline -- no ASCII column -- and reads back to offset and bytes. */
  lemma {:induction false} NumericLineDecodes(v: Verb, data: seq<byte>, offset: int)
    requires 0 <= offset < 0x1_0000_0000
    ensures var line := NumericLine(v, data, offset);
            && |line| == 10 + GroupStart(v, |data|)
            && ParseOffset(line[..8]) == offset
            && line[8] == ' '
            && DecodeGroups(v, line[9..|line| - 1]) == data
            && line[|line| - 1] == '\n'
  {
    var line := NumericLine(v, data, offset);
    var groups := Groups(v, data);
    Hex8Width(offset);
    Hex8RoundTrip(offset);
    assert line == Hex8(offset) + " " + groups + "\n";
    assert line[..8] == Hex8(offset);
    assert line[9..|line| - 1] == groups;
    GroupsRoundTrip(v, data);
  }

  // ---------------------------------------------------------------------------
  // Uppercase and mode flags
  // ---------------------------------------------------------------------------

  lemma {:induction false} SlotUpper(data: seq<byte>, i: nat)
    ensures Slot(data, true, i) == UpperHex(Slot(data, false, i))
  {
    if i < |data| {
      Hex2Upper(data[i]);
      UpperHexSpace(Hex2(data[i], false), Hex2(data[i], true));
    } else {
      UpperHexKeeps("   ");
    }
  }

  lemma {:induction false} SlotsUpper(data: seq<byte>, i: nat)
    requires i <= CanonicalSlots
    ensures Slots(data, true, i) == UpperHex(Slots(data, false, i))
    decreases CanonicalSlots - i
  {
    if i < CanonicalSlots {
      var gap: string := if i == GroupBreak then " " else "";
      SlotsUnfold(data, false, i);
      SlotsUnfold(data, true, i);
      SlotsUpper(data, i + 1);
      SlotUpper(data, i);
      UpperHexGlue(gap, Slot(data, false, i), Slots(data, false, i + 1),
                   Slot(data, true, i), Slots(data, true, i + 1));
    }
  }

  /** In canonical mode Uppercase upper-cases the hex slots and nothing else:
      the offset stays lower-case and the ASCII column is unchanged. */
  lemma {:induction false} CanonicalUppercase(data: seq<byte>, offset: int)
    requires 0 <= offset < 0x1_0000_0000
    ensures var upper, lower := PrintCanonical(data, offset, true), PrintCanonical(data, offset, false);
            && |upper| == |lower| == 63 + |data|
            && upper[..10] == lower[..10]
            && upper[10..59] == UpperHex(lower[10..59])
            && upper[59..] == lower[59..]
  {
    var front := Hex8(offset) + "  ";
    var tail := " |" + AsciiColumn(data) + "|\n";
    CanonicalParts(data, offset, true);
    CanonicalParts(data, offset, false);
    ThreeSlices(front, Slots(data, true, 0), tail);
    ThreeSlices(front, Slots(data, false, 0), tail);
    SlotsUpper(data, 0);
  }

  lemma {:induction false} GroupsUpper(data: seq<byte>)
    ensures Groups(HexVerb(true), data) == UpperHex(Groups(HexVerb(false), data))
  {
    if |data| > 0 {
      GroupsCons(HexVerb(false), data);
      GroupsCons(HexVerb(true), data);
      GroupsUpper(data[1..]);
      Hex2Upper(data[0]);
      UpperHexGlue(" ", Hex2(data[0], false), Groups(HexVerb(false), data[1..]),
                   Hex2(data[0], true), Groups(HexVerb(true), data[1..]));
    }
  }

  /** In hex mode Uppercase upper-cases the byte groups and not the offset. */
  lemma {:induction false} HexUppercase(data: seq<byte>, offset: int)
    ensures PrintHex(data, offset, true) == Hex8(offset) + " " + UpperHex(Groups(HexVerb(false), data)) + "\n"
  {
    GroupsUpper(data);
  }

  /** Uppercase has no effect on octal or decimal output. */
  lemma {:induction false} UppercaseIgnoredByOctalAndDecimal(f: Opt.Flags, data: seq<byte>, offset: int, upper: bool)
    requires SelectMode(f) == OctalMode || SelectMode(f) == DecimalMode
    ensures Render(f.(uppercase := upper), data, offset) == Render(f, data, offset)
  {
  }

  /** The Canonical flag wins over every other mode flag. */
  lemma {:induction false} CanonicalWins(f: Opt.Flags, data: seq<byte>, offset: int)
    requires f.canonical
    ensures Render(f, data, offset) == PrintCanonical(data, offset, f.uppercase)
  {
  }

  /** Which renderer writes the line, read off the flags in the order the
      dispatch tests them: Octal, then Decimal, then Hex or Uppercase, and
      the lower-case canonical line when no mode flag is set. */
  lemma {:induction false} FlagsSelectRenderer(f: Opt.Flags, data: seq<byte>, offset: int)
    ensures !f.canonical && f.octal ==> Render(f, data, offset) == PrintOctal(data, offset)
    ensures !f.canonical && !f.octal && f.decimal ==> Render(f, data, offset) == PrintDecimal(data, offset)
    ensures !f.canonical && !f.octal && !f.decimal && (f.hex || f.uppercase) ==>
              Render(f, data, offset) == PrintHex(data, offset, f.uppercase)
    ensures !(f.canonical || f.octal || f.decimal || f.hex || f.uppercase) ==>
              Render(f, data, offset) == PrintCanonical(data, offset, false)
  {
  }
}
