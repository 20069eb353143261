# hexdump, modelled in Dafny

A model of the byte-formatting core of the Go `hexdump` command. The repository holds two implementations of it.

- **The full command** (`hexdump.go`):
  - `Hexdump` applies the BytesPerLine default.
  - `processSource` skips SkipBytes bytes with `io.CopyN(io.Discard, …)` and wraps the rest in `io.LimitReader` when ReadBytes is positive.
  - The `hexdump` loop reads at most BytesPerLine bytes at a time. It hands every non-empty read to the renderer the mode flags select: `printCanonical`, `printOctal`, `printDecimal` or `printHex`. It ends with the final offset as `%08x\n`.
- **The minimal command** (`command.go`): its Executor reads at most 4096 bytes at a time. It cuts every read into lines of BytesPerLine bytes, renders each line in the canonical style padded to the full width, and ends with the total byte count.
- **The option records** (`opt/opt.go` and `opt.go`) and their `Configure` setters.

Modules:

- **`Formats`**: the `fmt` verbs the renderers use: `%08x`, `%02x`/`%02X`, `%03o`, `%3d` and the `%c`-or-`.` ASCII column. Each numeric verb comes with the digit decoder that inverts it. The ASCII column maps every unprintable byte to `.`, so it has no inverse.
- **`Reader`**: Go's `io.Reader` as a finite script of read results. An empty script answers `(0, io.EOF)`. `io.LimitReader` is a wrapper around a script. This module also proves that reading through a limit is the same as reading a truncated script.
- **`Opt`** and **`CommandOpt`**: the two option records and their setters. `CommandOpt` is proved to behave exactly like `Opt`.
- **`Hexdump`**: `hexdump.go`. It holds:
  - the default and the mode selector;
  - the four renderers and `printASCII`;
  - the discard and `CopyN` skip, `processSource`, and the read loop.
- **`HexdumpLayout`**: where every field of a rendered line sits, and that each line reads back to the offset and to the bytes of its hex or numeric cells (a canonical line has hex cells for its first sixteen bytes only). It also says what Uppercase and the mode flags change.
- **`HexdumpStream`**: what the read loop and `processSource` produce over a whole input. This covers:
  - the chunks and their offsets;
  - the trailer;
  - errors;
  - the skip and the limit.
- **`Command`**, **`CommandStream`** and **`CommandLayout`**: the same for `command.go`:
  - the default;
  - the Executor and how it slices each read;
  - the width and layout of its lines;
  - a proof that at width 16 a line is exactly the full command's canonical line.

The read loops do not look inside the lines they write. So the loop theorems are stated for any `Printer`, which is a pair of functions: the line for a chunk at an offset, and the trailer at the final offset. `Hexdump.PrinterOf(f)` is the printer the flags select, and `Command.LinePrinter(bpl)` is the Executor's.

Offsets are unbounded integers. `%08x` is modelled for every integer, including negative ones, where Go puts the sign inside the width. The lemmas about column positions assume offsets below 2^32, where the offset field is exactly eight characters wide.

Behaviour of the code worth noting:

- A read that fails mid-stream returns its error with no final-offset line (`hexdump.go:109-111`, `command.go:73-75`). It is not followed by a trailer.
- A failed skip returns its error before anything is written.
- The minimal command does not behave as a subset of the full one:
  - It reads again after a read of 0 bytes with no error.
  - It restarts its slicing at every read, so line lengths depend on how the input arrives (`CommandStream.ChunkingRestarts`).
- In the full command, a read shorter than BytesPerLine is rendered as a short line even in the middle of the input. Lines are as long as the reads, not fixed.
- A canonical line always lays out 16 hex slots, whatever BytesPerLine is. Its ASCII column shows every byte of the chunk.

## Model

| member | source | states |
|---|---|---|
| Opt.Configure | opt/opt.go:54-62 | each setter writes its own field with the value it carries and leaves the other eight fields as they were |
| Opt.ConfigureGet | opt/opt.go:54-62 | field by field: the field a setting targets reads back the setting's value, every other field reads back what it held |
| Opt.FlagConstants | opt/opt.go:10-38 | `Canonical`, `Octal`, `Decimal`, `Hex`, `Uppercase` switch their flag on and the `No…` forms switch it off |
| Opt.LastWriterWins | opt/opt.go:54-62 | of two settings of the same field the later one wins, so applying a setting twice is applying it once |
| Opt.SettingsCommute | opt/opt.go:54-62 | settings of different fields give the same record in either order |
| Opt.FlagsExtensional | opt/opt.go:41-51 | two records whose nine fields all agree are the same record |
| CommandOpt.Configure | opt.go:55-63 | every setter of the command package does to its record what the `opt` package's setter of the same name does to the corresponding record |
| CommandOpt.ToOptInjective | opt.go:43-53 | the command package's record corresponds field for field to the `opt` record: different records stay different |
| CommandOpt.FlagConstants | opt.go:10-41 | the named flag constants switch their flag on and the `No…` forms switch it off |
| CommandOpt.LastWriterWins | opt.go:55-63 | a later setting of the same field overrides an earlier one |
| CommandOpt.SettingsCommute | opt.go:55-63 | settings of different fields commute |
| Hexdump.Hexdump | hexdump.go:25-27 | the resulting line width is never 0; a width of 0 becomes 16; a non-zero width and every other option are kept unchanged |
| Hexdump.Render | hexdump.go:91-102 | whichever renderer the flags select, the line opens with the offset field, which reads back to the offset, and ends with a newline |
| HexdumpLayout.FlagsSelectRenderer | hexdump.go:91-102 | with Canonical clear: Octal writes printOctal; else Decimal writes printDecimal; else Hex or Uppercase writes printHex with the Uppercase setting; with no mode flag at all the lower-case canonical line is written |
| Hexdump.SelectMode | hexdump.go:91-102 | for each of the four renderers, both directions: it is chosen exactly when the flags before it in the order Canonical, Octal, Decimal, Hex-or-Uppercase are off and its own flag is on; canonical is also chosen when none is on |
| HexdumpLayout.CanonicalWins | hexdump.go:91-92 | with Canonical set the canonical line is written, whatever the other mode flags say |
| HexdumpLayout.UppercaseIgnoredByOctalAndDecimal | hexdump.go:93-96 | in octal and decimal mode the Uppercase flag does not change the line |
| Hexdump.PrintCanonical | hexdump.go:120-148 | below 2^32 a canonical line of n bytes is 63 + n characters long, whatever n is |
| HexdumpLayout.CanonicalParts | hexdump.go:120-148 | a canonical line is a 10-column offset field, 49 columns of hex slots, and the ASCII column between ` \|` and `\|` |
| HexdumpLayout.CanonicalPrefix | hexdump.go:121 | a canonical line opens with the eight-digit offset and two spaces |
| HexdumpLayout.CanonicalOffsetDecodes | hexdump.go:121 | the offset field of a canonical line reads back to the offset |
| Hexdump.Slot | hexdump.go:128-136 | each slot is three columns wide, whether it shows a byte or is blank |
| Hexdump.Slots | hexdump.go:124-137 | the slots from position i take three columns each, plus one for the extra space when slot 8 is among them; a full set is 49 columns |
| HexdumpLayout.SlotsUnfold | hexdump.go:124-137 | the slots from position i are the group space when i is 8, slot i, then the slots after it |
| HexdumpLayout.SlotAt | hexdump.go:124-137 | slot k is found at its computed start inside the slots from any i up to k |
| HexdumpLayout.GapBeforeBreak | hexdump.go:125-127 | the extra space sits right before slot 8 |
| HexdumpLayout.CanonicalSlotAt | hexdump.go:124-137 | slot k of the line holds byte k's two hex digits and a space when the chunk has a byte k, otherwise three spaces |
| HexdumpLayout.CanonicalGap | hexdump.go:125-127 | the column before slot 8 of a canonical line is a space |
| HexdumpLayout.CanonicalSlotsLayout | hexdump.go:124-137 | all sixteen slots of a canonical line at once: digits and a space for each byte, three spaces past the data |
| HexdumpLayout.SlotsIgnoreTail | hexdump.go:124-137 | bytes past the sixteenth do not change the hex slots |
| HexdumpLayout.CanonicalDigitsAt | hexdump.go:128-133 | the two characters at slot k are `%02x` (or `%02X`) of byte k |
| HexdumpLayout.CanonicalByteDecodes | hexdump.go:128-133 | the two characters at slot k are hex digits that read back to byte k |
| HexdumpLayout.CanonicalTail | hexdump.go:139-148 | a canonical line ends with ` \|`, one ASCII character for every byte of the chunk, `\|` and a newline |
| HexdumpLayout.SlotUpper | hexdump.go:129-133 | an upper-case slot is the lower-case slot with its hex letters upper-cased |
| HexdumpLayout.SlotsUpper | hexdump.go:124-137 | the upper-case hex area is the lower-case one with its letters upper-cased |
| HexdumpLayout.CanonicalUppercase | hexdump.go:120-148 | Uppercase upper-cases the hex area of a canonical line and leaves the offset field and the ASCII column unchanged |
| Hexdump.Cell | hexdump.go:151-177 | a byte's cell is three characters in octal and decimal and two in hex |
| Hexdump.Groups | hexdump.go:153-155 | the groups of n bytes take 4n columns (octal, decimal) or 3n columns (hex) |
| Hexdump.PrintOctal | hexdump.go:151-157 | below 2^32 an octal line of n bytes is 10 + 4n characters long |
| Hexdump.PrintDecimal | hexdump.go:159-165 | below 2^32 a decimal line of n bytes is 10 + 4n characters long |
| Hexdump.PrintHex | hexdump.go:167-177 | below 2^32 a hex line of n bytes is 10 + 3n characters long |
| HexdumpLayout.CellRoundTrip | hexdump.go:151-177 | every `%03o`, `%3d`, `%02x` or `%02X` cell reads back to its byte |
| HexdumpLayout.GroupsRoundTrip | hexdump.go:153-155 | the groups of an octal, decimal or hex line decode back to the chunk |
| HexdumpLayout.GroupsCons | hexdump.go:153-155 | a line's groups are the first byte's group followed by the groups of the others |
| HexdumpLayout.DecodeStep | hexdump.go:153-155 | decoding takes one space-and-cell group off the front |
| HexdumpLayout.GroupAt | hexdump.go:153-155 | group k of a line is a space followed by byte k's cell |
| HexdumpLayout.GroupsContent | hexdump.go:153-155 | every group of a line at once is a space and the cell of its byte |
| HexdumpLayout.NumericLineDecodes | hexdump.go:151-177 | an octal, decimal or hex line is the offset, a space, one group per byte and a newline, with no ASCII column, and reads back to the offset and the chunk |
| HexdumpLayout.GroupsUpper | hexdump.go:169-175 | `%02X` groups are the `%02x` groups with their letters upper-cased |
| HexdumpLayout.HexUppercase | hexdump.go:167-177 | in hex mode Uppercase upper-cases the byte groups and not the offset |
| Hexdump.PrintASCII | hexdump.go:179-189 | one character per byte: the byte itself when it is in 32..126, otherwise `.`; the result equals the canonical line's ASCII column |
| Formats.DigitsValue | hexdump.go:121 | the digits `fmt` prints read back as the number |
| Formats.DigitsLower | hexdump.go:132 | without upper case every printed digit is `0`-`9` or `a`-`f` |
| Formats.Hex8Digits | hexdump.go:121 | a non-negative `%08x` offset is lower-case hex digits that denote it |
| Formats.Hex8Negative | hexdump.go:121 | a negative `%08x` offset is `-` followed by the digits of its magnitude |
| Formats.Hex8RoundTrip | hexdump.go:115 | every offset, negative or past 2^32, is read back from its `%08x` text |
| Formats.Hex8 | hexdump.go:121 | `%08x` is never narrower than eight columns, for any offset |
| Formats.Hex8Width | hexdump.go:121 | below 2^32 the offset field is exactly eight characters |
| Formats.Hex2 | hexdump.go:130-132 | `%02x` and `%02X` of a byte are always two columns wide |
| Formats.Hex2Value | hexdump.go:130-132 | `%02x` and `%02X` of a byte are two hex digits that denote it |
| Formats.Hex2Lower | hexdump.go:132 | `%02x` prints lower-case digits |
| Formats.Hex2Upper | hexdump.go:130 | `%02X` is `%02x` with its letters upper-cased and nothing else changed |
| Formats.Oct3 | hexdump.go:154 | `%03o` of a byte is always three columns wide |
| Formats.Oct3Value | hexdump.go:154 | `%03o` of a byte is three octal digits that denote it |
| Formats.Dec3 | hexdump.go:162 | `%3d` of a byte is always three columns wide |
| Formats.DigitsLeading | hexdump.go:162 | the digits `fmt` prints start with `0` exactly when the number is 0 |
| Formats.Dec3Value | hexdump.go:162 | `%3d` of a byte is spaces followed by its decimal digits, whose first digit is `0` only for the byte 0, so the field is space-filled and not zero-filled; without the spaces it reads back as the byte |
| Formats.StripPadLeft | hexdump.go:162 | removing the pad characters undoes the padding a width added |
| Formats.UpperHexAt | hexdump.go:129-133 | upper-casing works character by character |
| Formats.AsciiChar | hexdump.go:142-146 | the ASCII character is printable; it is the byte itself exactly when the byte is in 32..126, and `.` for every other byte |
| Formats.AsciiColumn | hexdump.go:141-147 | the ASCII column has exactly one character per byte of the chunk, with no padding |
| Formats.AsciiColumnAt | hexdump.go:141-147 | the ASCII column has one character per byte, in order |
| Formats.AsciiColumnConcat | hexdump.go:141-147 | the ASCII column of two runs of bytes is the two columns one after the other |
| Reader.ReadSource | hexdump.go:84 | a read hands over at most the buffer's length; an exhausted source answers 0 bytes and EOF |
| Reader.ReadSourceSplits | hexdump.go:84 | a read loses and invents no bytes: what it hands over, followed by what is left, is what was there; a read with no error leaves less behind |
| Reader.Read | hexdump.go:73 | a limited reader hands over no more than it has left and counts it down; at 0 it answers 0 bytes and EOF without touching the source |
| Reader.ReadSplits | hexdump.go:84 | the same conservation of bytes for a limited or plain reader |
| Reader.TruncateBytes | hexdump.go:73 | the script a limit of n presents holds exactly the first n bytes of the source |
| Reader.ReadLimitedAsTruncated | hexdump.go:73 | one read through `io.LimitReader(s, n)` returns what one read of the truncated script returns, and leaves related states behind |
| Hexdump.DiscardFrom | hexdump.go:64 | discarding never reports EOF as an error, keeps a plain or limited reader what it was, and never lowers the count written |
| Hexdump.DiscardConsumes | hexdump.go:64 | the count discarded is exactly the bytes taken from the front of the source |
| Hexdump.DiscardWithinLimit | hexdump.go:64 | through a limit no more than the limit is discarded |
| Hexdump.CopyN | hexdump.go:64-67 | skipping n bytes writes at most n, succeeds exactly when it skipped n, and leaves the rest of the bytes in order |
| HexdumpStream.DiscardClean | hexdump.go:64 | on a well-behaved source, discarding through a limit takes exactly min(limit, size) bytes and succeeds |
| HexdumpStream.CopyNClean | hexdump.go:63-67 | on a well-behaved source the skip never fails with a real error and skips exactly min(n, size) bytes |
| HexdumpStream.SkipFailure | hexdump.go:63-67 | a skip that fails with an error other than EOF returns that error, and nothing is written |
| Hexdump.Trailer | hexdump.go:115 | the closing line is exactly the lower-case `%08x` offset field `Hex8(offset)`, which reads back to the final offset, followed by a newline |
| Hexdump.Dump | hexdump.go:79-118 | the read loop never returns EOF as its error |
| Hexdump.Loop | hexdump.go:83-115 | the read loop never returns EOF as its error, for any printer |
| Hexdump.Process | hexdump.go:61-77 | `processSource` never returns EOF as its error |
| Hexdump.ProcessSource | hexdump.go:61-77 | the same with the flags' width, renderer, skip and limit |
| HexdumpStream.LoopIsLines | hexdump.go:83-115 | the loop's output is one line per non-empty read, each at the starting offset plus the bytes before it, then the offset after the last byte unless a read failed; the error is the one that stopped it |
| HexdumpStream.LoopLast | hexdump.go:89-111 | a read that brings bytes with an error is rendered and ends the loop |
| HexdumpStream.LinesSnoc | hexdump.go:92-104 | appending a chunk appends its line at the offset after every earlier chunk |
| HexdumpStream.ChunkSizes | hexdump.go:80-89 | every rendered chunk holds between 1 and BytesPerLine bytes |
| HexdumpStream.ChunksOfPlain | hexdump.go:83-112 | the loop renders exactly the bytes the source delivers and stops with its error, whatever the line width |
| HexdumpStream.ChunksOfSplit | hexdump.go:83-112 | a read result longer than the line width is taken one line at a time |
| HexdumpStream.DeliveredPrefix | hexdump.go:83-112 | what the loop renders is a prefix of the source's bytes |
| HexdumpStream.DeliveredClean | hexdump.go:83-112 | on a well-behaved source everything is rendered and the loop returns nil |
| HexdumpStream.ZeroByteReadEndsLoop | hexdump.go:84-87 | a read of 0 bytes ends the loop with the final offset and nil, whatever error it carried |
| HexdumpStream.MidStreamFailure | hexdump.go:89-111 | bytes that arrive with an error other than EOF are rendered, the error is returned, and no final offset is written |
| HexdumpStream.LoopLimited | hexdump.go:72-73 | the loop through `io.LimitReader(s, n)` writes exactly what it writes on the truncated script |
| HexdumpStream.LimitBounds | hexdump.go:72-73 | under a limit of n at most n bytes are shown, and they are a prefix of the source |
| HexdumpStream.TruncateClean | hexdump.go:72-73 | a limit keeps a well-behaved source well behaved |
| HexdumpStream.ReadSourceClean | hexdump.go:84 | one read of a well-behaved source brings bytes unless it is used up, never fails, and reports EOF only at the end |
| HexdumpStream.LoopClean | hexdump.go:79-118 | on a well-behaved source the loop renders all of it and ends with the offset after its last byte |
| HexdumpStream.SkippedClean | hexdump.go:61-77 | after skipping, the loop reads the rest of the bytes, limited when ReadBytes is positive, starting its offsets at SkipBytes |
| HexdumpStream.ShownScript | hexdump.go:61-77 | `processSource` is the loop on a well-behaved script holding exactly the shown bytes |
| HexdumpStream.ProcessCleanSource | hexdump.go:61-77 | the shown bytes are split into chunks of 1 to BytesPerLine bytes, each rendered at SkipBytes plus the bytes before it, then the offset SkipBytes plus the number shown, and nil |
| HexdumpStream.SkipPastEnd | hexdump.go:63-81 | skipping past the end shows nothing, and the final offset is still SkipBytes |
| HexdumpStream.FlattenEmpty | hexdump.go:84-87 | no chunk is empty, so chunks that hold no bytes are no chunks at all |
| Command.Hexdump | command.go:15-17 | the resulting line width is never 0; a width of 0 becomes 16; a non-zero width and every other option are kept unchanged |
| Command.HexCells | command.go:41-46 | no contract of its own: it defines the cells; `Command.HexCellsLength`, `CommandLayout.CellAt` and `CommandLayout.CellSpacing` state their width, digits and spacing |
| Command.Padding | command.go:48-54 | no contract of its own: it defines the blank slots; `Command.PaddingLength` and `CommandLayout.PaddingBlank` state their width and that they are blank |
| Command.Line | command.go:37-65 | a line of a slice of at most BytesPerLine bytes is the offset field, 6 more columns, 3·BytesPerLine + (BytesPerLine − 1)/8 columns of cells and padding, and one column per byte, for any offset |
| Command.Split | command.go:31-35 | the slices of one read partition it: together they are the read, each holds 1 to BytesPerLine bytes, and all but the last hold exactly BytesPerLine |
| Command.Block | command.go:31-66 | the inner loop writes one line per slice of the read, in order, each at the offset of its first byte |
| Command.Run | command.go:27-76 | the Executor's loop never returns EOF as its error, for any printer |
| Command.Execute | command.go:21-81 | the Executor never returns EOF as its error |
| CommandStream.SplitSlices | command.go:31-35 | slice k of a read is the bytes from k times BytesPerLine up to (k + 1) times BytesPerLine or the end of the read |
| CommandStream.LinesAppend | command.go:31-38 | the lines of two runs of slices: the second starts where the first's bytes end |
| CommandStream.RunIsLines | command.go:27-79 | the Executor writes the lines of the slices of every read, at offsets counted over all reads, then the total byte count unless a read failed, whose error it returns |
| CommandStream.PiecesPartition | command.go:31-67 | over all reads, every slice holds 1 to BytesPerLine bytes and together the slices are every byte read |
| CommandStream.FinishesReadsAll | command.go:27-76 | on a source that never fails the Executor reads every byte and returns nil |
| CommandStream.ExecuteFinishes | command.go:21-81 | on a source that never fails the output is the canonical-style lines of every slice of every read, from offset 0, then `%08x` of the total byte count |
| CommandStream.FailureNoTrailer | command.go:29-75 | a read that fails is still rendered, then its error is returned with no trailer |
| CommandStream.EmptyReadContinues | command.go:28-76 | a read of no bytes and no error does not end the run: the Executor reads again |
| CommandStream.ChunkingRestarts | command.go:26-35 | slicing restarts at every read: two reads of three bytes at width 4 give lines of three and three, where the same six bytes in one read give four and two |
| CommandStream.ExecuteIgnoresOtherSettings | command.go:23 | only BytesPerLine is read: any other setting leaves the Executor's output unchanged |
| Command.HexCellsLength | command.go:41-46 | the cells take three columns per byte plus a group space at every positive multiple of 8 |
| Command.PaddingLength | command.go:49-54 | the padding follows the same rule for the blank positions |
| CommandLayout.PaddingBlank | command.go:49-54 | every column of the padding is a space, for any line width, group spaces included |
| CommandLayout.LineLength | command.go:37-65 | below 2^32 a line of n bytes is 14 + 3·BytesPerLine + (BytesPerLine − 1)/8 + n characters long |
| CommandLayout.LineFields | command.go:37-65 | a line opens with the offset, which reads back, and two spaces, and ends with ` \|`, the slice's ASCII column, `\|` and a newline |
| CommandLayout.HexCellsConcat | command.go:41-46 | the cells of two runs of bytes are the first run's cells followed by the second's, positioned after it |
| CommandLayout.CellAt | command.go:41-46 | byte j's cell is its two lower-case hex digits and a space, at the column computed from j |
| CommandLayout.CellSpacing | command.go:41-46 | between the digits of bytes j − 1 and j there is one space, and a second one exactly when j is a positive multiple of 8, for any line width |
| CommandLayout.GroupSpaceAt | command.go:42-44 | the column just before the cell of byte j, a positive multiple of 8, is the group space |
| CommandLayout.CellDecodes | command.go:38-46 | the two digits of byte j's cell in the line read back to byte j |
| CommandLayout.PaddingAsSlots | command.go:49-54 | at width 16 the padding is the canonical line's empty slots |
| CommandLayout.CellsAsSlots | command.go:41-54 | at width 16 the cells and the padding are the canonical line's sixteen slots |
| CommandLayout.AgreesWithCanonical | command.go:37-65 | at width 16 the Executor's line is exactly the full command's canonical lower-case line |

## Left out

- `command.Execute` in `hexdump.go` (lines 31-59) is left out. It opens the named files, falls back to standard input, and writes errors to stderr. This is file-system and stream I/O. The model starts at `processSource`, taking one source as a script of reads.
- The framework wiring is left out: `opt.Args`, `gloo.Initialize`, the `yup`/`gloo` command types, `Executor()` returning a closure, and the unused `ctx`. The model takes the resulting option record as input.
- `String()` is left out. It formats the positional arguments for display and has nothing to do with dumping.
- The Format option is modelled only as a field its setter writes. No renderer reads it.
- Output is a returned string, not a sequence of writes to an `io.Writer`. Write errors are ignored by the source, so nothing is lost.
- A reader that answers `(0, nil)` forever is left out, because a finite script cannot express it. With such a reader two loops never stop:
  - the minimal command's Executor, which reads again after every empty read; each single empty read is covered by `CommandStream.EmptyReadContinues`;
  - the full command's skip (`io.CopyN` into `io.Discard`, `hexdump.go:64`), whose copy loop also reads again after an empty read.
- `io.CopyN`, `io.Discard` and `io.LimitReader` are standard-library code and are not part of this model. They are modelled by what the standard library does:
  - `io.Discard` reads in 8192-byte blocks. This is the buffer size of the library's implementation, not a promise of its documentation.
  - `io.CopyN` succeeds when n bytes were written, and otherwise reports EOF or the error.
- A negative BytesPerLine is left out: the full command's `make` panics on it, and the minimal command's slicing then sets `end = i + BytesPerLine`, below `i`, so no cell, padding or ASCII byte is printed, and `i += BytesPerLine` moves `i` backwards: the loop prints `%08x   ||` lines at ever smaller offsets and never stops. The loops require BytesPerLine > 0, which `Hexdump` guarantees for every value except a negative one.
- Formats.Hex8Width: the eight-column width of `%08x` is proved only below 2^32. Wider offsets print more digits, and `Hex8RoundTrip` covers them. Lemmas about column positions inherit this bound.
- The int64 wrap-around of offsets is not modelled. Offsets are unbounded integers, and an int64 overflow needs 2^63 bytes of input.
- The int64 conversions of SkipBytes and ReadBytes (`hexdump.go:64,73,81`) are not modelled, for the same reason: the values are taken as unbounded integers.
- Hexdump.Loop: its own contract states only that EOF is never returned. The full output is stated by `HexdumpStream.LoopIsLines`.
- Hexdump.Dump: the same as `Hexdump.Loop`, with the flags' printer.
- Hexdump.Process: its own contract states only that EOF is never returned. The output is stated by `HexdumpStream.SkippedClean`, `HexdumpStream.ProcessCleanSource` and `HexdumpStream.SkipFailure`.
- Hexdump.ProcessSource: the same as `Hexdump.Process`, with the flags' printer, skip and limit.
- Command.Run: its own contract states only that EOF is never returned. The full output is stated by `CommandStream.RunIsLines`.
- Command.Execute: the same as `Command.Run`. The output on a source that never fails is stated by `CommandStream.ExecuteFinishes`.
- Hexdump.Render: its own contract states only the offset field and the closing newline. Which renderer writes the line is stated by `HexdumpLayout.CanonicalWins` and `HexdumpLayout.FlagsSelectRenderer`.
- Hexdump.PrintOctal: its own contract states only the line length. The content is stated by `HexdumpLayout.NumericLineDecodes`.
- Hexdump.PrintDecimal: its own contract states only the line length. The content is stated by `HexdumpLayout.NumericLineDecodes`.
- Hexdump.PrintHex: its own contract states only the line length. The content is stated by `HexdumpLayout.NumericLineDecodes` and `HexdumpLayout.HexUppercase`.
- Command.Line: its own contract states only the line length. The fields are stated by `CommandLayout.LineFields`, the cells by `CommandLayout.CellAt` and `CommandLayout.CellDecodes`, the padding by `CommandLayout.PaddingBlank`, and the width-16 line by `CommandLayout.AgreesWithCanonical`.
- Hexdump.PrintCanonical: its own contract states only the line length. The content is stated by the `HexdumpLayout.Canonical…` lemmas.
- Hexdump.Slot: its own contract states only the width. What a slot shows is stated by `HexdumpLayout.CanonicalSlotAt`.
- Hexdump.Slots: its own contract states only the width. The slots' content is stated by `HexdumpLayout.SlotAt` and `HexdumpLayout.CanonicalSlotsLayout`.
- Formats.Hex8: its own contract states only the minimum width. The digits are stated by `Formats.Hex8Digits` and `Formats.Hex8Negative`, and the round trip by `Formats.Hex8RoundTrip`.
- Formats.Hex2: its own contract states only the width. The digits are stated by `Formats.Hex2Value`, `Formats.Hex2Lower` and `Formats.Hex2Upper`.
- Formats.Oct3: its own contract states only the width. The digits are stated by `Formats.Oct3Value`.
- Formats.Dec3: its own contract states only the width. The layout and the digits are stated by `Formats.Dec3Value`.
- Formats.AsciiColumn: its own contract states only the length. The characters are stated by `Formats.AsciiColumnAt`.
- Command.HexCells: it has no contract of its own. A width contract would bring its arithmetic into every proof that unfolds the cells, so its facts are separate lemmas. Its width, digits and spacing are stated by `Command.HexCellsLength`, `CommandLayout.CellAt` and `CommandLayout.CellSpacing`.
- Command.Padding: it has no contract of its own, for the same reason. Its width and blankness are stated by `Command.PaddingLength` and `CommandLayout.PaddingBlank`.
