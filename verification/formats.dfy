/** The handful of Go `fmt` verbs the hexdump renderers use -- `%08x`, `%02x`,
    `%02X`, `%03o`, `%3d` and `%c` -- as functions on unbounded integers, each
    paired with the digit decoder that inverts it. */
module Formats {

  /** A Go `byte`. */
  type byte = b: int | 0 <= b < 256

  function Pow(base: nat, k: nat): nat
  {
    if k == 0 then 1 else base * Pow(base, k - 1)
  }

  // ---------------------------------------------------------------------------
  // Digits
  // ---------------------------------------------------------------------------

  predicate IsHexChar(c: char)
  {
    '0' <= c <= '9' || 'a' <= c <= 'f' || 'A' <= c <= 'F'
  }

  /** The value of one digit character, in any base up to 16. */
  function DigitValue(c: char): nat
    requires IsHexChar(c)
  {
    if '0' <= c <= '9' then c as int - '0' as int
    else if 'a' <= c <= 'f' then c as int - 'a' as int + 10
    else c as int - 'A' as int + 10
  }

  predicate IsDigit(c: char, base: nat)
  {
    IsHexChar(c) && DigitValue(c) < base
  }

  predicate AllDigits(s: seq<char>, base: nat)
  {
    forall i :: 0 <= i < |s| ==> IsDigit(s[i], base)
  }

  /** A lower-case hex digit, as the `x` verb prints it. */
  predicate IsLowerHexDigit(c: char)
  {
    '0' <= c <= '9' || 'a' <= c <= 'f'
  }

  /** The character `fmt` prints for digit `d`; `upper` selects the `X` verb's
      `A`-`F` over the `x` verb's `a`-`f`. */
  function DigitChar(d: nat, upper: bool): (c: char)
    requires d < 16
    ensures IsHexChar(c) && DigitValue(c) == d
    ensures upper ==> !('a' <= c <= 'f')
    ensures !upper ==> IsLowerHexDigit(c)
  {
    if d < 10 then ('0' as int + d) as char
    else if upper then ('A' as int + d - 10) as char
    else ('a' as int + d - 10) as char
  }

  /** The number a string of digits denotes, most significant digit first. */
  function Value(s: seq<char>, base: nat): nat
    requires AllDigits(s, base)
  {
    if |s| == 0 then 0 else Value(s[..|s| - 1], base) * base + DigitValue(s[|s| - 1])
  }

  /** The shortest digit string of `n`: what `fmt` prints before any padding. */
  function Digits(n: nat, base: nat, upper: bool): (s: seq<char>)
    requires 2 <= base <= 16
    ensures 1 <= |s|
    decreases n
  {
    if n < base then [DigitChar(n, upper)]
    else (DivShrinks(n, base); Digits(n / base, base, upper) + [DigitChar(n % base, upper)])
  }

  /** Digits is a positional numeral: its digits read back as `n`. */
  lemma {:induction false} DigitsValue(n: nat, base: nat, upper: bool)
    requires 2 <= base <= 16
    ensures AllDigits(Digits(n, base, upper), base)
    ensures Value(Digits(n, base, upper), base) == n
    decreases n
  {
    if n >= base {
      DivShrinks(n, base);
      DigitsValue(n / base, base, upper);
      var front, c := Digits(n / base, base, upper), DigitChar(n % base, upper);
      assert Digits(n, base, upper) == front + [c];
      ValueSnoc(front, c, base);
      DivMod(n, base);
    }
  }

  /** No leading zero: the first digit is `0` only for the number 0 itself. */
  lemma {:induction false} DigitsLeading(n: nat, base: nat, upper: bool)
    requires 2 <= base <= 16
    ensures Digits(n, base, upper)[0] == '0' <==> n == 0
    decreases n
  {
    if n >= base {
      DivShrinks(n, base);
      DigitsLeading(n / base, base, upper);
      assert Digits(n, base, upper)[0] == Digits(n / base, base, upper)[0];
    }
  }

  /** Without `upper` every digit is one the `x` verb prints: `0`-`9` or `a`-`f`. */
  lemma {:induction false} DigitsLower(n: nat, base: nat)
    requires 2 <= base <= 16
    ensures forall i :: 0 <= i < |Digits(n, base, false)| ==> IsLowerHexDigit(Digits(n, base, false)[i])
    decreases n
  {
    if n >= base {
      DivShrinks(n, base);
      DigitsLower(n / base, base);
      var front, c := Digits(n / base, base, false), DigitChar(n % base, false);
      assert Digits(n, base, false) == front + [c];
    }
  }

  lemma ValueSnoc(front: seq<char>, c: char, base: nat)
    requires AllDigits(front, base) && IsDigit(c, base)
    ensures AllDigits(front + [c], base)
    ensures Value(front + [c], base) == Value(front, base) * base + DigitValue(c)
  {
    var s := front + [c];
    assert s[..|s| - 1] == front;
  }

  lemma DivMod(n: nat, base: nat)
    requires 0 < base
    ensures n == (n / base) * base + n % base
  {
  }

  lemma DivShrinks(n: nat, base: nat)
    requires 2 <= base && 1 <= n
    ensures n / base < n
  {
    DivMod(n, base);
    MulMono(2, base, n / base);
  }

  /** One digit fewer, one power fewer. */
  lemma PowShift(n: nat, base: nat, k: nat)
    requires 2 <= base <= n && 1 <= k
    requires n < Pow(base, k)
    ensures 2 <= k && n / base < Pow(base, k - 1)
  {
    var p := Pow(base, k - 1);
    assert Pow(base, k) == base * p;
    assert k == 1 ==> p == 1;
    DivBelow(n, base, p);
  }

  /** How many digits `n` has in `base`. */
  function DigitCount(n: nat, base: nat): nat
    requires 2 <= base
    decreases n
  {
    if n < base then 1 else (DivShrinks(n, base); DigitCount(n / base, base) + 1)
  }

  lemma {:induction false} DigitsLength(n: nat, base: nat, upper: bool)
    requires 2 <= base <= 16
    ensures |Digits(n, base, upper)| == DigitCount(n, base)
    decreases n
  {
    if n >= base {
      DivShrinks(n, base);
      DigitsLength(n / base, base, upper);
    }
  }

  lemma MulMono(a: nat, b: nat, c: nat)
    requires a <= b
    ensures a * c <= b * c
  {
    assert b * c == a * c + (b - a) * c;
  }

  lemma DivBelow(n: nat, base: nat, p: nat)
    requires 0 < base && n < base * p
    ensures n / base < p
  {
    var q := n / base;
    DivMod(n, base);
    if q >= p {
      MulMono(p, q, base);
    }
  }

  /** A number below `base^k` has at most `k` digits. */
  lemma {:induction false} DigitsFit(n: nat, base: nat, upper: bool, k: nat)
    requires 2 <= base <= 16 && 1 <= k
    requires n < Pow(base, k)
    ensures |Digits(n, base, upper)| <= k
  {
    CountFits(n, base, k);
    DigitsLength(n, base, upper);
  }

  lemma {:induction false} CountFits(n: nat, base: nat, k: nat)
    requires 2 <= base && 1 <= k
    requires n < Pow(base, k)
    ensures DigitCount(n, base) <= k
    decreases n
  {
    if n >= base {
      PowShift(n, base, k);
      DivShrinks(n, base);
      CountFits(n / base, base, k - 1);
    }
  }

  /** `n` copies of `c`. */
  function Repeat(c: char, n: nat): (r: seq<char>)
    ensures |r| == n
  {
    if n == 0 then [] else [c] + Repeat(c, n - 1)
  }

  lemma {:induction false} RepeatAt(c: char, n: nat)
    ensures forall i :: 0 <= i < n ==> Repeat(c, n)[i] == c
  {
    if n > 0 {
      RepeatAt(c, n - 1);
    }
  }

  /** Left-pads `s` with `pad` to at least `width` characters, as a `fmt`
      width does; a longer `s` is kept whole. */
  function PadLeft(s: seq<char>, width: nat, pad: char): (r: seq<char>)
    ensures |r| == if |s| < width then width else |s|
  {
    if |s| >= width then s else Repeat(pad, width - |s|) + s
  }

  /** A padded string is pad characters followed by the string itself. */
  lemma PadLeftParts(s: seq<char>, width: nat, pad: char)
    ensures PadLeft(s, width, pad) == Repeat(pad, |PadLeft(s, width, pad)| - |s|) + s
  {
    if |s| >= width {
      assert Repeat(pad, 0) + s == s;
    }
  }

  /** Zero-padding changes no digit value. */
  lemma ZeroPadValue(d: seq<char>, width: nat, base: nat)
    requires 2 <= base && AllDigits(d, base)
    ensures AllDigits(PadLeft(d, width, '0'), base)
    ensures Value(PadLeft(d, width, '0'), base) == Value(d, base)
  {
    var z := Repeat('0', |PadLeft(d, width, '0')| - |d|);
    PadLeftParts(d, width, '0');
    RepeatAt('0', |z|);
    ValueLeadingZeros(z, d, base);
  }

  /** Zero-padding a lower-case digit string keeps it lower case. */
  lemma ZeroPadLower(d: seq<char>, width: nat)
    requires forall i :: 0 <= i < |d| ==> IsLowerHexDigit(d[i])
    ensures forall i :: 0 <= i < |PadLeft(d, width, '0')| ==> IsLowerHexDigit(PadLeft(d, width, '0')[i])
  {
    var z := Repeat('0', |PadLeft(d, width, '0')| - |d|);
    PadLeftParts(d, width, '0');
    RepeatAt('0', |z|);
  }

  lemma {:induction false} ValueLeadingZeros(z: seq<char>, s: seq<char>, base: nat)
    requires 2 <= base
    requires forall i :: 0 <= i < |z| ==> z[i] == '0'
    requires AllDigits(s, base)
    ensures AllDigits(z + s, base)
    ensures Value(z + s, base) == Value(s, base)
    decreases |s|
  {
    if |s| == 0 {
      assert z + s == z;
      ZerosValue(z, base);
    } else {
      var front := s[..|s| - 1];
      assert (z + s)[..|z + s| - 1] == z + front;
      ValueLeadingZeros(z, front, base);
    }
  }

  lemma {:induction false} ZerosValue(z: seq<char>, base: nat)
    requires 2 <= base
    requires forall i :: 0 <= i < |z| ==> z[i] == '0'
    ensures AllDigits(z, base)
    ensures Value(z, base) == 0
    decreases |z|
  {
    if |z| > 0 {
      ZerosValue(z[..|z| - 1], base);
    }
  }

  /** Removes the leading `pad` characters that a `fmt` width added. */
  function StripLeading(s: seq<char>, pad: char): (r: seq<char>)
    ensures |r| <= |s|
  {
    if |s| > 0 && s[0] == pad then StripLeading(s[1..], pad) else s
  }

  /** What StripLeading removes is a run of pad characters, and what it keeps
      does not start with one. */
  lemma {:induction false} StripLeadingSplit(s: seq<char>, pad: char)
    ensures s == Repeat(pad, |s| - |StripLeading(s, pad)|) + StripLeading(s, pad)
    ensures |StripLeading(s, pad)| > 0 ==> StripLeading(s, pad)[0] != pad
  {
    if |s| > 0 && s[0] == pad {
      var r := StripLeading(s[1..], pad);
      var m := |s| - 1 - |r|;
      StripLeadingSplit(s[1..], pad);
      assert StripLeading(s, pad) == r;
      var run := Repeat(pad, m);
      assert s[1..] == run + r;
      assert s == [pad] + (run + r);
      assert [pad] + (run + r) == [pad] + run + r;
      assert Repeat(pad, m + 1) == [pad] + run;
    } else {
      assert Repeat(pad, 0) + s == s;
    }
  }

  lemma {:induction false} StripPadding(m: nat, s: seq<char>, pad: char)
    requires |s| > 0 && s[0] != pad
    ensures StripLeading(Repeat(pad, m) + s, pad) == s
    decreases m
  {
    var p := Repeat(pad, m) + s;
    if m > 0 {
      assert p == [pad] + (Repeat(pad, m - 1) + s);
      assert p[1..] == Repeat(pad, m - 1) + s;
      StripPadding(m - 1, s, pad);
    } else {
      assert p == s;
    }
  }

  /** Stripping the pad characters undoes PadLeft, when `s` does not itself
      start with one. */
  lemma StripPadLeft(s: seq<char>, width: nat, pad: char)
    requires |s| > 0 && s[0] != pad
    ensures StripLeading(PadLeft(s, width, pad), pad) == s
  {
    PadLeftParts(s, width, pad);
    StripPadding(|PadLeft(s, width, pad)| - |s|, s, pad);
  }

  // ---------------------------------------------------------------------------
  // The verbs
  // ---------------------------------------------------------------------------

  /** `%08x` of a Go integer: at least eight lower-case hex digits, zero-filled;
      for a negative value the `-` sign takes one of the eight columns. */
  function Hex8(n: int): (s: string)
    ensures |s| >= 8
  {
    if n >= 0 then PadLeft(Digits(n, 16, false), 8, '0')
    else ['-'] + PadLeft(Digits(-n, 16, false), 7, '0')
  }

  /** A non-negative offset prints as lower-case hex digits denoting it. */
  lemma Hex8Digits(n: int)
    requires 0 <= n
    ensures AllDigits(Hex8(n), 16) && Value(Hex8(n), 16) == n
    ensures forall i :: 0 <= i < |Hex8(n)| ==> IsLowerHexDigit(Hex8(n)[i])
  {
    DigitsValue(n, 16, false);
    ZeroPadValue(Digits(n, 16, false), 8, 16);
    DigitsLower(n, 16);
    ZeroPadLower(Digits(n, 16, false), 8);
  }

  /** A negative offset prints as `-` and the digits of its magnitude. */
  lemma Hex8Negative(n: int)
    requires n < 0
    ensures Hex8(n)[0] == '-'
    ensures AllDigits(Hex8(n)[1..], 16) && Value(Hex8(n)[1..], 16) == -n
  {
    var p := PadLeft(Digits(-n, 16, false), 7, '0');
    assert Hex8(n) == ['-'] + p;
    assert Hex8(n)[1..] == p;
    DigitsValue(-n, 16, false);
    ZeroPadValue(Digits(-n, 16, false), 7, 16);
  }

  /** Reads back an offset printed by Hex8. */
  function ParseOffset(s: string): int
  {
    if |s| > 0 && s[0] == '-' then
      if AllDigits(s[1..], 16) then 0 - Value(s[1..], 16) else 0
    else if AllDigits(s, 16) then Value(s, 16) else 0
  }

  /** Hex8 loses nothing: every offset, negative or past 2^32, is read back. */
  lemma Hex8RoundTrip(n: int)
    ensures ParseOffset(Hex8(n)) == n
  {
    if n >= 0 {
      Hex8Digits(n);
      assert IsDigit(Hex8(n)[0], 16);
    } else {
      Hex8Negative(n);
    }
  }

  /** Below 2^32 the offset column is exactly eight characters wide. */
  lemma Hex8Width(n: int)
    requires 0 <= n < 0x1_0000_0000
    ensures |Hex8(n)| == 8
  {
    assert Pow(16, 8) == 0x1_0000_0000;
    DigitsFit(n, 16, false, 8);
  }

  /** `%02x` (or `%02X` when `upper`) of a byte: always two digits. */
  function Hex2(b: byte, upper: bool): (s: string)
    ensures |s| == 2
  {
    assert Pow(16, 2) == 256;
    DigitsFit(b, 16, upper, 2);
    PadLeft(Digits(b, 16, upper), 2, '0')
  }

  /** The two digits denote the byte. */
  lemma Hex2Value(b: byte, upper: bool)
    ensures AllDigits(Hex2(b, upper), 16) && Value(Hex2(b, upper), 16) == b
  {
    DigitsValue(b, 16, upper);
    ZeroPadValue(Digits(b, 16, upper), 2, 16);
  }

  /** The `x` verb's digits are lower case. */
  lemma Hex2Lower(b: byte)
    ensures IsLowerHexDigit(Hex2(b, false)[0]) && IsLowerHexDigit(Hex2(b, false)[1])
  {
    DigitsLower(b, 16);
    ZeroPadLower(Digits(b, 16, false), 2);
  }

  /** `%03o` of a byte: always three octal digits, since a byte is at most 0o377. */
  function Oct3(b: byte): (s: string)
    ensures |s| == 3
  {
    assert Pow(8, 3) == 512;
    DigitsFit(b, 8, false, 3);
    PadLeft(Digits(b, 8, false), 3, '0')
  }

  /** The three octal digits denote the byte. */
  lemma Oct3Value(b: byte)
    ensures AllDigits(Oct3(b), 8) && Value(Oct3(b), 8) == b
  {
    DigitsValue(b, 8, false);
    ZeroPadValue(Digits(b, 8, false), 3, 8);
  }

  /** `%3d` of a byte: right-aligned in three columns, padded with spaces. */
  function Dec3(b: byte): (s: string)
    ensures |s| == 3
  {
    assert Pow(10, 3) == 1000;
    DigitsFit(b, 10, false, 3);
    PadLeft(Digits(b, 10, false), 3, ' ')
  }

  /** The column is spaces followed by the decimal digits of the byte, with
      no leading zero, so `%3d` is told apart from `%03d`; without its leading
      spaces it reads back as the byte. */
  lemma Dec3Value(b: byte)
    ensures |Digits(b, 10, false)| <= 3 &&
            Dec3(b) == Repeat(' ', 3 - |Digits(b, 10, false)|) + Digits(b, 10, false)
    ensures Digits(b, 10, false)[0] == '0' <==> b == 0
    ensures AllDigits(StripLeading(Dec3(b), ' '), 10) && Value(StripLeading(Dec3(b), ' '), 10) == b
  {
    var d := Digits(b, 10, false);
    assert Pow(10, 3) == 1000;
    DigitsFit(b, 10, false, 3);
    PadLeftParts(d, 3, ' ');
    DigitsLeading(b, 10, false);
    DigitsValue(b, 10, false);
    assert IsDigit(d[0], 10);
    StripPadLeft(d, 3, ' ');
  }

  // ---------------------------------------------------------------------------
  // Letter case
  // ---------------------------------------------------------------------------

  function UpperChar(c: char): char
  {
    if 'a' <= c <= 'f' then (c as int - 'a' as int + 'A' as int) as char else c
  }

  /** Upper-cases the hex letters `a`-`f` of `s` and keeps every other character. */
  function UpperHex(s: string): (r: string)
    ensures |r| == |s|
  {
    if |s| == 0 then [] else [UpperChar(s[0])] + UpperHex(s[1..])
  }

  /** Character by character. */
  lemma {:induction false} UpperHexAt(s: string)
    ensures forall i :: 0 <= i < |s| ==> UpperHex(s)[i] == UpperChar(s[i])
  {
    if |s| > 0 {
      UpperHexAt(s[1..]);
    }
  }

  /** Strings without the letters `a`-`f` are left as they are. */
  lemma {:induction false} UpperHexKeeps(s: string)
    requires forall i :: 0 <= i < |s| ==> !('a' <= s[i] <= 'f')
    ensures UpperHex(s) == s
  {
    if |s| > 0 {
      UpperHexKeeps(s[1..]);
      assert s == [s[0]] + s[1..];
    }
  }

  lemma {:induction false} UpperHexConcat(a: string, b: string)
    ensures UpperHex(a + b) == UpperHex(a) + UpperHex(b)
  {
    if |a| > 0 {
      assert (a + b)[1..] == a[1..] + b;
      UpperHexConcat(a[1..], b);
    } else {
      assert a + b == b;
    }
  }

  /** A trailing space survives upper-casing. */
  lemma UpperHexSpace(lower: string, upper: string)
    requires upper == UpperHex(lower)
    ensures upper + " " == UpperHex(lower + " ")
  {
    UpperHexConcat(lower, " ");
    UpperHexKeeps(" ");
  }

  /** Upper-casing a string glued from a letter-free gap and two pieces
      upper-cases the pieces. */
  lemma UpperHexGlue(gap: string, lo: string, loRest: string, hi: string, hiRest: string)
    requires forall i :: 0 <= i < |gap| ==> !('a' <= gap[i] <= 'f')
    requires hi == UpperHex(lo) && hiRest == UpperHex(loRest)
    ensures gap + hi + hiRest == UpperHex(gap + lo + loRest)
  {
    UpperHexKeeps(gap);
    UpperHex3(gap, lo, loRest);
  }

  lemma UpperHex3(a: string, b: string, c: string)
    ensures UpperHex(a + b + c) == UpperHex(a) + UpperHex(b) + UpperHex(c)
  {
    UpperHexConcat(a, b);
    UpperHexConcat(a + b, c);
  }

  lemma {:induction false} DigitsUpper(n: nat, base: nat)
    requires 2 <= base <= 16
    ensures Digits(n, base, true) == UpperHex(Digits(n, base, false))
    decreases n
  {
    if n >= base {
      var lo, hi := Digits(n / base, base, false), Digits(n / base, base, true);
      var clo, chi := DigitChar(n % base, false), DigitChar(n % base, true);
      assert Digits(n, base, false) == lo + [clo];
      assert Digits(n, base, true) == hi + [chi];
      DivShrinks(n, base);
      DigitsUpper(n / base, base);
      UpperHexConcat(lo, [clo]);
      UpperDigitChar(n % base);
      assert UpperHex([clo]) == [chi];
    } else {
      UpperDigitChar(n);
      assert UpperHex([DigitChar(n, false)]) == [DigitChar(n, true)];
    }
  }

  lemma UpperDigitChar(d: nat)
    requires d < 16
    ensures UpperChar(DigitChar(d, false)) == DigitChar(d, true)
  {
  }

  /** `%02X` is `%02x` with its letters upper-cased, and nothing else changed. */
  lemma Hex2Upper(b: byte)
    ensures Hex2(b, true) == UpperHex(Hex2(b, false))
  {
    var lo, hi := Digits(b, 16, false), Digits(b, 16, true);
    DigitsUpper(b, 16);
    PadLeftParts(lo, 2, '0');
    PadLeftParts(hi, 2, '0');
    var z := Repeat('0', 2 - |lo|);
    RepeatAt('0', |z|);
    UpperHexKeeps(z);
    UpperHexConcat(z, lo);
  }

  // ---------------------------------------------------------------------------
  // The printable column
  // ---------------------------------------------------------------------------

  /** A byte in the printable ASCII range [32, 126]. */
  predicate IsPrintable(b: byte)
  {
    32 <= b <= 126
  }

  /** The ASCII-column character of one byte: the byte itself (`%c`) when it is
      printable, otherwise `.`. */
  function AsciiChar(b: byte): (c: char)
    ensures 32 <= c as int <= 126
    ensures c as int == b <==> IsPrintable(b)
    ensures !IsPrintable(b) ==> c == '.'
  {
    if 32 <= b <= 126 then b as char else '.'
  }

  /** The ASCII column of a run of bytes, one character per byte, unpadded. */
  function AsciiColumn(data: seq<byte>): (r: string)
    ensures |r| == |data|
  {
    if |data| == 0 then [] else [AsciiChar(data[0])] + AsciiColumn(data[1..])
  }

  /** Each byte gets its own character, in order. */
  lemma {:induction false} AsciiColumnAt(data: seq<byte>)
    ensures forall i :: 0 <= i < |data| ==> AsciiColumn(data)[i] == AsciiChar(data[i])
  {
    if |data| > 0 {
      AsciiColumnAt(data[1..]);
    }
  }

  lemma {:induction false} AsciiColumnConcat(a: seq<byte>, b: seq<byte>)
    ensures AsciiColumn(a + b) == AsciiColumn(a) + AsciiColumn(b)
  {
    if |a| > 0 {
      assert (a + b)[1..] == a[1..] + b;
      AsciiColumnConcat(a[1..], b);
    } else {
      assert a + b == b;
    }
  }
}
