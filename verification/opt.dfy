/** The option record of the hexdump command (package `opt`) and the
    parameter values that each set one of its fields. */
module Opt {

  /** The command's options. A Go zero value is `Flags(0, 0, 0, "", false, ...)`. */
  datatype Flags = Flags(
    bytesPerLine: int,
    skipBytes: int,
    readBytes: int,
    format: string,
    canonical: bool,
    octal: bool,
    decimal: bool,
    hex: bool,
    uppercase: bool)

  /** A parameter value: one constructor per Go parameter type, each carrying
      the value it was converted from. */
  datatype Setting =
    | BytesPerLine(n: int)
    | SkipBytes(n: int)
    | ReadBytes(n: int)
    | Format(f: string)
    | CanonicalFlag(on: bool)
    | OctalFlag(on: bool)
    | DecimalFlag(on: bool)
    | HexFlag(on: bool)
    | UppercaseFlag(on: bool)

  const Canonical := CanonicalFlag(true)
  const NoCanonical := CanonicalFlag(false)
  const Octal := OctalFlag(true)
  const NoOctal := OctalFlag(false)
  const Decimal := DecimalFlag(true)
  const NoDecimal := DecimalFlag(false)
  const Hex := HexFlag(true)
  const NoHex := HexFlag(false)
  const Uppercase := UppercaseFlag(true)
  const NoUppercase := UppercaseFlag(false)

  /** The fields of Flags, to say which one a setting writes. */
  datatype Field =
    | BytesPerLineField | SkipBytesField | ReadBytesField | FormatField
    | CanonicalField | OctalField | DecimalField | HexField | UppercaseField

  /** The value held in one field, whatever its Go type. */
  datatype FieldValue = IntValue(i: int) | StringValue(s: string) | BoolValue(b: bool)

  function Get(f: Flags, field: Field): FieldValue
  {
    match field
    case BytesPerLineField => IntValue(f.bytesPerLine)
    case SkipBytesField => IntValue(f.skipBytes)
    case ReadBytesField => IntValue(f.readBytes)
    case FormatField => StringValue(f.format)
    case CanonicalField => BoolValue(f.canonical)
    case OctalField => BoolValue(f.octal)
    case DecimalField => BoolValue(f.decimal)
    case HexField => BoolValue(f.hex)
    case UppercaseField => BoolValue(f.uppercase)
  }

  /** The field a setting's `Configure` writes. */
  function Target(s: Setting): Field
  {
    match s
    case BytesPerLine(_) => BytesPerLineField
    case SkipBytes(_) => SkipBytesField
    case ReadBytes(_) => ReadBytesField
    case Format(_) => FormatField
    case CanonicalFlag(_) => CanonicalField
    case OctalFlag(_) => OctalField
    case DecimalFlag(_) => DecimalField
    case HexFlag(_) => HexField
    case UppercaseFlag(_) => UppercaseField
  }

  /** The value a setting carries. */
  function Payload(s: Setting): FieldValue
  {
    match s
    case BytesPerLine(n) => IntValue(n)
    case SkipBytes(n) => IntValue(n)
    case ReadBytes(n) => IntValue(n)
    case Format(f) => StringValue(f)
    case CanonicalFlag(b) => BoolValue(b)
    case OctalFlag(b) => BoolValue(b)
    case DecimalFlag(b) => BoolValue(b)
    case HexFlag(b) => BoolValue(b)
    case UppercaseFlag(b) => BoolValue(b)
  }

  /** Two option records are equal exactly when every field agrees. */
  lemma FlagsExtensional(a: Flags, b: Flags)
    requires forall field :: Get(a, field) == Get(b, field)
    ensures a == b
  {
    assert Get(a, BytesPerLineField) == Get(b, BytesPerLineField);
    assert Get(a, SkipBytesField) == Get(b, SkipBytesField);
    assert Get(a, ReadBytesField) == Get(b, ReadBytesField);
    assert Get(a, FormatField) == Get(b, FormatField);
    assert Get(a, CanonicalField) == Get(b, CanonicalField);
    assert Get(a, OctalField) == Get(b, OctalField);
    assert Get(a, DecimalField) == Get(b, DecimalField);
    assert Get(a, HexField) == Get(b, HexField);
    assert Get(a, UppercaseField) == Get(b, UppercaseField);
  }

  /** `s.Configure(&flags)`: the setting's own field takes its value and
      every other field keeps what it had. */
  function Configure(s: Setting, f: Flags): (r: Flags)
    ensures r.bytesPerLine == if s.BytesPerLine? then s.n else f.bytesPerLine
    ensures r.skipBytes == if s.SkipBytes? then s.n else f.skipBytes
    ensures r.readBytes == if s.ReadBytes? then s.n else f.readBytes
    ensures r.format == if s.Format? then s.f else f.format
    ensures r.canonical == if s.CanonicalFlag? then s.on else f.canonical
    ensures r.octal == if s.OctalFlag? then s.on else f.octal
    ensures r.decimal == if s.DecimalFlag? then s.on else f.decimal
    ensures r.hex == if s.HexFlag? then s.on else f.hex
    ensures r.uppercase == if s.UppercaseFlag? then s.on else f.uppercase
  {
    match s
    case BytesPerLine(n) => f.(bytesPerLine := n)
    case SkipBytes(n) => f.(skipBytes := n)
    case ReadBytes(n) => f.(readBytes := n)
    case Format(v) => f.(format := v)
    case CanonicalFlag(b) => f.(canonical := b)
    case OctalFlag(b) => f.(octal := b)
    case DecimalFlag(b) => f.(decimal := b)
    case HexFlag(b) => f.(hex := b)
    case UppercaseFlag(b) => f.(uppercase := b)
  }

  /** The same, field by field: the field a setting targets reads back the
      setting's value, and every other field reads back what it held. */
  lemma ConfigureGet(s: Setting, f: Flags, field: Field)
    ensures Get(Configure(s, f), field) == if field == Target(s) then Payload(s) else Get(f, field)
  {
    match field
    case BytesPerLineField =>
    case SkipBytesField =>
    case ReadBytesField =>
    case FormatField =>
    case CanonicalField =>
    case OctalField =>
    case DecimalField =>
    case HexField =>
    case UppercaseField =>
  }

  /** The named flag constants switch their mode on, the `No` forms switch it off. */
  lemma FlagConstants(f: Flags)
    ensures Configure(Canonical, f).canonical && !Configure(NoCanonical, f).canonical
    ensures Configure(Octal, f).octal && !Configure(NoOctal, f).octal
    ensures Configure(Decimal, f).decimal && !Configure(NoDecimal, f).decimal
    ensures Configure(Hex, f).hex && !Configure(NoHex, f).hex
    ensures Configure(Uppercase, f).uppercase && !Configure(NoUppercase, f).uppercase
  {
  }

  /** Of two settings of the same field, the later one wins; in particular
      applying a setting twice is the same as applying it once. */
  lemma LastWriterWins(s1: Setting, s2: Setting, f: Flags)
    requires Target(s1) == Target(s2)
    ensures Configure(s2, Configure(s1, f)) == Configure(s2, f)
  {
    var a, b := Configure(s2, Configure(s1, f)), Configure(s2, f);
    forall field
      ensures Get(a, field) == Get(b, field)
    {
      ConfigureGet(s2, Configure(s1, f), field);
      ConfigureGet(s1, f, field);
      ConfigureGet(s2, f, field);
    }
    FlagsExtensional(a, b);
  }

  /** Settings of different fields can be applied in either order. */
  lemma SettingsCommute(s1: Setting, s2: Setting, f: Flags)
    requires Target(s1) != Target(s2)
    ensures Configure(s2, Configure(s1, f)) == Configure(s1, Configure(s2, f))
  {
    var a, b := Configure(s2, Configure(s1, f)), Configure(s1, Configure(s2, f));
    forall field
      ensures Get(a, field) == Get(b, field)
    {
      CommuteOnField(s1, s2, f, field);
    }
    FlagsExtensional(a, b);
  }

  lemma CommuteOnField(s1: Setting, s2: Setting, f: Flags, field: Field)
    requires Target(s1) != Target(s2)
    ensures Get(Configure(s2, Configure(s1, f)), field) == Get(Configure(s1, Configure(s2, f)), field)
  {
    ConfigureGet(s2, Configure(s1, f), field);
    ConfigureGet(s1, f, field);
    ConfigureGet(s1, Configure(s2, f), field);
    ConfigureGet(s2, f, field);
  }
}
