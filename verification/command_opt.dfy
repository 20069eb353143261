/** The option record of the minimal command (package `command`, unexported
    `flags`) and its setters: a field-for-field copy of package `opt`, proved
    here to behave exactly like it. */
module CommandOpt {
  import Opt

  datatype Flags = Flags(
    bytesPerLine: int,
    skipBytes: int,
    readBytes: int,
    format: string,
    canonical: bool,
    octal: bool,
    decimal: bool,
    hex: bool,
    uppercase: bool)

  datatype Setting =
    | BytesPerLine(n: int)
    | SkipBytes(n: int)
    | ReadBytes(n: int)
    | Format(f: string)
    | CanonicalFlag(on: bool)
    | OctalFlag(on: bool)
    | DecimalFlag(on: bool)
    | HexFlag(on: bool)
    | UppercaseFlag(on: bool)

  const Canonical := CanonicalFlag(true)
  const NoCanonical := CanonicalFlag(false)
  const Octal := OctalFlag(true)
  const NoOctal := OctalFlag(false)
  const Decimal := DecimalFlag(true)
  const NoDecimal := DecimalFlag(false)
  const Hex := HexFlag(true)
  const NoHex := HexFlag(false)
  const Uppercase := UppercaseFlag(true)
  const NoUppercase := UppercaseFlag(false)

  /** The same record, seen as package `opt`'s. */
  function ToOpt(f: Flags): Opt.Flags
  {
    Opt.Flags(f.bytesPerLine, f.skipBytes, f.readBytes, f.format,
              f.canonical, f.octal, f.decimal, f.hex, f.uppercase)
  }

  /** The same setting, seen as package `opt`'s. */
  function ToOptSetting(s: Setting): Opt.Setting
  {
    match s
    case BytesPerLine(n) => Opt.BytesPerLine(n)
    case SkipBytes(n) => Opt.SkipBytes(n)
    case ReadBytes(n) => Opt.ReadBytes(n)
    case Format(v) => Opt.Format(v)
    case CanonicalFlag(b) => Opt.CanonicalFlag(b)
    case OctalFlag(b) => Opt.OctalFlag(b)
    case DecimalFlag(b) => Opt.DecimalFlag(b)
    case HexFlag(b) => Opt.HexFlag(b)
    case UppercaseFlag(b) => Opt.UppercaseFlag(b)
  }

  /** `s.Configure(&flags)`: does to `flags` what package `opt`'s setter of
      the same name does to `Flags` -- its own field takes the value, every
      other field is left alone. */
  function Configure(s: Setting, f: Flags): (r: Flags)
    ensures ToOpt(r) == Opt.Configure(ToOptSetting(s), ToOpt(f))
  {
    match s
    case BytesPerLine(n) => f.(bytesPerLine := n)
    case SkipBytes(n) => f.(skipBytes := n)
    case ReadBytes(n) => f.(readBytes := n)
    case Format(v) => f.(format := v)
    case CanonicalFlag(b) => f.(canonical := b)
    case OctalFlag(b) => f.(octal := b)
    case DecimalFlag(b) => f.(decimal := b)
    case HexFlag(b) => f.(hex := b)
    case UppercaseFlag(b) => f.(uppercase := b)
  }

  /** The named flag constants switch their mode on, the `No` forms switch it off. */
  lemma FlagConstants(f: Flags)
    ensures Configure(Canonical, f).canonical && !Configure(NoCanonical, f).canonical
    ensures Configure(Octal, f).octal && !Configure(NoOctal, f).octal
    ensures Configure(Decimal, f).decimal && !Configure(NoDecimal, f).decimal
    ensures Configure(Hex, f).hex && !Configure(NoHex, f).hex
    ensures Configure(Uppercase, f).uppercase && !Configure(NoUppercase, f).uppercase
  {
  }

  lemma ToOptInjective(a: Flags, b: Flags)
    requires ToOpt(a) == ToOpt(b)
    ensures a == b
  {
  }

  /** Of two settings of the same field the later one wins, as in package `opt`. */
  lemma LastWriterWins(s1: Setting, s2: Setting, f: Flags)
    requires Opt.Target(ToOptSetting(s1)) == Opt.Target(ToOptSetting(s2))
    ensures Configure(s2, Configure(s1, f)) == Configure(s2, f)
  {
    Opt.LastWriterWins(ToOptSetting(s1), ToOptSetting(s2), ToOpt(f));
    ToOptInjective(Configure(s2, Configure(s1, f)), Configure(s2, f));
  }

  /** Settings of different fields commute, as in package `opt`. */
  lemma SettingsCommute(s1: Setting, s2: Setting, f: Flags)
    requires Opt.Target(ToOptSetting(s1)) != Opt.Target(ToOptSetting(s2))
    ensures Configure(s2, Configure(s1, f)) == Configure(s1, Configure(s2, f))
  {
    Opt.SettingsCommute(ToOptSetting(s1), ToOptSetting(s2), ToOpt(f));
    ToOptInjective(Configure(s2, Configure(s1, f)), Configure(s1, Configure(s2, f)));
  }
}
