/** The digital-information catalog
    (phys_calc/src/base/digital_information.rs).  Multipliers are exact
    integers and count bits: `Bit` is the unit with multiplier 1. */
module BaseDigitalInformation {

  datatype DigitalInformationUnit =
    | Bit | Byte | Kilobit | Kibibit
    | Kilobyte | Kibibyte | Megabit | Mebibit
    | Megabyte | Mebibyte | Gigabit | Gibibit
    | Gigabyte | Gibibyte | Terabit | Tebibit
    | Terabyte | Tebibyte | Petabit | Pebibit
    | Petabyte | Pebibyte | Exabit | Exbibit
    | Exabyte | Exbibyte

  /** The multiplier as the source's integer expression. */
  function Bits(u: DigitalInformationUnit): (n: nat)
    ensures n >= 1
    ensures n == 1 <==> u == Bit
  {
    match u
    case Bit => 1
    case Byte => 8
    case Kilobit => 1000
    case Kibibit => 1024
    case Kilobyte => 8*1000
    case Kibibyte => 8*1024
    case Megabit => 1000*1000
    case Mebibit => 1024*1024
    case Megabyte => 8*1000*1000
    case Mebibyte => 8*1024*1024
    case Gigabit => 1000*1000*1000
    case Gibibit => 1024*1024*1024
    case Gigabyte => 8*1000*1000*1000
    case Gibibyte => 8*1024*1024*1024
    case Terabit => 1000*1000*1000*1000
    case Tebibit => 1024*1024*1024*1024
    case Terabyte => 8*1000*1000*1000*1000
    case Tebibyte => 8*1024*1024*1024*1024
    case Petabit => 1000*1000*1000*1000*1000
    case Pebibit => 1024*1024*1024*1024*1024
    case Petabyte => 8*1000*1000*1000*1000*1000
    case Pebibyte => 8*1024*1024*1024*1024*1024
    case Exabit => 1000*1000*1000*1000*1000*1000
    case Exbibit => 1024*1024*1024*1024*1024*1024
    case Exabyte => 8*1000*1000*1000*1000*1000*1000
    case Exbibyte => 8*1024*1024*1024*1024*1024*1024
  }

  function Multiplier(u: DigitalInformationUnit): (r: real)
    ensures r > 0.0
    ensures r == 1.0 <==> u == Bit
  {
    Bits(u) as real
  }

  function Symbol(u: DigitalInformationUnit): string
  {
    match u
    case Bit => "bit"
    case Byte => "B"
    case Kilobit => "Kb"
    case Kibibit => "Kib"
    case Kilobyte => "KB"
    case Kibibyte => "KiB"
    case Megabit => "Mb"
    case Mebibit => "Mib"
    case Megabyte => "MB"
    case Mebibyte => "MiB"
    case Gigabit => "Gb"
    case Gibibit => "Gib"
    case Gigabyte => "GB"
    case Gibibyte => "GiB"
    case Terabit => "Tb"
    case Tebibit => "Tib"
    case Terabyte => "TB"
    case Tebibyte => "TiB"
    case Petabit => "Pb"
    case Pebibit => "Pib"
    case Petabyte => "PB"
    case Pebibyte => "PiB"
    case Exabit => "Eb"
    case Exbibit => "Eib"
    case Exabyte => "EB"
    case Exbibyte => "EiB"
  }

  /** Distinct units display distinct symbols. */
  lemma SymbolsDistinct(u: DigitalInformationUnit, v: DigitalInformationUnit)
    requires u != v
    ensures Symbol(u) != Symbol(v)
  {
  }

  /** The units that count bytes rather than bits. */
  predicate IsByteUnit(u: DigitalInformationUnit)
  {
    u in {Byte, Kilobyte, Kibibyte, Megabyte, Mebibyte, Gigabyte, Gibibyte,
          Terabyte, Tebibyte, Petabyte, Pebibyte, Exabyte, Exbibyte}
  }

  /** The bit unit with the same prefix as a byte unit (`KB` to `Kb`, `KiB`
      to `Kib`, `B` to `bit`): every byte unit is eight of it. */
  function BitCounterpart(u: DigitalInformationUnit): (b: DigitalInformationUnit)
    requires IsByteUnit(u)
    ensures !IsByteUnit(b)
    ensures Bits(u) == 8 * Bits(b)
  {
    match u
    case Byte => Bit
    case Kilobyte => Kilobit
    case Kibibyte => Kibibit
    case Megabyte => Megabit
    case Mebibyte => Mebibit
    case Gigabyte => Gigabit
    case Gibibyte => Gibibit
    case Terabyte => Terabit
    case Tebibyte => Tebibit
    case Petabyte => Petabit
    case Pebibyte => Pebibit
    case Exabyte => Exabit
    case Exbibyte => Exbibit
  }

  /** Apart from the plain byte, a byte unit's symbol is its bit
      counterpart's with the final `b` written `B`. */
  lemma CounterpartSymbol(u: DigitalInformationUnit)
    requires IsByteUnit(u) && u != Byte
    ensures var s := Symbol(BitCounterpart(u));
      |s| > 1 && s[|s| - 1] == 'b' && Symbol(u) == s[..|s| - 1] + "B"
  {
  }

  /** Whether the source writes the multiplier with a `u64` suffix; the
      others are `i32` literal expressions. */
  predicate HasU64Suffix(u: DigitalInformationUnit)
  {
    u in {Gigabyte, Gibibyte, Terabit, Tebibit, Terabyte, Tebibyte, Petabit, Pebibit,
          Petabyte, Pebibyte, Exabit, Exbibit, Exabyte, Exbibyte}
  }

  /** No multiplier expression overflows the integer type it is evaluated in. */
  lemma MultipliersFitTheirIntegerTypes(u: DigitalInformationUnit)
    ensures HasU64Suffix(u) ==> Bits(u) < 0x1_0000_0000_0000_0000
    ensures !HasU64Suffix(u) ==> Bits(u) < 0x8000_0000
  {
  }
}
