/**
  The style flags `set_flags` writes: `OS/2.usWeightClass`, `OS/2.fsSelection`
  and `head.macStyle`. The two bit fields are unsigned 16-bit integers; the model
  holds each as its sixteen bits, least significant first, and `Value` and
  `FromValue` convert between the bits and the integer.
 */
module FontFlags {
  import opened Styles

  const WIDTH: nat := 16

  /** A 16-bit field: element `i` is bit `i`, the one worth `2^i`. */
  type Bits16 = s: seq<bool> | |s| == WIDTH witness seq(WIDTH, i => false)

  function Pow2(n: nat): (p: nat)
    ensures p >= 1
  {
    if n == 0 then 1 else 2 * Pow2(n - 1)
  }

  /** The weights of the bits the script touches. */
  lemma Pow2Values()
    ensures Pow2(0) == 1 && Pow2(1) == 2 && Pow2(5) == 0x20 && Pow2(6) == 0x40
  {
  }

  /** The unsigned integer whose binary digits, least significant first, are `b`. */
  function Value(b: seq<bool>): nat {
    if b == [] then 0 else (if b[0] then 1 else 0) + 2 * Value(b[1..])
  }

  /** The low `width` binary digits of `n`, least significant first. */
  function FromValue(n: nat, width: nat): (b: seq<bool>)
    ensures |b| == width
  {
    if width == 0 then [] else [n % 2 == 1] + FromValue(n / 2, width - 1)
  }

  /** Bits and integers below `2^width` are two views of one value. */
  lemma {:induction false} ValueFromValue(n: nat, width: nat)
    requires n < Pow2(width)
    ensures Value(FromValue(n, width)) == n
  {
    if width > 0 {
      var b := FromValue(n, width);
      assert b[1..] == FromValue(n / 2, width - 1);
      ValueFromValue(n / 2, width - 1);
    }
  }

  lemma {:induction false} FromValueValue(b: seq<bool>)
    ensures FromValue(Value(b), |b|) == b
  {
    if b != [] {
      assert Value(b) / 2 == Value(b[1..]);
      FromValueValue(b[1..]);
    }
  }

  // ---------------------------------------------------------------------------
  // Bit helpers

  /** `set_bit(value, bit)`: `value | (1 << bit)`. */
  function SetBit(value: Bits16, bit: nat): (r: Bits16)
    requires bit < WIDTH
    ensures r[bit]
    ensures forall i :: 0 <= i < WIDTH && i != bit ==> r[i] == value[i]
  {
    value[bit := true]
  }

  /** `clear_bit(value, bit)`: `value & ~(1 << bit)`. */
  function ClearBit(value: Bits16, bit: nat): (r: Bits16)
    requires bit < WIDTH
    ensures !r[bit]
    ensures forall i :: 0 <= i < WIDTH && i != bit ==> r[i] == value[i]
  {
    value[bit := false]
  }

  /** On the integer, setting a bit that is off adds its weight; setting one that is on changes nothing. */
  lemma {:induction false} SetBitValue(value: seq<bool>, bit: nat)
    requires bit < |value|
    ensures Value(value[bit := true]) == if value[bit] then Value(value) else Value(value) + Pow2(bit)
    decreases bit
  {
    var r := value[bit := true];
    if bit > 0 {
      assert r[1..] == value[1..][bit - 1 := true];
      SetBitValue(value[1..], bit - 1);
    } else {
      assert r[1..] == value[1..];
    }
  }

  /** On the integer, clearing a bit that is on subtracts its weight; clearing one that is off changes nothing. */
  lemma {:induction false} ClearBitValue(value: seq<bool>, bit: nat)
    requires bit < |value|
    ensures Value(value[bit := false]) == if value[bit] then Value(value) - Pow2(bit) else Value(value)
    decreases bit
  {
    var r := value[bit := false];
    if bit > 0 {
      assert r[1..] == value[1..][bit - 1 := false];
      ClearBitValue(value[1..], bit - 1);
    } else {
      assert r[1..] == value[1..];
    }
  }

  /** The field with every bit off. */
  const ZERO: Bits16 := seq(WIDTH, i => false)

  lemma ZeroValue()
    ensures Value(ZERO) == 0
    ensures ZERO == FromValue(0, WIDTH)
  {
    ValueIsZero(ZERO);
    FromValueValue(ZERO);
  }

  lemma {:induction false} ValueIsZero(b: seq<bool>)
    requires forall i :: 0 <= i < |b| ==> !b[i]
    ensures Value(b) == 0
  {
    if b != [] {
      ValueIsZero(b[1..]);
    }
  }

  /** Bitwise OR. */
  function Or(a: Bits16, b: Bits16): (r: Bits16)
    ensures forall i :: 0 <= i < WIDTH ==> r[i] == (a[i] || b[i])
  {
    seq(WIDTH, i requires 0 <= i < WIDTH => a[i] || b[i])
  }

  // Bit positions of the OpenType tables: fsSelection ITALIC is bit 0, BOLD bit 5
  // and REGULAR bit 6; macStyle Bold is bit 0 and Italic bit 1.
  const FS_ITALIC: nat := 0
  const FS_BOLD: nat := 5
  const FS_REGULAR: nat := 6
  const MAC_BOLD: nat := 0
  const MAC_ITALIC: nat := 1

  /** The bits `set_flags` sets in `fsSelection` for a style. */
  function SelectionBits(s: Style): (m: Bits16)
    ensures m[FS_REGULAR] <==> s == Regular
    ensures m[FS_BOLD] <==> IsBold(s)
    ensures m[FS_ITALIC] <==> IsItalic(s)
    ensures forall i :: 0 <= i < WIDTH && i !in {FS_ITALIC, FS_BOLD, FS_REGULAR} ==> !m[i]
  {
    seq(WIDTH, i requires 0 <= i < WIDTH =>
      (i == FS_REGULAR && s == Regular) || (i == FS_BOLD && IsBold(s)) || (i == FS_ITALIC && IsItalic(s)))
  }

  /** The value of `macStyle` for a style. */
  function MacStyleBits(s: Style): (m: Bits16)
    ensures m[MAC_BOLD] <==> IsBold(s)
    ensures m[MAC_ITALIC] <==> IsItalic(s)
    ensures forall i :: 0 <= i < WIDTH && i !in {MAC_BOLD, MAC_ITALIC} ==> !m[i]
  {
    seq(WIDTH, i requires 0 <= i < WIDTH => (i == MAC_BOLD && IsBold(s)) || (i == MAC_ITALIC && IsItalic(s)))
  }

  function WeightClass(s: Style): int {
    if IsBold(s) then 700 else 400
  }

  /** The three fields `set_flags` writes. */
  datatype Flags = Flags(usWeightClass: int, fsSelection: Bits16, macStyle: Bits16)

  /**
    The fields after `set_flags` as written: the clearing loop keeps no result,
    so every earlier `fsSelection` bit survives and the style's bits are ORed in;
    `macStyle` and the weight class are set from the style alone.
   */
  function FlagsAfterSetFlags(f: Flags, s: Style): Flags {
    Flags(WeightClass(s), Or(f.fsSelection, SelectionBits(s)), MacStyleBits(s))
  }

  /** `fsSelection` with bits 0 to 6 cleared. */
  function ClearLowSeven(v: Bits16): (r: Bits16)
    ensures forall i :: 0 <= i < WIDTH ==> r[i] == (i >= 7 && v[i])
  {
    seq(WIDTH, i requires 0 <= i < WIDTH => i >= 7 && v[i])
  }

  /** The fields after `set_flags` as its comment and its clearing loop intend: bits 0-6 come from the style alone. */
  function IntendedFlags(f: Flags, s: Style): Flags {
    Flags(WeightClass(s), Or(ClearLowSeven(f.fsSelection), SelectionBits(s)), MacStyleBits(s))
  }

  // ---------------------------------------------------------------------------
  // The integers of the OpenType tables

  /** The masks `set_flags` ORs into `fsSelection`: REGULAR 0x40, BOLD 0x20, ITALIC 0x01. */
  function SelectionMask(s: Style): nat {
    match s
    case Regular => 0x40
    case Bold => 0x20
    case Italic => 0x01
    case BoldItalic => 0x21
  }

  /** The bits of `SelectionBits` are those of the masks the script ORs in. */
  lemma SelectionValue(s: Style)
    ensures Value(SelectionBits(s)) == SelectionMask(s)
  {
    ZeroValue();
    Pow2Values();
    var m := SelectionBits(s);
    match s
    case Regular =>
      SetBitValue(ZERO, 6);
      SameBits(m, ZERO[6 := true]);
    case Bold =>
      SetBitValue(ZERO, 5);
      SameBits(m, ZERO[5 := true]);
    case Italic =>
      SetBitValue(ZERO, 0);
      SameBits(m, ZERO[0 := true]);
    case BoldItalic =>
      SetBitValue(ZERO, 5);
      SetBitValue(ZERO[5 := true], 0);
      SameBits(m, ZERO[5 := true][0 := true]);
  }

  /** Two fields with the same bits are the same field. */
  lemma SameBits(a: Bits16, b: Bits16)
    requires forall i :: 0 <= i < WIDTH ==> a[i] == b[i]
    ensures a == b
  {
  }

  /** `macStyle` is 0, 1, 2 or 3 for Regular, Bold, Italic and Bold Italic. */
  lemma MacStyleValue(s: Style)
    ensures Value(MacStyleBits(s)) == match s
      case Regular => 0
      case Bold => 1
      case Italic => 2
      case BoldItalic => 3
  {
    ZeroValue();
    Pow2Values();
    var m := MacStyleBits(s);
    match s
    case Regular =>
      SameBits(m, ZERO);
    case Bold =>
      SetBitValue(ZERO, 0);
      SameBits(m, ZERO[0 := true]);
    case Italic =>
      SetBitValue(ZERO, 1);
      SameBits(m, ZERO[1 := true]);
    case BoldItalic =>
      SetBitValue(ZERO, 0);
      SetBitValue(ZERO[0 := true], 1);
      SameBits(m, ZERO[0 := true][1 := true]);
  }

  // ---------------------------------------------------------------------------
  // The steps of `set_flags`

  /** The three conditional `set_bit` calls on `fsSelection` OR in exactly the style's bits. */
  lemma SelectionSteps(v: Bits16, s: Style)
    ensures (var a := if s == Regular then SetBit(v, FS_REGULAR) else v;
             var b := if IsBold(s) then SetBit(a, FS_BOLD) else a;
             if IsItalic(s) then SetBit(b, FS_ITALIC) else b) == Or(v, SelectionBits(s))
  {
  }

  /** Starting from 0, the two conditional `set_bit` calls on `macStyle` give the style's bits. */
  lemma MacStyleSteps(s: Style)
    ensures (var a := if IsBold(s) then SetBit(ZERO, MAC_BOLD) else ZERO;
             if IsItalic(s) then SetBit(a, MAC_ITALIC) else a) == MacStyleBits(s)
  {
  }

  // ---------------------------------------------------------------------------
  // Properties of `set_flags` as written

  /** Running `set_flags` twice with the same style changes nothing more. */
  lemma SetFlagsIdempotent(f: Flags, s: Style)
    ensures FlagsAfterSetFlags(FlagsAfterSetFlags(f, s), s) == FlagsAfterSetFlags(f, s)
  {
  }

  /**
    Bit by bit: REGULAR, BOLD and ITALIC are on afterwards when the style asks for
    them or when they were on before; every other bit keeps its value.
   */
  lemma SetFlagsSelectionBits(f: Flags, s: Style)
    ensures var v := FlagsAfterSetFlags(f, s).fsSelection;
      && (v[FS_REGULAR] <==> s == Regular || f.fsSelection[FS_REGULAR])
      && (v[FS_BOLD] <==> IsBold(s) || f.fsSelection[FS_BOLD])
      && (v[FS_ITALIC] <==> IsItalic(s) || f.fsSelection[FS_ITALIC])
      && (forall i :: 0 <= i < WIDTH && i !in {FS_ITALIC, FS_BOLD, FS_REGULAR} ==> v[i] == f.fsSelection[i])
  {
  }

  /** No `fsSelection` bit is ever cleared. */
  lemma SetFlagsNeverClears(f: Flags, s: Style)
    ensures forall i :: 0 <= i < WIDTH && f.fsSelection[i] ==> FlagsAfterSetFlags(f, s).fsSelection[i]
  {
  }

  /** Restyling accumulates: the second call keeps the first call's `fsSelection` bits. */
  lemma SetFlagsAccumulates(f: Flags, s1: Style, s2: Style)
    ensures FlagsAfterSetFlags(FlagsAfterSetFlags(f, s1), s2)
      == Flags(WeightClass(s2), Or(Or(f.fsSelection, SelectionBits(s1)), SelectionBits(s2)), MacStyleBits(s2))
  {
  }

  /**
    A font whose `fsSelection` is 0x20 (BOLD) and is set to Regular comes out with
    0x60, REGULAR and BOLD both on, although its weight class and `macStyle` say
    regular.
   */
  lemma SetFlagsKeepsStaleBold()
    ensures var before := ZERO[FS_BOLD := true];
      var after := FlagsAfterSetFlags(Flags(700, before, ZERO[MAC_BOLD := true]), Regular);
      && Value(before) == 0x20
      && after == Flags(400, before[FS_REGULAR := true], ZERO)
      && Value(after.fsSelection) == 0x60
      && after.fsSelection[FS_REGULAR] && after.fsSelection[FS_BOLD]
  {
    var before := ZERO[FS_BOLD := true];
    ZeroValue();
    Pow2Values();
    SetBitValue(ZERO, FS_BOLD);
    SetBitValue(before, FS_REGULAR);
    SameBits(Or(before, SelectionBits(Regular)), before[FS_REGULAR := true]);
    SameBits(MacStyleBits(Regular), ZERO);
  }

  // ---------------------------------------------------------------------------
  // Properties of the intended `set_flags`

  /** Bits 0 to 6 of `fsSelection` come from the style alone; the others are kept. */
  lemma IntendedSelectionBits(f: Flags, s: Style)
    ensures var v := IntendedFlags(f, s).fsSelection;
      && (forall i :: 0 <= i < 7 ==> v[i] == SelectionBits(s)[i])
      && (forall i :: 7 <= i < WIDTH ==> v[i] == f.fsSelection[i])
  {
  }

  /** Restyling forgets the earlier style: only the last style matters. */
  lemma IntendedLastStyleWins(f: Flags, s1: Style, s2: Style)
    ensures IntendedFlags(IntendedFlags(f, s1), s2) == IntendedFlags(f, s2)
  {
  }

  /** The restyling the as-written flags get wrong comes out 0x40, REGULAR alone. */
  lemma IntendedDropsStaleBold()
    ensures var after := IntendedFlags(Flags(700, ZERO[FS_BOLD := true], ZERO[MAC_BOLD := true]), Regular);
      && after == Flags(400, SelectionBits(Regular), ZERO)
      && Value(after.fsSelection) == 0x40
  {
    var before := ZERO[FS_BOLD := true];
    SameBits(Or(ClearLowSeven(before), SelectionBits(Regular)), SelectionBits(Regular));
    SameBits(MacStyleBits(Regular), ZERO);
    SelectionValue(Regular);
  }
}
