/** How the compressed branch target buffer encodes tags and targets.

    A block of variant v > 0 holds 2^v entries, each a short hash of the branch address and the
    distance to the target.  The main results: every distance that is put in a variant fits that
    variant's field, the fit is exactly what makes the encoding lossless, and all variants spend the
    same number of bits. */
module MicroCompression {
  import opened Bits

  /** Width of the tag hash and of the target field of one entry. */
  function SubtagBits(variant: nat): nat {
    match variant
    case 0 => 30
    case 1 => 28
    case 2 => 14
    case _ => 7
  }

  function FieldBits(variant: nat): nat {
    match variant
    case 0 => 64
    case 1 => 16
    case 2 => 8
    case _ => 4
  }

  // ----- Variants ---------------------------------------------------------------------------

  function FindAbsolute(a: nat, b: nat): nat {
    if a > b then a - b else b - a
  }

  /** The most compressed variant, among 0 .. top, for a branch over this distance. */
  function Variant(top: nat, offset: nat): nat {
    if top >= 3 && NumBits(offset) < 4 then 3
    else if top >= 2 && NumBits(offset) < 8 then 2
    else if top >= 1 && NumBits(offset) < 16 then 1
    else 0
  }

  method GetVariant(top: nat, offset: nat) returns (variant: nat)
    ensures variant == Variant(top, offset)
  {
    var bits, rest := 0, offset;
    while rest > 0
      invariant bits + NumBits(rest) == NumBits(offset)
    {
      bits := bits + 1;
      rest := rest / 2;
    }
    if top >= 3 && bits < 4 {
      return 3;
    }
    if top >= 2 && bits < 8 {
      return 2;
    }
    if top >= 1 && bits < 16 {
      return 1;
    }
    return 0;
  }

  method GetVariantSize(variant: nat) returns (size: nat)
    ensures size == Pow2(variant)
  {
    size := 1;
    var i := 0;
    while i < variant
      invariant 0 <= i <= variant && size == Pow2(i)
    {
      size := size * 2;
      i := i + 1;
    }
  }

  /** The variant is exactly the largest one allowed whose signed field holds the distance. */
  lemma VariantIsTightest(top: nat, offset: nat)
    requires top <= 3
    ensures var v := Variant(top, offset);
      && v <= top
      && (v > 0 ==> offset < Pow2(FieldBits(v) - 1))
      && (forall w :: v < w <= top ==> offset >= Pow2(FieldBits(w) - 1))
  {
    NumBitsBound(offset, 3);
    NumBitsBound(offset, 7);
    NumBitsBound(offset, 15);
  }

  // ----- Targets ----------------------------------------------------------------------------

  function Truncate(x: nat, width: nat): (field: nat)
    ensures field < Pow2(width)
  {
    x % Pow2(width)
  }

  /** The 64-bit value of a signed field of 1 to 64 bits. */
  function SignExtend(field: nat, width: nat): (x: nat)
    requires 0 < width <= 64 && field < Pow2(width)
    ensures x < WORD
  {
    PowMonotone(width, 64);
    Pow64();
    if field < Pow2(width - 1) then field else WORD - Pow2(width) + field
  }

  lemma {:induction false} PowMonotone(a: nat, b: nat)
    requires a <= b
    ensures Pow2(a) <= Pow2(b)
  {
    if a < b {
      PowMonotone(a, b - 1);
    }
  }

  /** The target read back from a field of the given width. */
  function Expand(trigger: nat, field: nat, width: nat): nat
    requires trigger < WORD && 0 < width <= 64 && field < Pow2(width)
  {
    Add64(trigger, SignExtend(field, width))
  }

  /** The distance from trigger to target, modulo 2^64, is a signed value of this width. */
  predicate Fits(trigger: nat, target: nat, width: nat)
    requires trigger < WORD && target < WORD && width > 0
  {
    Sub64(target, trigger) < Pow2(width - 1) || Sub64(target, trigger) + Pow2(width - 1) >= WORD
  }

  /** Truncating the distance to a field loses nothing exactly when it fits. */
  lemma LosslessIffFits(trigger: nat, target: nat, width: nat)
    requires trigger < WORD && target < WORD && 0 < width < 64
    ensures Expand(trigger, Truncate(Sub64(target, trigger), width), width) == target <==> Fits(trigger, target, width)
  {
    var d := Sub64(target, trigger);
    var p := Pow2(width);
    Pow64();
    PowMonotone(width, 63);
    PowSum(width, 64 - width);
    ModSplit(d, p, Pow2(64 - width));
  }

  /** The remainder of a value near either end of the range 0 .. p * q. */
  lemma ModSplit(d: nat, p: nat, q: nat)
    requires p > 0 && d < p * q && p <= p * q
    ensures d < p ==> d % p == d
    ensures d + p >= p * q ==> d % p == d + p - p * q
  {
    if d < p {
      QuotientIs(d, p, 0);
    }
    if d + p >= p * q {
      var k := d + p - p * q;
      assert d == p * (q - 1) + k;
      QuotientIs(d, p, q - 1);
    }
  }

  /** Compression of a branch to the variant of its distance is lossless. */
  lemma CompressionLossless(trigger: nat, target: nat, top: nat)
    requires trigger < WORD && target < WORD && top <= 3
    requires Variant(top, FindAbsolute(trigger, target)) > 0
    ensures var width := FieldBits(Variant(top, FindAbsolute(trigger, target)));
      Expand(trigger, Truncate(Sub64(target, trigger), width), width) == target
  {
    var offset := FindAbsolute(trigger, target);
    VariantIsTightest(top, offset);
    LosslessIffFits(trigger, target, FieldBits(Variant(top, offset)));
  }

  /** All compressed variants spend the same 88 bits on their entries. */
  lemma SameBudget(variant: nat)
    requires 1 <= variant <= 3
    ensures Pow2(variant) * (SubtagBits(variant) + FieldBits(variant)) == 88
  {
    assert Pow2(1) == 2 && Pow2(2) == 4 && Pow2(3) == 8;
  }

  // ----- Tags -------------------------------------------------------------------------------

  /** Xor of n groups of seven bits, the lowest first, onto tag. */
  function Fold7(tag: nat, address: nat, n: nat): nat
    decreases n
  {
    if n == 0 then tag else Fold7(Xor(tag, address % 128), address / 128, n - 1)
  }

  function Subtag(address: nat, variant: nat): nat {
    var instruction := address / 4;
    match variant
    case 0 => instruction % 0x4000_0000
    case 1 => instruction % 0x1000_0000
    case 2 => Xor((instruction / 16384) % 16384, instruction % 16384)
    case _ => Fold7(0, instruction, 4)
  }

  method GetSubtag(address: nat, variant: nat) returns (tag: nat)
    requires variant <= 3
    ensures tag == Subtag(address, variant)
  {
    var rest: nat := address / 4;
    if variant == 0 {
      return rest % 0x4000_0000;
    }
    if variant == 1 {
      return rest % 0x1000_0000;
    }
    if variant == 2 {
      var lower := rest % 16384;
      rest := rest / 16384;
      return Xor(rest % 16384, lower);
    }
    tag := 0;
    var i := 0;
    while i < 4
      invariant 0 <= i <= 4 && Fold7(tag, rest, 4 - i) == Fold7(0, address / 4, 4)
    {
      tag := Xor(tag, rest % 128);
      rest := rest / 128;
      i := i + 1;
    }
  }

  lemma {:induction false} FoldBound(tag: nat, address: nat, n: nat)
    requires tag < 128
    ensures Fold7(tag, address, n) < 128
    decreases n
  {
    if n > 0 {
      assert Pow2(7) == 128;
      XorBound(tag, address % 128, 7);
      FoldBound(Xor(tag, address % 128), address / 128, n - 1);
    }
  }

  /** Every tag hash fits the width accounted for it. */
  lemma SubtagFits(address: nat, variant: nat)
    requires variant <= 3
    ensures Subtag(address, variant) < Pow2(SubtagBits(variant))
  {
    Widths();
    XorBound((address / 4 / 16384) % 16384, address / 4 % 16384, 14);
    FoldBound(0, address / 4, 4);
  }

  /** Bit k of an address without its low two bits. */
  function InstrBit(address: nat, k: nat): nat {
    Bit(address / 4, k)
  }

  /** Which bits of the address make bit k of a tag. */
  lemma SubtagBit(address: nat, variant: nat, k: nat)
    requires variant <= 3
    ensures Bit(Subtag(address, variant), k) ==
      match variant
      case 0 => if k < 30 then InstrBit(address, k) else 0
      case 1 => if k < 28 then InstrBit(address, k) else 0
      case 2 => if k < 14 then (InstrBit(address, k) + InstrBit(address, k + 14)) % 2 else 0
      case _ =>
        if k >= 7 then 0 else
        (InstrBit(address, k) + InstrBit(address, k + 7) + InstrBit(address, k + 14) + InstrBit(address, k + 21)) % 2
  {
    var x := address / 4;
    match variant
    case 0 =>
      Widths();
      LowBit(x, 30, x % 0x4000_0000, k);
    case 1 =>
      Widths();
      LowBit(x, 28, x % 0x1000_0000, k);
    case 2 => HalvesBit(x, k);
    case _ => FoldedBit(x, k);
  }

  lemma Widths()
    ensures Pow2(7) == 128 && Pow2(14) == 16384 && Pow2(28) == 0x1000_0000 && Pow2(30) == 0x4000_0000
  {
    assert Pow2(7) == 128;
    PowSum(7, 7);
    PowSum(14, 14);
    PowSum(28, 2);
    assert Pow2(2) == 4;
  }

  /** The two halves of 28 bits, folded. */
  lemma HalvesBit(x: nat, k: nat)
    ensures Bit(Xor((x / 16384) % 16384, x % 16384), k) == if k < 14 then (Bit(x, k) + Bit(x, k + 14)) % 2 else 0
  {
    Widths();
    var high := x / 16384;
    XorBit(high % 16384, x % 16384, k);
    LowBit(high, 14, high % 16384, k);
    LowBit(x, 14, x % 16384, k);
    HighBit(x, 14, high, k);
  }

  /** How many of the bits k, k + 7, k + 14, .. are set, in n groups of seven. */
  function Groups(x: nat, n: nat, k: nat): nat {
    if n == 0 then 0 else Bit(x, k) + Groups(x / 128, n - 1, k)
  }

  lemma {:induction false} FoldBit(tag: nat, x: nat, n: nat, k: nat)
    requires k < 7
    ensures Bit(Fold7(tag, x, n), k) == (Bit(tag, k) + Groups(x, n, k)) % 2
    decreases n
  {
    if n > 0 {
      var m, group := n - 1, x % 128;
      FoldBit(Xor(tag, group), x / 128, m, k);
      Widths();
      XorBit(tag, group, k);
      LowBit(x, 7, group, k);
      Parity(Bit(tag, k) + Bit(x, k), Groups(x / 128, m, k));
    }
  }

  lemma Parity(t: nat, b: nat)
    ensures (t % 2 + b) % 2 == (t + b) % 2
  {}

  lemma NextGroup(x: nat, k: nat)
    ensures Bit(x / 128, k) == Bit(x, k + 7)
  {
    Widths();
    HighBit(x, 7, x / 128, k);
  }

  lemma FourGroups(x: nat, k: nat)
    ensures Groups(x, 4, k) == Bit(x, k) + Bit(x, k + 7) + Bit(x, k + 14) + Bit(x, k + 21)
  {
    var x1 := x / 128;
    var x2 := x1 / 128;
    NextGroup(x, k);
    NextGroup(x1, k);
    NextGroup(x, k + 7);
    NextGroup(x2, k);
    NextGroup(x1, k + 7);
    NextGroup(x, k + 14);
    assert Groups(x2 / 128, 1, k) == Bit(x2 / 128, k);
    assert Groups(x2, 2, k) == Bit(x2, k) + Groups(x2 / 128, 1, k);
    assert Groups(x1, 3, k) == Bit(x1, k) + Groups(x2, 2, k);
  }

  lemma FoldedBit(x: nat, k: nat)
    ensures Bit(Fold7(0, x, 4), k) ==
      if k >= 7 then 0 else (Bit(x, k) + Bit(x, k + 7) + Bit(x, k + 14) + Bit(x, k + 21)) % 2
  {
    if k < 7 {
      FoldBit(0, x, 4, k);
      BitOfZero(k);
      FourGroups(x, k);
    } else {
      FoldBound(0, x, 4);
      SmallTag(Fold7(0, x, 4), k);
    }
  }

  lemma SmallTag(tag: nat, k: nat)
    requires tag < 128 && k >= 7
    ensures Bit(tag, k) == 0
  {
    Widths();
    LowBit(tag, 7, tag, k);
  }

  // ----- Skewed placement -------------------------------------------------------------------

  function RotateLeft(a: nat, bits: nat): (r: nat)
    requires bits > 0
    ensures r < Pow2(bits)
  {
    (2 * a + a / Pow2(bits - 1)) % Pow2(bits)
  }

  function RotateBy(a: nat, bits: nat, n: nat): nat
    requires bits > 0
  {
    if n == 0 then a else RotateLeft(RotateBy(a, bits, n - 1), bits)
  }

  /** The set that way `way` of a skewed table uses for an instruction. */
  function Skew(instruction: nat, bits: nat, sets: nat, way: nat): (i: nat)
    requires bits > 0 && sets > 0
    ensures i < sets
  {
    var low, high := instruction % Pow2(bits), (instruction / Pow2(bits)) % Pow2(bits);
    Xor(RotateBy(low, bits, way), high) % sets
  }

  method GetSkewedSet(instruction: nat, bits: nat, sets: nat, loc: array<nat>)
    requires bits > 0 && sets > 0
    modifies loc
    ensures forall w :: 0 <= w < loc.Length ==> loc[w] == Skew(instruction, bits, sets, w)
  {
    var a: nat := instruction % Pow2(bits);
    var b: nat := (instruction / Pow2(bits)) % Pow2(bits);
    var i := 0;
    while i < loc.Length
      invariant 0 <= i <= loc.Length && a == RotateBy(instruction % Pow2(bits), bits, i)
      invariant forall w :: 0 <= w < i ==> loc[w] == Skew(instruction, bits, sets, w)
    {
      loc[i] := Xor(a, b) % sets;
      a := RotateLeft(a, bits);
      i := i + 1;
    }
  }

  lemma RotateValue(a: nat, half: nat)
    requires a < 2 * half
    ensures (2 * a + a / half) % (2 * half) == if a < half then 2 * a else 2 * a + 1 - 2 * half
  {
    QuotientIs(a, half, if a < half then 0 else 1);
    QuotientIs(2 * a + a / half, 2 * half, if a < half then 0 else 1);
  }

  lemma RotateIs(a: nat, bits: nat)
    requires bits > 0 && a < Pow2(bits)
    ensures RotateLeft(a, bits) == if a < Pow2(bits - 1) then 2 * a else 2 * a + 1 - Pow2(bits)
  {
    RotateValue(a, Pow2(bits - 1));
  }

  /** Rotations of different words are different. */
  lemma {:induction false} RotateDistinct(a: nat, b: nat, bits: nat, n: nat)
    requires bits > 0 && a < Pow2(bits) && b < Pow2(bits) && RotateBy(a, bits, n) == RotateBy(b, bits, n)
    ensures a == b
  {
    if n > 0 {
      var a', b' := RotateBy(a, bits, n - 1), RotateBy(b, bits, n - 1);
      RotateIs(a', bits);
      RotateIs(b', bits);
      RotateDistinct(a, b, bits, n - 1);
    }
  }

  /** Branches that differ only in the low index bits share no block in any way. */
  lemma SkewSeparates(x: nat, y: nat, bits: nat, way: nat)
    requires bits > 0 && x / Pow2(bits) == y / Pow2(bits) && x != y
    ensures Skew(x, bits, Pow2(bits), way) != Skew(y, bits, Pow2(bits), way)
  {
    var p := Pow2(bits);
    assert x == p * (x / p) + x % p && y == p * (y / p) + y % p;
    var a, b, c := RotateBy(x % p, bits, way), RotateBy(y % p, bits, way), (x / p) % p;
    if Skew(x, bits, p, way) == Skew(y, bits, p, way) {
      SmallMod(Xor(a, c), Xor(b, c), a, b, c, bits);
      XorCancels(a, b, c);
      RotateDistinct(x % p, y % p, bits, way);
    }
  }

  lemma SmallMod(u: nat, v: nat, a: nat, b: nat, c: nat, bits: nat)
    requires a < Pow2(bits) && b < Pow2(bits) && c < Pow2(bits) && u == Xor(a, c) && v == Xor(b, c)
    ensures u % Pow2(bits) == u && v % Pow2(bits) == v
  {
    XorBound(a, c, bits);
    XorBound(b, c, bits);
    QuotientIs(u, Pow2(bits), 0);
    QuotientIs(v, Pow2(bits), 0);
  }

  /** Where bit k stood before n rotations. */
  function Before(k: nat, n: nat, bits: nat): (j: nat)
    requires k < bits
    ensures j < bits
    ensures n <= k ==> j == k - n
    ensures k < n <= k + bits ==> j == k + bits - n
    decreases n
  {
    if n == 0 then k else
    Before(if k == 0 then bits - 1 else k - 1, n - 1, bits)
  }

  lemma RotatedBit(a: nat, bits: nat, k: nat)
    requires k < bits && a < Pow2(bits)
    ensures Bit(RotateLeft(a, bits), k) == Bit(a, if k == 0 then bits - 1 else k - 1)
  {
    var top := a / Pow2(bits - 1);
    QuotientIs(a, Pow2(bits - 1), if a < Pow2(bits - 1) then 0 else 1);
    BitMeans(a, bits - 1);
    var x := 2 * a + top;
    LowBit(x, bits, RotateLeft(a, bits), k);
    assert x / 2 == a && x % 2 == top;
  }

  lemma {:induction false} RotateByBit(a: nat, bits: nat, n: nat, k: nat)
    requires k < bits && a < Pow2(bits)
    ensures RotateBy(a, bits, n) < Pow2(bits) && Bit(RotateBy(a, bits, n), k) == Bit(a, Before(k, n, bits))
  {
    if n > 0 {
      var m, j := n - 1, if k == 0 then bits - 1 else k - 1;
      RotateByBit(a, bits, m, j);
      RotatedBit(RotateBy(a, bits, m), bits, k);
    }
  }

  /** Bit k of the set index of a way: that bit of the upper index bits, and of the lower ones rotated by the way. */
  lemma SkewBit(instruction: nat, bits: nat, way: nat, k: nat)
    requires k < bits
    ensures Bit(Skew(instruction, bits, Pow2(bits), way), k) ==
      (Bit(instruction, Before(k, way, bits)) + Bit(instruction, bits + k)) % 2
  {
    var low, rotated, upper, high := SkewParts(instruction, bits, way);
    RotateByBit(low, bits, way, k);
    XorBit(rotated, high, k);
    var j := Before(k, way, bits);
    LowBit(instruction, bits, low, j);
    HighPart(instruction, bits, upper, high, k);
  }

  lemma SkewParts(instruction: nat, bits: nat, way: nat) returns (low: nat, rotated: nat, upper: nat, high: nat)
    requires bits > 0
    ensures low == instruction % Pow2(bits) < Pow2(bits) && rotated == RotateBy(low, bits, way)
    ensures upper == instruction / Pow2(bits) && high == upper % Pow2(bits)
    ensures Skew(instruction, bits, Pow2(bits), way) == Xor(rotated, high)
  {
    low, upper, high := Parts(instruction, Pow2(bits));
    rotated := RotateBy(low, bits, way);
    RotateByBit(low, bits, way, 0);
    SmallXor(rotated, high, bits);
  }

  lemma Parts(x: nat, p: nat) returns (low: nat, upper: nat, high: nat)
    requires p > 0
    ensures low == x % p < p && upper == x / p && high == upper % p < p
  {
    low, upper := x % p, x / p;
    high := upper % p;
  }

  lemma SmallXor(a: nat, b: nat, bits: nat)
    requires a < Pow2(bits) && b < Pow2(bits)
    ensures Xor(a, b) % Pow2(bits) == Xor(a, b)
  {
    XorBound(a, b, bits);
    QuotientIs(Xor(a, b), Pow2(bits), 0);
  }

  lemma HighPart(x: nat, bits: nat, upper: nat, high: nat, k: nat)
    requires k < bits && upper == x / Pow2(bits) && high == upper % Pow2(bits)
    ensures Bit(high, k) == Bit(x, bits + k)
  {
    LowBit(upper, bits, high, k);
    HighBit(x, bits, upper, k);
  }
}
