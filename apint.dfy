/**
  Equal_Constants: two fixed-width two's-complement integer constants are
  compared by sign-extending the narrower one to the width of the wider one
  and then comparing bit patterns.  An LLVM `APInt` is modelled as its bit
  width and the unsigned value of its bit pattern.
*/
module ConstantCompare {

  function Pow2(n: nat): (r: nat)
    ensures r >= 1
  {
    if n == 0 then 1 else 2 * Pow2(n - 1)
  }

  lemma {:induction false} Pow2Monotone(a: nat, b: nat)
    requires a <= b
    ensures Pow2(a) <= Pow2(b)
  {
    if a < b {
      Pow2Monotone(a, b - 1);
    }
  }

  /** A bit pattern of `width` bits, read as the unsigned number `bits`. */
  datatype APInt = APInt(width: nat, bits: nat)

  /** LLVM integers have at least one bit, and the pattern fits in the width. */
  predicate Valid(v: APInt)
  {
    1 <= v.width && v.bits < Pow2(v.width)
  }

  /** The two's-complement value of the pattern: the top bit weighs -2^(width-1). */
  function SignedValue(v: APInt): (s: int)
    requires Valid(v)
    ensures -(Pow2(v.width - 1) as int) <= s < Pow2(v.width - 1)
  {
    if v.bits < Pow2(v.width - 1) then v.bits else v.bits - Pow2(v.width)
  }

  /** APInt::sext: widen to `w` bits, filling the new high bits with copies of
      the sign bit (which adds 2^w - 2^width when the sign bit is set).  The
      result is a valid `w`-bit pattern with the same signed value. */
  function Sext(v: APInt, w: nat): (r: APInt)
    requires Valid(v) && v.width <= w
    ensures Valid(r) && r.width == w
    ensures SignedValue(r) == SignedValue(v)
  {
    Pow2Monotone(v.width - 1, w - 1);
    if v.bits < Pow2(v.width - 1) then APInt(w, v.bits)
    else APInt(w, v.bits + (Pow2(w) - Pow2(v.width)))
  }

  /** At a fixed width the signed value determines the bit pattern. */
  lemma SignedValueInjective(a: APInt, b: APInt)
    requires Valid(a) && Valid(b) && a.width == b.width
    ensures SignedValue(a) == SignedValue(b) <==> a == b
  {
  }

  /** Equal_Constants: sign-extend the narrower operand, then compare.  The
      answer is exactly whether the two signed values are equal. */
  function EqualConstants(v1: APInt, v2: APInt): (eq: bool)
    requires Valid(v1) && Valid(v2)
    ensures eq <==> SignedValue(v1) == SignedValue(v2)
  {
    var (i1, i2) :=
      if v1.width > v2.width then (v1, Sext(v2, v1.width))
      else if v2.width > v1.width then (Sext(v1, v2.width), v2)
      else (v1, v2);
    SignedValueInjective(i1, i2);
    i1 == i2
  }

  /** The comparison does not depend on the order of its operands. */
  lemma EqualConstantsSymmetric(v1: APInt, v2: APInt)
    requires Valid(v1) && Valid(v2)
    ensures EqualConstants(v1, v2) == EqualConstants(v2, v1)
  {
  }

  /** With equal widths no extension happens: the comparison is bitwise. */
  lemma EqualConstantsSameWidth(v1: APInt, v2: APInt)
    requires Valid(v1) && Valid(v2) && v1.width == v2.width
    ensures EqualConstants(v1, v2) <==> v1.bits == v2.bits
  {
  }

  /** Sign extension keeps the low `width` bits of the pattern and sets each
      of the `w - width` new high bits to the sign bit: the new pattern is the
      old one plus 2^width times either zero or the all-ones (w - width)-bit
      number. */
  lemma SextBitLayout(v: APInt, w: nat)
    requires Valid(v) && v.width <= w
    ensures var fill := if v.bits < Pow2(v.width - 1) then 0 else Pow2(w - v.width) - 1;
            Sext(v, w).bits == v.bits + Pow2(v.width) * fill
  {
    var k := w - v.width;
    Pow2Split(v.width, k);
    var m := Pow2(v.width);
    assert m * (Pow2(k) - 1) == m * Pow2(k) - m;
  }

  lemma {:induction false} Pow2Split(a: nat, b: nat)
    ensures Pow2(a + b) == Pow2(a) * Pow2(b)
  {
    if b > 0 {
      Pow2Split(a, b - 1);
      assert Pow2(a + b) == 2 * Pow2(a + b - 1);
    }
  }
}
