/** Java's 32-bit `int` as seen from a 64-bit `long`. */
module JavaInt {

  const INT_MIN: int := -0x8000_0000
  const INT_MAX: int := 0x7fff_ffff
  const TWO_32: int := 0x1_0000_0000

  predicate InIntRange(v: int) {
    INT_MIN <= v <= INT_MAX
  }

  /** `new Long(v).intValue()`: keeps the low 32 bits, read as a signed two's-complement
      number. */
  function LongIntValue(v: int): (r: int)
    ensures InIntRange(r)
    ensures (v - r) % TWO_32 == 0
    ensures InIntRange(v) ==> r == v
  {
    (v - INT_MIN) % TWO_32 + INT_MIN
  }

  /** The two properties of the first two ensures of LongIntValue determine it. */
  lemma LongIntValueUnique(v: int, r: int)
    requires InIntRange(r) && (v - r) % TWO_32 == 0
    ensures r == LongIntValue(v)
  {
    var t := LongIntValue(v);
    var q := (v - r) / TWO_32;
    var p := (v - t) / TWO_32;
    assert v - r == q * TWO_32;
    assert v - t == p * TWO_32;
    assert r - t == (p - q) * TWO_32;
  }

  /** As written, a value just above INT_MAX does not become INT_MAX: the clamp is
      overwritten and the value wraps around to INT_MIN. */
  lemma ClampOverwritten()
    ensures LongIntValue(INT_MAX + 1) == INT_MIN
    ensures LongIntValue(INT_MAX + 1) != INT_MAX
  {
  }

  /** The conversion the warning describes: values above INT_MAX become INT_MAX, values in
      range are kept. */
  function ClampedIntValue(v: int): (r: int)
    ensures r <= INT_MAX
    ensures v > INT_MAX ==> r == INT_MAX
    ensures InIntRange(v) ==> r == v
    ensures v >= INT_MIN ==> InIntRange(r)
  {
    if v > INT_MAX then INT_MAX else LongIntValue(v)
  }
}
