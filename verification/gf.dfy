/** Arithmetic in GF(2^4) with reduction polynomial x^4 + x + 1, the field the
    Mini-AES column mixing works in. */
module GaloisField {

  /** A nibble: a 4-bit value. It is held in a byte so that the left shift of the
      multiplication loop can carry into bit 4 before it is reduced. */
  type Nibble = n: bv8 | n < 16

  /** x^4 + x + 1 as a bit pattern (0b10011). */
  const ReductionPolynomial: bv8 := 0x13

  /** Multiplication by x: shift left once, and reduce when the shift reached bit 4. */
  function XTime(a: Nibble): Nibble
  {
    var shifted := a << 1;
    if shifted & 0x10 != 0 then shifted ^ ReductionPolynomial else shifted
  }

  /** The field product by shift-and-add: add a when the low bit of b is set, then go on
      with a * x and the remaining bits of b. */
  function GfMul(a: Nibble, b: Nibble): Nibble
    decreases b
  {
    if b == 0 then 0 else (if b & 1 != 0 then a else 0) ^ GfMul(XTime(a), b >> 1)
  }

  /** The field product written out as a sum: the XOR of a * x^i over the bits i that are
      set in b. */
  function GfMulSum(a: Nibble, b: Nibble): Nibble
  {
    var a1 := XTime(a);
    var a2 := XTime(a1);
    var a3 := XTime(a2);
    (if b & 1 != 0 then a else 0) ^ (if b & 2 != 0 then a1 else 0) ^
    (if b & 4 != 0 then a2 else 0) ^ (if b & 8 != 0 then a3 else 0)
  }

  /** Shift-and-add stops after the four bits of b and gives the written-out sum. */
  lemma {:induction false} GfMulIsSum(a: Nibble, b: Nibble)
    ensures GfMul(a, b) == GfMulSum(a, b)
  {
    var a1 := XTime(a);
    var a2 := XTime(a1);
    var a3 := XTime(a2);
    assert GfMul(a3, b >> 3) == (if b & 8 != 0 then a3 else 0);
    assert GfMul(a2, b >> 2) == (if b & 4 != 0 then a2 else 0) ^ GfMul(a3, b >> 3);
    assert GfMul(a1, b >> 1) == (if b & 2 != 0 then a1 else 0) ^ GfMul(a2, b >> 2);
  }

  /** How many times the loop body runs on b: once per bit up to the highest set bit. */
  function LoopCount(b: Nibble): nat
    decreases b
  {
    if b == 0 then 0 else 1 + LoopCount(b >> 1)
  }

  lemma {:induction false} LoopCountAtMostFour(b: Nibble)
    ensures LoopCount(b) <= 4
  {
    assert LoopCount(b >> 3) <= 1;
    assert LoopCount(b >> 2) <= 1 + LoopCount(b >> 3);
    assert LoopCount(b >> 1) <= 1 + LoopCount(b >> 2);
  }

  /** One pass of the loop body, from (acc, a, b) to (acc', a', b'), keeps what is
      still to be added and uses up one count. */
  lemma LoopStep(acc: bv8, a: bv8, b: bv8, acc': bv8, a': bv8, b': bv8)
    requires acc < 16 && a < 16 && 0 < b < 16
    requires acc' == if b & 1 != 0 then acc ^ a else acc
    requires a' == if (a << 1) & 0x10 != 0 then (a << 1) ^ ReductionPolynomial else a << 1
    requires b' == b >> 1
    ensures acc' < 16 && a' < 16 && b' < 16
    ensures acc' ^ GfMul(a', b') == acc ^ GfMul(a, b)
    ensures 1 + LoopCount(b') == LoopCount(b)
  {
  }

  /** The shift-and-add loop. It runs at most four times, because b has four bits,
      and a stays below 16 after each reduction by 0x13. */
  method GfMultiply(a0: Nibble, b0: Nibble) returns (p: Nibble, ghost iterations: nat)
    ensures p == GfMul(a0, b0)
    ensures iterations == LoopCount(b0) && iterations <= 4
  {
    var acc: bv8 := 0;
    var a: bv8 := a0;
    var b: bv8 := b0;
    iterations := 0;
    while b != 0
      invariant a < 16 && b < 16 && acc < 16
      invariant iterations + LoopCount(b) == LoopCount(b0)
      invariant acc ^ GfMul(a, b) == GfMul(a0, b0)
      decreases b
    {
      ghost var acc0, a1, b1 := acc, a, b;
      if b & 1 != 0 {
        acc := acc ^ a;
      }
      a := a << 1;
      if a & 0x10 != 0 {
        a := a ^ ReductionPolynomial;
      }
      b := b >> 1;
      LoopStep(acc0, a1, b1, acc, a, b);
      iterations := iterations + 1;
    }
    p := acc & 0xF;
    LoopCountAtMostFour(b0);
  }

  lemma GfMulZero(a: Nibble)
    ensures GfMul(a, 0) == 0 && GfMul(0, a) == 0
  {
    GfMulIsSum(0, a);
  }

  lemma GfMulOne(a: Nibble)
    ensures GfMul(a, 1) == a && GfMul(1, a) == a
  {
    GfMulIsSum(1, a);
  }

  /** Proved by cases over the 16 values of a. */
  lemma GfMulCommutative(a: Nibble, b: Nibble)
    ensures GfMul(a, b) == GfMul(b, a)
  {
    GfMulIsSum(a, b);
    GfMulIsSum(b, a);
    if a == 0 {} else if a == 1 {} else if a == 2 {} else if a == 3 {}
    else if a == 4 {} else if a == 5 {} else if a == 6 {} else if a == 7 {}
    else if a == 8 {} else if a == 9 {} else if a == 10 {} else if a == 11 {}
    else if a == 12 {} else if a == 13 {} else if a == 14 {} else {}
  }

  /** The written-out product distributes over XOR; the solver settles it by the two low
      bits of a and the bits of b and c. */
  lemma GfMulSumDistributes(a: Nibble, b: Nibble, c: Nibble)
    ensures GfMulSum(a, b ^ c) == GfMulSum(a, b) ^ GfMulSum(a, c)
  {
    if a & 3 == 0 {} else if a & 3 == 1 {} else if a & 3 == 2 {} else {}
  }

  /** Multiplication distributes over addition (XOR): a * (b + c) == a * b + a * c. */
  lemma GfMulDistributes(a: Nibble, b: Nibble, c: Nibble)
    ensures GfMul(a, b ^ c) == GfMul(a, b) ^ GfMul(a, c)
  {
    GfMulIsSum(a, b);
    GfMulIsSum(a, c);
    GfMulIsSum(a, b ^ c);
    GfMulSumDistributes(a, b, c);
  }
}
