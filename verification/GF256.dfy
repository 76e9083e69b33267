/**
 The byte arithmetic of the Reed-Solomon codec: addition is exclusive or, and
 multiplication is shift-and-xor modulo x^8 + x^4 + x^3 + x^2 + 1 (0x11d).
 The lemmas are the ring laws that the matrix proofs rest on.
 */
module GF256 {

  type Byte = bv8

  function Add(a: Byte, b: Byte): Byte {
    a ^ b
  }

  /** Multiplication by x, reduced modulo the field polynomial. */
  function Double(a: Byte): Byte {
    (a << 1) ^ (if a & 0x80 != 0 then 0x1d else 0)
  }

  function Mul(a: Byte, b: Byte): Byte
    decreases a
  {
    if a == 0 then 0 else Add(if a & 1 != 0 then b else 0, Mul(a >> 1, Double(b)))
  }

  lemma AddLaws(a: Byte, b: Byte, c: Byte)
    ensures Add(a, b) == Add(b, a)
    ensures Add(a, Add(b, c)) == Add(Add(a, b), c)
    ensures Add(0, a) == a && Add(a, 0) == a && Add(a, a) == 0
  {
    assert a ^ (b ^ c) == (a ^ b) ^ c;
  }

  /** Four summands may be regrouped crosswise. */
  lemma AddExchange(a: Byte, b: Byte, c: Byte, d: Byte)
    ensures Add(Add(a, b), Add(c, d)) == Add(Add(a, c), Add(b, d))
  {
    assert (a ^ b) ^ (c ^ d) == (a ^ c) ^ (b ^ d);
  }

  lemma DoubleXorBits(a: Byte, b: Byte)
    ensures ((a ^ b) << 1) ^ (if (a ^ b) & 0x80 != 0 then 0x1d else 0)
         == ((a << 1) ^ (if a & 0x80 != 0 then 0x1d else 0)) ^ ((b << 1) ^ (if b & 0x80 != 0 then 0x1d else 0))
  {
  }

  lemma DoubleBits(a: Byte)
    ensures Double(a) == (a << 1) ^ (if a & 0x80 != 0 then 0x1d else 0)
  {
  }

  lemma DoubleXor(a: Byte, b: Byte)
    ensures Double(a ^ b) == Double(a) ^ Double(b)
  {
    hide Double;
    calc {
      Double(a ^ b);
      { DoubleBits(a ^ b); }
      ((a ^ b) << 1) ^ (if (a ^ b) & 0x80 != 0 then 0x1d else 0);
      { DoubleXorBits(a, b); }
      ((a << 1) ^ (if a & 0x80 != 0 then 0x1d else 0)) ^ ((b << 1) ^ (if b & 0x80 != 0 then 0x1d else 0));
      { DoubleBits(a); DoubleBits(b); }
      Double(a) ^ Double(b);
    }
  }

  lemma AddIsXor(a: Byte, b: Byte)
    ensures Add(a, b) == a ^ b
  {
  }

  lemma DoubleAdd(a: Byte, b: Byte)
    ensures Double(Add(a, b)) == Add(Double(a), Double(b))
  {
    hide Add, Double;
    calc {
      Double(Add(a, b));
      { AddIsXor(a, b); }
      Double(a ^ b);
      { DoubleXor(a, b); }
      Double(a) ^ Double(b);
      { AddIsXor(Double(a), Double(b)); }
      Add(Double(a), Double(b));
    }
  }

  lemma {:induction false} MulZero(a: Byte)
    ensures Mul(0, a) == 0 && Mul(a, 0) == 0
    decreases a
  {
    if a != 0 {
      MulZero(a >> 1);
    }
  }

  lemma {:induction false} MulOne(a: Byte)
    ensures Mul(1, a) == a
  {
    assert Mul(1 >> 1, Double(a)) == 0;
  }

  lemma {:induction false} MulAddRight(a: Byte, b: Byte, c: Byte)
    ensures Mul(a, Add(b, c)) == Add(Mul(a, b), Mul(a, c))
    decreases a
  {
    hide Add, Double;
    if a == 0 {
      AddLaws(0, 0, 0);
    } else {
      AddLaws(0, 0, 0);
      DoubleAdd(b, c);
      MulAddRight(a >> 1, Double(b), Double(c));
      var odd := a & 1 != 0;
      AddExchange(if odd then b else 0, Mul(a >> 1, Double(b)), if odd then c else 0, Mul(a >> 1, Double(c)));
    }
  }

  /** The defining equation of Mul, also where the factor is zero. */
  lemma MulStep(a: Byte, b: Byte)
    ensures Mul(a, b) == Add(if a & 1 != 0 then b else 0, Mul(a >> 1, Double(b)))
  {
    if a == 0 {
      assert Mul(0, Double(b)) == 0;
    }
  }

  lemma ShiftAdd(a: Byte, b: Byte, c: Byte)
    ensures Add(a, b) >> 1 == Add(a >> 1, b >> 1)
    ensures (if Add(a, b) & 1 != 0 then c else 0) == Add(if a & 1 != 0 then c else 0, if b & 1 != 0 then c else 0)
  {
    assert (a ^ b) >> 1 == (a >> 1) ^ (b >> 1);
    assert ((a ^ b) & 1 != 0) == ((a & 1 != 0) != (b & 1 != 0));
  }

  lemma {:induction false} MulAddLeft(a: Byte, b: Byte, c: Byte)
    ensures Mul(Add(a, b), c) == Add(Mul(a, c), Mul(b, c))
    decreases a
  {
    hide Add, Double, Mul;
    if a == 0 {
      MulZero(c);
      AddLaws(Mul(b, c), 0, 0);
      AddLaws(b, 0, 0);
    } else {
      MulAddLeft(a >> 1, b >> 1, Double(c));
      ShiftAdd(a, b, c);
      MulStep(Add(a, b), c);
      MulStep(a, c);
      MulStep(b, c);
      AddExchange(if a & 1 != 0 then c else 0, if b & 1 != 0 then c else 0,
                  Mul(a >> 1, Double(c)), Mul(b >> 1, Double(c)));
    }
  }

  lemma {:induction false} MulDoubleRight(a: Byte, b: Byte)
    ensures Mul(a, Double(b)) == Double(Mul(a, b))
    decreases a
  {
    hide Add;
    if a != 0 {
      MulDoubleRight(a >> 1, Double(b));
      DoubleAdd(if a & 1 != 0 then b else 0, Mul(a >> 1, Double(b)));
    }
  }

  /** Repeated doubling. */
  function Power(n: nat, a: Byte): Byte {
    if n == 0 then a else Double(Power(n - 1, a))
  }

  lemma ReductionBits(c: Byte, c1: Byte, c2: Byte, c3: Byte, c4: Byte, c5: Byte, c6: Byte, c7: Byte, c8: Byte)
    requires c1 == (c << 1) ^ (if c & 0x80 != 0 then 0x1d else 0)
    requires c2 == (c1 << 1) ^ (if c1 & 0x80 != 0 then 0x1d else 0)
    requires c3 == (c2 << 1) ^ (if c2 & 0x80 != 0 then 0x1d else 0)
    requires c4 == (c3 << 1) ^ (if c3 & 0x80 != 0 then 0x1d else 0)
    requires c5 == (c4 << 1) ^ (if c4 & 0x80 != 0 then 0x1d else 0)
    requires c6 == (c5 << 1) ^ (if c5 & 0x80 != 0 then 0x1d else 0)
    requires c7 == (c6 << 1) ^ (if c6 & 0x80 != 0 then 0x1d else 0)
    requires c8 == (c7 << 1) ^ (if c7 & 0x80 != 0 then 0x1d else 0)
    ensures c8 == c ^ (c2 ^ (c3 ^ c4))
  {
  }

  lemma PowerBits(n: nat, c: Byte)
    requires n > 0
    ensures Power(n, c) == (Power(n - 1, c) << 1) ^ (if Power(n - 1, c) & 0x80 != 0 then 0x1d else 0)
    ensures Power(0, c) == c
  {
    hide Double;
    DoubleBits(Power(n - 1, c));
  }

  lemma {:induction false} ReductionXor(c: Byte)
    ensures Power(8, c) == c ^ (Power(2, c) ^ (Power(3, c) ^ Power(4, c)))
  {
    hide Power;
    PowerBits(1, c); PowerBits(2, c); PowerBits(3, c); PowerBits(4, c);
    PowerBits(5, c); PowerBits(6, c); PowerBits(7, c); PowerBits(8, c);
    ReductionBits(c, Power(1, c), Power(2, c), Power(3, c), Power(4, c),
                  Power(5, c), Power(6, c), Power(7, c), Power(8, c));
  }

  lemma AddChain(a: Byte, b: Byte, c: Byte, d: Byte)
    ensures Add(a, Add(b, Add(c, d))) == a ^ (b ^ (c ^ d))
  {
  }

  /** The field polynomial: x^8 == x^4 + x^3 + x^2 + 1. */
  lemma {:induction false} Reduction(c: Byte)
    ensures Power(8, c) == Add(c, Add(Power(2, c), Add(Power(3, c), Power(4, c))))
  {
    hide Power, Add;
    ReductionXor(c);
    AddChain(c, Power(2, c), Power(3, c), Power(4, c));
  }

  lemma PowerStep(n: nat, c: Byte)
    requires n > 0
    ensures Power(n, c) == Double(Power(n - 1, c)) && Power(0, c) == c
  {
  }

  /** Multiplying by 2^i is doubling i times. */
  lemma {:induction false} MulPower(i: nat, a: Byte, c: Byte)
    requires i < 8 && a == 1 << i
    ensures Mul(a, c) == Power(i, c)
  {
    hide Add, Double, Mul;
    if i == 0 {
      MulOne(c);
      PowerStep(1, c);
    } else {
      MulStep(a, c);
      AddLaws(Mul(a >> 1, Double(c)), 0, 0);
      MulPower(i - 1, a >> 1, Double(c));
      PowerDouble(i - 1, c);
      PowerStep(i, c);
    }
  }

  lemma {:induction false} PowerDouble(n: nat, c: Byte)
    ensures Power(n, Double(c)) == Double(Power(n, c))
  {
    hide Double;
    if n > 0 {
      PowerDouble(n - 1, c);
    }
  }

  /** Multiplying by the low part of the polynomial is doubling eight times. */
  lemma {:induction false} MulPolynomial(c: Byte)
    ensures Mul(0x1d, c) == Power(8, c)
  {
    hide Add, Double, Mul, Power;
    assert 0x1d == Add(1, Add(4, Add(8, 16))) by { AddUp(); }
    MulAddLeft(1, Add(4, Add(8, 16)), c);
    MulAddLeft(4, Add(8, 16), c);
    MulAddLeft(8, 16, c);
    MulPower(0, 1, c);
    MulPower(2, 4, c);
    MulPower(3, 8, c);
    MulPower(4, 16, c);
    PowerStep(1, c);
    Reduction(c);
  }

  lemma AddUp()
    ensures Add(1, Add(4, Add(8, 16))) == 0x1d
  {
  }

  lemma SplitHighBit(a: Byte)
    ensures a == Add(a & 0x7f, a & 0x80)
    ensures Double(a) == Add((a & 0x7f) << 1, if a & 0x80 != 0 then 0x1d else 0)
    ensures ((a & 0x7f) << 1) >> 1 == a & 0x7f && ((a & 0x7f) << 1) & 1 == 0
    ensures a & 0x80 == 0 || a & 0x80 == 0x80
  {
    assert a << 1 == (a & 0x7f) << 1;
  }

  /** Multiplication by x moves from a factor to the product. */
  lemma {:induction false} MulDoubleLeft(a: Byte, b: Byte)
    ensures Mul(Double(a), b) == Double(Mul(a, b))
  {
    hide Add, Double, Mul, Power;
    var low, high := a & 0x7f, a & 0x80;
    var tail := if high != 0 then 0x1d else 0;
    SplitHighBit(a);
    MulDoubleRight(a, b);
    MulAddLeft(low, high, Double(b));
    MulAddLeft(low << 1, tail, b);
    MulStep(low << 1, b);
    AddLaws(Mul(low, Double(b)), 0, 0);
    MulZero(b);
    MulZero(Double(b));
    MulPolynomial(b);
    MulPower(7, 0x80, Double(b));
    PowerDouble(7, b);
    PowerStep(8, b);
  }

  lemma {:induction false} MulAssociative(a: Byte, b: Byte, c: Byte)
    ensures Mul(Mul(a, b), c) == Mul(a, Mul(b, c))
    decreases a
  {
    hide Add, Double, Mul;
    if a == 0 {
      MulZero(b);
      MulZero(c);
      MulZero(Mul(b, c));
    } else {
      var head := if a & 1 != 0 then b else 0;
      MulStep(a, b);
      MulStep(a, Mul(b, c));
      MulAddLeft(head, Mul(a >> 1, Double(b)), c);
      MulAssociative(a >> 1, Double(b), c);
      MulDoubleLeft(b, c);
      MulZero(c);
    }
  }
}
