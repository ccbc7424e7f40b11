/**
 Arithmetic of AES bytes: addition and multiplication by constants in GF(2^8) with the polynomial
 x^8 + x^4 + x^3 + x + 1 (section 4 of FIPS 197).
 */
module GaloisField {
  datatype Byte = Byte(bits: bv8)

  const ZERO := Byte(0)

  function Xor8(x: bv8, y: bv8): bv8 { x ^ y }

  function Xor(x: Byte, y: Byte): Byte { Byte(Xor8(x.bits, y.bits)) }

  function Sum4(a: Byte, b: Byte, c: Byte, d: Byte): Byte { Xor(Xor(a, b), Xor(c, d)) }

  /** xtime: a shift left, folding the bit shifted out back in as 0x1b. */
  function Xtime(x: bv8): bv8 {
    var h := x >> 7;
    (x << 1) ^ h ^ (h << 1) ^ (h << 3) ^ (h << 4)
  }

  function Times3(x: bv8): bv8 { Xor8(Xtime(x), x) }
  function Times9(x: bv8): bv8 { Xor8(Xtime(Xtime(Xtime(x))), x) }
  function TimesB(x: bv8): bv8 { Xor8(Xtime(Xor8(Xtime(Xtime(x)), x)), x) }
  function TimesD(x: bv8): bv8 { Xor8(Xtime(Xtime(Times3(x))), x) }
  function TimesE(x: bv8): bv8 { Xtime(Xor8(Xtime(Times3(x)), x)) }
  function Sum8(a: bv8, b: bv8, c: bv8, d: bv8): bv8 { Xor8(Xor8(a, b), Xor8(c, d)) }

  function Mul2(x: Byte): Byte { Byte(Xtime(x.bits)) }

  function Mul3(x: Byte): Byte { Xor(Mul2(x), x) }

  function Mul9(x: Byte): Byte { Xor(Mul2(Mul2(Mul2(x))), x) }

  function Mul5(x: Byte): Byte { Xor(Mul2(Mul2(x)), x) }

  function MulB(x: Byte): Byte { Xor(Mul2(Mul5(x)), x) }

  function MulD(x: Byte): Byte { Xor(Mul2(Mul2(Mul3(x))), x) }

  function MulE(x: Byte): Byte { Mul2(Xor(Mul2(Mul3(x)), x)) }

  /** Section 4.2.1 of FIPS 197 states xtime with a conditional. */
  lemma Mul2IsXtime(x: Byte)
    ensures Mul2(x).bits == if x.bits & 0x80 == 0 then x.bits << 1 else (x.bits << 1) ^ 0x1b
  {
  }

  lemma XorComm(a: Byte, b: Byte)
    ensures Xor(a, b) == Xor(b, a)
  {
  }

  lemma XorAssoc(a: Byte, b: Byte, c: Byte)
    ensures Xor(Xor(a, b), c) == Xor(a, Xor(b, c))
  {
  }

  lemma XorZero(a: Byte)
    ensures Xor(a, ZERO) == a && Xor(a, a) == ZERO
  {
  }

  lemma XorSwap(a: Byte, b: Byte, c: Byte, d: Byte)
    ensures Xor(Xor(a, b), Xor(c, d)) == Xor(Xor(a, c), Xor(b, d))
  {
    XorAssoc(a, b, Xor(c, d));
    XorAssoc(b, c, d);
    XorComm(b, c);
    XorAssoc(c, b, d);
    XorAssoc(a, c, Xor(b, d));
  }

  /** Adding a value twice cancels it. */
  lemma XorCancel(a: Byte, b: Byte)
    ensures Xor(Xor(a, b), b) == a
  {
    XorAssoc(a, b, b);
    XorZero(a);
    XorZero(b);
  }

  lemma SumRotate(a: Byte, b: Byte, c: Byte, d: Byte)
    ensures Sum4(a, b, c, d) == Sum4(b, c, d, a)
  {
    XorAssoc(a, b, Xor(c, d));
    XorComm(a, Xor(b, Xor(c, d)));
    XorAssoc(b, c, d);
    XorAssoc(Xor(b, c), d, a);
  }

  /** A sum of four sums, by rows or by columns. */
  lemma SumTranspose(a: (Byte, Byte, Byte, Byte), b: (Byte, Byte, Byte, Byte), c: (Byte, Byte, Byte, Byte),
      d: (Byte, Byte, Byte, Byte))
    ensures Sum4(Sum4(a.0, a.1, a.2, a.3), Sum4(b.0, b.1, b.2, b.3), Sum4(c.0, c.1, c.2, c.3), Sum4(d.0, d.1, d.2, d.3))
         == Sum4(Sum4(a.0, b.0, c.0, d.0), Sum4(a.1, b.1, c.1, d.1), Sum4(a.2, b.2, c.2, d.2), Sum4(a.3, b.3, c.3, d.3))
  {
    SumXor(a.0, a.1, a.2, a.3, b.0, b.1, b.2, b.3);
    SumXor(c.0, c.1, c.2, c.3, d.0, d.1, d.2, d.3);
    SumXor(Xor(a.0, b.0), Xor(a.1, b.1), Xor(a.2, b.2), Xor(a.3, b.3), Xor(c.0, d.0), Xor(c.1, d.1), Xor(c.2, d.2),
           Xor(c.3, d.3));
  }

  lemma SumXor(a: Byte, b: Byte, c: Byte, d: Byte, p: Byte, q: Byte, r: Byte, s: Byte)
    ensures Xor(Sum4(a, b, c, d), Sum4(p, q, r, s)) == Sum4(Xor(a, p), Xor(b, q), Xor(c, r), Xor(d, s))
  {
    XorSwap(Xor(a, b), Xor(c, d), Xor(p, q), Xor(r, s));
    XorSwap(a, b, p, q);
    XorSwap(c, d, r, s);
  }

  lemma Linear2(x: Byte, y: Byte)
    ensures Mul2(Xor(x, y)) == Xor(Mul2(x), Mul2(y))
  {
  }

  lemma Linear3(x: Byte, y: Byte)
    ensures Mul3(Xor(x, y)) == Xor(Mul3(x), Mul3(y))
  {
    Linear2(x, y);
    XorSwap(Mul2(x), Mul2(y), x, y);
  }

  lemma Linear9(x: Byte, y: Byte)
    ensures Mul9(Xor(x, y)) == Xor(Mul9(x), Mul9(y))
  {
    Linear2(x, y);
    Linear2(Mul2(x), Mul2(y));
    Linear2(Mul2(Mul2(x)), Mul2(Mul2(y)));
    XorSwap(Mul2(Mul2(Mul2(x))), Mul2(Mul2(Mul2(y))), x, y);
  }

  lemma LinearB(x: Byte, y: Byte)
    ensures MulB(Xor(x, y)) == Xor(MulB(x), MulB(y))
  {
    Linear2(x, y);
    Linear2(Mul2(x), Mul2(y));
    XorSwap(Mul2(Mul2(x)), Mul2(Mul2(y)), x, y);
    Linear2(Mul5(x), Mul5(y));
    XorSwap(Mul2(Mul5(x)), Mul2(Mul5(y)), x, y);
  }

  lemma LinearD(x: Byte, y: Byte)
    ensures MulD(Xor(x, y)) == Xor(MulD(x), MulD(y))
  {
    Linear3(x, y);
    Linear2(Mul3(x), Mul3(y));
    Linear2(Mul2(Mul3(x)), Mul2(Mul3(y)));
    XorSwap(Mul2(Mul2(Mul3(x))), Mul2(Mul2(Mul3(y))), x, y);
  }

  lemma LinearE(x: Byte, y: Byte)
    ensures MulE(Xor(x, y)) == Xor(MulE(x), MulE(y))
  {
    Linear3(x, y);
    Linear2(Mul3(x), Mul3(y));
    XorSwap(Mul2(Mul3(x)), Mul2(Mul3(y)), x, y);
    Linear2(Xor(Mul2(Mul3(x)), x), Xor(Mul2(Mul3(y)), y));
  }

  /** One row of the MixColumns matrix (section 5.1.3 of FIPS 197); the others are its rotations. */
  function MixRow(a: Byte, b: Byte, c: Byte, d: Byte): Byte { Sum4(Mul2(a), Mul3(b), c, d) }

  /** One row of the inverse matrix (section 5.3.3 of FIPS 197). */
  function InvMixRow(a: Byte, b: Byte, c: Byte, d: Byte): Byte { Sum4(MulE(a), MulB(b), MulD(c), Mul9(d)) }

  lemma InvMixRowLinear(a: Byte, b: Byte, c: Byte, d: Byte, p: Byte, q: Byte, r: Byte, s: Byte)
    ensures InvMixRow(Xor(a, p), Xor(b, q), Xor(c, r), Xor(d, s)) == Xor(InvMixRow(a, b, c, d), InvMixRow(p, q, r, s))
  {
    LinearE(a, p);
    LinearB(b, q);
    LinearD(c, r);
    Linear9(d, s);
    SumXor(MulE(a), MulB(b), MulD(c), Mul9(d), MulE(p), MulB(q), MulD(r), Mul9(s));
  }

  // The products of the two matrices, one entry at a time, are those of the identity matrix.

  /** A sum that is `x` with `x` added is zero without it. */
  lemma CancelSum(a: Byte, b: Byte, c: Byte, d: Byte, x: Byte)
    requires Sum4(a, b, c, Xor(d, x)) == x
    ensures Sum4(a, b, c, d) == ZERO
  {
  }

  lemma InverseDiagonal8(x: bv8)
    ensures Sum8(TimesE(Xtime(x)), TimesB(x), TimesD(x), Times9(Times3(x))) == x
  {
  }

  lemma InverseDiagonal(x: Byte)
    ensures Sum4(MulE(Mul2(x)), MulB(x), MulD(x), Mul9(Mul3(x))) == x
  {
    InverseDiagonal8(x.bits);
  }

  lemma InverseSecond8(x: bv8)
    ensures Sum8(TimesE(Times3(x)), TimesB(Xtime(x)), TimesD(x), Xor8(Times9(x), x)) == x
  {
  }

  lemma InverseSecond(x: Byte)
    ensures Sum4(MulE(Mul3(x)), MulB(Mul2(x)), MulD(x), Mul9(x)) == ZERO
  {
    InverseSecond8(x.bits);
    CancelSum(MulE(Mul3(x)), MulB(Mul2(x)), MulD(x), Mul9(x), x);
  }

  lemma InverseThird8(x: bv8)
    ensures Sum8(TimesE(x), TimesB(Times3(x)), TimesD(Xtime(x)), Xor8(Times9(x), x)) == x
  {
  }

  lemma InverseThird(x: Byte)
    ensures Sum4(MulE(x), MulB(Mul3(x)), MulD(Mul2(x)), Mul9(x)) == ZERO
  {
    InverseThird8(x.bits);
    CancelSum(MulE(x), MulB(Mul3(x)), MulD(Mul2(x)), Mul9(x), x);
  }

  lemma InverseFourth8(x: bv8)
    ensures Sum8(TimesE(x), TimesB(x), TimesD(Times3(x)), Xor8(Times9(Xtime(x)), x)) == x
  {
  }

  lemma InverseFourth(x: Byte)
    ensures Sum4(MulE(x), MulB(x), MulD(Mul3(x)), Mul9(Mul2(x))) == ZERO
  {
    InverseFourth8(x.bits);
    CancelSum(MulE(x), MulB(x), MulD(Mul3(x)), Mul9(Mul2(x)), x);
  }

  lemma DiagonalInverse8(x: bv8)
    ensures Sum8(Xtime(TimesE(x)), Times3(Times9(x)), TimesD(x), TimesB(x)) == x
  {
  }

  lemma DiagonalInverse(x: Byte)
    ensures Sum4(Mul2(MulE(x)), Mul3(Mul9(x)), MulD(x), MulB(x)) == x
  {
    DiagonalInverse8(x.bits);
  }

  lemma SecondInverse8(x: bv8)
    ensures Sum8(Xtime(TimesB(x)), Times3(TimesE(x)), Times9(x), Xor8(TimesD(x), x)) == x
  {
  }

  lemma SecondInverse(x: Byte)
    ensures Sum4(Mul2(MulB(x)), Mul3(MulE(x)), Mul9(x), MulD(x)) == ZERO
  {
    SecondInverse8(x.bits);
    CancelSum(Mul2(MulB(x)), Mul3(MulE(x)), Mul9(x), MulD(x), x);
  }

  lemma ThirdInverse8(x: bv8)
    ensures Sum8(Xtime(TimesD(x)), Times3(TimesB(x)), TimesE(x), Xor8(Times9(x), x)) == x
  {
  }

  lemma ThirdInverse(x: Byte)
    ensures Sum4(Mul2(MulD(x)), Mul3(MulB(x)), MulE(x), Mul9(x)) == ZERO
  {
    ThirdInverse8(x.bits);
    CancelSum(Mul2(MulD(x)), Mul3(MulB(x)), MulE(x), Mul9(x), x);
  }

  lemma FourthInverse8(x: bv8)
    ensures Sum8(Xtime(Times9(x)), Times3(TimesD(x)), TimesB(x), Xor8(TimesE(x), x)) == x
  {
  }

  lemma FourthInverse(x: Byte)
    ensures Sum4(Mul2(Mul9(x)), Mul3(MulD(x)), MulB(x), MulE(x)) == ZERO
  {
    FourthInverse8(x.bits);
    CancelSum(Mul2(Mul9(x)), Mul3(MulD(x)), MulB(x), MulE(x), x);
  }

  lemma SumWithZeroes(a: Byte)
    ensures Sum4(a, ZERO, ZERO, ZERO) == a
  {
    XorZero(a);
    XorZero(ZERO);
  }

  lemma Linear24(a: Byte, b: Byte, c: Byte, d: Byte)
    ensures Mul2(Sum4(a, b, c, d)) == Sum4(Mul2(a), Mul2(b), Mul2(c), Mul2(d))
  {
    Linear2(Xor(a, b), Xor(c, d));
    Linear2(a, b);
    Linear2(c, d);
  }

  lemma Linear34(a: Byte, b: Byte, c: Byte, d: Byte)
    ensures Mul3(Sum4(a, b, c, d)) == Sum4(Mul3(a), Mul3(b), Mul3(c), Mul3(d))
  {
    Linear3(Xor(a, b), Xor(c, d));
    Linear3(a, b);
    Linear3(c, d);
  }

  lemma Linear94(a: Byte, b: Byte, c: Byte, d: Byte)
    ensures Mul9(Sum4(a, b, c, d)) == Sum4(Mul9(a), Mul9(b), Mul9(c), Mul9(d))
  {
    Linear9(Xor(a, b), Xor(c, d));
    Linear9(a, b);
    Linear9(c, d);
  }

  lemma LinearB4(a: Byte, b: Byte, c: Byte, d: Byte)
    ensures MulB(Sum4(a, b, c, d)) == Sum4(MulB(a), MulB(b), MulB(c), MulB(d))
  {
    LinearB(Xor(a, b), Xor(c, d));
    LinearB(a, b);
    LinearB(c, d);
  }

  lemma LinearD4(a: Byte, b: Byte, c: Byte, d: Byte)
    ensures MulD(Sum4(a, b, c, d)) == Sum4(MulD(a), MulD(b), MulD(c), MulD(d))
  {
    LinearD(Xor(a, b), Xor(c, d));
    LinearD(a, b);
    LinearD(c, d);
  }

  lemma LinearE4(a: Byte, b: Byte, c: Byte, d: Byte)
    ensures MulE(Sum4(a, b, c, d)) == Sum4(MulE(a), MulE(b), MulE(c), MulE(d))
  {
    LinearE(Xor(a, b), Xor(c, d));
    LinearE(a, b);
    LinearE(c, d);
  }

  lemma InvMixOfMix(a: Byte, b: Byte, c: Byte, d: Byte)
    ensures InvMixRow(MixRow(a, b, c, d), MixRow(b, c, d, a), MixRow(c, d, a, b), MixRow(d, a, b, c))
         == Sum4(Sum4(MulE(Mul2(a)), MulE(Mul3(b)), MulE(c), MulE(d)),
                 Sum4(MulB(a), MulB(Mul2(b)), MulB(Mul3(c)), MulB(d)),
                 Sum4(MulD(a), MulD(b), MulD(Mul2(c)), MulD(Mul3(d))),
                 Sum4(Mul9(Mul3(a)), Mul9(b), Mul9(c), Mul9(Mul2(d))))
  {
    LinearE4(Mul2(a), Mul3(b), c, d);
    SumRotate(a, Mul2(b), Mul3(c), d);
    LinearB4(a, Mul2(b), Mul3(c), d);
    SumRotate(a, b, Mul2(c), Mul3(d));
    SumRotate(b, Mul2(c), Mul3(d), a);
    LinearD4(a, b, Mul2(c), Mul3(d));
    SumRotate(Mul2(d), Mul3(a), b, c);
    Linear94(Mul3(a), b, c, Mul2(d));
  }

  /** InvMixColumns undoes MixColumns, row by row. */
  lemma InvMixUndoesMix(a: Byte, b: Byte, c: Byte, d: Byte)
    ensures InvMixRow(MixRow(a, b, c, d), MixRow(b, c, d, a), MixRow(c, d, a, b), MixRow(d, a, b, c)) == a
  {
    InvMixOfMix(a, b, c, d);
    SumTranspose((MulE(Mul2(a)), MulE(Mul3(b)), MulE(c), MulE(d)), (MulB(a), MulB(Mul2(b)), MulB(Mul3(c)), MulB(d)),
                 (MulD(a), MulD(b), MulD(Mul2(c)), MulD(Mul3(d))), (Mul9(Mul3(a)), Mul9(b), Mul9(c), Mul9(Mul2(d))));
    InverseDiagonal(a);
    InverseSecond(b);
    InverseThird(c);
    InverseFourth(d);
    SumWithZeroes(a);
  }

  lemma MixOfInvMix(a: Byte, b: Byte, c: Byte, d: Byte)
    ensures MixRow(InvMixRow(a, b, c, d), InvMixRow(b, c, d, a), InvMixRow(c, d, a, b), InvMixRow(d, a, b, c))
         == Sum4(Sum4(Mul2(MulE(a)), Mul2(MulB(b)), Mul2(MulD(c)), Mul2(Mul9(d))),
                 Sum4(Mul3(Mul9(a)), Mul3(MulE(b)), Mul3(MulB(c)), Mul3(MulD(d))),
                 Sum4(MulD(a), Mul9(b), MulE(c), MulB(d)), Sum4(MulB(a), MulD(b), Mul9(c), MulE(d)))
  {
    Linear24(MulE(a), MulB(b), MulD(c), Mul9(d));
    SumRotate(Mul9(a), MulE(b), MulB(c), MulD(d));
    Linear34(Mul9(a), MulE(b), MulB(c), MulD(d));
    SumRotate(MulD(a), Mul9(b), MulE(c), MulB(d));
    SumRotate(Mul9(b), MulE(c), MulB(d), MulD(a));
    SumRotate(MulE(d), MulB(a), MulD(b), Mul9(c));
  }

  /** MixColumns undoes InvMixColumns, row by row. */
  lemma MixUndoesInvMix(a: Byte, b: Byte, c: Byte, d: Byte)
    ensures MixRow(InvMixRow(a, b, c, d), InvMixRow(b, c, d, a), InvMixRow(c, d, a, b), InvMixRow(d, a, b, c)) == a
  {
    MixOfInvMix(a, b, c, d);
    SumTranspose((Mul2(MulE(a)), Mul2(MulB(b)), Mul2(MulD(c)), Mul2(Mul9(d))),
                 (Mul3(Mul9(a)), Mul3(MulE(b)), Mul3(MulB(c)), Mul3(MulD(d))),
                 (MulD(a), Mul9(b), MulE(c), MulB(d)), (MulB(a), MulD(b), Mul9(c), MulE(d)));
    DiagonalInverse(a);
    SecondInverse(b);
    ThirdInverse(c);
    FourthInverse(d);
    SumWithZeroes(a);
  }
}
