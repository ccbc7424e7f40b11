/**
 The 32-bit view of AES in aes.c: columns as words, and tables that merge the S-box with a column of
 the mixing matrix.
 */
module AesWords {
  import opened GaloisField
  import opened ProductCipher
  import opened AesCipher

  datatype Word = Word(bits: bv32)

  function Xor32(a: Word, b: Word): Word { Word(a.bits ^ b.bits) }

  function Mask(w: Word, m: bv32): Word { Word(w.bits & m) }

  /** GETU32 */
  function Pack(c: Col): Word {
    Word(((c.b0.bits as bv32) << 24) ^ ((c.b1.bits as bv32) << 16) ^ ((c.b2.bits as bv32) << 8) ^ (c.b3.bits as bv32))
  }

  function Byte0(w: Word): Byte { Byte((w.bits >> 24) as bv8) }
  function Byte1(w: Word): Byte { Byte(((w.bits >> 16) & 0xff) as bv8) }
  function Byte2(w: Word): Byte { Byte(((w.bits >> 8) & 0xff) as bv8) }
  function Byte3(w: Word): Byte { Byte((w.bits & 0xff) as bv8) }

  /** PUTU32 */
  function Unpack(w: Word): Col { Col(Byte0(w), Byte1(w), Byte2(w), Byte3(w)) }

  lemma UnpackPack(c: Col)
    ensures Unpack(Pack(c)) == c
  {
  }

  lemma PackUnpack(w: Word)
    ensures Pack(Unpack(w)) == w
  {
  }

  lemma PackXor(a: Col, b: Col)
    ensures Xor32(Pack(a), Pack(b)) == Pack(AddCol(a, b))
  {
  }

  function PackState(s: State): Quad<Word> { Quad(Pack(s.c0), Pack(s.c1), Pack(s.c2), Pack(s.c3)) }

  function UnpackState(q: Quad<Word>): State { State(Unpack(q.w0), Unpack(q.w1), Unpack(q.w2), Unpack(q.w3)) }

  lemma UnpackPackState(s: State)
    ensures UnpackState(PackState(s)) == s
  {
    UnpackPack(s.c0);
    UnpackPack(s.c1);
    UnpackPack(s.c2);
    UnpackPack(s.c3);
  }

  lemma PackUnpackState(q: Quad<Word>)
    ensures PackState(UnpackState(q)) == q
  {
    PackUnpack(q.w0);
    PackUnpack(q.w1);
    PackUnpack(q.w2);
    PackUnpack(q.w3);
  }

  lemma Masked(p: Byte)
    ensures Mask(Pack(Col(p, p, p, p)), 0xff000000) == Pack(Col(p, ZERO, ZERO, ZERO))
    ensures Mask(Pack(Col(p, p, p, p)), 0x00ff0000) == Pack(Col(ZERO, p, ZERO, ZERO))
    ensures Mask(Pack(Col(p, p, p, p)), 0x0000ff00) == Pack(Col(ZERO, ZERO, p, ZERO))
    ensures Mask(Pack(Col(p, p, p, p)), 0x000000ff) == Pack(Col(ZERO, ZERO, ZERO, p))
  {
  }

  /** The bytewise sum of four columns. */
  function SumCols(a: Col, b: Col, c: Col, d: Col): Col {
    Col(Sum4(a.b0, b.b0, c.b0, d.b0), Sum4(a.b1, b.b1, c.b1, d.b1), Sum4(a.b2, b.b2, c.b2, d.b2),
        Sum4(a.b3, b.b3, c.b3, d.b3))
  }

  function XorAll(a: Word, b: Word, c: Word, d: Word, k: Word): Word { Xor32(Xor32(Xor32(Xor32(a, b), c), d), k) }

  lemma PackSum4(a: Col, b: Col, c: Col, d: Col)
    ensures Xor32(Xor32(Xor32(Pack(a), Pack(b)), Pack(c)), Pack(d)) == Pack(SumCols(a, b, c, d))
  {
    PackXor(a, b);
    PackXor(AddCol(a, b), c);
    PackXor(AddCol(AddCol(a, b), c), d);
    XorAssoc(Xor(a.b0, b.b0), c.b0, d.b0);
    XorAssoc(Xor(a.b1, b.b1), c.b1, d.b1);
    XorAssoc(Xor(a.b2, b.b2), c.b2, d.b2);
    XorAssoc(Xor(a.b3, b.b3), c.b3, d.b3);
  }

  lemma PackSum(a: Col, b: Col, c: Col, d: Col, k: Col)
    ensures XorAll(Pack(a), Pack(b), Pack(c), Pack(d), Pack(k)) == Pack(AddCol(SumCols(a, b, c, d), k))
  {
    PackSum4(a, b, c, d);
    PackXor(SumCols(a, b, c, d), k);
  }

  // The columns of the two mixing matrices, scaled by a byte.
  function E0(p: Byte): Col { Col(Mul2(p), p, p, Mul3(p)) }
  function E1(p: Byte): Col { Col(Mul3(p), Mul2(p), p, p) }
  function E2(p: Byte): Col { Col(p, Mul3(p), Mul2(p), p) }
  function E3(p: Byte): Col { Col(p, p, Mul3(p), Mul2(p)) }
  function D0(p: Byte): Col { Col(MulE(p), Mul9(p), MulD(p), MulB(p)) }
  function D1(p: Byte): Col { Col(MulB(p), MulE(p), Mul9(p), MulD(p)) }
  function D2(p: Byte): Col { Col(MulD(p), MulB(p), MulE(p), Mul9(p)) }
  function D3(p: Byte): Col { Col(Mul9(p), MulD(p), MulB(p), MulE(p)) }

  // The tables of aes.c, each merging the S-box (or its inverse) with a matrix column.
  function Te0(box: Box, x: Byte): Word { Pack(E0(box.sub(x))) }
  function Te1(box: Box, x: Byte): Word { Pack(E1(box.sub(x))) }
  function Te2(box: Box, x: Byte): Word { Pack(E2(box.sub(x))) }
  function Te3(box: Box, x: Byte): Word { Pack(E3(box.sub(x))) }
  function Te4(box: Box, x: Byte): Word { var s := box.sub(x); Pack(Col(s, s, s, s)) }
  function Td0(box: Box, x: Byte): Word { Pack(D0(box.inv(x))) }
  function Td1(box: Box, x: Byte): Word { Pack(D1(box.inv(x))) }
  function Td2(box: Box, x: Byte): Word { Pack(D2(box.inv(x))) }
  function Td3(box: Box, x: Byte): Word { Pack(D3(box.inv(x))) }
  function Td4(box: Box, x: Byte): Word { var s := box.inv(x); Pack(Col(s, s, s, s)) }

  lemma MixIsSum(p: Byte, q: Byte, r: Byte, t: Byte)
    ensures SumCols(E0(p), E1(q), E2(r), E3(t)) == MixCol(Col(p, q, r, t))
  {
    SumRotate(p, Mul2(q), Mul3(r), t);
    SumRotate(p, q, Mul2(r), Mul3(t));
    SumRotate(q, Mul2(r), Mul3(t), p);
    SumRotate(Mul2(t), Mul3(p), q, r);
  }

  lemma InvMixIsSum(p: Byte, q: Byte, r: Byte, t: Byte)
    ensures SumCols(D0(p), D1(q), D2(r), D3(t)) == InvMixCol(Col(p, q, r, t))
  {
    SumRotate(Mul9(p), MulE(q), MulB(r), MulD(t));
    SumRotate(MulD(p), Mul9(q), MulE(r), MulB(t));
    SumRotate(Mul9(q), MulE(r), MulB(t), MulD(p));
    SumRotate(MulE(t), MulB(p), MulD(q), Mul9(r));
  }

  /** One column of a full encryption round, as AES_encrypt computes it. */
  function EncColumn(box: Box, a: Word, b: Word, c: Word, d: Word, k: Word): Word {
    XorAll(Te0(box, Byte0(a)), Te1(box, Byte1(b)), Te2(box, Byte2(c)), Te3(box, Byte3(d)), k)
  }

  /** One column of a full decryption round, as AES_decrypt computes it. */
  function DecColumn(box: Box, a: Word, b: Word, c: Word, d: Word, k: Word): Word {
    XorAll(Td0(box, Byte0(a)), Td1(box, Byte1(b)), Td2(box, Byte2(c)), Td3(box, Byte3(d)), k)
  }

  function Join(a: Word, b: Word, c: Word, d: Word, k: Word): Word {
    XorAll(Mask(a, 0xff000000), Mask(b, 0x00ff0000), Mask(c, 0x0000ff00), Mask(d, 0x000000ff), k)
  }

  lemma EncColumnMixes(box: Box, a: Col, b: Col, c: Col, d: Col, k: Col)
    ensures EncColumn(box, Pack(a), Pack(b), Pack(c), Pack(d), Pack(k))
         == Pack(AddCol(MixCol(Col(box.sub(a.b0), box.sub(b.b1), box.sub(c.b2), box.sub(d.b3))), k))
  {
    UnpackPack(a);
    UnpackPack(b);
    UnpackPack(c);
    UnpackPack(d);
    var p, q, r, t := box.sub(a.b0), box.sub(b.b1), box.sub(c.b2), box.sub(d.b3);
    PackSum(E0(p), E1(q), E2(r), E3(t), k);
    MixIsSum(p, q, r, t);
  }

  lemma DecColumnMixes(box: Box, a: Col, b: Col, c: Col, d: Col, k: Col)
    ensures DecColumn(box, Pack(a), Pack(b), Pack(c), Pack(d), Pack(k))
         == Pack(AddCol(InvMixCol(Col(box.inv(a.b0), box.inv(b.b1), box.inv(c.b2), box.inv(d.b3))), k))
  {
    UnpackPack(a);
    UnpackPack(b);
    UnpackPack(c);
    UnpackPack(d);
    var p, q, r, t := box.inv(a.b0), box.inv(b.b1), box.inv(c.b2), box.inv(d.b3);
    PackSum(D0(p), D1(q), D2(r), D3(t), k);
    InvMixIsSum(p, q, r, t);
  }

  /** Masking four table words and adding them puts the four bytes side by side. */
  lemma JoinBytes(p: Byte, q: Byte, r: Byte, t: Byte, k: Col)
    ensures Join(Pack(Col(p, p, p, p)), Pack(Col(q, q, q, q)), Pack(Col(r, r, r, r)), Pack(Col(t, t, t, t)), Pack(k))
            == Pack(AddCol(Col(p, q, r, t), k))
  {
    Masked(p);
    Masked(q);
    Masked(r);
    Masked(t);
    PackSum(Col(p, ZERO, ZERO, ZERO), Col(ZERO, q, ZERO, ZERO), Col(ZERO, ZERO, r, ZERO), Col(ZERO, ZERO, ZERO, t), k);
    SumZero(p, q, r, t);
  }

  lemma SumZero(p: Byte, q: Byte, r: Byte, t: Byte)
    ensures SumCols(Col(p, ZERO, ZERO, ZERO), Col(ZERO, q, ZERO, ZERO), Col(ZERO, ZERO, r, ZERO),
                    Col(ZERO, ZERO, ZERO, t)) == Col(p, q, r, t)
  {
    XorZero(p);
    XorZero(q);
    XorZero(r);
    XorZero(t);
    XorZero(ZERO);
    XorComm(ZERO, q);
    XorComm(ZERO, r);
    XorComm(ZERO, t);
  }
}
