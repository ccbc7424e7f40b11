/**
 Key expansion (section 5.2 of FIPS 197): the schedule as a recurrence over its words, and the word
 operations aes.c uses to compute it.
 */
module AesKeySchedule {
  import opened GaloisField
  import opened AesCipher
  import opened AesWords

  function RotCol(c: Col): Col { Col(c.b1, c.b2, c.b3, c.b0) }

  /** Round constant i, counted from 1: x^(i-1) in GF(2^8). */
  function Rcon(i: nat): Byte { if i <= 1 then Byte(1) else Mul2(Rcon(i - 1)) }

  function AddRcon(c: Col, i: nat): Col { AddCol(c, Col(Rcon(i), ZERO, ZERO, ZERO)) }

  /** Word `i` of the schedule of a key of |k| words. */
  function Expand(box: Box, k: seq<Col>, i: nat): Col
    requires |k| > 0
  {
    if i < |k| then k[i]
    else
      var temp := Expand(box, k, i - 1);
      var mixed :=
        if i % |k| == 0 then AddRcon(MapCol(box.sub, RotCol(temp)), i / |k|)
        else if |k| > 6 && i % |k| == 4 then MapCol(box.sub, temp)
        else temp;
      AddCol(Expand(box, k, i - |k|), mixed)
  }

  /** Round key `r`: four words of the schedule. */
  function RoundKey(box: Box, k: seq<Col>, r: nat): State
    requires |k| > 0
  {
    State(Expand(box, k, 4 * r), Expand(box, k, 4 * r + 1), Expand(box, k, 4 * r + 2), Expand(box, k, 4 * r + 3))
  }

  function RoundKeys(box: Box, k: seq<Col>, rounds: nat): (keys: seq<State>)
    requires |k| > 0
  {
    seq(rounds + 1, r requires r >= 0 => RoundKey(box, k, r))
  }

  const RCON: seq<Word> := [
    Word(0x01000000), Word(0x02000000), Word(0x04000000), Word(0x08000000), Word(0x10000000),
    Word(0x20000000), Word(0x40000000), Word(0x80000000), Word(0x1B000000), Word(0x36000000)
  ]

  lemma RconPowers()
    ensures Rcon(1) == Byte(1) && Rcon(2) == Byte(2) && Rcon(3) == Byte(4) && Rcon(4) == Byte(8)
            && Rcon(5) == Byte(0x10)
    ensures Rcon(6) == Byte(0x20) && Rcon(7) == Byte(0x40) && Rcon(8) == Byte(0x80) && Rcon(9) == Byte(0x1b)
            && Rcon(10) == Byte(0x36)
  {
  }

  /** The table of aes.c holds the round constants. */
  lemma RconPacked(i: nat)
    requires i < 10
    ensures RCON[i] == Pack(Col(Rcon(i + 1), ZERO, ZERO, ZERO))
  {
    RconPowers();
  }

  /** A new word at the start of a period, as aes.c computes it from the word one period back and the last word. */
  function FirstWord(box: Box, w: Word, temp: Word, rcon: Word): Word {
    XorAll(Xor32(w, Mask(Te4(box, Byte1(temp)), 0xff000000)), Mask(Te4(box, Byte2(temp)), 0x00ff0000),
           Mask(Te4(box, Byte3(temp)), 0x0000ff00), Mask(Te4(box, Byte0(temp)), 0x000000ff), rcon)
  }

  /** A new word in the middle of a 256-bit period. */
  function MiddleWord(box: Box, w: Word, temp: Word): Word {
    Xor32(Xor32(Xor32(Xor32(w, Mask(Te4(box, Byte0(temp)), 0xff000000)), Mask(Te4(box, Byte1(temp)), 0x00ff0000)),
                Mask(Te4(box, Byte2(temp)), 0x0000ff00)), Mask(Te4(box, Byte3(temp)), 0x000000ff))
  }

  /** Adding the four bytes of a column one mask at a time adds the column. */
  lemma AddBytes(w: Col, p: Byte, q: Byte, r: Byte, t: Byte)
    ensures Xor32(Xor32(Xor32(Xor32(Pack(w), Pack(Col(p, ZERO, ZERO, ZERO))), Pack(Col(ZERO, q, ZERO, ZERO))),
                        Pack(Col(ZERO, ZERO, r, ZERO))), Pack(Col(ZERO, ZERO, ZERO, t)))
         == Pack(AddCol(w, Col(p, q, r, t)))
  {
    var c1 := AddCol(w, Col(p, ZERO, ZERO, ZERO));
    var c2 := AddCol(c1, Col(ZERO, q, ZERO, ZERO));
    var c3 := AddCol(c2, Col(ZERO, ZERO, r, ZERO));
    PackXor(w, Col(p, ZERO, ZERO, ZERO));
    PackXor(c1, Col(ZERO, q, ZERO, ZERO));
    PackXor(c2, Col(ZERO, ZERO, r, ZERO));
    PackXor(c3, Col(ZERO, ZERO, ZERO, t));
    XorZero(Xor(w.b0, p));
    XorZero(w.b1);
    XorZero(Xor(w.b1, q));
    XorZero(w.b2);
    XorZero(Xor(w.b2, r));
    XorZero(w.b3);
  }

  lemma FirstWordExpands(box: Box, w: Col, temp: Col, i: nat)
    ensures FirstWord(box, Pack(w), Pack(temp), Pack(Col(Rcon(i), ZERO, ZERO, ZERO)))
            == Pack(AddCol(w, AddRcon(MapCol(box.sub, RotCol(temp)), i)))
  {
    UnpackPack(temp);
    var m := MapCol(box.sub, RotCol(temp));
    Masked(m.b0);
    Masked(m.b1);
    Masked(m.b2);
    Masked(m.b3);
    AddBytes(w, m.b0, m.b1, m.b2, m.b3);
    var rc := Col(Rcon(i), ZERO, ZERO, ZERO);
    PackXor(AddCol(w, m), rc);
    XorAssoc(w.b0, m.b0, rc.b0);
    XorAssoc(w.b1, m.b1, rc.b1);
    XorAssoc(w.b2, m.b2, rc.b2);
    XorAssoc(w.b3, m.b3, rc.b3);
  }

  lemma MiddleWordExpands(box: Box, w: Col, temp: Col)
    ensures MiddleWord(box, Pack(w), Pack(temp)) == Pack(AddCol(w, MapCol(box.sub, temp)))
  {
    UnpackPack(temp);
    var m := MapCol(box.sub, temp);
    Masked(m.b0);
    Masked(m.b1);
    Masked(m.b2);
    Masked(m.b3);
    AddBytes(w, m.b0, m.b1, m.b2, m.b3);
  }
}
