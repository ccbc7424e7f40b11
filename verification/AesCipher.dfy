/**
 The layers of FIPS 197 on a state of four columns, over any byte permutation as S-box.
 */
module AesCipher {
  import opened GaloisField
  import opened ProductCipher

  /** An S-box and its inverse table. */
  datatype Box = Box(sub: Byte -> Byte, inv: Byte -> Byte) {
    ghost predicate Valid() {
      forall x :: inv(sub(x)) == x && sub(inv(x)) == x
    }
  }

  /** A column of the state, or a word of the key schedule: four bytes. */
  datatype Col = Col(b0: Byte, b1: Byte, b2: Byte, b3: Byte)

  datatype State = State(c0: Col, c1: Col, c2: Col, c3: Col)

  function AddCol(a: Col, k: Col): Col { Col(Xor(a.b0, k.b0), Xor(a.b1, k.b1), Xor(a.b2, k.b2), Xor(a.b3, k.b3)) }

  function Add(s: State, k: State): State {
    State(AddCol(s.c0, k.c0), AddCol(s.c1, k.c1), AddCol(s.c2, k.c2), AddCol(s.c3, k.c3))
  }

  function MapCol(f: Byte -> Byte, a: Col): Col { Col(f(a.b0), f(a.b1), f(a.b2), f(a.b3)) }

  /** SubBytes with `f` the S-box, InvSubBytes with `f` its inverse. */
  function Sub(f: Byte -> Byte, s: State): State {
    State(MapCol(f, s.c0), MapCol(f, s.c1), MapCol(f, s.c2), MapCol(f, s.c3))
  }

  /** Row r moves r columns to the left. */
  function ShiftRows(s: State): State {
    State(Col(s.c0.b0, s.c1.b1, s.c2.b2, s.c3.b3), Col(s.c1.b0, s.c2.b1, s.c3.b2, s.c0.b3),
          Col(s.c2.b0, s.c3.b1, s.c0.b2, s.c1.b3), Col(s.c3.b0, s.c0.b1, s.c1.b2, s.c2.b3))
  }

  /** Row r moves r columns to the right. */
  function InvShiftRows(s: State): State {
    State(Col(s.c0.b0, s.c3.b1, s.c2.b2, s.c1.b3), Col(s.c1.b0, s.c0.b1, s.c3.b2, s.c2.b3),
          Col(s.c2.b0, s.c1.b1, s.c0.b2, s.c3.b3), Col(s.c3.b0, s.c2.b1, s.c1.b2, s.c0.b3))
  }

  function MixCol(a: Col): Col {
    Col(MixRow(a.b0, a.b1, a.b2, a.b3), MixRow(a.b1, a.b2, a.b3, a.b0), MixRow(a.b2, a.b3, a.b0, a.b1),
        MixRow(a.b3, a.b0, a.b1, a.b2))
  }

  function InvMixCol(a: Col): Col {
    Col(InvMixRow(a.b0, a.b1, a.b2, a.b3), InvMixRow(a.b1, a.b2, a.b3, a.b0), InvMixRow(a.b2, a.b3, a.b0, a.b1),
        InvMixRow(a.b3, a.b0, a.b1, a.b2))
  }

  function Mix(s: State): State { State(MixCol(s.c0), MixCol(s.c1), MixCol(s.c2), MixCol(s.c3)) }

  function InvMix(s: State): State { State(InvMixCol(s.c0), InvMixCol(s.c1), InvMixCol(s.c2), InvMixCol(s.c3)) }

  /** The layers of AES. ShiftRows and SubBytes make up the substitution. */
  function Aes(box: Box): Layers<State> {
    Layers((s, k) => Add(s, k), s => ShiftRows(Sub(box.sub, s)), s => Sub(box.inv, InvShiftRows(s)), s => Mix(s),
           s => InvMix(s))
  }

  lemma AddColCancel(a: Col, k: Col)
    ensures AddCol(AddCol(a, k), k) == a
  {
    XorCancel(a.b0, k.b0);
    XorCancel(a.b1, k.b1);
    XorCancel(a.b2, k.b2);
    XorCancel(a.b3, k.b3);
  }

  lemma AddCancel(s: State, k: State)
    ensures Add(Add(s, k), k) == s
  {
    AddColCancel(s.c0, k.c0);
    AddColCancel(s.c1, k.c1);
    AddColCancel(s.c2, k.c2);
    AddColCancel(s.c3, k.c3);
  }

  lemma MixColInverse(a: Col)
    ensures InvMixCol(MixCol(a)) == a && MixCol(InvMixCol(a)) == a
  {
    InvMixUndoesMix(a.b0, a.b1, a.b2, a.b3);
    InvMixUndoesMix(a.b1, a.b2, a.b3, a.b0);
    InvMixUndoesMix(a.b2, a.b3, a.b0, a.b1);
    InvMixUndoesMix(a.b3, a.b0, a.b1, a.b2);
    MixUndoesInvMix(a.b0, a.b1, a.b2, a.b3);
    MixUndoesInvMix(a.b1, a.b2, a.b3, a.b0);
    MixUndoesInvMix(a.b2, a.b3, a.b0, a.b1);
    MixUndoesInvMix(a.b3, a.b0, a.b1, a.b2);
  }

  lemma MixInverse(s: State)
    ensures InvMix(Mix(s)) == s && Mix(InvMix(s)) == s
  {
    MixColInverse(s.c0);
    MixColInverse(s.c1);
    MixColInverse(s.c2);
    MixColInverse(s.c3);
  }

  lemma InvMixColLinear(a: Col, k: Col)
    ensures InvMixCol(AddCol(a, k)) == AddCol(InvMixCol(a), InvMixCol(k))
  {
    InvMixRowLinear(a.b0, a.b1, a.b2, a.b3, k.b0, k.b1, k.b2, k.b3);
    InvMixRowLinear(a.b1, a.b2, a.b3, a.b0, k.b1, k.b2, k.b3, k.b0);
    InvMixRowLinear(a.b2, a.b3, a.b0, a.b1, k.b2, k.b3, k.b0, k.b1);
    InvMixRowLinear(a.b3, a.b0, a.b1, a.b2, k.b3, k.b0, k.b1, k.b2);
  }

  lemma InvMixLinear(s: State, k: State)
    ensures InvMix(Add(s, k)) == Add(InvMix(s), InvMix(k))
  {
    InvMixColLinear(s.c0, k.c0);
    InvMixColLinear(s.c1, k.c1);
    InvMixColLinear(s.c2, k.c2);
    InvMixColLinear(s.c3, k.c3);
  }

  lemma SubInverse(box: Box, s: State)
    requires box.Valid()
    ensures Sub(box.inv, InvShiftRows(ShiftRows(Sub(box.sub, s)))) == s
    ensures ShiftRows(Sub(box.sub, Sub(box.inv, InvShiftRows(s)))) == s
  {
  }

  /** The layers of AES have their inverses; InvMixColumns is linear. */
  lemma AesLaws(box: Box)
    requires box.Valid()
    ensures Aes(box).Laws()
  {
    var a := Aes(box);
    forall s, k ensures a.add(a.add(s, k), k) == s { AddCancel(s, k); }
    forall s ensures a.unsub(a.sub(s)) == s && a.sub(a.unsub(s)) == s { SubInverse(box, s); }
    forall s ensures a.unmix(a.mix(s)) == s && a.mix(a.unmix(s)) == s { MixInverse(s); }
    forall s, k ensures a.unmix(a.add(s, k)) == a.add(a.unmix(s), a.unmix(k)) { InvMixLinear(s, k); }
  }
}
