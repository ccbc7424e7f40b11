/**
 How a known answer is followed through the model of AES: from the words of a key to its round keys, and from a
 block to its ciphertext, one round at a time.
 */
module AesVector {
  import opened Bytes
  import opened GaloisField
  import opened ProductCipher
  import opened AesCipher
  import opened AesKeySchedule
  import opened AesCode
  import opened AesSbox

  function Column(w: bv32): Col {
    Col(Byte((w >> 24) as bv8), Byte(((w >> 16) & 255) as bv8), Byte(((w >> 8) & 255) as bv8), Byte((w & 255) as bv8))
  }

  function Block(a: bv32, b: bv32, c: bv32, d: bv32): State { State(Column(a), Column(b), Column(c), Column(d)) }

  /** The block that appendix C of FIPS 197 encrypts under keys of all sizes. */
  function PlainBytes(): (b: seq<Byte>)
    ensures |b| == 16
  {
    [Byte(0x00), Byte(0x11), Byte(0x22), Byte(0x33), Byte(0x44), Byte(0x55), Byte(0x66), Byte(0x77),
     Byte(0x88), Byte(0x99), Byte(0xaa), Byte(0xbb), Byte(0xcc), Byte(0xdd), Byte(0xee), Byte(0xff)]
  }

  function Plain(): State { Block(0x00112233, 0x44556677, 0x8899aabb, 0xccddeeff) }

  // ---------- the key expansion ----------

  /** RotWord, SubWord and the round constant. */
  function Turned(f: Byte -> Byte, w: Col, i: nat): Col { AddRcon(MapCol(f, RotCol(w)), i) }

  /** The four words `n` before those of the round key after `k1`, which comes after `k0`. */
  function Back(n: nat, k0: State, k1: State): State {
    if n == 4 then k1 else if n == 6 then State(k0.c2, k0.c3, k1.c0, k1.c1) else k0
  }

  /** What is added to the first word of round key `r`, given the last word `w` of the one before. */
  function Lead(f: Byte -> Byte, n: nat, w: Col, r: nat): Col {
    if n == 4 then Turned(f, w, r)
    else if n == 6 then if r % 3 == 0 then Turned(f, w, 2 * r / 3) else w
    else if r % 2 == 0 then Turned(f, w, r / 2) else MapCol(f, w)
  }

  /** What is added to its third word, given the second. */
  function Third(f: Byte -> Byte, n: nat, w: Col, r: nat): Col {
    if n == 6 && r % 3 == 1 then Turned(f, w, (2 * r + 1) / 3) else w
  }

  /** What is added to word `j` of round key `r`, given the word before. */
  function Role(f: Byte -> Byte, n: nat, w: Col, r: nat, j: nat): Col {
    if j == 0 then Lead(f, n, w, r) else if j == 2 then Third(f, n, w, r) else w
  }

  /** Round key `r` of a key of `n` words, from the two before it. */
  function NextKey(f: Byte -> Byte, n: nat, k0: State, k1: State, r: nat): State {
    var a := Back(n, k0, k1);
    var c0 := AddCol(a.c0, Role(f, n, k1.c3, r, 0));
    var c1 := AddCol(a.c1, Role(f, n, c0, r, 1));
    var c2 := AddCol(a.c2, Role(f, n, c1, r, 2));
    State(c0, c1, c2, AddCol(a.c3, Role(f, n, c2, r, 3)))
  }

  /** Word `i` of the expansion, by what is added to the word |k| before. */
  ghost predicate WordBy(box: Box, k: seq<Col>, i: nat, t: Col)
    requires 0 < |k| <= i
  {
    Expand(box, k, i) == AddCol(Expand(box, k, i - |k|), t)
  }

  /** What is added to word `m` of a period of `n` words that is counted `q`. */
  function Mixed(f: Byte -> Byte, n: nat, w: Col, q: nat, m: nat): Col {
    if m == 0 then Turned(f, w, q) else if n > 6 && m == 4 then MapCol(f, w) else w
  }

  lemma WordIs(box: Box, k: seq<Col>, i: nat, q: nat, m: nat)
    requires 0 < |k| <= i && m < |k| && i == q * |k| + m
    ensures WordBy(box, k, i, Mixed(box.sub, |k|, Expand(box, k, i - 1), q, m))
  {
    DivModUnique(i, |k|, q, m);
  }

  /** Where word `4 * r + j` is in its period. */
  function Period(n: nat, r: nat, j: nat): (nat, nat) {
    if n == 4 then (r, j)
    else if n == 6 then
      var (h, m) := (r / 3, 4 * (r % 3) + j);
      if m < 6 then (2 * h, m) else (2 * h + 1, m - 6)
    else (r / 2, 4 * (r % 2) + j)
  }

  lemma PeriodIs(n: nat, r: nat, j: nat)
    requires n in {4, 6, 8} && j < 4
    ensures var (q, m) := Period(n, r, j); m < n && 4 * r + j == q * n + m
  {
    assert r == 3 * (r / 3) + r % 3 && r == 2 * (r / 2) + r % 2;
  }

  lemma RoleOf(f: Byte -> Byte, n: nat, r: nat, w: Col, j: nat)
    requires n in {4, 6, 8} && j < 4
    ensures Mixed(f, n, w, Period(n, r, j).0, Period(n, r, j).1) == Role(f, n, w, r, j)
  {
    assert r == 3 * (r / 3) + r % 3;
  }

  lemma WordAt(box: Box, k: seq<Col>, r: nat, j: nat, i: nat)
    requires |k| in {4, 6, 8} && r >= 2 && j < 4 && i == 4 * r + j
    ensures WordBy(box, k, i, Role(box.sub, |k|, Expand(box, k, i - 1), r, j))
  {
    PeriodIs(|k|, r, j);
    WordIs(box, k, i, Period(|k|, r, j).0, Period(|k|, r, j).1);
    RoleOf(box.sub, |k|, r, Expand(box, k, i - 1), j);
  }

  lemma NextWords(f: Byte -> Byte, n: nat, k0: State, k1: State, r: nat, w: State)
    requires var a := Back(n, k0, k1);
             && w.c0 == AddCol(a.c0, Role(f, n, k1.c3, r, 0)) && w.c1 == AddCol(a.c1, Role(f, n, w.c0, r, 1))
             && w.c2 == AddCol(a.c2, Role(f, n, w.c1, r, 2)) && w.c3 == AddCol(a.c3, Role(f, n, w.c2, r, 3))
    ensures w == NextKey(f, n, k0, k1, r)
  {
  }

  /** Words `i` to `i + 3` of the expansion. */
  ghost function FourFrom(box: Box, k: seq<Col>, i: nat): State
    requires |k| > 0
  {
    State(Expand(box, k, i), Expand(box, k, i + 1), Expand(box, k, i + 2), Expand(box, k, i + 3))
  }

  lemma KeyIs(box: Box, k: seq<Col>, r: nat, i: nat)
    requires |k| > 0 && i == 4 * r
    ensures RoundKey(box, k, r) == FourFrom(box, k, i)
  {
  }

  lemma Halves(box: Box, k: seq<Col>, i: nat)
    requires |k| > 0
    ensures var a, b, m := FourFrom(box, k, i), FourFrom(box, k, i + 4), FourFrom(box, k, i + 2);
            m == State(a.c2, a.c3, b.c0, b.c1)
  {
  }

  lemma BackState(n: nat, k0: State, k1: State, a: State, b: State, m: State)
    requires n in {4, 6, 8} && k0 == a && k1 == b && m == State(a.c2, a.c3, b.c0, b.c1)
    ensures Back(n, k0, k1) == if n == 4 then b else if n == 6 then m else a
  {
  }

  lemma BackFour(box: Box, k: seq<Col>, r: nat, i: nat)
    requires |k| in {4, 6, 8} && r >= 2 && i == 4 * r - 8
    ensures Back(|k|, RoundKey(box, k, r - 2), RoundKey(box, k, r - 1))
         == FourFrom(box, k, if |k| == 4 then i + 4 else if |k| == 6 then i + 2 else i)
  {
    KeyIs(box, k, r - 2, i);
    KeyIs(box, k, r - 1, i + 4);
    Halves(box, k, i);
    BackState(|k|, RoundKey(box, k, r - 2), RoundKey(box, k, r - 1),
              FourFrom(box, k, i), FourFrom(box, k, i + 4), FourFrom(box, k, i + 2));
  }

  lemma BackWords(box: Box, k: seq<Col>, r: nat)
    requires |k| in {4, 6, 8} && r >= 2
    ensures var a, i := Back(|k|, RoundKey(box, k, r - 2), RoundKey(box, k, r - 1)), 4 * r - |k|;
            && a.c0 == Expand(box, k, i) && a.c1 == Expand(box, k, i + 1)
            && a.c2 == Expand(box, k, i + 2) && a.c3 == Expand(box, k, i + 3)
  {
    BackFour(box, k, r, 4 * r - 8);
  }

  /** For keys of every size, each round key follows from the two before it. */
  lemma NextRoundKey(box: Box, k: seq<Col>, r: nat)
    requires |k| in {4, 6, 8} && r >= 2
    ensures RoundKey(box, k, r) == NextKey(box.sub, |k|, RoundKey(box, k, r - 2), RoundKey(box, k, r - 1), r)
  {
    var i := 4 * r;
    WordAt(box, k, r, 0, i);
    WordAt(box, k, r, 1, i + 1);
    WordAt(box, k, r, 2, i + 2);
    WordAt(box, k, r, 3, i + 3);
    BackWords(box, k, r);
    NextWords(box.sub, |k|, RoundKey(box, k, r - 2), RoundKey(box, k, r - 1), r, RoundKey(box, k, r));
  }

  /** The round keys up to `r` follow one another as those of a key of `n` words do. */
  ghost predicate KeysFollow(f: Byte -> Byte, n: nat, keys: nat -> State, r: nat) {
    forall i: nat :: 2 <= i <= r ==> keys(i) == NextKey(f, n, keys(i - 2), keys(i - 1), i)
  }

  lemma {:induction false} RoundKeysAre(box: Box, k: seq<Col>, keys: nat -> State, r: nat)
    requires |k| in {4, 6, 8} && KeysFollow(box.sub, |k|, keys, r)
    requires RoundKey(box, k, 0) == keys(0) && RoundKey(box, k, 1) == keys(1)
    ensures RoundKey(box, k, r) == keys(r)
  {
    if r >= 2 {
      RoundKeysAre(box, k, keys, r - 2);
      RoundKeysAre(box, k, keys, r - 1);
      NextRoundKey(box, k, r);
    }
  }

  // ---------- the rounds ----------

  function FullRound(s: State, k: State): State { Add(Mix(ShiftRows(Sub(SubByte, s))), k) }

  function LastRound(s: State, k: State): State { Add(ShiftRows(Sub(SubByte, s)), k) }

  /** A key addition, a full round and a last round, each as one function. */
  datatype Stages<!B(!new)> = Stages(first: (B, B) -> B, full: (B, B) -> B, last: (B, B) -> B) {
    ghost predicate Of(l: Layers<B>) {
      && (forall s, k {:trigger first(s, k)} :: first(s, k) == l.add(s, k))
      && (forall s, k {:trigger full(s, k)} :: full(s, k) == l.add(l.mix(l.sub(s)), k))
      && (forall s, k {:trigger last(s, k)} :: last(s, k) == l.add(l.sub(s), k))
    }

    /** The states lead from `s` to `end` in `n` full rounds and a last one. */
    ghost predicate Leads(keys: nat -> B, states: nat -> B, s: B, n: nat, end: B) {
      && states(0) == first(s, keys(0)) && Follow(keys, states, n) && last(states(n), keys(n + 1)) == end
    }

    ghost predicate Follow(keys: nat -> B, states: nat -> B, n: nat) {
      forall i: nat :: i < n ==> states(i + 1) == full(states(i), keys(i + 1))
    }

    lemma {:induction false} RoundsAre(l: Layers<B>, k: seq<B>, keys: nat -> B, states: nat -> B, s: B, r: nat)
      requires Of(l) && AreKeys(k, keys) && r < |k| && states(0) == first(s, keys(0)) && Follow(keys, states, r)
      ensures l.Rounds(k, r, s) == states(r)
    {
      if r > 0 {
        RoundsAre(l, k, keys, states, s, r - 1);
      }
    }
  }

  ghost predicate AreKeys<B(!new)>(k: seq<B>, keys: nat -> B) { forall r: nat :: r < |k| ==> k[r] == keys(r) }

  function AesStages(): Stages<State> { Stages(Add, FullRound, LastRound) }

  lemma FullRoundOfAes(box: Box, s: State, k: State)
    requires box.sub == SubByte
    ensures Aes(box).add(Aes(box).mix(Aes(box).sub(s)), k) == FullRound(s, k)
  {
  }

  lemma LastRoundOfAes(box: Box, s: State, k: State)
    requires box.sub == SubByte
    ensures Aes(box).add(Aes(box).sub(s), k) == LastRound(s, k)
  {
  }

  lemma StagesOfAes(box: Box)
    requires box.sub == SubByte
    ensures AesStages().Of(Aes(box))
  {
    forall s, k
      ensures FullRound(s, k) == Aes(box).add(Aes(box).mix(Aes(box).sub(s)), k)
      ensures LastRound(s, k) == Aes(box).add(Aes(box).sub(s), k)
    {
      FullRoundOfAes(box, s, k);
      LastRoundOfAes(box, s, k);
    }
  }

  // ---------- the whole cipher ----------

  lemma KeysAre(box: Box, cols: seq<Col>, keys: nat -> State, rounds: nat, k: seq<State>)
    requires |cols| in {4, 6, 8} && k == RoundKeys(box, cols, rounds) && KeysFollow(box.sub, |cols|, keys, rounds)
    requires RoundKey(box, cols, 0) == keys(0) && RoundKey(box, cols, 1) == keys(1)
    ensures AreKeys(k, keys)
  {
    forall r: nat | r <= rounds ensures k[r] == keys(r) {
      RoundKeysAre(box, cols, keys, r);
    }
  }

  lemma CipherIs(l: Layers<State>, st: Stages<State>, k: seq<State>, keys: nat -> State, states: nat -> State,
                 s: State, end: State)
    requires st.Of(l) && |k| >= 2 && AreKeys(k, keys) && st.Leads(keys, states, s, |k| - 2, end)
    ensures l.Cipher(k, s) == end
  {
    st.RoundsAre(l, k, keys, states, s, |k| - 2);
  }
}
