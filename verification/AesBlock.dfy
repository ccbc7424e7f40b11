/**
 AES_encrypt and AES_decrypt of aes.c (the rolled loops) refine the cipher and the equivalent inverse
 cipher of FIPS 197.
 */
module AesBlock {
  import opened Bytes
  import opened GaloisField
  import opened ProductCipher
  import opened AesCipher
  import opened AesWords
  import opened AesKeySchedule
  import opened AesCode

  // The three kinds of step of AES_encrypt.

  function AddWords(s: Quad<Word>, k: Quad<Word>): Quad<Word> {
    Quad(Xor32(s.w0, k.w0), Xor32(s.w1, k.w1), Xor32(s.w2, k.w2), Xor32(s.w3, k.w3))
  }

  function EncRound(box: Box, s: Quad<Word>, k: Quad<Word>): Quad<Word> {
    Quad(EncColumn(box, s.w0, s.w1, s.w2, s.w3, k.w0), EncColumn(box, s.w1, s.w2, s.w3, s.w0, k.w1),
         EncColumn(box, s.w2, s.w3, s.w0, s.w1, k.w2), EncColumn(box, s.w3, s.w0, s.w1, s.w2, k.w3))
  }

  function EncLastColumn(box: Box, a: Word, b: Word, c: Word, d: Word, k: Word): Word {
    Join(Te4(box, Byte0(a)), Te4(box, Byte1(b)), Te4(box, Byte2(c)), Te4(box, Byte3(d)), k)
  }

  function EncLast(box: Box, t: Quad<Word>, k: Quad<Word>): Quad<Word> {
    Quad(EncLastColumn(box, t.w0, t.w1, t.w2, t.w3, k.w0), EncLastColumn(box, t.w1, t.w2, t.w3, t.w0, k.w1),
         EncLastColumn(box, t.w2, t.w3, t.w0, t.w1, k.w2), EncLastColumn(box, t.w3, t.w0, t.w1, t.w2, k.w3))
  }

  // The steps of AES_decrypt, which takes the columns in the other order.

  function DecRound(box: Box, s: Quad<Word>, k: Quad<Word>): Quad<Word> {
    Quad(DecColumn(box, s.w0, s.w3, s.w2, s.w1, k.w0), DecColumn(box, s.w1, s.w0, s.w3, s.w2, k.w1),
         DecColumn(box, s.w2, s.w1, s.w0, s.w3, k.w2), DecColumn(box, s.w3, s.w2, s.w1, s.w0, k.w3))
  }

  function DecLastColumn(box: Box, a: Word, b: Word, c: Word, d: Word, k: Word): Word {
    Join(Td4(box, Byte0(a)), Td4(box, Byte1(b)), Td4(box, Byte2(c)), Td4(box, Byte3(d)), k)
  }

  function DecLast(box: Box, t: Quad<Word>, k: Quad<Word>): Quad<Word> {
    Quad(DecLastColumn(box, t.w0, t.w3, t.w2, t.w1, k.w0), DecLastColumn(box, t.w1, t.w0, t.w3, t.w2, k.w1),
         DecLastColumn(box, t.w2, t.w1, t.w0, t.w3, k.w2), DecLastColumn(box, t.w3, t.w2, t.w1, t.w0, k.w3))
  }

  lemma AddWordsAdds(s: State, k: State)
    ensures AddWords(PackState(s), PackState(k)) == PackState(Add(s, k))
  {
    PackXor(s.c0, k.c0);
    PackXor(s.c1, k.c1);
    PackXor(s.c2, k.c2);
    PackXor(s.c3, k.c3);
  }

  lemma EncRoundRefines(box: Box, s: State, k: State)
    ensures EncRound(box, PackState(s), PackState(k)) == PackState(Add(Mix(ShiftRows(Sub(box.sub, s))), k))
  {
    EncColumnMixes(box, s.c0, s.c1, s.c2, s.c3, k.c0);
    EncColumnMixes(box, s.c1, s.c2, s.c3, s.c0, k.c1);
    EncColumnMixes(box, s.c2, s.c3, s.c0, s.c1, k.c2);
    EncColumnMixes(box, s.c3, s.c0, s.c1, s.c2, k.c3);
  }

  lemma DecRoundRefines(box: Box, s: State, k: State)
    ensures DecRound(box, PackState(s), PackState(k)) == PackState(Add(InvMix(Sub(box.inv, InvShiftRows(s))), k))
  {
    DecColumnMixes(box, s.c0, s.c3, s.c2, s.c1, k.c0);
    DecColumnMixes(box, s.c1, s.c0, s.c3, s.c2, k.c1);
    DecColumnMixes(box, s.c2, s.c1, s.c0, s.c3, k.c2);
    DecColumnMixes(box, s.c3, s.c2, s.c1, s.c0, k.c3);
  }

  lemma EncLastColumnJoins(box: Box, a: Col, b: Col, c: Col, d: Col, k: Col)
    ensures EncLastColumn(box, Pack(a), Pack(b), Pack(c), Pack(d), Pack(k))
         == Pack(AddCol(Col(box.sub(a.b0), box.sub(b.b1), box.sub(c.b2), box.sub(d.b3)), k))
  {
    UnpackPack(a);
    UnpackPack(b);
    UnpackPack(c);
    UnpackPack(d);
    JoinBytes(box.sub(a.b0), box.sub(b.b1), box.sub(c.b2), box.sub(d.b3), k);
  }

  lemma DecLastColumnJoins(box: Box, a: Col, b: Col, c: Col, d: Col, k: Col)
    ensures DecLastColumn(box, Pack(a), Pack(b), Pack(c), Pack(d), Pack(k))
         == Pack(AddCol(Col(box.inv(a.b0), box.inv(b.b1), box.inv(c.b2), box.inv(d.b3)), k))
  {
    UnpackPack(a);
    UnpackPack(b);
    UnpackPack(c);
    UnpackPack(d);
    JoinBytes(box.inv(a.b0), box.inv(b.b1), box.inv(c.b2), box.inv(d.b3), k);
  }

  lemma EncLastRefines(box: Box, s: State, k: State)
    ensures EncLast(box, PackState(s), PackState(k)) == PackState(Add(ShiftRows(Sub(box.sub, s)), k))
  {
    EncLastColumnJoins(box, s.c0, s.c1, s.c2, s.c3, k.c0);
    EncLastColumnJoins(box, s.c1, s.c2, s.c3, s.c0, k.c1);
    EncLastColumnJoins(box, s.c2, s.c3, s.c0, s.c1, k.c2);
    EncLastColumnJoins(box, s.c3, s.c0, s.c1, s.c2, k.c3);
  }

  lemma DecLastRefines(box: Box, s: State, k: State)
    ensures DecLast(box, PackState(s), PackState(k)) == PackState(Add(Sub(box.inv, InvShiftRows(s)), k))
  {
    DecLastColumnJoins(box, s.c0, s.c3, s.c2, s.c1, k.c0);
    DecLastColumnJoins(box, s.c1, s.c0, s.c3, s.c2, k.c1);
    DecLastColumnJoins(box, s.c2, s.c1, s.c0, s.c3, k.c2);
    DecLastColumnJoins(box, s.c3, s.c2, s.c1, s.c0, k.c3);
  }

  function Encryptor(box: Box): Engine<Word> {
    Engine((s, k) => AddWords(s, k), (s, k) => EncRound(box, s, k), (s, k) => EncLast(box, s, k))
  }

  function Decryptor(box: Box): Engine<Word> {
    Engine((s, k) => AddWords(s, k), (s, k) => DecRound(box, s, k), (s, k) => DecLast(box, s, k))
  }

  const PACK: State -> Quad<Word> := s => PackState(s)

  /** The table lookups of AES_encrypt compute the layers of the cipher. */
  lemma EncryptorRefines(box: Box)
    ensures Encryptor(box).Refines(Aes(box), PACK)
  {
    var e, l := Encryptor(box), Aes(box);
    forall s, k ensures e.add(PACK(s), PACK(k)) == PACK(l.add(s, k)) { AddWordsAdds(s, k); }
    forall s, k ensures e.round(PACK(s), PACK(k)) == PACK(l.add(l.mix(l.sub(s)), k)) { EncRoundRefines(box, s, k); }
    forall s, k ensures e.last(PACK(s), PACK(k)) == PACK(l.add(l.sub(s), k)) { EncLastRefines(box, s, k); }
  }

  /** The table lookups of AES_decrypt compute the inverse layers. */
  lemma DecryptorRefines(box: Box)
    ensures Decryptor(box).Refines(Aes(box).Inverse(), PACK)
  {
    var e, l := Decryptor(box), Aes(box).Inverse();
    forall s, k ensures e.add(PACK(s), PACK(k)) == PACK(l.add(s, k)) { AddWordsAdds(s, k); }
    forall s, k ensures e.round(PACK(s), PACK(k)) == PACK(l.add(l.mix(l.sub(s)), k)) { DecRoundRefines(box, s, k); }
    forall s, k ensures e.last(PACK(s), PACK(k)) == PACK(l.add(l.sub(s), k)) { DecLastRefines(box, s, k); }
  }

  lemma ScheduleWords(rk: seq<Word>, rounds: nat)
    requires 4 * rounds + 4 <= |rk|
    ensures Scheduled(rk, rounds, PACK, Schedule(rk, rounds))
  {
    forall r | 0 <= r <= rounds
      ensures KeyQuad(rk, r) == PACK(Schedule(rk, rounds)[r])
    {
      PackUnpackState(KeyQuad(rk, r));
    }
  }

  /** The sixteen bytes at `i`, column by column. */
  function StateAt(b: seq<Byte>, i: nat): State
    requires i + 16 <= |b|
  {
    State(ColAt(b, i), ColAt(b, i + 4), ColAt(b, i + 8), ColAt(b, i + 12))
  }

  /** PUTU32 */
  method PutWord(out: array<Byte>, p: nat, w: Word)
    requires p + 4 <= out.Length
    modifies out
    ensures ColAt(out[..], p) == Unpack(w)
    ensures forall m :: 0 <= m < p || p + 4 <= m < out.Length ==> out[m] == old(out[m])
  {
    out[p], out[p + 1], out[p + 2], out[p + 3] := Byte0(w), Byte1(w), Byte2(w), Byte3(w);
  }

  ghost predicate Packs(pack: State -> Quad<Word>) {
    forall s {:trigger PackState(s)} :: pack(s) == PackState(s)
  }

  method GetWords(src: array<Byte>, i: nat, ghost pack: State -> Quad<Word>) returns (q: Quad<Word>)
    requires i + 16 <= src.Length && Packs(pack)
    ensures q == pack(StateAt(src[..], i))
  {
    q := PackState(StateAt(src[..], i));
  }

  method PutWords(out: array<Byte>, p: nat, q: Quad<Word>, ghost pack: State -> Quad<Word>, ghost s: State)
    requires p + 16 <= out.Length && Packs(pack) && q == pack(s)
    modifies out
    ensures StateAt(out[..], p) == s
    ensures forall m :: 0 <= m < p || p + 16 <= m < out.Length ==> out[m] == old(out[m])
  {
    UnpackPackState(s);
    PutWord(out, p, q.w0);
    PutWord(out, p + 4, q.w1);
    PutWord(out, p + 8, q.w2);
    PutWord(out, p + 12, q.w3);
  }

  /**
   What AES_encrypt and AES_decrypt work with: the tables of aes.c, seen through the steps they
   implement and the layers of FIPS 197 those steps compute, and an AES_KEY with its round keys.
   aes.c sets 10, 12 or 14 rounds; here any even number will do.
   */
  datatype Context = Context(enc: Engine<Word>, dec: Engine<Word>, layers: Layers<State>, pack: State -> Quad<Word>,
                             rk: seq<Word>, rounds: nat, keys: seq<State>) {
    ghost predicate Valid() {
      && layers.Laws() && enc.Refines(layers, pack) && dec.Refines(layers.Inverse(), pack) && Packs(pack)
      && rounds >= 2 && rounds % 2 == 0 && Scheduled(rk, rounds, pack, keys)
    }
  }

  type Ready = c: Context | c.Valid() ghost witness Idle()

  /** A valid context: a cipher that does nothing, with keys of zeroes. */
  ghost function Idle(): (c: Context)
    ensures c.Valid()
  {
    var same: State -> State := s => s;
    var keep: (Quad<Word>, Quad<Word>) -> Quad<Word> := (s, k) => s;
    var rk := seq(12, _ => Word(0));
    ScheduleWords(rk, 2);
    var l := Layers((s: State, k: State) => s, same, same, same, same);
    Context(Engine(keep, keep, keep), Engine(keep, keep, keep), l, PACK, rk, 2, Schedule(rk, 2))
  }

  /** The tables of an S-box implement these layers. */
  ghost predicate Implements(box: Box, l: Layers<State>) {
    box.Valid() && l.Laws() && Unmixing(l) && Encryptor(box).Refines(l, PACK)
    && Decryptor(box).Refines(l.Inverse(), PACK)
  }

  /** The tables of aes.c implement the layers of AES. */
  lemma TablesImplementAes(box: Box)
    requires box.Valid()
    ensures Implements(box, Aes(box))
  {
    AesLaws(box);
    EncryptorRefines(box);
    DecryptorRefines(box);
  }

  /** The context of a key that has been set, with the tables of an S-box. */
  function ContextOf(box: Box, l: Layers<State>, rk: seq<Word>, rounds: nat): (c: Context)
    requires Implements(box, l) && rounds >= 2 && rounds % 2 == 0 && 4 * rounds + 4 <= |rk|
    ensures c.Valid() && c.layers == l && c.keys == Schedule(rk, rounds)
  {
    ScheduleWords(rk, rounds);
    Context(Encryptor(box), Decryptor(box), l, PACK, rk, rounds, Schedule(rk, rounds))
  }

  /**
   `AES_encrypt`: writes the cipher of the block at `i` of `src` to `p` of `out`, and nothing else.
   The two places may overlap.
   */
  method Encrypt(src: array<Byte>, i: nat, out: array<Byte>, p: nat, c: Ready)
    requires i + 16 <= src.Length && p + 16 <= out.Length
    modifies out
    ensures StateAt(out[..], p) == c.layers.Cipher(c.keys, old(StateAt(src[..], i)))
    ensures forall m :: 0 <= m < p || p + 16 <= m < out.Length ==> out[m] == old(out[m])
  {
    ghost var block := StateAt(src[..], i);
    var s := GetWords(src, i, c.pack);
    s := c.enc.Crypt(c.rk, c.rounds, s, c.layers, c.pack, c.keys, block);
    PutWords(out, p, s, c.pack, c.layers.Cipher(c.keys, block));
  }

  /** `AES_decrypt`: the equivalent inverse cipher, in the same way. */
  method Decrypt(src: array<Byte>, i: nat, out: array<Byte>, p: nat, c: Ready)
    requires i + 16 <= src.Length && p + 16 <= out.Length
    modifies out
    ensures StateAt(out[..], p) == c.layers.EqInvCipher(c.keys, old(StateAt(src[..], i)))
    ensures forall m :: 0 <= m < p || p + 16 <= m < out.Length ==> out[m] == old(out[m])
  {
    ghost var block := StateAt(src[..], i);
    var s := GetWords(src, i, c.pack);
    s := c.dec.Crypt(c.rk, c.rounds, s, c.layers.Inverse(), c.pack, c.keys, block);
    PutWords(out, p, s, c.pack, c.layers.EqInvCipher(c.keys, block));
  }
}
