/**
 What aes.c promises as a whole: decryption undoes encryption, for a block and in CBC mode, with the
 schedules its own functions set.
 */
module AesResult {
  import opened Bytes
  import opened GaloisField
  import opened ProductCipher
  import opened AesCipher
  import opened AesKeySchedule
  import opened AesCode
  import opened AesBlock
  import opened ChainingMode
  import opened BlockBuffers
  import opened AesCbc
  import AesSbox
  import AesVector
  import V = AesVector128
  import opened Units

  /** The equivalent inverse cipher with the reversed keys undoes the cipher, and the other way round. */
  lemma CiphersInvert(l: Layers<State>, k: seq<State>, d: seq<State>, s: State)
    requires l.Laws() && l.Reversed(k, d)
    ensures l.EqInvCipher(d, l.Cipher(k, s)) == s
    ensures l.Cipher(k, l.EqInvCipher(d, s)) == s
  {
    l.EquivalentInverse(k, d, l.Cipher(k, s));
    l.InvCipherUndoes(k, s);
    l.EquivalentInverse(k, d, s);
    l.CipherUndoes(k, s);
  }

  lemma WholeBlocksAre(b: seq<Byte>, c: seq<State>, n: nat)
    requires Holds(b, c, n) && |c| == n
    ensures WholeBlocks(b, n) == c
  {
  }

  /** The bytes of a buffer whose blocks are those of `b` filled with zeroes. */
  lemma BlockBytes(b: seq<Byte>, length: nat, out: seq<Byte>, k: nat, q: nat)
    requires length <= |b| && 16 * k <= length && k <= BlockCount(length) && Holds(out, Blocks(b, length), k)
             && q < 16 * k
    ensures out[q] == b[q]
  {
    var j, r := q / 16, q % 16;
    ByteOfAt(out, 16 * j, r);
    ByteOfPadded(b, length, 16 * j, r);
  }

  lemma TailBytes(b: seq<Byte>, length: nat, out: seq<Byte>, k: nat, len: nat, q: nat)
    requires length <= |b| && 16 * k + len == length && len < 16
    requires Starts(out, 16 * k, len, PaddedState(b, length, 16 * k)) && 16 * k <= q < length
    ensures out[q] == b[q]
  {
    ByteOfPadded(b, length, 16 * k, q - 16 * k);
  }

  /** Decrypting what was encrypted from `b` with the same initial vector gives back every byte of `b`. */
  lemma CbcRestores(m: Mode<State>, iv: State, b: seq<Byte>, length: nat, enc0: seq<Byte>, enc: seq<Byte>, iv1: State,
                    out0: seq<Byte>, out: seq<Byte>, iv2: State)
    requires m.Laws() && EncResult(m, iv, b, length, enc0, enc, iv1)
    requires DecResult(m, iv, WholeBlocks(enc, BlockCount(length)), length / 16, length % 16, out0, out, iv2)
    ensures length <= |b| && length <= |out| && out[..length] == b[..length]
  {
    var p, k := Blocks(b, length), length / 16;
    var c := m.Ciphertext(iv, p);
    WholeBlocksAre(enc, c, BlockCount(length));
    m.RoundTrip(iv, p);
    forall q | 0 <= q < length
      ensures out[q] == b[q]
    {
      if q < 16 * k {
        BlockBytes(b, length, out, k, q);
      } else {
        assert m.Plaintext(iv, c)[k] == p[k];
        TailBytes(b, length, out, k, length % 16, q);
      }
    }
  }

  /**
   Both directions leave the same vector for whole blocks. After a partial block they do just when the
   cipher maps the last block it was given to itself.
   */
  lemma VectorsAgree(m: Mode<State>, iv: State, b: seq<Byte>, length: nat, enc0: seq<Byte>, enc: seq<Byte>, iv1: State,
                     out0: seq<Byte>, out: seq<Byte>, iv2: State)
    requires m.Laws() && EncResult(m, iv, b, length, enc0, enc, iv1)
    requires DecResult(m, iv, WholeBlocks(enc, BlockCount(length)), length / 16, length % 16, out0, out, iv2)
    ensures length % 16 == 0 ==> iv1 == iv2
    ensures length % 16 != 0
            ==> (iv1 == iv2 <==> m.enc(m.LastInput(iv, Blocks(b, length))) == m.LastInput(iv, Blocks(b, length)))
  {
    var p := Blocks(b, length);
    WholeBlocksAre(enc, m.Ciphertext(iv, p), BlockCount(length));
    LastBlock(length / 16, length % 16, length);
    if length % 16 == 0 {
      m.RoundTrip(iv, p);
    } else {
      m.LastBlocks(iv, p);
    }
  }

  /** One byte, and a vector that the cipher does not map to itself: the two directions leave different vectors. */
  lemma VectorsDiffer(m: Mode<State>, iv: State, b: seq<Byte>, enc0: seq<Byte>, enc: seq<Byte>, iv1: State,
                      out0: seq<Byte>, out: seq<Byte>, iv2: State)
    requires m.Laws() && m.add(ZeroState(), iv) == iv && m.enc(iv) != iv && |b| > 0 && b[0] == ZERO
    requires EncResult(m, iv, b, 1, enc0, enc, iv1) && DecResult(m, iv, WholeBlocks(enc, 1), 0, 1, out0, out, iv2)
    ensures iv1 != iv2
  {
    VectorsAgree(m, iv, b, 1, enc0, enc, iv1, out0, out, iv2);
    var p := Blocks(b, 1);
    assert |p| == 1 && m.LastInput(iv, p) == m.add(p[0], iv);
    OneZero(b);
  }

  function ZeroState(): State {
    var c := Col(ZERO, ZERO, ZERO, ZERO);
    State(c, c, c, c)
  }

  lemma OneZero(b: seq<Byte>)
    requires |b| > 0 && b[0] == ZERO
    ensures Blocks(b, 1)[0] == ZeroState()
  {
  }

  lemma AddZero(s: State)
    ensures Add(ZeroState(), s) == s
  {
  }

  /** AES contexts for the two directions of one user key make a lawful mode. */
  lemma KeysInvert(e: Context, d: Context, m: Mode<State>)
    requires Session(e, m).Encrypts() && Session(d, m).Decrypts()
    requires e.layers == d.layers && e.layers.Reversed(e.keys, d.keys)
    ensures m.Laws()
  {
    forall s, k ensures m.add(m.add(s, k), k) == s {
      AddCancel(s, k);
    }
    forall s ensures m.dec(m.enc(s)) == s {
      CiphersInvert(e.layers, e.keys, d.keys, s);
    }
  }

  /** The context that `AES_set_encrypt_key` makes of a user key. */
  method EncryptionContext(box: Box, l: Layers<State>, userKey: seq<Byte>, bits: int) returns (e: Context)
    requires Implements(box, l) && KeySize(bits) && bits <= 8 * |userKey|
    ensures e.Valid() && e.layers == l && e.keys == RoundKeys(box, KeyCols(userKey, bits / 32), bits / 32 + 6)
  {
    var key := new Key(box);
    var status := key.SetEncryptKey(Some(userKey), bits);
    e := ContextOf(box, l, key.rdKey[..], key.rounds);
  }

  /** The context that `AES_set_decrypt_key` makes of a user key. */
  method DecryptionContext(box: Box, l: Layers<State>, userKey: seq<Byte>, bits: int) returns (d: Context)
    requires Implements(box, l) && KeySize(bits) && bits <= 8 * |userKey|
    ensures d.Valid() && d.layers == l
            && d.layers.Reversed(RoundKeys(box, KeyCols(userKey, bits / 32), bits / 32 + 6), d.keys)
  {
    var key := new Key(box);
    var status := key.SetDecryptKey(Some(userKey), bits, l);
    d := ContextOf(box, l, key.rdKey[..], key.rounds);
  }

  /** The two contexts of one user key. */
  method Contexts(box: Box, l: Layers<State>, userKey: seq<Byte>, bits: int) returns (e: Ready, d: Ready)
    requires Implements(box, l) && KeySize(bits) && bits <= 8 * |userKey|
    ensures e.layers == d.layers && e.layers.Reversed(e.keys, d.keys)
    ensures e.layers == l && e.keys == RoundKeys(box, KeyCols(userKey, bits / 32), bits / 32 + 6)
  {
    e := EncryptionContext(box, l, userKey, bits);
    d := DecryptionContext(box, l, userKey, bits);
  }

  /** The CBC mode of a pair of contexts. */
  function ModeOf(e: Ready, d: Ready): (m: Mode<State>)
    ensures Session(e, m).Encrypts() && Session(d, m).Decrypts()
  {
    Mode((s, k) => Add(s, k), s => e.layers.Cipher(e.keys, s), s => d.layers.EqInvCipher(d.keys, s))
  }

  method NewVector(iv: seq<Byte>) returns (ivec: array<Byte>)
    requires |iv| == 16
    ensures fresh(ivec) && ivec.Length == 16 && ivec[..] == iv
  {
    ivec := new Byte[16](i requires 0 <= i < 16 => iv[i]);
  }

  /** Encrypting in place and decrypting in place with the same initial vector, for every length. */
  method Restore(e: Encryption, d: Decryption, buf: array<Byte>, length: nat, iv: seq<Byte>)
    requires e.m == d.m && e.m.Laws() && |iv| == 16 && 16 * BlockCount(length) <= buf.Length
    modifies buf
    ensures buf[..length] == old(buf[..length])
  {
    var ivec := NewVector(iv);
    ghost var b, iv0 := buf[..], StateAt(iv, 0);
    CbcEncrypt(e, buf, buf, length, ivec);
    ghost var c, iv1 := buf[..], StateAt(ivec[..], 0);
    var ivec' := NewVector(iv);
    CbcDecrypt(d, buf, buf, length, ivec');
    CbcRestores(e.m, iv0, b, length, b, c, iv1, c, buf[..], StateAt(ivec'[..], 0));
  }

  /**
   A user key of any size, any length and any initial vector: `AES_set_encrypt_key`,
   `AES_cbc_encrypt` in place, `AES_set_decrypt_key` and `AES_cbc_encrypt` back in place restore the buffer.
   */
  method CbcInPlace(box: Box, l: Layers<State>, userKey: seq<Byte>, bits: int, buf: array<Byte>, length: nat,
      iv: seq<Byte>)
    requires Implements(box, l) && KeySize(bits) && bits <= 8 * |userKey| && |iv| == 16
             && 16 * BlockCount(length) <= buf.Length
    modifies buf
    ensures buf[..length] == old(buf[..length])
  {
    var e, d := Contexts(box, l, userKey, bits);
    var m := ModeOf(e, d);
    KeysInvert(e, d, m);
    Restore(Session(e, m), Session(d, m), buf, length, iv);
  }

  /** The same, with the S-box of AES. */
  method AesCbcInPlace(userKey: seq<Byte>, bits: int, buf: array<Byte>, length: nat, iv: seq<Byte>)
    requires KeySize(bits) && bits <= 8 * |userKey| && |iv| == 16 && 16 * BlockCount(length) <= buf.Length
    modifies buf
    ensures buf[..length] == old(buf[..length])
  {
    var box := AesSbox.Rijndael();
    TablesImplementAes(box);
    CbcInPlace(box, Aes(box), userKey, bits, buf, length, iv);
  }

  /** Encrypt and decrypt one byte with the same initial vector; `enc` and `dec` are the vectors left. */
  method OneByte(e: Encryption, d: Decryption, iv: seq<Byte>) returns (enc: array<Byte>, dec: array<Byte>)
    requires e.m == d.m && e.m.Laws() && |iv| == 16 && e.m.enc(StateAt(iv, 0)) != StateAt(iv, 0)
    ensures enc.Length == 16 && dec.Length == 16 && enc[..] != dec[..]
  {
    enc := NewVector(iv);
    var buf := new Byte[16](_ => ZERO);
    ghost var b, iv0 := buf[..], StateAt(iv, 0);
    CbcEncrypt(e, buf, buf, 1, enc);
    ghost var c, iv1 := buf[..], StateAt(enc[..], 0);
    dec := NewVector(iv);
    CbcDecrypt(d, buf, buf, 1, dec);
    SessionAddsZero(e, iv0);
    VectorsDiffer(e.m, iv0, b, b, c, iv1, c, buf[..], StateAt(dec[..], 0));
  }

  lemma SessionAddsZero(e: Encryption, s: State)
    ensures e.m.add(ZeroState(), s) == s
  {
    AddZero(s);
  }

  /** Under the user key, the cipher does not map the vector to itself. */
  predicate Moves(box: Box, l: Layers<State>, userKey: seq<Byte>, bits: int, iv: seq<Byte>) {
    && KeySize(bits) && bits <= 8 * |userKey| && |iv| == 16
    && l.Cipher(RoundKeys(box, KeyCols(userKey, bits / 32), bits / 32 + 6), StateAt(iv, 0)) != StateAt(iv, 0)
  }

  /** The two directions leave different vectors for any key and vector such that the cipher moves the vector. */
  method MovedVectors(box: Box, l: Layers<State>, userKey: seq<Byte>, bits: int, iv: seq<Byte>)
    returns (enc: array<Byte>, dec: array<Byte>)
    requires Implements(box, l) && Moves(box, l, userKey, bits, iv)
    ensures enc.Length == 16 && dec.Length == 16 && enc[..] != dec[..]
  {
    var e, d := Contexts(box, l, userKey, bits);
    var m := ModeOf(e, d);
    KeysInvert(e, d, m);
    enc, dec := OneByte(Session(e, m), Session(d, m), iv);
  }

  /** The block of appendix C.1 of FIPS 197 is not mapped to itself under its key. */
  lemma ExampleMoves(box: Box, l: Layers<State>)
    requires box.sub == AesSbox.SubByte && AesVector.AesStages().Of(l)
    ensures Moves(box, l, V.UserKey(), 128, AesVector.PlainBytes())
  {
    var k := RoundKeys(box, KeyCols(V.UserKey(), 4), 10);
    V.ExampleKeys(box, k);
    V.ExampleCipher(l, k);
    V.NotFixed();
    ExampleBlock();
    MovesBy(box, l, V.UserKey(), AesVector.PlainBytes(), AesVector.Plain(), V.Encrypted());
  }

  lemma MovesBy(box: Box, l: Layers<State>, userKey: seq<Byte>, iv: seq<Byte>, s: State, end: State)
    requires |userKey| == 16 && |iv| == 16 && StateAt(iv, 0) == s
    requires l.Cipher(RoundKeys(box, KeyCols(userKey, 4), 10), s) == end != s
    ensures Moves(box, l, userKey, 128, iv)
  {
  }

  lemma ExampleBlock()
    ensures StateAt(AesVector.PlainBytes(), 0) == AesVector.Plain()
  {
  }

  /**
   An input for which they do differ: the key and the block of appendix C.1 of FIPS 197 as initial vector, and a
   buffer that holds one byte.
   */
  method DifferentVectors() returns (enc: array<Byte>, dec: array<Byte>)
    ensures enc.Length == 16 && dec.Length == 16 && enc[..] != dec[..]
  {
    var box := AesSbox.Rijndael();
    TablesImplementAes(box);
    AesVector.StagesOfAes(box);
    ExampleMoves(box, Aes(box));
    enc, dec := MovedVectors(box, Aes(box), V.UserKey(), 128, AesVector.PlainBytes());
  }
}
