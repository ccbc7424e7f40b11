/**
 The code of aes.c on the examples of appendices C.1 to C.3 of FIPS 197: a user key, `AES_set_encrypt_key` and
 `AES_encrypt`.
 */
module AesExamples {
  import opened GaloisField
  import opened ProductCipher
  import opened AesCipher
  import opened AesKeySchedule
  import opened AesCode
  import opened AesBlock
  import opened AesResult
  import AesSbox
  import opened AesVector
  import A = AesVector128
  import B = AesVector192
  import C = AesVector256

  /** The key of the example for this size. */
  function UserKey(bits: int): (key: seq<Byte>)
    requires KeySize(bits)
    ensures 8 * |key| == bits
  {
    if bits == 128 then A.UserKey() else if bits == 192 then B.UserKey() else C.UserKey()
  }

  function Encrypted(bits: int): State {
    if bits == 128 then A.Encrypted() else if bits == 192 then B.Encrypted() else C.Encrypted()
  }

  /** Under the user key the cipher maps the block to `end`. */
  predicate Gives(box: Box, l: Layers<State>, userKey: seq<Byte>, bits: int, block: seq<Byte>, end: State) {
    && KeySize(bits) && bits <= 8 * |userKey| && |block| == 16
    && l.Cipher(RoundKeys(box, KeyCols(userKey, bits / 32), bits / 32 + 6), StateAt(block, 0)) == end
  }

  lemma GivesBy(box: Box, l: Layers<State>, userKey: seq<Byte>, bits: int, block: seq<Byte>, k: seq<State>, s: State)
    requires KeySize(bits) && bits <= 8 * |userKey| && |block| == 16 && StateAt(block, 0) == s
    requires k == RoundKeys(box, KeyCols(userKey, bits / 32), bits / 32 + 6)
    ensures Gives(box, l, userKey, bits, block, l.Cipher(k, s))
  {
  }

  lemma Example128(box: Box, l: Layers<State>)
    requires box.sub == AesSbox.SubByte && AesStages().Of(l)
    ensures Gives(box, l, A.UserKey(), 128, PlainBytes(), A.Encrypted())
  {
    var k := RoundKeys(box, KeyCols(A.UserKey(), 4), 10);
    A.ExampleKeys(box, k);
    A.ExampleCipher(l, k);
    ExampleBlock();
    GivesBy(box, l, A.UserKey(), 128, PlainBytes(), k, Plain());
  }

  lemma Example192(box: Box, l: Layers<State>)
    requires box.sub == AesSbox.SubByte && AesStages().Of(l)
    ensures Gives(box, l, B.UserKey(), 192, PlainBytes(), B.Encrypted())
  {
    var k := RoundKeys(box, KeyCols(B.UserKey(), 6), 12);
    B.ExampleKeys(box, k);
    B.ExampleCipher(l, k);
    ExampleBlock();
    GivesBy(box, l, B.UserKey(), 192, PlainBytes(), k, Plain());
  }

  lemma Example256(box: Box, l: Layers<State>)
    requires box.sub == AesSbox.SubByte && AesStages().Of(l)
    ensures Gives(box, l, C.UserKey(), 256, PlainBytes(), C.Encrypted())
  {
    var k := RoundKeys(box, KeyCols(C.UserKey(), 8), 14);
    C.ExampleKeys(box, k);
    C.ExampleCipher(l, k);
    ExampleBlock();
    GivesBy(box, l, C.UserKey(), 256, PlainBytes(), k, Plain());
  }

  /** The cipher has the known answers of FIPS 197, for each key size. */
  lemma Examples(box: Box, l: Layers<State>, bits: int)
    requires box.sub == AesSbox.SubByte && AesStages().Of(l) && KeySize(bits)
    ensures Gives(box, l, UserKey(bits), bits, PlainBytes(), Encrypted(bits))
  {
    if bits == 128 {
      Example128(box, l);
    } else if bits == 192 {
      Example192(box, l);
    } else {
      Example256(box, l);
    }
  }

  /** `AES_set_encrypt_key` and `AES_encrypt`. */
  method EncryptBlock(box: Box, l: Layers<State>, userKey: seq<Byte>, bits: int, block: seq<Byte>, ghost end: State)
    returns (out: array<Byte>)
    requires Implements(box, l) && Gives(box, l, userKey, bits, block, end)
    ensures out.Length == 16 && StateAt(out[..], 0) == end
  {
    var c := EncryptionContext(box, l, userKey, bits);
    var src := NewVector(block);
    out := new Byte[16](_ => ZERO);
    Encrypt(src, 0, out, 0, c);
  }

  /** For each key size, the code gives the ciphertext of FIPS 197. */
  method EncryptExample(bits: int) returns (out: array<Byte>)
    requires KeySize(bits)
    ensures out.Length == 16 && StateAt(out[..], 0) == Encrypted(bits)
  {
    var box := AesSbox.Rijndael();
    TablesImplementAes(box);
    StagesOfAes(box);
    Examples(box, Aes(box), bits);
    out := EncryptBlock(box, Aes(box), UserKey(bits), bits, PlainBytes(), Encrypted(bits));
  }
}
