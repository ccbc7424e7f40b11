/**
 AES_cbc_encrypt of aes.c in both directions, on separate buffers or in place, for every length.
 */
module AesCbc {
  import opened GaloisField
  import opened ProductCipher
  import opened AesCipher
  import opened AesCode
  import opened AesBlock
  import opened ChainingMode
  import opened BlockBuffers
  import opened Units

  /** An AES context, and the chaining mode it serves. */
  datatype Session = Session(c: Context, m: Mode<State>) {
    /** The mode adds bytewise and encrypts with the cipher under the keys of the context. */
    ghost predicate Encrypts() {
      && c.Valid()
      && (forall s, k {:trigger Add(s, k)} :: m.add(s, k) == Add(s, k))
      && (forall s {:trigger c.layers.Cipher(c.keys, s)} :: m.enc(s) == c.layers.Cipher(c.keys, s))
    }

    /** The mode adds bytewise and decrypts with the equivalent inverse cipher. */
    ghost predicate Decrypts() {
      && c.Valid()
      && (forall s, k {:trigger Add(s, k)} :: m.add(s, k) == Add(s, k))
      && (forall s {:trigger c.layers.EqInvCipher(c.keys, s)} :: m.dec(s) == c.layers.EqInvCipher(c.keys, s))
    }
  }

  type Encryption = s: Session | s.Encrypts() ghost witness IdleSession()

  type Decryption = s: Session | s.Decrypts() ghost witness IdleSession()

  ghost function IdleSession(): (s: Session)
    ensures s.Encrypts() && s.Decrypts()
  {
    var c := Idle();
    Session(c, Mode((s, k) => Add(s, k), s => c.layers.Cipher(c.keys, s), s => c.layers.EqInvCipher(c.keys, s)))
  }

  /** After `k` blocks, `i` bytes: the ciphertext so far, the vector, and what is not yet read or written. */
  ghost predicate EncProgress(m: Mode<State>, iv: State, b: seq<Byte>, length: nat, out0: seq<Byte>, src: seq<Byte>,
      out: seq<Byte>, ivec: State, k: nat, i: nat)
  {
    && |src| == |b| && |out| == |out0| && length <= |b| && k <= BlockCount(length) && i == 16 * k
    && (forall q :: i <= q < |b| ==> src[q] == b[q])
    && (forall q :: i <= q < |out| ==> out[q] == out0[q])
    && Holds(out, m.Ciphertext(iv, Blocks(b, length)), k)
    && ivec == m.Chain(iv, Blocks(b, length), k)
  }

  lemma EncBlock(m: Mode<State>, iv: State, b: seq<Byte>, length: nat, out0: seq<Byte>, src: seq<Byte>, out: seq<Byte>,
      ivec: State, k: nat, i: nat, src': seq<Byte>, out': seq<Byte>, ivec': State)
    requires EncProgress(m, iv, b, length, out0, src, out, ivec, k, i) && i < length && i + 16 <= |out|
    requires |src'| == |b| && |out'| == |out|
    requires forall q :: 0 <= q < i || i + 16 <= q < |b| ==> src'[q] == src[q]
    requires forall q :: 0 <= q < i || i + 16 <= q < |out| ==> out'[q] == out[q]
    requires StateAt(out', i) == m.enc(m.add(PaddedState(src, length, i), ivec))
    requires ivec' == StateAt(out', i)
    ensures EncProgress(m, iv, b, length, out0, src', out', ivec', k + 1, i + 16)
  {
    PaddedSame(src, b, length, i);
    HoldsNext(out, out', m.Ciphertext(iv, Blocks(b, length)), k);
  }

  /** What `AES_cbc_encrypt` leaves: the ciphertext, the vector, and the output beyond it unchanged. */
  ghost predicate EncResult(m: Mode<State>, iv: State, b: seq<Byte>, length: nat, out0: seq<Byte>, out: seq<Byte>,
      ivec: State)
  {
    && length <= |b| && |out| == |out0|
    && Holds(out, m.Ciphertext(iv, Blocks(b, length)), BlockCount(length))
    && ivec == m.Chain(iv, Blocks(b, length), BlockCount(length))
    && (forall q :: 16 * BlockCount(length) <= q < |out| ==> out[q] == out0[q])
  }

  lemma EncDone(m: Mode<State>, iv: State, b: seq<Byte>, length: nat, out0: seq<Byte>, src: seq<Byte>, out: seq<Byte>,
      ivec: State, k: nat, i: nat)
    requires EncProgress(m, iv, b, length, out0, src, out, ivec, k, i) && length <= i
    ensures EncResult(m, iv, b, length, out0, out, ivec)
  {
    assert k == BlockCount(length);
  }

  lemma BlockFits(k: nat, length: nat)
    requires 16 * k < length
    ensures k < BlockCount(length) && 16 * k + 16 <= 16 * BlockCount(length)
  {
  }

  /** One iteration of the encryption loop: the block at `i`, chained with `ivec`. */
  method EncryptWhole(e: Encryption, src: array<Byte>, out: array<Byte>, i: nat, length: nat, ivec: array<Byte>,
      tmp: array<Byte>, ghost iv: State, ghost b: seq<Byte>, ghost out0: seq<Byte>, ghost k: nat)
    requires i < length <= src.Length && i + 16 <= out.Length && ivec.Length == tmp.Length == 16
    requires ivec != src && ivec != out && tmp != src && tmp != out && tmp != ivec
    requires EncProgress(e.m, iv, b, length, out0, src[..], out[..], StateAt(ivec[..], 0), k, i)
    modifies out, ivec, tmp
    ensures EncProgress(e.m, iv, b, length, out0, src[..], out[..], StateAt(ivec[..], 0), k + 1, i + 16)
  {
    ghost var src1, out1, ivec1 := src[..], out[..], StateAt(ivec[..], 0);
    XorBlock(tmp, src, i, length, ivec);
    Encrypt(tmp, 0, out, i, e.c);
    CopyBlock(ivec, 0, out, i);
    EncBlock(e.m, iv, b, length, out0, src1, out1, ivec1, k, i, src[..], out[..], StateAt(ivec[..], 0));
  }

  /** The last, partial block: encrypted in `tmp` and copied out whole. */
  method EncryptTail(e: Encryption, src: array<Byte>, out: array<Byte>, i: nat, length: nat, ivec: array<Byte>,
      tmp: array<Byte>, ghost iv: State, ghost b: seq<Byte>, ghost out0: seq<Byte>, ghost k: nat)
    requires i < length <= src.Length && i + 16 <= out.Length && ivec.Length == tmp.Length == 16
    requires ivec != src && ivec != out && tmp != src && tmp != out && tmp != ivec
    requires EncProgress(e.m, iv, b, length, out0, src[..], out[..], StateAt(ivec[..], 0), k, i)
    modifies out, ivec, tmp
    ensures EncProgress(e.m, iv, b, length, out0, src[..], out[..], StateAt(ivec[..], 0), k + 1, i + 16)
  {
    ghost var src1, out1, ivec1 := src[..], out[..], StateAt(ivec[..], 0);
    XorBlock(tmp, src, i, length, ivec);
    Encrypt(tmp, 0, tmp, 0, e.c);
    CopyBlock(out, i, tmp, 0);
    CopyBlock(ivec, 0, tmp, 0);
    EncBlock(e.m, iv, b, length, out0, src1, out1, ivec1, k, i, src[..], out[..], StateAt(ivec[..], 0));
  }

  /**
   `AES_cbc_encrypt` with `enc` set. The output is the chained ciphertext of the zero-filled input,
   so up to fifteen bytes longer than it, and `ivec` ends as the last ciphertext block.
   */
  method CbcEncrypt(e: Encryption, src: array<Byte>, out: array<Byte>, length: nat, ivec: array<Byte>)
    requires length <= src.Length && 16 * BlockCount(length) <= out.Length && ivec.Length == 16 && ivec != src
             && ivec != out
    modifies out, ivec
    ensures EncResult(e.m, old(StateAt(ivec[..], 0)), old(src[..]), length, old(out[..]), out[..], StateAt(ivec[..], 0))
  {
    var tmp := new Byte[16](_ => ZERO);
    var len, i := length, 0;
    ghost var k, b, out0, iv := 0, src[..], out[..], StateAt(ivec[..], 0);
    while len >= 16
      invariant i + len == length && tmp != src && tmp != out && tmp != ivec
      invariant EncProgress(e.m, iv, b, length, out0, src[..], out[..], StateAt(ivec[..], 0), k, i)
    {
      BlockFits(k, length);
      EncryptWhole(e, src, out, i, length, ivec, tmp, iv, b, out0, k);
      len, i, k := len - 16, i + 16, k + 1;
    }
    if len > 0 {
      BlockFits(k, length);
      EncryptTail(e, src, out, i, length, ivec, tmp, iv, b, out0, k);
      k, i := k + 1, i + 16;
    }
    EncDone(e.m, iv, b, length, out0, src[..], out[..], StateAt(ivec[..], 0), k, i);
  }

  /** After decrypting `k` blocks, `i` bytes. The ciphertext is `c`, read from the buffer `b`. */
  ghost predicate DecProgress(m: Mode<State>, iv: State, b: seq<Byte>, c: seq<State>, out0: seq<Byte>, src: seq<Byte>,
      out: seq<Byte>, ivec: State, k: nat, i: nat)
  {
    && |src| == |b| && |out| == |out0| && 16 * |c| <= |b| && c == WholeBlocks(b, |c|) && k <= |c| && i == 16 * k
    && (forall q :: i <= q < |b| ==> src[q] == b[q])
    && (forall q :: i <= q < |out| ==> out[q] == out0[q])
    && Holds(out, m.Plaintext(iv, c), k)
    && ivec == if k == 0 then iv else c[k - 1]
  }

  lemma DecBlock(m: Mode<State>, iv: State, b: seq<Byte>, c: seq<State>, out0: seq<Byte>, src: seq<Byte>,
      out: seq<Byte>, ivec: State, k: nat, i: nat, src': seq<Byte>, out': seq<Byte>, ivec': State)
    requires DecProgress(m, iv, b, c, out0, src, out, ivec, k, i) && k < |c| && i + 16 <= |out|
    requires |src'| == |b| && |out'| == |out|
    requires forall q :: 0 <= q < i || i + 16 <= q < |b| ==> src'[q] == src[q]
    requires forall q :: 0 <= q < i || i + 16 <= q < |out| ==> out'[q] == out[q]
    requires ivec' == StateAt(src, i)
    requires StateAt(out', i) == m.add(m.dec(StateAt(src, i)), ivec)
    ensures DecProgress(m, iv, b, c, out0, src', out', ivec', k + 1, i + 16)
  {
    StateAtSame(src, i, b, i);
    HoldsNext(out, out', m.Plaintext(iv, c), k);
  }

  /** One iteration of the decryption loop. */
  method DecryptWhole(d: Decryption, src: array<Byte>, out: array<Byte>, i: nat, ivec: array<Byte>, tmp: array<Byte>,
      ghost iv: State, ghost b: seq<Byte>, ghost c: seq<State>, ghost out0: seq<Byte>, ghost k: nat)
    requires i + 16 <= src.Length && i + 16 <= out.Length && ivec.Length == tmp.Length == 16 && k < |c|
    requires ivec != src && ivec != out && tmp != src && tmp != out && tmp != ivec
    requires DecProgress(d.m, iv, b, c, out0, src[..], out[..], StateAt(ivec[..], 0), k, i)
    modifies out, ivec, tmp
    ensures DecProgress(d.m, iv, b, c, out0, src[..], out[..], StateAt(ivec[..], 0), k + 1, i + 16)
  {
    ghost var src1, out1, ivec1 := src[..], out[..], StateAt(ivec[..], 0);
    CopyBlock(tmp, 0, src, i);
    Decrypt(src, i, out, i, d.c);
    XorInPlace(out, i, ivec);
    CopyBlock(ivec, 0, tmp, 0);
    DecBlock(d.m, iv, b, c, out0, src1, out1, ivec1, k, i, src[..], out[..], StateAt(ivec[..], 0));
  }

  /**
   What `AES_cbc_encrypt` leaves with `enc` clear, for `k` whole blocks and `len` bytes more: the
   plaintext, the output beyond it unchanged, and the vector. After a partial block the vector is the
   decrypted block, not the ciphertext block.
   */
  ghost predicate DecResult(m: Mode<State>, iv: State, c: seq<State>, k: nat, len: nat, out0: seq<Byte>,
      out: seq<Byte>, ivec: State)
  {
    && len < 16 && |c| == k + (if len > 0 then 1 else 0)
    && |out| == |out0| && 16 * k + len <= |out|
    && Holds(out, m.Plaintext(iv, c), k)
    && (len > 0 ==> Starts(out, 16 * k, len, m.PlainBlock(iv, c, k)))
    && (forall q :: 16 * k + len <= q < |out| ==> out[q] == out0[q])
    && ivec == if len > 0 then m.dec(c[k]) else m.LastOr(iv, c)
  }

  lemma DecTail(m: Mode<State>, iv: State, b: seq<Byte>, c: seq<State>, out0: seq<Byte>, src: seq<Byte>,
      out: seq<Byte>, ivec: State, k: nat, i: nat, len: nat, out': seq<Byte>, tmp: State)
    requires DecProgress(m, iv, b, c, out0, src, out, ivec, k, i) && 0 < len < 16 && |c| == k + 1
    requires |out'| == |out| && i + len <= |out|
    requires forall q :: 0 <= q < i || i + len <= q < |out| ==> out'[q] == out[q]
    requires tmp == m.dec(StateAt(src, i))
    requires Starts(out', i, len, m.add(tmp, ivec))
    ensures DecResult(m, iv, c, k, len, out0, out', tmp)
  {
    StateAtSame(src, i, b, i);
    HoldsSame(out, out', m.Plaintext(iv, c), k);
    assert m.PlainBlock(iv, c, k) == m.add(tmp, ivec);
  }

  /** The last, partial block: decrypted in `tmp`, and `len` bytes of it written. */
  method DecryptTail(d: Decryption, src: array<Byte>, out: array<Byte>, i: nat, len: nat, ivec: array<Byte>,
      tmp: array<Byte>, ghost iv: State, ghost b: seq<Byte>, ghost c: seq<State>, ghost out0: seq<Byte>, ghost k: nat)
    requires 0 < len < 16 && i + 16 <= src.Length && i + len <= out.Length && ivec.Length == tmp.Length == 16
             && |c| == k + 1
    requires ivec != src && ivec != out && tmp != src && tmp != out && tmp != ivec
    requires DecProgress(d.m, iv, b, c, out0, src[..], out[..], StateAt(ivec[..], 0), k, i)
    modifies out, ivec, tmp
    ensures DecResult(d.m, iv, c, k, len, out0, out[..], StateAt(ivec[..], 0))
  {
    ghost var src1, out1, ivec1 := src[..], out[..], StateAt(ivec[..], 0);
    CopyBlock(tmp, 0, src, i);
    Decrypt(tmp, 0, tmp, 0, d.c);
    XorOut(out, i, len, tmp, ivec);
    CopyBlock(ivec, 0, tmp, 0);
    DecTail(d.m, iv, b, c, out0, src1, out1, ivec1, k, i, len, out[..], StateAt(ivec[..], 0));
  }

  lemma DecStart(m: Mode<State>, iv: State, b: seq<Byte>, c: seq<State>, out0: seq<Byte>)
    requires 16 * |c| <= |b| && c == WholeBlocks(b, |c|)
    ensures DecProgress(m, iv, b, c, out0, b, out0, iv, 0, 0)
  {
  }

  /** The decryption loop over whole blocks. */
  method DecryptBlocks(d: Decryption, src: array<Byte>, out: array<Byte>, length: nat, ivec: array<Byte>,
      tmp: array<Byte>, ghost c: seq<State>)
    returns (len: nat, i: nat, ghost k: nat)
    requires 16 * |c| <= src.Length && c == WholeBlocks(src[..], |c|) && |c| == BlockCount(length)
    requires length <= out.Length && ivec.Length == tmp.Length == 16
    requires ivec != src && ivec != out && tmp != src && tmp != out && tmp != ivec
    modifies out, ivec, tmp
    ensures i + len == length && len < 16
    ensures DecProgress(d.m, old(StateAt(ivec[..], 0)), old(src[..]), c, old(out[..]), src[..], out[..],
                        StateAt(ivec[..], 0), k, i)
  {
    len, i, k := length, 0, 0;
    ghost var b, out0, iv := src[..], out[..], StateAt(ivec[..], 0);
    DecStart(d.m, iv, b, c, out0);
    while len >= 16
      invariant i + len == length
      invariant DecProgress(d.m, iv, b, c, out0, src[..], out[..], StateAt(ivec[..], 0), k, i)
    {
      BlockFits(k, length);
      DecryptWhole(d, src, out, i, ivec, tmp, iv, b, c, out0, k);
      len, i, k := len - 16, i + 16, k + 1;
    }
  }

  /** `AES_cbc_encrypt` with `enc` clear. The input holds whole blocks; only `length` bytes are written. */
  method CbcDecrypt(d: Decryption, src: array<Byte>, out: array<Byte>, length: nat, ivec: array<Byte>)
    requires 16 * BlockCount(length) <= src.Length && length <= out.Length && ivec.Length == 16 && ivec != src
             && ivec != out
    modifies out, ivec
    ensures DecResult(d.m, old(StateAt(ivec[..], 0)), WholeBlocks(old(src[..]), BlockCount(length)), length / 16,
                      length % 16, old(out[..]), out[..], StateAt(ivec[..], 0))
  {
    var tmp := new Byte[16](_ => ZERO);
    ghost var b, out0, iv := src[..], out[..], StateAt(ivec[..], 0);
    ghost var c := WholeBlocks(b, BlockCount(length));
    var len, i, k := DecryptBlocks(d, src, out, length, ivec, tmp, c);
    LastBlock(k, len, length);
    if len > 0 {
      DecryptTail(d, src, out, i, len, ivec, tmp, iv, b, c, out0, k);
    } else {
      DecDone(d.m, iv, b, c, out0, src[..], out[..], StateAt(ivec[..], 0), k, i);
    }
  }

  lemma DecDone(m: Mode<State>, iv: State, b: seq<Byte>, c: seq<State>, out0: seq<Byte>, src: seq<Byte>,
      out: seq<Byte>, ivec: State, k: nat, i: nat)
    requires DecProgress(m, iv, b, c, out0, src, out, ivec, k, i) && |c| == k
    ensures DecResult(m, iv, c, k, 0, out0, out, ivec)
  {
  }

  lemma LastBlock(k: nat, len: nat, length: nat)
    requires 16 * k + len == length && len < 16
    ensures k == length / 16 && len == length % 16 && BlockCount(length) == k + if len > 0 then 1 else 0
  {
  }
}
