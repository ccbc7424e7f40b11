/**
 The two counter-mode back ends of libprivcrypt, encrypting buffers in place.
 */
module CtrBackends {
  import opened GaloisField
  import opened CtrStream
  import opened Units

  /** `buf` masked in place over its first `len` bytes, nothing else changed. */
  ghost predicate Masked<C>(c: Cipher<C>, ctr: C, was: seq<Byte>, buf: seq<Byte>, len: nat) {
    len <= |was| == |buf| && buf[..len] == c.Mask(ctr, 0, was[..len]) && buf[len..] == was[len..]
  }

  /** aesni.c: the counter is the `iv` field, and the assembly code takes whole blocks. */
  class Aesni<C> {
    const c: Cipher<C>
    var iv: C

    constructor (c: Cipher<C>, iv: C)
      ensures this.c == c && this.iv == iv
    {
      this.c := c;
      this.iv := iv;
    }

    /** What aesni_ctr_enc does to whole blocks. */
    method CtrEnc(buf: array<Byte>, off: nat, len: nat)
      requires off + len <= buf.Length && len % 16 == 0
      modifies buf, this`iv
      ensures buf[off..off + len] == c.Mask(old(iv), 0, old(buf[off..off + len]))
      ensures forall i :: 0 <= i < off || off + len <= i < buf.Length ==> buf[i] == old(buf[i])
      ensures iv == c.Advance(old(iv), len / 16)
    {
      ghost var was := buf[..];
      ghost var m := c.Mask(iv, 0, was[off..off + len]);
      for n := 0 to len
        invariant forall i :: off <= i < off + n ==> buf[i] == m[i - off]
        invariant forall i :: 0 <= i < off || off + n <= i < buf.Length ==> buf[i] == was[i]
        invariant iv == old(iv)
      {
        c.MaskAt(iv, was[off..off + len], n);
        buf[off + n] := Xor(buf[off + n], c.KeyByte(iv, n / 16, n % 16));
      }
      assert buf[off..off + len] == m;
      iv := c.Advance(iv, len / 16);
    }

    /** The last block, encrypted through a copy. */
    method CryptLast(buf: array<Byte>, off: nat, rest: nat)
      requires 0 < rest <= 16 && off + rest <= buf.Length
      modifies buf, this`iv
      ensures buf[off..off + rest] == c.Mask(old(iv), 0, old(buf[off..off + rest]))
      ensures forall i :: 0 <= i < off || off + rest <= i < buf.Length ==> buf[i] == old(buf[i])
      ensures iv == c.Advance(old(iv), 1)
    {
      ghost var was, iv0 := buf[..], iv;
      var last := new Byte[16](_ => ZERO);
      forall i | 0 <= i < rest {
        last[i] := buf[off + i];
      }
      ghost var full := last[0..16];
      CtrEnc(last, 0, 16);
      forall i | off <= i < off + rest {
        buf[i] := last[i - off];
      }
      c.MaskTake(iv0, full, rest);
      assert full[..rest] == was[off..off + rest];
      assert buf[off..off + rest] == last[0..16][..rest];
    }

    /** `priv_aesni_crypt`: whole blocks in place, then a last block through a copy. */
    method Crypt(buf: array<Byte>, len: nat)
      requires len <= buf.Length
      modifies buf, this`iv
      ensures Masked(c, old(iv), old(buf[..]), buf[..], len) && iv == c.Advance(old(iv), BlockCount(len))
    {
      ghost var was, iv0 := buf[..], iv;
      var most := if len > 16 then len - len % 16 else 0;
      ghost var n := most / 16;
      BlocksOf(len, most, n);
      if len > 16 {
        CtrEnc(buf, 0, most);
      }
      ghost var mid := buf[..];
      assert Masked(c, iv0, was, mid, most) && iv == c.Advance(iv0, n);
      if len > most {
        CryptLast(buf, most, len - most);
        JoinMasked(c, iv0, was, mid, buf[..], most, n, len);
        c.AdvanceSum(iv0, n, 1);
      }
    }
  }

  /** gcrypt.c: a cipher handle with its own counter, which keeps the key stream bytes it has not used. */
  class Gcrypt<C> {
    const c: Cipher<C>
    var ctr: C
    var pad: seq<Byte>

    constructor (c: Cipher<C>, iv: C)
      ensures this.c == c && ctr == iv && pad == []
    {
      this.c := c;
      ctr, pad := iv, [];
    }

    /** `p` bytes have been masked since the handle was at counter `start`. */
    ghost predicate At(start: C, p: nat)
      reads this
    {
      (ctr, pad) == Handle(c, start, p)
    }

    /** `gcrypt_do_crypt`: libgcrypt masks byte by byte and takes a new block when no key stream is left. */
    method DoCrypt(buf: array<Byte>, len: nat, ghost start: C, ghost p: nat)
      requires len <= buf.Length && At(start, p)
      modifies buf, this`ctr, this`pad
      ensures At(start, p + len)
      ensures forall i :: 0 <= i < len ==> buf[i] == Xor(old(buf[i]), Out(c, start, p + i))
      ensures forall i :: len <= i < buf.Length ==> buf[i] == old(buf[i])
    {
      ghost var was := buf[..];
      for n := 0 to len
        invariant At(start, p + n)
        invariant forall i :: 0 <= i < n ==> buf[i] == Xor(was[i], Out(c, start, p + i))
        invariant forall i :: n <= i < buf.Length ==> buf[i] == was[i]
      {
        if pad == [] {
          pad := c.block(ctr);
          ctr := c.next(ctr);
        }
        buf[n] := Xor(buf[n], pad[0]);
        pad := pad[1..];
      }
    }

    /** `gcrypt_crypt` in its real-stream form: what is left of the last block is used up on a scratch buffer. */
    method Crypt(buf: array<Byte>, len: nat)
      requires len <= buf.Length && pad == []
      modifies buf, this`ctr, this`pad
      ensures Masked(c, old(ctr), old(buf[..]), buf[..], len) && ctr == c.Advance(old(ctr), BlockCount(len))
              && pad == []
    {
      ghost var start, was := ctr, buf[..];
      DoCrypt(buf, len, start, 0);
      OutMasks(c, start, was, buf[..], len);
      var leftover := if len % 16 == 0 then 0 else 16 - len % 16;
      HandleEnd(c, start, len, leftover);
      if len % 16 != 0 {
        var extra := new Byte[16](_ => ZERO);
        DoCrypt(extra, leftover, start, len);
      }
    }
  }

  /** The state of a handle with a fresh block if it needs one. */
  function Filled<C>(c: Cipher<C>, h: (C, seq<Byte>)): (r: (C, seq<Byte>))
    ensures r.1 != []
  {
    if h.1 == [] then (c.next(h.0), c.block(h.0)) else h
  }

  /** The state of a handle after `p` bytes: counter and unused key stream. */
  function Handle<C>(c: Cipher<C>, start: C, p: nat): (C, seq<Byte>) {
    if p == 0 then (start, []) else var h := Filled(c, Handle(c, start, p - 1)); (h.0, h.1[1..])
  }

  /** The key stream byte a handle uses after `p` bytes. */
  function Out<C>(c: Cipher<C>, start: C, p: nat): Byte { Filled(c, Handle(c, start, p)).1[0] }

  lemma {:induction false} HandleIs<C>(c: Cipher<C>, start: C, p: nat)
    ensures Handle(c, start, p) == (c.Advance(start, BlockCount(p)), Unused(c, start, p))
    ensures Out(c, start, p) == StreamByte(c, start, p)
    decreases p
  {
    if p > 0 {
      HandleIs(c, start, p - 1);
      UnusedNext(c, start, p - 1);
    }
    UnusedNext(c, start, p);
  }

  /** Used up to the end of a block, the handle is at the counter after it. */
  lemma HandleEnd<C>(c: Cipher<C>, start: C, len: nat, leftover: nat)
    requires leftover == if len % 16 == 0 then 0 else 16 - len % 16
    ensures Handle(c, start, len + leftover) == (c.Advance(start, BlockCount(len)), [])
  {
    LeftOver(len);
    HandleIs(c, start, len + leftover);
  }

  lemma OutMasks<C>(c: Cipher<C>, start: C, was: seq<Byte>, buf: seq<Byte>, len: nat)
    requires len <= |was| == |buf|
    requires forall i :: 0 <= i < len ==> buf[i] == Xor(was[i], Out(c, start, i))
    requires forall i :: len <= i < |buf| ==> buf[i] == was[i]
    ensures Masked(c, start, was, buf, len)
  {
    var m := c.Mask(start, 0, was[..len]);
    forall i | 0 <= i < len ensures buf[i] == m[i] {
      HandleIs(c, start, i);
    }
  }

  /** Byte `i` of the key stream. */
  function StreamByte<C>(c: Cipher<C>, start: C, i: nat): Byte { c.KeyByte(start, i / 16, i % 16) }

  /** The key stream bytes of the current block that are not used after `p` bytes. */
  function Unused<C>(c: Cipher<C>, start: C, p: nat): seq<Byte> {
    if p % 16 == 0 then [] else c.block(c.Advance(start, p / 16))[p % 16..]
  }

  /** One byte more, with a new block at each multiple of sixteen. */
  lemma UnusedNext<C>(c: Cipher<C>, start: C, p: nat)
    ensures var pad := if p % 16 == 0 then c.block(c.Advance(start, p / 16)) else Unused(c, start, p);
            pad != [] && pad[0] == c.KeyByte(start, p / 16, p % 16) && Unused(c, start, p + 1) == pad[1..]
    ensures if p % 16 == 0 then BlockCount(p) == p / 16 && BlockCount(p + 1) == p / 16 + 1
              else BlockCount(p + 1) == BlockCount(p)
    ensures (Unused(c, start, p) == []) == (p % 16 == 0)
  {
    SixteenNext(p);
  }

  lemma SixteenNext(p: nat)
    ensures if p % 16 == 15 then (p + 1) % 16 == 0 && (p + 1) / 16 == p / 16 + 1
              else (p + 1) % 16 == p % 16 + 1 && (p + 1) / 16 == p / 16
    ensures if p % 16 == 0 then BlockCount(p) == p / 16 && BlockCount(p + 1) == p / 16 + 1
              else BlockCount(p + 1) == BlockCount(p)
  {
  }

  lemma LeftOver(len: nat)
    ensures len % 16 != 0 ==> (len + (16 - len % 16)) % 16 == 0 && BlockCount(len + (16 - len % 16)) == BlockCount(len)
  {
  }

  method Copy(data: seq<Byte>) returns (buf: array<Byte>)
    ensures fresh(buf) && buf[..] == data
  {
    buf := new Byte[|data|](i requires 0 <= i < |data| => data[i]);
  }

  /** One call of each back end from the same counter. */
  method CallBoth<C(==)>(aesni: Aesni<C>, gcrypt: Gcrypt<C>, data: seq<Byte>) returns (a: seq<Byte>, b: seq<Byte>)
    requires aesni.c == gcrypt.c && aesni.iv == gcrypt.ctr && gcrypt.pad == []
    modifies aesni, gcrypt
    ensures (a, aesni.iv) == (b, gcrypt.ctr) == aesni.c.Call(old(aesni.iv), data) && gcrypt.pad == []
  {
    var x := Copy(data);
    aesni.Crypt(x, |data|);
    assert x[..|data|] == x[..] && data[..|data|] == data;
    var y := Copy(data);
    gcrypt.Crypt(y, |data|);
    assert y[..|data|] == y[..];
    a, b := x[..], y[..];
  }

  lemma CallsStep<C>(c: Cipher<C>, iv: C, inputs: seq<seq<Byte>>, n: nat)
    requires n < |inputs|
    ensures var (out, next) := c.Calls(iv, inputs[..n]);
            c.Calls(iv, inputs[..n + 1]) == (out + [c.Call(next, inputs[n]).0], c.Call(next, inputs[n]).1)
  {
    assert inputs[..n + 1][..n] == inputs[..n];
  }

  /** For every sequence of call lengths and contents the two back ends produce the same bytes and the same counter. */
  method Agree<C(==)>(c: Cipher<C>, iv: C, inputs: seq<seq<Byte>>)
    returns (a: seq<seq<Byte>>, b: seq<seq<Byte>>, aesniCtr: C, gcryptCtr: C)
    ensures (a, aesniCtr) == (b, gcryptCtr) == c.Calls(iv, inputs)
  {
    var aesni := new Aesni<C>(c, iv);
    var gcrypt := new Gcrypt<C>(c, iv);
    a, b := [], [];
    for n := 0 to |inputs|
      invariant fresh(aesni) && fresh(gcrypt) && aesni.c == gcrypt.c == c && gcrypt.pad == []
      invariant (a, aesni.iv) == (b, gcrypt.ctr) == c.Calls(iv, inputs[..n])
    {
      CallsStep(c, iv, inputs, n);
      var x, y := CallBoth(aesni, gcrypt, inputs[n]);
      a, b := a + [x], b + [y];
    }
    assert inputs[..|inputs|] == inputs;
    aesniCtr, gcryptCtr := aesni.iv, gcrypt.ctr;
  }

  lemma BlocksOf(len: nat, most: nat, n: nat)
    requires most == (if len > 16 then len - len % 16 else 0) && n == most / 16
    ensures most == 16 * n <= len <= most + 16 && most % 16 == 0 && BlockCount(len) == n + if len > most then 1 else 0
  {
  }

  /** Whole blocks masked first and then the rest is the whole masked. */
  lemma JoinMasked<C>(c: Cipher<C>, iv: C, was: seq<Byte>, mid: seq<Byte>, buf: seq<Byte>, most: nat, n: nat, len: nat)
    requires Masked(c, iv, was, mid, most) && |mid| == |buf| && most == 16 * n <= len <= |buf|
    requires buf[most..len] == c.Mask(c.Advance(iv, n), 0, mid[most..len])
    requires forall i :: 0 <= i < most || len <= i < |buf| ==> buf[i] == mid[i]
    ensures Masked(c, iv, was, buf, len)
  {
    var a, b := was[..most], was[most..len];
    assert a + b == was[..len] && b == mid[most..len];
    c.MaskShift(iv, n, b);
    c.MaskSplit(iv, a, b, n);
    assert buf[..len] == mid[..most] + buf[most..len];
    assert buf[len..] == mid[len..] == was[len..];
  }
}
