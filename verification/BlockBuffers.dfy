/**
 Buffers as blocks, the way AES_cbc_encrypt reads and writes them: a last partial block is filled
 with zeroes.
 */
module BlockBuffers {
  import opened GaloisField
  import opened AesCipher
  import opened AesCode
  import opened AesBlock
  import opened Units

  /** Byte `i` of a buffer of `n` bytes followed by zeroes. */
  function Padded(b: seq<Byte>, n: nat, i: nat): Byte
    requires n <= |b|
  {
    if i < n then b[i] else ZERO
  }

  function PaddedCol(b: seq<Byte>, n: nat, i: nat): Col
    requires n <= |b|
  {
    Col(Padded(b, n, i), Padded(b, n, i + 1), Padded(b, n, i + 2), Padded(b, n, i + 3))
  }

  /** The block at byte `i` of a buffer of `n` bytes, filled with zeroes. */
  function PaddedState(b: seq<Byte>, n: nat, i: nat): State
    requires n <= |b|
  {
    State(PaddedCol(b, n, i), PaddedCol(b, n, i + 4), PaddedCol(b, n, i + 8), PaddedCol(b, n, i + 12))
  }

  function Blocks(b: seq<Byte>, n: nat): (p: seq<State>)
    requires n <= |b|
    ensures |p| == BlockCount(n)
  {
    seq(BlockCount(n), i requires i >= 0 => PaddedState(b, n, 16 * i))
  }

  function ColOf(s: State, q: nat): Col {
    if q == 0 then s.c0 else if q == 1 then s.c1 else if q == 2 then s.c2 else s.c3
  }

  function ByteOfCol(c: Col, r: nat): Byte {
    if r == 0 then c.b0 else if r == 1 then c.b1 else if r == 2 then c.b2 else c.b3
  }

  /** A byte of a state, numbered as in memory. */
  function ByteOf(s: State, m: nat): Byte { ByteOfCol(ColOf(s, m / 4), m % 4) }

  lemma ByteOfAt(b: seq<Byte>, i: nat, m: nat)
    requires i + 16 <= |b| && m < 16
    ensures ByteOf(StateAt(b, i), m) == b[i + m]
  {
    ColOfAt(b, i, m / 4);
    ByteOfColAt(b, i + m / 4 * 4, m % 4);
  }

  lemma ColOfAt(b: seq<Byte>, i: nat, q: nat)
    requires i + 16 <= |b| && q < 4
    ensures ColOf(StateAt(b, i), q) == ColAt(b, i + q * 4)
  {
  }

  lemma ByteOfColAt(b: seq<Byte>, i: nat, r: nat)
    requires i + 4 <= |b| && r < 4
    ensures ByteOfCol(ColAt(b, i), r) == b[i + r]
  {
  }

  lemma ByteOfPadded(b: seq<Byte>, n: nat, i: nat, m: nat)
    requires n <= |b| && m < 16
    ensures ByteOf(PaddedState(b, n, i), m) == Padded(b, n, i + m)
  {
  }

  lemma ByteOfAdd(s: State, k: State, m: nat)
    ensures ByteOf(Add(s, k), m) == Xor(ByteOf(s, m), ByteOf(k, m))
  {
    ByteOfAddCol(ColOf(s, m / 4), ColOf(k, m / 4), m % 4);
  }

  lemma ByteOfAddCol(c: Col, k: Col, r: nat)
    ensures ByteOfCol(AddCol(c, k), r) == Xor(ByteOfCol(c, r), ByteOfCol(k, r))
  {
  }

  lemma SameBytes(s: State, t: State)
    requires forall m :: 0 <= m < 16 ==> ByteOf(s, m) == ByteOf(t, m)
    ensures s == t
  {
    assert ByteOf(s, 0) == ByteOf(t, 0) && ByteOf(s, 1) == ByteOf(t, 1) && ByteOf(s, 2) == ByteOf(t, 2)
           && ByteOf(s, 3) == ByteOf(t, 3);
    assert ByteOf(s, 4) == ByteOf(t, 4) && ByteOf(s, 5) == ByteOf(t, 5) && ByteOf(s, 6) == ByteOf(t, 6)
           && ByteOf(s, 7) == ByteOf(t, 7);
    assert ByteOf(s, 8) == ByteOf(t, 8) && ByteOf(s, 9) == ByteOf(t, 9) && ByteOf(s, 10) == ByteOf(t, 10)
           && ByteOf(s, 11) == ByteOf(t, 11);
    assert ByteOf(s, 12) == ByteOf(t, 12) && ByteOf(s, 13) == ByteOf(t, 13) && ByteOf(s, 14) == ByteOf(t, 14)
           && ByteOf(s, 15) == ByteOf(t, 15);
  }

  /** A block is determined by the sixteen bytes it is read from. */
  lemma StateAtIs(b: seq<Byte>, i: nat, s: State)
    requires i + 16 <= |b| && forall m :: 0 <= m < 16 ==> b[i + m] == ByteOf(s, m)
    ensures StateAt(b, i) == s
  {
    forall m | 0 <= m < 16
      ensures ByteOf(StateAt(b, i), m) == ByteOf(s, m)
    {
      ByteOfAt(b, i, m);
    }
    SameBytes(StateAt(b, i), s);
  }

  lemma StateAtSame(a: seq<Byte>, i: nat, b: seq<Byte>, j: nat)
    requires i + 16 <= |a| && j + 16 <= |b| && forall m :: i <= m < i + 16 ==> a[m] == b[m - i + j]
    ensures StateAt(a, i) == StateAt(b, j)
  {
    forall m | 0 <= m < 16
      ensures a[i + m] == ByteOf(StateAt(b, j), m)
    {
      ByteOfAt(b, j, m);
    }
    StateAtIs(a, i, StateAt(b, j));
  }

  /** The first `n` blocks of a buffer are the first `n` of `c`. */
  ghost predicate Holds(b: seq<Byte>, c: seq<State>, n: nat) {
    16 * n <= |b| && n <= |c| && forall j :: 0 <= j < n ==> StateAt(b, 16 * j) == c[j]
  }

  lemma HoldsSame(a: seq<Byte>, b: seq<Byte>, c: seq<State>, n: nat)
    requires Holds(a, c, n) && |a| == |b| && forall m :: 0 <= m < 16 * n ==> b[m] == a[m]
    ensures Holds(b, c, n)
  {
    forall j | 0 <= j < n
      ensures StateAt(b, 16 * j) == c[j]
    {
      StateAtSame(b, 16 * j, a, 16 * j);
    }
  }

  lemma HoldsNext(a: seq<Byte>, b: seq<Byte>, c: seq<State>, n: nat)
    requires Holds(a, c, n) && |a| == |b| && 16 * n + 16 <= |b| && n < |c|
    requires forall m :: 0 <= m < 16 * n ==> b[m] == a[m]
    requires StateAt(b, 16 * n) == c[n]
    ensures Holds(b, c, n + 1)
  {
    HoldsSame(a, b, c, n);
  }

  lemma PaddedSame(a: seq<Byte>, b: seq<Byte>, n: nat, i: nat)
    requires n <= |a| == |b| && forall m :: i <= m < n ==> a[m] == b[m]
    ensures PaddedState(a, n, i) == PaddedState(b, n, i)
  {
    forall m | 0 <= m < 16
      ensures ByteOf(PaddedState(a, n, i), m) == ByteOf(PaddedState(b, n, i), m)
    {
      ByteOfPadded(a, n, i, m);
      ByteOfPadded(b, n, i, m);
    }
    SameBytes(PaddedState(a, n, i), PaddedState(b, n, i));
  }

  /** The byte loops of AES_cbc_encrypt: `out[n] = f(a[n], iv[n])` over `len` bytes; `a` may be `out` itself. */
  method Combine<T>(out: array<T>, p: nat, a: array<T>, i: nat, iv: array<T>, len: nat, f: (T, T) -> T)
    requires p + len <= out.Length && i + len <= a.Length && len <= iv.Length && out != iv && (out == a ==> p == i)
    modifies out
    ensures forall m :: p <= m < p + len ==> out[m] == f(old(a[m - p + i]), iv[m - p])
    ensures forall m :: 0 <= m < p || p + len <= m < out.Length ==> out[m] == old(out[m])
  {
    for n := 0 to len
      invariant forall m :: p <= m < p + n ==> out[m] == f(old(a[m - p + i]), iv[m - p])
      invariant forall m :: 0 <= m < p || p + n <= m < out.Length ==> out[m] == old(out[m])
    {
      out[p + n] := f(a[i + n], iv[n]);
    }
  }

  /** `tmp[n] = ivec[n]` from byte `len` on. */
  method CopyRest<T>(tmp: array<T>, iv: array<T>, len: nat)
    requires len <= tmp.Length == iv.Length && tmp != iv
    modifies tmp
    ensures forall m :: 0 <= m < tmp.Length ==> tmp[m] == if m < len then old(tmp[m]) else iv[m]
  {
    for n := len to tmp.Length
      invariant forall m :: 0 <= m < tmp.Length ==> tmp[m] == if len <= m < n then iv[m] else old(tmp[m])
    {
      tmp[n] := iv[n];
    }
  }

  /** The sum of two blocks, byte by byte. */
  lemma SumBytes(s: State, t: State, m: nat, x: Byte, y: Byte)
    requires ByteOf(s, m) == x && ByteOf(t, m) == y
    ensures ByteOf(Add(s, t), m) == Xor(x, y)
  {
    ByteOfAdd(s, t, m);
  }

  lemma PaddedSum(b: seq<Byte>, n: nat, i: nat, iv: seq<Byte>, m: nat)
    requires n <= |b| && |iv| == 16 && m < 16
    ensures ByteOf(Add(PaddedState(b, n, i), StateAt(iv, 0)), m) == if i + m < n then Xor(b[i + m], iv[m]) else iv[m]
  {
    ByteOfPadded(b, n, i, m);
    ByteOfAt(iv, 0, m);
    SumBytes(PaddedState(b, n, i), StateAt(iv, 0), m, Padded(b, n, i + m), iv[m]);
    XorZero(iv[m]);
    XorComm(iv[m], ZERO);
  }

  lemma PaddedBlock(tmp: seq<Byte>, b: seq<Byte>, n: nat, i: nat, iv: seq<Byte>)
    requires n <= |b| && |tmp| == |iv| == 16
    requires forall m :: 0 <= m < 16 ==> tmp[m] == if i + m < n then Xor(b[i + m], iv[m]) else iv[m]
    ensures StateAt(tmp, 0) == Add(PaddedState(b, n, i), StateAt(iv, 0))
  {
    forall m | 0 <= m < 16
      ensures tmp[m] == ByteOf(Add(PaddedState(b, n, i), StateAt(iv, 0)), m)
    {
      PaddedSum(b, n, i, iv, m);
    }
    StateAtIs(tmp, 0, Add(PaddedState(b, n, i), StateAt(iv, 0)));
  }

  /** `tmp[n] = in[n] ^ ivec[n]` over the bytes there are, and `tmp[n] = ivec[n]` over the rest of the block. */
  method XorBlock(tmp: array<Byte>, src: array<Byte>, i: nat, length: nat, iv: array<Byte>)
    requires tmp.Length == iv.Length == 16 && tmp != src && tmp != iv && i <= length <= src.Length
    modifies tmp
    ensures StateAt(tmp[..], 0) == Add(PaddedState(src[..], length, i), StateAt(iv[..], 0))
  {
    var len := if length - i < 16 then length - i else 16;
    Combine(tmp, 0, src, i, iv, len, (x, y) => Xor(x, y));
    CopyRest(tmp, iv, len);
    PaddedBlock(tmp[..], src[..], length, i, iv[..]);
  }

  /** `memcpy` of one block. */
  method CopyBlock(dst: array<Byte>, p: nat, src: array<Byte>, i: nat)
    requires p + 16 <= dst.Length && i + 16 <= src.Length && dst != src
    modifies dst
    ensures StateAt(dst[..], p) == StateAt(src[..], i)
    ensures forall m :: 0 <= m < p || p + 16 <= m < dst.Length ==> dst[m] == old(dst[m])
  {
    for n := 0 to 16
      invariant forall m :: p <= m < p + n ==> dst[m] == src[m - p + i]
      invariant forall m :: 0 <= m < p || p + 16 <= m < dst.Length ==> dst[m] == old(dst[m])
    {
      dst[p + n] := src[i + n];
    }
    StateAtSame(dst[..], p, src[..], i);
  }

  /** The first `n` blocks of a buffer. */
  function WholeBlocks(b: seq<Byte>, n: nat): (c: seq<State>)
    requires 16 * n <= |b|
    ensures |c| == n
  {
    seq(n, j requires 0 <= j < n => StateAt(b, 16 * j))
  }

  /** `out[n] ^= ivec[n]` over one block. */
  method XorInPlace(out: array<Byte>, p: nat, iv: array<Byte>)
    requires p + 16 <= out.Length && iv.Length == 16 && out != iv
    modifies out
    ensures StateAt(out[..], p) == Add(old(StateAt(out[..], p)), StateAt(iv[..], 0))
    ensures forall m :: 0 <= m < p || p + 16 <= m < out.Length ==> out[m] == old(out[m])
  {
    ghost var a := out[..];
    ghost var s, v := StateAt(a, p), StateAt(iv[..], 0);
    Combine(out, p, out, p, iv, 16, (x, y) => Xor(x, y));
    forall m | 0 <= m < 16
      ensures out[..][p + m] == ByteOf(Add(s, v), m)
    {
      ByteOfAt(a, p, m);
      ByteOfAt(iv[..], 0, m);
      SumBytes(s, v, m, a[p + m], iv[m]);
    }
    StateAtIs(out[..], p, Add(s, v));
  }

  /** The `len` bytes at `p` are the first bytes of a block. */
  ghost predicate Starts(b: seq<Byte>, p: nat, len: nat, s: State) {
    p + len <= |b| && forall m :: p <= m < p + len ==> b[m] == ByteOf(s, m - p)
  }

  /** `out[n] = tmp[n] ^ ivec[n]` over the `len` bytes of a partial block. */
  method XorOut(out: array<Byte>, p: nat, len: nat, tmp: array<Byte>, iv: array<Byte>)
    requires len <= 16 && p + len <= out.Length && iv.Length == tmp.Length == 16 && out != iv && out != tmp
    modifies out
    ensures Starts(out[..], p, len, Add(StateAt(tmp[..], 0), StateAt(iv[..], 0)))
    ensures forall m :: 0 <= m < p || p + len <= m < out.Length ==> out[m] == old(out[m])
  {
    ghost var s, v := StateAt(tmp[..], 0), StateAt(iv[..], 0);
    Combine(out, p, tmp, 0, iv, len, (x, y) => Xor(x, y));
    forall m | p <= m < p + len
      ensures out[..][m] == ByteOf(Add(s, v), m - p)
    {
      ByteOfAt(tmp[..], 0, m - p);
      ByteOfAt(iv[..], 0, m - p);
      SumBytes(s, v, m - p, tmp[m - p], iv[m - p]);
    }
  }
}
