/**
 One call of AES_cbc_encrypt equals two consecutive calls when the first takes whole blocks
 and the second goes on with the vector the first left, in both directions.
 */
module AesSplit {
  import opened GaloisField
  import opened AesCipher
  import opened AesCode
  import opened AesBlock
  import opened ChainingMode
  import opened BlockBuffers
  import opened AesCbc
  import opened Units

  lemma BlockSplit(b: seq<Byte>, a: nat, n: nat, i: nat)
    requires 16 * a + n <= |b|
    ensures 16 * i + 16 <= 16 * a ==> PaddedState(b, 16 * a + n, 16 * i) == PaddedState(b, 16 * a, 16 * i)
    ensures PaddedState(b, 16 * a + n, 16 * a + i) == PaddedState(b[16 * a..], n, i)
  {
  }

  /** The blocks of one call are those of two consecutive calls when the first takes whole blocks. */
  lemma BlocksSplit(b: seq<Byte>, a: nat, n: nat)
    requires 16 * a + n <= |b|
    ensures Blocks(b, 16 * a + n) == Blocks(b, 16 * a) + Blocks(b[16 * a..], n)
  {
    LastBlock(a, 0, 16 * a);
    LastBlock(a + n / 16, n % 16, 16 * a + n);
    LastBlock(n / 16, n % 16, n);
    forall j | 0 <= j < BlockCount(16 * a + n)
      ensures Blocks(b, 16 * a + n)[j] == (Blocks(b, 16 * a) + Blocks(b[16 * a..], n))[j]
    {
      if j < a {
        BlockSplit(b, a, n, j);
      } else {
        BlockSplit(b, a, n, 16 * (j - a));
      }
    }
  }

  lemma WholeBlocksSplit(b: seq<Byte>, a: nat, n: nat)
    requires 16 * (a + n) <= |b|
    ensures WholeBlocks(b, a + n) == WholeBlocks(b, a) + WholeBlocks(b[16 * a..], n)
  {
    forall j | 0 <= j < n ensures StateAt(b[16 * a..], 16 * j) == StateAt(b, 16 * (a + j)) {
      StateAtSame(b[16 * a..], 16 * j, b, 16 * (a + j));
    }
  }

  /** The bytes of a buffer are those of its blocks. */
  lemma HoldsByte(b: seq<Byte>, c: seq<State>, n: nat, q: nat)
    requires Holds(b, c, n) && q < 16 * n
    ensures b[q] == ByteOf(c[q / 16], q % 16)
  {
    ByteOfAt(b, 16 * (q / 16), q % 16);
  }

  /** Two buffers side by side hold what one buffer holds. */
  lemma HoldsSplit(out: seq<Byte>, o: seq<Byte>, p: seq<Byte>, c: seq<State>, d: seq<State>, a: nat, n: nat)
    requires Holds(out, c + d, a + n) && Holds(o, c, a) && Holds(p, d, n) && |c| == a
    ensures out[..16 * (a + n)] == o[..16 * a] + p[..16 * n]
  {
    forall q | 0 <= q < 16 * (a + n) ensures out[q] == (o[..16 * a] + p[..16 * n])[q] {
      HoldsByte(out, c + d, a + n, q);
      if q < 16 * a {
        HoldsByte(o, c, a, q);
      } else {
        HoldsByte(p, d, n, q - 16 * a);
        assert q / 16 == a + (q - 16 * a) / 16;
      }
    }
  }

  lemma CountSplit(a: nat, n: nat)
    ensures BlockCount(16 * a) == a && BlockCount(16 * a + n) == a + BlockCount(n) && 16 * BlockCount(n) >= n
    ensures (16 * a + n) / 16 == a + n / 16 && (16 * a + n) % 16 == n % 16
  {
  }

  /** Encrypting 16 * a + n bytes at once, or 16 * a and then n: same bytes, same vector. */
  lemma EncryptInTwo(m: Mode<State>, iv: State, b: seq<Byte>, a: nat, n: nat,
                     out0: seq<Byte>, out: seq<Byte>, last: State,
                     first0: seq<Byte>, first: seq<Byte>, mid: State,
                     second0: seq<Byte>, second: seq<Byte>, last': State)
    requires EncResult(m, iv, b, 16 * a + n, out0, out, last)
    requires EncResult(m, iv, b, 16 * a, first0, first, mid)
    requires EncResult(m, mid, b[16 * a..], n, second0, second, last')
    ensures last' == last && out[..16 * BlockCount(16 * a + n)] == first[..16 * a] + second[..16 * BlockCount(n)]
  {
    CountSplit(a, n);
    BlocksSplit(b, a, n);
    EncryptBlocks(m, iv, Blocks(b, 16 * a), Blocks(b[16 * a..], n), out, first, mid, second);
  }

  lemma EncryptBlocks(m: Mode<State>, iv: State, p: seq<State>, q: seq<State>,
                      out: seq<Byte>, first: seq<Byte>, mid: State, second: seq<Byte>)
    requires Holds(out, m.Ciphertext(iv, p + q), |p| + |q|)
    requires Holds(first, m.Ciphertext(iv, p), |p|) && mid == m.Chain(iv, p, |p|)
    requires Holds(second, m.Ciphertext(mid, q), |q|)
    ensures out[..16 * (|p| + |q|)] == first[..16 * |p|] + second[..16 * |q|]
    ensures m.Chain(iv, p + q, |p| + |q|) == m.Chain(mid, q, |q|)
  {
    m.EncryptSplit(iv, p, q);
    HoldsSplit(out, first, second, m.Ciphertext(iv, p), m.Ciphertext(mid, q), |p|, |q|);
  }

  lemma StartsSame(out: seq<Byte>, x: nat, second: seq<Byte>, y: nat, len: nat, s: State)
    requires Starts(out, x, len, s) && Starts(second, y, len, s)
    ensures out[x..x + len] == second[y..y + len]
  {
  }

  lemma PlainSplit(m: Mode<State>, iv: State, c: seq<State>, d: seq<State>, k: nat)
    requires k < |d|
    ensures m.PlainBlock(iv, c + d, |c| + k) == m.PlainBlock(m.LastOr(iv, c), d, k)
  {
  }

  /** Decrypting 16 * a + (16 * k + len) bytes at once, or 16 * a and then the rest: same bytes, same vector. */
  lemma DecryptInTwo(m: Mode<State>, iv: State, src: seq<Byte>, a: nat, k: nat, len: nat, n: nat,
                     out0: seq<Byte>, out: seq<Byte>, last: State,
                     first0: seq<Byte>, first: seq<Byte>, mid: State,
                     second0: seq<Byte>, second: seq<Byte>, last': State)
    requires len < 16 && n == k + (if len > 0 then 1 else 0) && 16 * (a + n) <= |src|
    requires DecResult(m, iv, WholeBlocks(src, a + n), a + k, len, out0, out, last)
    requires DecResult(m, iv, WholeBlocks(src, a), a, 0, first0, first, mid)
    requires DecResult(m, mid, WholeBlocks(src[16 * a..], n), k, len, second0, second, last')
    ensures last' == last && out[..16 * a + (16 * k + len)] == first[..16 * a] + second[..16 * k + len]
  {
    WholeBlocksSplit(src, a, n);
    DecryptCalls(m, iv, WholeBlocks(src, a + n), WholeBlocks(src, a), WholeBlocks(src[16 * a..], n), a, k, len,
                 out0, out, last, first0, first, mid, second0, second, last');
  }

  lemma DecryptCalls(m: Mode<State>, iv: State, whole: seq<State>, c: seq<State>, d: seq<State>, a: nat, k: nat,
      len: nat, out0: seq<Byte>, out: seq<Byte>, last: State, first0: seq<Byte>, first: seq<Byte>, mid: State,
      second0: seq<Byte>, second: seq<Byte>, last': State)
    requires whole == c + d && |c| == a
    requires DecResult(m, iv, whole, a + k, len, out0, out, last)
    requires DecResult(m, iv, c, a, 0, first0, first, mid)
    requires DecResult(m, mid, d, k, len, second0, second, last')
    ensures last' == last
    ensures 16 * a + (16 * k + len) <= |out| && 16 * a <= |first| && 16 * k + len <= |second|
    ensures out[..16 * a + (16 * k + len)] == first[..16 * a] + second[..16 * k + len]
  {
    DecryptBytes(m, iv, c, d, k, len, out, first, second);
  }

  lemma DecryptBytes(m: Mode<State>, iv: State, c: seq<State>, d: seq<State>, k: nat, len: nat,
                     out: seq<Byte>, first: seq<Byte>, second: seq<Byte>)
    requires len < 16 && |d| == k + (if len > 0 then 1 else 0)
    requires Holds(out, m.Plaintext(iv, c + d), |c| + k) && 16 * (|c| + k) + len <= |out|
    requires Holds(first, m.Plaintext(iv, c), |c|)
    requires Holds(second, m.Plaintext(m.LastOr(iv, c), d), k) && 16 * k + len <= |second|
    requires len > 0 ==> Starts(out, 16 * (|c| + k), len, m.PlainBlock(iv, c + d, |c| + k))
    requires len > 0 ==> Starts(second, 16 * k, len, m.PlainBlock(m.LastOr(iv, c), d, k))
    ensures out[..16 * (|c| + k) + len] == first[..16 * |c|] + second[..16 * k + len]
    ensures m.LastOr(iv, c + d) == m.LastOr(m.LastOr(iv, c), d)
  {
    m.DecryptSplit(iv, c, d);
    HoldsSplit(out, first, second, m.Plaintext(iv, c), m.Plaintext(m.LastOr(iv, c), d), |c|, k);
    if len > 0 {
      PlainSplit(m, iv, c, d, k);
      StartsSame(out, 16 * (|c| + k), second, 16 * k, len, m.PlainBlock(iv, c + d, |c| + k));
    }
    Rejoin(out, first, second, 16 * |c|, 16 * k, len);
  }

  /** Equal up to a point, and equal in the bytes after it. */
  lemma Rejoin(out: seq<Byte>, first: seq<Byte>, second: seq<Byte>, x: nat, y: nat, len: nat)
    requires x <= |first| && y + len <= |second| && x + y + len <= |out| && out[..x + y] == first[..x] + second[..y]
    requires out[x + y..x + y + len] == second[y..y + len]
    ensures out[..x + y + len] == first[..x] + second[..y + len]
  {
    assert out[..x + y + len] == out[..x + y] + out[x + y..x + y + len];
    assert second[..y + len] == second[..y] + second[y..y + len];
  }
}
