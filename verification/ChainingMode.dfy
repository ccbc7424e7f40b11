/**
 Cipher block chaining (section 6.2 of NIST SP 800-38A) over any block permutation.
 */
module ChainingMode {
  datatype Mode<!B(!new)> = Mode(add: (B, B) -> B, enc: B -> B, dec: B -> B) {
    ghost predicate Laws() {
      && (forall s, k :: add(add(s, k), k) == s)
      && (forall s :: dec(enc(s)) == s)
    }

    /** The chaining value before block `i`: the initial vector, or the ciphertext of block i - 1. */
    function Chain(iv: B, p: seq<B>, i: nat): B
      requires i <= |p|
    {
      if i == 0 then iv else enc(add(p[i - 1], Chain(iv, p, i - 1)))
    }

    function Ciphertext(iv: B, p: seq<B>): (c: seq<B>)
      ensures |c| == |p|
    {
      seq(|p|, i requires 0 <= i < |p| => Chain(iv, p, i + 1))
    }

    function PlainBlock(iv: B, c: seq<B>, i: nat): B
      requires i < |c|
    {
      add(dec(c[i]), if i == 0 then iv else c[i - 1])
    }

    function Plaintext(iv: B, c: seq<B>): (p: seq<B>)
      ensures |p| == |c|
    {
      seq(|c|, i requires 0 <= i < |c| => PlainBlock(iv, c, i))
    }

    /** The chaining value after the whole blocks `c` of ciphertext. */
    function LastOr(iv: B, c: seq<B>): B { if |c| == 0 then iv else c[|c| - 1] }

    /** Decryption with the same initial vector restores every block, and both directions leave the same vector. */
    lemma RoundTrip(iv: B, p: seq<B>)
      requires Laws()
      ensures Plaintext(iv, Ciphertext(iv, p)) == p
      ensures LastOr(iv, Ciphertext(iv, p)) == Chain(iv, p, |p|)
    {
      var c := Ciphertext(iv, p);
      forall i | 0 <= i < |p|
        ensures PlainBlock(iv, c, i) == p[i]
      {
        assert c[i] == enc(add(p[i], Chain(iv, p, i)));
        assert i > 0 ==> c[i - 1] == Chain(iv, p, i);
      }
    }

    lemma ChainIs(iv: B, p: seq<B>, i: nat)
      requires i < |p|
      ensures Ciphertext(iv, p)[i] == Chain(iv, p, i + 1)
    {
    }

    /** The equations of section 6.2 of NIST SP 800-38A, and the vector left for the next call. */
    lemma EncryptEquation(iv: B, p: seq<B>, i: nat)
      requires i < |p|
      ensures var c := Ciphertext(iv, p); c[i] == enc(add(p[i], if i == 0 then iv else c[i - 1]))
      ensures i == |p| - 1 ==> Chain(iv, p, |p|) == Ciphertext(iv, p)[i]
    {
      ChainIs(iv, p, i);
      if i > 0 {
        ChainIs(iv, p, i - 1);
      }
    }

    lemma DecryptEquation(iv: B, c: seq<B>, i: nat)
      requires i < |c|
      ensures Plaintext(iv, c)[i] == add(dec(c[i]), if i == 0 then iv else c[i - 1])
    {
    }

    /** The block that is encrypted last. */
    function LastInput(iv: B, p: seq<B>): B
      requires |p| > 0
    {
      add(p[|p| - 1], Chain(iv, p, |p| - 1))
    }

    /** The last vector of encryption is the cipher of the last input, which decryption of the last block gives back. */
    lemma LastBlocks(iv: B, p: seq<B>)
      requires Laws() && |p| > 0
      ensures Chain(iv, p, |p|) == enc(LastInput(iv, p))
      ensures dec(Ciphertext(iv, p)[|p| - 1]) == LastInput(iv, p)
    {
    }

    lemma {:induction false} ChainSplit(iv: B, p: seq<B>, q: seq<B>, i: nat)
      requires i <= |p| + |q|
      ensures Chain(iv, p + q, i) == if i <= |p| then Chain(iv, p, i) else Chain(Chain(iv, p, |p|), q, i - |p|)
    {
      if i > 0 {
        ChainSplit(iv, p, q, i - 1);
      }
    }

    /** One call equals two consecutive calls, the second starting from the vector the first leaves. */
    lemma EncryptSplit(iv: B, p: seq<B>, q: seq<B>)
      ensures Ciphertext(iv, p + q) == Ciphertext(iv, p) + Ciphertext(Chain(iv, p, |p|), q)
      ensures Chain(iv, p + q, |p| + |q|) == Chain(Chain(iv, p, |p|), q, |q|)
    {
      var mid := Chain(iv, p, |p|);
      forall i | 0 <= i < |p| + |q|
        ensures Ciphertext(iv, p + q)[i] == (Ciphertext(iv, p) + Ciphertext(mid, q))[i]
      {
        ChainSplit(iv, p, q, i + 1);
      }
      ChainSplit(iv, p, q, |p| + |q|);
      ChainSplit(iv, p, q, |p|);
    }

    lemma DecryptSplit(iv: B, c: seq<B>, b: seq<B>)
      ensures Plaintext(iv, c + b) == Plaintext(iv, c) + Plaintext(LastOr(iv, c), b)
      ensures LastOr(iv, c + b) == LastOr(LastOr(iv, c), b)
    {
    }
  }
}
