/**
 Ciphers made of rounds, as section 5 of FIPS 197 builds AES: a key addition, a substitution and a
 linear mixing layer that the last round leaves out.
 */
module ProductCipher {
  datatype Layers<!B(!new)> = Layers(add: (B, B) -> B, sub: B -> B, unsub: B -> B, mix: B -> B, unmix: B -> B) {
    /** Each layer has its inverse, and the mixing layer is linear. */
    ghost predicate Laws() {
      && (forall s, k :: add(add(s, k), k) == s)
      && (forall s :: unsub(sub(s)) == s && sub(unsub(s)) == s)
      && (forall s :: unmix(mix(s)) == s && mix(unmix(s)) == s)
      && (forall s, k :: unmix(add(s, k)) == add(unmix(s), unmix(k)))
    }

    /** The state after the first key and `r` full rounds of encryption. */
    function Rounds(k: seq<B>, r: nat, s: B): B
      requires r < |k|
    {
      if r == 0 then add(s, k[0]) else add(mix(sub(Rounds(k, r - 1, s))), k[r])
    }

    /** The cipher (section 5.1): |k| - 2 full rounds and a last one that does not mix. */
    function Cipher(k: seq<B>, s: B): B
      requires |k| >= 2
    {
      add(sub(Rounds(k, |k| - 2, s)), k[|k| - 1])
    }

    /** The state after the last key and `r` full rounds of the inverse cipher. */
    function InvRounds(k: seq<B>, r: nat, s: B): B
      requires r < |k|
    {
      if r == 0 then add(s, k[|k| - 1]) else unmix(add(unsub(InvRounds(k, r - 1, s)), k[|k| - 1 - r]))
    }

    /** The inverse cipher (section 5.3), with the encryption keys in reverse order. */
    function InvCipher(k: seq<B>, s: B): B
      requires |k| >= 2
    {
      add(unsub(InvRounds(k, |k| - 2, s)), k[0])
    }

    /** The same layers with each one replaced by its inverse. */
    function Inverse(): Layers<B> { Layers(add, unsub, sub, unmix, mix) }

    /** The equivalent inverse cipher (section 5.3.5): the layer order of the cipher, with keys of its own. */
    function EqInvCipher(d: seq<B>, s: B): B
      requires |d| >= 2
    {
      Inverse().Cipher(d, s)
    }

    /** The keys of the equivalent inverse cipher: reversed, with the inverse mixing on the inner ones. */
    ghost predicate Reversed(k: seq<B>, d: seq<B>) {
      |d| == |k| >= 2 && ReversedUpTo(k, d, |k| - 2)
    }

    /** The outer keys of `d`, and its keys 1 to `n`, are those of the equivalent inverse cipher. */
    ghost predicate ReversedUpTo(k: seq<B>, d: seq<B>, n: nat)
      requires n <= |k| - 2 && |d| == |k|
    {
      if n == 0 then d[0] == k[|k| - 1] && d[|k| - 1] == k[0]
      else d[n] == unmix(k[|k| - 1 - n]) && ReversedUpTo(k, d, n - 1)
    }

    lemma {:induction false} ReversedAt(k: seq<B>, d: seq<B>, n: nat)
      requires n <= |k| - 2 && |d| == |k|
      ensures ReversedUpTo(k, d, n)
              <==> d[0] == k[|k| - 1] && d[|k| - 1] == k[0] && forall r :: 0 < r <= n ==> d[r] == unmix(k[|k| - 1 - r])
    {
      if n > 0 {
        ReversedAt(k, d, n - 1);
      }
    }

    /** Each round of the inverse cipher takes back one round of the cipher. */
    lemma {:induction false} InvRoundsUndo(k: seq<B>, r: nat, s: B)
      requires Laws() && r < |k| - 1
      ensures InvRounds(k, r, Cipher(k, s)) == sub(Rounds(k, |k| - 2 - r, s))
    {
      if r > 0 {
        InvRoundsUndo(k, r - 1, s);
      }
    }

    /** The inverse cipher undoes the cipher, for every number of rounds and all keys. */
    lemma InvCipherUndoes(k: seq<B>, s: B)
      requires Laws() && |k| >= 2
      ensures InvCipher(k, Cipher(k, s)) == s
    {
      InvRoundsUndo(k, |k| - 2, s);
    }

    /** Each round of the cipher takes back one round of the inverse cipher. */
    lemma {:induction false} RoundsUndo(k: seq<B>, r: nat, s: B)
      requires Laws() && r < |k| - 1
      ensures Rounds(k, r, InvCipher(k, s)) == unsub(InvRounds(k, |k| - 2 - r, s))
    {
      if r > 0 {
        RoundsUndo(k, r - 1, s);
      }
    }

    /** The cipher undoes the inverse cipher. */
    lemma CipherUndoes(k: seq<B>, s: B)
      requires Laws() && |k| >= 2
      ensures Cipher(k, InvCipher(k, s)) == s
    {
      RoundsUndo(k, |k| - 2, s);
    }

    lemma {:induction false} EqRoundsAgree(k: seq<B>, d: seq<B>, r: nat, s: B)
      requires Laws() && Reversed(k, d) && r < |k| - 1
      ensures Inverse().Rounds(d, r, s) == InvRounds(k, r, s)
    {
      ReversedAt(k, d, |k| - 2);
      if r > 0 {
        EqRoundsAgree(k, d, r - 1, s);
      }
    }

    /** With the reversed keys both inverse ciphers are the same function. */
    lemma EquivalentInverse(k: seq<B>, d: seq<B>, s: B)
      requires Laws() && Reversed(k, d)
      ensures EqInvCipher(d, s) == InvCipher(k, s)
    {
      ReversedAt(k, d, |k| - 2);
      EqRoundsAgree(k, d, |k| - 2, s);
    }
  }

  /** Four words: a state, or a round key. */
  datatype Quad<W> = Quad(w0: W, w1: W, w2: W, w3: W)

  function KeyWords<W>(rk: seq<W>, p: nat): Quad<W>
    requires p + 4 <= |rk|
  {
    Quad(rk[p], rk[p + 1], rk[p + 2], rk[p + 3])
  }

  /** The words of round key `r`. */
  function KeyQuad<W>(rk: seq<W>, r: nat): Quad<W>
    requires 4 * r + 4 <= |rk|
  {
    KeyWords(rk, 4 * r)
  }

  /** The words of a schedule of `rounds` rounds hold the round keys. */
  ghost predicate Scheduled<W(!new), B(!new)>(rk: seq<W>, rounds: nat, pack: B -> Quad<W>, keys: seq<B>) {
    && 4 * rounds + 4 <= |rk|
    && |keys| == rounds + 1
    && forall r {:trigger KeyQuad(rk, r)} :: 0 <= r <= rounds ==> KeyQuad(rk, r) == pack(keys[r])
  }

  /** The steps of a table-driven implementation: key addition, a full round, the last round. */
  datatype Engine<!W(!new)> = Engine(add: (Quad<W>, Quad<W>) -> Quad<W>, round: (Quad<W>, Quad<W>) -> Quad<W>,
                                     last: (Quad<W>, Quad<W>) -> Quad<W>) {
    /** Each step is the step of the cipher, on states stored as words. */
    ghost predicate Refines<B(!new)>(l: Layers<B>, pack: B -> Quad<W>) {
      && (forall s, k :: add(pack(s), pack(k)) == pack(l.add(s, k)))
      && (forall s, k :: round(pack(s), pack(k)) == pack(l.add(l.mix(l.sub(s)), k)))
      && (forall s, k :: last(pack(s), pack(k)) == pack(l.add(l.sub(s), k)))
    }

    /**
     The loop that AES_encrypt and AES_decrypt share: two rounds an iteration, left in the middle of
     the last one, are the Nr - 1 full rounds; the last round follows.
     */
    method Crypt<B(!new)>(rk: seq<W>, rounds: nat, input: Quad<W>, ghost l: Layers<B>, ghost pack: B -> Quad<W>,
        ghost keys: seq<B>, ghost block: B)
      returns (out: Quad<W>)
      requires Refines(l, pack) && rounds >= 2 && rounds % 2 == 0 && Scheduled(rk, rounds, pack, keys)
      requires input == pack(block)
      ensures out == pack(l.Cipher(keys, block))
    {
      var p := 0;
      assert KeyQuad(rk, 0) == pack(keys[0]);
      var s := add(input, KeyWords(rk, p));
      var t: Quad<W>;
      var r := rounds / 2;
      ghost var done := 0;
      while true
        invariant 0 < r && done + 2 * r == rounds && p == 4 * done
        invariant s == pack(l.Rounds(keys, done, block))
        decreases r
      {
        assert KeyQuad(rk, done + 1) == pack(keys[done + 1]);
        t := round(s, KeyWords(rk, p + 4));
        p := p + 8;
        assert KeyQuad(rk, done + 2) == pack(keys[done + 2]);
        r := r - 1;
        if r == 0 {
          break;
        }
        s := round(t, KeyWords(rk, p));
        done := done + 2;
      }
      out := last(t, KeyWords(rk, p));
    }
  }
}
