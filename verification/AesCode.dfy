/**
 AES_KEY and the functions of aes.c that fill it and use it, for any pair of substitution tables.
 */
module AesCode {
  import opened Bytes
  import opened GaloisField
  import opened ProductCipher
  import opened AesCipher
  import opened AesWords
  import opened AesKeySchedule

  function ColAt(b: seq<Byte>, i: nat): Col
    requires i + 4 <= |b|
  {
    Col(b[i], b[i + 1], b[i + 2], b[i + 3])
  }

  /** The first `n` words of a user key. */
  function KeyCols(b: seq<Byte>, n: nat): (k: seq<Col>)
    requires 4 * n <= |b|
    ensures |k| == n
  {
    seq(n, i requires 0 <= i < n => ColAt(b, 4 * i))
  }

  predicate KeySize(bits: int) {
    bits == 128 || bits == 192 || bits == 256
  }

  /** The words hold the first `n` words of the schedule of `k`. */
  ghost predicate Filled(box: Box, rk: seq<Word>, k: seq<Col>, n: int) {
    |k| > 0 && n <= |rk| && forall j :: 0 <= j < n ==> rk[j] == Pack(Expand(box, k, j))
  }

  lemma FillNext(box: Box, rk: seq<Word>, k: seq<Col>, n: nat)
    requires Filled(box, rk, k, n) && |k| <= n < |rk|
    requires n % |k| != 0 && !(|k| > 6 && n % |k| == 4)
    requires rk[n] == Xor32(rk[n - |k|], rk[n - 1])
    ensures Filled(box, rk, k, n + 1)
  {
    PackXor(Expand(box, k, n - |k|), Expand(box, k, n - 1));
  }

  lemma ExpandFirst(box: Box, k: seq<Col>, n: nat)
    requires 0 < |k| <= n && n % |k| == 0
    ensures Expand(box, k, n)
            == AddCol(Expand(box, k, n - |k|), AddRcon(MapCol(box.sub, RotCol(Expand(box, k, n - 1))), n / |k|))
  {
  }

  lemma FillFirst(box: Box, rk: seq<Word>, k: seq<Col>, n: nat, rcon: Word)
    requires Filled(box, rk, k, n) && |k| <= n < |rk| && n % |k| == 0
    requires rcon == Pack(Col(Rcon(n / |k|), ZERO, ZERO, ZERO))
    requires rk[n] == FirstWord(box, rk[n - |k|], rk[n - 1], rcon)
    ensures Filled(box, rk, k, n + 1)
  {
    ExpandFirst(box, k, n);
    FirstWordExpands(box, Expand(box, k, n - |k|), Expand(box, k, n - 1), n / |k|);
  }

  lemma FillMiddle(box: Box, rk: seq<Word>, k: seq<Col>, n: nat)
    requires Filled(box, rk, k, n) && |k| <= n < |rk|
    requires |k| > 6 && n % |k| == 4
    requires rk[n] == MiddleWord(box, rk[n - |k|], rk[n - 1])
    ensures Filled(box, rk, k, n + 1)
  {
    MiddleWordExpands(box, Expand(box, k, n - |k|), Expand(box, k, n - 1));
  }

  /** The round key held in words 4r to 4r + 3. */
  function KeyAt(rk: seq<Word>, r: nat): State
    requires 4 * r + 4 <= |rk|
  {
    UnpackState(KeyQuad(rk, r))
  }

  function Schedule(rk: seq<Word>, rounds: nat): (keys: seq<State>)
    requires 4 * rounds + 4 <= |rk|
    ensures |keys| == rounds + 1
  {
    seq(rounds + 1, r requires 0 <= r <= rounds => KeyAt(rk, r))
  }

  lemma FilledKey(box: Box, rk: seq<Word>, k: seq<Col>, n: nat, r: nat)
    requires Filled(box, rk, k, n) && 4 * r + 4 <= n
    ensures KeyAt(rk, r) == RoundKey(box, k, r)
  {
    UnpackPack(Expand(box, k, 4 * r));
    UnpackPack(Expand(box, k, 4 * r + 1));
    UnpackPack(Expand(box, k, 4 * r + 2));
    UnpackPack(Expand(box, k, 4 * r + 3));
  }

  lemma FilledSchedule(box: Box, rk: seq<Word>, k: seq<Col>, rounds: nat)
    requires Filled(box, rk, k, 4 * rounds + 4)
    ensures Schedule(rk, rounds) == RoundKeys(box, k, rounds)
  {
    forall r | 0 <= r <= rounds
      ensures KeyAt(rk, r) == RoundKey(box, k, r)
    {
      FilledKey(box, rk, k, 4 * rounds + 4, r);
    }
  }

  /** The inverse MixColumn transform of a word, through the tables: Td after Te4 is Td without the S-box. */
  function InvMixWord(box: Box, w: Word): Word {
    Xor32(Xor32(Xor32(Td0(box, Byte3(Te4(box, Byte0(w)))), Td1(box, Byte3(Te4(box, Byte1(w))))),
                Td2(box, Byte3(Te4(box, Byte2(w))))),
          Td3(box, Byte3(Te4(box, Byte3(w)))))
  }

  lemma InvMixWordMixes(box: Box, w: Word)
    requires box.Valid()
    ensures Unpack(InvMixWord(box, w)) == InvMixCol(Unpack(w))
  {
    var c := Unpack(w);
    TableByte(box, c.b0);
    TableByte(box, c.b1);
    TableByte(box, c.b2);
    TableByte(box, c.b3);
    InvMixIsSum(c.b0, c.b1, c.b2, c.b3);
    PackSum4(D0(c.b0), D1(c.b1), D2(c.b2), D3(c.b3));
    UnpackPack(InvMixCol(c));
  }

  function InvMixFunction(box: Box): Word -> Word { w => InvMixWord(box, w) }

  lemma InvMixFunctionUnmixes(box: Box)
    requires box.Valid()
    ensures Unmixes(InvMixFunction(box))
  {
    forall w: Word ensures Unpack(InvMixFunction(box)(w)) == InvMixCol(Unpack(w)) {
      InvMixWordMixes(box, w);
    }
  }

  lemma TableByte(box: Box, x: Byte)
    ensures Byte3(Te4(box, x)) == box.sub(x)
  {
    var s := box.sub(x);
    UnpackPack(Col(s, s, s, s));
  }

  /** `f` is the inverse MixColumn transform on words. */
  ghost predicate Unmixes(f: Word -> Word) {
    forall w :: Unpack(f(w)) == InvMixCol(Unpack(w))
  }

  function MapQuad<W>(f: W -> W, q: Quad<W>): Quad<W> { Quad(f(q.w0), f(q.w1), f(q.w2), f(q.w3)) }

  /** Round keys `a` with the order inverted and `f` applied to all but the first and last give `d`. */
  ghost predicate Inverted<W>(a: seq<W>, d: seq<W>, rounds: nat, f: W -> W) {
    && |a| == |d| >= 4 * rounds + 4
    && KeyQuad(d, 0) == KeyQuad(a, rounds)
    && KeyQuad(d, rounds) == KeyQuad(a, 0)
    && forall r {:trigger KeyQuad(d, r)} :: 0 < r < rounds ==> KeyQuad(d, r) == MapQuad(f, KeyQuad(a, rounds - r))
  }

  lemma UnmixesQuad(f: Word -> Word, q: Quad<Word>)
    requires Unmixes(f)
    ensures UnpackState(MapQuad(f, q)) == InvMix(UnpackState(q))
  {
  }

  /** The inverse mixing layer is InvMixColumns. */
  ghost predicate Unmixing(l: Layers<State>) {
    forall s {:trigger InvMix(s)} :: l.unmix(s) == InvMix(s)
  }

  lemma ReversedKeys(l: Layers<State>, a: seq<Word>, d: seq<Word>, rounds: nat)
    requires rounds >= 1 && |a| == |d| >= 4 * rounds + 4
    requires KeyAt(d, 0) == KeyAt(a, rounds) && KeyAt(d, rounds) == KeyAt(a, 0)
    requires forall r :: 0 < r < rounds ==> KeyAt(d, r) == l.unmix(KeyAt(a, rounds - r))
    ensures l.Reversed(Schedule(a, rounds), Schedule(d, rounds))
  {
    l.ReversedAt(Schedule(a, rounds), Schedule(d, rounds), rounds - 1);
  }

  /** Inverting the order and mixing the inner words gives the keys of the equivalent inverse cipher. */
  lemma ReversedSchedule(l: Layers<State>, a: seq<Word>, d: seq<Word>, rounds: nat, f: Word -> Word)
    requires rounds >= 1 && Inverted(a, d, rounds, f) && Unmixes(f)
    requires Unmixing(l)
    ensures l.Reversed(Schedule(a, rounds), Schedule(d, rounds))
  {
    forall r | 0 < r < rounds
      ensures KeyAt(d, r) == l.unmix(KeyAt(a, rounds - r))
    {
      UnmixesQuad(f, KeyQuad(a, rounds - r));
    }
    ReversedKeys(l, a, d, rounds);
  }

  method SwapKeys<T>(rk: array<T>, i: nat, j: nat, ghost a: nat, ghost b: nat)
    requires i == 4 * a && j == 4 * b && a < b && j + 4 <= rk.Length
    modifies rk
    ensures KeyQuad(rk[..], a) == old(KeyQuad(rk[..], b)) && KeyQuad(rk[..], b) == old(KeyQuad(rk[..], a))
    ensures forall r {:trigger KeyQuad(rk[..], r)} :: 0 <= r && r != a && r != b && 4 * r + 4 <= rk.Length
              ==> KeyQuad(rk[..], r) == old(KeyQuad(rk[..], r))
  {
    ghost var was := rk[..];
    rk[i], rk[j] := rk[j], rk[i];
    rk[i + 1], rk[j + 1] := rk[j + 1], rk[i + 1];
    rk[i + 2], rk[j + 2] := rk[j + 2], rk[i + 2];
    rk[i + 3], rk[j + 3] := rk[j + 3], rk[i + 3];
    forall r | 0 <= r && r != a && r != b && 4 * r + 4 <= rk.Length
      ensures KeyQuad(rk[..], r) == KeyQuad(was, r)
    {
      OtherKey(was, rk[..], a, b, r);
    }
  }

  lemma OtherKey<T>(was: seq<T>, rk: seq<T>, a: nat, b: nat, r: nat)
    requires |was| == |rk| && r != a && r != b && 4 * r + 4 <= |rk|
    requires forall m :: 0 <= m < |rk| && (m < 4 * a || 4 * a + 4 <= m) && (m < 4 * b || 4 * b + 4 <= m)
               ==> rk[m] == was[m]
    ensures KeyQuad(rk, r) == KeyQuad(was, r)
  {
  }

  /** The loop of `AES_set_decrypt_key` that inverts the order of the round keys. */
  method InvertOrder<T>(rk: array<T>, rounds: nat)
    requires 4 * rounds + 4 <= rk.Length
    modifies rk
    ensures forall r {:trigger KeyQuad(rk[..], r)} :: 0 <= r <= rounds
              ==> KeyQuad(rk[..], r) == old(KeyQuad(rk[..], rounds - r))
  {
    var i, j := 0, 4 * rounds;
    ghost var a, was := 0, rk[..];
    while i < j
      invariant i == 4 * a && j == 4 * (rounds - a) && a <= rounds - a + 1
      invariant forall r {:trigger KeyQuad(rk[..], r)} :: 0 <= r <= rounds ==>
                  KeyQuad(rk[..], r) == if r < a || r > rounds - a then KeyQuad(was, rounds - r) else KeyQuad(was, r)
    {
      SwapKeys(rk, i, j, a, rounds - a);
      i, j, a := i + 4, j - 4, a + 1;
    }
  }

  /** The loop of `AES_set_decrypt_key` that transforms all round keys but the first and the last. */
  method MapInnerKeys<T>(rk: array<T>, rounds: nat, f: T -> T)
    requires 1 <= rounds && 4 * rounds + 4 <= rk.Length
    modifies rk
    ensures forall r {:trigger KeyQuad(rk[..], r)} :: 0 <= r <= rounds ==>
              KeyQuad(rk[..], r)
              == if 0 < r < rounds then MapQuad(f, old(KeyQuad(rk[..], r))) else old(KeyQuad(rk[..], r))
  {
    var i, p := 1, 0;
    ghost var was := rk[..];
    while i < rounds
      invariant 1 <= i <= rounds && p == 4 * i - 4
      invariant forall r {:trigger KeyQuad(rk[..], r)} :: 0 <= r <= rounds ==>
                  KeyQuad(rk[..], r) == if 0 < r < i then MapQuad(f, KeyQuad(was, r)) else KeyQuad(was, r)
    {
      p := p + 4;
      MapKey(rk, p, f, i);
      i := i + 1;
    }
  }

  /** The second half of `AES_set_decrypt_key`. */
  method InvertKeys<T>(rk: array<T>, rounds: nat, f: T -> T)
    requires 1 <= rounds && 4 * rounds + 4 <= rk.Length
    modifies rk
    ensures Inverted(old(rk[..]), rk[..], rounds, f)
  {
    InvertOrder(rk, rounds);
    MapInnerKeys(rk, rounds, f);
  }

  method MapKey<T>(rk: array<T>, p: nat, f: T -> T, ghost a: nat)
    requires p == 4 * a && p + 4 <= rk.Length
    modifies rk
    ensures KeyQuad(rk[..], a) == MapQuad(f, old(KeyQuad(rk[..], a)))
    ensures forall r {:trigger KeyQuad(rk[..], r)} :: 0 <= r && r != a && 4 * r + 4 <= rk.Length
              ==> KeyQuad(rk[..], r) == old(KeyQuad(rk[..], r))
  {
    rk[p] := f(rk[p]);
    rk[p + 1] := f(rk[p + 1]);
    rk[p + 2] := f(rk[p + 2]);
    rk[p + 3] := f(rk[p + 3]);
  }

  class Key {
    const box: Box
    const rdKey: array<Word>
    var rounds: nat

    constructor (box: Box)
      ensures this.box == box && fresh(rdKey) && rdKey.Length == 60
    {
      this.box := box;
      rdKey := new Word[60](_ => Word(0));
      rounds := 0;
    }

    /** `rk[n] = rk[n - period] ^ rk[n - 1]`. */
    method Next(period: nat, n: nat, ghost k: seq<Col>)
      requires rdKey.Length == 60 && Filled(box, rdKey[..], k, n) && |k| == period <= n < 60
      requires n % period != 0 && !(period > 6 && n % period == 4)
      modifies rdKey
      ensures Filled(box, rdKey[..], k, n + 1)
    {
      rdKey[n] := Xor32(rdKey[n - period], rdKey[n - 1]);
      FillNext(box, rdKey[..], k, n);
    }

    /** The word that starts period `i + 1`. */
    method First(period: nat, n: nat, i: nat, ghost k: seq<Col>)
      requires rdKey.Length == 60 && Filled(box, rdKey[..], k, n) && 0 < |k| == period <= n < 60
      requires n % period == 0 && n / period == i + 1 && i < 10
      modifies rdKey
      ensures Filled(box, rdKey[..], k, n + 1)
    {
      rdKey[n] := FirstWord(box, rdKey[n - period], rdKey[n - 1], RCON[i]);
      RconPacked(i);
      FillFirst(box, rdKey[..], k, n, RCON[i]);
    }

    method Middle(n: nat, ghost k: seq<Col>)
      requires rdKey.Length == 60 && Filled(box, rdKey[..], k, n) && |k| == 8 <= n < 60
      requires n % 8 == 4
      modifies rdKey
      ensures Filled(box, rdKey[..], k, n + 1)
    {
      rdKey[n] := MiddleWord(box, rdKey[n - 8], rdKey[n - 1]);
      FillMiddle(box, rdKey[..], k, n);
    }

    /** The expansion loop for a key of four words. */
    method Expand128(ghost k: seq<Col>)
      requires rdKey.Length == 60 && Filled(box, rdKey[..], k, 4) && |k| == 4
      modifies rdKey
      ensures Filled(box, rdKey[..], k, 44)
    {
      var i, rk := 0, 0;
      while true
        invariant i < 10 && rk == 4 * i && Filled(box, rdKey[..], k, rk + 4)
        decreases 10 - i
      {
        First(4, rk + 4, i, k);
        Next(4, rk + 5, k);
        Next(4, rk + 6, k);
        Next(4, rk + 7, k);
        i := i + 1;
        if i == 10 {
          return;
        }
        rk := rk + 4;
      }
    }

    /** The expansion loop for a key of six words. */
    method Expand192(ghost k: seq<Col>)
      requires rdKey.Length == 60 && Filled(box, rdKey[..], k, 6) && |k| == 6
      modifies rdKey
      ensures Filled(box, rdKey[..], k, 52)
    {
      var i, rk := 0, 0;
      while true
        invariant i < 8 && rk == 6 * i && Filled(box, rdKey[..], k, rk + 6)
        decreases 8 - i
      {
        First(6, rk + 6, i, k);
        Next(6, rk + 7, k);
        Next(6, rk + 8, k);
        Next(6, rk + 9, k);
        i := i + 1;
        if i == 8 {
          return;
        }
        Next(6, rk + 10, k);
        Next(6, rk + 11, k);
        rk := rk + 6;
      }
    }

    /** The expansion loop for a key of eight words. */
    method Expand256(ghost k: seq<Col>)
      requires rdKey.Length == 60 && Filled(box, rdKey[..], k, 8) && |k| == 8
      modifies rdKey
      ensures Filled(box, rdKey[..], k, 60)
    {
      var i, rk := 0, 0;
      while true
        invariant i < 7 && rk == 8 * i && Filled(box, rdKey[..], k, rk + 8)
        decreases 7 - i
      {
        First(8, rk + 8, i, k);
        Next(8, rk + 9, k);
        Next(8, rk + 10, k);
        Next(8, rk + 11, k);
        i := i + 1;
        if i == 7 {
          return;
        }
        Middle(rk + 12, k);
        Next(8, rk + 13, k);
        Next(8, rk + 14, k);
        Next(8, rk + 15, k);
        rk := rk + 8;
      }
    }

    /** `rk[i] = GETU32(userKey + 4 * i)` for `i` from `from` to `to - 1`. */
    method LoadWords(userKey: seq<Byte>, from: nat, to: nat, ghost k: seq<Col>)
      requires rdKey.Length == 60 && from <= to <= |k| <= 60 && 4 * |k| <= |userKey| && k == KeyCols(userKey, |k|)
      requires |k| > 0 && Filled(box, rdKey[..], k, from)
      modifies rdKey
      ensures Filled(box, rdKey[..], k, to)
    {
      for i := from to to
        invariant Filled(box, rdKey[..], k, i)
      {
        rdKey[i] := Pack(ColAt(userKey, 4 * i));
      }
    }

    /**
     `AES_set_encrypt_key`: the error codes, and for a key of 128, 192 or 256 bits the number of rounds
     and the schedule of section 5.2 of FIPS 197.
     */
    method SetEncryptKey(userKey: Option<seq<Byte>>, bits: int) returns (status: int)
      requires rdKey.Length == 60
      requires userKey.Some? && KeySize(bits) ==> bits <= 8 * |userKey.value|
      modifies this`rounds, rdKey
      ensures status == if userKey.None? then -1 else if !KeySize(bits) then -2 else 0
      ensures status != 0 ==> rounds == old(rounds) && rdKey[..] == old(rdKey[..])
      ensures status == 0 ==> rounds == bits / 32 + 6
      ensures status == 0 ==> Schedule(rdKey[..], rounds) == RoundKeys(box, KeyCols(userKey.value, bits / 32), rounds)
    {
      if userKey.None? {
        return -1;
      }
      if bits != 128 && bits != 192 && bits != 256 {
        return -2;
      }
      if bits == 128 {
        rounds := 10;
      } else if bits == 192 {
        rounds := 12;
      } else {
        rounds := 14;
      }
      ghost var k := KeyCols(userKey.value, bits / 32);
      LoadWords(userKey.value, 0, 4, k);
      if bits == 128 {
        Expand128(k);
        FilledSchedule(box, rdKey[..], k, 10);
        return 0;
      }
      LoadWords(userKey.value, 4, 6, k);
      if bits == 192 {
        Expand192(k);
        FilledSchedule(box, rdKey[..], k, 12);
        return 0;
      }
      LoadWords(userKey.value, 6, 8, k);
      Expand256(k);
      FilledSchedule(box, rdKey[..], k, 14);
      return 0;
    }

    /** `AES_set_decrypt_key`: the schedule of the equivalent inverse cipher for the same user key. */
    method SetDecryptKey(userKey: Option<seq<Byte>>, bits: int, ghost l: Layers<State>) returns (status: int)
      requires rdKey.Length == 60 && box.Valid() && Unmixing(l)
      requires userKey.Some? && KeySize(bits) ==> bits <= 8 * |userKey.value|
      modifies this`rounds, rdKey
      ensures status == if userKey.None? then -1 else if !KeySize(bits) then -2 else 0
      ensures status != 0 ==> rounds == old(rounds) && rdKey[..] == old(rdKey[..])
      ensures status == 0 ==> rounds == bits / 32 + 6
      ensures status == 0
              ==> l.Reversed(RoundKeys(box, KeyCols(userKey.value, bits / 32), rounds), Schedule(rdKey[..], rounds))
    {
      status := SetEncryptKey(userKey, bits);
      if status < 0 {
        return;
      }
      ghost var enc := rdKey[..];
      InvertKeys(rdKey, rounds, InvMixFunction(box));
      InvMixFunctionUnmixes(box);
      ReversedSchedule(l, enc, rdKey[..], rounds, InvMixFunction(box));
    }
  }
}
