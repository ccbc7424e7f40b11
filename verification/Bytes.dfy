/**
 Bytes, unsigned bit operations on naturals and the big-endian words of a
 migration stream.
 */
module Bytes {

  type byte = b: int | 0 <= b < 256

  const TWO_TO_THE_64: nat := 0x1_0000_0000_0000_0000

  datatype Option<+T> = None | Some(value: T)

  function Pow2(k: nat): (r: nat)
    ensures r > 0
  {
    if k == 0 then 1 else 2 * Pow2(k - 1)
  }

  // The C operators `|` and `&` on unsigned values, bit by bit.

  function Or(a: nat, b: nat): nat
    decreases a + b
  {
    if a == 0 && b == 0 then 0
    else 2 * Or(a / 2, b / 2) + (if a % 2 == 1 || b % 2 == 1 then 1 else 0)
  }

  function And(a: nat, b: nat): nat
    decreases a
  {
    if a == 0 then 0
    else 2 * And(a / 2, b / 2) + (if a % 2 == 1 && b % 2 == 1 then 1 else 0)
  }

  /** Halving commutes with reduction modulo a power of two. */
  lemma HalveMod(a: nat, k: nat)
    requires k > 0
    ensures (a % Pow2(k)) / 2 == (a / 2) % Pow2(k - 1)
    ensures (a % Pow2(k)) % 2 == a % 2
  {
    var m := Pow2(k - 1);
    var q, r := (a / 2) / m, (a / 2) % m;
    assert a / 2 == q * m + r;
    var low := 2 * r + a % 2;
    assert a == 2 * (q * m + r) + a % 2 == q * (2 * m) + low;
    assert 0 <= low < 2 * m;
    DivModUnique(a, 2 * m, q, low);
  }

  lemma DivModUnique(a: nat, m: nat, q: nat, r: nat)
    requires m > 0 && r < m && a == q * m + r
    ensures a / m == q && a % m == r
  {
    var q', r' := a / m, a % m;
    assert a == q' * m + r';
    if q > q' {
      NextMultiple(q', q, m);
    } else if q < q' {
      NextMultiple(q, q', m);
    }
  }

  lemma NextMultiple(x: nat, y: nat, m: nat)
    requires x < y
    ensures y * m >= x * m + m
  {
    var d := y - x;
    assert (x + d) * m == x * m + d * m;
    assert d * m >= m;
  }

  /** An aligned value or-ed with flags below the alignment is their sum. */
  lemma {:induction false} OrAligned(a: nat, b: nat, k: nat)
    requires a % Pow2(k) == 0 && b < Pow2(k)
    ensures Or(a, b) == a + b
    decreases k
  {
    if k == 0 {
      OrZero(a);
    } else {
      HalveMod(a, k);
      OrAligned(a / 2, b / 2, k - 1);
    }
  }

  lemma {:induction false} OrZero(a: nat)
    ensures Or(a, 0) == a
  {
    if a > 0 {
      OrZero(a / 2);
    }
  }

  lemma {:induction false} OrZeroLeft(a: nat)
    ensures Or(0, a) == a
  {
    if a > 0 {
      OrZeroLeft(a / 2);
    }
  }

  lemma {:induction false} OrAssociative(a: nat, b: nat, c: nat)
    ensures Or(Or(a, b), c) == Or(a, Or(b, c))
    decreases a + b + c
  {
    if a + b + c > 0 {
      OrAssociative(a / 2, b / 2, c / 2);
    }
  }

  /** Masking with 2^k - 1 keeps the remainder modulo 2^k. */
  lemma {:induction false} AndLowMask(a: nat, k: nat)
    ensures And(a, Pow2(k) - 1) == a % Pow2(k)
    decreases k
  {
    if k == 0 {
      AndZero(a);
    } else {
      HalveMod(a, k);
      assert (Pow2(k) - 1) / 2 == Pow2(k - 1) - 1;
      AndLowMask(a / 2, k - 1);
      if a == 0 { assert a % Pow2(k) == 0; }
    }
  }

  lemma {:induction false} AndZero(a: nat)
    ensures And(a, 0) == 0
  {
    if a > 0 {
      AndZero(a / 2);
    }
  }

  /** `a` with its lowest `k` bits cleared. */
  function Floor(a: nat, k: nat): nat { if k == 0 then a else 2 * Floor(a / 2, k - 1) }

  lemma {:induction false} FloorIs(a: nat, k: nat)
    ensures Floor(a, k) == a - a % Pow2(k)
    decreases k
  {
    if k > 0 {
      FloorIs(a / 2, k - 1);
      HalveAligned(a, k);
    }
  }

  lemma {:induction false} AndFloor(a: nat, k: nat, n: nat)
    requires k <= n && a < Pow2(n)
    ensures Pow2(k) <= Pow2(n) && And(a, Pow2(n) - Pow2(k)) == Floor(a, k)
    decreases n
  {
    Pow2Monotone(k, n);
    if k == 0 {
      AndAll(a, n);
    } else {
      AndFloor(a / 2, k - 1, n - 1);
      AndEven(a, Pow2(n - 1) - Pow2(k - 1));
    }
  }

  /** Masking with ~(2^k - 1) in n bits drops the remainder modulo 2^k. */
  lemma AndHighMask(a: nat, k: nat, n: nat)
    requires k <= n && a < Pow2(n)
    ensures Pow2(k) <= Pow2(n) && And(a, Pow2(n) - Pow2(k)) == a - a % Pow2(k)
  {
    AndFloor(a, k, n);
    FloorIs(a, k);
  }

  lemma AndAll(a: nat, n: nat)
    requires a < Pow2(n)
    ensures And(a, Pow2(n) - 1) == a
  {
    AndLowMask(a, n);
    DivModUnique(a, Pow2(n), 0, a);
  }

  /** Rounding down to a multiple of 2^k, one bit at a time. */
  lemma HalveAligned(a: nat, k: nat)
    requires k > 0
    ensures a - a % Pow2(k) == 2 * (a / 2 - (a / 2) % Pow2(k - 1))
  {
    HalveMod(a, k);
    var r := a % Pow2(k);
    assert r == 2 * (r / 2) + r % 2 && a == 2 * (a / 2) + a % 2;
  }

  /** An even mask drops the lowest bit. */
  lemma AndEven(a: nat, m: nat)
    ensures And(a, 2 * m) == 2 * And(a / 2, m)
  {
    assert (2 * m) / 2 == m && (2 * m) % 2 == 0;
    if a == 0 {
      assert a / 2 == 0;
    }
  }

  lemma {:induction false} Pow2Monotone(k: nat, n: nat)
    requires k <= n
    ensures Pow2(k) <= Pow2(n)
    decreases n - k
  {
    if k < n {
      Pow2Monotone(k + 1, n);
    }
  }

  /** The C test `a & bit`, for a mask with the one bit `bit`. */
  predicate HasBit(a: nat, bit: nat)
    requires bit > 0
  {
    (a / bit) % 2 == 1
  }

  /** `HasBit` is the bitwise test. */
  lemma {:induction false} HasBitIsAnd(a: nat, k: nat)
    ensures HasBit(a, Pow2(k)) <==> And(a, Pow2(k)) != 0
    decreases k
  {
    if a == 0 {
      assert 0 / Pow2(k) == 0;
    } else if k == 0 {
      assert And(a, 1) == 2 * And(a / 2, 0) + (if a % 2 == 1 then 1 else 0);
      AndZero(a / 2);
      assert a / 1 == a;
    } else {
      var m := Pow2(k - 1);
      HasBitIsAnd(a / 2, k - 1);
      assert Pow2(k) / 2 == m && Pow2(k) % 2 == 0;
      HalveDiv(a, m);
    }
  }

  lemma HalveDiv(a: nat, m: nat)
    requires m > 0
    ensures (a / 2) / m == a / (2 * m)
  {
    var q, r := (a / 2) / m, (a / 2) % m;
    assert a / 2 == q * m + r;
    assert a == q * (2 * m) + (2 * r + a % 2);
    DivModUnique(a, 2 * m, q, 2 * r + a % 2);
  }

  lemma Pow2Of64()
    ensures Pow2(64) == TWO_TO_THE_64
  {
    Pow2Step(0); Pow2Step(8); Pow2Step(16); Pow2Step(24);
    Pow2Step(32); Pow2Step(40); Pow2Step(48); Pow2Step(56);
  }

  lemma Pow2Step(k: nat)
    ensures Pow2(k + 8) == 256 * Pow2(k)
  {
    assert Pow2(k + 4) == 2 * Pow2(k + 3) == 4 * Pow2(k + 2) == 8 * Pow2(k + 1) == 16 * Pow2(k);
    assert Pow2(k + 8) == 2 * Pow2(k + 7) == 4 * Pow2(k + 6) == 8 * Pow2(k + 5) == 16 * Pow2(k + 4);
  }

  lemma ModAligned(a: nat, b: nat, m: nat)
    requires m > 0 && a % m == 0 && b < m
    ensures (a + b) % m == b
  {
    var q := a / m;
    assert a == q * m;
    DivModUnique(a + b, m, q, b);
  }

  // Big-endian words.

  function Pow256(n: nat): nat { if n == 0 then 1 else 256 * Pow256(n - 1) }

  function Be(v: nat, n: nat): (s: seq<byte>)
    ensures |s| == n
  {
    if n == 0 then [] else Be(v / 256, n - 1) + [v % 256]
  }

  function FromBe(s: seq<byte>): nat {
    if s == [] then 0 else FromBe(s[..|s| - 1]) * 256 + s[|s| - 1]
  }

  lemma {:induction false} BeRoundTrip(v: nat, n: nat)
    requires v < Pow256(n)
    ensures FromBe(Be(v, n)) == v
    decreases n
  {
    if n > 0 {
      BeRoundTrip(v / 256, n - 1);
      assert Be(v, n)[..n - 1] == Be(v / 256, n - 1);
    }
  }

  lemma {:induction false} FromBeBelow(s: seq<byte>)
    ensures FromBe(s) < Pow256(|s|)
  {
    if s != [] {
      FromBeBelow(s[..|s| - 1]);
    }
  }

  lemma Pow256Is64Bits()
    ensures Pow256(8) == TWO_TO_THE_64
  {
    assert Pow256(2) == 256 * Pow256(1) == 0x1_0000;
    assert Pow256(4) == 256 * (256 * Pow256(2)) == 0x1_0000_0000;
    assert Pow256(6) == 256 * (256 * Pow256(4)) == 0x1_0000_0000_0000;
    assert Pow256(8) == 256 * (256 * Pow256(6));
  }
}
