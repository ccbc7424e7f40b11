/**
 `unsigned long` as 64 bits, with the C operators bit by bit, and the binary searches for
 the first and the last set bit (bitops.h).
 */
module Words {

  const BITS: nat := 64

  type Word = w: seq<bool> | |w| == BITS witness seq(BITS, _ => false)

  function Zero(): (w: Word)
    ensures forall i :: 0 <= i < BITS ==> !w[i]
  {
    seq(BITS, _ => false)
  }

  /** `~0UL`. */
  function Ones(): (w: Word)
    ensures forall i :: 0 <= i < BITS ==> w[i]
  {
    seq(BITS, _ => true)
  }

  function And(a: Word, b: Word): (w: Word)
    ensures forall i :: 0 <= i < BITS ==> w[i] == (a[i] && b[i])
  {
    seq(BITS, i requires 0 <= i < BITS => a[i] && b[i])
  }

  function Or(a: Word, b: Word): (w: Word)
    ensures forall i :: 0 <= i < BITS ==> w[i] == (a[i] || b[i])
  {
    seq(BITS, i requires 0 <= i < BITS => a[i] || b[i])
  }

  function Not(a: Word): (w: Word)
    ensures forall i :: 0 <= i < BITS ==> w[i] == !a[i]
  {
    seq(BITS, i requires 0 <= i < BITS => !a[i])
  }

  function Shl(a: Word, k: nat): (w: Word)
    ensures forall i :: 0 <= i < BITS ==> w[i] == (i >= k && a[i - k])
  {
    seq(BITS, i requires 0 <= i < BITS => i >= k && a[i - k])
  }

  function Shr(a: Word, k: nat): (w: Word)
    ensures forall i :: 0 <= i < BITS ==> w[i] == (i + k < BITS && a[i + k])
  {
    seq(BITS, i requires 0 <= i < BITS => i + k < BITS && a[i + k])
  }

  predicate IsZero(w: Word) { forall i :: 0 <= i < BITS ==> !w[i] }

  /** A mask such as 0xffff: the low `n` bits. */
  function LowMask(n: nat): (w: Word)
    ensures forall i :: 0 <= i < BITS ==> w[i] == (i < n)
  {
    seq(BITS, i => i < n)
  }

  // ---------- the lowest set bit ----------

  /** The lowest set bit of `w` is somewhere in [lo, lo + n). */
  ghost predicate LowWindow(w: Word, lo: nat, n: nat) {
    lo + n <= BITS && (forall j :: 0 <= j < lo ==> !w[j]) && exists j :: lo <= j < lo + n && w[j]
  }

  /** One step of bitops_ffsl: look at the low `n` bits of what is left. */
  method LowHalf(w: Word, word: Word, num: nat, n: nat) returns (word': Word, num': nat)
    requires n > 0 && LowWindow(w, num, 2 * n) && word == Shr(w, num)
    ensures LowWindow(w, num', n) && word' == Shr(w, num')
  {
    word', num' := word, num;
    if IsZero(And(word, LowMask(n))) {
      forall j | num <= j < num + n ensures !w[j] {
        assert !And(word, LowMask(n))[j - num];
        assert word[j - num] == w[j];
      }
      num' := num + n;
      word' := Shr(word, n);
      assert forall i :: 0 <= i < BITS ==> Shr(word, n)[i] == Shr(w, num + n)[i];
    } else {
      var i :| 0 <= i < BITS && And(word, LowMask(n))[i];
      assert i < n && w[num + i];
    }
  }

  /** The last test of bitops_ffsl, which has nothing left to shift. */
  method LowLast(w: Word, word: Word, num: nat) returns (num': nat)
    requires LowWindow(w, num, 2) && word == Shr(w, num)
    ensures num' < BITS && w[num'] && forall j :: 0 <= j < num' ==> !w[j]
  {
    num' := num;
    if IsZero(And(word, LowMask(1))) {
      assert !And(word, LowMask(1))[0];
      num' := num + 1;
    } else {
      var i :| 0 <= i < BITS && And(word, LowMask(1))[i];
      assert i == 0;
    }
  }

  lemma WholeWord(w: Word)
    requires !IsZero(w)
    ensures LowWindow(w, 0, BITS) && w == Shr(w, 0)
    ensures HighWindow(w, BITS - 1, BITS) && w == Shl(w, 0)
  {
    var j :| 0 <= j < BITS && w[j];
    assert forall i :: 0 <= i < BITS ==> Shr(w, 0)[i] == w[i] && Shl(w, 0)[i] == w[i];
  }

  /** `bitops_ffsl`: binary search for the lowest set bit. */
  method Ffsl(w: Word) returns (num: nat)
    requires !IsZero(w)
    ensures num < BITS && w[num] && forall j :: 0 <= j < num ==> !w[j]
  {
    WholeWord(w);
    var word;
    word, num := LowHalf(w, w, 0, 32);
    word, num := LowHalf(w, word, num, 16);
    word, num := LowHalf(w, word, num, 8);
    word, num := LowHalf(w, word, num, 4);
    word, num := LowHalf(w, word, num, 2);
    num := LowLast(w, word, num);
  }

  /** `ffz`. */
  method Ffz(w: Word) returns (num: nat)
    requires !IsZero(Not(w))
    ensures num < BITS && !w[num] && forall j :: 0 <= j < num ==> w[j]
  {
    num := Ffsl(Not(w));
    assert forall j :: 0 <= j < BITS ==> Not(w)[j] == !w[j];
  }

  // ---------- the highest set bit ----------

  /** The highest set bit of `w` is somewhere in (hi - n, hi]. */
  ghost predicate HighWindow(w: Word, hi: int, n: nat) {
    n - 1 <= hi < BITS && (forall j :: hi < j < BITS ==> !w[j]) && exists j :: 0 <= j < BITS && hi - n < j <= hi && w[j]
  }

  /** One step of bitops_flsl: look at the top `n` bits of what is left. */
  method HighHalf(w: Word, word: Word, num: int, n: nat) returns (word': Word, num': int)
    requires 0 < n < BITS && HighWindow(w, num, 2 * n) && word == Shl(w, BITS - 1 - num)
    ensures HighWindow(w, num', n) && word' == Shl(w, BITS - 1 - num')
  {
    word', num' := word, num;
    var top := Shl(Ones(), BITS - n);
    if IsZero(And(word, top)) {
      forall j | num - n < j <= num ensures !w[j] {
        var i := j + (BITS - 1 - num);
        assert !And(word, top)[i];
        assert word[i] == w[j];
      }
      num' := num - n;
      word' := Shl(word, n);
      assert forall i :: 0 <= i < BITS ==> Shl(word, n)[i] == Shl(w, BITS - 1 - num')[i];
    } else {
      var i :| 0 <= i < BITS && And(word, top)[i];
      assert i >= BITS - n && w[i - (BITS - 1 - num)];
    }
  }

  /** The last test of bitops_flsl. */
  method HighLast(w: Word, word: Word, num: int) returns (num': nat)
    requires HighWindow(w, num, 2) && word == Shl(w, BITS - 1 - num)
    ensures num' < BITS && w[num'] && forall j :: num' < j < BITS ==> !w[j]
  {
    var top := Shl(Ones(), BITS - 1);
    if IsZero(And(word, top)) {
      assert !And(word, top)[BITS - 1];
      num' := num - 1;
    } else {
      var i :| 0 <= i < BITS && And(word, top)[i];
      assert i == BITS - 1;
      num' := num;
    }
  }

  /** `bitops_flsl`: binary search for the highest set bit. */
  method Flsl(w: Word) returns (num: nat)
    requires !IsZero(w)
    ensures num < BITS && w[num] && forall j :: num < j < BITS ==> !w[j]
  {
    WholeWord(w);
    var word, n := HighHalf(w, w, BITS - 1, 32);
    word, n := HighHalf(w, word, n, 16);
    word, n := HighHalf(w, word, n, 8);
    word, n := HighHalf(w, word, n, 4);
    word, n := HighHalf(w, word, n, 2);
    num := HighLast(w, word, n);
  }
}
