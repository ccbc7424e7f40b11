/**
 Bit search and range update over arrays of words (bitops.c, bitmap.c), against a plain
 linear scan of the bits.
 */
module Bitmaps {
  import opened Words
  import B = Bytes

  function Bit(map_: seq<Word>, i: nat): bool
    requires i < |map_| * BITS
  {
    map_[i / BITS][i % BITS]
  }

  /** Linear scan: the first position from `i` on whose bit is `v`, or `size`. */
  function Scan(map_: seq<Word>, v: bool, i: nat, size: nat): nat
    requires size <= |map_| * BITS
    decreases size - i
  {
    if i >= size then size else if Bit(map_, i) == v then i else Scan(map_, v, i + 1, size)
  }

  /** Linear scan downwards: the last position below `size` whose bit is set, or `none`. */
  function ScanDown(map_: seq<Word>, size: nat, none: nat): nat
    requires size <= |map_| * BITS
  {
    if size == 0 then none else if Bit(map_, size - 1) then size - 1 else ScanDown(map_, size - 1, none)
  }

  /** All bits in [lo, hi) are `v`. */
  predicate All(map_: seq<Word>, v: bool, lo: nat, hi: nat)
    requires hi <= |map_| * BITS
  {
    forall i :: lo <= i < hi ==> Bit(map_, i) == v
  }

  lemma {:induction false} ScanFinds(map_: seq<Word>, v: bool, i: nat, size: nat, r: nat)
    requires size <= |map_| * BITS && i <= r <= size && All(map_, !v, i, r) && (r < size ==> Bit(map_, r) == v)
    ensures Scan(map_, v, i, size) == r
    decreases r - i
  {
    if i < r {
      assert Bit(map_, i) == !v;
      ScanFinds(map_, v, i + 1, size, r);
    }
  }

  lemma {:induction false} ScanResult(map_: seq<Word>, v: bool, i: nat, size: nat)
    requires size <= |map_| * BITS && i <= size
    ensures var r := Scan(map_, v, i, size);
            i <= r <= size && All(map_, !v, i, r) && (r < size ==> Bit(map_, r) == v)
    decreases size - i
  {
    if i < size && Bit(map_, i) != v {
      ScanResult(map_, v, i + 1, size);
    }
  }

  lemma {:induction false} ScanDownFinds(map_: seq<Word>, size: nat, none: nat, r: nat)
    requires size <= |map_| * BITS
    requires if r < size then Bit(map_, r) && All(map_, false, r + 1, size) else r == none && All(map_, false, 0, size)
    ensures ScanDown(map_, size, none) == r
    decreases size
  {
    if size > 0 && !Bit(map_, size - 1) {
      ScanDownFinds(map_, size - 1, none, r);
    }
  }

  /**
   `tmp` is the word at `base` with the bits before `offset` made uninteresting for a
   search for `v`.
   */
  ghost predicate Agrees(map_: seq<Word>, v: bool, base: nat, offset: nat, tmp: Word) {
    && base + BITS <= |map_| * BITS && offset <= BITS
    && forall i :: base <= i < base + BITS ==> tmp[i - base] == if i < base + offset then !v else Bit(map_, i)
  }

  lemma WordAgrees(map_: seq<Word>, v: bool, p: nat)
    requires p < |map_|
    ensures Agrees(map_, v, p * BITS, 0, map_[p])
  {
    forall i | p * BITS <= i < p * BITS + BITS ensures map_[p][i - p * BITS] == Bit(map_, i) {
      assert i / BITS == p && i % BITS == i - p * BITS;
    }
  }

  /** A word without `v` below `k` has no `v` in the map there. */
  lemma NoneBelow(map_: seq<Word>, v: bool, base: nat, offset: nat, tmp: Word, k: nat)
    requires Agrees(map_, v, base, offset, tmp) && k <= BITS && forall j :: 0 <= j < k ==> tmp[j] == !v
    ensures All(map_, !v, base + offset, base + k)
  {
    forall i | base + offset <= i < base + k ensures Bit(map_, i) == !v {
      assert tmp[i - base] == !v;
    }
  }

  /** A hit in the word is a hit in the map. */
  lemma HitAt(map_: seq<Word>, v: bool, base: nat, offset: nat, tmp: Word, k: nat)
    requires Agrees(map_, v, base, offset, tmp) && k < BITS && tmp[k] == v
    ensures k >= offset && Bit(map_, base + k) == v
  {
    var i := base + k;
    assert tmp[i - base] == if i < base + offset then !v else Bit(map_, i);
  }

  // ---------- find_next_bit ----------

  /** `found_first`: the lowest set bit of `tmp` below `size`, or `size`. */
  method FoundFirst(tmp: Word, size: nat) returns (r: nat)
    requires size <= BITS
    ensures r <= size && (forall j :: 0 <= j < r ==> !tmp[j]) && (r < size ==> tmp[r])
  {
    var masked := And(tmp, Shr(Ones(), BITS - size));
    assert forall j :: 0 <= j < BITS ==> masked[j] == (j < size && tmp[j]);
    if IsZero(masked) {
      assert forall j :: 0 <= j < size ==> !masked[j];
      return size;
    }
    r := Ffsl(masked);
  }

  /** The word loop of find_next_bit and what follows it. */
  method NextFrom(map_: seq<Word>, size: nat, offset: nat, p0: nat) returns (r: nat)
    requires size <= |map_| * BITS && offset <= p0 * BITS <= size && All(map_, false, offset, p0 * BITS)
    ensures r == Scan(map_, true, offset, size)
  {
    var p, result, left := p0, p0 * BITS, size - p0 * BITS;
    while left >= BITS
      invariant offset <= result <= size && result == p * BITS && left == size - result
      invariant All(map_, false, offset, result)
    {
      WordAgrees(map_, true, p);
      var tmp := map_[p];
      if !IsZero(tmp) {
        var k := Ffsl(tmp);
        NoneBelow(map_, true, result, 0, tmp, k);
        HitAt(map_, true, result, 0, tmp, k);
        ScanFinds(map_, true, offset, size, result + k);
        return result + k;
      }
      NoneBelow(map_, true, result, 0, tmp, BITS);
      p := p + 1;
      result := result + BITS;
      left := left - BITS;
    }
    if left == 0 {
      ScanFinds(map_, true, offset, size, result);
      return result;
    }
    WordAgrees(map_, true, p);
    var k := FoundFirst(map_[p], left);
    NoneBelow(map_, true, result, 0, map_[p], k);
    if k < left {
      HitAt(map_, true, result, 0, map_[p], k);
    }
    ScanFinds(map_, true, offset, size, result + k);
    r := result + k;
  }

  /** The first word, when the search starts inside it. */
  method FirstWord(map_: seq<Word>, p: nat, offset: nat) returns (tmp: Word)
    requires p < |map_| && offset < BITS
    ensures Agrees(map_, true, p * BITS, offset, tmp)
  {
    WordAgrees(map_, true, p);
    tmp := And(map_[p], Shl(Ones(), offset));
  }

  /** `find_next_bit`. */
  method FindNextBit(map_: seq<Word>, size: nat, offset: nat) returns (r: nat)
    requires size <= |map_| * BITS
    ensures r == Scan(map_, true, offset, size)
  {
    if offset >= size {
      return size;
    }
    var p, off := offset / BITS, offset % BITS;
    var result := p * BITS;
    if off == 0 {
      r := NextFrom(map_, size, offset, p);
      return;
    }
    var tmp := FirstWord(map_, p, off);
    if size - result < BITS {
      var k := FoundFirst(tmp, size - result);
      NoneBelow(map_, true, result, off, tmp, k);
      if k < size - result {
        HitAt(map_, true, result, off, tmp, k);
      } else {
        assert result + off == offset;
      }
      ScanFinds(map_, true, offset, size, result + k);
      return result + k;
    }
    if !IsZero(tmp) {
      var k := Ffsl(tmp);
      NoneBelow(map_, true, result, off, tmp, k);
      HitAt(map_, true, result, off, tmp, k);
      ScanFinds(map_, true, offset, size, result + k);
      return result + k;
    }
    NoneBelow(map_, true, result, off, tmp, BITS);
    r := NextFrom(map_, size, offset, p + 1);
  }

  // ---------- find_next_zero_bit ----------

  /** `found_first` of the zero search: the lowest clear bit below `size`, or `size`. */
  method FoundFirstZero(tmp: Word, size: nat) returns (r: nat)
    requires size <= BITS
    ensures r <= size && (forall j :: 0 <= j < r ==> tmp[j]) && (r < size ==> !tmp[r])
  {
    var masked := Or(tmp, Shl(Ones(), size));
    assert forall j :: 0 <= j < BITS ==> masked[j] == (j >= size || tmp[j]);
    if masked == Ones() {
      assert forall j :: 0 <= j < size ==> masked[j];
      return size;
    }
    NotOnes(masked);
    r := Ffz(masked);
  }

  lemma NotOnes(w: Word)
    requires w != Ones()
    ensures !IsZero(Not(w))
  {
    var j :| 0 <= j < BITS && w[j] != Ones()[j];
    assert Not(w)[j];
  }

  /** The word loop of find_next_zero_bit and what follows it. */
  method NextZeroFrom(map_: seq<Word>, size: nat, offset: nat, p0: nat) returns (r: nat)
    requires size <= |map_| * BITS && offset <= p0 * BITS <= size && All(map_, true, offset, p0 * BITS)
    ensures r == Scan(map_, false, offset, size)
  {
    var p, result, left := p0, p0 * BITS, size - p0 * BITS;
    while left >= BITS
      invariant offset <= result <= size && result == p * BITS && left == size - result
      invariant All(map_, true, offset, result)
    {
      WordAgrees(map_, false, p);
      var tmp := map_[p];
      if !IsZero(Not(tmp)) {
        var k := Ffz(tmp);
        NoneBelow(map_, false, result, 0, tmp, k);
        HitAt(map_, false, result, 0, tmp, k);
        ScanFinds(map_, false, offset, size, result + k);
        return result + k;
      }
      assert forall j :: 0 <= j < BITS ==> Not(tmp)[j] == !tmp[j];
      NoneBelow(map_, false, result, 0, tmp, BITS);
      p := p + 1;
      result := result + BITS;
      left := left - BITS;
    }
    if left == 0 {
      ScanFinds(map_, false, offset, size, result);
      return result;
    }
    WordAgrees(map_, false, p);
    var k := FoundFirstZero(map_[p], left);
    NoneBelow(map_, false, result, 0, map_[p], k);
    if k < left {
      HitAt(map_, false, result, 0, map_[p], k);
    }
    ScanFinds(map_, false, offset, size, result + k);
    r := result + k;
  }

  method FirstWordZero(map_: seq<Word>, p: nat, offset: nat) returns (tmp: Word)
    requires p < |map_| && offset < BITS
    ensures Agrees(map_, false, p * BITS, offset, tmp)
  {
    WordAgrees(map_, false, p);
    tmp := Or(map_[p], Shr(Ones(), BITS - offset));
  }

  /** `find_next_zero_bit`. */
  method FindNextZeroBit(map_: seq<Word>, size: nat, offset: nat) returns (r: nat)
    requires size <= |map_| * BITS
    ensures r == Scan(map_, false, offset, size)
  {
    if offset >= size {
      return size;
    }
    var p, off := offset / BITS, offset % BITS;
    var result := p * BITS;
    if off == 0 {
      r := NextZeroFrom(map_, size, offset, p);
      return;
    }
    var tmp := FirstWordZero(map_, p, off);
    if size - result < BITS {
      var k := FoundFirstZero(tmp, size - result);
      NoneBelow(map_, false, result, off, tmp, k);
      if k < size - result {
        HitAt(map_, false, result, off, tmp, k);
      } else {
        assert result + off == offset;
      }
      ScanFinds(map_, false, offset, size, result + k);
      return result + k;
    }
    if !IsZero(Not(tmp)) {
      var k := Ffz(tmp);
      NoneBelow(map_, false, result, off, tmp, k);
      HitAt(map_, false, result, off, tmp, k);
      ScanFinds(map_, false, offset, size, result + k);
      return result + k;
    }
    assert forall j :: 0 <= j < BITS ==> Not(tmp)[j] == !tmp[j];
    NoneBelow(map_, false, result, off, tmp, BITS);
    r := NextZeroFrom(map_, size, offset, p + 1);
  }

  // ---------- find_last_bit ----------

  /** `find_last_bit`: search words from the end. */
  method FindLastBit(map_: seq<Word>, size: nat) returns (r: nat)
    requires size <= |map_| * BITS
    ensures r == ScanDown(map_, size, size)
  {
    var words: nat := size / BITS;
    if size % BITS != 0 {
      var tmp := And(map_[words], Shr(Ones(), BITS - size % BITS));
      WordAgrees(map_, true, words);
      if !IsZero(tmp) {
        var k := Flsl(tmp);
        LastAt(map_, words, size, tmp, k);
        return words * BITS + k;
      }
      forall i | words * BITS <= i < size ensures !Bit(map_, i) {
        assert !tmp[i - words * BITS];
      }
    }
    while words > 0
      invariant words * BITS <= size && All(map_, false, words * BITS, size)
    {
      words := words - 1;
      WordAgrees(map_, true, words);
      var tmp := map_[words];
      if !IsZero(tmp) {
        var k := Flsl(tmp);
        LastAt(map_, words, words * BITS + BITS, tmp, k);
        ScanDownFinds(map_, size, size, words * BITS + k);
        return words * BITS + k;
      }
      forall i | words * BITS <= i < words * BITS + BITS ensures !Bit(map_, i) {
        assert !tmp[i - words * BITS];
      }
    }
    ScanDownFinds(map_, size, size, size);
    r := size;
  }

  lemma LastAt(map_: seq<Word>, p: nat, size: nat, tmp: Word, k: nat)
    requires p < |map_| && p * BITS < size <= p * BITS + BITS
    requires forall j :: 0 <= j < BITS ==> tmp[j] == (j < size - p * BITS && map_[p][j])
    requires k < BITS && tmp[k] && forall j :: k < j < BITS ==> !tmp[j]
    ensures p * BITS + k < size && Bit(map_, p * BITS + k) && All(map_, false, p * BITS + k + 1, size)
    ensures ScanDown(map_, size, size) == p * BITS + k
  {
    WordAgrees(map_, true, p);
    HitAt(map_, true, p * BITS, 0, map_[p], k);
    forall i | p * BITS + k + 1 <= i < size ensures !Bit(map_, i) {
      assert !tmp[i - p * BITS];
    }
    ScanDownFinds(map_, size, size, p * BITS + k);
  }

  // ---------- bitmap_set, bitmap_clear ----------

  /** `new_` is `old_` with the bits in [lo, hi) made `v`. */
  ghost predicate RangeSet(old_: seq<Word>, new_: seq<Word>, v: bool, lo: nat, hi: nat) {
    && |new_| == |old_|
    && forall i :: 0 <= i < |old_| * BITS ==> Bit(new_, i) == if lo <= i < hi then v else Bit(old_, i)
  }

  /** Changing one word within the range extends what is done by that word. */
  lemma RangeStep(old_: seq<Word>, mid: seq<Word>, p: nat, w: Word, v: bool, lo: nat, from: nat, to: nat)
    requires RangeSet(old_, mid, v, lo, from) && p < |old_| && lo <= from <= to
    requires p * BITS <= from && to <= p * BITS + BITS
    requires forall j :: 0 <= j < BITS ==> w[j] == if from - p * BITS <= j < to - p * BITS then v else mid[p][j]
    ensures RangeSet(old_, mid[p := w], v, lo, to)
  {
    var new_ := mid[p := w];
    forall i | 0 <= i < |old_| * BITS ensures Bit(new_, i) == if lo <= i < to then v else Bit(old_, i) {
      if i / BITS == p {
        var j := i % BITS;
        assert i == p * BITS + j;
        assert Bit(new_, i) == w[j] && Bit(mid, i) == mid[p][j];
      } else {
        assert Bit(new_, i) == Bit(mid, i);
        if i / BITS < p {
          assert i < p * BITS;
        } else {
          assert i >= p * BITS + BITS;
        }
      }
    }
  }

  /** `bitmap_set`: whole words in the middle, masks at both ends. */
  method BitmapSet(map_: array<Word>, start: nat, nr0: nat)
    requires start + nr0 <= map_.Length * BITS
    modifies map_
    ensures RangeSet(old(map_[..]), map_[..], true, start, start + nr0)
  {
    var p, size, nr := start / BITS, start + nr0, nr0;
    var bitsToSet := BITS - start % BITS;
    var mask := Shl(Ones(), start % BITS);
    ghost var was := map_[..];
    while nr >= bitsToSet
      invariant 0 <= nr <= nr0 && p * BITS <= size - nr < p * BITS + BITS
      invariant bitsToSet == BITS - (size - nr - p * BITS)
      invariant forall j :: 0 <= j < BITS ==> mask[j] == (j >= size - nr - p * BITS)
      invariant RangeSet(was, map_[..], true, start, size - nr)
      decreases nr
    {
      assert p < map_.Length;
      RangeStep(was, map_[..], p, Or(map_[p], mask), true, start, size - nr, size - nr + bitsToSet);
      map_[p] := Or(map_[p], mask);
      nr := nr - bitsToSet;
      bitsToSet := BITS;
      mask := Ones();
      p := p + 1;
    }
    if nr != 0 {
      assert size % BITS == size - p * BITS;
      mask := And(mask, LastWordMask(size));
      assert p < map_.Length;
      RangeStep(was, map_[..], p, Or(map_[p], mask), true, start, size - nr, size);
      map_[p] := Or(map_[p], mask);
    }
  }

  /** `BITMAP_LAST_WORD_MASK`. */
  function LastWordMask(nbits: nat): Word {
    if nbits % BITS != 0 then LowMask(nbits % BITS) else Ones()
  }

  /** `bitmap_clear`. */
  method BitmapClear(map_: array<Word>, start: nat, nr0: nat)
    requires start + nr0 <= map_.Length * BITS
    modifies map_
    ensures RangeSet(old(map_[..]), map_[..], false, start, start + nr0)
  {
    var p, size, nr := start / BITS, start + nr0, nr0;
    var bitsToClear := BITS - start % BITS;
    var mask := Shl(Ones(), start % BITS);
    ghost var was := map_[..];
    while nr >= bitsToClear
      invariant 0 <= nr <= nr0 && p * BITS <= size - nr < p * BITS + BITS
      invariant bitsToClear == BITS - (size - nr - p * BITS)
      invariant forall j :: 0 <= j < BITS ==> mask[j] == (j >= size - nr - p * BITS)
      invariant RangeSet(was, map_[..], false, start, size - nr)
      decreases nr
    {
      assert p < map_.Length;
      RangeStep(was, map_[..], p, And(map_[p], Not(mask)), false, start, size - nr, size - nr + bitsToClear);
      map_[p] := And(map_[p], Not(mask));
      nr := nr - bitsToClear;
      bitsToClear := BITS;
      mask := Ones();
      p := p + 1;
    }
    if nr != 0 {
      assert size % BITS == size - p * BITS;
      mask := And(mask, LastWordMask(size));
      assert p < map_.Length;
      RangeStep(was, map_[..], p, And(map_[p], Not(mask)), false, start, size - nr, size);
      map_[p] := And(map_[p], Not(mask));
    }
  }

  // ---------- bitmap_find_next_zero_area ----------

  /** `ALIGN_MASK(x, a - 1)` for a power of two `a`: the least multiple of `a` at or above `x`. */
  function AlignUp(x: nat, a: nat): nat
    requires a > 0
  {
    var y := x + a - 1;
    y - y % a
  }

  lemma AlignUpMultiple(x: nat, a: nat) returns (q: nat)
    requires a > 0
    ensures AlignUp(x, a) == q * a && x <= q * a < x + a && (q * a) % a == 0
  {
    var y := x + a - 1;
    q := y / a;
    assert y == q * a + y % a;
    B.DivModUnique(q * a, a, q, 0);
  }

  lemma MultipleAbove(c: nat, x: nat, a: nat, q: nat)
    requires a > 0 && c % a == 0 && c >= x && q * a < x + a
    ensures c >= q * a
  {
    var m := c / a;
    assert c == m * a;
    if m < q {
      B.NextMultiple(m, q, a);
    } else if q < m {
      B.NextMultiple(q, m, a);
    }
  }

  lemma AlignUpIsLeast(x: nat, a: nat)
    requires a > 0
    ensures AlignUp(x, a) % a == 0 && AlignUp(x, a) >= x
    ensures forall c: nat :: c % a == 0 && c >= x ==> c >= AlignUp(x, a)
  {
    var q := AlignUpMultiple(x, a);
    forall c: nat | c % a == 0 && c >= x ensures c >= AlignUp(x, a) {
      MultipleAbove(c, x, a, q);
    }
  }

  /** The C expression `(x + mask) & ~mask` on 64-bit words, mask one less than a power of two. */
  lemma AlignUpIsMask(x: nat, k: nat)
    requires k <= 64 && x + B.Pow2(k) - 1 < B.TWO_TO_THE_64
    ensures B.Pow2(k) <= B.TWO_TO_THE_64
    ensures AlignUp(x, B.Pow2(k)) == B.And(x + (B.Pow2(k) - 1), B.TWO_TO_THE_64 - B.Pow2(k))
  {
    B.Pow2Of64();
    B.AndHighMask(x + B.Pow2(k) - 1, k, 64);
  }

  /** An aligned run of `nr` clear bits inside `size`. */
  ghost predicate Fits(map_: seq<Word>, size: nat, a: nat, nr: nat, c: nat)
    requires a > 0 && size <= |map_| * BITS
  {
    c % a == 0 && c + nr <= size && All(map_, false, c, c + nr)
  }

  ghost predicate NoFit(map_: seq<Word>, size: nat, a: nat, nr: nat, lo: nat, hi: nat)
    requires a > 0 && size <= |map_| * BITS
  {
    forall c :: lo <= c < hi ==> !Fits(map_, size, a, nr, c)
  }

  /** Nothing fits before the aligned position of the next clear bit. */
  lemma NoFitBefore(map_: seq<Word>, size: nat, a: nat, nr: nat, start: nat, z: nat)
    requires a > 0 && nr > 0 && size <= |map_| * BITS && start <= z <= size && All(map_, true, start, z)
    ensures NoFit(map_, size, a, nr, start, AlignUp(z, a))
  {
    AlignUpIsLeast(z, a);
    forall c | start <= c < AlignUp(z, a) ensures !Fits(map_, size, a, nr, c) {
      if c < z {
        assert Bit(map_, c);
      }
    }
  }

  /**
   `bitmap_find_next_zero_area` for an alignment of `a`, a power of two: aligned first fit. It
   ends, and for a non-empty area returns the least aligned index at or after `start` with
   `nr` clear bits inside `size`, or a value greater than `size` exactly when there is none.
   */
  method FindNextZeroArea(map_: seq<Word>, size: nat, start0: nat, nr: nat, a: nat) returns (r: nat)
    requires a > 0 && size <= |map_| * BITS
    ensures nr > 0 && r <= size ==> r >= start0 && Fits(map_, size, a, nr, r) && NoFit(map_, size, a, nr, start0, r)
    ensures nr > 0 && r > size ==> forall c :: c >= start0 ==> !Fits(map_, size, a, nr, c)
    ensures nr == 0 ==> r == AlignUp(Scan(map_, false, start0, size), a)
  {
    var start := start0;
    while true
      invariant start == start0 || start <= size
      invariant start >= start0 && (nr > 0 ==> NoFit(map_, size, a, nr, start0, start))
      invariant nr == 0 ==> start == start0
      decreases if start <= size then size - start else 0
    {
      var zero := FindNextZeroBit(map_, size, start);
      var index := AlignUp(zero, a);
      AlignUpIsLeast(zero, a);
      if start <= size {
        ScanResult(map_, false, start, size);
        if nr > 0 {
          NoFitBefore(map_, size, a, nr, start, zero);
        }
      }
      var end := index + nr;
      if end > size {
        return end;
      }
      var i := FindNextBit(map_, end, index);
      ScanResult(map_, true, index, end);
      if i >= end {
        return index;
      }
      assert forall c :: index <= c <= i ==> !Fits(map_, size, a, nr, c) by {
        forall c | index <= c <= i ensures !Fits(map_, size, a, nr, c) {
          assert Bit(map_, i);
        }
      }
      start := i + 1;
    }
  }

  /**
   An empty area is the exception: the search skips to the next clear bit although nothing has
   to be clear. It still finds the least aligned index exactly when no alignment boundary lies
   between `start` and that bit.
   */
  lemma EmptyAreaExact(map_: seq<Word>, size: nat, start: nat, a: nat)
    requires a > 0 && size <= |map_| * BITS && start <= size
    ensures AlignUp(Scan(map_, false, start, size), a) == AlignUp(start, a)
       <==> Scan(map_, false, start, size) <= AlignUp(start, a)
  {
    var z := Scan(map_, false, start, size);
    ScanResult(map_, false, start, size);
    AlignUpIsLeast(z, a);
    AlignUpIsLeast(start, a);
  }

  /** Without alignment, a set bit at `start` already hides the empty area there. */
  lemma EmptyAreaSkips(map_: seq<Word>, size: nat, start: nat)
    requires start + 1 < size <= |map_| * BITS && Bit(map_, start) && !Bit(map_, start + 1)
    ensures AlignUp(Scan(map_, false, start, size), 1) == start + 1 && Fits(map_, size, 1, 0, start)
  {
    ScanFinds(map_, false, start, size, start + 1);
  }
}
