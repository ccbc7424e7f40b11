/**
 Dirty tracking of a block device (block.c): one bit per chunk of 2048 sectors and a count
 of the set bits.
 */
module DirtyBitmap {
  import opened Bytes
  import W = Words
  import opened Bitmaps
  import opened Units

  /** Number of set bits below `n`. */
  function Count(bits: seq<W.Word>, n: nat): nat
    requires n <= |bits| * W.BITS
  {
    if n == 0 then 0 else Count(bits, n - 1) + if Bit(bits, n - 1) then 1 else 0
  }

  /** The chunks below `n` whose bit is set. */
  function SetBits(bits: seq<W.Word>, n: nat): set<int>
    requires n <= |bits| * W.BITS
  {
    set j | 0 <= j < n && Bit(bits, j)
  }

  /** The count is the size of that set. */
  lemma {:induction false} CountIsSize(bits: seq<W.Word>, n: nat)
    requires n <= |bits| * W.BITS
    ensures Count(bits, n) == |SetBits(bits, n)|
  {
    if n > 0 {
      CountIsSize(bits, n - 1);
      assert SetBits(bits, n) == SetBits(bits, n - 1) + (if Bit(bits, n - 1) then {n - 1} else {});
    }
  }

  /** The map with bit `i` made `v`: `val |= 1UL << bit` or `val &= ~(1UL << bit)`. */
  function PutBit(bits: seq<W.Word>, i: nat, v: bool): (r: seq<W.Word>)
    requires i < |bits| * W.BITS
    ensures |r| == |bits|
    ensures forall j :: 0 <= j < |bits| * W.BITS ==> Bit(r, j) == if j == i then v else Bit(bits, j)
  {
    var one := W.Shl(W.LowMask(1), i % W.BITS);
    var val := bits[i / W.BITS];
    var val' := if v then W.Or(val, one) else W.And(val, W.Not(one));
    assert forall j :: 0 <= j < W.BITS ==> one[j] == (j == i % W.BITS);
    bits[i / W.BITS := val']
  }

  lemma {:induction false} CountSame(a: seq<W.Word>, b: seq<W.Word>, n: nat)
    requires |a| == |b| && n <= |a| * W.BITS && forall j :: 0 <= j < n ==> Bit(a, j) == Bit(b, j)
    ensures Count(a, n) == Count(b, n)
    decreases n
  {
    if n > 0 {
      CountSame(a, b, n - 1);
    }
  }

  lemma {:induction false} CountChanged(bits: seq<W.Word>, r: seq<W.Word>, i: nat, n: nat)
    requires |r| == |bits| && i < n <= |bits| * W.BITS
    requires forall j :: 0 <= j < n && j != i ==> Bit(r, j) == Bit(bits, j)
    ensures Count(r, n) == Count(bits, n) - (if Bit(bits, i) then 1 else 0) + (if Bit(r, i) then 1 else 0)
    decreases n
  {
    if i == n - 1 {
      CountSame(r, bits, n - 1);
    } else {
      CountChanged(bits, r, i, n - 1);
    }
  }

  /** Changing one bit changes the count by one, or not at all. */
  lemma CountPut(bits: seq<W.Word>, i: nat, v: bool, n: nat)
    requires i < n <= |bits| * W.BITS
    ensures Count(PutBit(bits, i, v), n) == Count(bits, n) - (if Bit(bits, i) then 1 else 0) + (if v then 1 else 0)
  {
    CountChanged(bits, PutBit(bits, i, v), i, n);
  }

  lemma {:induction false} CountZero(bits: seq<W.Word>, n: nat)
    requires n <= |bits| * W.BITS
    ensures Count(bits, n) == 0 <==> forall j :: 0 <= j < n ==> !Bit(bits, j)
    decreases n
  {
    if n > 0 {
      CountZero(bits, n - 1);
    }
  }

  /** C division of a possibly negative number, truncating toward zero. */
  function TruncDiv(a: int, b: nat): int
    requires b > 0
  {
    if a >= 0 then a / b else -((-a) / b)
  }

  /** First and last chunk marked for a request, as set_dirty_bitmap computes them. */
  function FirstChunk(sector: nat): nat { sector / CHUNK }

  function LastChunk(sector: nat, nb: nat): int { TruncDiv(sector + nb - 1, CHUNK) }

  predicate Marks(sector: nat, nb: nat, chunk: nat) { FirstChunk(sector) <= chunk <= LastChunk(sector, nb) }

  /** The request has a sector in the chunk. */
  ghost predicate Touches(sector: nat, nb: nat, chunk: nat) {
    exists s :: sector <= s < sector + nb && s / CHUNK == chunk
  }

  /** A non-empty request marks exactly the chunks that hold one of its sectors. */
  lemma MarkedChunks(sector: nat, nb: nat, chunk: nat)
    requires nb > 0
    ensures Marks(sector, nb, chunk) <==> Touches(sector, nb, chunk)
  {
    if Marks(sector, nb, chunk) {
      var s := if chunk * CHUNK < sector then sector else chunk * CHUNK;
      assert sector <= s < sector + nb && s / CHUNK == chunk;
    }
  }

  /** An empty request marks at most its own chunk, and does so unless it starts at a later chunk's first sector. */
  lemma EmptyRequest(sector: nat, chunk: nat)
    ensures Marks(sector, 0, chunk) <==> chunk == FirstChunk(sector) && (sector == 0 || sector % CHUNK != 0)
    ensures !Touches(sector, 0, chunk)
  {
  }

  /** An empty request inside chunk 0 marks it. */
  lemma EmptyRequestMarks()
    ensures Marks(1, 0, 0) && !Touches(1, 0, 0)
  {
    EmptyRequest(1, 0);
  }

  /** Exactly the chunks that hold a sector are marked, if and only if the request is not an empty one as above. */
  lemma MarksExactly(sector: nat, nb: nat)
    ensures (forall chunk: nat :: Marks(sector, nb, chunk) <==> Touches(sector, nb, chunk))
       <==> nb > 0 || (sector > 0 && sector % CHUNK == 0)
  {
    if nb > 0 {
      forall chunk: nat ensures Marks(sector, nb, chunk) <==> Touches(sector, nb, chunk) {
        MarkedChunks(sector, nb, chunk);
      }
    } else {
      forall chunk: nat
        ensures Marks(sector, 0, chunk) <==> chunk == FirstChunk(sector) && (sector == 0 || sector % CHUNK != 0)
        ensures !Touches(sector, 0, chunk)
      {
        EmptyRequest(sector, chunk);
      }
      assert Marks(sector, 0, FirstChunk(sector)) <==> sector == 0 || sector % CHUNK != 0;
    }
  }

  /** Chunks are of 2048 sectors: the first sector of chunk 1 is sector 2048. */
  lemma ChunkEdge(chunk: nat)
    ensures Marks(2047, 1, chunk) <==> chunk == 0
    ensures Marks(2048, 1, chunk) <==> chunk == 1
    ensures Marks(2047, 2, chunk) <==> chunk == 0 || chunk == 1
  {
  }

  class Tracker {
    const sectors: nat               // bdrv_getlength >> BDRV_SECTOR_BITS
    var bitmap: Option<seq<W.Word>>  // dirty_bitmap
    var dirtyCount: int

    /** A bitmap, when there is one, has a bit for every chunk. */
    ghost predicate Valid()
      reads this
    {
      bitmap.Some? ==> sectors <= |bitmap.value| * W.BITS * CHUNK
    }

    /** dirty_count is the number of set bits. */
    ghost predicate Exact()
      reads this
    {
      dirtyCount == if bitmap.Some? then Count(bitmap.value, |bitmap.value| * W.BITS) else 0
    }

    constructor (sectors: nat)
      ensures Valid() && Exact() && bitmap == None && this.sectors == sectors
    {
      this.sectors := sectors;
      bitmap, dirtyCount := None, 0;
    }

    /**
     `set_dirty_bitmap`: chunks from the first to the last of the request get the bit, every
     other chunk keeps its own, and the count stays exact.
     */
    method SetDirtyBitmap(sector: nat, nb: nat, dirty: bool)
      requires Valid() && bitmap.Some? && sector + nb <= sectors && sectors > 0
      modifies this`bitmap, this`dirtyCount
      ensures Valid() && bitmap.Some? && |bitmap.value| == |old(bitmap).value|
      ensures forall j :: 0 <= j < |bitmap.value| * W.BITS ==>
                Bit(bitmap.value, j) == if Marks(sector, nb, j) then dirty else Bit(old(bitmap).value, j)
      ensures old(Exact()) ==> Exact()
    {
      var start, end := sector / CHUNK, TruncDiv(sector + nb - 1, CHUNK);
      var first := start;
      ghost var was, size := bitmap.value, |bitmap.value| * W.BITS;
      while start <= end
        invariant bitmap.Some? && |bitmap.value| == |was| && first <= start && end < size
        invariant forall j :: 0 <= j < size ==>
          Bit(bitmap.value, j) == if first <= j <= end && j < start then dirty else Bit(was, j)
        invariant dirtyCount - Count(bitmap.value, size) == old(dirtyCount) - Count(was, size)
        decreases end - start
      {
        var val := Bit(bitmap.value, start);
        CountPut(bitmap.value, start, dirty, size);
        if dirty {
          if !val {
            dirtyCount := dirtyCount + 1;
          }
        } else {
          if val {
            dirtyCount := dirtyCount - 1;
          }
        }
        bitmap := Some(PutBit(bitmap.value, start, dirty));
        start := start + 1;
      }
    }

    /** `bdrv_get_dirty`. */
    method GetDirty(sector: nat) returns (dirty: bool)
      requires Valid()
      ensures dirty == (bitmap.Some? && sector < sectors && sector / CHUNK < |bitmap.value| * W.BITS
                        && Bit(bitmap.value, sector / CHUNK))
    {
      if bitmap.Some? && sector < sectors {
        assert sector / CHUNK < |bitmap.value| * W.BITS;
        dirty := Bit(bitmap.value, sector / CHUNK);
      } else {
        dirty := false;
      }
    }

    /**
     `bdrv_set_dirty_tracking`. The count is always zeroed, but an existing bitmap is kept: the
     count is exact afterwards just when the device was not tracked or had no dirty chunk.
     */
    method SetDirtyTracking(enable: bool)
      requires Valid()
      modifies this`bitmap, this`dirtyCount
      ensures Valid() && bitmap.Some? == enable
      ensures enable && old(bitmap).Some? ==> bitmap == old(bitmap)
      ensures enable && old(bitmap).None? ==> forall j :: 0 <= j < |bitmap.value| * W.BITS ==> !Bit(bitmap.value, j)
      ensures Exact() <==> !enable || old(bitmap).None?
                           || forall j :: 0 <= j < |old(bitmap).value| * W.BITS ==> !Bit(old(bitmap).value, j)
    {
      dirtyCount := 0;
      if enable {
        if bitmap.None? {
          var words := (sectors + CHUNK * W.BITS - 1) / (CHUNK * W.BITS);
          var zero: seq<W.Word> := seq(words, _ => W.Zero());
          assert forall j :: 0 <= j < |zero| * W.BITS ==> !Bit(zero, j);
          bitmap := Some(zero);
        }
        CountZero(bitmap.value, |bitmap.value| * W.BITS);
      } else {
        bitmap := None;
      }
    }
  }
}
