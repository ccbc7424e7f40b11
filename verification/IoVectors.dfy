/**
 Scatter-gather lists (cutils.c): the bytes they stand for, and copying a part of one list to the
 end of another.
 */
module IoVectors {
  import opened Bytes

  /** A list of buffers. */
  type IoVector = seq<seq<byte>>

  function Flat(v: IoVector): seq<byte> { if v == [] then [] else Flat(v[..|v| - 1]) + v[|v| - 1] }

  lemma FlatOne(b: seq<byte>)
    ensures Flat([b]) == b
  {
    var v: IoVector := [b];
    assert v[..0] == [];
  }

  lemma {:induction false} FlatAppend(v: IoVector, w: IoVector)
    ensures Flat(v + w) == Flat(v) + Flat(w)
  {
    if w == [] {
      assert v + w == v;
    } else {
      assert (v + w)[..|v + w| - 1] == v + w[..|w| - 1];
      FlatAppend(v, w[..|w| - 1]);
    }
  }

  lemma FlatHead(v: IoVector)
    requires v != []
    ensures Flat(v) == v[0] + Flat(v[1..])
  {
    assert v == [v[0]] + v[1..];
    FlatAppend([v[0]], v[1..]);
    FlatOne(v[0]);
  }

  /** The first `n` bytes of `b`, or all of them. */
  function Take(b: seq<byte>, n: nat): seq<byte> { if n <= |b| then b[..n] else b }

  /** The bytes of `b` after the first `n`. */
  function Drop(b: seq<byte>, n: nat): seq<byte> { if n <= |b| then b[n..] else [] }

  lemma TakeDropLater(a: seq<byte>, b: seq<byte>, skip: nat, size: nat)
    requires skip >= |a|
    ensures Take(Drop(a + b, skip), size) == Take(Drop(b, skip - |a|), size)
  {
    assert Drop(a + b, skip) == Drop(b, skip - |a|);
  }

  lemma TakeDropHere(a: seq<byte>, b: seq<byte>, skip: nat, size: nat)
    requires skip < |a|
    ensures Take(Drop(a + b, skip), size)
            == if |a| - skip > size then a[skip..][..size] else a[skip..] + Take(b, size - (|a| - skip))
  {
    assert Drop(a + b, skip) == a[skip..] + b;
    assert |a| - skip <= size ==> Take(a[skip..] + b, size) == a[skip..] + Take(b, size - (|a| - skip));
  }

  /**
   The buffers that hold `size` bytes of `v` after the first `skip`: whole buffers, the first and last cut if need be.
   */
  function Part(v: IoVector, skip: nat, size: nat): IoVector
    decreases |v|
  {
    if v == [] || size == 0 then []
    else if skip >= |v[0]| then Part(v[1..], skip - |v[0]|, size)
    else if |v[0]| - skip > size then [v[0][skip..][..size]]
    else [v[0][skip..]] + Part(v[1..], 0, size - (|v[0]| - skip))
  }

  lemma {:induction false} PartBytes(v: IoVector, skip: nat, size: nat)
    ensures Flat(Part(v, skip, size)) == Take(Drop(Flat(v), skip), size)
    ensures |Part(v, skip, size)| <= |v|
    decreases |v|
  {
    if v != [] && size > 0 {
      FlatHead(v);
      if skip >= |v[0]| {
        TakeDropLater(v[0], Flat(v[1..]), skip, size);
        PartBytes(v[1..], skip - |v[0]|, size);
      } else {
        TakeDropHere(v[0], Flat(v[1..]), skip, size);
        if |v[0]| - skip > size {
          FlatOne(v[0][skip..][..size]);
        } else {
          PartBytes(v[1..], 0, size - (|v[0]| - skip));
          FlatHead(Part(v, skip, size));
        }
      }
    }
  }

  /** `qemu_iovec_copy`. */
  method IovecCopy(dst: IoVector, src: IoVector, skip: nat, size: nat) returns (out: IoVector)
    ensures out == dst + Part(src, skip, size)
  {
    out := dst;
    var done, left, i := 0, skip, 0;
    while i < |src| && done != size
      invariant i <= |src| && done <= size && 0 <= left
      invariant out + Part(src[i..], left, size - done) == dst + Part(src, skip, size)
    {
      assert src[i..][0] == src[i] && src[i..][1..] == src[i + 1..];
      if left >= |src[i]| {
        left := left - |src[i]|;
      } else {
        var buf := src[i][left..];
        left := 0;
        if done + |buf| > size {
          out := out + [buf[..size - done]];
          return;
        }
        out := out + [buf];
        done := done + |buf|;
      }
      i := i + 1;
    }
  }
}
