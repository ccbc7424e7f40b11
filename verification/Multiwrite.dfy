/**
 Merging of the write requests handed to bdrv_aio_multiwrite (block.c). The driver hook that merges
 across gaps is absent, as it is for most drivers.
 */
module Multiwrite {
  import opened Bytes
  import opened IoVectors

  const IOV_MAX: nat := 1024

  datatype Request = Request(sector: nat, nb: nat, qiov: IoVector) {
    predicate Valid() { |Flat(qiov)| == 512 * nb }
    function Start(): nat { 512 * sector }
    function End(): nat { 512 * (sector + nb) }
    predicate Covers(i: nat) { Start() <= i < End() }

    function ByteAt(i: nat): byte
      requires Valid() && Covers(i)
    {
      Flat(qiov)[i - Start()]
    }
  }

  predicate AllValid(reqs: seq<Request>) { forall k :: 0 <= k < |reqs| ==> reqs[k].Valid() }

  predicate Sorted(reqs: seq<Request>) { forall j, k :: 0 <= j < k < |reqs| ==> reqs[j].sector <= reqs[k].sector }

  /** Byte `i` of a disk that held `d` there, after the requests have been written in order. */
  function Value(reqs: seq<Request>, i: nat, d: byte): byte
    requires AllValid(reqs)
  {
    if reqs == [] then d
    else if reqs[|reqs| - 1].Covers(i) then reqs[|reqs| - 1].ByteAt(i)
    else Value(reqs[..|reqs| - 1], i, d)
  }

  /** The merge condition for two requests in order, `o` being the merged one so far. */
  predicate Merges(o: Request, r: Request) {
    r.sector <= o.sector + o.nb && |o.qiov| + |r.qiov| + 1 <= IOV_MAX
  }

  /** The request that replaces `o` and `r`: the start of `o` up to the start of `r`, then all of `r`. */
  function Join(o: Request, r: Request): Request {
    var size := if o.sector <= r.sector then 512 * (r.sector - o.sector) else 0;
    var qiov := Part(o.qiov, 0, size) + Part(r.qiov, 0, |Flat(r.qiov)|);
    Request(o.sector, |Flat(qiov)| / 512, qiov)
  }

  lemma JoinFlat(o: Request, r: Request)
    requires o.Valid() && r.Valid() && o.sector <= r.sector <= o.sector + o.nb
    ensures Flat(Join(o, r).qiov) == Flat(o.qiov)[..512 * (r.sector - o.sector)] + Flat(r.qiov)
    ensures |Join(o, r).qiov| <= |o.qiov| + |r.qiov|
  {
    var n := 512 * (r.sector - o.sector);
    var a, b := Part(o.qiov, 0, n), Part(r.qiov, 0, |Flat(r.qiov)|);
    PartBytes(o.qiov, 0, n);
    PartBytes(r.qiov, 0, |Flat(r.qiov)|);
    assert Flat(a) == Flat(o.qiov)[..n] && Flat(b) == Flat(r.qiov);
    assert Join(o, r).qiov == a + b;
    FlatAppend(a, b);
  }

  /** The merged request runs from the start of `o` to the end of `r`. */
  lemma JoinExtent(o: Request, r: Request)
    requires o.Valid() && r.Valid() && o.sector <= r.sector <= o.sector + o.nb
    ensures Join(o, r).Valid() && Join(o, r).sector == o.sector && Join(o, r).End() == r.End()
  {
    JoinFlat(o, r);
    assert |Flat(Join(o, r).qiov)| == 512 * (r.sector - o.sector + r.nb);
  }

  /** What one iteration of the merge loop does to the requests kept so far. */
  function Add(out: seq<Request>, r: Request): seq<Request> {
    if out != [] && Merges(out[|out| - 1], r) then out[..|out| - 1] + [Join(out[|out| - 1], r)] else out + [r]
  }

  /** The requests that remain after merging. */
  function Merged(reqs: seq<Request>): seq<Request> {
    if reqs == [] then [] else Add(Merged(reqs[..|reqs| - 1]), reqs[|reqs| - 1])
  }

  predicate Vectors(reqs: seq<Request>) { forall k :: 0 <= k < |reqs| ==> |reqs[k].qiov| <= IOV_MAX }

  /** What a request list must be for the merge loop: sorted by start, with data for every sector. */
  predicate Ready(reqs: seq<Request>) { Sorted(reqs) && AllValid(reqs) }

  lemma ReadyInit(reqs: seq<Request>)
    requires Ready(reqs) && reqs != []
    ensures Ready(reqs[..|reqs| - 1])
  {
  }

  /** The last request kept ends where the last original does and starts no later. */
  predicate Follows(out: seq<Request>, r: Request) {
    out != [] && out[|out| - 1].sector <= r.sector && out[|out| - 1].End() == r.End()
  }

  lemma AddShape(out: seq<Request>, r: Request)
    requires Ready(out) && r.Valid() && (out != [] ==> out[|out| - 1].sector <= r.sector)
    ensures Ready(Add(out, r)) && Follows(Add(out, r), r) && |Add(out, r)| <= |out| + 1
    ensures Vectors(out) && |r.qiov| <= IOV_MAX ==> Vectors(Add(out, r))
  {
    if out != [] && Merges(out[|out| - 1], r) {
      JoinExtent(out[|out| - 1], r);
      JoinFlat(out[|out| - 1], r);
    }
  }

  /** Merging keeps the requests sorted and within the vector limit, and drops none of the end. */
  lemma {:induction false} MergedShape(reqs: seq<Request>)
    requires Ready(reqs)
    ensures Ready(Merged(reqs)) && |Merged(reqs)| <= |reqs|
    ensures reqs != [] ==> Follows(Merged(reqs), reqs[|reqs| - 1])
    ensures Vectors(reqs) ==> Vectors(Merged(reqs))
  {
    if reqs != [] {
      ReadyInit(reqs);
      MergedShape(reqs[..|reqs| - 1]);
      AddShape(Merged(reqs[..|reqs| - 1]), reqs[|reqs| - 1]);
    }
  }

  /**
   Two requests are merged exactly when they touch or overlap and the vector of both stays below the limit; two that
   only touch then become one with the data of both.
   */
  lemma PairMerges(o: Request, r: Request)
    requires o.Valid() && r.Valid() && o.sector <= r.sector
    ensures Merged([o, r]) == [o, r] || |Merged([o, r])| == 1
    ensures |Merged([o, r])| == 1 <==> r.sector <= o.sector + o.nb && |o.qiov| + |r.qiov| < 1024
    ensures r.sector == o.sector + o.nb && |o.qiov| + |r.qiov| < 1024 ==>
              var m := Merged([o, r])[0];
              m.sector == o.sector && m.nb == o.nb + r.nb && Flat(m.qiov) == Flat(o.qiov) + Flat(r.qiov)
  {
    TwoMerged(o, r);
    if r.sector == o.sector + o.nb {
      JoinNext(o, r);
    }
  }

  lemma TwoMerged(o: Request, r: Request)
    ensures Merged([o, r]) == if Merges(o, r) then [Join(o, r)] else [o, r]
  {
    assert [o, r][..1] == [o] && [o][..0] == [];
    assert Merged([o]) == [o];
    assert [o][..0] + [Join(o, r)] == [Join(o, r)] && [o] + [r] == [o, r];
  }

  lemma JoinNext(o: Request, r: Request)
    requires o.Valid() && r.Valid() && r.sector == o.sector + o.nb
    ensures var m := Join(o, r);
            m.sector == o.sector && m.nb == o.nb + r.nb && Flat(m.qiov) == Flat(o.qiov) + Flat(r.qiov)
  {
    JoinFlat(o, r);
    assert Flat(o.qiov)[..512 * o.nb] == Flat(o.qiov);
  }

  lemma ValueLast(reqs: seq<Request>, r: Request, i: nat, d: byte)
    requires AllValid(reqs) && r.Valid()
    ensures AllValid(reqs + [r])
    ensures Value(reqs + [r], i, d) == if r.Covers(i) then r.ByteAt(i) else Value(reqs, i, d)
  {
    assert (reqs + [r])[..|reqs|] == reqs;
  }

  lemma JoinByte(o: Request, r: Request, i: nat)
    requires o.Valid() && r.Valid() && o.sector <= r.sector <= o.sector + o.nb
    ensures Join(o, r).Valid() && (Join(o, r).Covers(i) <==> o.Start() <= i < r.End())
    ensures r.Covers(i) ==> Join(o, r).Covers(i) && Join(o, r).ByteAt(i) == r.ByteAt(i)
    ensures o.Start() <= i < r.Start() ==> Join(o, r).Covers(i) && o.Covers(i) && Join(o, r).ByteAt(i) == o.ByteAt(i)
  {
    JoinExtent(o, r);
    JoinFlat(o, r);
  }

  /** One merge step is a write of `r` after the others, except for what `o` wrote past the end of `r`. */
  lemma AddValue(out: seq<Request>, r: Request, i: nat, d: byte)
    requires Ready(out) && r.Valid() && out != [] && out[|out| - 1].sector <= r.sector && Ready(Add(out, r))
    requires Merges(out[|out| - 1], r) ==> i < r.End() || i >= out[|out| - 1].End()
    ensures Value(Add(out, r), i, d) == if r.Covers(i) then r.ByteAt(i) else Value(out, i, d)
  {
    var o := out[|out| - 1];
    if Merges(o, r) {
      JoinByte(o, r, i);
      ValueLast(out[..|out| - 1], Join(o, r), i, d);
    } else {
      ValueLast(out, r, i, d);
    }
  }

  /** The last of the requests kept. */
  function Last(out: seq<Request>): Request
    requires out != []
  {
    out[|out| - 1]
  }

  /** Request `k` is merged into the one kept last. */
  predicate MergedAt(reqs: seq<Request>, k: nat) {
    k < |reqs| && Merged(reqs[..k]) != [] && Merges(Last(Merged(reqs[..k])), reqs[k])
  }

  /** No request that is merged ends before the one it is merged into, which ends with its predecessor. */
  predicate NoneShrinks(reqs: seq<Request>) {
    forall k {:trigger MergedAt(reqs, k)} :: 0 < k < |reqs| && MergedAt(reqs, k) ==> reqs[k - 1].End() <= reqs[k].End()
  }

  lemma NoneShrinksInit(reqs: seq<Request>)
    requires NoneShrinks(reqs) && reqs != []
    ensures NoneShrinks(reqs[..|reqs| - 1])
  {
    var init := reqs[..|reqs| - 1];
    forall k | 0 < k < |init| && MergedAt(init, k)
      ensures init[k - 1].End() <= init[k].End()
    {
      assert init[..k] == reqs[..k];
      assert MergedAt(reqs, k);
    }
  }

  /**
   Merging preserves meaning: if no merged request ends before the one it is merged into, writing the
   merged requests in order gives the same disk as writing the sorted ones.
   */
  lemma {:induction false} MergePreserves(reqs: seq<Request>, i: nat, d: byte)
    requires Ready(reqs) && NoneShrinks(reqs)
    ensures Ready(Merged(reqs)) && Value(Merged(reqs), i, d) == Value(reqs, i, d)
  {
    MergedShape(reqs);
    if |reqs| > 1 {
      var init, r := reqs[..|reqs| - 1], reqs[|reqs| - 1];
      assert MergedAt(reqs, |reqs| - 1) ==> reqs[|reqs| - 2].End() <= r.End();
      ReadyInit(reqs);
      MergedShape(init);
      NoneShrinksInit(reqs);
      MergePreserves(init, i, d);
      AddValue(Merged(init), r, i, d);
    } else if |reqs| == 1 {
      assert Merged(reqs[..0]) == [] && Merged(reqs) == [reqs[0]] == reqs;
    }
  }
}
