/**
 When merging write requests changes what is written: a merged request that ends early cuts off the
 end of the one before it.
 */
module MultiwriteExact {
  import opened Bytes
  import opened IoVectors
  import opened Multiwrite

  function VectorSum(reqs: seq<Request>): nat {
    if reqs == [] then 0 else VectorSum(reqs[..|reqs| - 1]) + |reqs[|reqs| - 1].qiov|
  }

  /** The vector limit cannot stop a merge. */
  predicate Fits(reqs: seq<Request>) { VectorSum(reqs) + 1 <= IOV_MAX }

  /** Request `r` starts no later than the sector after `o`. */
  predicate Touches(o: Request, r: Request) { r.sector <= o.sector + o.nb }

  /** The furthest end within the last group of touching requests. */
  function Top(reqs: seq<Request>): nat {
    if reqs == [] then 0
    else
      var r := Last(reqs);
      if |reqs| > 1 && Touches(reqs[|reqs| - 2], r) && Top(reqs[..|reqs| - 1]) > r.End() then
        Top(reqs[..|reqs| - 1])
      else r.End()
  }

  /** In every group that a gap ends, the last request reaches furthest. */
  predicate Closed(reqs: seq<Request>) {
    |reqs| <= 1
    || (Closed(reqs[..|reqs| - 1])
        && (Touches(reqs[|reqs| - 2], Last(reqs)) || Top(reqs[..|reqs| - 1]) == reqs[|reqs| - 2].End()))
  }

  /**
   In every group of touching requests the last one reaches furthest: one pass over sectors and lengths decides it.
   */
  predicate Complete(reqs: seq<Request>) {
    Closed(reqs) && (reqs != [] ==> Top(reqs) == Last(reqs).End())
  }

  /** One merge step within the vector limit. */
  lemma VectorsStep(out: seq<Request>, r: Request, sum: nat)
    requires Ready(out) && r.Valid() && out != [] && Last(out).sector <= r.sector
    requires |Last(out).qiov| <= sum && sum + |r.qiov| + 1 <= IOV_MAX
    ensures Add(out, r) != [] && |Last(Add(out, r)).qiov| <= sum + |r.qiov|
    ensures Merges(Last(out), r) <==> Touches(Last(out), r)
  {
    if Merges(Last(out), r) {
      JoinFlat(Last(out), r);
    }
  }

  lemma {:induction false} VectorsAdd(reqs: seq<Request>)
    requires Ready(reqs) && reqs != [] && Fits(reqs)
    ensures Merged(reqs) != [] && |Last(Merged(reqs)).qiov| <= VectorSum(reqs)
    ensures |reqs| > 1 ==> (MergedAt(reqs, |reqs| - 1) <==> Touches(reqs[|reqs| - 2], Last(reqs)))
  {
    var init, r := reqs[..|reqs| - 1], Last(reqs);
    if |reqs| > 1 {
      ReadyInit(reqs);
      MergedShape(init);
      VectorsAdd(init);
      VectorsStep(Merged(init), r, VectorSum(init));
      assert Follows(Merged(init), init[|init| - 1]);
    } else {
      assert init == [];
      assert Merged(reqs) == Add([], r);
    }
  }

  /** Earlier groups end before the last one starts. */
  predicate Apart(out: seq<Request>) {
    out != [] && forall a :: 0 <= a < |out| - 1 ==> out[a].End() < Last(out).Start()
  }

  lemma ApartAdd(out: seq<Request>, r: Request)
    requires Ready(out) && Apart(out) && r.Valid() && Last(out).sector <= r.sector
             && (Merges(Last(out), r) <==> Touches(Last(out), r))
    ensures Apart(Add(out, r))
  {
    if Merges(Last(out), r) {
      JoinExtent(Last(out), r);
    }
  }

  lemma {:induction false} GroupsApart(reqs: seq<Request>)
    requires Ready(reqs) && Fits(reqs) && reqs != []
    ensures Ready(Merged(reqs)) && Apart(Merged(reqs))
  {
    MergedShape(reqs);
    if |reqs| > 1 {
      var init := reqs[..|reqs| - 1];
      ReadyInit(reqs);
      MergedShape(init);
      GroupsApart(init);
      VectorsAdd(reqs);
      ApartAdd(Merged(init), Last(reqs));
    } else {
      assert Merged(reqs[..0]) == [];
    }
  }

  predicate Hit(reqs: seq<Request>, i: nat) { exists k :: 0 <= k < |reqs| && reqs[k].Covers(i) }

  lemma {:induction false} TopReached(reqs: seq<Request>) returns (k: nat)
    requires Ready(reqs) && reqs != []
    ensures k < |reqs| && reqs[k].End() == Top(reqs) >= Last(reqs).End()
  {
    k := |reqs| - 1;
    if |reqs| > 1 && Touches(reqs[|reqs| - 2], Last(reqs)) && Top(reqs[..|reqs| - 1]) > Last(reqs).End() {
      k := TopReached(reqs[..|reqs| - 1]);
    }
  }

  /** Outside what the last group has lost, the merged requests write what the sorted ones do. */
  lemma {:induction false} AgreeOutside(reqs: seq<Request>, i: nat, d: byte)
    requires Ready(reqs) && Fits(reqs) && reqs != [] && Closed(reqs)
    requires i < Last(reqs).End() || i >= Top(reqs)
    ensures Ready(Merged(reqs)) && Value(Merged(reqs), i, d) == Value(reqs, i, d)
  {
    MergedShape(reqs);
    if |reqs| > 1 {
      var init, r := reqs[..|reqs| - 1], Last(reqs);
      ReadyInit(reqs);
      MergedShape(init);
      VectorsAdd(reqs);
      var k := TopReached(init);
      if !r.Covers(i) {
        AgreeOutside(init, i, d);
      }
      AddValue(Merged(init), r, i, d);
    } else {
      assert Merged(reqs[..0]) == [] && Merged(reqs) == [reqs[0]] == reqs;
    }
  }

  lemma HitMore(reqs: seq<Request>, n: nat, i: nat)
    requires n <= |reqs| && Hit(reqs[..n], i)
    ensures Hit(reqs, i)
  {
    var k :| 0 <= k < n && reqs[..n][k].Covers(i);
    assert reqs[k].Covers(i);
  }

  /** A byte before the last group that is not written stays unwritten. */
  lemma GoneAdd(out: seq<Request>, r: Request, i: nat)
    requires Ready(out) && out != [] && r.Valid() && Last(out).sector <= r.sector && i < Last(out).Start()
             && !Hit(out, i)
    ensures Add(out, r) != [] && !Hit(Add(out, r), i) && i < Last(Add(out, r)).Start()
  {
    if Merges(Last(out), r) {
      JoinExtent(Last(out), r);
      assert forall k :: 0 <= k < |out| ==> !out[k].Covers(i);
    } else {
      assert forall k :: 0 <= k < |out| ==> !out[k].Covers(i);
    }
  }

  /** So does the first byte of a gap. */
  lemma GoneGap(out: seq<Request>, r: Request, i: nat)
    requires Ready(out) && out != [] && !Merges(Last(out), r) && i < r.Start() && !Hit(out, i)
    ensures Add(out, r) != [] && !Hit(Add(out, r), i) && i < Last(Add(out, r)).Start()
  {
    assert forall k :: 0 <= k < |out| ==> !out[k].Covers(i);
  }

  /** A group closed by a gap that does not reach as far as one of its requests has lost a byte for good. */
  lemma {:induction false} LostInClosed(reqs: seq<Request>) returns (i: nat)
    requires Ready(reqs) && Fits(reqs) && !Closed(reqs)
    ensures Ready(Merged(reqs)) && Merged(reqs) != [] && Hit(reqs, i) && !Hit(Merged(reqs), i)
            && i < Last(Merged(reqs)).Start()
  {
    var init, r := reqs[..|reqs| - 1], Last(reqs);
    ReadyInit(reqs);
    MergedShape(init);
    MergedShape(reqs);
    VectorsAdd(reqs);
    if !Closed(init) {
      i := LostInClosed(init);
      GoneAdd(Merged(init), r, i);
    } else {
      i := LostAtEnd(init);
      GoneGap(Merged(init), r, i);
    }
    HitMore(reqs, |reqs| - 1, i);
  }

  /** Where the last group ends too early, the byte after it is lost. */
  lemma LostAtEnd(reqs: seq<Request>) returns (i: nat)
    requires Ready(reqs) && Fits(reqs) && reqs != [] && Top(reqs) != Last(reqs).End()
    ensures Ready(Merged(reqs)) && i == Last(reqs).End() && Hit(reqs, i) && !Hit(Merged(reqs), i)
  {
    MergedShape(reqs);
    i := Last(reqs).End();
    var k := TopReached(reqs);
    assert reqs[k].sector <= Last(reqs).sector;
    assert reqs[k].Covers(i);
    GroupsApart(reqs);
    NotHit(Merged(reqs), i);
  }

  lemma NotHit(out: seq<Request>, i: nat)
    requires Apart(out) && i >= Last(out).End()
    ensures !Hit(out, i)
  {
  }

  lemma {:induction false} HitDecides(reqs: seq<Request>, i: nat, d: byte, e: byte)
    requires AllValid(reqs)
    ensures if Hit(reqs, i) then Value(reqs, i, d) == Value(reqs, i, e) else Value(reqs, i, d) == d
  {
    if reqs != [] {
      var init := reqs[..|reqs| - 1];
      HitDecides(init, i, d, e);
      if Hit(init, i) {
        var k :| 0 <= k < |init| && init[k].Covers(i);
        assert reqs[k].Covers(i);
      }
    }
  }

  /** The merged requests write what the sorted ones do, whatever the disk held. */
  ghost predicate Same(reqs: seq<Request>)
    requires Ready(reqs) && Ready(Merged(reqs))
  {
    forall i: nat, d: byte :: Value(Merged(reqs), i, d) == Value(reqs, i, d)
  }

  /**
   Within the vector limit, merging preserves meaning if and only if the last request of every group
   of touching requests reaches as far as any other of the group.
   */
  lemma MergeExact(reqs: seq<Request>)
    requires Ready(reqs) && Fits(reqs)
    ensures Ready(Merged(reqs)) && (Same(reqs) <==> Complete(reqs))
  {
    MergedShape(reqs);
    if reqs == [] {
    } else if Complete(reqs) {
      forall i: nat, d: byte ensures Value(Merged(reqs), i, d) == Value(reqs, i, d) {
        AgreeOutside(reqs, i, d);
      }
    } else {
      var i: nat;
      if !Closed(reqs) {
        i := LostInClosed(reqs);
      } else {
        i := LostAtEnd(reqs);
      }
      HitDecides(reqs, i, 0, 1);
      HitDecides(Merged(reqs), i, 0, 1);
      HitDecides(Merged(reqs), i, 1, 0);
      assert Value(Merged(reqs), i, 0) != Value(Merged(reqs), i, 1);
    }
  }

  // ---------- beyond the vector limit ----------

  /** Merging request `k` cuts byte `i` off the one before it. */
  predicate CutAt(reqs: seq<Request>, k: nat, i: nat) {
    0 < k < |reqs| && MergedAt(reqs, k) && reqs[k].End() <= i < reqs[k - 1].End()
  }

  /** The groups before the one that request `k` is merged into. */
  function Earlier(reqs: seq<Request>, k: nat): seq<Request>
    requires k <= |reqs| && Merged(reqs[..k]) != []
  {
    Merged(reqs[..k])[..|Merged(reqs[..k])| - 1]
  }

  lemma CutCovers(reqs: seq<Request>, k: nat, i: nat)
    requires Ready(reqs) && CutAt(reqs, k, i)
    ensures reqs[k - 1].Covers(i) && !reqs[k].Covers(i) && Ready(Merged(reqs[..k])) && AllValid(Earlier(reqs, k))
  {
    assert reqs[k - 1].sector <= reqs[k].sector;
    MergedShape(reqs[..k]);
  }

  /** An earlier group, kept apart by the vector limit, writes the same byte as the one cut off. */
  predicate Backed(reqs: seq<Request>, k: nat, i: nat)
    requires Ready(reqs) && CutAt(reqs, k, i)
  {
    CutCovers(reqs, k, i);
    Hit(Earlier(reqs, k), i) && Value(Earlier(reqs, k), i, 0) == reqs[k - 1].ByteAt(i)
  }

  /** Byte `i` is cut off at request `k`, no later request writes it, and no earlier group has it. */
  predicate Loses(reqs: seq<Request>, k: nat, i: nat)
    requires Ready(reqs)
  {
    CutAt(reqs, k, i) && (forall j :: k < j < |reqs| ==> !reqs[j].Covers(i)) && !Backed(reqs, k, i)
  }

  ghost predicate Intact(reqs: seq<Request>, i: nat)
    requires Ready(reqs)
  {
    forall k :: 0 <= k < |reqs| ==> !Loses(reqs, k, i)
  }

  /** Merged and sorted requests write the same byte `i`, whatever was there. */
  ghost predicate SameAt(reqs: seq<Request>, i: nat)
    requires Ready(reqs) && Ready(Merged(reqs))
  {
    Agree(Merged(reqs), reqs, i)
  }

  ghost predicate Agree(x: seq<Request>, y: seq<Request>, i: nat)
    requires AllValid(x) && AllValid(y)
  {
    forall d :: Value(x, i, d) == Value(y, i, d)
  }

  ghost predicate Writes(x: seq<Request>, i: nat, v: byte)
    requires AllValid(x)
  {
    forall d :: Value(x, i, d) == v
  }

  lemma AgreeWrites(x: seq<Request>, y: seq<Request>, e: seq<Request>, i: nat, v: byte)
    requires AllValid(x) && AllValid(y) && AllValid(e) && Agree(x, e, i) && Writes(y, i, v)
    ensures Agree(x, y, i) <==> Writes(e, i, v)
  {
    if Agree(x, y, i) {
      forall d ensures Value(e, i, d) == v {
        assert Value(x, i, d) == Value(e, i, d) && Value(x, i, d) == Value(y, i, d);
      }
    }
  }

  /** What the last request does to the byte. */
  lemma LastStep(reqs: seq<Request>, i: nat, d: byte)
    requires Ready(reqs) && |reqs| > 1
    ensures var init, n := reqs[..|reqs| - 1], |reqs| - 1;
            && Ready(init) && Ready(Merged(init)) && Ready(Merged(reqs))
            && Value(reqs, i, d) == (if Last(reqs).Covers(i) then Last(reqs).ByteAt(i) else Value(init, i, d))
            && (CutAt(reqs, n, i)
                ==> AllValid(Earlier(reqs, n)) && Value(Merged(reqs), i, d) == Value(Earlier(reqs, n), i, d))
            && (!CutAt(reqs, n, i) ==>
                  Value(Merged(reqs), i, d)
                  == if Last(reqs).Covers(i) then Last(reqs).ByteAt(i) else Value(Merged(init), i, d))
  {
    var init, n, r := reqs[..|reqs| - 1], |reqs| - 1, Last(reqs);
    ReadyInit(reqs);
    MergedShape(init);
    MergedShape(reqs);
    assert Follows(Merged(init), reqs[n - 1]);
    if CutAt(reqs, n, i) {
      CutCovers(reqs, n, i);
      CutValue(Merged(init), r, i, d);
    } else {
      AddValue(Merged(init), r, i, d);
    }
  }

  lemma CutValue(out: seq<Request>, r: Request, i: nat, d: byte)
    requires Ready(out) && r.Valid() && out != [] && Last(out).sector <= r.sector && Merges(Last(out), r)
             && i >= r.End()
    ensures AllValid(Add(out, r)) && Value(Add(out, r), i, d) == Value(out[..|out| - 1], i, d)
  {
    JoinExtent(Last(out), r);
    ValueLast(out[..|out| - 1], Join(Last(out), r), i, d);
  }

  lemma CutValues(reqs: seq<Request>, i: nat, d: byte)
    requires Ready(reqs) && |reqs| > 1 && CutAt(reqs, |reqs| - 1, i)
    ensures var n := |reqs| - 1;
            && Ready(Merged(reqs)) && AllValid(Earlier(reqs, n)) && reqs[n - 1].Covers(i)
            && Value(reqs, i, d) == reqs[n - 1].ByteAt(i) && Value(Merged(reqs), i, d) == Value(Earlier(reqs, n), i, d)
  {
    var n := |reqs| - 1;
    CutCovers(reqs, n, i);
    LastStep(reqs, i, d);
    assert reqs[..n][n - 1] == reqs[n - 1];
  }

  /** A list that writes byte `i` always writes the same value there, and otherwise leaves it. */
  lemma WritesConstant(out: seq<Request>, i: nat, v: byte)
    requires AllValid(out)
    ensures Writes(out, i, v) <==> Hit(out, i) && Value(out, i, 0) == v
  {
    forall d ensures if Hit(out, i) then Value(out, i, d) == Value(out, i, 0) else Value(out, i, d) == d {
      HitDecides(out, i, d, 0);
    }
    if !Hit(out, i) {
      assert Value(out, i, 0) != Value(out, i, 1);
    }
  }

  /** A byte cut off by the last request is right exactly when an earlier group backs it. */
  lemma CutIsLast(reqs: seq<Request>, i: nat)
    requires Ready(reqs) && |reqs| > 1 && CutAt(reqs, |reqs| - 1, i)
    ensures Ready(Merged(reqs)) && (SameAt(reqs, i) <==> Backed(reqs, |reqs| - 1, i))
  {
    var n := |reqs| - 1;
    CutAgrees(reqs, i);
    WritesConstant(Earlier(reqs, n), i, reqs[n - 1].ByteAt(i));
    AgreeWrites(Merged(reqs), reqs, Earlier(reqs, n), i, reqs[n - 1].ByteAt(i));
  }

  lemma CutAgrees(reqs: seq<Request>, i: nat)
    requires Ready(reqs) && |reqs| > 1 && CutAt(reqs, |reqs| - 1, i)
    ensures var n := |reqs| - 1;
            && Ready(Merged(reqs)) && AllValid(Earlier(reqs, n)) && reqs[n - 1].Covers(i)
            && Agree(Merged(reqs), Earlier(reqs, n), i) && Writes(reqs, i, reqs[n - 1].ByteAt(i))
  {
    CutValues(reqs, i, 0);
    forall d
      ensures Value(reqs, i, d) == reqs[|reqs| - 2].ByteAt(i)
              && Value(Merged(reqs), i, d) == Value(Earlier(reqs, |reqs| - 1), i, d)
    {
      CutValues(reqs, i, d);
    }
  }

  /** Losses of the shorter list stay losses unless the last request writes or cuts the byte itself. */
  lemma LosesInit(reqs: seq<Request>, k: nat, i: nat)
    requires Ready(reqs) && |reqs| > 1 && k < |reqs| - 1 && Ready(reqs[..|reqs| - 1])
    ensures Loses(reqs, k, i) <==> Loses(reqs[..|reqs| - 1], k, i) && !Last(reqs).Covers(i)
  {
    var init := reqs[..|reqs| - 1];
    assert init[..k] == reqs[..k];
    assert CutAt(init, k, i) <==> CutAt(reqs, k, i);
    assert forall j :: k < j < |init| ==> init[j] == reqs[j];
  }

  /** After a cut by the last request no other loss of the byte remains. */
  lemma CutAlone(reqs: seq<Request>, k: nat, i: nat)
    requires Ready(reqs) && |reqs| > 1 && k < |reqs| - 1 && CutAt(reqs, |reqs| - 1, i)
    ensures !Loses(reqs, k, i)
  {
    CutCovers(reqs, |reqs| - 1, i);
  }

  /** Writing byte `i`, or leaving it alone, the last request does the same to both. */
  lemma SameAtInit(reqs: seq<Request>, i: nat)
    requires Ready(reqs) && |reqs| > 1 && !CutAt(reqs, |reqs| - 1, i)
    ensures Ready(Merged(reqs)) && Ready(reqs[..|reqs| - 1]) && Ready(Merged(reqs[..|reqs| - 1]))
    ensures SameAt(reqs, i) <==> Last(reqs).Covers(i) || SameAt(reqs[..|reqs| - 1], i)
  {
    var init := reqs[..|reqs| - 1];
    LastStep(reqs, i, 0);
    if Last(reqs).Covers(i) || SameAt(init, i) {
      forall d ensures Value(Merged(reqs), i, d) == Value(reqs, i, d) {
        LastStep(reqs, i, d);
      }
    } else {
      var d :| Value(Merged(init), i, d) != Value(init, i, d);
      LastStep(reqs, i, d);
    }
  }

  /** Byte by byte. */
  lemma {:induction false} SameAtExact(reqs: seq<Request>, i: nat)
    requires Ready(reqs)
    ensures Ready(Merged(reqs)) && (SameAt(reqs, i) <==> Intact(reqs, i))
    decreases |reqs|
  {
    if |reqs| <= 1 {
      FewSame(reqs, i);
    } else if CutAt(reqs, |reqs| - 1, i) {
      CutIsLast(reqs, i);
      IntactCut(reqs, i);
    } else {
      ReadyInit(reqs);
      SameAtExact(reqs[..|reqs| - 1], i);
      SameAtInit(reqs, i);
      IntactInit(reqs, i);
    }
  }

  lemma FewSame(reqs: seq<Request>, i: nat)
    requires Ready(reqs) && |reqs| <= 1
    ensures Ready(Merged(reqs)) && SameAt(reqs, i) && Intact(reqs, i)
  {
    if reqs != [] {
      assert Merged(reqs[..0]) == [] && Merged(reqs) == [reqs[0]] == reqs;
    }
  }

  lemma IntactCut(reqs: seq<Request>, i: nat)
    requires Ready(reqs) && |reqs| > 1 && CutAt(reqs, |reqs| - 1, i)
    ensures Intact(reqs, i) <==> Backed(reqs, |reqs| - 1, i)
  {
    forall k | 0 <= k < |reqs| - 1 ensures !Loses(reqs, k, i) {
      CutAlone(reqs, k, i);
    }
    assert Loses(reqs, |reqs| - 1, i) <==> !Backed(reqs, |reqs| - 1, i);
  }

  lemma IntactInit(reqs: seq<Request>, i: nat)
    requires Ready(reqs) && |reqs| > 1 && Ready(reqs[..|reqs| - 1]) && !CutAt(reqs, |reqs| - 1, i)
    ensures Intact(reqs, i) <==> Last(reqs).Covers(i) || Intact(reqs[..|reqs| - 1], i)
  {
    var init := reqs[..|reqs| - 1];
    if Last(reqs).Covers(i) || Intact(init, i) {
      forall k | 0 <= k < |reqs| ensures !Loses(reqs, k, i) {
        if k < |init| {
          LosesInit(reqs, k, i);
        }
      }
    } else {
      var k :| 0 <= k < |init| && Loses(init, k, i);
      LosesInit(reqs, k, i);
    }
  }

  lemma SameEverywhere(reqs: seq<Request>)
    requires Ready(reqs) && Ready(Merged(reqs))
    ensures Same(reqs) <==> forall i: nat :: SameAt(reqs, i)
  {
    if forall i: nat :: SameAt(reqs, i) {
      forall i: nat, d: byte ensures Value(Merged(reqs), i, d) == Value(reqs, i, d) {
        assert SameAt(reqs, i);
      }
    }
  }

  /**
   For every request list, also one that the vector limit splits: merging preserves meaning if and
   only if every byte that a merge cuts off is written again by a later request, or was written
   with the same value by an earlier group.
   */
  lemma MergeExactAlways(reqs: seq<Request>)
    requires Ready(reqs)
    ensures Ready(Merged(reqs)) && (Same(reqs) <==> forall i: nat :: Intact(reqs, i))
  {
    MergedShape(reqs);
    forall i: nat ensures SameAt(reqs, i) <==> Intact(reqs, i) {
      SameAtExact(reqs, i);
    }
    SameEverywhere(reqs);
  }

  /** Three sectors and a rewrite of the middle one: the third sector is not written. */
  lemma RewriteLosesData(a: seq<byte>, b: seq<byte>)
    requires |a| == 1536 && |b| == 512
    ensures var reqs := [Request(0, 3, [a]), Request(1, 1, [b])];
            Ready(reqs) && Ready(Merged(reqs)) && !Same(reqs)
  {
    var o, r := Request(0, 3, [a]), Request(1, 1, [b]);
    var reqs := [o, r];
    FlatOne(a);
    FlatOne(b);
    assert reqs[..1] == [o];
    assert VectorSum([o]) == 1 && Top([o]) == 1536 by { assert [o][..0] == []; }
    assert VectorSum(reqs) == 2 && Top(reqs) == 1536;
    MergeExact(reqs);
  }
}
