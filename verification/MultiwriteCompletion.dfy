/**
 bdrv_aio_multiwrite (block.c): the merge loop in place, and the counter that decides when the
 callbacks of the original requests run.
 */
module MultiwriteCompletion {
  import opened IoVectors
  import opened Multiwrite
  import opened Units

  lemma MergedStep(reqs: seq<Request>, i: nat)
    requires i < |reqs|
    ensures Merged(reqs[..i + 1]) == Add(Merged(reqs[..i]), reqs[i])
  {
    assert reqs[..i + 1][..i] == reqs[..i];
  }

  /** The scatter-gather list and length of two merged requests, as the loop builds them. */
  method MergePair(o: Request, r: Request) returns (merged: Request)
    requires o.sector <= r.sector
    ensures merged == Join(o, r)
  {
    var size := 512 * (r.sector - o.sector);
    var qiov := IovecCopy([], o.qiov, 0, size);
    assert qiov == Part(o.qiov, 0, size);
    qiov := IovecCopy(qiov, r.qiov, 0, |Flat(r.qiov)|);
    merged := Request(o.sector, |Flat(qiov)| / 512, qiov);
  }

  /** The request kept last starts no later than the next one. */
  lemma InOrder(s: seq<Request>, i: nat)
    requires Ready(s) && 0 < i < |s|
    ensures Merged(s[..i]) != [] && Last(Merged(s[..i])).sector <= s[i].sector
  {
    MergedShape(s[..i]);
  }

  /** One iteration: request `i` is merged into request `outidx`, or moved to the place after it. */
  method MergeOne(reqs: array<Request>, outidx: nat, i: nat) returns (last: nat)
    requires outidx < i < reqs.Length && reqs[outidx].sector <= reqs[i].sector
    modifies reqs
    ensures outidx <= last <= i && reqs[..last + 1] == Add(old(reqs[..outidx + 1]), old(reqs[i]))
    ensures forall k :: i < k < reqs.Length ==> reqs[k] == old(reqs[k])
  {
    ghost var out := reqs[..outidx + 1];
    if reqs[i].sector <= reqs[outidx].sector + reqs[outidx].nb && |reqs[outidx].qiov| + |reqs[i].qiov| + 1 <= IOV_MAX {
      var merged := MergePair(reqs[outidx], reqs[i]);
      reqs[outidx] := merged;
      last := outidx;
      assert reqs[..last + 1] == out[..outidx] + [merged];
    } else {
      last := outidx + 1;
      reqs[last] := reqs[i];
      assert reqs[..last + 1] == out + [reqs[last]];
    }
  }

  /** `multiwrite_merge`, after the sort: the merged requests are the first `n` of the array. */
  method MergeInPlace(reqs: array<Request>) returns (n: nat)
    requires reqs.Length > 0 && Ready(reqs[..])
    modifies reqs
    ensures n <= reqs.Length && reqs[..n] == Merged(old(reqs[..]))
  {
    ghost var s := reqs[..];
    var outidx := 0;
    MergedStep(s, 0);
    assert s[..0] == [] && reqs[..1] == s[..1];
    for i := 1 to reqs.Length
      invariant outidx < i && reqs[..outidx + 1] == Merged(s[..i])
      invariant forall k :: i <= k < reqs.Length ==> reqs[k] == s[k]
    {
      MergedStep(s, i);
      InOrder(s, i);
      outidx := MergeOne(reqs, outidx, i);
    }
    assert s[..reqs.Length] == s;
    return outidx + 1;
  }

  predicate NoError(rets: seq<int>) { forall i :: 0 <= i < |rets| ==> rets[i] >= 0 }

  /** Return value `i` is `error`, and the first that is negative. */
  predicate FirstAt(rets: seq<int>, i: nat, error: int) { i < |rets| && rets[i] == error < 0 && NoError(rets[..i]) }

  /** The first negative return value, 0 if there is none. */
  ghost predicate IsFirstError(rets: seq<int>, error: int) {
    (error == 0 && NoError(rets)) || exists i: nat :: FirstAt(rets, i, error)
  }

  lemma FirstErrorAppend(rets: seq<int>, error: int, r: int)
    requires IsFirstError(rets, error)
    ensures IsFirstError(rets + [r], if r < 0 && error == 0 then r else error)
  {
    var more := rets + [r];
    if error != 0 {
      var i: nat :| FirstAt(rets, i, error);
      assert more[..i] == rets[..i];
      assert FirstAt(more, i, error);
    } else if r < 0 {
      assert !exists i: nat :: FirstAt(rets, i, 0);
      assert more[..|rets|] == rets;
      assert FirstAt(more, |rets|, r);
    }
  }

  /** There is only one. */
  lemma FirstErrorUnique(rets: seq<int>, a: int, b: int)
    requires IsFirstError(rets, a) && IsFirstError(rets, b)
    ensures a == b && (a == 0 <==> NoError(rets))
  {
    if i: nat :| FirstAt(rets, i, a) {
      if j: nat :| FirstAt(rets, j, b) {
        assert i < j ==> rets[..j][i] < 0;
        assert j < i ==> rets[..i][j] < 0;
      }
    }
  }

  /** Every callback called once, in order, with this error. */
  ghost predicate AllCalled(called: seq<(int, int)>, n: nat, error: int) {
    |called| == n && forall i :: 0 <= i < n ==> called[i] == (i, error)
  }

  /** MultiwriteCB. `called` records the callbacks run, with the error each was given. */
  class Counter {
    var error: int
    var numRequests: int
    const numCallbacks: nat
    var called: seq<(int, int)>
    var freed: bool
    ghost var rets: seq<int>    // return values so far, in order
    ghost var pending: nat      // submitted requests that have not completed
    ghost var dummy: bool       // the dummy request has not completed

    /**
     The counter counts what is outstanding; the callbacks run when nothing is, each exactly once, with
     the first error among all return values.
     */
    ghost predicate Valid()
      reads this
    {
      && numRequests == pending + (if dummy then 1 else 0)
      && IsFirstError(rets, error)
      && freed == (pending == 0 && !dummy)
      && (if freed then AllCalled(called, numCallbacks, error) else called == [])
    }

    /** With the dummy request outstanding, as before the first submission. */
    constructor (numCallbacks: nat)
      ensures Valid() && this.numCallbacks == numCallbacks && rets == [] && pending == 0 && dummy
    {
      this.numCallbacks := numCallbacks;
      error, numRequests, called, freed := 0, 1, [], false;
      rets, pending, dummy := [], 0, true;
    }

    /** `multiwrite_user_cb`: callback `i` runs `i`-th, once, with the error. */
    method UserCallbacks()
      modifies this`called
      ensures |called| == |old(called)| + numCallbacks && called[..|old(called)|] == old(called)
      ensures forall i :: 0 <= i < numCallbacks ==> called[|old(called)| + i] == (i, error)
    {
      for i := 0 to numCallbacks
        invariant |called| == |old(called)| + i && called[..|old(called)|] == old(called)
        invariant forall k :: 0 <= k < i ==> called[|old(called)| + k] == (k, error)
      {
        called := called + [(i, error)];
      }
    }

    /** `mcb->num_requests++` before a submission. */
    method Start()
      requires Valid() && !freed
      modifies this`numRequests, this`pending
      ensures Valid() && !freed && pending == old(pending) + 1
    {
      numRequests := numRequests + 1;
      pending := pending + 1;
    }

    /** `multiwrite_cb`, for a submitted request or for the dummy. */
    method Complete(ret: int, ghost isDummy: bool)
      requires Valid() && !freed && (if isDummy then dummy else pending > 0)
      modifies this
      ensures Valid() && rets == old(rets) + [ret]
      ensures pending == old(pending) - (if isDummy then 0 else 1) && dummy == (old(dummy) && !isDummy)
    {
      FirstErrorAppend(rets, error, ret);
      if ret < 0 && error == 0 {
        error := ret;
      }
      numRequests := numRequests - 1;
      rets := rets + [ret];
      if isDummy {
        dummy := false;
      } else {
        pending := pending - 1;
      }
      if numRequests == 0 {
        UserCallbacks();
        freed := true;
      }
    }

    /** Completions that arrive while the caller is busy submitting. */
    method CompleteMany(returned: seq<int>)
      requires Valid() && dummy && |returned| <= pending
      modifies this
      ensures Valid() && dummy && pending == old(pending) - |returned| && rets == old(rets) + returned
    {
      for i := 0 to |returned|
        invariant Valid() && dummy && pending == old(pending) - i && rets == old(rets) + returned[..i]
      {
        assert returned[..i + 1] == returned[..i] + [returned[i]];
        Complete(returned[i], false);
      }
      assert returned[..|returned|] == returned;
    }

    /**
     The outstanding requests complete, in any order and with any results: the callbacks then have run,
     each once, with the first error of the whole run.
     */
    method Finish(returned: seq<int>)
      requires Valid() && !dummy && |returned| == pending
      modifies this
      ensures Valid() && freed && rets == old(rets) + returned && IsFirstError(rets, error)
      ensures |called| == numCallbacks && forall i :: 0 <= i < numCallbacks ==> called[i] == (i, error)
    {
      for i := 0 to |returned|
        invariant Valid() && !dummy && pending == |returned| - i && rets == old(rets) + returned[..i]
      {
        assert returned[..i + 1] == returned[..i] + [returned[i]];
        Complete(returned[i], false);
      }
      assert returned[..|returned|] == returned;
    }
  }

  /** One call of bdrv_aio_writev: whether it was accepted, and what completed before the next. */
  datatype Attempt = Attempt(accepted: bool, returned: seq<int>)

  /** The attempts are ones a driver can make: nothing completes that was not submitted. */
  predicate Possible(attempts: seq<Attempt>, pending: nat)
    decreases |attempts|
  {
    attempts == [] ||
    var now := pending + (if attempts[0].accepted then 1 else 0);
    |attempts[0].returned| <= now && Possible(attempts[1..], now - |attempts[0].returned|)
  }

  /**
   Return values seen while submitting: those of completions, and EIO for a late failure, after which nothing is
   submitted.
   */
  function Returned(attempts: seq<Attempt>): seq<int> {
    if attempts == [] then []
    else if attempts[0].accepted then attempts[0].returned + Returned(attempts[1..])
    else attempts[0].returned + [-EIO]
  }

  /** Requests that are still outstanding when submission ends. */
  function Outstanding(attempts: seq<Attempt>, pending: nat): int {
    if attempts == [] then pending
    else if attempts[0].accepted then
      var n := |attempts[0].returned|;
      Outstanding(attempts[1..], if n <= pending + 1 then pending + 1 - n else 0)
    else pending - |attempts[0].returned|
  }

  /** How many requests are accepted before the first refusal, which ends submission. */
  function Accepted(attempts: seq<Attempt>): nat {
    if attempts == [] || !attempts[0].accepted then 0 else 1 + Accepted(attempts[1..])
  }

  /** All requests are accepted, and all completions seen while submitting are good. */
  predicate AllGood(attempts: seq<Attempt>) {
    forall i :: 0 <= i < |attempts| ==> attempts[i].accepted && NoError(attempts[i].returned)
  }

  /** The return values seen while submitting are all good exactly when nothing was refused and nothing failed. */
  lemma {:induction false} ReturnedGood(attempts: seq<Attempt>)
    ensures NoError(Returned(attempts)) <==> AllGood(attempts)
  {
    if attempts != [] {
      var a, rest := attempts[0], attempts[1..];
      assert AllGood(attempts) <==> a.accepted && NoError(a.returned) && AllGood(rest) by {
        assert attempts == [a] + rest;
      }
      if a.accepted {
        ReturnedGood(rest);
        NoErrorConcat(a.returned, Returned(rest));
      } else {
        NoErrorConcat(a.returned, [-EIO]);
        assert [-EIO][0] < 0;
      }
    }
  }

  lemma NoErrorConcat(a: seq<int>, b: seq<int>)
    ensures NoError(a + b) <==> NoError(a) && NoError(b)
  {
    if NoError(a + b) {
      assert forall i :: 0 <= i < |a| ==> (a + b)[i] == a[i];
      assert forall i :: 0 <= i < |b| ==> (a + b)[|a| + i] == b[i];
    }
  }

  /** Every accepted request is outstanding or has returned once; a refused one counts as returned. */
  lemma {:induction false} NoneForgotten(attempts: seq<Attempt>, pending: nat)
    requires Possible(attempts, pending)
    ensures Accepted(attempts) <= |attempts|
    ensures Outstanding(attempts, pending) + |Returned(attempts)|
         == pending + Accepted(attempts) + (if Accepted(attempts) < |attempts| then 1 else 0)
    decreases |attempts|
  {
    if attempts != [] && attempts[0].accepted {
      NoneForgotten(attempts[1..], pending + 1 - |attempts[0].returned|);
    }
  }

  /** One attempt: a refused one counts as a request that fails with EIO, unless it is the first. */
  method Try(mcb: Counter, a: Attempt, first: bool)
    requires mcb.Valid() && mcb.dummy && |a.returned| <= mcb.pending + (if a.accepted then 1 else 0)
    modifies mcb
    ensures a.accepted || !first ==> mcb.Valid() && mcb.dummy
    ensures a.accepted ==> mcb.pending == old(mcb.pending) + 1 - |a.returned| && mcb.rets == old(mcb.rets) + a.returned
    ensures !a.accepted && !first
            ==> mcb.pending == old(mcb.pending) - |a.returned| && mcb.rets == old(mcb.rets) + a.returned + [-EIO]
    ensures !a.accepted && first ==> mcb.called == []
  {
    mcb.Start();
    if !a.accepted && first {
      return;
    }
    mcb.CompleteMany(a.returned);
    if !a.accepted {
      mcb.Complete(-EIO, false);
    }
  }

  /** `reqs[i].error = error` for every request. */
  method MarkAll(errors: array<int>, error: int)
    modifies errors
    ensures forall i :: 0 <= i < errors.Length ==> errors[i] == error
  {
    for i := 0 to errors.Length
      invariant forall k :: 0 <= k < i ==> errors[k] == error
    {
      errors[i] := error;
    }
  }

  /** The submission loop: the requests in order, up to the first that is refused. */
  method Offer(mcb: Counter, reqs: seq<Request>, attempts: seq<Attempt>)
    returns (refused: bool, submitted: seq<Request>)
    requires mcb.Valid() && mcb.dummy && mcb.pending == 0 && mcb.rets == []
    requires |attempts| == |reqs| > 0 && Possible(attempts, 0)
    modifies mcb
    ensures refused == !attempts[0].accepted
    ensures refused ==> mcb.called == []
    ensures !refused
            ==> mcb.Valid() && mcb.dummy && mcb.pending == Outstanding(attempts, 0) && mcb.rets == Returned(attempts)
    ensures Accepted(attempts) <= |reqs| && submitted == reqs[..Accepted(attempts)]
  {
    var i := 0;
    submitted := [];
    assert attempts[0..] == attempts;
    while i < |reqs|
      invariant i <= |reqs| && mcb.Valid() && mcb.dummy
      invariant i > 0 ==> attempts[0].accepted
      invariant Submitting(attempts, i, mcb.pending, mcb.rets) && submitted == reqs[..i]
    {
      AttemptStep(attempts, i, mcb.pending, mcb.rets);
      Try(mcb, attempts[i], i == 0);
      if !attempts[i].accepted {
        return i == 0, submitted;
      }
      submitted := submitted + [reqs[i]];
      i := i + 1;
    }
    assert attempts[i..] == [];
    refused := false;
  }

  /**
   The second half of `bdrv_aio_multiwrite`. If the first submission fails no callback ever runs
   and every request is marked; otherwise the counter is left to the outstanding completions.
   */
  method Submit(mcb: Counter, reqs: seq<Request>, attempts: seq<Attempt>, errors: array<int>)
    returns (ret: int, submitted: seq<Request>)
    requires mcb.Valid() && mcb.dummy && mcb.pending == 0 && mcb.rets == []
    requires |attempts| == |reqs| > 0 && Possible(attempts, 0) && errors.Length == mcb.numCallbacks
    modifies mcb, errors
    ensures ret == if attempts[0].accepted then 0 else -1
    ensures ret == -1 ==> mcb.called == [] && forall i :: 0 <= i < errors.Length ==> errors[i] == -EIO
    ensures ret == 0
            ==> mcb.Valid() && !mcb.dummy && mcb.pending == Outstanding(attempts, 0)
                && mcb.rets == Returned(attempts) + [0]
    ensures ret == 0 ==> errors[..] == old(errors[..])
    ensures Accepted(attempts) <= |reqs| && submitted == reqs[..Accepted(attempts)]
  {
    var refused;
    refused, submitted := Offer(mcb, reqs, attempts);
    if refused {
      MarkAll(errors, -EIO);
      return -1, submitted;
    }
    mcb.Complete(0, true);
    ret := 0;
  }

  /** Submission has reached attempt `i`. */
  ghost predicate Submitting(attempts: seq<Attempt>, i: nat, pending: nat, rets: seq<int>) {
    && i <= |attempts| && Possible(attempts[i..], pending)
    && rets + Returned(attempts[i..]) == Returned(attempts)
    && Outstanding(attempts[i..], pending) == Outstanding(attempts, 0)
    && i + Accepted(attempts[i..]) == Accepted(attempts)
  }

  lemma AttemptStep(attempts: seq<Attempt>, i: nat, pending: nat, rets: seq<int>)
    requires Submitting(attempts, i, pending, rets) && i < |attempts|
    ensures var a := attempts[i];
            if a.accepted then
              |a.returned| <= pending + 1 && Submitting(attempts, i + 1, pending + 1 - |a.returned|, rets + a.returned)
            else
              && |a.returned| <= pending && Returned(attempts) == rets + a.returned + [-EIO]
              && Outstanding(attempts, 0) == pending - |a.returned| && Accepted(attempts) == i
  {
    assert attempts[i..][0] == attempts[i] && attempts[i..][1..] == attempts[i + 1..];
  }

  /** `bdrv_aio_multiwrite` on sorted requests: no medium, nothing to do, or merge and submit. */
  method AioMultiwrite(medium: bool, reqs: array<Request>, attempts: seq<Attempt>, errors: array<int>)
    returns (ret: int, mcb: Counter?, submitted: seq<Request>)
    requires Ready(reqs[..]) && errors.Length == reqs.Length
    requires medium && reqs.Length > 0 ==> |attempts| == |Merged(reqs[..])| > 0 && Possible(attempts, 0)
    modifies reqs, errors
    ensures mcb != null ==> fresh(mcb)
    ensures !medium || reqs.Length == 0 ==> submitted == []
    ensures medium && reqs.Length > 0 ==>
              Accepted(attempts) <= |Merged(old(reqs[..]))| && submitted == Merged(old(reqs[..]))[..Accepted(attempts)]
    ensures !medium ==> ret == -1 && mcb == null && forall i :: 0 <= i < errors.Length ==> errors[i] == -ENOMEDIUM
    ensures medium && reqs.Length == 0 ==> ret == 0 && mcb == null
    ensures medium && reqs.Length > 0
            ==> mcb != null && mcb.numCallbacks == reqs.Length && ret == if attempts[0].accepted then 0 else -1
    ensures medium && reqs.Length > 0 && ret == -1
            ==> mcb.called == [] && forall i :: 0 <= i < errors.Length ==> errors[i] == -EIO
    ensures medium && reqs.Length > 0 && ret == 0 ==>
              mcb.Valid() && !mcb.dummy && mcb.pending == Outstanding(attempts, 0)
              && mcb.rets == Returned(attempts) + [0] && errors[..] == old(errors[..])
  {
    if !medium {
      MarkAll(errors, -ENOMEDIUM);
      return -1, null, [];
    }
    if reqs.Length == 0 {
      return 0, null, [];
    }
    mcb := new Counter(reqs.Length);
    var n := MergeInPlace(reqs);
    ret, submitted := Submit(mcb, reqs[..n], attempts, errors);
  }

  /**
   The whole life of a call with a medium: the outstanding requests complete with `returned`. If the first
   submission was accepted, every callback of the original requests runs exactly once, and the error they get is 0
   if and only if no submission was refused and no completion failed.
   */
  method WholeCall(reqs: array<Request>, attempts: seq<Attempt>, returned: seq<int>, errors: array<int>)
    returns (ret: int, called: seq<(int, int)>, error: int)
    requires Ready(reqs[..]) && errors.Length == reqs.Length > 0
    requires |attempts| == |Merged(reqs[..])| > 0 && Possible(attempts, 0) && |returned| == Outstanding(attempts, 0)
    modifies reqs, errors
    ensures ret == if attempts[0].accepted then 0 else -1
    ensures ret == -1 ==> called == []
    ensures ret == 0 ==> |called| == reqs.Length && forall i :: 0 <= i < reqs.Length ==> called[i] == (i, error)
    ensures ret == 0 ==> IsFirstError(Returned(attempts) + [0] + returned, error)
    ensures ret == 0 ==> (error == 0 <==> AllGood(attempts) && NoError(returned))
  {
    var mcb, submitted;
    ret, mcb, submitted := AioMultiwrite(true, reqs, attempts, errors);
    called, error := mcb.called, 0;
    if ret == 0 {
      mcb.Finish(returned);
      called, error := mcb.called, mcb.error;
      CallGood(attempts, returned, error);
    }
  }

  lemma CallGood(attempts: seq<Attempt>, returned: seq<int>, error: int)
    requires IsFirstError(Returned(attempts) + [0] + returned, error)
    ensures error == 0 <==> AllGood(attempts) && NoError(returned)
  {
    FirstErrorUnique(Returned(attempts) + [0] + returned, error, error);
    NoErrorConcat(Returned(attempts) + [0], returned);
    NoErrorConcat(Returned(attempts), [0]);
    ReturnedGood(attempts);
  }
}
