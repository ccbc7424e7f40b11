/**
 What async_context_pop of async.c can lose. Its flush loop stops at a poll that ran idle bottom halves
 only; what such a callback leaves due stays on a list that nothing reads any more.
 */
module BottomHalfLoss {
  import opened Runs
  import opened BottomHalves
  import opened BottomHalfPoll

  predicate DueAt(s: State, k: nat) {
    s.stack != [] && k < |s.Top().list| && s.Top().list[k] in s.nodes && Due(s.nodes[s.Top().list[k]])
  }

  /** Item `k` is the first of the current list that is due. */
  predicate FirstDue(s: State, k: nat) { DueAt(s, k) && forall j :: 0 <= j < k ==> !DueAt(s, j) }

  /** The first bottom half that is due, in list order, is an idle one. */
  ghost predicate IdleFirst(s: State) { exists k: nat :: FirstDue(s, k) && s.nodes[s.Top().list[k]].idle }

  // ---------- what a walk finds ----------

  /** A walk finds the first due bottom half, and everything before it, as it was. */
  lemma {:induction false} WalkFinds(s: State, list: seq<nat>, t: State, found: seq<BottomHalf>, k: nat)
    requires Walks(s, list, t, found) && k < |list|
    requires forall j :: 0 <= j < k ==> list[j] in s.nodes && !Due(s.nodes[list[j]])
    ensures list[k] in s.nodes && found[k] == s.nodes[list[k]]
    decreases |list|
  {
    var n := |list| - 1;
    var u :| Walks(s, list[..n], u, found[..n]) && Visits(u, list[n], t) && found[n] == u.nodes[list[n]];
    if k < n {
      WalkFinds(s, list[..n], u, found[..n], k);
    } else {
      forall j | 0 <= j < n ensures !Due(found[..n][j]) {
        WalkFinds(s, list[..n], u, found[..n], j);
      }
      QuietWalk(s, list[..n], u, found[..n]);
    }
  }

  lemma NothingFound(s: State, t: State, found: seq<BottomHalf>)
    requires s.Valid() && NoneDue(s) && Walks(s, s.Top().list, t, found)
    ensures t == s && !Progress(found)
  {
    var list := s.Top().list;
    assert s.Listed(s.stack[|s.stack| - 1]);
    forall k | 0 <= k < |found| ensures !Due(found[k]) {
      WalkFinds(s, list, t, found, k);
    }
    QuietWalk(s, list, t, found);
  }

  /** With nothing due a poll runs nothing, returns 0 and leaves nothing due. */
  lemma QuietPoll(s: State, t: State, ret: bool)
    requires s.Valid() && NoneDue(s) && Polls(s, t, ret)
    ensures !ret && t == Swept(s) && t.Valid() && NoneDue(t)
  {
    var walked, found :| Walks(s, s.Top().list, walked, found) && walked.stack != [] && t == Swept(walked)
                         && ret == Progress(found);
    NothingFound(s, walked, found);
    SweptValid(s);
    SweptDue(s);
  }

  lemma {:induction false} FirstBefore(s: State, k: nat) returns (i: nat)
    requires DueAt(s, k)
    ensures FirstDue(s, i)
  {
    i := k;
    if j: nat :| j < k && DueAt(s, j) {
      i := FirstBefore(s, j);
    }
  }

  lemma SomeFirst(s: State) returns (i: nat)
    requires s.stack != [] && !NoneDue(s)
    ensures FirstDue(s, i)
  {
    var k: nat :| k < |s.Top().list| && s.Top().list[k] in s.nodes && Due(s.nodes[s.Top().list[k]]);
    i := FirstBefore(s, k);
  }

  // ---------- a callback that makes the poll lose ----------

  /** The callback of `b` cancels everything else and schedules `b` again, as an idle one. */
  function Rescheduled(s: State, b: nat): State
    requires b in s.nodes
  {
    s.(nodes := map x | x in s.nodes ::
         if x == b then s.nodes[x].(scheduled := true, idle := true) else s.nodes[x].(scheduled := false))
  }

  lemma RescheduledAllowed(s: State, b: nat)
    requires s.Valid() && b in s.nodes
    ensures Rescheduled(s, b).Valid() && Allowed(Cleared(s, b), Rescheduled(s, b))
  {
    var t := Rescheduled(s, b);
    assert t.stack == s.stack;
    forall j | 0 <= j < |t.stack| ensures t.stack[j].id < t.contexts && t.Listed(t.stack[j]) {
      assert s.Listed(s.stack[j]);
    }
  }

  /** The state when the walk has passed `k` items and item `i` has done that. */
  function Losing(s: State, i: nat, k: nat): State
    requires DueAt(s, i)
  {
    if k <= i then s else Rescheduled(s, s.Top().list[i])
  }

  lemma LosingVisit(s: State, i: nat, k: nat)
    requires s.Valid() && FirstDue(s, i) && k < |s.Top().list|
    ensures var t, b := Losing(s, i, k), s.Top().list[k];
            && Visits(t, b, Losing(s, i, k + 1)) && (k != i ==> !Due(t.nodes[b]))
               && (k == i ==> t.nodes[b] == s.nodes[b])
  {
    assert s.Listed(s.stack[|s.stack| - 1]);
    RescheduledAllowed(s, s.Top().list[i]);
    assert k < i ==> !DueAt(s, k);
  }

  /** The walk in which only item `i` runs, and does that. */
  ghost predicate LosingFinds(s: State, i: nat, k: nat, found: seq<BottomHalf>)
    requires s.Valid() && FirstDue(s, i) && k <= |s.Top().list|
  {
    && |found| == k && Walks(s, s.Top().list[..k], Losing(s, i, k), found)
    && (forall j :: 0 <= j < k && j != i ==> !Due(found[j]))
    && (i < k ==> found[i] == s.nodes[s.Top().list[i]])
  }

  lemma LosingStep(s: State, i: nat, k: nat, found: seq<BottomHalf>) returns (more: seq<BottomHalf>)
    requires s.Valid() && FirstDue(s, i) && k < |s.Top().list| && LosingFinds(s, i, k, found)
    ensures LosingFinds(s, i, k + 1, more)
  {
    LosingVisit(s, i, k);
    var t, u := Losing(s, i, k), Losing(s, i, k + 1);
    WalksMore(s, s.Top().list, k, t, found, u);
    more := found + [t.nodes[s.Top().list[k]]];
  }

  lemma {:induction false} LosingWalk(s: State, i: nat, k: nat) returns (found: seq<BottomHalf>)
    requires s.Valid() && FirstDue(s, i) && k <= |s.Top().list|
    ensures LosingFinds(s, i, k, found)
  {
    found := [];
    if k > 0 {
      found := LosingWalk(s, i, k - 1);
      found := LosingStep(s, i, k - 1, found);
    }
  }

  lemma OnlyOneDue(s: State, i: nat, found: seq<BottomHalf>)
    requires i < |found| && Due(found[i]) && forall j :: 0 <= j < |found| && j != i ==> !Due(found[j])
    ensures Progress(found) <==> !found[i].idle
  {
  }

  /** After that poll the only due bottom half is an idle one. */
  lemma LosingPoll(s: State, i: nat) returns (t: State)
    requires s.Valid() && FirstDue(s, i)
    ensures Polls(s, t, !s.nodes[s.Top().list[i]].idle) && t.Valid() && IdleFirst(t) && !NoneDue(t)
  {
    var list, b := s.Top().list, s.Top().list[i];
    var found := LosingWalk(s, i, |list|);
    assert list[..|list|] == list;
    OnlyOneDue(s, i, found);
    RescheduledAllowed(s, b);
    var u := Rescheduled(s, b);
    t := Swept(u);
    SweptValid(u);
    SweptDue(u);
    assert b in u.Top().list && Due(u.nodes[b]);
    IdleAlone(u, b);
  }

  lemma IdleAlone(u: State, b: nat)
    requires u.Valid() && b in u.Top().list && b in u.nodes && Due(u.nodes[b]) && u.nodes[b].idle
    requires forall x :: x in u.nodes && x != b ==> !Due(u.nodes[x])
    ensures IdleFirst(Swept(u)) && !NoneDue(Swept(u))
  {
    var t := Swept(u);
    SweptValid(u);
    SweptDue(u);
    var k :| 0 <= k < |t.Top().list| && t.Top().list[k] == b;
    assert DueAt(t, k);
    forall j | 0 <= j < k ensures !DueAt(t, j) {
      assert t.Listed(t.stack[|t.stack| - 1]);
      assert t.Top().list[j] != b;
    }
    assert FirstDue(t, k);
  }

  /**
   One poll: callbacks can make it return 0, which ends the flush, and yet leave a bottom half due, exactly
   when the first one due in list order is idle.
   */
  lemma PollDecides(s: State)
    requires s.Valid()
    ensures (exists t :: Polls(s, t, false) && !NoneDue(t)) <==> IdleFirst(s)
  {
    if IdleFirst(s) {
      var i: nat :| FirstDue(s, i) && s.nodes[s.Top().list[i]].idle;
      var t := LosingPoll(s, i);
    }
    forall t | Polls(s, t, false) && !NoneDue(t) ensures IdleFirst(s) {
      LossIsIdle(s, t);
    }
  }

  lemma LossIsIdle(s: State, t: State)
    requires s.Valid() && Polls(s, t, false) && !NoneDue(t)
    ensures IdleFirst(s)
  {
    if NoneDue(s) {
      QuietPoll(s, t, false);
    } else {
      var i := SomeFirst(s);
      var walked, found :| Walks(s, s.Top().list, walked, found) && walked.stack != [] && t == Swept(walked)
                           && false == Progress(found);
      FoundFirst(s, i, walked, found);
    }
  }

  lemma FoundFirst(s: State, i: nat, walked: State, found: seq<BottomHalf>)
    requires s.Valid() && FirstDue(s, i) && Walks(s, s.Top().list, walked, found)
    ensures found[i] == s.nodes[s.Top().list[i]]
  {
    var list := s.Top().list;
    assert s.Listed(s.stack[|s.stack| - 1]);
    forall j | 0 <= j < i ensures list[j] in s.nodes && !Due(s.nodes[list[j]]) {
      assert !DueAt(s, j);
    }
    WalkFinds(s, list, walked, found, i);
  }

  /** With nothing due the loop ends after its first poll. */
  lemma QuietGoesOn(s: State, n: nat, t: State)
    requires s.Valid() && NoneDue(s) && GoesOn(s, n, t)
    ensures n == 0 && t == s
  {
    if n > 0 {
      var u := FirstStep(Again(), s, n, t);
      NoMorePolls(s, u);
    }
  }

  lemma NoMorePolls(s: State, t: State)
    requires s.Valid() && NoneDue(s)
    ensures !Polls(s, t, true)
  {
    if Polls(s, t, true) {
      QuietPoll(s, t, true);
    }
  }

  /**
   The whole flush: callbacks can make it end with a bottom half still due exactly when something is due when it
   begins.
   */
  lemma FlushDecides(s: State)
    requires s.Valid()
    ensures (exists n, left :: Flushes(s, n, left) && !NoneDue(left)) <==> !NoneDue(s)
  {
    if NoneDue(s) {
      forall n, left | Flushes(s, n, left) ensures NoneDue(left) {
        QuietFlush(s, n, left);
      }
    } else {
      var i := SomeFirst(s);
      var n, left := LosingFlush(s, i);
    }
  }

  lemma QuietFlush(s: State, n: nat, left: State)
    requires s.Valid() && NoneDue(s) && Flushes(s, n, left)
    ensures NoneDue(left)
  {
    var t :| Steps(Again(), s, n, t) && Ends()(t, left);
    QuietGoesOn(s, n, t);
    QuietPoll(s, left, false);
  }

  /** An idle one is lost at once; another makes itself idle in one more poll. */
  lemma LosingFlush(s: State, i: nat) returns (n: nat, left: State)
    requires s.Valid() && FirstDue(s, i)
    ensures Flushes(s, n, left) && left.Valid() && !NoneDue(left)
  {
    var t := LosingPoll(s, i);
    if s.nodes[s.Top().list[i]].idle {
      n, left := 0, t;
      FlushEnds(s, 0, s, t);
    } else {
      left := LosingAgain(t);
      n := 1;
      GoesOnMore(s, 0, s, t);
      FlushEnds(s, 1, t, left);
    }
  }

  lemma LosingAgain(s: State) returns (t: State)
    requires s.Valid() && IdleFirst(s)
    ensures Polls(s, t, false) && t.Valid() && !NoneDue(t)
  {
    var i: nat :| FirstDue(s, i) && s.nodes[s.Top().list[i]].idle;
    t := LosingPoll(s, i);
  }

  // ---------- callbacks that do nothing ----------

  /** The bottom halves of the list run, and their callbacks change nothing. */
  function Ran(s: State, list: seq<nat>): State {
    if list == [] then s
    else
      var n := |list| - 1;
      var t := Ran(s, list[..n]);
      if list[n] in t.nodes && Due(t.nodes[list[n]]) then Cleared(t, list[n]) else t
  }

  /** Each is found as it was, and what was due is due no more. */
  ghost predicate RanOnce(s: State, k: nat, t: State)
    requires s.stack != [] && k <= |s.Top().list|
  {
    && t.Valid() && t == s.(nodes := t.nodes) && t.nodes.Keys == s.nodes.Keys
    && (forall j :: 0 <= j < k && s.Top().list[j] in t.nodes ==> !Due(t.nodes[s.Top().list[j]]))
    && (forall j :: k <= j < |s.Top().list| && s.Top().list[j] in t.nodes
          ==> t.nodes[s.Top().list[j]] == s.nodes[s.Top().list[j]])
  }

  lemma RanStep(s: State, k: nat, t: State)
    requires s.Valid() && k < |s.Top().list| && RanOnce(s, k, t)
    ensures var b := s.Top().list[k];
            && b in t.nodes && t.nodes[b] == s.nodes[b]
            && var u := if Due(t.nodes[b]) then Cleared(t, b) else t;
            Visits(t, b, u) && RanOnce(s, k + 1, u)
  {
    var b := s.Top().list[k];
    assert s.Listed(s.stack[|s.stack| - 1]);
    PutAllowed(t, b, t.nodes[b].(scheduled := false, idle := false));
    AllowedSame(Cleared(t, b));
  }

  /** The walk over the first `k` items finds each as it was. */
  ghost predicate RanFinds(s: State, k: nat, t: State, found: seq<BottomHalf>)
    requires s.stack != [] && k <= |s.Top().list|
  {
    && |found| == k && Walks(s, s.Top().list[..k], t, found) && RanOnce(s, k, t)
    && forall j :: 0 <= j < k ==> s.Top().list[j] in s.nodes && found[j] == s.nodes[s.Top().list[j]]
  }

  lemma RanMore(s: State, k: nat, t: State, found: seq<BottomHalf>, u: State)
    requires s.Valid() && k < |s.Top().list| && RanFinds(s, k, t, found) && s.Top().list[k] in t.nodes
    requires u == if Due(t.nodes[s.Top().list[k]]) then Cleared(t, s.Top().list[k]) else t
    ensures RanFinds(s, k + 1, u, found + [t.nodes[s.Top().list[k]]])
  {
    RanStep(s, k, t);
    WalksMore(s, s.Top().list, k, t, found, u);
  }

  lemma {:induction false} RanWalks(s: State, k: nat) returns (found: seq<BottomHalf>)
    requires s.Valid() && k <= |s.Top().list|
    ensures RanFinds(s, k, Ran(s, s.Top().list[..k]), found)
  {
    found := [];
    if k > 0 {
      var list := s.Top().list;
      found := RanWalks(s, k - 1);
      var t := Ran(s, list[..k - 1]);
      RanStep(s, k - 1, t);
      assert list[..k][..k - 1] == list[..k - 1];
      RanMore(s, k - 1, t, found, Ran(s, list[..k]));
      found := found + [t.nodes[list[k - 1]]];
    }
  }

  /**
   If the callbacks do nothing, a poll runs everything that is due, once: nothing is due afterwards, and it returns 1
   exactly when something not idle was due.
   */
  lemma QuietCallbacks(s: State) returns (t: State, ret: bool)
    requires s.Valid()
    ensures Polls(s, t, ret) && NoneDue(t)
    ensures ret <==> exists k: nat :: DueAt(s, k) && !s.nodes[s.Top().list[k]].idle
  {
    var list := s.Top().list;
    var found := RanWalks(s, |list|);
    assert list[..|list|] == list;
    var walked := Ran(s, list);
    t, ret := Swept(walked), Progress(found);
    SweptDue(walked);
    FoundProgress(s, found);
  }

  lemma FoundProgress(s: State, found: seq<BottomHalf>)
    requires s.Valid() && |found| == |s.Top().list|
    requires forall j :: 0 <= j < |found| ==> s.Top().list[j] in s.nodes && found[j] == s.nodes[s.Top().list[j]]
    ensures Progress(found) <==> exists k: nat :: DueAt(s, k) && !s.nodes[s.Top().list[k]].idle
  {
    if k :| 0 <= k < |found| && Due(found[k]) && !found[k].idle {
      assert DueAt(s, k);
    }
    if k: nat :| DueAt(s, k) && !s.nodes[s.Top().list[k]].idle {
      assert Due(found[k]);
    }
  }

  // ---------- lost is lost ----------

  /** The context `b` was made in is gone. */
  predicate Gone(s: State, b: nat) {
    b in s.owner && s.owner[b] < s.contexts && forall j :: 0 <= j < |s.stack| ==> s.stack[j].id != s.owner[b]
  }

  /** Then no poll can reach it: it is on no list, and no callback, push or pop puts it on one. */
  lemma GoneStays(s: State, b: nat, t: State)
    requires s.Valid() && Gone(s, b)
    ensures forall j :: 0 <= j < |s.stack| ==> b !in s.stack[j].list
    ensures Allowed(s, t) && t.Valid() ==> Gone(t, b)
    ensures Gone(Push(s), b) && (|s.stack| > 1 ==> Gone(Pop(s), b))
  {
    forall j | 0 <= j < |s.stack| ensures b !in s.stack[j].list {
      assert s.Listed(s.stack[j]);
    }
  }

  /** What is listed when the context is left is gone afterwards. */
  lemma PopLoses(left: State, b: nat)
    requires left.Valid() && |left.stack| > 1 && b in left.Top().list
    ensures Pop(left).Valid() && Gone(Pop(left), b)
  {
    PopValid(left);
    assert left.Listed(left.stack[|left.stack| - 1]);
    var t := left.(stack := left.stack[..|left.stack| - 1]);
    assert left.Top().id < left.contexts && b < left.made;
    forall j | 0 <= j < |Pop(left).stack| ensures Pop(left).stack[j].id != left.Top().id {
      assert Pop(left).stack[j].id == left.stack[j].id;
    }
  }

  /** A pop from `s` whose flush ends in `left` loses `b`, which is due there. */
  ghost predicate Loses(s: State, n: nat, left: State, b: nat) {
    && Flushes(s, n, left) && |left.stack| > 1
    && b in left.Top().list && b in left.nodes && Due(left.nodes[b]) && Gone(Pop(left), b)
  }

  /**
   `async_context_pop`: callbacks can make it lose a bottom half of the context it leaves exactly when one is
   due at the call. Otherwise none is lost whatever they do.
   */
  lemma PopDecides(s: State)
    requires s.Valid() && |s.stack| > 1
    ensures (exists n, left, b :: Loses(s, n, left, b)) <==> !NoneDue(s)
  {
    if NoneDue(s) {
      forall n, left, b ensures !Loses(s, n, left, b) {
        if Loses(s, n, left, b) {
          QuietFlush(s, n, left);
        }
      }
    } else {
      var i := SomeFirst(s);
      var n, left := LosingFlush(s, i);
      var b := SomethingLost(s, n, left);
    }
  }

  lemma SomethingLost(s: State, n: nat, left: State) returns (b: nat)
    requires s.Valid() && |s.stack| > 1 && Flushes(s, n, left) && left.Valid() && !NoneDue(left)
    ensures Loses(s, n, left, b)
  {
    FlushKeeps(s, n, left);
    var k := SomeFirst(left);
    b := left.Top().list[k];
    PopLoses(left, b);
  }

  lemma IdleLoses(s: State) returns (n: nat, left: State)
    requires s.Valid() && |s.stack| > 1 && s.Top().list == [0] && FirstDue(s, 0) && s.nodes[0].idle
    ensures left.Valid() && Loses(s, n, left, 0)
  {
    n, left := 0, Swept(Rescheduled(s, 0));
    OnePoll(s);
    FlushEnds(s, 0, s, left);
    StillListed(s);
    PopLoses(left, 0);
  }

  /** One idle bottom half, due in the inner of two contexts. */
  function OneIdle(): State {
    State([Context(0, []), Context(1, [0])], map[0 := BottomHalf(true, true, false)], map[0 := 1], 1, 2)
  }

  lemma IdleDue()
    ensures var s := OneIdle(); s.Valid() && |s.stack| > 1 && s.Top().list == [0] && FirstDue(s, 0) && s.nodes[0].idle
  {
    assert DueAt(OneIdle(), 0);
  }

  /** It schedules itself again and never runs any more. */
  lemma IdleIsLost() returns (s: State, n: nat, left: State)
    ensures s == OneIdle() && s.Valid() && left.Valid() && Loses(s, n, left, 0)
  {
    s := OneIdle();
    IdleDue();
    n, left := IdleLoses(s);
  }

  lemma OnePoll(s: State)
    requires s.Valid() && FirstDue(s, 0) && s.Top().list == [0] && s.nodes[0].idle
    ensures Polls(s, Swept(Rescheduled(s, 0)), false)
  {
    var found := LosingWalk(s, 0, 1);
    assert s.Top().list[..1] == s.Top().list;
    OnlyOneDue(s, 0, found);
  }

  lemma StillListed(s: State)
    requires s.Valid() && s.Top().list == [0] && 0 in s.nodes && !s.nodes[0].deleted
    ensures var left := Swept(Rescheduled(s, 0));
            && left.Valid() && |left.stack| == |s.stack| && 0 in left.Top().list && 0 in left.nodes
               && Due(left.nodes[0])
  {
    var u := Rescheduled(s, 0);
    RescheduledAllowed(s, 0);
    SweptValid(u);
    SweptDue(u);
    assert 0 in u.Top().list && Due(u.nodes[0]);
  }
}
