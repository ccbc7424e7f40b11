/**
 qemu_bh_poll of async.c: a walk over the list of the current context while callbacks change it, and
 the removal of deleted bottom halves afterwards.
 */
module BottomHalfPoll {
  import opened Bytes
  import opened Runs
  import opened BottomHalves

  /** `bh->next`: what follows `b` in a list. */
  function After(list: seq<nat>, b: nat): Option<nat> {
    if list == [] then None
    else if list[0] == b then (if |list| > 1 then Some(list[1]) else None)
    else After(list[1..], b)
  }

  lemma {:induction false} AfterAt(list: seq<nat>, p: nat)
    requires p < |list| && forall k, m :: 0 <= k < m < |list| ==> list[k] != list[m]
    ensures After(list, list[p]) == if p + 1 < |list| then Some(list[p + 1]) else None
  {
    if p > 0 {
      AfterAt(list[1..], p - 1);
    }
  }

  /** Position `k` of a list, if there is one. */
  function At(list: seq<nat>, k: nat): Option<nat> { if k < |list| then Some(list[k]) else None }

  /** Items that stay in place in front of which others were added. */
  lemma AfterExtended(a: seq<nat>, b: seq<nat>, k: nat)
    requires Extends(a, b) && k < |a| && forall i, j :: 0 <= i < j < |b| ==> b[i] != b[j]
    ensures a[k] in b && After(b, a[k]) == At(a, k + 1)
  {
    assert b[|b| - |a| + k] == b[|b| - |a|..][k];
    assert k + 1 < |a| ==> b[|b| - |a| + k + 1] == b[|b| - |a|..][k + 1];
    AfterAt(b, |b| - |a| + k);
  }

  /** A bottom half runs when it is reached if it is scheduled and not deleted then. */
  predicate Due(n: BottomHalf) { n.scheduled && !n.deleted }

  /** The bottom halves of a list that run, given the state each is found in. */
  function RunsOf(list: seq<nat>, found: seq<BottomHalf>): seq<nat>
    requires |list| == |found|
  {
    if list == [] then []
    else
      RunsOf(list[..|list| - 1], found[..|list| - 1])
      + (if Due(found[|list| - 1]) then [list[|list| - 1]] else [])
  }

  /** A bottom half that is not idle has run. */
  predicate Progress(found: seq<BottomHalf>) { exists k :: 0 <= k < |found| && Due(found[k]) && !found[k].idle }

  lemma RunsStep(list: seq<nat>, found: seq<BottomHalf>, n: BottomHalf)
    requires |found| < |list|
    ensures RunsOf(list[..|found| + 1], found + [n])
            == RunsOf(list[..|found|], found) + (if Due(n) then [list[|found|]] else [])
    ensures Progress(found + [n]) == (Progress(found) || (Due(n) && !n.idle))
  {
    assert list[..|found| + 1][..|found|] == list[..|found|];
    assert (found + [n])[..|found|] == found;
    if Progress(found) {
      var k :| 0 <= k < |found| && Due(found[k]) && !found[k].idle;
      assert (found + [n])[k] == found[k];
    }
    assert (found + [n])[|found|] == n;
  }

  /** Each runs at most once, and only those of the list. */
  lemma {:induction false} RunsOnce(list: seq<nat>, found: seq<BottomHalf>)
    requires |list| == |found| && forall k, m :: 0 <= k < m < |list| ==> list[k] != list[m]
    ensures forall k :: 0 <= k < |RunsOf(list, found)| ==> RunsOf(list, found)[k] in list
    ensures forall k, m :: 0 <= k < m < |RunsOf(list, found)| ==> RunsOf(list, found)[k] != RunsOf(list, found)[m]
  {
    if list != [] {
      var init := list[..|list| - 1];
      RunsOnce(init, found[..|list| - 1]);
      assert forall b :: b in init ==> b in list && b != list[|list| - 1];
    }
  }

  /** What runs belongs to the current context. */
  lemma RunsOwned(s: State, found: seq<BottomHalf>)
    requires s.Valid() && |found| == |s.Top().list|
    ensures forall k :: 0 <= k < |RunsOf(s.Top().list, found)|
              ==> RunsOf(s.Top().list, found)[k] in s.owner && s.owner[RunsOf(s.Top().list, found)[k]] == s.Top().id
  {
    assert s.Listed(s.stack[|s.stack| - 1]);
    RunsOnce(s.Top().list, found);
  }

  /** The bottom halves of a list that are not deleted. */
  function Live(list: seq<nat>, nodes: map<nat, BottomHalf>): seq<nat> {
    if list == [] then []
    else (if list[0] in nodes && nodes[list[0]].deleted then [] else [list[0]]) + Live(list[1..], nodes)
  }

  // ---------- what a poll may do, callbacks doing anything they are allowed to ----------

  /** `bh->scheduled = 0` and `bh->idle = 0`. */
  function Cleared(s: State, b: nat): State
    requires b in s.nodes
  {
    s.Put(b, s.nodes[b].(scheduled := false, idle := false))
  }

  /** The walk is at `b`: if it is due its callback takes the state to `t`. */
  ghost predicate Visits(s: State, b: nat, t: State) {
    b in s.nodes && if Due(s.nodes[b]) then t.Valid() && Allowed(Cleared(s, b), t) else t == s
  }

  /** A walk over the list takes `s` to `t` and finds its bottom halves as `found` says. */
  ghost predicate Walks(s: State, list: seq<nat>, t: State, found: seq<BottomHalf>)
    decreases |list|
  {
    && |found| == |list|
    && if list == [] then t == s
       else
         var n := |list| - 1;
         exists u :: Walks(s, list[..n], u, found[..n]) && Visits(u, list[n], t) && found[n] == u.nodes[list[n]]
  }

  /** A call of `qemu_bh_poll` may take `s` to `t` and return `ret`. */
  ghost predicate Polls(s: State, t: State, ret: bool) {
    && s.stack != []
    && exists walked, found ::
         Walks(s, s.Top().list, walked, found) && walked.stack != [] && t == Swept(walked) && ret == Progress(found)
  }

  /** A poll that returns 1, and one that returns 0. */
  ghost function Again(): (State, State) -> bool { (s, t) => Polls(s, t, true) }

  ghost function Ends(): (State, State) -> bool { (s, t) => Polls(s, t, false) }

  /** Relations that hold of what polls do. */
  ghost predicate PollsAre(again: (State, State) -> bool, ends: (State, State) -> bool) {
    && (forall s, t {:trigger Polls(s, t, true)} :: Polls(s, t, true) ==> again(s, t))
    && (forall s, t {:trigger Polls(s, t, false)} :: Polls(s, t, false) ==> ends(s, t))
  }

  /** `n` polls in a row may return 1 and lead from `s` to `t`. */
  ghost predicate GoesOn(s: State, n: nat, t: State) { Steps(Again(), s, n, t) }

  /** `while (qemu_bh_poll());` may end after `n` + 1 polls, in `left`. */
  ghost predicate Flushes(s: State, n: nat, left: State) { StepsThen(Again(), Ends(), s, n, left) }

  lemma GoesOnMore(s: State, n: nat, t: State, u: State)
    requires GoesOn(s, n, t) && Polls(t, u, true)
    ensures GoesOn(s, n + 1, u)
  {
    StepsMore(Again(), s, n, t, u);
  }

  lemma FlushEnds(s: State, n: nat, t: State, left: State)
    requires GoesOn(s, n, t) && Polls(t, left, false)
    ensures Flushes(s, n, left)
  {
    assert Ends()(t, left);
  }

  lemma WalksMore(s: State, list: seq<nat>, k: nat, t: State, found: seq<BottomHalf>, u: State)
    requires k < |list| && Walks(s, list[..k], t, found) && Visits(t, list[k], u)
    ensures Walks(s, list[..k + 1], u, found + [t.nodes[list[k]]])
  {
    assert list[..k + 1][..k] == list[..k];
    assert (found + [t.nodes[list[k]]])[..k] == found;
  }

  /** As long as nothing due is found, nothing changes. */
  lemma {:induction false} QuietWalk(s: State, list: seq<nat>, t: State, found: seq<BottomHalf>)
    requires Walks(s, list, t, found) && forall k :: 0 <= k < |found| ==> !Due(found[k])
    ensures t == s && forall k :: 0 <= k < |list| ==> list[k] in s.nodes && found[k] == s.nodes[list[k]]
    decreases |list|
  {
    if list != [] {
      var n := |list| - 1;
      var u :| Walks(s, list[..n], u, found[..n]) && Visits(u, list[n], t) && found[n] == u.nodes[list[n]];
      QuietWalk(s, list[..n], u, found[..n]);
    }
  }

  class Scheduler {
    var st: State

    constructor ()
      ensures st.Valid() && |st.stack| == 1 && st.Top().list == []
    {
      st := State([Context(0, [])], map[], map[], 0, 1);
    }

    /** A callback: any number of allowed operations, and balanced pushes and pops. */
    method Callback()
      requires st.Valid()
      modifies this
      ensures st.Valid() && Allowed(old(st), st)
    {
      AllowedSame(st);
      var t: State :| t.Valid() && Allowed(st, t);
      st := t;
    }

    /** `bh->scheduled = 0; bh->idle = 0; bh->cb(bh->opaque)` */
    method RunOne(b: nat)
      requires st.Valid() && b in st.nodes
      modifies this
      ensures st.Valid() && Allowed(old(st), st) && Allowed(Cleared(old(st), b), st)
    {
      ghost var s := st;
      PutAllowed(st, b, st.nodes[b].(scheduled := false, idle := false));
      st := Cleared(st, b);
      ghost var t := st;
      Callback();
      AllowedTrans(s, t, st);
    }

    /** One step of the walk: item `k` of the list the walk started with. */
    method Visit(b: nat, ghost s: State, ghost k: nat) returns (next: Option<nat>, n: BottomHalf)
      requires st.Valid() && s.stack != [] && Allowed(s, st) && k < |s.Top().list| && b == s.Top().list[k]
      modifies this
      ensures st.Valid() && Allowed(s, st) && next == At(s.Top().list, k + 1)
      ensures b in old(st).nodes && n == old(st).nodes[b] && Visits(old(st), b, st)
    {
      assert st.Listed(st.stack[|st.stack| - 1]);
      AfterExtended(s.Top().list, st.Top().list, k);
      next := After(st.Top().list, b);
      n := st.nodes[b];
      if Due(n) {
        ghost var t := st;
        RunOne(b);
        AllowedTrans(s, t, st);
      }
    }

    /**
     The walk of `qemu_bh_poll`: every bottom half that was in the list is reached, in order and while
     live, whatever the callbacks do; those due when reached run.
     */
    method Walk() returns (ret: bool, ghost ran: seq<nat>, ghost found: seq<BottomHalf>)
      requires st.Valid()
      modifies this
      ensures st.Valid() && Allowed(old(st), st)
      ensures |found| == |old(st).Top().list| && ran == RunsOf(old(st).Top().list, found) && ret == Progress(found)
      ensures Walks(old(st), old(st).Top().list, st, found)
    {
      ret, ran, found := false, [], [];
      ghost var s, k := st, 0;
      ghost var list := s.Top().list;
      AllowedSame(st);
      var bh := At(st.Top().list, 0);
      while bh.Some?
        invariant st.Valid() && Allowed(s, st)
        invariant Walked(list, found, ran, ret, bh, k) && Walks(s, list[..k], st, found)
        decreases |list| - k
      {
        var b := bh.value;
        ghost var t := st;
        var next, n := Visit(b, s, k);
        WalkedMore(list, found, ran, ret, bh, k, n);
        WalksMore(s, list, k, t, found, st);
        ret := ret || (Due(n) && !n.idle);
        ran := if Due(n) then ran + [b] else ran;
        found, bh, k := found + [n], next, k + 1;
      }
      assert list[..k] == list;
    }

    method Sweep()
      requires st.Valid()
      modifies this
      ensures st == Swept(old(st))
    {
      assert st.Listed(st.stack[|st.stack| - 1]);
      var list, nodes := SweepList(st.Top().list, st.nodes);
      st := st.SetTop(st.Top().(list := list)).(nodes := nodes);
    }

    /**
     `qemu_bh_poll`: runs the bottom halves of the current context that are due when reached, each at most
     once, and afterwards the list has lost exactly the deleted ones. Outer contexts are as they were.
     */
    method Poll() returns (ret: bool, ghost ran: seq<nat>, ghost found: seq<BottomHalf>)
      requires st.Valid()
      modifies this
      ensures st.Valid() && |st.stack| == |old(st).stack| && Keeps(old(st), st, |st.stack| - 1)
              && st.Top().id == old(st).Top().id
      ensures |found| == |old(st).Top().list| && ran == RunsOf(old(st).Top().list, found) && ret == Progress(found)
      ensures forall k :: 0 <= k < |ran| ==> ran[k] in st.owner && st.owner[ran[k]] == st.Top().id
      ensures forall k, m :: 0 <= k < m < |ran| ==> ran[k] != ran[m]
      ensures Polls(old(st), st, ret)
    {
      ghost var s := st;
      ret, ran, found := Walk();
      ghost var walked := st;
      Sweep();
      SweptValid(walked);
      KeepsTrans(s, walked, st, |s.stack| - 1);
      assert s.Listed(s.stack[|s.stack| - 1]);
      RunsOnce(s.Top().list, found);
      RunsOwned(s, found);
    }

    /** The same as one step of the relation that its return value selects. */
    method PollOnce(ghost again: (State, State) -> bool, ghost ends: (State, State) -> bool) returns (ret: bool)
      requires st.Valid() && PollsAre(again, ends)
      modifies this
      ensures st.Valid() && if ret then again(old(st), st) else ends(old(st), st)
    {
      ghost var ran, found;
      ret, ran, found := Poll();
    }

    /** `while (qemu_bh_poll());`, for at most `passes` polls. */
    method Flush(passes: nat, ghost again: (State, State) -> bool, ghost ends: (State, State) -> bool)
      returns (done: bool, ghost n: nat)
      requires st.Valid() && PollsAre(again, ends)
      modifies this
      ensures st.Valid() && if done then StepsThen(again, ends, old(st), n, st) else Steps(again, old(st), passes, st)
    {
      n := 0;
      ghost var s := st;
      for i := 0 to passes
        invariant st.Valid() && Steps(again, s, i, st)
      {
        ghost var t := st;
        var more := PollOnce(again, ends);
        if !more {
          return true, i;
        }
        StepsMore(again, s, i, t, st);
      }
      done := false;
    }

    /**
     `async_context_pop`, if its flush loop ends within `passes` polls. `left` is the state in which the
     context is given up: what is due there is on no list any more.
     */
    method AsyncContextPop(passes: nat) returns (done: bool, ghost left: State, ghost n: nat)
      requires st.Valid() && |st.stack| > 1
      modifies this
      ensures done ==> Flushes(old(st), n, left) && left.Valid() && |left.stack| == |old(st).stack|
      ensures done ==> Keeps(old(st), left, |left.stack| - 1) && st == Pop(left) && st.Valid()
      ensures !done ==> GoesOn(old(st), passes, st)
    {
      ghost var s := st;
      done, n := Flush(passes, Again(), Ends());
      left := st;
      if done {
        FlushKeeps(s, n, left);
        PopValid(st);
        st := Pop(st);
      }
    }
  }

  lemma VisitAllowed(s: State, b: nat, t: State)
    requires s.Valid() && Visits(s, b, t)
    ensures t.Valid() && Allowed(s, t)
  {
    AllowedSame(s);
    if Due(s.nodes[b]) {
      PutAllowed(s, b, s.nodes[b].(scheduled := false, idle := false));
      AllowedTrans(s, Cleared(s, b), t);
    }
  }

  lemma {:induction false} WalkAllowed(s: State, list: seq<nat>, t: State, found: seq<BottomHalf>)
    requires s.Valid() && Walks(s, list, t, found)
    ensures t.Valid() && Allowed(s, t)
    decreases |list|
  {
    if list == [] {
      AllowedSame(s);
    } else {
      var n := |list| - 1;
      var u :| Walks(s, list[..n], u, found[..n]) && Visits(u, list[n], t) && found[n] == u.nodes[list[n]];
      WalkAllowed(s, list[..n], u, found[..n]);
      VisitAllowed(u, list[n], t);
      AllowedTrans(s, u, t);
    }
  }

  /** A poll keeps the outer contexts. */
  lemma PollKeeps(s: State, t: State, ret: bool)
    requires s.Valid() && Polls(s, t, ret)
    ensures t.Valid() && |t.stack| == |s.stack| && Keeps(s, t, |s.stack| - 1) && t.Top().id == s.Top().id
  {
    var walked, found :|
      Walks(s, s.Top().list, walked, found) && walked.stack != [] && t == Swept(walked) && ret == Progress(found);
    WalkAllowed(s, s.Top().list, walked, found);
    SweptValid(walked);
    KeepsTrans(s, walked, t, |s.stack| - 1);
  }

  /** The contexts outside the current one are the same in both states, and the current one is still there. */
  ghost predicate Inside(s: State, t: State) { t.Valid() && |t.stack| == |s.stack| && Keeps(s, t, |s.stack| - 1) }

  lemma PollInside(s: State, t: State, u: State, ret: bool)
    requires s.Valid() && Inside(s, t) && Polls(t, u, ret)
    ensures Inside(s, u)
  {
    PollKeeps(t, u, ret);
    KeepsTrans(s, t, u, |s.stack| - 1);
  }

  lemma GoesOnInside(s: State, n: nat, t: State)
    requires s.Valid() && GoesOn(s, n, t)
    ensures Inside(s, t)
  {
    var inv := (u: State) => Inside(s, u);
    forall u, v | inv(u) && Again()(u, v) ensures inv(v) {
      PollInside(s, u, v, true);
    }
    StepsKeep(Again(), inv, s, n, t);
  }

  /** So does the whole flush. */
  lemma FlushKeeps(s: State, n: nat, left: State)
    requires s.Valid() && Flushes(s, n, left)
    ensures left.Valid() && |left.stack| == |s.stack| && Keeps(s, left, |s.stack| - 1)
  {
    var t :| Steps(Again(), s, n, t) && Ends()(t, left);
    GoesOnInside(s, n, t);
    PollInside(s, t, left, false);
  }

  /** Nothing in the current context waits to be run. */
  predicate NoneDue(s: State) {
    s.stack != []
    && forall k :: 0 <= k < |s.Top().list| && s.Top().list[k] in s.nodes ==> !Due(s.nodes[s.Top().list[k]])
  }

  /** Removing the deleted ones makes nothing due, and keeps what is. */
  lemma SweptDue(s: State)
    requires s.Valid()
    ensures NoneDue(s) ==> NoneDue(Swept(s))
    ensures forall b :: b in s.Top().list && Due(s.nodes[b]) ==>
              b in Swept(s).Top().list && b in Swept(s).nodes && Swept(s).nodes[b] == s.nodes[b]
  {
    assert s.Listed(s.stack[|s.stack| - 1]);
    LiveKeeps(s.Top().list, s.nodes);
    var list := Live(s.Top().list, s.nodes);
    assert Swept(s).Top().list == list;
    if NoneDue(s) {
      forall k | 0 <= k < |list| && list[k] in Swept(s).nodes ensures !Due(Swept(s).nodes[list[k]]) {
        assert list[k] in s.Top().list;
        var j :| 0 <= j < |s.Top().list| && s.Top().list[j] == list[k];
      }
    }
  }

  lemma DropTop(s: State)
    requires s.Valid() && |s.stack| > 1
    ensures s.(stack := s.stack[..|s.stack| - 1]).Valid()
  {
    var t := s.(stack := s.stack[..|s.stack| - 1]);
    forall j | 0 <= j < |t.stack| ensures t.stack[j].id < t.contexts && t.Listed(t.stack[j]) {
      assert s.Listed(s.stack[j]);
    }
  }

  lemma PopValid(s: State)
    requires s.Valid() && |s.stack| > 1
    ensures Pop(s).Valid()
  {
    var t := s.(stack := s.stack[..|s.stack| - 1]);
    DropTop(s);
    NewAllowed(t);
    ScheduleAllowed(New(t), s.made, false);
  }

  /** `nodes` without the deleted bottom halves of a list. */
  function Without(nodes: map<nat, BottomHalf>, list: seq<nat>): map<nat, BottomHalf> {
    map b | b in nodes && !(b in list && nodes[b].deleted) :: nodes[b]
  }

  lemma WithoutMore(nodes: map<nat, BottomHalf>, list: seq<nat>, j: nat)
    requires j < |list| && list[j] in nodes && forall k, m :: 0 <= k < m < |list| ==> list[k] != list[m]
    ensures list[j] in Without(nodes, list[..j]) && Without(nodes, list[..j])[list[j]] == nodes[list[j]]
    ensures Without(nodes, list[..j + 1])
            == if nodes[list[j]].deleted then Without(nodes, list[..j]) - {list[j]} else Without(nodes, list[..j])
  {
    assert list[..j + 1] == list[..j] + [list[j]];
  }

  /** The removal loop has dealt with the first `j` of the list; the first `i` of what is left stay. */
  ghost predicate Sweeping(all: seq<nat>, live: map<nat, BottomHalf>, list: seq<nat>, nodes: map<nat, BottomHalf>,
      i: nat, j: nat)
  {
    && i <= |list| && j <= |all| && list[i..] == all[j..]
    && list[..i] + Live(all[j..], live) == Live(all, live)
    && nodes == Without(live, all[..j])
  }

  lemma SweepNext(all: seq<nat>, live: map<nat, BottomHalf>, list: seq<nat>, nodes: map<nat, BottomHalf>, i: nat,
      j: nat)
    requires (forall k :: 0 <= k < |all| ==> all[k] in live) && forall k, m :: 0 <= k < m < |all| ==> all[k] != all[m]
    requires Sweeping(all, live, list, nodes, i, j) && i < |list|
    ensures j < |all| && list[i] == all[j] && list[i] in nodes
    ensures nodes[list[i]].deleted ==> Sweeping(all, live, list[..i] + list[i + 1..], nodes - {list[i]}, i, j + 1)
    ensures !nodes[list[i]].deleted ==> Sweeping(all, live, list, nodes, i + 1, j + 1)
  {
    assert list[i] == list[i..][0] == all[j..][0];
    assert list[i..][1..] == list[i + 1..] && all[j..][1..] == all[j + 1..];
    WithoutMore(live, all, j);
    var rest := list[..i] + list[i + 1..];
    assert rest[..i] == list[..i] && rest[i..] == list[i + 1..];
    assert list[..i + 1] == list[..i] + [list[i]];
  }

  /**
   The removal loop of `qemu_bh_poll`: deleted bottom halves leave the list and are freed, the others keep their order.
   */
  method SweepList(all: seq<nat>, live: map<nat, BottomHalf>) returns (list: seq<nat>, nodes: map<nat, BottomHalf>)
    requires (forall k :: 0 <= k < |all| ==> all[k] in live) && forall k, m :: 0 <= k < m < |all| ==> all[k] != all[m]
    ensures list == Live(all, live) && nodes == Without(live, all)
  {
    list, nodes := all, live;
    var i := 0;
    ghost var j := 0;
    assert Without(live, all[..0]) == live;
    while i < |list|
      invariant Sweeping(all, live, list, nodes, i, j)
      decreases |all| - j
    {
      SweepNext(all, live, list, nodes, i, j);
      var b := list[i];
      if nodes[b].deleted {
        list := list[..i] + list[i + 1..];
        nodes := nodes - {b};
      } else {
        i := i + 1;
      }
      j := j + 1;
    }
    assert all[..j] == all && list[..i] == list && all[j..] == [];
  }

  /** The state with the deleted bottom halves of the current context gone. */
  function Swept(s: State): State
    requires s.stack != []
  {
    s.SetTop(s.Top().(list := Live(s.Top().list, s.nodes))).(nodes := Without(s.nodes, s.Top().list))
  }

  lemma {:induction false} LiveKeeps(list: seq<nat>, nodes: map<nat, BottomHalf>)
    requires forall k, m :: 0 <= k < m < |list| ==> list[k] != list[m]
    ensures forall b :: b in Live(list, nodes) <==> b in list && !(b in nodes && nodes[b].deleted)
    ensures forall k, m :: 0 <= k < m < |Live(list, nodes)| ==> Live(list, nodes)[k] != Live(list, nodes)[m]
  {
    if list != [] {
      LiveKeeps(list[1..], nodes);
      assert forall b :: b in list <==> b == list[0] || b in list[1..];
    }
  }

  lemma SweptListed(s: State, j: nat)
    requires s.Valid() && j < |s.stack|
    ensures Swept(s).Listed(Swept(s).stack[j]) && Swept(s).stack[j].id == s.stack[j].id
  {
    assert s.Listed(s.stack[j]) && s.Listed(s.stack[|s.stack| - 1]);
    if j == |s.stack| - 1 {
      LiveKeeps(s.Top().list, s.nodes);
      assert forall k :: 0 <= k < |Swept(s).stack[j].list| ==> Swept(s).stack[j].list[k] in Live(s.Top().list, s.nodes);
    } else {
      assert s.stack[j].id != s.Top().id;
    }
  }

  lemma SweptValid(s: State)
    requires s.Valid()
    ensures Swept(s).Valid() && |Swept(s).stack| == |s.stack| && Keeps(s, Swept(s), |s.stack| - 1)
            && Swept(s).Top().id == s.Top().id
  {
    forall j | 0 <= j < |s.stack|
      ensures Swept(s).Listed(Swept(s).stack[j]) && Swept(s).stack[j].id == s.stack[j].id
    {
      SweptListed(s, j);
    }
  }

  lemma KeepsTrans(s: State, t: State, u: State, k: nat)
    requires Keeps(s, t, k) && Keeps(t, u, k)
    ensures Keeps(s, u, k)
  {
  }

  /** The walk has passed `k` items and is at `bh`. */
  predicate Walked(list: seq<nat>, found: seq<BottomHalf>, ran: seq<nat>, ret: bool, bh: Option<nat>, k: nat) {
    k == |found| <= |list| && bh == At(list, k) && ran == RunsOf(list[..k], found) && ret == Progress(found)
  }

  lemma WalkedMore(list: seq<nat>, found: seq<BottomHalf>, ran: seq<nat>, ret: bool, bh: Option<nat>, k: nat,
      n: BottomHalf)
    requires Walked(list, found, ran, ret, bh, k) && bh.Some?
    ensures Walked(list, found + [n],
                   if Due(n) then ran + [bh.value] else ran, ret || (Due(n) && !n.idle), At(list, k + 1), k + 1)
  {
    RunsStep(list, found, n);
  }
}
