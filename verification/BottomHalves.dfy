/**
 Bottom halves of async.c: callbacks queued in the current AsyncContext and run by qemu_bh_poll.
 Contexts form a stack; each has a list of bottom halves, newest first.
 */
module BottomHalves {
  datatype BottomHalf = BottomHalf(scheduled: bool, idle: bool, deleted: bool)

  /** An AsyncContext: who it is, and its list. */
  datatype Context = Context(id: nat, list: seq<nat>)

  /**
   The stack of contexts, innermost last, and the bottom halves that have not been freed. `owner` names
   the context that was current when a bottom half was made.
   */
  datatype State = State(stack: seq<Context>, nodes: map<nat, BottomHalf>, owner: map<nat, nat>, made: nat,
                         contexts: nat) {
    function Top(): Context
      requires stack != []
    {
      stack[|stack| - 1]
    }

    predicate Valid() {
      && stack != []
      && (forall j :: 0 <= j < |stack| ==> stack[j].id < contexts && Listed(stack[j]))
      && (forall i, j :: 0 <= i < j < |stack| ==> stack[i].id != stack[j].id)
      && (forall b :: b in owner ==> b < made)
      && (forall b :: b in nodes ==> b < made)
    }

    /** The bottom halves of a list are live, belong to the context, and are listed once. */
    predicate Listed(c: Context) {
      && (forall k :: 0 <= k < |c.list| ==> c.list[k] in nodes && c.list[k] in owner && owner[c.list[k]] == c.id)
      && (forall k, m :: 0 <= k < m < |c.list| ==> c.list[k] != c.list[m])
    }

    function Put(b: nat, n: BottomHalf): State { this.(nodes := nodes[b := n]) }

    function SetTop(c: Context): State
      requires stack != []
    {
      this.(stack := stack[..|stack| - 1] + [c])
    }
  }

  // The operations callbacks may use.

  /** `qemu_bh_new` */
  function New(s: State): State
    requires s.stack != []
  {
    var b := s.made;
    s.SetTop(s.Top().(list := [b] + s.Top().list)).(nodes := s.nodes[b := BottomHalf(false, false, false)],
                                                    owner := s.owner[b := s.Top().id], made := b + 1)
  }

  /** `qemu_bh_schedule`, and `qemu_bh_schedule_idle` */
  function Schedule(s: State, b: nat, idle: bool): State
    requires b in s.nodes
  {
    if s.nodes[b].scheduled then s else s.Put(b, s.nodes[b].(scheduled := true, idle := idle))
  }

  /** `qemu_bh_cancel` */
  function Cancel(s: State, b: nat): State
    requires b in s.nodes
  {
    s.Put(b, s.nodes[b].(scheduled := false))
  }

  /** `qemu_bh_delete` */
  function Delete(s: State, b: nat): State
    requires b in s.nodes
  {
    s.Put(b, s.nodes[b].(scheduled := false, deleted := true))
  }

  /** `async_context_push` */
  function Push(s: State): State {
    s.(stack := s.stack + [Context(s.contexts, [])], contexts := s.contexts + 1)
  }

  /** `async_context_pop`, once the bottom halves of the context have been flushed. */
  function Pop(s: State): State
    requires |s.stack| > 1
  {
    var t := New(s.(stack := s.stack[..|s.stack| - 1]));
    Schedule(t, s.made, false)
  }

  /**
   The first `k` contexts and their lists are the same; what was deleted stays deleted, and what was freed stays freed.
   */
  predicate Keeps(s: State, t: State, k: nat) {
    && k <= |s.stack| && k <= |t.stack| && t.made >= s.made && t.contexts >= s.contexts
    && (forall j :: 0 <= j < k ==> t.stack[j] == s.stack[j])
    && (forall b :: b in s.owner ==> b in t.owner && t.owner[b] == s.owner[b])
    && (forall b :: b in t.nodes && b < s.made ==> b in s.nodes && (s.nodes[b].deleted ==> t.nodes[b].deleted))
  }

  /**
   What a callback may do to its own context: add bottom halves in front, change flags, and return to the same stack.
   */
  predicate Allowed(s: State, t: State) {
    && s.stack != [] && |t.stack| == |s.stack|
    && Keeps(s, t, |s.stack| - 1)
    && t.Top().id == s.Top().id
    && Extends(s.Top().list, t.Top().list)
    && (forall k :: 0 <= k < |s.Top().list| && s.Top().list[k] in s.nodes ==> s.Top().list[k] in t.nodes)
  }

  /** `b` is `a` with more in front. */
  predicate Extends<T(==)>(a: seq<T>, b: seq<T>) {
    |a| <= |b| && b[|b| - |a|..] == a
  }

  lemma AllowedTrans(s: State, t: State, u: State)
    requires Allowed(s, t) && Allowed(t, u)
    ensures Allowed(s, u)
  {
    var a, b, c := s.Top().list, t.Top().list, u.Top().list;
    assert c[|c| - |b|..][|b| - |a|..] == c[|c| - |a|..];
    assert forall k :: 0 <= k < |a| ==> b[|b| - |a| + k] == a[k];
  }

  lemma NewAllowed(s: State)
    requires s.Valid()
    ensures New(s).Valid() && Allowed(s, New(s))
  {
    assert New(s).Top().list[1..] == s.Top().list;
  }

  /** Nothing but bottom half `b` has changed. */
  predicate OnlyNode(s: State, t: State, b: nat) {
    && t == s.(nodes := t.nodes) && t.nodes.Keys == s.nodes.Keys
    && forall x :: x in s.nodes && x != b ==> t.nodes[x] == s.nodes[x]
  }

  lemma PutOne(s: State, b: nat, n: BottomHalf)
    requires b in s.nodes
    ensures OnlyNode(s, s.Put(b, n), b) && s.Put(b, n).nodes[b] == n
  {
  }

  lemma PutAllowed(s: State, b: nat, n: BottomHalf)
    requires s.Valid() && b in s.nodes && (s.nodes[b].deleted ==> n.deleted)
    ensures s.Put(b, n).Valid() && Allowed(s, s.Put(b, n))
  {
    var t := s.Put(b, n);
    assert t.stack == s.stack && t.owner == s.owner;
    assert forall j :: 0 <= j < |s.stack| ==> s.Listed(s.stack[j]);
  }

  lemma AllowedSame(s: State)
    requires s.Valid()
    ensures Allowed(s, s)
  {
  }

  lemma ScheduleAllowed(s: State, b: nat, idle: bool)
    requires s.Valid() && b in s.nodes
    ensures Schedule(s, b, idle).Valid() && Allowed(s, Schedule(s, b, idle)) && OnlyNode(s, Schedule(s, b, idle), b)
    ensures var m, n := s.nodes[b], Schedule(s, b, idle).nodes[b];
            n.scheduled && n.deleted == m.deleted && n.idle == if m.scheduled then m.idle else idle
  {
    AllowedSame(s);
    PutAllowed(s, b, s.nodes[b].(scheduled := true, idle := idle));
    PutOne(s, b, s.nodes[b].(scheduled := true, idle := idle));
  }

  lemma CancelAllowed(s: State, b: nat)
    requires s.Valid() && b in s.nodes
    ensures Cancel(s, b).Valid() && Allowed(s, Cancel(s, b)) && OnlyNode(s, Cancel(s, b), b)
    ensures !Cancel(s, b).nodes[b].scheduled && Cancel(s, b).nodes[b].deleted == s.nodes[b].deleted
  {
    PutAllowed(s, b, s.nodes[b].(scheduled := false));
    PutOne(s, b, s.nodes[b].(scheduled := false));
  }

  lemma DeleteAllowed(s: State, b: nat)
    requires s.Valid() && b in s.nodes
    ensures Delete(s, b).Valid() && Allowed(s, Delete(s, b)) && OnlyNode(s, Delete(s, b), b)
    ensures !Delete(s, b).nodes[b].scheduled && Delete(s, b).nodes[b].deleted
  {
    PutAllowed(s, b, s.nodes[b].(scheduled := false, deleted := true));
    PutOne(s, b, s.nodes[b].(scheduled := false, deleted := true));
  }

  /** A state at one level deeper, seen from the level above. */
  lemma LeaveContext(s: State, b: State)
    requires s.Valid() && b.Valid() && |b.stack| == |s.stack| + 1 && Keeps(s, b, |s.stack|)
    ensures var t := b.(stack := b.stack[..|b.stack| - 1]); t.Valid() && Allowed(s, t)
  {
    var t := b.(stack := b.stack[..|b.stack| - 1]);
    assert t.stack == s.stack;
    assert forall j :: 0 <= j < |t.stack| ==> b.Listed(b.stack[j]);
  }

  /** A new bottom half, scheduled at once. */
  lemma NewScheduled(t: State)
    requires t.Valid()
    ensures t.made in New(t).nodes
    ensures var u := Schedule(New(t), t.made, false); u.Valid() && Allowed(t, u)
  {
    NewAllowed(t);
    ScheduleAllowed(New(t), t.made, false);
    AllowedTrans(t, New(t), Schedule(New(t), t.made, false));
  }

  /**
   Entering a context, doing anything there that keeps the outer ones, and leaving it is something a callback may do.
   */
  lemma NestedAllowed(s: State, b: State)
    requires s.Valid() && b.Valid() && |b.stack| == |s.stack| + 1 && Keeps(Push(s), b, |s.stack|)
    ensures Pop(b).Valid() && Allowed(s, Pop(b))
  {
    assert forall j :: 0 <= j < |s.stack| ==> Push(s).stack[j] == s.stack[j];
    LeaveContext(s, b);
    var t := b.(stack := b.stack[..|b.stack| - 1]);
    NewScheduled(t);
    AllowedTrans(s, t, Pop(b));
  }
}
