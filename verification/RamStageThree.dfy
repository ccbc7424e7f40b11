/**
 Stage 3 of RAM migration ends: with the guest stopped every step of the sender uses
 up work, and some step is possible until the stage returns.
 */
module RamStageThree {
  import opened Bytes
  import opened RamLayout
  import opened RamStream
  import opened RamMigration
  import opened RamMigrationProof
  import opened Runs

  /** Pages still to be sent, each counted once per flag that asks for it. */
  function Backlog(s: State): nat { Truths(s.dirty) + Truths(s.log) }

  function Times(n: nat, w: nat): nat { if n == 0 then 0 else w + Times(n - 1, w) }

  /** Steps enough to find one dirty page and send it. */
  function PerPage(c: Layout): nat { c.Count() + 2 * c.PageSize() + 10 }

  /** Steps enough for the full walks that find nothing. */
  function EmptyWalks(c: Layout, s: State): nat { (if s.forced then 1 else 2) * (c.Count() + 2) }

  /** Steps of the page in hand, the sync or the walk that is under way. */
  function Underway(c: Layout, s: State): int {
    match s.phase
    case Syncing(n) => c.Count() - n + 1
    case Scanning(_, seen) => 0 - seen - 2
    case Captured(_) => 2 * c.PageSize() + 5
    case Checking(_, _, n) => 2 * c.PageSize() - n + 3
    case Repeating(_) => 1
    case Copying(_, buf) => c.PageSize() - |buf|
    case _ => 0
  }

  /** A bound on the number of steps left in stage 3. */
  function Work(c: Layout, s: State): int {
    if s.phase == Done || s.phase == Failed then 0
    else Times(Backlog(s), PerPage(c)) + EmptyWalks(c, s) + Underway(c, s)
  }

  /** What the work bound needs to know of a state in stage 3. */
  ghost predicate Final(c: Layout, s: State) {
    && s.stage == 3 && !s.running && s.phase != Off && !s.phase.Marking? && s.phase != Rest && s.phase != Crashed
    && (s.phase.Scanning?
        ==> s.phase.seen < c.Count() && (s.last.None? ==> s.phase.cur < |s.dirty| && s.dirty[s.phase.cur]))
  }

  lemma IsFinal(c: Layout, s: State)
    requires c.Valid() && Shape(c, s) && Control(c, s) && s.stage == 3
    ensures Final(c, s)
  {
  }

  lemma WorkPositive(c: Layout, s: State)
    requires Shape(c, s) && Final(c, s)
    ensures Work(c, s) >= 0
    ensures s.phase != Done && s.phase != Failed ==> Work(c, s) > 0
  {
  }

  lemma LookWorks(c: Layout, s: State)
    requires Shape(c, s) && Final(c, s) && s.phase.Scanning?
    ensures var s' := LookStep(c, s, s.phase.cur, s.phase.seen); Work(c, s') < Work(c, s)
  {
    if s.dirty[s.phase.cur] {
      TruthsUpdate(s.dirty, s.phase.cur, false);
    }
  }

  lemma SyncWorks(c: Layout, s: State)
    requires Shape(c, s) && Final(c, s) && s.phase.Syncing?
    ensures var s' := SyncStep(c, s, s.phase.next); Work(c, s') < Work(c, s)
  {
    var n := s.phase.next;
    if n < |s.log| {
      var s' := SyncStep(c, s, n);
      TruthsUpdate(s.dirty, n, s.dirty[n] || s.log[n]);
      TruthsUpdate(s.log, n, false);
      assert Backlog(s') == Backlog(s) - (if s.dirty[n] && s.log[n] then 1 else 0);
    }
  }

  /** Steps that start reading the page in hand. */
  lemma CaptureWorks(c: Layout, s: State, e: Event)
    requires Shape(c, s) && HasPage(s) && Step(c, s, e).Some? && e in {ReadFirst, ReadAgain}
    ensures Work(c, Step(c, s, e).value) < Work(c, s)
  {
    var s' := Step(c, s, e).value;
    assert Backlog(s') == Backlog(s) && EmptyWalks(c, s') == EmptyWalks(c, s);
    assert Underway(c, s') < Underway(c, s);
  }

  /** Steps that go on reading it. */
  lemma CompareWorks(c: Layout, s: State)
    requires Shape(c, s) && s.phase.Checking?
    ensures var s' := CompareStep(c, s, s.phase.page, s.phase.ch, s.phase.words); Work(c, s') < Work(c, s)
  {
    var s' := CompareStep(c, s, s.phase.page, s.phase.ch, s.phase.words);
    assert Backlog(s') == Backlog(s) && EmptyWalks(c, s') == EmptyWalks(c, s);
    assert Underway(c, s') < Underway(c, s);
  }

  lemma CopyWorks(c: Layout, s: State)
    requires Shape(c, s) && s.phase.Copying?
    ensures var s' := CopyStep(c, s, s.phase.page, s.phase.buf); Work(c, s') < Work(c, s)
  {
    var s' := CopyStep(c, s, s.phase.page, s.phase.buf);
    assert Backlog(s') == Backlog(s) && EmptyWalks(c, s') == EmptyWalks(c, s);
    assert Underway(c, s') < Underway(c, s);
  }

  /** Steps that only move between the loops. */
  lemma LoopWorks(c: Layout, s: State, e: Event)
    requires Shape(c, s) && Final(c, s) && Step(c, s, e).Some?
    requires e !in {Look, SyncPage, ReadFirst, CompareWord, ReadAgain, CopyByte}
    ensures Work(c, Step(c, s, e).value) < Work(c, s)
  {
    assert e in {SaveBlock, RateLimited, SyncFails};
    assert Backlog(Step(c, s, e).value) == Backlog(s);
  }

  /** In stage 3 every possible step uses up work. */
  lemma StepWorks(c: Layout, s: State, e: Event)
    requires Shape(c, s) && Final(c, s) && Step(c, s, e).Some?
    ensures Work(c, Step(c, s, e).value) < Work(c, s)
  {
    if e == Look {
      LookWorks(c, s);
    } else if e == SyncPage {
      SyncWorks(c, s);
    } else if e in {ReadFirst, ReadAgain} {
      CaptureWorks(c, s, e);
    } else if e == CompareWord {
      CompareWorks(c, s);
    } else if e == CopyByte {
      CopyWorks(c, s);
    } else {
      LoopWorks(c, s, e);
    }
  }

  /** The step the sender takes next. */
  function SenderEvent(s: State): Event {
    match s.phase
    case Syncing(_) => SyncPage
    case Scanning(_, _) => Look
    case Captured(_) => ReadFirst
    case Checking(_, _, _) => CompareWord
    case Repeating(_) => ReadAgain
    case Copying(_, _) => CopyByte
    case _ => SaveBlock
  }

  lemma SenderCanStep(c: Layout, s: State)
    requires Shape(c, s) && Final(c, s) && s.phase != Done && s.phase != Failed
    ensures Step(c, s, SenderEvent(s)).Some?
    ensures Step(c, s, SenderEvent(s)).value.phase != Failed && Step(c, s, SenderEvent(s)).value.mem == s.mem
  {
  }

  lemma StaysFinal(c: Layout, s: State, e: Event)
    requires Shape(c, s) && Final(c, s) && Step(c, s, e).Some?
    ensures Step(c, s, e).value.stage == 3
  {
  }

  /** One step of stage 3. */
  lemma FinalStep(c: Layout, rx0: Rx, s: State, e: Event, rx: Rx) returns (rx': Rx)
    requires Inv(c, rx0, s, rx) && s.stage == 3 && Step(c, s, e).Some?
    ensures var s' := Step(c, s, e).value;
            Inv(c, rx0, s', rx') && s'.stage == 3 && 0 <= Work(c, s') < Work(c, s)
  {
    var s' := Step(c, s, e).value;
    IsFinal(c, s);
    StepWorks(c, s, e);
    StaysFinal(c, s, e);
    rx' := StepInv(c, rx0, s, e, rx);
    IsFinal(c, s');
    WorkPositive(c, s');
  }

  /**
   From any state of stage 3 there is a run of the sender alone to the end of the migration, no longer than the work.
   */
  lemma {:induction false} StageThreeCompletes(c: Layout, rx0: Rx, s: State, rx: Rx)
    returns (events: seq<Event>, rx': Rx)
    requires Inv(c, rx0, s, rx) && s.stage == 3 && s.phase != Failed
    ensures Run(Machine(c), s, events).Some? && |events| <= Work(c, s)
    ensures var end := Run(Machine(c), s, events).value; end.phase == Done && Inv(c, rx0, end, rx') && end.mem == s.mem
    decreases Work(c, s)
  {
    IsFinal(c, s);
    WorkPositive(c, s);
    if s.phase == Done {
      events, rx' := [], rx;
    } else {
      var e := SenderEvent(s);
      SenderCanStep(c, s);
      var rx1 := FinalStep(c, rx0, s, e, rx);
      var rest;
      rest, rx' := StageThreeCompletes(c, rx0, Step(c, s, e).value, rx1);
      RunCons(Machine(c), s, e, rest);
      events := [e] + rest;
    }
  }

  /** No run inside stage 3 is longer than the work at its start. */
  lemma {:induction false} StageThreeBounded(c: Layout, rx0: Rx, s: State, rx: Rx, events: seq<Event>) returns (rx': Rx)
    requires Inv(c, rx0, s, rx) && s.stage == 3 && Run(Machine(c), s, events).Some?
    ensures Inv(c, rx0, Run(Machine(c), s, events).value, rx') && Run(Machine(c), s, events).value.stage == 3
    ensures 0 <= Work(c, Run(Machine(c), s, events).value) <= Work(c, s) - |events|
    decreases |events|
  {
    if events == [] {
      rx' := rx;
      IsFinal(c, s);
      WorkPositive(c, s);
    } else {
      var n := |events| - 1;
      var rx1 := StageThreeBounded(c, rx0, s, rx, events[..n]);
      rx' := FinalStep(c, rx0, Run(Machine(c), s, events[..n]).value, events[n], rx1);
    }
  }

  // ---------- every migration can be completed ----------

  /** Stage 1 fetches the log, page by page. */
  lemma {:induction false} SyncRuns(c: Layout, s: State) returns (t: State)
    requires Shape(c, s) && s.phase.Syncing? && s.stage == 1 && !s.forced
    ensures Shape(c, t) && Leads(Machine(c), s, t) && t.phase == Marking(0) && t.stage == 1 && !t.forced
    decreases c.Count() - s.phase.next
  {
    var u := SyncStep(c, s, s.phase.next);
    if s.phase.next < c.Count() {
      t := SyncRuns(c, u);
    } else {
      t := u;
      LeadsNowhere(Machine(c), t);
    }
    LeadsOn(c, s, SyncPage, t);
  }

  /** Then it marks every page. */
  lemma {:induction false} MarkRuns(c: Layout, s: State) returns (t: State)
    requires Shape(c, s) && s.phase.Marking? && s.stage == 1 && !s.forced
    ensures Shape(c, t) && Leads(Machine(c), s, t) && t.phase == Ready && t.stage == 1 && !t.forced
    decreases c.Count() - s.phase.next
  {
    var u := MarkStep(c, s, s.phase.next);
    if s.phase.next < c.Count() {
      t := MarkRuns(c, u);
    } else {
      t := u;
      LeadsNowhere(Machine(c), t);
    }
    LeadsOn(c, s, MarkPage, t);
  }

  /** Out of stage 1 by the rate limit, and with the guest stopped into stage 3. */
  lemma IntoStage3(c: Layout, s: State) returns (t: State)
    requires Shape(c, s) && s.phase == Ready && s.stage == 1 && !s.forced
    ensures Leads(Machine(c), s, t) && t.stage == 3 && t.phase == Syncing(0)
  {
    var rest := LoopOver(s);
    var still := rest.(running := false);
    t := still.(stage := 3, phase := Syncing(0));
    LeadsNowhere(Machine(c), t);
    LeadsOn(c, still, Begin(3), t);
    if rest.running {
      LeadsOn(c, rest, StopGuest, t);
    } else {
      assert still == rest;
    }
    LeadsOn(c, s, RateLimited, t);
  }

  lemma ReachStage3(c: Layout, s: State) returns (t: State)
    requires Init(c, s)
    ensures Leads(Machine(c), s, t) && t.stage == 3 && t.phase == Syncing(0)
  {
    var u := s.(stage := 1, forced := false, phase := Syncing(0));
    var v := SyncRuns(c, u);
    var w := MarkRuns(c, v);
    t := IntoStage3(c, w);
    LeadsTrans(Machine(c), v, w, t);
    LeadsTrans(Machine(c), u, v, t);
    LeadsOn(c, s, Begin(1), t);
  }

  /** From every start there is a run that completes the migration. */
  lemma CanComplete(c: Layout, rx0: Rx, s: State) returns (end: State)
    requires Init(c, s) && Hosts(c, rx0.ram)
    ensures Leads(Machine(c), s, end) && end.phase == Done
  {
    var t := ReachStage3(c, s);
    var events :| Run(Machine(c), s, events) == Some(t);
    var rx := RunInv(c, rx0, s, events);
    var rest, _ := StageThreeCompletes(c, rx0, t, rx);
    end := Run(Machine(c), t, rest).value;
    LeadsTrans(Machine(c), s, t, end);
  }
}
