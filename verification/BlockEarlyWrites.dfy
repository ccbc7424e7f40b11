/**
 Guest writes in flight when stage 1 switches dirty tracking on are never marked
 (`bdrv_aio_writev` wraps the callback only if there is a dirty bitmap). With everything else
 in order, migration always delivers the source disk if and only if there is no such write.
 */
module BlockEarlyWrites {
  import opened Bytes
  import opened Runs
  import opened BlockMigration
  import opened BlockMigrationProof
  import opened BlockMigrationResult
  import opened BlockStageThree

  /** Every run from `s` that completes leaves every destination equal to the source. */
  ghost predicate AlwaysDelivers(c: Config, s: State) {
    forall end, dst :: Leads(Machine(c), s, end) && end.phase == Done && Covers(c, dst) ==>
      SameDisk(c, Load(dst, end.io.sent), end.src.disk)
  }

  // ---------- without early writes ----------

  /** Untracked writes touch nothing. */
  ghost predicate NoEarly(src: Source) {
    src.missed == {} && forall w :: 0 <= w < |src.writes| ==> src.writes[w].tracked || src.writes[w].keys == {}
  }

  lemma GuestNoEarly(c: Config, s: State, e: Event)
    requires Inv(c, s) && s.phase != Off && NoEarly(s.src) && IsGuest(e) && Step(c, s, e).Some?
    ensures NoEarly(Step(c, s, e).value.src)
  {
    GuestAway(c, s, e);
    match e
    case WriteIssue(_) =>
    case WriteEffect(_, _, _, _) =>
    case WriteComplete(w) => Removed(s.src.writes, s.src.Finish(w).writes, w);
    case WriteSync(_, _, _) =>
    case StopGuest =>
  }

  lemma StepNoEarly(c: Config, s: State, e: Event)
    requires Inv(c, s) && s.phase != Off && NoEarly(s.src) && Step(c, s, e).Some?
    ensures NoEarly(Step(c, s, e).value.src) && Step(c, s, e).value.phase != Off
  {
    if IsGuest(e) {
      GuestNoEarly(c, s, e);
      GuestFrame(c, s, e);
    }
  }

  lemma {:induction false} RunNoEarly(c: Config, s: State, events: seq<Event>)
    requires Inv(c, s) && s.phase != Off && NoEarly(s.src) && Run(Machine(c), s, events).Some?
    ensures var end := Run(Machine(c), s, events).value; Inv(c, end) && end.phase != Off && NoEarly(end.src)
    decreases |events|
  {
    if events != [] {
      var n := |events| - 1;
      RunNoEarly(c, s, events[..n]);
      var before := Run(Machine(c), s, events[..n]).value;
      StepInv(c, before, events[n]);
      StepNoEarly(c, before, events[n]);
    }
  }

  function Begun(s: State): State { s.(phase := Sending(1)) }

  lemma NoEarlyDelivers(c: Config, s: State)
    requires Init(c, s) && c.ordered && c.fullFlush
             && forall w :: 0 <= w < |s.src.writes| ==> s.src.writes[w].keys == {}
    ensures AlwaysDelivers(c, Begun(s))
  {
    forall end, dst | Leads(Machine(c), Begun(s), end) && end.phase == Done && Covers(c, dst)
      ensures SameDisk(c, Load(dst, end.io.sent), end.src.disk)
    {
      var events :| Run(Machine(c), Begun(s), events) == Some(end);
      NothingMissed(c, s, events);
      MigrationCorrect(c, s, [Begin(1)] + events, dst);
    }
  }

  lemma NothingMissed(c: Config, s: State, events: seq<Event>)
    requires Init(c, s) && (forall w :: 0 <= w < |s.src.writes| ==> s.src.writes[w].keys == {})
    requires Run(Machine(c), Begun(s), events).Some?
    ensures Run(Machine(c), s, [Begin(1)] + events) == Run(Machine(c), Begun(s), events)
    ensures Run(Machine(c), Begun(s), events).value.src.missed == {}
  {
    InitInv(c, s);
    BeginInv(c, s, 1);
    RunNoEarly(c, Begun(s), events);
    RunCons(Machine(c), s, Begin(1), events);
  }

  // ---------- with an early write ----------

  /** Reached from the start of stage 1. */
  ghost predicate Reached(c: Config, s: State, t: State) { Init(c, s) && Leads(Machine(c), Begun(s), t) }

  lemma ReachedInv(c: Config, s: State, t: State)
    requires Reached(c, s, t)
    ensures Inv(c, t) && (c.ordered && c.fullFlush ==> Ordered(t.io))
  {
    InitInv(c, s);
    BeginInv(c, s, 1);
    var events :| Run(Machine(c), Begun(s), events) == Some(t);
    RunFrom(c, Begun(s), events);
  }

  lemma ReachedShape(c: Config, s: State, t: State)
    requires Reached(c, s, t)
    ensures Shape(c, t)
  {
    ReachedInv(c, s, t);
  }

  /** Extend a run by one event. */
  lemma Then(c: Config, s: State, t: State, e: Event, u: State)
    requires Reached(c, s, t) && Shape(c, t) && Step(c, t, e) == Some(u)
    ensures Reached(c, s, u)
  {
    assert Machine(c)(t, e) == Step(c, t, e);
    LeadsThen(Machine(c), Begun(s), t, e);
  }

  /** The guest stands still; nothing has been marked, missed or sent. */
  ghost predicate Still(s: State) {
    && s.phase == Pumping && s.src.dirty == {} && s.src.missed == {} && s.inflight == {} && s.io.sent == []
    && Untracked(s.src.writes)
  }

  /** Chunks the bulk phase has not issued yet, and one for noticing that there are none. */
  function BulkLeft(c: Config, s: State): nat {
    if s.bulkCompleted || |s.bulk| != |c.total| then 0 else Remaining(c, s.bulk, 0) + 1
  }

  lemma DoBulk(c: Config, s: State, t: State) returns (u: State)
    requires Reached(c, s, t) && Still(t) && !t.bulkCompleted
    ensures Reached(c, s, u) && Still(u) && u.src == t.src && BulkLeft(c, u) < BulkLeft(c, t)
  {
    ReachedShape(c, s, t);
    u := BulkStepped(c, t);
    Then(c, s, t, BulkStep, u);
    BulkLess(c, t);
  }

  /** With nothing marked or missed a bulk step leaves the guest's side as it is. */
  lemma BulkLess(c: Config, t: State)
    requires |t.bulk| == |c.total| && !t.bulkCompleted && t.src.dirty == {} && t.src.missed == {}
    ensures var u := BulkStepped(c, t); u.src == t.src && BulkLeft(c, u) < BulkLeft(c, t)
  {
    BulkDeviceFound(c, t.bulk, 0);
    var d := BulkDevice(c, t.bulk, 0);
    if d < |t.bulk| {
      RemainingStep(c, t.bulk, d, 0);
      assert t.src.Clean(Key(d, t.bulk[d])) == t.src;
    }
  }

  /** The bulk phase issues every chunk. */
  lemma {:induction false} BulkRuns(c: Config, s: State, t: State) returns (u: State)
    requires Reached(c, s, t) && Still(t)
    ensures Reached(c, s, u) && Still(u) && u.src == t.src && u.bulkCompleted
    decreases BulkLeft(c, t)
  {
    u := t;
    if !t.bulkCompleted {
      u := DoBulk(c, s, t);
      u := BulkRuns(c, s, u);
    }
  }

  /** The first read in flight has picked up its first `j` sectors. */
  ghost predicate ReadUpTo(io: Traffic, j: nat) {
    io.pending != [] && j <= |io.pending[0].buf| && forall i :: 0 <= i < j ==> io.pending[0].buf[i].Some?
  }

  lemma DoSample(c: Config, s: State, t: State, j: nat) returns (u: State)
    requires Reached(c, s, t) && Still(t) && t.bulkCompleted && ReadUpTo(t.io, j) && j < |t.io.pending[0].buf|
    ensures Reached(c, s, u) && Still(u) && u.src == t.src && u.bulkCompleted && ReadUpTo(u.io, j + 1)
    ensures |u.io.pending| == |t.io.pending| && |u.io.pending[0].buf| == |t.io.pending[0].buf|
  {
    ReachedShape(c, s, t);
    assert c.Has(t.io.pending[0].key);
    u := t.(io := t.io.Sample(t.src.disk, 0, j));
    Then(c, s, t, ReadSector(0, j), u);
    SampleReads(t.io, t.src.disk, j);
  }

  lemma SampleReads(io: Traffic, disk: Disk, j: nat)
    requires ReadUpTo(io, j) && io.CanSample(disk, 0, j)
    ensures var io' := io.Sample(disk, 0, j);
            ReadUpTo(io', j + 1) && |io'.pending| == |io.pending| && |io'.pending[0].buf| == |io.pending[0].buf|
  {
  }

  lemma {:induction false} SamplesRun(c: Config, s: State, t: State, j: nat) returns (u: State)
    requires Reached(c, s, t) && Still(t) && t.bulkCompleted && ReadUpTo(t.io, j)
    ensures Reached(c, s, u) && Still(u) && u.src == t.src && u.bulkCompleted
    ensures |u.io.pending| == |t.io.pending| > 0 && Full(u.io.pending[0].buf)
    decreases |t.io.pending[0].buf| - j
  {
    u := t;
    if j < |t.io.pending[0].buf| {
      u := DoSample(c, s, t, j);
      u := SamplesRun(c, s, u, j + 1);
    }
  }

  lemma DoComplete(c: Config, s: State, t: State)
    requires Reached(c, s, t) && t.io.pending != [] && Full(t.io.pending[0].buf)
    ensures Reached(c, s, ReadDone(t, 0))
  {
    ReachedShape(c, s, t);
    Then(c, s, t, ReadComplete(0), ReadDone(t, 0));
  }

  lemma DoRead(c: Config, s: State, t: State) returns (u: State)
    requires Reached(c, s, t) && Still(t) && t.bulkCompleted && t.io.pending != []
    ensures Reached(c, s, u) && Still(u) && u.src == t.src && u.bulkCompleted && |u.io.pending| < |t.io.pending|
  {
    var v := SamplesRun(c, s, t, 0);
    u := ReadDone(v, 0);
    DoComplete(c, s, v);
    assert v.inflight - {v.io.pending[0].key} == {};
  }

  /** All reads in flight complete, in order. */
  lemma {:induction false} ReadsRun(c: Config, s: State, t: State) returns (u: State)
    requires Reached(c, s, t) && Still(t) && t.bulkCompleted
    ensures Reached(c, s, u) && Still(u) && u.src == t.src && u.bulkCompleted && u.io.pending == []
    decreases |t.io.pending|
  {
    u := t;
    if t.io.pending != [] {
      u := DoRead(c, s, t);
      u := ReadsRun(c, s, u);
    }
  }

  lemma DoFinish(c: Config, s: State, t: State)
    requires Reached(c, s, t) && t.src.writes != []
    ensures Reached(c, s, t.(src := t.src.Finish(0)))
  {
    ReachedShape(c, s, t);
    Then(c, s, t, WriteComplete(0), t.(src := t.src.Finish(0)));
  }

  /** The writes in flight complete and mark nothing. */
  lemma {:induction false} WritesRun(c: Config, s: State, t: State) returns (u: State)
    requires Reached(c, s, t) && Untracked(t.src.writes)
    ensures u == t.(src := t.src.(writes := [])) && Reached(c, s, u)
    decreases |t.src.writes|
  {
    u := t;
    if t.src.writes != [] {
      DoFinish(c, s, t);
      u := WritesRun(c, s, t.(src := t.src.Finish(0)));
    }
  }

  lemma DoSend(c: Config, s: State, t: State)
    requires Reached(c, s, t) && t.phase.Sending? && t.io.queue != []
    ensures Reached(c, s, t.(io := t.io.SendHead()))
  {
    ReachedShape(c, s, t);
    Then(c, s, t, SendHead, t.(io := t.io.SendHead()));
  }

  lemma HeadMoves(io: Traffic)
    requires io.queue != []
    ensures io.SendHead().sent + io.SendHead().queue == io.sent + io.queue && |io.SendHead().queue| < |io.queue|
    ensures io.SendHead().newest == io.newest
  {
  }

  /** The queue goes out to its end. */
  lemma {:induction false} QueueRuns(c: Config, s: State, t: State) returns (u: State)
    requires Reached(c, s, t) && t.phase.Sending?
    ensures Reached(c, s, u) && u == t.(io := u.io)
    ensures u.io.queue == [] && u.io.sent == t.io.sent + t.io.queue && u.io.newest == t.io.newest
    decreases |t.io.queue|
  {
    u := t;
    if t.io.queue != [] {
      DoSend(c, s, t);
      HeadMoves(t.io);
      u := QueueRuns(c, s, t.(io := t.io.SendHead()));
    }
  }

  /** Any move between the loops. */
  lemma Move(c: Config, s: State, t: State, e: Event, u: State)
    requires Reached(c, s, t) && Shape(c, t) ==> Step(c, t, e) == Some(u)
    requires Reached(c, s, t)
    ensures Reached(c, s, u)
  {
    ReachedShape(c, s, t);
    Then(c, s, t, e, u);
  }

  /** Stages 1 and 2 up to the end of the bulk phase, with all reads completed. */
  lemma BulkDone(c: Config, s: State) returns (t: State)
    requires Init(c, s)
    ensures Reached(c, s, t) && Still(t) && t.src == s.src && t.bulkCompleted && t.io.pending == []
  {
    var t0 := Begun(s);
    LeadsNowhere(Machine(c), t0);
    var t1 := Opened(t0, 1);
    Move(c, s, t0, StopSending, t1);
    var t2 := t1.(phase := Sending(2));
    Move(c, s, t1, Begin(2), t2);
    var t3 := Opened(t2, 2);
    Move(c, s, t2, StopSending, t3);
    var t4 := BulkRuns(c, s, t3);
    t := ReadsRun(c, s, t4);
  }

  /** The end of stage 2 and the flush of stage 3, with the guest stopped on the way. */
  lemma IntoStage3(c: Config, s: State, t: State) returns (u: State)
    requires Reached(c, s, t) && t.phase == Pumping && t.src.writes == [] && t.io.pending == [] && t.bulkCompleted
    ensures Reached(c, s, u) && u.phase == Sending(3) && u.src == t.src.(running := false)
    ensures u.io.queue == [] && u.io.sent == t.io.sent + t.io.queue && u.io.newest == t.io.newest
  {
    var v := LeaveStage2(c, s, t);
    u := QueueRuns(c, s, v);
  }

  lemma LeaveStage2(c: Config, s: State, t: State) returns (u: State)
    requires Reached(c, s, t) && t.phase == Pumping && t.src.writes == [] && t.io.pending == [] && t.bulkCompleted
    ensures Reached(c, s, u) && u == t.(phase := Sending(3), src := t.src.(running := false))
  {
    var t1 := t.(phase := Flushing);
    Move(c, s, t, LeavePump, t1);
    var t2 := t.(phase := Rest);
    Move(c, s, t1, StopSending, t2);
    var t3 := t2.(src := t.src.(running := false));
    if t.src.running {
      Move(c, s, t2, StopGuest, t3);
    } else {
      assert t3 == t2;
    }
    u := t3.(phase := Sending(3));
    Move(c, s, t3, Begin(3), u);
  }

  /** The write lands after its chunk has been read. */
  lemma LandsLate(c: Config, s: State, t: State, w: nat, k: Key) returns (u: State)
    requires Reached(c, s, t) && Still(t) && w < |t.src.writes| && k in t.src.writes[w].keys
    ensures Reached(c, s, u) && u == t.(src := u.src) && u.src.writes == t.src.writes && u.src.dirty == {}
    ensures k in t.src.disk && k in u.src.disk && u.src.disk[k] != t.src.disk[k]
  {
    ReachedInv(c, s, t);
    assert t.src.At(k, 0);
    var v: Sector := t.src.disk[k][0] + [0];
    u := t.(src := t.src.Land(w, k, 0, v, t.io.HasRead(k, 0)));
    Then(c, s, t, WriteEffect(w, k, 0, v), u);
    assert u.src.disk[k][0] == v != t.src.disk[k][0];
  }

  /** The flush stops here; nothing is dirty, so stage 3 sends no more. */
  lemma NothingMore(c: Config, s: State, f: State) returns (end: State)
    requires Reached(c, s, f) && f.phase == Sending(3) && (c.fullFlush ==> f.io.queue == []) && f.src.dirty == {}
    ensures Reached(c, s, end) && end.phase == Done && end.src.disk == f.src.disk && end.io.sent == f.io.sent
  {
    var g := Opened(f, 3);
    Move(c, s, f, StopSending, g);
    ReachedInv(c, s, f);
    ReachedInv(c, s, g);
    var rest := StageThreeCompletes(c, g);
    RunCons(Machine(c), f, StopSending, rest);
    end := Run(Machine(c), g, rest).value;
    FinishSends(c, f, rest, end);
    assert end.io.sent == f.io.sent;
    LeadsTrans(Machine(c), Begun(s), g, end);
  }

  /** The run up to the flush of stage 3 in which an early write lands after the bulk read of its chunk. */
  lemma LandsUnseen(c: Config, s: State, w: nat, k: Key) returns (f: State, b: Block)
    requires Init(c, s) && w < |s.src.writes| && k in s.src.writes[w].keys
    ensures Reached(c, s, f) && f.phase == Sending(3) && f.io.queue == [] && f.src.dirty == {}
    ensures IsNewest(f.io, k, b) && k in f.src.disk && b.data != f.src.disk[k]
  {
    var t := BulkDone(c, s);
    b := NewestRead(c, s, t, k);
    var u := LandsLate(c, s, t, w, k);
    var v := WritesRun(c, s, u);
    f := IntoStage3(c, s, v);
    NewestMoved(t.io, f.io, k, b);
  }

  /** The losing run. */
  lemma EarlyWriteLoses(c: Config, s: State, w: nat, k: Key) returns (end: State)
    requires Init(c, s) && c.ordered && c.fullFlush && w < |s.src.writes| && k in s.src.writes[w].keys
    ensures Leads(Machine(c), Begun(s), end) && end.phase == Done
    ensures forall dst :: Covers(c, dst) ==> !SameDisk(c, Load(dst, end.io.sent), end.src.disk)
  {
    var f, b := LandsUnseen(c, s, w, k);
    end := NothingMore(c, s, f);
    forall dst | Covers(c, dst) ensures !SameDisk(c, Load(dst, end.io.sent), end.src.disk) {
      Differs(c, s, f, k, b, dst);
    }
  }

  lemma Differs(c: Config, s: State, f: State, k: Key, b: Block, dst: Disk)
    requires Reached(c, s, f) && c.ordered && c.fullFlush && f.phase == Sending(3) && f.io.queue == [] && Covers(c, dst)
    requires IsNewest(f.io, k, b) && k in f.src.disk && b.data != f.src.disk[k]
    ensures !SameDisk(c, Load(dst, f.io.sent), f.src.disk)
  {
    ReachedInv(c, s, f);
    NewestIsLast(f.io, k, b);
    LoadLast(dst, f.io.sent, k);
  }

  lemma NewestRead(c: Config, s: State, t: State, k: Key) returns (b: Block)
    requires Reached(c, s, t) && Still(t) && t.bulkCompleted && t.io.pending == []
    requires exists w :: 0 <= w < |t.src.writes| && k in t.src.writes[w].keys
    ensures IsNewest(t.io, k, b) && k in t.src.disk && b.data == t.src.disk[k] && t.io.dropped == []
  {
    ReachedInv(c, s, t);
    assert !t.src.Writing(k);
    b := NewestIsCurrent(c, t, k);
  }

  /** Moving blocks from the queue to the destination keeps the newest one the newest. */
  lemma NewestMoved(io: Traffic, io': Traffic, k: Key, b: Block)
    requires IsNewest(io, k, b) && io.dropped == [] && io'.sent == io.sent + io.queue && io'.newest == io.newest
    ensures IsNewest(io', k, b)
  {
  }

  /**
   With reads in order and an uncut flush: whatever the guest does during the migration, every
   completed run delivers the source disk, exactly when no guest write in flight at the start
   of stage 1 touches a migrated chunk.
   */
  lemma EarlyWritesDecide(c: Config, s: State)
    requires Init(c, s) && c.ordered && c.fullFlush
    ensures AlwaysDelivers(c, Begun(s)) <==> forall w :: 0 <= w < |s.src.writes| ==> s.src.writes[w].keys == {}
  {
    if forall w :: 0 <= w < |s.src.writes| ==> s.src.writes[w].keys == {} {
      NoEarlyDelivers(c, s);
    } else {
      var w :| 0 <= w < |s.src.writes| && s.src.writes[w].keys != {};
      var k :| k in s.src.writes[w].keys;
      var end := EarlyWriteLoses(c, s, w, k);
      assert Covers(c, s.src.disk);
    }
  }
}
