/**
 Stage 3 of block migration: it ends, what it sends, and how the state in which its opening
 flush stops decides whether the destination gets the source disk.
 */
module BlockStageThree {
  import opened Bytes
  import opened Runs
  import opened BlockMigration
  import opened BlockMigrationProof
  import opened BlockMigrationResult

  // ---------- stage 3 ends ----------

  /** Chunks ahead of the cursors, from device `d` on. */
  function Remaining(c: Config, cursor: seq<nat>, d: nat): nat
    requires |cursor| == |c.total|
    decreases |cursor| - d
  {
    if d >= |cursor| then 0
    else (if cursor[d] < c.Chunks(d) then c.Chunks(d) - cursor[d] else 0) + Remaining(c, cursor, d + 1)
  }

  lemma {:induction false} RemainingStep(c: Config, cursor: seq<nat>, x: nat, d: nat)
    requires |cursor| == |c.total| && x < |cursor| && cursor[x] < c.Chunks(x)
    ensures Remaining(c, cursor, d) == Remaining(c, cursor[x := cursor[x] + 1], d) + (if d <= x then 1 else 0)
    decreases |cursor| - d
  {
    if d < |cursor| {
      RemainingStep(c, cursor, x, d + 1);
    }
  }

  /** Steps enough to walk over the devices again for each dirty chunk. */
  function Rounds(dirty: set<Key>, n: nat): nat { |dirty| * (n + 3) }

  lemma RoundsLess(dirty: set<Key>, k: Key, n: nat)
    requires k in dirty
    ensures Rounds(dirty, n) == Rounds(dirty - {k}, n) + n + 3
  {
    assert |dirty| == |dirty - {k}| + 1;
  }

  function Behind(n: nat, dev: nat): nat { if dev < n then n - dev else 0 }

  /** A bound on the number of steps left in stage 3. */
  function Work(c: Config, s: State): nat
    requires |s.cursor| == |c.total|
  {
    var n := |s.cursor|;
    match s.phase
    case Sending(_) => |s.io.queue| + Rounds(s.src.dirty, n) + Remaining(c, seq(n, _ => 0), 0) + n + 3
    case Draining => Rounds(s.src.dirty, n) + Remaining(c, s.cursor, 0) + n + 2
    case Scanning(_, dev) => Rounds(s.src.dirty, n) + Remaining(c, s.cursor, 0) + Behind(n, dev) + 1
    case _ => 0
  }

  lemma ExamineWorks(c: Config, s: State)
    requires Shape(c, s) && s.phase.Scanning? && s.phase.stage == 3
    ensures Work(c, Examined(c, s, 3, s.phase.dev)) < Work(c, s)
  {
    var d := s.phase.dev;
    if d < |s.cursor| && c.Has(Key(d, s.cursor[d])) {
      if Key(d, s.cursor[d]) in s.src.dirty {
        RoundsLess(s.src.dirty, Key(d, s.cursor[d]), |s.cursor|);
      } else {
        RemainingStep(c, s.cursor, d, 0);
      }
    }
  }

  /** In stage 3 every possible step uses up work. */
  lemma StepWorks(c: Config, s: State, e: Event)
    requires Inv(c, s) && InStage3(s.phase) && Step(c, s, e).Some?
    ensures InStage3(Step(c, s, e).value.phase) && Work(c, Step(c, s, e).value) < Work(c, s)
  {
    if InLoop(s.phase) {
      StaysInLoop(c, s, e);
      if e == Examine {
        ExamineWorks(c, s);
      }
    } else if IsGuest(e) {
      GuestAway(c, s, e);
    } else {
      assert e == SendHead || e == StopSending;
    }
  }

  /** No run inside stage 3 is longer than the work at its start. */
  lemma {:induction false} StageThreeBounded(c: Config, s: State, events: seq<Event>)
    requires Inv(c, s) && InStage3(s.phase) && Run(Machine(c), s, events).Some?
    ensures var end := Run(Machine(c), s, events).value;
            Inv(c, end) && InStage3(end.phase) && Work(c, end) + |events| <= Work(c, s)
    decreases |events|
  {
    if events != [] {
      var n := |events| - 1;
      StageThreeBounded(c, s, events[..n]);
      var before := Run(Machine(c), s, events[..n]).value;
      StepInv(c, before, events[n]);
      StepWorks(c, before, events[n]);
    }
  }

  /** The step the migration takes next. */
  function NextEvent(s: State): Event {
    match s.phase
    case Sending(_) => if s.io.queue != [] then SendHead else StopSending
    case Draining => DirtyStep
    case _ => Examine
  }

  lemma CanStep(c: Config, s: State)
    requires Inv(c, s) && InStage3(s.phase) && s.phase != Done
    ensures Step(c, s, NextEvent(s)).Some?
  {
  }

  /** From every state of stage 3 there is a run to its end, no longer than the work. */
  lemma {:induction false} StageThreeCompletes(c: Config, s: State) returns (events: seq<Event>)
    requires Inv(c, s) && InStage3(s.phase)
    ensures Run(Machine(c), s, events).Some? && Run(Machine(c), s, events).value.phase == Done && |events| <= Work(c, s)
    decreases Work(c, s)
  {
    if s.phase == Done {
      events := [];
    } else {
      var e := NextEvent(s);
      CanStep(c, s);
      StepInv(c, s, e);
      StepWorks(c, s, e);
      var rest := StageThreeCompletes(c, Step(c, s, e).value);
      RunCons(Machine(c), s, e, rest);
      events := [e] + rest;
    }
  }

  // ---------- what it sends ----------

  /** The blocks are the current data of chunks in `keys`. */
  ghost predicate Current(disk: Disk, blocks: seq<Block>, keys: set<Key>) {
    forall i :: 0 <= i < |blocks|
      ==> blocks[i].key in keys && blocks[i].key in disk && blocks[i].data == disk[blocks[i].key]
  }

  /** Every chunk in `keys` has a block. */
  ghost predicate Covered(blocks: seq<Block>, keys: set<Key>) {
    forall k :: k in keys ==> exists i :: 0 <= i < |blocks| && blocks[i].key == k
  }

  /** Since `before`, the chunks of `all` that are no longer dirty have been sent, once each. */
  ghost predicate Progress(disk: Disk, before: seq<Block>, now: seq<Block>, all: set<Key>, dirty: set<Key>) {
    && dirty <= all && before <= now && |now| + |dirty| == |before| + |all|
    && Current(disk, now[|before|..], all) && Covered(now[|before|..], all - dirty)
  }

  lemma CoveredStep(blocks: seq<Block>, b: Block, all: set<Key>, dirty: set<Key>)
    requires Covered(blocks, all - dirty)
    ensures Covered(blocks + [b], all - (dirty - {b.key}))
  {
    forall k | k in all - (dirty - {b.key}) ensures exists i :: 0 <= i < |blocks + [b]| && (blocks + [b])[i].key == k {
      if k == b.key {
        assert (blocks + [b])[|blocks|].key == k;
      } else {
        assert k in all - dirty;
        var i :| 0 <= i < |blocks| && blocks[i].key == k;
        assert (blocks + [b])[i].key == k;
      }
    }
  }

  lemma ProgressStep(disk: Disk, before: seq<Block>, now: seq<Block>, b: Block, all: set<Key>, dirty: set<Key>)
    requires Progress(disk, before, now, all, dirty)
    requires b.key in dirty && b.key in disk && b.data == disk[b.key]
    ensures Progress(disk, before, now + [b], all, dirty - {b.key})
  {
    assert (now + [b])[|before|..] == now[|before|..] + [b];
    CoveredStep(now[|before|..], b, all, dirty);
    assert dirty == (dirty - {b.key}) + {b.key};
  }

  lemma ProgressStart(disk: Disk, sent: seq<Block>, dirty: set<Key>)
    ensures Progress(disk, sent, sent, dirty, dirty)
  {
  }

  /** In the loop of stage 3, what has happened since `g`. */
  ghost predicate Since(g: State, s: State) {
    InLoop(s.phase) && s.src.disk == g.src.disk && Progress(g.src.disk, g.io.sent, s.io.sent, g.src.dirty, s.src.dirty)
  }

  lemma SinceStep(c: Config, g: State, s: State, e: Event)
    requires Inv(c, s) && Since(g, s) && Step(c, s, e).Some?
    ensures Since(g, Step(c, s, e).value)
  {
    StaysInLoop(c, s, e);
    if e == Examine {
      SinceExamine(c, g, s);
    }
  }

  lemma SinceExamine(c: Config, g: State, s: State)
    requires Shape(c, s) && Since(g, s) && s.phase.Scanning? && s.phase.stage == 3
    ensures Since(g, Examined(c, s, 3, s.phase.dev))
  {
    if s.phase.dev < |s.cursor| {
      var k := Key(s.phase.dev, s.cursor[s.phase.dev]);
      if c.Has(k) && k in s.src.dirty {
        ProgressStep(s.src.disk, g.io.sent, s.io.sent, Block(k, s.io.next, s.src.disk[k]), g.src.dirty, s.src.dirty);
      }
    }
  }

  /** The loop of stage 3 sends each dirty chunk once with its current data, and nothing else. */
  lemma {:induction false} LoopSends(c: Config, g: State, events: seq<Event>)
    requires Inv(c, g) && InLoop(g.phase) && Run(Machine(c), g, events).Some?
    ensures var end := Run(Machine(c), g, events).value; Inv(c, end) && Since(g, end)
    decreases |events|
  {
    if events == [] {
      ProgressStart(g.src.disk, g.io.sent, g.src.dirty);
    } else {
      var n := |events| - 1;
      LoopSends(c, g, events[..n]);
      var before := Run(Machine(c), g, events[..n]).value;
      StepInv(c, before, events[n]);
      SinceStep(c, g, before, events[n]);
    }
  }

  // ---------- what the stop of the flush decides ----------

  /** Later blocks decide, otherwise earlier ones. */
  lemma {:induction false} DeliveredLater(dst: Disk, before: seq<Block>, later: seq<Block>, k: Key)
    requires k in dst
    ensures var i := LastFor(later, k);
            Delivered(dst, before + later, k) == if i < |later| then later[i].data else Delivered(dst, before, k)
    decreases |later|
  {
    if later == [] {
      assert before + later == before;
    } else {
      var n := |later| - 1;
      assert (before + later)[..|before| + n] == before + later[..n];
      DeliveredLater(dst, before, later[..n], k);
    }
  }

  lemma DeliveredByLoop(disk: Disk, dst: Disk, before: seq<Block>, now: seq<Block>, all: set<Key>, k: Key)
    requires Progress(disk, before, now, all, {}) && k in dst && k in disk
    ensures Delivered(dst, now, k) == if k in all then disk[k] else Delivered(dst, before, k)
  {
    var later := now[|before|..];
    assert now == before + later;
    DeliveredLater(dst, before, later, k);
    if k in all {
      assert k in all - {};
      var i :| 0 <= i < |later| && later[i].key == k;
    }
  }

  /** The rest of stage 3 from the moment its opening flush stops. */
  ghost predicate Finishes(c: Config, f: State, rest: seq<Event>, end: State) {
    f.phase == Sending(3) && Run(Machine(c), f, [StopSending] + rest) == Some(end) && end.phase == Done
  }

  lemma FinishSends(c: Config, f: State, rest: seq<Event>, end: State)
    requires Inv(c, f) && Finishes(c, f, rest, end)
    ensures end.src.disk == f.src.disk && Progress(f.src.disk, f.io.sent, end.io.sent, f.src.dirty, {})
  {
    RunFirst(Machine(c), f, StopSending, rest);
    var g := Step(c, f, StopSending).value;
    StepInv(c, f, StopSending);
    LoopSends(c, g, rest);
  }

  /** What `k` gets at the destination if its dirty bit is clear when the flush stops. */
  ghost predicate NewestArrives(io: Traffic, dst: Disk, k: Key) {
    k in dst && exists b :: IsNewest(io, k, b) && b.data == Delivered(dst, io.sent, k)
  }

  lemma NewestArrivesIff(c: Config, f: State, dst: Disk, k: Key)
    requires Inv(c, f) && f.phase == Sending(3) && c.Has(k) && k !in f.src.dirty && k !in f.src.missed && k in dst
    ensures k in f.src.disk && (NewestArrives(f.io, dst, k) <==> Delivered(dst, f.io.sent, k) == f.src.disk[k])
  {
    var b := NewestIsCurrent(c, f, k);
    if NewestArrives(f.io, dst, k) {
      var b' :| IsNewest(f.io, k, b') && b'.data == Delivered(dst, f.io.sent, k);
      NewestAgree(f.io, k, b, b');
    }
  }

  lemma ChunkArrives(c: Config, f: State, rest: seq<Event>, end: State, dst: Disk, k: Key)
    requires Inv(c, f) && Finishes(c, f, rest, end) && k !in f.src.missed && Covers(c, dst) && c.Has(k)
    ensures k in Load(dst, end.io.sent) && k in end.src.disk
    ensures Load(dst, end.io.sent)[k] == end.src.disk[k] <==> k in f.src.dirty || NewestArrives(f.io, dst, k)
  {
    FinishSends(c, f, rest, end);
    LoadLast(dst, end.io.sent, k);
    DeliveredByLoop(f.src.disk, dst, f.io.sent, end.io.sent, f.src.dirty, k);
    if k !in f.src.dirty {
      NewestArrivesIff(c, f, dst, k);
    }
  }

  /**
   Whatever happened before, the disks agree at the end exactly when, at the moment the flush
   that opens stage 3 stops, every clean chunk has been delivered as its newest block has it.
   */
  lemma StopDecides(c: Config, s: State, events: seq<Event>, f: State, rest: seq<Event>, end: State, dst: Disk)
    requires Init(c, s) && Run(Machine(c), s, events) == Some(f) && Finishes(c, f, rest, end)
    requires f.src.missed == {} && Covers(c, dst)
    ensures SameDisk(c, Load(dst, end.io.sent), end.src.disk)
            <==> forall k :: c.Has(k) && k !in f.src.dirty ==> NewestArrives(f.io, dst, k)
  {
    RunInv(c, s, events);
    forall k | c.Has(k)
      ensures k in Load(dst, end.io.sent) && k in end.src.disk
      ensures Load(dst, end.io.sent)[k] == end.src.disk[k] <==> k in f.src.dirty || NewestArrives(f.io, dst, k)
    {
      ChunkArrives(c, f, rest, end, dst, k);
    }
  }

  /** In order, the newest block of a chunk is its last in line. */
  lemma NewestInLine(io: Traffic, k: Key, b: Block)
    requires Numbered(io) && Ordered(io) && io.dropped == [] && IsNewest(io, k, b)
    ensures var line := io.sent + io.queue; LastFor(line, k) < |line| && line[LastFor(line, k)] == b
  {
    var line := io.sent + io.queue;
    assert b in line;
    var i, j := LastFor(line, k), IndexOf(line, b);
    assert j <= i < |line|;
    assert Out(io, line[i]);
    assert line[i].no <= b.no;
  }

  /** Is `k` still in line, and does its last block in line say something new? */
  ghost predicate QueuedNews(io: Traffic, dst: Disk, k: Key)
    requires k in dst
  {
    var i := LastFor(io.queue, k);
    i < |io.queue| && io.queue[i].data != Delivered(dst, io.sent, k)
  }

  /** In order, a chunk's newest block is its last in the queue, or else its last delivered. */
  lemma LineDelivers(io: Traffic, dst: Disk, k: Key, b: Block)
    requires Numbered(io) && Ordered(io) && io.dropped == [] && IsNewest(io, k, b) && k in dst
    ensures var i := LastFor(io.queue, k);
            b.data == if i < |io.queue| then io.queue[i].data else Delivered(dst, io.sent, k)
  {
    NewestInLine(io, k, b);
    DeliveredLater(dst, io.sent, io.queue, k);
  }

  lemma NewsDecides(c: Config, f: State, dst: Disk, k: Key)
    requires Inv(c, f) && Ordered(f.io) && f.phase == Sending(3)
    requires c.Has(k) && k !in f.src.dirty && k !in f.src.missed && k in dst
    ensures NewestArrives(f.io, dst, k) <==> !QueuedNews(f.io, dst, k)
  {
    var b := NewestIsCurrent(c, f, k);
    LineDelivers(f.io, dst, k, b);
    NewestArrivesIff(c, f, dst, k);
  }

  /**
   With reads in order: the disks agree at the end exactly when, at the moment the flush that
   opens stage 3 stops, every chunk still in line is dirty or its last block in line carries
   what the destination has for it.
   */
  lemma CutDecides(c: Config, s: State, events: seq<Event>, f: State, rest: seq<Event>, end: State, dst: Disk)
    requires Init(c, s) && Run(Machine(c), s, events) == Some(f) && Finishes(c, f, rest, end)
    requires c.ordered && f.src.missed == {} && Covers(c, dst)
    ensures SameDisk(c, Load(dst, end.io.sent), end.src.disk)
            <==> forall k :: c.Has(k) && k !in f.src.dirty ==> !QueuedNews(f.io, dst, k)
  {
    RunInv(c, s, events);
    StopDecides(c, s, events, f, rest, end, dst);
    forall k | c.Has(k) && k !in f.src.dirty ensures NewestArrives(f.io, dst, k) <==> !QueuedNews(f.io, dst, k) {
      NewsDecides(c, f, dst, k);
    }
  }

  lemma AllSent(c: Config, f: State, dst: Disk, k: Key)
    requires Inv(c, f) && f.phase == Sending(3) && f.io.queue == []
    requires c.Has(k) && k !in f.src.dirty && k !in f.src.missed && k in dst
    ensures NewestArrives(f.io, dst, k) <==> LastIsNewest(f.io, k)
  {
    var b := NewestIsCurrent(c, f, k);
    assert b in f.io.sent;
    assert f.io.sent[IndexOf(f.io.sent, b)].key == k;
  }

  /**
   With the line sent to its end: the disks agree at the end exactly when, at the moment the
   flush stops, the read that completed last for each clean chunk carries what the read
   issued last carries, whichever way they overtook each other.
   */
  lemma OvertakeDecides(c: Config, s: State, events: seq<Event>, f: State, rest: seq<Event>, end: State, dst: Disk)
    requires Init(c, s) && Run(Machine(c), s, events) == Some(f) && Finishes(c, f, rest, end)
    requires f.io.queue == [] && f.src.missed == {} && Covers(c, dst)
    ensures SameDisk(c, Load(dst, end.io.sent), end.src.disk)
            <==> forall k :: c.Has(k) && k !in f.src.dirty ==> LastIsNewest(f.io, k)
  {
    RunInv(c, s, events);
    StopDecides(c, s, events, f, rest, end, dst);
    forall k | c.Has(k) && k !in f.src.dirty ensures NewestArrives(f.io, dst, k) <==> LastIsNewest(f.io, k) {
      AllSent(c, f, dst, k);
    }
  }
}
