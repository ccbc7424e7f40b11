/**
 What block migration achieves over whole runs, and exactly when.
 */
module BlockMigrationResult {
  import opened Bytes
  import opened Runs
  import opened BlockMigration
  import opened BlockMigrationProof

  // ---------- the destination ----------

  /** `block_load`: each block overwrites its chunk. */
  function Load(disk: Disk, blocks: seq<Block>): Disk {
    if blocks == [] then disk
    else
      var b := blocks[|blocks| - 1];
      Load(disk, blocks[..|blocks| - 1])[b.key := b.data]
  }

  /** Index of the last block for a chunk, or |blocks| when there is none. */
  function LastFor(blocks: seq<Block>, k: Key): (i: nat)
    ensures i <= |blocks|
    ensures i < |blocks| ==> blocks[i].key == k
    ensures forall j :: 0 <= j < |blocks| && blocks[j].key == k ==> j <= i < |blocks|
  {
    if blocks == [] then 0
    else
      var n := |blocks| - 1;
      if blocks[n].key == k then n
      else
        var i := LastFor(blocks[..n], k);
        assert forall j :: 0 <= j < n ==> blocks[j] == blocks[..n][j];
        if i == n then |blocks| else i
  }

  /** What a chunk ends up as: its last block, or what was there. */
  function Delivered(disk: Disk, blocks: seq<Block>, k: Key): Chunk
    requires k in disk
  {
    var i := LastFor(blocks, k);
    if i < |blocks| then blocks[i].data else disk[k]
  }

  lemma {:induction false} LoadLast(disk: Disk, blocks: seq<Block>, k: Key)
    requires k in disk
    ensures k in Load(disk, blocks) && Load(disk, blocks)[k] == Delivered(disk, blocks, k)
    decreases |blocks|
  {
    if blocks != [] {
      LoadLast(disk, blocks[..|blocks| - 1], k);
    }
  }

  ghost predicate Covers(c: Config, disk: Disk) { forall k :: c.Has(k) ==> k in disk }

  ghost predicate SameDisk(c: Config, dst: Disk, src: Disk) {
    forall k :: c.Has(k) ==> k in dst && k in src && dst[k] == src[k]
  }

  // ---------- order of delivery ----------

  ghost predicate Increasing(line: seq<Block>) {
    forall i, j :: 0 <= i < j < |line| && line[i].key == line[j].key ==> line[i].no < line[j].no
  }

  ghost predicate Before(line: seq<Block>, r: Read) { forall b :: b in line && b.key == r.key ==> b.no < r.no }

  /** Per chunk, blocks leave and stand in line in the order they were issued. */
  ghost predicate Ordered(io: Traffic) {
    Increasing(io.sent + io.queue) && forall i :: 0 <= i < |io.pending| ==> Before(io.sent + io.queue, io.pending[i])
  }

  /** Appending a block newer than all earlier ones of its chunk keeps a line ordered. */
  lemma IncreasingAppend(line: seq<Block>, b: Block)
    requires Increasing(line) && forall x :: x in line && x.key == b.key ==> x.no < b.no
    ensures Increasing(line + [b])
  {
  }

  lemma CompleteOrdered(io: Traffic, i: nat)
    requires Numbered(io) && Ordered(io) && i < |io.pending| && Full(io.pending[i].buf)
    requires forall h :: 0 <= h < i ==> io.pending[h].key != io.pending[i].key
    ensures Ordered(io.Complete(i))
  {
    var io', b, line := io.Complete(i), AsBlock(io.pending[i]), io.sent + io.queue;
    Removed(io.pending, io'.pending, i);
    assert Before(line, io.pending[i]);
    IncreasingAppend(line, b);
    assert io'.sent + io'.queue == line + [b];
    forall h | 0 <= h < |io'.pending| ensures Before(line + [b], io'.pending[h]) {
      assert Before(line, io.pending[if h < i then h else h + 1]);
    }
  }

  lemma SendHeadOrdered(io: Traffic)
    requires Ordered(io) && io.queue != []
    ensures Ordered(io.SendHead())
  {
    assert io.SendHead().sent + io.SendHead().queue == io.sent + io.queue;
  }

  lemma IssueOrdered(io: Traffic, k: Key, n: nat)
    requires Numbered(io) && Ordered(io)
    ensures Ordered(io.Issue(k, n))
  {
    var line := io.sent + io.queue;
    assert forall b :: b in line ==> Out(io, b);
    forall i | 0 <= i < |io.Issue(k, n).pending| ensures Before(line, io.Issue(k, n).pending[i]) {
      if i < |io.pending| {
        assert Before(line, io.pending[i]);
      }
    }
  }

  lemma SendNowOrdered(io: Traffic, k: Key, data: Chunk)
    requires Numbered(io) && Ordered(io) && io.queue == [] && io.pending == []
    ensures Ordered(io.SendNow(k, data))
  {
    assert forall x :: x in io.sent ==> Out(io, x);
    assert io.sent + io.queue == io.sent;
    IncreasingAppend(io.sent, Block(k, io.next, data));
    assert io.SendNow(k, data).sent + io.SendNow(k, data).queue == io.sent + [Block(k, io.next, data)];
  }

  lemma SampleOrdered(io: Traffic, disk: Disk, i: nat, j: nat)
    requires io.CanSample(disk, i, j) && Ordered(io)
    ensures Ordered(io.Sample(disk, i, j))
  {
    var io' := io.Sample(disk, i, j);
    forall h | 0 <= h < |io'.pending| ensures Before(io.sent + io.queue, io'.pending[h]) {
      assert Before(io.sent + io.queue, io.pending[h]);
    }
  }

  lemma ExamineOrdered(c: Config, s: State)
    requires Inv(c, s) && Ordered(s.io) && s.phase.Scanning? && (InLoop(s.phase) ==> c.fullFlush)
    ensures Ordered(Examined(c, s, s.phase.stage, s.phase.dev).io)
  {
    var stage, d := s.phase.stage, s.phase.dev;
    if d >= |s.cursor| {
      if stage == 3 {
        assert s.io.Drop() == s.io;
      }
    } else if c.Has(Key(d, s.cursor[d])) && Key(d, s.cursor[d]) in s.src.dirty {
      var k := Key(d, s.cursor[d]);
      if stage == 3 {
        SendNowOrdered(s.io, k, s.src.disk[k]);
      } else {
        IssueOrdered(s.io, k, c.Size(k));
      }
    }
  }

  lemma BulkOrdered(c: Config, s: State)
    requires Shape(c, s) && Numbered(s.io) && Ordered(s.io)
    ensures Ordered(BulkStepped(c, s).io)
  {
    var d := BulkDevice(c, s.bulk, 0);
    if d < |s.bulk| && c.Has(Key(d, s.bulk[d])) {
      IssueOrdered(s.io, Key(d, s.bulk[d]), c.Size(Key(d, s.bulk[d])));
    }
  }

  lemma StepOrdered(c: Config, s: State, e: Event)
    requires Inv(c, s) && Ordered(s.io) && c.ordered && (InLoop(s.phase) ==> c.fullFlush) && Step(c, s, e).Some?
    ensures Ordered(Step(c, s, e).value.io)
  {
    match e
    case ReadSector(i, j) => SampleOrdered(s.io, s.src.disk, i, j);
    case ReadComplete(i) => CompleteOrdered(s.io, i);
    case SendHead => SendHeadOrdered(s.io);
    case BulkStep => BulkOrdered(c, s);
    case Examine => ExamineOrdered(c, s);
    case _ => SameTraffic(c, s, e);
  }

  /** Guest events and moves between the loops touch no block. */
  lemma SameTraffic(c: Config, s: State, e: Event)
    requires Shape(c, s) && (IsGuest(e) || IsBoundary(e)) && Step(c, s, e).Some?
    ensures Step(c, s, e).value.io == s.io
  {
    if IsBoundary(e) {
      BoundaryFrame(c, s, e);
    } else {
      GuestFrame(c, s, e);
    }
  }

  // ---------- whole runs ----------

  /** No block has been issued. */
  ghost predicate NoTraffic(io: Traffic) {
    && |io.pending| == |io.queue| == |io.sent| == |io.dropped| == 0
    && io.submitted == io.readDone == io.transferred == 0 && io.next == io.async == 0
    && (forall k :: k !in io.newest) && (forall k :: k !in io.latest)
  }

  /** A machine that is not migrating; guest writes may be in flight. */
  ghost predicate Init(c: Config, s: State) {
    && c.Valid() && Shape(c, s) && s.phase == Off && !s.bulkCompleted && NoTraffic(s.io) && s.inflight == {}
    && Keys(c, s.src) && s.src.dirty == {} && s.src.missed == {} && Untracked(s.src.writes)
    && forall d :: 0 <= d < |s.bulk| ==> s.bulk[d] == 0
  }

  ghost function Machine(c: Config): (State, Event) -> Option<State> {
    (s, e) => if Shape(c, s) then Step(c, s, e) else None
  }

  lemma NoTrafficBlocks(io: Traffic)
    requires NoTraffic(io)
    ensures Blocks(io) && Ordered(io)
  {
  }

  lemma InitInv(c: Config, s: State)
    requires Init(c, s)
    ensures Inv(c, s) && Ordered(s.io)
  {
    NoTrafficBlocks(s.io);
  }

  /** The loop of stage 3 is left only by returning. */
  lemma StaysInLoop(c: Config, s: State, e: Event)
    requires Inv(c, s) && Step(c, s, e).Some? && InLoop(s.phase)
    ensures e == DirtyStep || e == Examine
    ensures InLoop(Step(c, s, e).value.phase)
  {
    if IsGuest(e) {
      GuestAway(c, s, e);
    }
  }

  /** The invariant over a run from any state that satisfies it. */
  lemma {:induction false} RunFrom(c: Config, s: State, events: seq<Event>)
    requires Inv(c, s) && Run(Machine(c), s, events).Some?
    ensures Inv(c, Run(Machine(c), s, events).value)
    ensures var end := Run(Machine(c), s, events).value;
            c.ordered && Ordered(s.io) && (InLoop(end.phase) ==> c.fullFlush) ==> Ordered(end.io)
    decreases |events|
  {
    if events != [] {
      var n := |events| - 1;
      RunFrom(c, s, events[..n]);
      var before := Run(Machine(c), s, events[..n]).value;
      StepInv(c, before, events[n]);
      if InLoop(before.phase) {
        StaysInLoop(c, before, events[n]);
      }
      if c.ordered && Ordered(s.io) && (InLoop(before.phase) ==> c.fullFlush) {
        StepOrdered(c, before, events[n]);
      }
    }
  }

  lemma RunInv(c: Config, s: State, events: seq<Event>)
    requires Init(c, s) && Run(Machine(c), s, events).Some?
    ensures Inv(c, Run(Machine(c), s, events).value)
    ensures var end := Run(Machine(c), s, events).value;
            c.ordered && (InLoop(end.phase) ==> c.fullFlush) ==> Ordered(end.io)
  {
    InitInv(c, s);
    RunFrom(c, s, events);
  }

  /** The migration counters are exact in every reachable state. */
  lemma CountersExact(c: Config, s: State, events: seq<Event>)
    requires Init(c, s) && Run(Machine(c), s, events).Some?
    ensures var end := Run(Machine(c), s, events).value;
            && end.io.submitted == |end.io.pending|
            && end.io.readDone == |end.io.queue| + |end.io.dropped|
            && end.io.submitted + end.io.readDone + end.io.transferred == end.io.async
            && (InStage3(end.phase) ==> end.io.submitted == 0)
  {
    RunInv(c, s, events);
  }

  // ---------- the newest block ----------

  /** The newest block issued for a chunk, once it has been read. */
  ghost predicate IsNewest(io: Traffic, k: Key, b: Block) {
    Out(io, b) && b.key == k && k in io.newest && b.no == io.newest[k]
  }

  lemma SameContents(a: Chunk, b: Chunk)
    requires Filled(a) == Filled(b)
    ensures a == b
  {
    assert |a| == |b|;
    forall i | 0 <= i < |a| ensures a[i] == b[i] {
      assert Filled(a)[i] == Filled(b)[i];
    }
  }

  /**
   After the bulk phase and with no read in flight, the newest block of a clean chunk holds
   the chunk, unless a write is on its way that will mark it or an untracked one went unnoticed.
   */
  lemma NewestIsCurrent(c: Config, s: State, k: Key) returns (b: Block)
    requires Inv(c, s) && s.io.pending == [] && s.bulkCompleted && c.Has(k)
    requires k !in s.src.dirty && k !in s.src.missed && !s.src.Writing(k)
    ensures IsNewest(s.io, k, b) && k in s.src.disk && b.data == s.src.disk[k]
  {
    assert Passed(s.bulk, k);
    assert Kept(s.src, s.io, k);
    assert Fresh(s.io, s.src.disk, k);
    assert Held(s.io, k);
    b :| Out(s.io, b) && b.key == k && b.no == s.io.newest[k];
    assert BlockTracked(s.io, b);
    assert b.data == s.src.disk[k];
  }

  /** All newest blocks of a chunk carry the same data. */
  lemma NewestAgree(io: Traffic, k: Key, a: Block, b: Block)
    requires Tracks(io) && IsNewest(io, k, a) && IsNewest(io, k, b)
    ensures a.data == b.data
  {
    assert BlockTracked(io, a) && BlockTracked(io, b);
    SameContents(a.data, b.data);
  }

  // ---------- what decides ----------

  /** The block delivered last for `k` carries what the block issued last carries. */
  ghost predicate LastIsNewest(io: Traffic, k: Key) {
    var i := LastFor(io.sent, k);
    i < |io.sent| && exists b :: IsNewest(io, k, b) && b.data == io.sent[i].data
  }

  lemma LastIsNewestIff(c: Config, s: State, k: Key)
    requires Inv(c, s) && s.phase == Done && s.src.missed == {} && c.Has(k)
    ensures k in s.src.disk
    ensures LastIsNewest(s.io, k)
            <==> LastFor(s.io.sent, k) < |s.io.sent| && s.io.sent[LastFor(s.io.sent, k)].data == s.src.disk[k]
  {
    var b := NewestIsCurrent(c, s, k);
    if LastIsNewest(s.io, k) {
      var b' :| IsNewest(s.io, k, b') && b'.data == s.io.sent[LastFor(s.io.sent, k)].data;
      NewestAgree(s.io, k, b, b');
    }
  }

  /** A destination that differs from the source in chunk `k`. */
  lemma OtherDisk(c: Config, disk: Disk, k: Key) returns (dst: Disk)
    requires DiskShape(c, disk) && c.Has(k)
    ensures Covers(c, dst) && dst[k] != disk[k]
  {
    dst := disk[k := disk[k] + [[]]];
    assert |dst[k]| != |disk[k]|;
  }

  /**
   For every run, also one whose reads overtake each other or whose last flush is cut
   short, in which no untracked write has changed what was already read: the source disk
   arrives at every destination exactly when, for each chunk, some block was delivered
   and the last one delivered carries what the newest one issued carries.
   */
  lemma DeliveryDecides(c: Config, s: State, events: seq<Event>)
    requires Init(c, s) && Run(Machine(c), s, events).Some?
    requires Run(Machine(c), s, events).value.phase == Done && Run(Machine(c), s, events).value.src.missed == {}
    ensures var end := Run(Machine(c), s, events).value;
            (forall dst :: Covers(c, dst) ==> SameDisk(c, Load(dst, end.io.sent), end.src.disk))
            <==> forall k :: c.Has(k) ==> LastIsNewest(end.io, k)
  {
    var end := Run(Machine(c), s, events).value;
    RunInv(c, s, events);
    if forall k :: c.Has(k) ==> LastIsNewest(end.io, k) {
      forall dst | Covers(c, dst) ensures SameDisk(c, Load(dst, end.io.sent), end.src.disk) {
        AllDelivered(c, end, dst);
      }
    } else {
      var k :| c.Has(k) && !LastIsNewest(end.io, k);
      NotDelivered(c, end, k);
    }
  }

  lemma AllDelivered(c: Config, end: State, dst: Disk)
    requires Inv(c, end) && end.phase == Done && end.src.missed == {} && Covers(c, dst)
    requires forall k :: c.Has(k) ==> LastIsNewest(end.io, k)
    ensures SameDisk(c, Load(dst, end.io.sent), end.src.disk)
  {
    forall k | c.Has(k)
      ensures k in Load(dst, end.io.sent) && k in end.src.disk && Load(dst, end.io.sent)[k] == end.src.disk[k]
    {
      LastIsNewestIff(c, end, k);
      LoadLast(dst, end.io.sent, k);
    }
  }

  lemma NotDelivered(c: Config, end: State, k: Key)
    requires Inv(c, end) && end.phase == Done && end.src.missed == {} && c.Has(k) && !LastIsNewest(end.io, k)
    ensures exists dst :: Covers(c, dst) && !SameDisk(c, Load(dst, end.io.sent), end.src.disk)
  {
    var dst := OtherDisk(c, end.src.disk, k);
    LastIsNewestIff(c, end, k);
    LoadLast(dst, end.io.sent, k);
    assert Load(dst, end.io.sent)[k] != end.src.disk[k];
    assert !SameDisk(c, Load(dst, end.io.sent), end.src.disk);
  }

  // ---------- when it works ----------

  function IndexOf(blocks: seq<Block>, b: Block): (i: nat)
    requires b in blocks
    ensures i < |blocks| && blocks[i] == b
  {
    if blocks[0] == b then 0 else 1 + IndexOf(blocks[1..], b)
  }

  /** In order and without leftovers, the newest block is the one delivered last. */
  lemma NewestIsLast(io: Traffic, k: Key, b: Block)
    requires Numbered(io) && Ordered(io) && io.queue == [] && io.dropped == [] && IsNewest(io, k, b)
    ensures LastFor(io.sent, k) < |io.sent| && io.sent[LastFor(io.sent, k)] == b
  {
    assert io.sent + io.queue == io.sent;
    var i, j := LastFor(io.sent, k), IndexOf(io.sent, b);
    assert j <= i < |io.sent|;
    assert Out(io, io.sent[i]);
    assert io.sent[i].no <= b.no;
  }

  /**
   If reads of one chunk complete in issue order, the flush opening stage 3 is not cut
   short, and no chunk was changed by an untracked write after its newest block had read it,
   then once stage 3 has returned the destination disk equals the source disk.
   */
  lemma MigrationCorrect(c: Config, s: State, events: seq<Event>, dst: Disk)
    requires Init(c, s) && c.ordered && c.fullFlush && Covers(c, dst)
    requires Run(Machine(c), s, events).Some?
    requires Run(Machine(c), s, events).value.phase == Done && Run(Machine(c), s, events).value.src.missed == {}
    ensures var end := Run(Machine(c), s, events).value; SameDisk(c, Load(dst, end.io.sent), end.src.disk)
  {
    var end := Run(Machine(c), s, events).value;
    RunInv(c, s, events);
    forall k | c.Has(k)
      ensures k in Load(dst, end.io.sent) && k in end.src.disk && Load(dst, end.io.sent)[k] == end.src.disk[k]
    {
      var b := NewestIsCurrent(c, end, k);
      NewestIsLast(end.io, k, b);
      LoadLast(dst, end.io.sent, k);
    }
  }

  // ---------- one read per chunk ----------

  /** No two reads in flight are for the same chunk. */
  ghost predicate Alone(pending: seq<Read>) {
    forall i, j :: 0 <= i < j < |pending| ==> pending[i].key != pending[j].key
  }

  /** In every state before the last one, no chunk has two reads in flight. */
  ghost predicate AlwaysAlone(c: Config, s: State, events: seq<Event>) {
    forall n :: 0 <= n < |events| && Run(Machine(c), s, events[..n]).Some?
      ==> Alone(Run(Machine(c), s, events[..n]).value.io.pending)
  }

  /** Reads can overtake each other only when a chunk has two of them in flight. */
  lemma {:induction false} AloneIsOrdered(c: Config, s: State, events: seq<Event>)
    requires AlwaysAlone(c, s, events) && Run(Machine(c), s, events).Some?
    ensures Run(Machine(c.(ordered := true)), s, events) == Run(Machine(c), s, events)
    decreases |events|
  {
    if events != [] {
      var n := |events| - 1;
      forall m | 0 <= m < n && Run(Machine(c), s, events[..n][..m]).Some?
        ensures Alone(Run(Machine(c), s, events[..n][..m]).value.io.pending)
      {
        assert events[..n][..m] == events[..m];
      }
      AloneIsOrdered(c, s, events[..n]);
      AloneStep(c, Run(Machine(c), s, events[..n]).value, events[n]);
    }
  }

  lemma AloneStep(c: Config, s: State, e: Event)
    requires Alone(s.io.pending)
    ensures Machine(c.(ordered := true))(s, e) == Machine(c)(s, e)
  {
    SameShape(c, s);
    if Shape(c, s) {
      match e
      case ReadComplete(i) =>
      case Examine =>
      case BulkStep => SameBulkDevice(c, s.bulk, 0);
      case _ =>
    }
  }

  lemma SameShape(c: Config, s: State)
    ensures Shape(c.(ordered := true), s) <==> Shape(c, s)
    ensures forall k :: c.(ordered := true).Has(k) <==> c.Has(k)
  {
  }

  lemma {:induction false} SameBulkDevice(c: Config, bulk: seq<nat>, d: nat)
    requires |bulk| == |c.total|
    ensures BulkDevice(c.(ordered := true), bulk, d) == BulkDevice(c, bulk, d)
    decreases |bulk| - d
  {
    if d < |bulk| && bulk[d] >= c.Chunks(d) {
      SameBulkDevice(c, bulk, d + 1);
    }
  }
}
