/**
 Live block migration (block-migration.c over the dirty bitmap of block.c) as a machine
 whose steps interleave with guest writes and with the asynchronous reads of the migration.

 A guest write is issued, reaches the disk sector by sector, and marks its chunks dirty
 when it completes (`block_complete_cb`), but only if dirty tracking was on when it was
 issued; a synchronous write marks first, if tracking is on, and is atomic.
 A migration read is issued, picks up its sectors one by one in any order, and is queued
 by its callback. Issuing a read and resetting the dirty bit is one step: callbacks run
 only from the event loop.
 */
module BlockMigration {
  import opened Bytes
  import opened Units

  type Sector = seq<byte>
  type Chunk = seq<Sector>
  type Disk = map<Key, Chunk>

  /** A dirty chunk of a device. */
  datatype Key = Key(dev: nat, chunk: nat)

  /**
   The migrated devices by their sizes in sectors, and two properties of the run that the
   code relies on without enforcing them: reads of one chunk complete in the order they were
   issued, and the flush that opens stage 3 is not cut short by the rate limit.
   */
  datatype Config = Config(total: seq<nat>, ordered: bool, fullFlush: bool) {

    ghost predicate Valid() { forall d :: 0 <= d < |total| ==> total[d] > 0 }

    function Chunks(d: nat): (n: nat)
      requires d < |total|
      ensures (n - 1) * CHUNK < total[d] <= n * CHUNK
    {
      (total[d] + CHUNK - 1) / CHUNK
    }

    predicate Has(k: Key) { k.dev < |total| && k.chunk < Chunks(k.dev) }

    /** Sectors in a chunk: the last chunk of a device may be short. */
    function Size(k: Key): (n: nat)
      requires Has(k)
      ensures 0 < n <= CHUNK
    {
      if total[k.dev] - k.chunk * CHUNK < CHUNK then total[k.dev] - k.chunk * CHUNK else CHUNK
    }
  }

  // ---------- the guest's side ----------

  /** A guest write in flight; `tracked` if its completion will mark its chunks. */
  datatype Write = Write(keys: set<Key>, tracked: bool)

  /** The disks as the guest uses them. */
  datatype Source = Source(
    running: bool,
    disk: Disk,
    dirty: set<Key>,
    writes: seq<Write>,
    missed: set<Key>)    // changed by an untracked write after the newest block had read that sector
  {
    predicate At(k: Key, at: nat) { k in disk && at < |disk[k]| }

    function Put(k: Key, at: nat, v: Sector): Disk
      requires At(k, at)
    {
      var chunk: Chunk := disk[k][at := v];
      disk[k := chunk]
    }

    /** A write that will mark `k` is in flight. */
    predicate Writing(k: Key) { exists w :: 0 <= w < |writes| && writes[w].tracked && k in writes[w].keys }

    /** `bdrv_aio_writev`: the callback is wrapped only if there is a dirty bitmap. */
    function Issue(keys: set<Key>, tracking: bool): Source { this.(writes := writes + [Write(keys, tracking)]) }

    /** A sector of the write reaches the disk; `read` if the newest block has read that sector. */
    function Land(w: nat, k: Key, at: nat, v: Sector, read: bool): Source
      requires w < |writes| && At(k, at)
    {
      this.(disk := Put(k, at, v), missed := if read && !writes[w].tracked then missed + {k} else missed)
    }

    /** The callback of the write. */
    function Finish(w: nat): Source
      requires w < |writes|
    {
      this.(dirty := if writes[w].tracked then dirty + writes[w].keys else dirty,
            writes := writes[..w] + writes[w + 1..])
    }

    /** `bdrv_write`. */
    function WriteNow(k: Key, at: nat, v: Sector, tracking: bool): Source
      requires At(k, at)
    {
      this.(dirty := if tracking then dirty + {k} else dirty, disk := Put(k, at, v))
    }

    /** `bdrv_reset_dirty` when a block is issued for `k`. */
    function Clean(k: Key): Source { this.(dirty := dirty - {k}, missed := missed - {k}) }
  }

  // ---------- the blocks ----------

  /** A read in flight; `no` numbers all blocks in the order they were issued. */
  datatype Read = Read(key: Key, no: nat, buf: seq<Option<Sector>>)

  /** A block read completely: queued, sent or dropped. */
  datatype Block = Block(key: Key, no: nat, data: Chunk)

  function Blank(n: nat): (b: seq<Option<Sector>>)
    ensures |b| == n && forall i :: 0 <= i < n ==> b[i] == None
  {
    seq(n, _ => None)
  }

  function Filled(data: Chunk): (b: seq<Option<Sector>>)
    ensures |b| == |data| && forall i :: 0 <= i < |b| ==> b[i] == Some(data[i])
  {
    seq(|data|, i requires 0 <= i < |data| => Some(data[i]))
  }

  predicate Full(b: seq<Option<Sector>>) { forall i :: 0 <= i < |b| ==> b[i].Some? }

  function Contents(b: seq<Option<Sector>>): (data: Chunk)
    requires Full(b)
    ensures |data| == |b| && forall i :: 0 <= i < |b| ==> b[i] == Some(data[i])
  {
    seq(|b|, i requires 0 <= i < |b| => b[i].value)
  }

  function AsBlock(r: Read): Block
    requires Full(r.buf)
  {
    Block(r.key, r.no, Contents(r.buf))
  }

  /** Blocks in flight, in line and gone, with the counters of `block_mig_state`. */
  datatype Traffic = Traffic(
    pending: seq<Read>,        // in flight, in issue order
    queue: seq<Block>,         // blk_list
    sent: seq<Block>,
    dropped: seq<Block>,       // freed unsent by blk_mig_cleanup
    submitted: int,
    readDone: int,
    transferred: int,
    next: nat,                 // number of blocks issued
    async: nat,                // how many of them by asynchronous reads
    newest: map<Key, nat>,     // per chunk: the last block issued
    latest: map<Key, seq<Option<Sector>>>)  // and what that block holds so far
  {
    /** The newest block of `k` has read sector `at`. */
    predicate HasRead(k: Key, at: nat) { k in latest && at < |latest[k]| && latest[k][at].Some? }

    /** Issue an asynchronous read of the `n` sectors of `k`. */
    function Issue(k: Key, n: nat): Traffic {
      this.(pending := pending + [Read(k, next, Blank(n))],
            submitted := submitted + 1,
            next := next + 1,
            async := async + 1,
            newest := newest[k := next],
            latest := latest[k := Blank(n)])
    }

    /** Stage 3: send `k` with the data just read. */
    function SendNow(k: Key, data: Chunk): Traffic {
      this.(sent := sent + [Block(k, next, data)],
            next := next + 1,
            newest := newest[k := next],
            latest := latest[k := Filled(data)])
    }

    predicate CanSample(disk: Disk, i: nat, j: nat) {
      && i < |pending| && j < |pending[i].buf|
      && pending[i].key in disk && j < |disk[pending[i].key]|
    }

    /** Read `i` picks up its sector `j`. */
    function Sample(disk: Disk, i: nat, j: nat): Traffic
      requires CanSample(disk, i, j)
    {
      var r := pending[i];
      var buf := r.buf[j := Some(disk[r.key][j])];
      this.(pending := pending[i := r.(buf := buf)],
            latest := if r.key in newest && newest[r.key] == r.no then latest[r.key := buf] else latest)
    }

    /** blk_mig_read_cb. */
    function Complete(i: nat): Traffic
      requires i < |pending| && Full(pending[i].buf)
    {
      this.(pending := pending[..i] + pending[i + 1..],
            queue := queue + [AsBlock(pending[i])],
            submitted := submitted - 1,
            readDone := readDone + 1)
    }

    function SendHead(): Traffic
      requires queue != []
    {
      this.(sent := sent + [queue[0]], queue := queue[1..], readDone := readDone - 1, transferred := transferred + 1)
    }

    /** blk_mig_cleanup. */
    function Drop(): Traffic { this.(dropped := queue, queue := []) }
  }

  // ---------- the machine ----------

  datatype Phase =
    | Off
    | Sending(stage: nat)                 // the first flush_blks of a call
    | Pumping                             // the rate-controlled loop of stage 2
    | Flushing                            // the second flush_blks of stage 2
    | Draining                            // the loop of stage 3
    | Scanning(stage: nat, dev: nat)      // blk_mig_save_dirty_block, at device dev
    | Rest                                // between two calls
    | Done                                // stage 3 has returned
  {
    /** Dirty tracking is switched on by stage 1 and off by the cleanup. */
    predicate Tracking() { this != Off && this != Done }
  }

  datatype State = State(
    phase: Phase,
    src: Source,
    io: Traffic,
    bulk: seq<nat>,            // per device: chunks the bulk phase has issued
    cursor: seq<nat>,          // per device: cur_dirty, in chunks
    bulkCompleted: bool,
    inflight: set<Key>)        // aio_bitmap

  datatype Event =
    | WriteIssue(keys: set<Key>)
    | WriteEffect(write: nat, key: Key, at: nat, value: Sector)
    | WriteComplete(write: nat)
    | WriteSync(key: Key, at: nat, value: Sector)
    | StopGuest
    | ReadSector(read: nat, at: nat)
    | ReadComplete(read: nat)
    | Begin(stage: nat)
    | SendHead
    | StopSending
    | BulkStep
    | DirtyStep
    | LeavePump
    | Examine

  /** First device whose bulk phase is not finished. */
  function BulkDevice(c: Config, bulk: seq<nat>, d: nat): nat
    requires |bulk| == |c.total|
    decreases |bulk| - d
  {
    if d < |bulk| && bulk[d] >= c.Chunks(d) then BulkDevice(c, bulk, d + 1) else d
  }

  /** Issue an asynchronous read of `k` and reset its dirty bit. */
  function Issue(c: Config, s: State, k: Key): State
    requires c.Has(k)
  {
    s.(src := s.src.Clean(k), io := s.io.Issue(k, c.Size(k)))
  }

  /** The bulk phase issues a chunk; it does not mark it in the in-flight bitmap. */
  function BulkIssue(c: Config, s: State, d: nat): State
    requires d < |s.bulk| && c.Has(Key(d, s.bulk[d]))
  {
    Issue(c, s, Key(d, s.bulk[d])).(bulk := s.bulk[d := s.bulk[d] + 1])
  }

  function BulkStepped(c: Config, s: State): State
    requires |s.bulk| == |c.total|
  {
    var d := BulkDevice(c, s.bulk, 0);
    if d < |s.bulk| && c.Has(Key(d, s.bulk[d])) then BulkIssue(c, s, d) else s.(bulkCompleted := true)
  }

  /** Stage 2 issues a read of a dirty chunk and marks it in the in-flight bitmap. */
  function Reissue(c: Config, s: State, k: Key): State
    requires c.Has(k)
  {
    Issue(c, s, k).(inflight := s.inflight + {k}, phase := Pumping)
  }

  /** Stage 3 reads `k` synchronously, sends it and resets its dirty bit. */
  function Resend(s: State, k: Key): State
    requires k in s.src.disk
  {
    s.(src := s.src.Clean(k), io := s.io.SendNow(k, s.src.disk[k]), phase := Draining)
  }

  function ReadDone(s: State, i: nat): State
    requires i < |s.io.pending| && Full(s.io.pending[i].buf)
  {
    s.(io := s.io.Complete(i), inflight := s.inflight - {s.io.pending[i].key})
  }

  /** Leaving the flush that opens a call: reset the dirty cursors and go on by stage. */
  function Opened(s: State, stage: nat): State {
    s.(cursor := seq(|s.cursor|, _ => 0),
       phase := if stage == 2 then Pumping else if stage == 3 then Draining else Rest)
  }

  /** No device has anything left to send. */
  function ScanOver(s: State, stage: nat): State {
    if stage == 3 then s.(phase := Done, io := s.io.Drop()) else s.(phase := Flushing)
  }

  /** One look of mig_save_device_dirty at device `d`, or moving on to the next device. */
  function Examined(c: Config, s: State, stage: nat, d: nat): State
    requires |s.cursor| == |c.total| && (forall k :: c.Has(k) ==> k in s.src.disk)
  {
    if d >= |s.cursor| then ScanOver(s, stage)
    else
      var k := Key(d, s.cursor[d]);
      if !c.Has(k) then s.(phase := Scanning(stage, d + 1))
      else if k in s.src.dirty then
        if stage == 3 then Resend(s, k) else Reissue(c, s, k)
      else s.(cursor := s.cursor[d := s.cursor[d] + 1])
  }

  /** The key under the cursor has a read in flight and the event loop has not drained yet. */
  predicate MustWait(s: State, d: nat) {
    d < |s.cursor| && Key(d, s.cursor[d]) in s.inflight && !(s.io.pending == [] && s.src.writes == [])
  }

  predicate CanBegin(s: State, stage: nat) {
    || (stage == 1 && s.phase == Off)
    || (stage == 2 && s.phase == Rest)
    || (stage == 3 && s.phase == Rest && Quiet(s))
  }

  /** Stage 3 runs with the guest stopped and nothing in flight. */
  predicate Quiet(s: State) { !s.src.running && s.src.writes == [] && s.io.pending == [] && s.bulkCompleted }

  ghost predicate DiskShape(c: Config, disk: Disk) {
    && (forall k :: k in disk <==> c.Has(k))
    && (forall k :: k in disk ==> |disk[k]| == c.Size(k))
  }

  ghost predicate ReadShape(c: Config, pending: seq<Read>) {
    forall i :: 0 <= i < |pending| ==> c.Has(pending[i].key) && |pending[i].buf| == c.Size(pending[i].key)
  }

  ghost predicate Shape(c: Config, s: State) {
    && |s.bulk| == |s.cursor| == |c.total|
    && (forall d :: 0 <= d < |s.bulk| ==> s.bulk[d] <= c.Chunks(d))
    && DiskShape(c, s.src.disk) && ReadShape(c, s.io.pending)
  }

  ghost function Step(c: Config, s: State, e: Event): Option<State>
    requires Shape(c, s)
  {
    match e
    case WriteIssue(keys) =>
      if s.src.running && forall k :: k in keys ==> c.Has(k) then
        Some(s.(src := s.src.Issue(keys, s.phase.Tracking())))
      else None
    case WriteEffect(w, k, at, v) =>
      if w < |s.src.writes| && k in s.src.writes[w].keys && s.src.At(k, at) then
        Some(s.(src := s.src.Land(w, k, at, v, s.io.HasRead(k, at))))
      else None
    case WriteComplete(w) => if w < |s.src.writes| then Some(s.(src := s.src.Finish(w))) else None
    case WriteSync(k, at, v) =>
      if s.src.running && s.src.At(k, at) then Some(s.(src := s.src.WriteNow(k, at, v, s.phase.Tracking()))) else None
    case StopGuest => if s.src.running then Some(s.(src := s.src.(running := false))) else None
    case ReadSector(i, j) =>
      if s.io.CanSample(s.src.disk, i, j) then Some(s.(io := s.io.Sample(s.src.disk, i, j))) else None
    case ReadComplete(i) =>
      if i < |s.io.pending| && Full(s.io.pending[i].buf)
         && (c.ordered ==> forall h :: 0 <= h < i ==> s.io.pending[h].key != s.io.pending[i].key) then
        Some(ReadDone(s, i))
      else None
    case Begin(stage) => if CanBegin(s, stage) then Some(s.(phase := Sending(stage))) else None
    case SendHead =>
      if (s.phase.Sending? || s.phase == Flushing) && s.io.queue != [] then Some(s.(io := s.io.SendHead())) else None
    case StopSending =>
      if s.phase.Sending? && (s.phase.stage == 3 && c.fullFlush ==> s.io.queue == []) then
        Some(Opened(s, s.phase.stage))
      else if s.phase == Flushing then Some(s.(phase := Rest))
      else None
    case BulkStep => if s.phase == Pumping && !s.bulkCompleted then Some(BulkStepped(c, s)) else None
    case DirtyStep =>
      if s.phase == Pumping && s.bulkCompleted then Some(s.(phase := Scanning(2, 0)))
      else if s.phase == Draining then Some(s.(phase := Scanning(3, 0)))
      else None
    case LeavePump => if s.phase == Pumping then Some(s.(phase := Flushing)) else None
    case Examine =>
      if s.phase.Scanning? && !MustWait(s, s.phase.dev) then Some(Examined(c, s, s.phase.stage, s.phase.dev)) else None
  }
}
