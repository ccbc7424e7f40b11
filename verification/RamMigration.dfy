/**
 Live RAM migration (`ram_save_live`, `ram_save_block`, arch_init.c) as a machine
 whose steps interleave freely with guest writes.

 One step is one memory access of the sender: looking at a dirty flag, resetting it,
 comparing one word of `is_dup_page`, copying one byte into the stream, fetching the
 log of one page. Between any two of them the guest may write any byte: a virtual CPU
 write is recorded in the kernel's dirty log while tracking is on, a device write sets
 the dirty flag itself.
 */
module RamMigration {
  import opened Bytes
  import opened RamLayout
  import opened RamStream

  datatype Phase =
    | Off                                  // before stage 1
    | Syncing(next: nat)                   // cpu_physical_sync_dirty_bitmap
    | Marking(next: nat)                   // stage 1: make sure all dirty bits are set
    | Ready                                // loop head around ram_save_block
    | Scanning(cur: nat, seen: nat)        // the do/while walk over the ring
    | Captured(page: nat)                  // dirty flag reset, page not looked at yet
    | Checking(page: nat, ch: byte, words: nat)  // is_dup_page
    | Repeating(page: nat)                 // one repeated byte: about to read it again
    | Copying(page: nat, buf: seq<byte>)   // qemu_put_buffer of the page
    | Rest                                 // between two calls of ram_save_live
    | Done                                 // stage 3 has returned
    | Failed                               // log sync failed, or cancelled
    | Crashed                              // last_block->offset read through NULL

  datatype State = State(
    stage: nat,
    forced: bool,              // in the second loop of stage 3, which ignores the rate limit
    running: bool,             // the guest runs
    tracking: bool,            // dirty logging is on
    mem: seq<Page>,
    dirty: seq<bool>,          // MIGRATION_DIRTY_FLAG of phys_dirty
    log: seq<bool>,            // written since the kernel log was last fetched
    last: Option<nat>,         // last_block, last_offset
    phase: Phase,
    sent: seq<Record>)

  datatype Event =
    | CpuWrite(page: nat, at: nat, value: byte)
    | DeviceWrite(page: nat, at: nat, value: byte)
    | StopGuest
    | Begin(stage: nat)
    | SyncPage
    | SyncFails
    | Cancel
    | MarkPage
    | RateLimited
    | SaveBlock
    | Look
    | ReadFirst
    | CompareWord
    | ReadAgain
    | CopyByte

  // ---------- one step ----------

  function PutByte(mem: seq<Page>, p: nat, at: nat, v: byte): seq<Page>
    requires p < |mem| && at < |mem[p]|
  {
    var page: Page := mem[p][at := v];
    mem[p := page]
  }

  function Entries(c: Layout): seq<Entry> { EntriesFrom(c, 0) }

  function EntriesFrom(c: Layout, b: nat): seq<Entry>
    decreases |c.blocks| - b
  {
    if b >= |c.blocks| then []
    else [Entry(c.blocks[b].id, c.blocks[b].pages * c.PageSize())] + EntriesFrom(c, b + 1)
  }

  /** A call of ram_save_block found nothing, or the rate limit was hit: the loop is over. */
  function LoopOver(s: State): State {
    if s.stage == 3 && !s.forced then s.(phase := Ready, forced := true)
    else if s.stage == 3 then s.(phase := Done, tracking := false, sent := s.sent + [Eos])
    else s.(phase := Rest, sent := s.sent + [Eos])
  }

  function Sent(s: State, p: nat, r: Record): State {
    s.(phase := Ready, last := Some(p), sent := s.sent + [r])
  }

  function LookStep(c: Layout, s: State, cur: nat, seen: nat): State
    requires cur < |s.dirty|
  {
    if s.dirty[cur] then s.(dirty := s.dirty[cur := false], phase := Captured(cur))
    else if s.last.None? then s.(phase := Crashed)
    else if Next(c.Count(), cur) == s.last.value then LoopOver(s)
    else s.(phase := Scanning(Next(c.Count(), cur), seen + 1))
  }

  function CompareStep(c: Layout, s: State, p: nat, ch: byte, n: nat): State
    requires p < |s.mem|
  {
    if 4 * n + 4 <= |s.mem[p]| then
      if s.mem[p][4 * n..4 * n + 4] == [ch, ch, ch, ch] then s.(phase := Checking(p, ch, n + 1))
      else s.(phase := Copying(p, []))
    else
      s.(phase := Repeating(p))
  }

  function CopyStep(c: Layout, s: State, p: nat, buf: seq<byte>): State
    requires p < c.Count() && p < |s.mem| && |buf| < |s.mem[p]|
    requires s.last.Some? ==> s.last.value < c.Count()
  {
    var buf' := buf + [s.mem[p][|buf|]];
    if |buf'| == |s.mem[p]| then Sent(s, p, FullPage(NameAt(c, s.last, p), c.PageAt(p), buf'))
    else s.(phase := Copying(p, buf'))
  }

  function SyncStep(c: Layout, s: State, n: nat): State
    requires |s.dirty| == |s.log|
  {
    if n < |s.log| then
      s.(dirty := s.dirty[n := s.dirty[n] || s.log[n]], log := s.log[n := false], phase := Syncing(n + 1))
    else if s.stage == 1 then
      s.(phase := Marking(0), last := None)
    else
      s.(phase := Ready)
  }

  function MarkStep(c: Layout, s: State, n: nat): State {
    if n < |s.dirty| then s.(dirty := s.dirty[n := true], phase := Marking(n + 1))
    else s.(phase := Ready, tracking := true, sent := s.sent + [BlockList(Entries(c))])
  }

  /** All sequences have one entry per page, pages have the page size, cursors are pages. */
  ghost predicate Shape(c: Layout, s: State) {
    && |s.mem| == |s.dirty| == |s.log| == c.Count()
    && (forall p :: 0 <= p < |s.mem| ==> |s.mem[p]| == c.PageSize())
    && (s.last.Some? ==> s.last.value < c.Count())
    && match s.phase
       case Syncing(n) => n <= c.Count()
       case Marking(n) => n <= c.Count()
       case Scanning(cur, seen) => cur < c.Count()
       case Captured(p) => p < c.Count()
       case Checking(p, _, n) => p < c.Count() && 4 * n <= c.PageSize()
       case Repeating(p) => p < c.Count()
       case Copying(p, buf) => p < c.Count() && |buf| < c.PageSize()
       case _ => true
  }

  /** The effect of an event, or None when it cannot happen now. */
  ghost function Step(c: Layout, s: State, e: Event): Option<State>
    requires Shape(c, s)
  {
    match e
    case CpuWrite(p, at, v) =>
      if s.running && p < c.Count() && at < c.PageSize() then
        Some(s.(mem := PutByte(s.mem, p, at, v), log := if s.tracking then s.log[p := true] else s.log))
      else None
    case DeviceWrite(p, at, v) =>
      if s.running && p < c.Count() && at < c.PageSize() then
        Some(s.(mem := PutByte(s.mem, p, at, v), dirty := s.dirty[p := true]))
      else None
    case StopGuest => if s.running then Some(s.(running := false)) else None
    case Begin(stage) =>
      if (stage == 1 && s.phase == Off) || (stage == 2 && s.phase == Rest)
         || (stage == 3 && s.phase == Rest && !s.running)
      then Some(s.(stage := stage, forced := false, phase := Syncing(0)))
      else None
    case SyncPage => if s.phase.Syncing? then Some(SyncStep(c, s, s.phase.next)) else None
    case SyncFails => if s.phase.Syncing? then Some(s.(phase := Failed)) else None
    case Cancel => if s.phase == Rest then Some(s.(phase := Failed, tracking := false)) else None
    case MarkPage => if s.phase.Marking? then Some(MarkStep(c, s, s.phase.next)) else None
    case RateLimited => if s.phase == Ready && !s.forced then Some(LoopOver(s)) else None
    case SaveBlock => if s.phase == Ready then Some(s.(phase := Scanning(Origin(s.last), 0))) else None
    case Look => if s.phase.Scanning? then Some(LookStep(c, s, s.phase.cur, s.phase.seen)) else None
    case ReadFirst =>
      if s.phase.Captured? then Some(s.(phase := Checking(s.phase.page, s.mem[s.phase.page][0], 0))) else None
    case CompareWord =>
      if s.phase.Checking? then Some(CompareStep(c, s, s.phase.page, s.phase.ch, s.phase.words)) else None
    case ReadAgain =>
      if s.phase.Repeating? then
        var p := s.phase.page;
        Some(Sent(s, p, Compressed(NameAt(c, s.last, p), c.PageAt(p), s.mem[p][0])))
      else None
    case CopyByte => if s.phase.Copying? then Some(CopyStep(c, s, s.phase.page, s.phase.buf)) else None
  }
}
