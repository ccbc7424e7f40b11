/**
 The loops of block-migration.c that run to completion by themselves, as methods: sending the
 queue (`flush_blks`) and sending what is still dirty in stage 3 (`mig_save_device_dirty`,
 `blk_mig_save_dirty_block` and the loop around it), with the guest stopped.
 */
module BlockSaver {
  import opened Bytes
  import opened Runs
  import opened BlockMigration
  import opened BlockMigrationProof
  import opened BlockMigrationResult
  import opened BlockStageThree
  import opened BlockDrain
  import opened Units

  /** A queued block with the result of its read. */
  datatype Queued = Queued(block: Block, ret: int)

  /** How much of the queue can go out: up to the rate limit, and up to the first failed read. */
  function Sendable(queue: seq<Queued>, budget: nat): nat {
    if queue == [] || budget == 0 || queue[0].ret < 0 then 0 else 1 + Sendable(queue[1..], budget - 1)
  }

  lemma {:induction false} SendableExact(queue: seq<Queued>, budget: nat)
    ensures Sendable(queue, budget) <= |queue| && Sendable(queue, budget) <= budget
    ensures forall i :: 0 <= i < Sendable(queue, budget) ==> queue[i].ret >= 0
    ensures Sendable(queue, budget) < |queue| && Sendable(queue, budget) < budget
            ==> queue[Sendable(queue, budget)].ret < 0
    decreases |queue|
  {
    if queue != [] && budget > 0 && queue[0].ret >= 0 {
      SendableExact(queue[1..], budget - 1);
    }
  }

  function BlocksOf(queue: seq<Queued>): (bs: seq<Block>)
    ensures |bs| == |queue| && forall i :: 0 <= i < |bs| ==> bs[i] == queue[i].block
  {
    seq(|queue|, i requires 0 <= i < |queue| => queue[i].block)
  }

  /** `done` of the `n` blocks of `q` that can be sent have been. */
  ghost predicate Flushed(q: seq<Queued>, n: nat, sent0: seq<Block>, queue: seq<Queued>, sent: seq<Block>, left: nat,
      done: nat)
  {
    done <= n <= |q| && queue == q[done..] && sent == sent0 + BlocksOf(q[..done]) && Sendable(queue, left) == n - done
  }

  lemma FlushStart(q: seq<Queued>, budget: nat, sent0: seq<Block>)
    ensures Flushed(q, Sendable(q, budget), sent0, q, sent0, budget, 0)
  {
    SendableExact(q, budget);
    assert BlocksOf(q[..0]) == [] && q[0..] == q;
  }

  lemma FlushOne(q: seq<Queued>, n: nat, sent0: seq<Block>, queue: seq<Queued>, sent: seq<Block>, left: nat, done: nat)
    requires Flushed(q, n, sent0, queue, sent, left, done) && queue != [] && left > 0 && queue[0].ret >= 0
    ensures Flushed(q, n, sent0, queue[1..], sent + [queue[0].block], left - 1, done + 1)
  {
    assert BlocksOf(q[..done + 1]) == BlocksOf(q[..done]) + [q[done].block];
  }

  lemma FlushStop(q: seq<Queued>, n: nat, sent0: seq<Block>, queue: seq<Queued>, sent: seq<Block>, left: nat, done: nat)
    requires Flushed(q, n, sent0, queue, sent, left, done) && (queue == [] || left == 0 || queue[0].ret < 0)
    ensures done == n && queue == q[n..] && sent == sent0 + BlocksOf(q[..n])
  {
  }

  // ---------- the machine flushes the same way ----------

  /** The traffic after the first `n` blocks in line have gone out. */
  function SentUpTo(io: Traffic, n: nat): Traffic
    requires n <= |io.queue|
  {
    io.(sent := io.sent + io.queue[..n], queue := io.queue[n..], readDone := io.readDone - n,
        transferred := io.transferred + n)
  }

  lemma SendOneMore(io: Traffic, n: nat)
    requires n < |io.queue|
    ensures SentUpTo(io, n).queue != [] && SentUpTo(io, n).SendHead() == SentUpTo(io, n + 1)
  {
    assert io.queue[..n + 1] == io.queue[..n] + [io.queue[n]];
    assert io.queue[n..][1..] == io.queue[n + 1..];
  }

  /** Undisturbed, the machine can send any prefix of the queue, as `flush_blks` does. */
  lemma {:induction false} FlushLeads(c: Config, s: State, n: nat)
    requires Shape(c, s) && (s.phase.Sending? || s.phase == Flushing) && n <= |s.io.queue|
    ensures Leads(Machine(c), s, s.(io := SentUpTo(s.io, n)))
  {
    if n == 0 {
      assert s.io.sent + s.io.queue[..0] == s.io.sent && s.io.queue[0..] == s.io.queue;
      assert s.(io := SentUpTo(s.io, 0)) == s;
      LeadsNowhere(Machine(c), s);
    } else {
      FlushLeads(c, s, n - 1);
      SendOneMore(s.io, n - 1);
      var t := s.(io := SentUpTo(s.io, n - 1));
      assert Machine(c)(t, SendHead) == Step(c, t, SendHead);
      LeadsThen(Machine(c), s, t, SendHead);
    }
  }

  // ---------- cursors in sectors ----------

  function InChunks(curDirty: seq<nat>): (cursor: seq<nat>)
    ensures |cursor| == |curDirty| && forall d :: 0 <= d < |cursor| ==> cursor[d] == curDirty[d] / CHUNK
  {
    seq(|curDirty|, d requires 0 <= d < |curDirty| => curDirty[d] / CHUNK)
  }

  ghost predicate OnChunks(curDirty: seq<nat>) { forall d :: 0 <= d < |curDirty| ==> curDirty[d] % CHUNK == 0 }

  lemma SectorsAndChunks(c: Config, d: nat, sector: nat)
    requires d < |c.total| && sector % CHUNK == 0
    ensures sector < c.total[d] <==> sector / CHUNK < c.Chunks(d)
    ensures (sector + CHUNK) % CHUNK == 0 && (sector + CHUNK) / CHUNK == sector / CHUNK + 1
  {
  }

  lemma MoveCursor(curDirty: seq<nat>, d: nat, sector: nat)
    requires OnChunks(curDirty) && d < |curDirty| && sector % CHUNK == 0
    ensures OnChunks(curDirty[d := sector])
            && InChunks(curDirty[d := sector]) == InChunks(curDirty)[d := sector / CHUNK]
  {
  }

  class Saver {
    const c: Config
    var disk: Disk
    var dirty: set<Key>
    var curDirty: seq<nat>       // cur_dirty per device, in sectors
    var queue: seq<Queued>
    var sent: seq<Block>
    var readDone: int
    var transferred: int
    var next: nat
    var fails: seq<bool>         // which of the synchronous reads to come fail; later ones succeed
    var error: bool              // the file error

    ghost predicate Valid()
      reads this
    {
      && |curDirty| == |c.total| && OnChunks(curDirty) && Covers(c, disk) && readDone == |queue|
      && Ahead(c, dirty, InChunks(curDirty))
    }

    function View(): Saving
      reads this
    {
      Saving(dirty, InChunks(curDirty), sent, next, fails, error)
    }

    /**
     `flush_blks`: `budget` is how many blocks the rate limit lets through. Blocks leave in
     queue order; the first block whose read failed stays and raises the file error.
     */
    method FlushBlks(budget: nat)
      requires Valid()
      modifies this`queue, this`sent, this`readDone, this`transferred, this`error
      ensures Valid()
      ensures var n := Sendable(old(queue), budget);
              && n <= |old(queue)| && sent == old(sent) + BlocksOf(old(queue)[..n]) && queue == old(queue)[n..]
              && readDone + transferred == old(readDone) + old(transferred)
              && (error <==> old(error) || (n < |old(queue)| && n < budget))
    {
      ghost var q, n, sent0, done := queue, Sendable(queue, budget), sent, 0;
      var left := budget;
      FlushStart(q, budget, sent0);
      while queue != []
        invariant readDone == |queue| && left + done == budget && error == old(error)
        invariant Flushed(q, n, sent0, queue, sent, left, done)
        invariant readDone + transferred == old(readDone) + old(transferred)
        decreases |queue|
      {
        if left == 0 {
          break;
        }
        if queue[0].ret < 0 {
          error := true;
          break;
        }
        FlushOne(q, n, sent0, queue, sent, left, done);
        sent := sent + [queue[0].block];
        queue := queue[1..];
        readDone := readDone - 1;
        transferred := transferred + 1;
        left := left - 1;
        done := done + 1;
      }
      FlushStop(q, n, sent0, queue, sent, left, done);
    }

    /** Read a dirty chunk; send it and reset its dirty bit, or raise the file error. */
    method TryChunk(k: Key)
      requires k in disk
      modifies this`dirty, this`sent, this`next, this`fails, this`error
      ensures View() == Attempt(disk, old(View()), k)
    {
      var failed := fails != [] && fails[0];
      if fails != [] {
        fails := fails[1..];
      }
      if failed {
        error := true;
      } else {
        sent := sent + [Block(k, next, disk[k])];
        next := next + 1;
        dirty := dirty - {k};
      }
    }

    /**
     `mig_save_device_dirty` with synchronous reads: try to send the next dirty chunk of device
     `d` and return false, or return true when there is none left ahead of its cursor.
     */
    method MigSaveDeviceDirty(d: nat) returns (finished: bool)
      requires Valid() && d < |c.total|
      modifies this`dirty, this`curDirty, this`sent, this`next, this`fails, this`error
      ensures Valid()
      ensures (View(), !finished) == SaveDevice(c, disk, old(View()), d)
    {
      ghost var v := View();
      var sector: nat := curDirty[d];
      assert InChunks(curDirty)[d := sector / CHUNK] == InChunks(curDirty);
      while sector < c.total[d]
        invariant 0 <= d < |curDirty| == |c.total| == |v.cursor| && sector == curDirty[d] && OnChunks(curDirty)
        invariant ScanTo(c, v.dirty, d, sector / CHUNK) == ScanTo(c, v.dirty, d, v.cursor[d])
        invariant View() == v.(cursor := v.cursor[d := sector / CHUNK])
        decreases c.total[d] - sector
      {
        SectorsAndChunks(c, d, sector);
        var key := Key(d, sector / CHUNK);
        if key in dirty {
          SaveAhead(c, disk, v, d);
          TryChunk(key);
          return false;
        }
        MoveCursor(curDirty, d, sector + CHUNK);
        sector := sector + CHUNK;
        curDirty := curDirty[d := sector];
      }
      SectorsAndChunks(c, d, sector);
      SaveAhead(c, disk, v, d);
      finished := true;
    }

    /** `blk_mig_save_dirty_block`: the first device with something to send tries one chunk. */
    method SaveDirtyBlock() returns (more: bool)
      requires Valid()
      modifies this`dirty, this`curDirty, this`sent, this`next, this`fails, this`error
      ensures Valid()
      ensures (View(), more) == SaveFrom(c, disk, old(View()), 0)
    {
      var d := 0;
      while d < |c.total|
        invariant Valid() && d <= |c.total|
        invariant SaveFrom(c, disk, View(), d) == SaveFrom(c, disk, old(View()), 0)
      {
        var finished := MigSaveDeviceDirty(d);
        if !finished {
          return true;
        }
        d := d + 1;
      }
      more := false;
    }

    /**
     The loop of stage 3. It ends with nothing dirty, having sent one block with the current
     data for each chunk that was dirty and for no other.
     */
    method Drain()
      requires Valid()
      modifies this`dirty, this`curDirty, this`sent, this`next, this`fails, this`error
      ensures Valid() && View() == DrainAll(c, disk, old(View()))
      ensures dirty == {} && Progress(disk, old(sent), sent, old(dirty), {})
    {
      DrainSends(c, disk, View());
      while true
        invariant Valid() && DrainAll(c, disk, View()) == DrainAll(c, disk, old(View()))
        decreases |dirty| + |fails|
      {
        var more := SaveDirtyBlock();
        if !more {
          break;
        }
      }
    }
  }
}
