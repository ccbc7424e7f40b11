/**
 Every chunk the bulk phase has passed is dirty, or has a tracked guest write in flight, or
 was changed by an untracked write after it had been read, or the newest block issued for it
 holds nothing but current data. Every step keeps this.
 */
module BlockMigrationProof {
  import opened Bytes
  import opened BlockMigration

  // ---------- the invariant ----------

  /** A completed block: on its way, delivered, or freed. */
  ghost predicate Out(io: Traffic, b: Block) { b in io.sent || b in io.queue || b in io.dropped }

  ghost predicate Counted(io: Traffic) {
    && io.submitted == |io.pending|
    && io.readDone == |io.queue| + |io.dropped|
    && io.submitted + io.readDone + io.transferred == io.async
  }

  ghost predicate InOrder(pending: seq<Read>) {
    forall i, j :: 0 <= i < j < |pending| ==> pending[i].no < pending[j].no
  }

  /** Numbers name blocks: reads in flight are in issue order, and no number is used twice. */
  ghost predicate Numbered(io: Traffic) {
    && (forall k :: k in io.newest <==> k in io.latest)
    && (forall k :: k in io.newest ==> io.newest[k] < io.next)
    && InOrder(io.pending)
    && (forall i :: 0 <= i < |io.pending| ==>
          io.pending[i].key in io.newest && io.pending[i].no <= io.newest[io.pending[i].key])
    && (forall b :: Out(io, b) ==> b.key in io.newest && b.no <= io.newest[b.key])
    && (forall b, i :: Out(io, b) && 0 <= i < |io.pending| ==> b.no != io.pending[i].no)
  }

  /** A read in flight that is the newest block of its chunk is what `latest` says. */
  ghost predicate ReadTracked(io: Traffic, r: Read) {
    r.key in io.newest && r.key in io.latest && (r.no == io.newest[r.key] ==> io.latest[r.key] == r.buf)
  }

  ghost predicate BlockTracked(io: Traffic, b: Block) {
    b.key in io.newest && b.key in io.latest && (b.no == io.newest[b.key] ==> io.latest[b.key] == Filled(b.data))
  }

  /** The newest block of `k` is in flight or out. */
  ghost predicate Held(io: Traffic, k: Key) {
    && k in io.newest
    && ((exists i :: 0 <= i < |io.pending| && io.pending[i].key == k && io.pending[i].no == io.newest[k])
        || (exists b :: Out(io, b) && b.key == k && b.no == io.newest[k]))
  }

  /** `latest` is what the newest block of each chunk holds, wherever that block is now. */
  ghost predicate Tracks(io: Traffic) {
    && (forall i :: 0 <= i < |io.pending| ==> ReadTracked(io, io.pending[i]))
    && (forall b :: Out(io, b) ==> BlockTracked(io, b))
    && (forall k :: k in io.newest ==> Held(io, k))
  }

  ghost predicate Blocks(io: Traffic) { Counted(io) && Numbered(io) && Tracks(io) }

  /** What the newest block of `k` has read so far is current. */
  ghost predicate Fresh(io: Traffic, disk: Disk, k: Key) {
    && k in io.latest && k in disk && |io.latest[k]| == |disk[k]|
    && forall i :: 0 <= i < |io.latest[k]| && io.latest[k][i].Some? ==> io.latest[k][i].value == disk[k][i]
  }

  ghost predicate Kept(src: Source, io: Traffic, k: Key) {
    k in io.newest && (k in src.dirty || src.Writing(k) || k in src.missed || Fresh(io, src.disk, k))
  }

  predicate Passed(bulk: seq<nat>, k: Key) { k.dev < |bulk| && k.chunk < bulk[k.dev] }

  ghost predicate Safe(c: Config, bulk: seq<nat>, src: Source, io: Traffic) {
    forall k :: c.Has(k) && Passed(bulk, k) ==> Kept(src, io, k)
  }

  ghost predicate Keys(c: Config, src: Source) {
    && (forall k :: k in src.dirty ==> c.Has(k))
    && (forall w, k :: 0 <= w < |src.writes| && k in src.writes[w].keys ==> c.Has(k))
  }

  predicate Untracked(writes: seq<Write>) { forall w :: 0 <= w < |writes| ==> !writes[w].tracked }

  /** Before stage 1 nothing is marked and nothing has been issued. */
  ghost predicate Early(p: Phase, src: Source, bulk: seq<nat>) {
    p == Off ==> src.dirty == {} && Untracked(src.writes) && forall d :: 0 <= d < |bulk| ==> bulk[d] == 0
  }

  predicate InStage3(p: Phase) { p == Sending(3) || p == Draining || (p.Scanning? && p.stage == 3) || p == Done }

  /** Past the flush that opens stage 3. */
  predicate InLoop(p: Phase) { InStage3(p) && !p.Sending? }

  ghost predicate BulkOver(c: Config, bulk: seq<nat>)
    requires |bulk| == |c.total|
  {
    forall d :: 0 <= d < |bulk| ==> bulk[d] == c.Chunks(d)
  }

  /** Chunks behind the cursors are clean. */
  ghost predicate Swept(c: Config, cursor: seq<nat>, dirty: set<Key>)
    requires |cursor| == |c.total|
  {
    forall k :: c.Has(k) && k.chunk < cursor[k.dev] ==> k !in dirty
  }

  ghost predicate Exhausted(c: Config, cursor: seq<nat>, dev: nat)
    requires |cursor| == |c.total|
  {
    forall d :: 0 <= d < dev && d < |cursor| ==> cursor[d] >= c.Chunks(d)
  }

  ghost predicate Sweep(c: Config, p: Phase, cursor: seq<nat>, dirty: set<Key>)
    requires |cursor| == |c.total|
  {
    && (InLoop(p) ==> Swept(c, cursor, dirty))
    && (p.Scanning? && p.stage == 3 ==> Exhausted(c, cursor, p.dev))
    && (p == Done ==> dirty == {})
  }

  ghost predicate Leftover(c: Config, p: Phase, io: Traffic) {
    && (p != Done ==> io.dropped == [])
    && (c.fullFlush ==> io.dropped == [] && (InLoop(p) ==> io.queue == []))
  }

  ghost predicate Control(c: Config, s: State)
    requires Shape(c, s)
  {
    && (InStage3(s.phase) ==> Quiet(s))
    && (s.bulkCompleted ==> BulkOver(c, s.bulk))
    && Keys(c, s.src)
    && Early(s.phase, s.src, s.bulk)
    && Sweep(c, s.phase, s.cursor, s.src.dirty)
    && Leftover(c, s.phase, s.io)
  }

  ghost predicate Inv(c: Config, s: State) {
    c.Valid() && Shape(c, s) && Blocks(s.io) && Safe(c, s.bulk, s.src, s.io) && Control(c, s)
  }

  // ---------- guest events ----------

  /** A chunk stays kept when its disk contents do not change and nothing about it is forgotten. */
  lemma KeptMore(src: Source, src': Source, io: Traffic, k: Key)
    requires Kept(src, io, k) && (k in src.dirty ==> k in src'.dirty) && (k in src.missed ==> k in src'.missed)
    requires src.Writing(k) ==> src'.Writing(k) || k in src'.dirty
    requires k in src.disk ==> k in src'.disk && src'.disk[k] == src.disk[k]
    ensures Kept(src', io, k)
  {
  }

  lemma IssueWriting(src: Source, keys: set<Key>, tracking: bool, k: Key)
    requires src.Writing(k)
    ensures src.Issue(keys, tracking).Writing(k)
  {
    var w :| 0 <= w < |src.writes| && src.writes[w].tracked && k in src.writes[w].keys;
    assert src.Issue(keys, tracking).writes[w] == src.writes[w];
  }

  lemma IssueWriteSafe(c: Config, bulk: seq<nat>, src: Source, io: Traffic, keys: set<Key>, tracking: bool)
    requires Safe(c, bulk, src, io)
    ensures Safe(c, bulk, src.Issue(keys, tracking), io)
  {
    var src' := src.Issue(keys, tracking);
    forall k | c.Has(k) && Passed(bulk, k) ensures Kept(src', io, k) {
      if src.Writing(k) {
        IssueWriting(src, keys, tracking, k);
      }
      KeptMore(src, src', io, k);
    }
  }

  lemma LandKept(src: Source, io: Traffic, w: nat, k: Key, at: nat, v: Sector)
    requires w < |src.writes| && k in src.writes[w].keys && src.At(k, at) && Kept(src, io, k)
    ensures Kept(src.Land(w, k, at, v, io.HasRead(k, at)), io, k)
  {
    var src' := src.Land(w, k, at, v, io.HasRead(k, at));
    if src.writes[w].tracked {
      assert src'.Writing(k);
    } else if src.Writing(k) {
      var x :| 0 <= x < |src.writes| && src.writes[x].tracked && k in src.writes[x].keys;
      assert src'.writes[x].tracked;
    }
  }

  lemma LandSafe(c: Config, bulk: seq<nat>, src: Source, io: Traffic, w: nat, k: Key, at: nat, v: Sector)
    requires Safe(c, bulk, src, io) && w < |src.writes| && k in src.writes[w].keys && src.At(k, at)
    ensures Safe(c, bulk, src.Land(w, k, at, v, io.HasRead(k, at)), io)
  {
    var src' := src.Land(w, k, at, v, io.HasRead(k, at));
    forall x | c.Has(x) && Passed(bulk, x) ensures Kept(src', io, x) {
      if x == k {
        LandKept(src, io, w, k, at, v);
      } else {
        assert src'.writes == src.writes;
        KeptMore(src, src', io, x);
      }
    }
  }

  lemma Removed<T>(p: seq<T>, q: seq<T>, i: nat)
    requires i < |p| && q == p[..i] + p[i + 1..]
    ensures |q| == |p| - 1
    ensures forall h :: 0 <= h < |q| ==> q[h] == p[if h < i then h else h + 1]
    ensures forall h :: 0 <= h < |p| && h != i ==> p[h] == q[if h < i then h else h - 1]
  {
  }

  lemma FinishWriting(src: Source, w: nat, k: Key)
    requires w < |src.writes| && src.Writing(k)
    ensures src.Finish(w).Writing(k) || k in src.Finish(w).dirty
  {
    var x :| 0 <= x < |src.writes| && src.writes[x].tracked && k in src.writes[x].keys;
    var src' := src.Finish(w);
    Removed(src.writes, src'.writes, w);
    if x != w {
      assert src'.writes[if x < w then x else x - 1] == src.writes[x];
    }
  }

  lemma FinishSafe(c: Config, bulk: seq<nat>, src: Source, io: Traffic, w: nat)
    requires Safe(c, bulk, src, io) && w < |src.writes|
    ensures Safe(c, bulk, src.Finish(w), io)
  {
    forall k | c.Has(k) && Passed(bulk, k) ensures Kept(src.Finish(w), io, k) {
      if src.Writing(k) {
        FinishWriting(src, w, k);
      }
      KeptMore(src, src.Finish(w), io, k);
    }
  }

  lemma WriteNowSafe(c: Config, bulk: seq<nat>, src: Source, io: Traffic, k: Key, at: nat, v: Sector, tracking: bool)
    requires Safe(c, bulk, src, io) && src.At(k, at) && (tracking || forall d :: 0 <= d < |bulk| ==> bulk[d] == 0)
    ensures Safe(c, bulk, src.WriteNow(k, at, v, tracking), io)
  {
    var src' := src.WriteNow(k, at, v, tracking);
    forall x | c.Has(x) && Passed(bulk, x) ensures Kept(src', io, x) {
      assert tracking;
      if x != k {
        assert src'.writes == src.writes;
        KeptMore(src, src', io, x);
      }
    }
  }

  ghost predicate IsGuest(e: Event) {
    e.WriteIssue? || e.WriteEffect? || e.WriteComplete? || e.WriteSync? || e.StopGuest?
  }

  /** Guest events change the guest's side only. */
  lemma GuestFrame(c: Config, s: State, e: Event)
    requires Shape(c, s) && IsGuest(e) && Step(c, s, e).Some?
    ensures Step(c, s, e).value == s.(src := Step(c, s, e).value.src)
  {
    match e
    case WriteIssue(_) =>
    case WriteEffect(_, _, _, _) =>
    case WriteComplete(_) =>
    case WriteSync(_, _, _) =>
    case StopGuest =>
  }

  lemma GuestSafe(c: Config, s: State, e: Event)
    requires Shape(c, s) && Safe(c, s.bulk, s.src, s.io) && Control(c, s) && IsGuest(e) && Step(c, s, e).Some?
    ensures Safe(c, s.bulk, Step(c, s, e).value.src, s.io)
  {
    match e
    case WriteIssue(keys) => IssueWriteSafe(c, s.bulk, s.src, s.io, keys, s.phase.Tracking());
    case WriteEffect(w, k, at, v) => LandSafe(c, s.bulk, s.src, s.io, w, k, at, v);
    case WriteComplete(w) => FinishSafe(c, s.bulk, s.src, s.io, w);
    case WriteSync(k, at, v) => WriteNowSafe(c, s.bulk, s.src, s.io, k, at, v, s.phase.Tracking());
    case StopGuest =>
      forall k | c.Has(k) && Passed(s.bulk, k) ensures Kept(s.src.(running := false), s.io, k) {
        StopKept(s.src, s.io, k);
      }
  }

  lemma StopKept(src: Source, io: Traffic, k: Key)
    requires Kept(src, io, k)
    ensures Kept(src.(running := false), io, k)
  {
    if src.Writing(k) {
      var w :| 0 <= w < |src.writes| && src.writes[w].tracked && k in src.writes[w].keys;
      assert src.(running := false).writes[w].tracked;
    }
    KeptMore(src, src.(running := false), io, k);
  }

  /** What guest events keep on the guest's side. */
  lemma GuestSource(c: Config, s: State, e: Event)
    requires Shape(c, s) && IsGuest(e) && Step(c, s, e).Some?
    requires Keys(c, s.src) && Early(s.phase, s.src, s.bulk)
    ensures var src' := Step(c, s, e).value.src;
            Keys(c, src') && Early(s.phase, src', s.bulk) && DiskShape(c, src'.disk)
  {
    match e
    case WriteIssue(keys) => IssueKeys(c, s.src, keys, s.phase.Tracking());
    case WriteEffect(_, _, _, _) =>
    case WriteComplete(w) => FinishKeys(c, s.src, w);
    case WriteSync(_, _, _) =>
    case StopGuest =>
  }

  lemma IssueKeys(c: Config, src: Source, keys: set<Key>, tracking: bool)
    requires Keys(c, src) && forall k :: k in keys ==> c.Has(k)
    ensures Keys(c, src.Issue(keys, tracking))
    ensures !tracking && Untracked(src.writes) ==> Untracked(src.Issue(keys, tracking).writes)
  {
  }

  lemma FinishKeys(c: Config, src: Source, w: nat)
    requires Keys(c, src) && w < |src.writes|
    ensures Keys(c, src.Finish(w)) && (Untracked(src.writes) ==> Untracked(src.Finish(w).writes))
  {
    Removed(src.writes, src.Finish(w).writes, w);
  }

  /** In stage 3 the guest is stopped and has nothing in flight. */
  lemma GuestAway(c: Config, s: State, e: Event)
    requires Shape(c, s) && IsGuest(e) && Step(c, s, e).Some?
    ensures !Quiet(s)
  {
  }

  lemma GuestInv(c: Config, s: State, e: Event)
    requires Inv(c, s) && IsGuest(e) && Step(c, s, e).Some?
    ensures Inv(c, Step(c, s, e).value)
  {
    GuestAway(c, s, e);
    GuestFrame(c, s, e);
    GuestSource(c, s, e);
    GuestSafe(c, s, e);
  }

  // ---------- reads in flight ----------

  lemma SampleMoves(io: Traffic, disk: Disk, i: nat, j: nat)
    requires io.CanSample(disk, i, j)
    ensures var io' := io.Sample(disk, i, j);
            && |io'.pending| == |io.pending| && io'.newest == io.newest && io'.next == io.next
            && (forall h :: 0 <= h < |io.pending| ==>
                  io'.pending[h].key == io.pending[h].key && io'.pending[h].no == io.pending[h].no)
            && (forall h :: 0 <= h < |io.pending| && h != i ==> io'.pending[h] == io.pending[h])
            && (forall b :: Out(io', b) <==> Out(io, b))
  {
  }

  lemma SampleNumbered(io: Traffic, disk: Disk, i: nat, j: nat)
    requires io.CanSample(disk, i, j) && Counted(io) && Numbered(io)
    ensures Counted(io.Sample(disk, i, j)) && Numbered(io.Sample(disk, i, j))
  {
    var io' := io.Sample(disk, i, j);
    SampleMoves(io, disk, i, j);
    assert forall k :: k in io'.latest <==> k in io.latest;
    assert forall b :: Out(io', b) ==> b.key in io'.newest && b.no <= io'.newest[b.key];
    assert forall b, h :: Out(io', b) && 0 <= h < |io'.pending| ==> b.no != io'.pending[h].no;
  }

  lemma SampleReadTracked(io: Traffic, disk: Disk, i: nat, j: nat, h: nat)
    requires io.CanSample(disk, i, j) && Numbered(io) && h < |io.pending| && ReadTracked(io, io.pending[h])
    ensures ReadTracked(io.Sample(disk, i, j), io.Sample(disk, i, j).pending[h])
  {
    if h != i && io.pending[h].key == io.pending[i].key {
      assert io.pending[h].no != io.pending[i].no;
    }
  }

  lemma SampleBlockTracked(io: Traffic, disk: Disk, i: nat, j: nat, b: Block)
    requires io.CanSample(disk, i, j) && Out(io, b) && Numbered(io) && BlockTracked(io, b)
    ensures BlockTracked(io.Sample(disk, i, j), b)
  {
    assert b.no != io.pending[i].no;
  }

  /** The newest block stays where it can be found when blocks keep their numbers. */
  lemma HeldAgain(io: Traffic, io': Traffic, k: Key)
    requires Held(io, k) && k in io'.newest && io'.newest[k] == io.newest[k] && |io'.pending| == |io.pending|
    requires forall h :: 0 <= h < |io.pending|
               ==> io'.pending[h].key == io.pending[h].key && io'.pending[h].no == io.pending[h].no
    requires forall b :: Out(io, b) ==> Out(io', b)
    ensures Held(io', k)
  {
    if exists i :: 0 <= i < |io.pending| && io.pending[i].key == k && io.pending[i].no == io.newest[k] {
      var i :| 0 <= i < |io.pending| && io.pending[i].key == k && io.pending[i].no == io.newest[k];
      assert io'.pending[i].key == k;
    }
  }

  lemma SampleTracks(io: Traffic, disk: Disk, i: nat, j: nat)
    requires io.CanSample(disk, i, j) && Numbered(io) && Tracks(io)
    ensures Tracks(io.Sample(disk, i, j))
  {
    var io' := io.Sample(disk, i, j);
    SampleMoves(io, disk, i, j);
    forall h | 0 <= h < |io'.pending| ensures ReadTracked(io', io'.pending[h]) {
      SampleReadTracked(io, disk, i, j, h);
    }
    forall b | Out(io', b) ensures BlockTracked(io', b) {
      SampleBlockTracked(io, disk, i, j, b);
    }
    forall k | k in io'.newest ensures Held(io', k) {
      HeldAgain(io, io', k);
    }
  }

  lemma SampleBlocks(io: Traffic, disk: Disk, i: nat, j: nat)
    requires io.CanSample(disk, i, j) && Blocks(io)
    ensures Blocks(io.Sample(disk, i, j))
  {
    SampleNumbered(io, disk, i, j);
    SampleTracks(io, disk, i, j);
  }

  /** A sample of the newest block is current. */
  lemma SampleFresh(io: Traffic, disk: Disk, i: nat, j: nat, k: Key)
    requires io.CanSample(disk, i, j) && ReadTracked(io, io.pending[i]) && Fresh(io, disk, k)
    ensures Fresh(io.Sample(disk, i, j), disk, k)
  {
  }

  lemma SampleSafe(c: Config, bulk: seq<nat>, src: Source, io: Traffic, i: nat, j: nat)
    requires io.CanSample(src.disk, i, j) && ReadTracked(io, io.pending[i]) && Safe(c, bulk, src, io)
    ensures Safe(c, bulk, src, io.Sample(src.disk, i, j))
  {
    forall k | c.Has(k) && Passed(bulk, k) ensures Kept(src, io.Sample(src.disk, i, j), k) {
      assert Kept(src, io, k);
      if Fresh(io, src.disk, k) {
        SampleFresh(io, src.disk, i, j, k);
      }
    }
  }

  lemma SampleShape(c: Config, io: Traffic, disk: Disk, i: nat, j: nat)
    requires io.CanSample(disk, i, j) && ReadShape(c, io.pending)
    ensures ReadShape(c, io.Sample(disk, i, j).pending)
  {
  }

  /** A step of a read in flight: it is not stage 3, and the guest's side is not touched. */
  lemma ReadControl(c: Config, s: State, s': State)
    requires Inv(c, s) && s.io.pending != [] && ReadShape(c, s'.io.pending) && s'.io.dropped == s.io.dropped
    requires s' == s.(io := s'.io, inflight := s'.inflight)
    ensures Shape(c, s') && Control(c, s')
  {
  }

  lemma ReadSectorInv(c: Config, s: State, i: nat, j: nat)
    requires Inv(c, s) && s.io.CanSample(s.src.disk, i, j)
    ensures Inv(c, s.(io := s.io.Sample(s.src.disk, i, j)))
  {
    SampleBlocks(s.io, s.src.disk, i, j);
    SampleSafe(c, s.bulk, s.src, s.io, i, j);
    SampleShape(c, s.io, s.src.disk, i, j);
    ReadControl(c, s, s.(io := s.io.Sample(s.src.disk, i, j)));
  }

  lemma CompleteOut(io: Traffic, i: nat, b: Block)
    requires i < |io.pending| && Full(io.pending[i].buf)
    ensures Out(io.Complete(i), b) <==> Out(io, b) || b == AsBlock(io.pending[i])
  {
  }

  /** The completed read leaves the reads in flight and becomes the last queued block. */
  lemma CompleteMoves(io: Traffic, i: nat)
    requires i < |io.pending| && Full(io.pending[i].buf)
    ensures var io' := io.Complete(i);
            && |io'.pending| == |io.pending| - 1
            && (forall h :: 0 <= h < |io'.pending| ==> io'.pending[h] == io.pending[if h < i then h else h + 1])
            && (forall h :: 0 <= h < |io.pending| && h != i ==>
                  io.pending[h] == io'.pending[if h < i then h else h - 1])
            && (forall b :: Out(io', b) <==> Out(io, b) || b == AsBlock(io.pending[i]))
  {
    Removed(io.pending, io.Complete(i).pending, i);
    forall b ensures Out(io.Complete(i), b) <==> Out(io, b) || b == AsBlock(io.pending[i]) {
      CompleteOut(io, i, b);
    }
  }

  lemma CompleteNumbered(io: Traffic, i: nat)
    requires Counted(io) && Numbered(io) && i < |io.pending| && Full(io.pending[i].buf)
    ensures Counted(io.Complete(i)) && Numbered(io.Complete(i))
  {
    CompleteMoves(io, i);
  }

  lemma CompleteHeld(io: Traffic, i: nat, k: Key)
    requires i < |io.pending| && Full(io.pending[i].buf) && Held(io, k)
    ensures Held(io.Complete(i), k)
  {
    var io' := io.Complete(i);
    Removed(io.pending, io'.pending, i);
    if exists h :: 0 <= h < |io.pending| && io.pending[h].key == k && io.pending[h].no == io.newest[k] {
      var h :| 0 <= h < |io.pending| && io.pending[h].key == k && io.pending[h].no == io.newest[k];
      if h == i {
        CompleteOut(io, i, AsBlock(io.pending[i]));
      } else {
        assert io'.pending[if h < i then h else h - 1] == io.pending[h];
      }
    } else {
      var b :| Out(io, b) && b.key == k && b.no == io.newest[k];
      CompleteOut(io, i, b);
    }
  }

  lemma CompleteTracks(io: Traffic, i: nat)
    requires Tracks(io) && i < |io.pending| && Full(io.pending[i].buf)
    ensures Tracks(io.Complete(i))
  {
    var io' := io.Complete(i);
    CompleteMoves(io, i);
    assert ReadTracked(io, io.pending[i]);
    assert Filled(AsBlock(io.pending[i]).data) == io.pending[i].buf;
    forall h | 0 <= h < |io'.pending| ensures ReadTracked(io', io'.pending[h]) {
      assert ReadTracked(io, io.pending[if h < i then h else h + 1]);
    }
    forall b | Out(io', b) ensures BlockTracked(io', b) {
      assert b == AsBlock(io.pending[i]) || BlockTracked(io, b);
    }
    forall k | k in io'.newest ensures Held(io', k) {
      CompleteHeld(io, i, k);
    }
  }

  lemma CompleteShape(c: Config, io: Traffic, i: nat)
    requires i < |io.pending| && Full(io.pending[i].buf) && ReadShape(c, io.pending)
    ensures ReadShape(c, io.Complete(i).pending)
  {
    Removed(io.pending, io.Complete(i).pending, i);
  }

  lemma ReadCompleteInv(c: Config, s: State, i: nat)
    requires Inv(c, s) && i < |s.io.pending| && Full(s.io.pending[i].buf)
    ensures Inv(c, ReadDone(s, i))
  {
    CompleteNumbered(s.io, i);
    CompleteTracks(s.io, i);
    SameSafe(c, s.bulk, s.src, s.io, s.io.Complete(i));
    CompleteShape(c, s.io, i);
    ReadControl(c, s, ReadDone(s, i));
  }

  /** Steps that issue no block keep every chunk safe. */
  lemma SameSafe(c: Config, bulk: seq<nat>, src: Source, io: Traffic, io': Traffic)
    requires Safe(c, bulk, src, io) && io'.newest == io.newest && io'.latest == io.latest
    ensures Safe(c, bulk, src, io')
  {
    forall k | c.Has(k) && Passed(bulk, k) ensures Kept(src, io', k) {
      assert Kept(src, io, k);
    }
  }

  lemma SameTracks(io: Traffic, io': Traffic)
    requires Tracks(io) && io'.pending == io.pending && io'.newest == io.newest && io'.latest == io.latest
    requires forall b :: Out(io', b) <==> Out(io, b)
    ensures Tracks(io')
  {
    forall h | 0 <= h < |io'.pending| ensures ReadTracked(io', io'.pending[h]) {
      assert ReadTracked(io, io.pending[h]);
    }
    forall b | Out(io', b) ensures BlockTracked(io', b) {
      assert BlockTracked(io, b);
    }
    forall k | k in io'.newest ensures Held(io', k) {
      HeldAgain(io, io', k);
    }
  }

  lemma SendHeadBlocks(io: Traffic)
    requires Blocks(io) && io.queue != []
    ensures Blocks(io.SendHead())
  {
    var io' := io.SendHead();
    assert io.queue == [io.queue[0]] + io.queue[1..];
    assert forall b :: Out(io', b) <==> Out(io, b);
    SameTracks(io, io');
  }

  lemma SendHeadInv(c: Config, s: State)
    requires Inv(c, s) && Step(c, s, SendHead).Some?
    ensures Inv(c, s.(io := s.io.SendHead()))
  {
    SendHeadBlocks(s.io);
    SameSafe(c, s.bulk, s.src, s.io, s.io.SendHead());
  }

  lemma DropBlocks(io: Traffic)
    requires Blocks(io) && io.dropped == []
    ensures Blocks(io.Drop())
  {
    assert forall b :: Out(io.Drop(), b) <==> Out(io, b);
    SameTracks(io, io.Drop());
  }

  // ---------- issuing blocks ----------

  lemma IssueMoves(io: Traffic, k: Key, n: nat)
    ensures var io' := io.Issue(k, n);
            && |io'.pending| == |io.pending| + 1
            && io'.pending[|io.pending|] == Read(k, io.next, Blank(n))
            && (forall h :: 0 <= h < |io.pending| ==> io'.pending[h] == io.pending[h])
            && (forall b :: Out(io', b) <==> Out(io, b))
  {
  }

  lemma IssueNumbered(io: Traffic, k: Key, n: nat)
    requires Counted(io) && Numbered(io)
    ensures Counted(io.Issue(k, n)) && Numbered(io.Issue(k, n))
  {
    IssueMoves(io, k, n);
  }

  lemma IssueHeld(io: Traffic, k: Key, n: nat, x: Key)
    requires x == k || Held(io, x)
    ensures Held(io.Issue(k, n), x)
  {
    var io' := io.Issue(k, n);
    IssueMoves(io, k, n);
    if x == k {
      assert io'.pending[|io.pending|].key == k;
    } else if exists i :: 0 <= i < |io.pending| && io.pending[i].key == x && io.pending[i].no == io.newest[x] {
      var i :| 0 <= i < |io.pending| && io.pending[i].key == x && io.pending[i].no == io.newest[x];
      assert io'.pending[i].key == x;
    }
  }

  lemma IssueTracks(io: Traffic, k: Key, n: nat)
    requires Numbered(io) && Tracks(io)
    ensures Tracks(io.Issue(k, n))
  {
    var io' := io.Issue(k, n);
    IssueMoves(io, k, n);
    forall h | 0 <= h < |io'.pending| ensures ReadTracked(io', io'.pending[h]) {
      if h < |io.pending| {
        assert ReadTracked(io, io.pending[h]);
      }
    }
    forall b | Out(io', b) ensures BlockTracked(io', b) {
      assert BlockTracked(io, b);
    }
    forall x | x in io'.newest ensures Held(io', x) {
      IssueHeld(io, k, n, x);
    }
  }

  lemma IssueBlocks(io: Traffic, k: Key, n: nat)
    requires Blocks(io)
    ensures Blocks(io.Issue(k, n))
  {
    IssueNumbered(io, k, n);
    IssueTracks(io, k, n);
  }

  lemma IssueShape(c: Config, io: Traffic, k: Key)
    requires ReadShape(c, io.pending) && c.Has(k)
    ensures ReadShape(c, io.Issue(k, c.Size(k)).pending)
  {
  }

  /** Issuing a block for `k` leaves the other chunks as they were. */
  lemma OtherKept(src: Source, io: Traffic, io': Traffic, k: Key, x: Key)
    requires x != k && Kept(src, io, x) && x in io'.newest
             && (x in io.latest ==> x in io'.latest && io'.latest[x] == io.latest[x])
    ensures Kept(src.Clean(k), io', x)
  {
    assert src.Clean(k).writes == src.writes;
    assert src.Writing(x) ==> src.Clean(k).Writing(x);
  }

  lemma IssueSafe(c: Config, bulk: seq<nat>, src: Source, io: Traffic, k: Key)
    requires Safe(c, bulk, src, io) && c.Has(k) && DiskShape(c, src.disk)
    ensures Safe(c, bulk, src.Clean(k), io.Issue(k, c.Size(k))) && Kept(src.Clean(k), io.Issue(k, c.Size(k)), k)
  {
    var io' := io.Issue(k, c.Size(k));
    assert Fresh(io', src.disk, k);
    forall x | c.Has(x) && Passed(bulk, x) && x != k ensures Kept(src.Clean(k), io', x) {
      OtherKept(src, io, io', k, x);
    }
  }

  lemma SendNowOut(io: Traffic, k: Key, data: Chunk, b: Block)
    ensures Out(io.SendNow(k, data), b) <==> Out(io, b) || b == Block(k, io.next, data)
  {
  }

  lemma SendNowNumbered(io: Traffic, k: Key, data: Chunk)
    requires Numbered(io) && io.pending == []
    ensures Numbered(io.SendNow(k, data))
  {
    forall b ensures Out(io.SendNow(k, data), b) <==> Out(io, b) || b == Block(k, io.next, data) {
      SendNowOut(io, k, data, b);
    }
  }

  lemma SendNowHeld(io: Traffic, k: Key, data: Chunk, x: Key)
    requires x == k || Held(io, x)
    ensures Held(io.SendNow(k, data), x)
  {
    var io' := io.SendNow(k, data);
    if x == k {
      SendNowOut(io, k, data, Block(k, io.next, data));
    } else if exists i :: 0 <= i < |io.pending| && io.pending[i].key == x && io.pending[i].no == io.newest[x] {
      var i :| 0 <= i < |io.pending| && io.pending[i].key == x && io.pending[i].no == io.newest[x];
      assert io'.pending[i].key == x;
    } else {
      var b :| Out(io, b) && b.key == x && b.no == io.newest[x];
      SendNowOut(io, k, data, b);
    }
  }

  lemma SendNowBlock(io: Traffic, k: Key, data: Chunk, b: Block)
    requires Numbered(io) && Tracks(io) && Out(io.SendNow(k, data), b)
    ensures BlockTracked(io.SendNow(k, data), b)
  {
    SendNowOut(io, k, data, b);
    if b != Block(k, io.next, data) {
      assert BlockTracked(io, b);
    }
  }

  lemma SendNowTracks(io: Traffic, k: Key, data: Chunk)
    requires Numbered(io) && Tracks(io) && io.pending == []
    ensures Tracks(io.SendNow(k, data))
  {
    var io' := io.SendNow(k, data);
    forall b | Out(io', b) ensures BlockTracked(io', b) {
      SendNowBlock(io, k, data, b);
    }
    forall x | x in io'.newest ensures Held(io', x) {
      SendNowHeld(io, k, data, x);
    }
  }

  lemma SendNowBlocks(io: Traffic, k: Key, data: Chunk)
    requires Blocks(io) && io.pending == []
    ensures Blocks(io.SendNow(k, data))
  {
    SendNowNumbered(io, k, data);
    SendNowTracks(io, k, data);
  }

  lemma SendNowSafe(c: Config, bulk: seq<nat>, src: Source, io: Traffic, k: Key)
    requires Safe(c, bulk, src, io) && k in src.disk
    ensures Safe(c, bulk, src.Clean(k), io.SendNow(k, src.disk[k]))
  {
    var io' := io.SendNow(k, src.disk[k]);
    assert Fresh(io', src.disk, k);
    forall x | c.Has(x) && Passed(bulk, x) && x != k ensures Kept(src.Clean(k), io', x) {
      OtherKept(src, io, io', k, x);
    }
  }

  // ---------- the bulk phase ----------

  lemma {:induction false} BulkDeviceFound(c: Config, bulk: seq<nat>, d: nat)
    requires |bulk| == |c.total| && d <= |bulk|
    ensures var e := BulkDevice(c, bulk, d);
            && d <= e <= |bulk| && (e < |bulk| ==> bulk[e] < c.Chunks(e))
            && forall x :: d <= x < e ==> bulk[x] >= c.Chunks(x)
    decreases |bulk| - d
  {
    if d < |bulk| && bulk[d] >= c.Chunks(d) {
      BulkDeviceFound(c, bulk, d + 1);
    }
  }

  lemma PassedOne(c: Config, bulk: seq<nat>, d: nat, src: Source, io: Traffic)
    requires d < |bulk| && Safe(c, bulk, src, io) && Kept(src, io, Key(d, bulk[d]))
    ensures Safe(c, bulk[d := bulk[d] + 1], src, io)
  {
    forall x | c.Has(x) && Passed(bulk[d := bulk[d] + 1], x) ensures Kept(src, io, x) {
      if x != Key(d, bulk[d]) {
        assert Passed(bulk, x);
      }
    }
  }

  lemma BulkIssueInv(c: Config, s: State, d: nat)
    requires Inv(c, s) && s.phase == Pumping && !s.bulkCompleted && d < |s.bulk| && s.bulk[d] < c.Chunks(d)
    ensures Inv(c, BulkIssue(c, s, d))
  {
    var k := Key(d, s.bulk[d]);
    IssueBlocks(s.io, k, c.Size(k));
    IssueSafe(c, s.bulk, s.src, s.io, k);
    PassedOne(c, s.bulk, d, s.src.Clean(k), s.io.Issue(k, c.Size(k)));
    IssueShape(c, s.io, k);
  }

  lemma BulkInv(c: Config, s: State)
    requires Inv(c, s) && s.phase == Pumping && !s.bulkCompleted
    ensures Inv(c, BulkStepped(c, s))
  {
    BulkDeviceFound(c, s.bulk, 0);
    var d := BulkDevice(c, s.bulk, 0);
    if d < |s.bulk| {
      BulkIssueInv(c, s, d);
    }
  }

  // ---------- the dirty scan ----------

  lemma ReissueInv(c: Config, s: State, k: Key)
    requires Inv(c, s) && s.phase.Scanning? && s.phase.stage != 3 && c.Has(k)
    ensures Inv(c, Reissue(c, s, k))
  {
    IssueBlocks(s.io, k, c.Size(k));
    IssueSafe(c, s.bulk, s.src, s.io, k);
    IssueShape(c, s.io, k);
  }

  lemma ResendInv(c: Config, s: State, k: Key)
    requires Inv(c, s) && s.phase.Scanning? && s.phase.stage == 3 && k in s.src.disk
    ensures Inv(c, Resend(s, k))
  {
    SendNowBlocks(s.io, k, s.src.disk[k]);
    SendNowSafe(c, s.bulk, s.src, s.io, k);
  }

  /** With every device exhausted nothing is dirty. */
  lemma SweptClean(c: Config, cursor: seq<nat>, src: Source)
    requires |cursor| == |c.total| && Swept(c, cursor, src.dirty) && Exhausted(c, cursor, |cursor|) && Keys(c, src)
    ensures src.dirty == {}
  {
    forall k | c.Has(k) ensures k !in src.dirty {
      assert k.chunk < c.Chunks(k.dev) <= cursor[k.dev];
    }
  }

  lemma ScanOverInv(c: Config, s: State)
    requires Inv(c, s) && s.phase.Scanning? && s.phase.dev >= |s.cursor|
    ensures Inv(c, ScanOver(s, s.phase.stage))
    ensures s.phase.stage == 3 ==> s.src.dirty == {}
  {
    if s.phase.stage == 3 {
      SweptClean(c, s.cursor, s.src);
      DropBlocks(s.io);
      SameSafe(c, s.bulk, s.src, s.io, s.io.Drop());
    }
  }

  /** The chunk under the cursor is clean, or the device has no more chunks. */
  lemma SkipSweep(c: Config, p: Phase, cursor: seq<nat>, dirty: set<Key>)
    requires |cursor| == |c.total| && Sweep(c, p, cursor, dirty) && p.Scanning? && p.dev < |cursor|
    ensures c.Has(Key(p.dev, cursor[p.dev])) && Key(p.dev, cursor[p.dev]) !in dirty ==>
              Sweep(c, p, cursor[p.dev := cursor[p.dev] + 1], dirty)
    ensures !c.Has(Key(p.dev, cursor[p.dev])) ==> Sweep(c, Scanning(p.stage, p.dev + 1), cursor, dirty)
  {
  }

  lemma SkipInv(c: Config, s: State)
    requires Inv(c, s) && s.phase.Scanning? && s.phase.dev < |s.cursor|
    requires var k := Key(s.phase.dev, s.cursor[s.phase.dev]); !c.Has(k) || k !in s.src.dirty
    ensures Inv(c, Examined(c, s, s.phase.stage, s.phase.dev))
  {
    SkipSweep(c, s.phase, s.cursor, s.src.dirty);
  }

  lemma ExamineInv(c: Config, s: State)
    requires Inv(c, s) && s.phase.Scanning?
    ensures Inv(c, Examined(c, s, s.phase.stage, s.phase.dev))
  {
    var d := s.phase.dev;
    if d >= |s.cursor| {
      ScanOverInv(c, s);
    } else if c.Has(Key(d, s.cursor[d])) && Key(d, s.cursor[d]) in s.src.dirty {
      if s.phase.stage == 3 {
        ResendInv(c, s, Key(d, s.cursor[d]));
      } else {
        ReissueInv(c, s, Key(d, s.cursor[d]));
      }
    } else {
      SkipInv(c, s);
    }
  }

  // ---------- moving between the loops ----------

  ghost predicate IsBoundary(e: Event) { e.Begin? || e.DirtyStep? || e.LeavePump? || e.StopSending? }

  lemma BoundaryFrame(c: Config, s: State, e: Event)
    requires Shape(c, s) && IsBoundary(e) && Step(c, s, e).Some?
    ensures Step(c, s, e).value == s.(phase := Step(c, s, e).value.phase, cursor := Step(c, s, e).value.cursor)
  {
    match e
    case Begin(_) =>
    case StopSending =>
    case DirtyStep =>
    case LeavePump =>
  }

  lemma OpenedInv(c: Config, s: State, stage: nat)
    requires Inv(c, s) && s.phase == Sending(stage) && (stage == 3 && c.fullFlush ==> s.io.queue == [])
    ensures Inv(c, Opened(s, stage))
  {
    assert forall d :: 0 <= d < |s.cursor| ==> Opened(s, stage).cursor[d] == 0;
  }

  lemma BeginInv(c: Config, s: State, stage: nat)
    requires Inv(c, s) && CanBegin(s, stage)
    ensures Inv(c, s.(phase := Sending(stage)))
  {
  }

  lemma BoundaryInv(c: Config, s: State, e: Event)
    requires Inv(c, s) && IsBoundary(e) && Step(c, s, e).Some?
    ensures Inv(c, Step(c, s, e).value)
  {
    match e
    case Begin(stage) => BeginInv(c, s, stage);
    case StopSending =>
      if s.phase.Sending? {
        OpenedInv(c, s, s.phase.stage);
      }
    case DirtyStep =>
    case LeavePump =>
  }

  /** Every step keeps the invariant. */
  lemma StepInv(c: Config, s: State, e: Event)
    requires Inv(c, s) && Step(c, s, e).Some?
    ensures Inv(c, Step(c, s, e).value)
  {
    match e
    case ReadSector(i, j) => ReadSectorInv(c, s, i, j);
    case ReadComplete(i) => ReadCompleteInv(c, s, i);
    case SendHead => SendHeadInv(c, s);
    case BulkStep => BulkInv(c, s);
    case Examine => ExamineInv(c, s);
    case Begin(_) => BoundaryInv(c, s, e);
    case DirtyStep => BoundaryInv(c, s, e);
    case LeavePump => BoundaryInv(c, s, e);
    case StopSending => BoundaryInv(c, s, e);
    case _ => GuestInv(c, s, e);
  }
}
