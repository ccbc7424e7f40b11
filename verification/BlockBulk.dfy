/**
 The bulk phase of block-migration.c: `mig_save_device_bulk`, `blk_mig_save_bulked_block` and the loop of
 stage 2 around them as methods, and the order in which they issue the chunks.
 */
module BlockBulk {
  import opened Bytes
  import opened Units
  import opened Runs
  import opened BlockMigration
  import opened BlockMigrationResult
  import D = BlockDrain

  // ---------- the chunks still to be issued ----------

  /** All chunks not issued yet from device `d` on: device by device, chunk by chunk. */
  function Left(c: Config, bulk: seq<nat>, d: nat): seq<Key>
    requires |bulk| == |c.total|
    decreases |bulk| - d, if d < |bulk| then c.Chunks(d) - bulk[d] else 0
  {
    if d >= |bulk| then []
    else if bulk[d] >= c.Chunks(d) then Left(c, bulk, d + 1)
    else [Key(d, bulk[d])] + Left(c, bulk[d := bulk[d] + 1], d)
  }

  predicate Before(a: Key, b: Key) { a.dev < b.dev || (a.dev == b.dev && a.chunk < b.chunk) }

  ghost predicate Ordered(keys: seq<Key>) { forall i, j :: 0 <= i < j < |keys| ==> Before(keys[i], keys[j]) }

  lemma OrderedCons(k: Key, keys: seq<Key>)
    requires Ordered(keys) && forall x :: x in keys ==> Before(k, x)
    ensures Ordered([k] + keys)
  {
  }

  /** Chunk `k` has not been issued, and belongs to device `d` or a later one. */
  predicate IsLeft(c: Config, bulk: seq<nat>, d: nat, k: Key)
    requires |bulk| == |c.total|
  {
    d <= k.dev && c.Has(k) && bulk[k.dev] <= k.chunk
  }

  lemma {:induction false} InLeft(c: Config, bulk: seq<nat>, d: nat, k: Key)
    requires |bulk| == |c.total|
    ensures k in Left(c, bulk, d) <==> IsLeft(c, bulk, d, k)
    decreases |bulk| - d, if d < |bulk| then c.Chunks(d) - bulk[d] else 0
  {
    if d < |bulk| {
      if bulk[d] >= c.Chunks(d) {
        InLeft(c, bulk, d + 1, k);
      } else {
        InLeft(c, bulk[d := bulk[d] + 1], d, k);
      }
    }
  }

  lemma {:induction false} LeftOrdered(c: Config, bulk: seq<nat>, d: nat)
    requires |bulk| == |c.total|
    ensures Ordered(Left(c, bulk, d))
    decreases |bulk| - d, if d < |bulk| then c.Chunks(d) - bulk[d] else 0
  {
    if d < |bulk| {
      if bulk[d] >= c.Chunks(d) {
        LeftOrdered(c, bulk, d + 1);
      } else {
        var next := bulk[d := bulk[d] + 1];
        LeftOrdered(c, next, d);
        forall x | x in Left(c, next, d) ensures Before(Key(d, bulk[d]), x) {
          InLeft(c, next, d, x);
        }
        OrderedCons(Key(d, bulk[d]), Left(c, next, d));
      }
    }
  }

  /** Every chunk that is left is there, once, and nothing else. */
  lemma LeftAre(c: Config, bulk: seq<nat>)
    requires |bulk| == |c.total|
    ensures Ordered(Left(c, bulk, 0)) && forall k :: k in Left(c, bulk, 0) <==> c.Has(k) && bulk[k.dev] <= k.chunk
  {
    LeftOrdered(c, bulk, 0);
    forall k ensures k in Left(c, bulk, 0) <==> c.Has(k) && bulk[k.dev] <= k.chunk {
      InLeft(c, bulk, 0, k);
    }
  }

  /** The device the next round works on has the first chunk that is left. */
  lemma {:induction false} LeftNext(c: Config, bulk: seq<nat>, d: nat)
    requires |bulk| == |c.total|
    ensures var e := BulkDevice(c, bulk, d);
            if e < |bulk| then
              && d <= e && c.Has(Key(e, bulk[e]))
              && Left(c, bulk, d) == [Key(e, bulk[e])] + Left(c, bulk[e := bulk[e] + 1], d)
            else Left(c, bulk, d) == []
    decreases |bulk| - d
  {
    if d < |bulk| && bulk[d] >= c.Chunks(d) {
      LeftNext(c, bulk, d + 1);
    }
  }

  // ---------- rounds of the bulk phase ----------

  /** `n` rounds, as far as the bulk phase goes. */
  function BulkRounds(c: Config, s: State, n: nat): (t: State)
    requires |s.bulk| == |c.total|
    ensures |t.bulk| == |c.total|
  {
    if n == 0 then s
    else
      var t := BulkRounds(c, s, n - 1);
      if t.bulkCompleted then t else BulkStepped(c, t)
  }

  /** The reads of these chunks, numbered from `next` on. */
  function ReadsOf(c: Config, keys: seq<Key>, next: nat): seq<Read>
    requires forall k :: k in keys ==> c.Has(k)
  {
    if keys == [] then []
    else
      var n := |keys| - 1;
      ReadsOf(c, keys[..n], next) + [Read(keys[n], next + n, Blank(c.Size(keys[n])))]
  }

  ghost function KeysOf(keys: seq<Key>): set<Key> { set k | k in keys }

  /** From `s` to `t` the chunks `keys` were issued, in this order. */
  ghost predicate Issued(c: Config, s: State, keys: seq<Key>, t: State) {
    && (forall k :: k in keys ==> c.Has(k))
    && t.io.pending == s.io.pending + ReadsOf(c, keys, s.io.next)
    && t.io.submitted == s.io.submitted + |keys| && t.io.next == s.io.next + |keys|
    && t.src.disk == s.src.disk && t.src.dirty == s.src.dirty - KeysOf(keys)
  }

  lemma IssuedOne(c: Config, s: State, keys: seq<Key>, t: State, k: Key, u: State)
    requires Issued(c, s, keys, t) && c.Has(k) && u.src == t.src.Clean(k) && u.io == t.io.Issue(k, c.Size(k))
    ensures Issued(c, s, keys + [k], u)
  {
    var more := keys + [k];
    assert more[..|keys|] == keys && more[|keys|] == k;
    assert KeysOf(more) == KeysOf(keys) + {k};
    assert t.io.pending + [Read(k, t.io.next, Blank(c.Size(k)))] == s.io.pending + ReadsOf(c, more, s.io.next);
  }

  /**
   Round `n` issues chunk number `n` of those left at the start, device by device and chunk by chunk; when all
   are issued, one more round ends the phase.
   */
  lemma {:induction false} BulkIssues(c: Config, s: State, n: nat)
    requires |s.bulk| == |c.total| && !s.bulkCompleted
    ensures var left, t := Left(c, s.bulk, 0), BulkRounds(c, s, n);
            if n <= |left| then Left(c, t.bulk, 0) == left[n..] && Issued(c, s, left[..n], t) && !t.bulkCompleted
            else Issued(c, s, left, t) && t.bulkCompleted
  {
    var left := Left(c, s.bulk, 0);
    if n == 0 {
      assert left[0..] == left;
    } else {
      BulkIssues(c, s, n - 1);
      BulkIssuesNext(c, s, left, n - 1, BulkRounds(c, s, n - 1));
    }
  }

  lemma BulkIssuesNext(c: Config, s: State, left: seq<Key>, n: nat, t: State)
    requires |t.bulk| == |c.total|
    requires if n <= |left| then Left(c, t.bulk, 0) == left[n..] && Issued(c, s, left[..n], t) && !t.bulkCompleted
             else Issued(c, s, left, t) && t.bulkCompleted
    ensures var u := if t.bulkCompleted then t else BulkStepped(c, t);
            if n + 1 <= |left| then Left(c, u.bulk, 0) == left[n + 1..] && Issued(c, s, left[..n + 1], u)
               && !u.bulkCompleted
            else Issued(c, s, left, u) && u.bulkCompleted
  {
    if n <= |left| {
      LeftNext(c, t.bulk, 0);
      if n < |left| {
        var u := BulkStepped(c, t);
        assert left[n..][0] == left[n] && left[n..][1..] == left[n + 1..];
        IssuedOne(c, s, left[..n], t, left[n], u);
        assert left[..n] + [left[n]] == left[..n + 1];
      } else {
        assert left[..n] == left;
      }
    }
  }

  /** A round keeps the shape of the state. */
  lemma BulkShape(c: Config, t: State)
    requires Shape(c, t)
    ensures Shape(c, BulkStepped(c, t)) && BulkStepped(c, t).phase == t.phase
  {
  }

  /** What a round keeps, all of them keep. */
  lemma {:induction false} RoundsKeep(p: State -> bool, c: Config, s: State, n: nat)
    requires |s.bulk| == |c.total| && p(s)
    requires forall t :: p(t) && |t.bulk| == |c.total| && !t.bulkCompleted ==> p(BulkStepped(c, t))
    ensures p(BulkRounds(c, s, n))
  {
    if n > 0 {
      RoundsKeep(p, c, s, n - 1);
    }
  }

  ghost predicate Pumped(c: Config, s: State, t: State) {
    Shape(c, t) && t.phase == Pumping && Leads(Machine(c), s, t)
  }

  lemma PumpedOnce(c: Config, s: State, t: State)
    requires Pumped(c, s, t) && !t.bulkCompleted
    ensures Pumped(c, s, BulkStepped(c, t))
  {
    BulkShape(c, t);
    assert Machine(c)(t, BulkStep) == Step(c, t, BulkStep);
    LeadsThen(Machine(c), s, t, BulkStep);
  }

  /** The machine runs the bulk phase. */
  lemma BulkLeads(c: Config, s: State, n: nat)
    requires Shape(c, s) && s.phase == Pumping
    ensures Leads(Machine(c), s, BulkRounds(c, s, n))
  {
    LeadsNowhere(Machine(c), s);
    forall t | Pumped(c, s, t) && !t.bulkCompleted ensures Pumped(c, s, BulkStepped(c, t)) {
      PumpedOnce(c, s, t);
    }
    RoundsKeep(t => Pumped(c, s, t), c, s, n);
    assert Pumped(c, s, BulkRounds(c, s, n));
  }

  // ---------- reads that cannot be issued ----------

  /** The next read cannot be issued. */
  predicate Refused(refusals: seq<bool>) { refusals != [] && refusals[0] }

  /** A round whose read, if it gets to one, is refused or not. */
  function TryRound(c: Config, t: State, refused: bool): (u: State)
    requires |t.bulk| == |c.total|
    ensures |u.bulk| == |c.total|
  {
    if t.bulkCompleted || (refused && Left(c, t.bulk, 0) != []) then t else BulkStepped(c, t)
  }

  function Tried(c: Config, s: State, refusals: seq<bool>, n: nat): (t: State)
    requires |s.bulk| == |c.total|
    ensures |t.bulk| == |c.total|
  {
    if n == 0 then s else TryRound(c, Tried(c, s, refusals, n - 1), Refused(D.Later(refusals, n - 1)))
  }

  lemma RoundsNext(c: Config, s: State, g: nat)
    requires |s.bulk| == |c.total| && !s.bulkCompleted && g <= |Left(c, s.bulk, 0)|
    ensures var t, left := BulkRounds(c, s, g), |Left(c, s.bulk, 0)|;
            && !t.bulkCompleted && BulkStepped(c, t) == BulkRounds(c, s, g + 1)
            && (Left(c, t.bulk, 0) == [] <==> g == left) && (BulkStepped(c, t).bulkCompleted <==> g == left)
  {
    BulkIssues(c, s, g);
    BulkIssues(c, s, g + 1);
  }

  /** `t` is where the granted rounds alone lead, or the end of the phase. */
  ghost predicate Granted(c: Config, s: State, t: State, good: nat, left: nat)
    requires |s.bulk| == |c.total|
  {
    if t.bulkCompleted then t == BulkRounds(c, s, left + 1) else good <= left && t == BulkRounds(c, s, good)
  }

  lemma GrantedNext(c: Config, s: State, t: State, good: nat, left: nat, refused: bool)
    requires |s.bulk| == |c.total| == |t.bulk| && !s.bulkCompleted && left == |Left(c, s.bulk, 0)|
    requires Granted(c, s, t, good, left)
    ensures var u := TryRound(c, t, refused);
            && Granted(c, s, u, good + if refused then 0 else 1, left)
            && (u.bulkCompleted <==> t.bulkCompleted || good == left)
  {
    if !t.bulkCompleted {
      RoundsNext(c, s, good);
    }
  }

  /**
   Refused reads only cost rounds: the state is that of the granted rounds alone, and the phase is over after
   `n` rounds exactly when all but the last of them could issue every chunk that was left.
   */
  lemma {:induction false} TriedExact(c: Config, s: State, refusals: seq<bool>, n: nat, left: nat)
    requires |s.bulk| == |c.total| && !s.bulkCompleted && left == |Left(c, s.bulk, 0)|
    ensures var t := Tried(c, s, refusals, n);
            && Granted(c, s, t, D.Good(refusals, n), left)
            && (t.bulkCompleted <==> n > 0 && D.Good(refusals, n - 1) >= left)
  {
    if n > 0 {
      TriedExact(c, s, refusals, n - 1, left);
      D.LaterNext(refusals, n - 1);
      GrantedNext(c, s, Tried(c, s, refusals, n - 1), D.Good(refusals, n - 1), left, Refused(D.Later(refusals, n - 1)));
    }
  }

  // ---------- the code ----------

  /** BLOCK_SIZE. */
  const BLOCK_SIZE: nat := CHUNK * 512

  /** The loop of stage 2 makes another round of the bulk phase. */
  predicate GoesOn(s: State, rate: nat) {
    (s.io.submitted + s.io.readDone) * BLOCK_SIZE < rate && !s.bulkCompleted
  }

  /** `n` rounds have been made, each because the loop went on, and have led to `t`. */
  ghost predicate RoundsMade(c: Config, s: State, rate: nat, n: nat, t: State)
    requires |s.bulk| == |c.total|
  {
    t == BulkRounds(c, s, n) && forall m: nat :: m < n ==> GoesOn(BulkRounds(c, s, m), rate)
  }

  lemma RoundsMore(c: Config, s: State, rate: nat, n: nat, t: State, refused: bool) returns (n': nat)
    requires |s.bulk| == |c.total| == |t.bulk| && RoundsMade(c, s, rate, n, t) && GoesOn(t, rate)
    ensures RoundsMade(c, s, rate, n', TryRound(c, t, refused))
  {
    n' := if TryRound(c, t, refused) == t then n else n + 1;
  }

  /** The number of rounds is the first at which the loop does not go on. */
  lemma RoundsOver(c: Config, s: State, rate: nat, n: nat, t: State)
    requires |s.bulk| == |c.total| && RoundsMade(c, s, rate, n, t) && !GoesOn(t, rate)
    ensures t == BulkRounds(c, s, n) && (forall m: nat :: m < n ==> GoesOn(BulkRounds(c, s, m), rate))
    ensures t.bulkCompleted || (t.io.submitted + t.io.readDone) * BLOCK_SIZE >= rate
    ensures (s.io.submitted + s.io.readDone) * BLOCK_SIZE >= rate ==> n == 0
  {
    assert n > 0 ==> GoesOn(BulkRounds(c, s, 0), rate);
  }

  /** Where `cur_sector` can be: at the start of a chunk, or at the end of the device. */
  predicate Position(total: nat, sector: nat) { sector <= total && (sector % CHUNK == 0 || sector == total) }

  /** The chunks before `cur_sector`. */
  function Passed(sector: nat): nat { (sector + CHUNK - 1) / CHUNK }

  lemma PassedAll(c: Config, d: nat, sector: nat)
    requires d < |c.total| && Position(c.total[d], sector)
    ensures sector >= c.total[d] <==> Passed(sector) >= c.Chunks(d)
  {
  }

  /** The chunk at `cur_sector`, and where the cursor goes behind it. */
  lemma ChunkAt(c: Config, d: nat, sector: nat, nr: nat)
    requires d < |c.total| && Position(c.total[d], sector) && sector < c.total[d]
    requires nr == if c.total[d] - sector < CHUNK then c.total[d] - sector else CHUNK
    ensures sector - sector % CHUNK == sector && sector / CHUNK == Passed(sector)
    ensures c.Has(Key(d, Passed(sector))) && c.Size(Key(d, Passed(sector))) == nr
    ensures Position(c.total[d], sector + nr) && Passed(sector + nr) == Passed(sector) + 1
  {
  }

  ghost predicate Positions(c: Config, cur: seq<nat>) {
    |cur| == |c.total| && forall d :: 0 <= d < |cur| ==> Position(c.total[d], cur[d])
  }

  /** `cur` gives the same positions in sectors as `bulk` in chunks. */
  ghost predicate SamePlaces(cur: seq<nat>, bulk: seq<nat>) {
    |bulk| == |cur| && forall d :: 0 <= d < |cur| ==> bulk[d] == Passed(cur[d])
  }

  lemma MoveOn(c: Config, cur: seq<nat>, bulk: seq<nat>, d: nat, nr: nat)
    requires Positions(c, cur) && SamePlaces(cur, bulk) && d < |cur| && cur[d] < c.total[d]
    requires nr == if c.total[d] - cur[d] < CHUNK then c.total[d] - cur[d] else CHUNK
    ensures cur[d] - cur[d] % CHUNK == cur[d] && cur[d] / CHUNK == bulk[d]
    ensures c.Has(Key(d, bulk[d])) && c.Size(Key(d, bulk[d])) == nr
    ensures Positions(c, cur[d := cur[d] + nr]) && SamePlaces(cur[d := cur[d] + nr], bulk[d := bulk[d] + 1])
  {
    ChunkAt(c, d, cur[d], nr);
  }

  lemma IssueParts(c: Config, s: State, d: nat)
    requires d < |s.bulk| && c.Has(Key(d, s.bulk[d]))
    ensures var k, t := Key(d, s.bulk[d]), BulkIssue(c, s, d);
            && t.src == s.src.Clean(k) && t.io == s.io.Issue(k, c.Size(k))
            && t.bulk == s.bulk[d := s.bulk[d] + 1] && t.bulkCompleted == s.bulkCompleted
  {
  }

  /** What the loop of the bulk phase uses up. */
  ghost function Work(c: Config, t: State, refusals: seq<bool>): nat
    requires |t.bulk| == |c.total|
  {
    |Left(c, t.bulk, 0)| + |refusals| + if t.bulkCompleted then 0 else 1
  }

  lemma WorkLess(c: Config, t: State, refusals: seq<bool>)
    requires |t.bulk| == |c.total| && !t.bulkCompleted
    ensures Left(c, t.bulk, 0) == [] ==> Work(c, BulkStepped(c, t), refusals) < Work(c, t, refusals)
    ensures Left(c, t.bulk, 0) != [] ==>
              if Refused(refusals) then Work(c, t, D.Later(refusals, 1)) < Work(c, t, refusals)
              else Work(c, BulkStepped(c, t), D.Later(refusals, 1)) < Work(c, t, refusals)
    ensures Left(c, t.bulk, 0) == [] ==> BulkStepped(c, t) == t.(bulkCompleted := true)
  {
    LeftNext(c, t.bulk, 0);
  }

  class BulkSaver {
    const c: Config
    var curSector: seq<nat>      // cur_sector per device
    var bulkDone: seq<bool>      // bulk_completed per device
    var bulkCompleted: bool      // block_mig_state.bulk_completed
    var src: Source
    var io: Traffic
    var refusals: seq<bool>      // which of the reads to come cannot be issued; later ones can
    var error: bool              // the file error

    ghost predicate Valid()
      reads this
    {
      && Positions(c, curSector) && |bulkDone| == |c.total|
      && forall d :: 0 <= d < |bulkDone| ==> (bulkDone[d] <==> curSector[d] >= c.total[d])
    }

    /** The machine's state as the bulk phase sees it. */
    ghost predicate Shows(s: State)
      reads this
    {
      s.src == src && s.io == io && s.bulkCompleted == bulkCompleted && SamePlaces(curSector, s.bulk)
    }

    /** From `s`, device `d` has issued its next chunk, unless the read was refused. */
    ghost predicate Shifted(s: State, d: nat, refused: bool)
      requires d < |s.bulk|
      reads this
    {
      c.Has(Key(d, s.bulk[d])) && Shows(if refused then s else BulkIssue(c, s, d))
    }

    /** Issue a read of a chunk and reset its dirty bit, or raise the file error. */
    method TryIssue(k: Key, nr: nat) returns (issued: bool)
      modifies this`src, this`io, this`refusals, this`error
      ensures issued == !Refused(old(refusals)) && refusals == D.Later(old(refusals), 1)
              && error == (old(error) || !issued)
      ensures src == (if issued then old(src).Clean(k) else old(src))
              && io == if issued then old(io).Issue(k, nr) else old(io)
    {
      issued := !Refused(refusals);
      refusals := D.Later(refusals, 1);
      if issued {
        io := io.Issue(k, nr);
        src := src.Clean(k);
      } else {
        error := true;
      }
    }

    /**
     `mig_save_device_bulk`: issue a read of the device's next chunk and reset the chunk's dirty bit. A read
     that cannot be issued raises the file error and changes nothing else; nor does a device that is through.
     */
    method MigSaveDeviceBulk(d: nat, ghost s: State) returns (finished: bool)
      requires Valid() && Shows(s) && d < |c.total|
      modifies this`curSector, this`src, this`io, this`refusals, this`error
      ensures Positions(c, curSector) && curSector == old(curSector)[d := curSector[d]]
      ensures finished <==> curSector[d] >= c.total[d]
      ensures old(curSector)[d] >= c.total[d] ==> Shows(s) && refusals == old(refusals) && error == old(error)
      ensures old(curSector)[d] < c.total[d] ==>
                && Shifted(s, d, Refused(old(refusals))) && (error <==> old(error) || Refused(old(refusals)))
                && refusals == D.Later(old(refusals), 1)
    {
      var total, sector := c.total[d], curSector[d];
      if sector >= total {
        curSector := curSector[d := total];
        return true;
      }
      var start := sector - sector % CHUNK;
      var nr := if total - start < CHUNK then total - start else CHUNK;
      MoveOn(c, curSector, s.bulk, d, nr);
      IssueParts(c, s, d);
      var issued := TryIssue(Key(d, start / CHUNK), nr);
      if !issued {
        return false;
      }
      curSector := curSector[d := start + nr];
      finished := curSector[d] >= total;
    }

    /** `blk_mig_save_bulked_block`: the first device whose bulk phase is not over issues a chunk. */
    method SaveBulkedBlock(ghost s: State) returns (more: bool)
      requires Valid() && Shows(s) && !bulkCompleted
      modifies this`curSector, this`bulkDone, this`src, this`io, this`refusals, this`error
      ensures Valid() && (more <==> Left(c, s.bulk, 0) != [])
      ensures Shows(if more && !Refused(old(refusals)) then BulkStepped(c, s) else s)
      ensures error <==> old(error) || (more && Refused(old(refusals)))
      ensures refusals == if more then D.Later(old(refusals), 1) else old(refusals)
    {
      LeftNext(c, s.bulk, 0);
      var d := 0;
      while d < |c.total|
        invariant d <= |c.total| && BulkDevice(c, s.bulk, d) == BulkDevice(c, s.bulk, 0)
        invariant Valid() && Shows(s) && refusals == old(refusals) && error == old(error)
      {
        PassedAll(c, d, curSector[d]);
        if !bulkDone[d] {
          var finished := MigSaveDeviceBulk(d, s);
          if finished {
            bulkDone := bulkDone[d := true];
          }
          return true;
        }
        d := d + 1;
      }
      more := false;
    }

    /** One round of the loop: `u` is the machine's state after it. */
    method BulkRound(ghost t: State) returns (ghost u: State)
      requires Valid() && Shows(t) && !bulkCompleted
      modifies this`curSector, this`bulkDone, this`bulkCompleted, this`src, this`io, this`refusals, this`error
      ensures Valid() && Shows(u) && u == TryRound(c, t, Refused(old(refusals)))
      ensures Work(c, u, refusals) < Work(c, t, old(refusals))
    {
      WorkLess(c, t, refusals);
      u := TryRound(c, t, Refused(refusals));
      var more := SaveBulkedBlock(t);
      if !more {
        bulkCompleted := true;
      }
    }

    /**
     The loop of stage 2 as long as the bulk phase lasts: it makes exactly the rounds before which the reads in
     flight and in line are below the rate limit and the bulk phase is not over.
     */
    method BulkPhase(rate: nat, ghost s: State) returns (ghost n: nat)
      requires Valid() && Shows(s)
      modifies this`curSector, this`bulkDone, this`bulkCompleted, this`src, this`io, this`refusals, this`error
      ensures Valid() && Shows(BulkRounds(c, s, n)) && !GoesOn(BulkRounds(c, s, n), rate)
      ensures forall m: nat :: m < n ==> GoesOn(BulkRounds(c, s, m), rate)
      ensures bulkCompleted || (io.submitted + io.readDone) * BLOCK_SIZE >= rate
      ensures (s.io.submitted + s.io.readDone) * BLOCK_SIZE >= rate ==> n == 0
    {
      ghost var t;
      n, t := BulkLoop(rate, s);
      RoundsOver(c, s, rate, n, t);
    }

    method BulkLoop(rate: nat, ghost s: State) returns (ghost n: nat, ghost t: State)
      requires Valid() && Shows(s)
      modifies this`curSector, this`bulkDone, this`bulkCompleted, this`src, this`io, this`refusals, this`error
      ensures Valid() && Shows(t) && RoundsMade(c, s, rate, n, t) && !GoesOn(t, rate)
    {
      n, t := 0, s;
      while (io.submitted + io.readDone) * BLOCK_SIZE < rate && !bulkCompleted
        invariant Valid() && Shows(t) && RoundsMade(c, s, rate, n, t)
        decreases Work(c, t, refusals)
      {
        ghost var refused := Refused(refusals);
        ghost var u := BulkRound(t);
        n := RoundsMore(c, s, rate, n, t, refused);
        t := u;
      }
    }
  }
}
