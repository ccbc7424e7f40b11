/**
 What block migration relies on is needed: a flush that is cut short, reads that overtake
 each other, and a write submitted before tracking each end with a destination that differs.
 */
module BlockMigrationLimits {
  import opened Bytes
  import opened Runs
  import opened BlockMigration
  import opened BlockMigrationProof
  import opened BlockMigrationResult
  import opened BlockStageThree
  import opened BlockEarlyWrites
  import opened Units

  // ---------- a flush that is cut short ----------

  /**
   The flush that opens stage 3 hits the rate limit at once: every block is freed unsent, and
   the destination keeps whatever it had.
   */
  lemma CutFlushLosesData(c: Config, s: State, dst: Disk) returns (end: State)
    requires Init(c, s) && s.src.writes == [] && !c.fullFlush
    ensures Leads(Machine(c), Begun(s), end) && end.phase == Done && end.src.disk == s.src.disk
    ensures Load(dst, end.io.sent) == dst
  {
    var t := BulkDone(c, s);
    var f := LeaveStage2(c, s, t);
    end := NothingMore(c, s, f);
  }

  // ---------- reads that overtake each other ----------

  const K: Key := Key(0, 0)

  /** One device with one chunk of one sector. */
  function Start(a: Sector, writes: seq<Write>): State {
    State(Off, Source(true, map[K := [a]], {}, writes, {}), Traffic([], [], [], [], 0, 0, 0, 0, 0, map[], map[]),
          [0], [0], false, {})
  }

  lemma OneChunk(c: Config)
    requires c.total == [1]
    ensures c.Valid() && c.Chunks(0) == 1 && c.Size(K) == 1 && (forall k :: c.Has(k) <==> k == K)
  {
    assert (1 + CHUNK - 1) / CHUNK == 1;
  }

  lemma StartsInit(c: Config, a: Sector, writes: seq<Write>)
    requires c.total == [1] && Untracked(writes) && forall w :: w in writes ==> w.keys <= {K}
    ensures Init(c, Start(a, writes))
  {
    OneChunk(c);
    forall w, k | 0 <= w < |writes| && k in writes[w].keys ensures c.Has(k) {
      assert writes[w] in writes;
      assert k in {K};
    }
  }

  /** In the loop of stage 2, before the first read is issued. */
  function AtPump(a: Sector): State { Start(a, []).(phase := Pumping) }

  lemma ReachPump(c: Config, a: Sector)
    requires c.total == [1]
    ensures Reached(c, Start(a, []), AtPump(a))
  {
    var s := Start(a, []);
    StartsInit(c, a, []);
    LeadsNowhere(Machine(c), Begun(s));
    assert seq(1, _ => 0) == [0];
    Move(c, s, Begun(s), StopSending, s.(phase := Rest));
    Move(c, s, s.(phase := Rest), Begin(2), s.(phase := Sending(2)));
    Move(c, s, s.(phase := Sending(2)), StopSending, AtPump(a));
  }

  /** The blocks issued so far; `first` and `second` are what the two reads have picked up. */
  function Reads(first: Option<Sector>): Traffic {
    Traffic([Read(K, 0, [first])], [], [], [], 1, 0, 0, 1, 1, map[K := 0], map[K := [first]])
  }

  function TwoReads(a: Sector, second: Option<Sector>): Traffic {
    Traffic([Read(K, 0, [Some(a)]), Read(K, 1, [second])], [], [], [], 2, 0, 0, 2, 2, map[K := 1], map[K := [second]])
  }

  /** The bulk phase has issued the chunk and is over. */
  function AfterBulk(a: Sector, first: Option<Sector>): State {
    AtPump(a).(io := Reads(first), bulk := [1], bulkCompleted := true)
  }

  lemma FirstIssue(c: Config, a: Sector)
    requires c.total == [1]
    ensures BulkStepped(c, AtPump(a)) == AfterBulk(a, None).(bulkCompleted := false)
  {
    OneChunk(c);
    assert Blank(1) == [None];
    assert AtPump(a).io.Issue(K, 1) == Reads(None);
    assert AtPump(a).src.Clean(K) == AtPump(a).src;
    assert BulkDevice(c, [0], 0) == 0;
    assert [0][0 := 1] == [1];
  }

  lemma ReachIssue(c: Config, a: Sector)
    requires c.total == [1]
    ensures Reached(c, Start(a, []), AfterBulk(a, None).(bulkCompleted := false))
  {
    ReachPump(c, a);
    FirstIssue(c, a);
    Move(c, Start(a, []), AtPump(a), BulkStep, AfterBulk(a, None).(bulkCompleted := false));
  }

  lemma ReachBulk(c: Config, a: Sector)
    requires c.total == [1]
    ensures Reached(c, Start(a, []), AfterBulk(a, None))
  {
    OneChunk(c);
    ReachIssue(c, a);
    assert BulkDevice(c, [1], 0) == BulkDevice(c, [1], 1) == 1;
    Move(c, Start(a, []), AfterBulk(a, None).(bulkCompleted := false), BulkStep, AfterBulk(a, None));
  }

  lemma ReachRead(c: Config, a: Sector)
    requires c.total == [1]
    ensures Reached(c, Start(a, []), AfterBulk(a, Some(a)))
  {
    ReachBulk(c, a);
    var t := AfterBulk(a, None);
    assert [None][0 := Some(a)] == [Some(a)];
    assert t.io.Sample(t.src.disk, 0, 0) == Reads(Some(a));
    Move(c, Start(a, []), t, ReadSector(0, 0), AfterBulk(a, Some(a)));
  }

  /** The guest has rewritten the chunk while its bulk read is in flight. */
  function Rewritten(a: Sector, b: Sector): State {
    AfterBulk(a, Some(a)).(src := Source(true, map[K := [b]], {K}, [], {}))
  }

  lemma ReachRewritten(c: Config, a: Sector, b: Sector)
    requires c.total == [1]
    ensures Reached(c, Start(a, []), Rewritten(a, b))
  {
    ReachRead(c, a);
    var t := AfterBulk(a, Some(a));
    assert [a][0 := b] == [b];
    assert t.src.WriteNow(K, 0, b, true) == Rewritten(a, b).src;
    Move(c, Start(a, []), t, WriteSync(K, 0, b), Rewritten(a, b));
  }

  /** The dirty phase has issued the chunk again: the in-flight bitmap does not know the bulk read. */
  function Reissued(a: Sector, b: Sector, second: Option<Sector>): State {
    AfterBulk(a, Some(a)).(src := Source(true, map[K := [b]], {}, [], {}), io := TwoReads(a, second), inflight := {K})
  }

  lemma ReachScan(c: Config, a: Sector, b: Sector)
    requires c.total == [1]
    ensures Reached(c, Start(a, []), Rewritten(a, b).(phase := Scanning(2, 0)))
  {
    ReachRewritten(c, a, b);
    Move(c, Start(a, []), Rewritten(a, b), DirtyStep, Rewritten(a, b).(phase := Scanning(2, 0)));
  }

  lemma SecondIssue(c: Config, a: Sector, b: Sector)
    requires c.total == [1]
    ensures c.Has(K) && Reissue(c, Rewritten(a, b).(phase := Scanning(2, 0)), K) == Reissued(a, b, None)
  {
    OneChunk(c);
    assert Blank(1) == [None];
    assert Reads(Some(a)).Issue(K, 1) == TwoReads(a, None);
  }

  lemma ReachReissued(c: Config, a: Sector, b: Sector)
    requires c.total == [1]
    ensures Reached(c, Start(a, []), Reissued(a, b, None))
  {
    ReachScan(c, a, b);
    SecondIssue(c, a, b);
    Move(c, Start(a, []), Rewritten(a, b).(phase := Scanning(2, 0)), Examine, Reissued(a, b, None));
  }

  lemma SecondSample(a: Sector, b: Sector)
    ensures Reissued(a, b, None).io.Sample(map[K := [b]], 1, 0) == TwoReads(a, Some(b))
  {
    assert [None][0 := Some(b)] == [Some(b)];
  }

  lemma ReachTwoReads(c: Config, a: Sector, b: Sector)
    requires c.total == [1]
    ensures Reached(c, Start(a, []), Reissued(a, b, Some(b)))
  {
    ReachReissued(c, a, b);
    SecondSample(a, b);
    Move(c, Start(a, []), Reissued(a, b, None), ReadSector(1, 0), Reissued(a, b, Some(b)));
  }

  /** The younger read has completed. */
  function OneDone(a: Sector, b: Sector): State {
    Reissued(a, b, None).(inflight := {},
      io := Traffic([Read(K, 0, [Some(a)])], [Block(K, 1, [b])], [], [], 1, 1, 0, 2, 2, map[K := 1],
                    map[K := [Some(b)]]))
  }

  lemma SecondCompletes(a: Sector, b: Sector)
    ensures var io := Reissued(a, b, Some(b)).io; |io.pending| == 2 && Full(io.pending[1].buf)
    ensures ReadDone(Reissued(a, b, Some(b)), 1) == OneDone(a, b)
  {
    assert Contents([Some(b)]) == [b];
  }

  lemma ReachOneDone(c: Config, a: Sector, b: Sector)
    requires c.total == [1] && !c.ordered
    ensures Reached(c, Start(a, []), OneDone(a, b))
  {
    ReachTwoReads(c, a, b);
    SecondCompletes(a, b);
    Move(c, Start(a, []), Reissued(a, b, Some(b)), ReadComplete(1), OneDone(a, b));
  }

  /** Both reads have completed, the younger one first. */
  function Overtaken(a: Sector, b: Sector): State {
    Reissued(a, b, None).(inflight := {},
      io := Traffic([], [Block(K, 1, [b]), Block(K, 0, [a])], [], [], 0, 2, 0, 2, 2, map[K := 1], map[K := [Some(b)]]))
  }

  lemma FirstCompletes(a: Sector, b: Sector)
    ensures var io := OneDone(a, b).io; |io.pending| == 1 && Full(io.pending[0].buf)
    ensures ReadDone(OneDone(a, b), 0) == Overtaken(a, b)
  {
    assert Contents([Some(a)]) == [a];
  }

  lemma ReachOvertaken(c: Config, a: Sector, b: Sector)
    requires c.total == [1] && !c.ordered
    ensures Reached(c, Start(a, []), Overtaken(a, b))
  {
    ReachOneDone(c, a, b);
    FirstCompletes(a, b);
    Move(c, Start(a, []), OneDone(a, b), ReadComplete(0), Overtaken(a, b));
  }

  /** The younger read completes first: the old data is sent last and stays. */
  lemma OvertakingLosesData(a: Sector, b: Sector) returns (c: Config, end: State)
    requires a != b
    ensures !c.ordered && c.fullFlush && Init(c, Start(a, [])) && Leads(Machine(c), Begun(Start(a, [])), end)
            && end.phase == Done
    ensures forall dst :: Covers(c, dst) ==> !SameDisk(c, Load(dst, end.io.sent), end.src.disk)
  {
    c := Config([1], false, true);
    OneChunk(c);
    StartsInit(c, a, []);
    ReachOvertaken(c, a, b);
    var f := IntoStage3(c, Start(a, []), Overtaken(a, b));
    end := NothingMore(c, Start(a, []), f);
    assert end.io.sent == [Block(K, 1, [b]), Block(K, 0, [a])];
    forall dst | Covers(c, dst) ensures !SameDisk(c, Load(dst, end.io.sent), end.src.disk) {
      assert K in dst;
      assert Load(dst, end.io.sent)[K] == [a];
      assert end.src.disk[K] == [b];
    }
  }

  // ---------- a write submitted before tracking ----------

  /**
   The guest has one write in flight when stage 1 begins. It reaches the disk after the bulk
   read and is never marked.
   */
  lemma EarlyWriteLosesData(a: Sector) returns (c: Config, end: State)
    ensures var s := Start(a, [Write({K}, false)]);
            c.ordered && c.fullFlush && Init(c, s) && Leads(Machine(c), Begun(s), end) && end.phase == Done
    ensures forall dst :: Covers(c, dst) ==> !SameDisk(c, Load(dst, end.io.sent), end.src.disk)
  {
    c := Config([1], true, true);
    StartsInit(c, a, [Write({K}, false)]);
    end := EarlyWriteLoses(c, Start(a, [Write({K}, false)]), 0, K);
  }
}
