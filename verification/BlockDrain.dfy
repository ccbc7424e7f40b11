/**
 The loops of block-migration.c that stage 3 runs with the guest stopped, as functions:
 `mig_save_device_dirty`, `blk_mig_save_dirty_block` and the loop around it. They are what the
 step machine does undisturbed, and what the methods of `BlockSaver` compute.
 */
module BlockDrain {
  import opened Bytes
  import opened Runs
  import opened BlockMigration
  import opened BlockMigrationProof
  import opened BlockMigrationResult
  import opened BlockStageThree

  /** What the loops change; `fails` says which of the reads to come fail, those after them succeed. */
  datatype Saving = Saving(dirty: set<Key>, cursor: seq<nat>, sent: seq<Block>, next: nat,
                           fails: seq<bool>, error: bool)

  /** The first dirty chunk of device `d` from `from` on, or the number of its chunks. */
  function ScanTo(c: Config, dirty: set<Key>, d: nat, from: nat): (n: nat)
    requires d < |c.total|
    ensures from <= n && (from <= c.Chunks(d) ==> n <= c.Chunks(d))
    ensures n < c.Chunks(d) ==> Key(d, n) in dirty
    decreases c.Chunks(d) - from
  {
    if from < c.Chunks(d) && Key(d, from) !in dirty then ScanTo(c, dirty, d, from + 1) else from
  }

  lemma {:induction false} ScanToSkips(c: Config, dirty: set<Key>, d: nat, from: nat)
    requires d < |c.total|
    ensures forall i :: from <= i < ScanTo(c, dirty, d, from) ==> Key(d, i) !in dirty
    decreases c.Chunks(d) - from
  {
    if from < c.Chunks(d) && Key(d, from) !in dirty {
      ScanToSkips(c, dirty, d, from + 1);
    }
  }

  /** Read `k`, send it and reset its dirty bit; a failed read leaves it for the next round. */
  function Attempt(disk: Disk, s: Saving, k: Key): Saving
    requires k in disk
  {
    if s.fails != [] && s.fails[0] then s.(fails := s.fails[1..], error := true)
    else
      s.(dirty := s.dirty - {k}, sent := s.sent + [Block(k, s.next, disk[k])], next := s.next + 1,
         fails := if s.fails == [] then [] else s.fails[1..])
  }

  /** mig_save_device_dirty: the new state, and whether a dirty chunk was found. */
  function SaveDevice(c: Config, disk: Disk, s: Saving, d: nat): (Saving, bool)
    requires |s.cursor| == |c.total| && d < |s.cursor| && Covers(c, disk)
  {
    var n := ScanTo(c, s.dirty, d, s.cursor[d]);
    var moved := s.(cursor := s.cursor[d := n]);
    if n < c.Chunks(d) then (Attempt(disk, moved, Key(d, n)), true) else (moved, false)
  }

  /** blk_mig_save_dirty_block from device `d` on. */
  function SaveFrom(c: Config, disk: Disk, s: Saving, d: nat): (r: (Saving, bool))
    requires |s.cursor| == |c.total| && Covers(c, disk)
    ensures |r.0.cursor| == |s.cursor|
    ensures r.1 ==> |r.0.dirty| + |r.0.fails| < |s.dirty| + |s.fails|
    ensures !r.1 ==> r.0 == s.(cursor := r.0.cursor)
    decreases |s.cursor| - d
  {
    if d >= |s.cursor| then (s, false)
    else
      var (t, found) := SaveDevice(c, disk, s, d);
      if found then
        AttemptLess(disk, s.(cursor := t.cursor), Key(d, t.cursor[d]));
        (t, true)
      else SaveFrom(c, disk, t, d + 1)
  }

  lemma AttemptLess(disk: Disk, s: Saving, k: Key)
    requires k in disk && k in s.dirty
    ensures var t := Attempt(disk, s, k); |t.dirty| + |t.fails| < |s.dirty| + |s.fails|
  {
    assert s.dirty == (s.dirty - {k}) + {k};
  }

  /** The loop of stage 3. */
  function DrainAll(c: Config, disk: Disk, s: Saving): (r: Saving)
    requires |s.cursor| == |c.total| && Covers(c, disk)
    ensures |r.cursor| == |s.cursor|
    decreases |s.dirty| + |s.fails|
  {
    var (t, more) := SaveFrom(c, disk, s, 0);
    if more then DrainAll(c, disk, t) else t
  }

  // ---------- what the loop does ----------

  /** No dirty chunk is behind the cursor of its device. */
  ghost predicate Ahead(c: Config, dirty: set<Key>, cursor: seq<nat>) {
    |cursor| == |c.total| && forall k :: k in dirty ==> c.Has(k) && k.chunk >= cursor[k.dev]
  }

  lemma ScanAhead(c: Config, dirty: set<Key>, cursor: seq<nat>, d: nat)
    requires Ahead(c, dirty, cursor) && d < |cursor|
    ensures Ahead(c, dirty, cursor[d := ScanTo(c, dirty, d, cursor[d])])
    ensures ScanTo(c, dirty, d, cursor[d]) >= c.Chunks(d) ==> forall k :: k in dirty ==> k.dev != d
  {
    ScanToSkips(c, dirty, d, cursor[d]);
    forall k | k in dirty && k.dev == d ensures k.chunk >= ScanTo(c, dirty, d, cursor[d]) {
      assert k == Key(d, k.chunk);
    }
  }

  lemma SaveAhead(c: Config, disk: Disk, s: Saving, d: nat)
    requires Ahead(c, s.dirty, s.cursor) && Covers(c, disk) && d < |s.cursor|
    ensures Ahead(c, SaveDevice(c, disk, s, d).0.dirty, SaveDevice(c, disk, s, d).0.cursor)
  {
    ScanAhead(c, s.dirty, s.cursor, d);
  }

  /** One call tries to send one dirty chunk, or there is none. */
  lemma {:induction false} SaveTries(c: Config, disk: Disk, s: Saving, d: nat) returns (k: Key)
    requires Ahead(c, s.dirty, s.cursor) && Covers(c, disk) && forall x :: x in s.dirty ==> x.dev >= d
    ensures var (t, more) := SaveFrom(c, disk, s, d);
            && Ahead(c, t.dirty, t.cursor)
            && (more <==> s.dirty != {})
            && (more ==> k in s.dirty && k in disk && t == Attempt(disk, s.(cursor := t.cursor), k))
    decreases |s.cursor| - d
  {
    k := Key(0, 0);
    if d < |s.cursor| {
      ScanAhead(c, s.dirty, s.cursor, d);
      var n := ScanTo(c, s.dirty, d, s.cursor[d]);
      if n < c.Chunks(d) {
        k := Key(d, n);
      } else {
        k := SaveTries(c, disk, SaveDevice(c, disk, s, d).0, d + 1);
      }
    } else {
      assert forall x :: x in s.dirty ==> c.Has(x);
    }
  }

  /** One of the first `n` reads failed. */
  predicate SomeFailed(fails: seq<bool>, n: nat) { n > 0 && fails != [] && (fails[0] || SomeFailed(fails[1..], n - 1)) }

  lemma {:induction false} DrainProgress(c: Config, disk: Disk, s: Saving, before: seq<Block>, all: set<Key>)
    requires Ahead(c, s.dirty, s.cursor) && Covers(c, disk) && Progress(disk, before, s.sent, all, s.dirty)
    ensures var r := DrainAll(c, disk, s); r.dirty == {} && Progress(disk, before, r.sent, all, {})
    decreases |s.dirty| + |s.fails|
  {
    var (t, more) := SaveFrom(c, disk, s, 0);
    var k := SaveTries(c, disk, s, 0);
    if more {
      if t.sent != s.sent {
        ProgressStep(disk, before, s.sent, Block(k, s.next, disk[k]), all, s.dirty);
      }
      DrainProgress(c, disk, t, before, all);
    }
  }

  /** Between `s` and `r` the file error was raised exactly when a read failed. */
  predicate ErrorExact(s: Saving, r: Saving) {
    |r.fails| <= |s.fails| && (r.error <==> s.error || SomeFailed(s.fails, |s.fails| - |r.fails|))
  }

  /** An error of the first read, or of a later one. */
  lemma AttemptErrors(disk: Disk, s: Saving, cursor: seq<nat>, k: Key, r: Saving)
    requires k in disk && ErrorExact(Attempt(disk, s.(cursor := cursor), k), r)
    ensures ErrorExact(s, r)
  {
  }

  lemma NoErrors(s: Saving, cursor: seq<nat>)
    ensures ErrorExact(s, s.(cursor := cursor))
  {
  }

  lemma {:induction false} DrainErrors(c: Config, disk: Disk, s: Saving)
    requires Ahead(c, s.dirty, s.cursor) && Covers(c, disk)
    ensures ErrorExact(s, DrainAll(c, disk, s))
    decreases |s.dirty| + |s.fails|
  {
    var (t, more) := SaveFrom(c, disk, s, 0);
    var k := SaveTries(c, disk, s, 0);
    if more {
      DrainErrors(c, disk, t);
      AttemptErrors(disk, s, t.cursor, k, DrainAll(c, disk, t));
    } else {
      NoErrors(s, t.cursor);
    }
  }

  /**
   The loop ends with nothing dirty, having sent each dirty chunk once with its current data
   and nothing else, however many reads failed in between; the file error is raised exactly
   when one did.
   */
  lemma DrainSends(c: Config, disk: Disk, s: Saving)
    requires Ahead(c, s.dirty, s.cursor) && Covers(c, disk)
    ensures var r := DrainAll(c, disk, s);
            r.dirty == {} && Progress(disk, s.sent, r.sent, s.dirty, {}) && ErrorExact(s, r)
  {
    ProgressStart(disk, s.sent, s.dirty);
    DrainProgress(c, disk, s, s.sent, s.dirty);
    DrainErrors(c, disk, s);
  }

  // ---------- when the loop ends ----------

  /** `n` rounds of the loop, as far as it goes, and whether it goes on after them. */
  function Rounds(c: Config, disk: Disk, s: Saving, n: nat): (r: (Saving, bool))
    requires |s.cursor| == |c.total| && Covers(c, disk)
    ensures |r.0.cursor| == |s.cursor|
  {
    if n == 0 then (s, true)
    else
      var (t, more) := Rounds(c, disk, s, n - 1);
      if more then SaveFrom(c, disk, t, 0) else (t, false)
  }

  /** Reads that succeed among the first `n`; those after the list succeed. */
  function Good(fails: seq<bool>, n: nat): nat {
    if n == 0 then 0 else Good(fails, n - 1) + if n - 1 < |fails| && fails[n - 1] then 0 else 1
  }

  /** The results still to come after `n` reads. */
  function Later(fails: seq<bool>, n: nat): seq<bool> { if n <= |fails| then fails[n..] else [] }

  lemma LaterNext(fails: seq<bool>, n: nat)
    ensures var now := Later(fails, n);
            && Later(fails, n + 1) == (if now == [] then [] else now[1..])
            && ((now != [] && now[0]) <==> (n < |fails| && fails[n]))
  {
  }

  /** As long as the loop goes on, each round is one read, and each good one sends one chunk. */
  ghost predicate Counted(c: Config, s: Saving, n: nat, t: Saving, more: bool) {
    && Ahead(c, t.dirty, t.cursor)
    && (more ==> t.fails == Later(s.fails, n) && |t.dirty| + Good(s.fails, n) == |s.dirty|)
    && (n > 0 ==> (more <==> Good(s.fails, n - 1) < |s.dirty|))
    && (!more ==> t.dirty == {})
  }

  lemma CountedNext(c: Config, disk: Disk, s: Saving, n: nat, t: Saving)
    requires Covers(c, disk) && Counted(c, s, n, t, true)
    ensures var (u, more) := SaveFrom(c, disk, t, 0); Counted(c, s, n + 1, u, more)
  {
    OneRound(c, disk, t, s.fails, n);
  }

  lemma CountedOver(c: Config, s: Saving, n: nat, t: Saving)
    requires Counted(c, s, n, t, false) && n > 0
    ensures Counted(c, s, n + 1, t, false)
  {
    assert Good(s.fails, n) >= Good(s.fails, n - 1);
  }

  lemma {:induction false} RoundsCount(c: Config, disk: Disk, s: Saving, n: nat)
    requires Ahead(c, s.dirty, s.cursor) && Covers(c, disk)
    ensures var (t, more) := Rounds(c, disk, s, n); Counted(c, s, n, t, more)
  {
    if n > 0 {
      RoundsCount(c, disk, s, n - 1);
      var (t, more) := Rounds(c, disk, s, n - 1);
      if more {
        CountedNext(c, disk, s, n - 1, t);
      } else {
        CountedOver(c, s, n - 1, t);
      }
    }
  }

  /** One round with a dirty chunk left is one read; one without ends the loop. */
  lemma OneRound(c: Config, disk: Disk, s: Saving, fails: seq<bool>, n: nat)
    requires Ahead(c, s.dirty, s.cursor) && Covers(c, disk) && s.fails == Later(fails, n)
    ensures var (t, more) := SaveFrom(c, disk, s, 0);
            && Ahead(c, t.dirty, t.cursor) && (more <==> s.dirty != {}) && (!more ==> t.dirty == {})
            && (more ==> t.fails == Later(fails, n + 1) && |t.dirty| + Good(fails, n + 1) == |s.dirty| + Good(fails, n))
  {
    var k := SaveTries(c, disk, s, 0);
    LaterNext(fails, n);
    if s.dirty != {} {
      assert |s.dirty - {k}| == |s.dirty| - 1;
    }
  }

  /**
   The loop is still going after `n` rounds exactly when fewer reads than dirty chunks succeeded in all but the last.
   */
  lemma RoundsExact(c: Config, disk: Disk, s: Saving, n: nat)
    requires Ahead(c, s.dirty, s.cursor) && Covers(c, disk)
    ensures Rounds(c, disk, s, n).1 <==> n == 0 || Good(s.fails, n - 1) < |s.dirty|
  {
    RoundsCount(c, disk, s, n);
  }

  /** Reads that all fail keep the loop going for ever and change nothing. */
  lemma {:induction false} FailingReadsSpin(c: Config, disk: Disk, s: Saving, n: nat)
    requires Ahead(c, s.dirty, s.cursor) && Covers(c, disk) && s.dirty != {}
    requires n <= |s.fails| && forall i :: 0 <= i < n ==> s.fails[i]
    ensures var (t, more) := Rounds(c, disk, s, n);
            && more && t == s.(cursor := t.cursor, fails := s.fails[n..], error := s.error || n > 0)
            && Ahead(c, t.dirty, t.cursor)
  {
    if n > 0 {
      FailingReadsSpin(c, disk, s, n - 1);
      var (t, more) := Rounds(c, disk, s, n - 1);
      var k := SaveTries(c, disk, t, 0);
      assert s.fails[n - 1..][1..] == s.fails[n..];
    }
  }

  /** The first `n` results of an endless sequence of reads. */
  function Outcomes(fails: nat -> bool, n: nat): (f: seq<bool>)
    ensures |f| == n && forall i :: 0 <= i < n ==> f[i] == fails(i)
  {
    seq(n, i requires i >= 0 => fails(i))
  }

  lemma {:induction false} GoodSame(f: seq<bool>, g: seq<bool>, n: nat)
    requires n <= |f| && n <= |g| && forall i :: 0 <= i < n ==> f[i] == g[i]
    ensures Good(f, n) == Good(g, n)
  {
    if n > 0 {
      GoodSame(f, g, n - 1);
    }
  }

  /** With these results to come, the loop is still going after `n` rounds. */
  ghost predicate GoingAfter(c: Config, disk: Disk, s: Saving, fails: nat -> bool, n: nat)
    requires |s.cursor| == |c.total| && Covers(c, disk)
  {
    Rounds(c, disk, s.(fails := Outcomes(fails, n)), n).1
  }

  ghost predicate FewGood(fails: nat -> bool, n: nat, dirty: set<Key>) { Good(Outcomes(fails, n), n) < |dirty| }

  lemma GoingExact(c: Config, disk: Disk, s: Saving, fails: nat -> bool, n: nat)
    requires Ahead(c, s.dirty, s.cursor) && Covers(c, disk)
    ensures GoingAfter(c, disk, s, fails, n) <==> n == 0 || FewGood(fails, n - 1, s.dirty)
  {
    RoundsExact(c, disk, s.(fails := Outcomes(fails, n)), n);
    if n > 0 {
      GoodSame(Outcomes(fails, n), Outcomes(fails, n - 1), n - 1);
    }
  }

  /**
   For every endless sequence of read results: stage 3 never ends if and only if, at every point, fewer reads
   have succeeded than chunks were dirty.
   */
  lemma NeverEnds(c: Config, disk: Disk, s: Saving, fails: nat -> bool)
    requires Ahead(c, s.dirty, s.cursor) && Covers(c, disk)
    ensures (forall n :: GoingAfter(c, disk, s, fails, n)) <==> forall n :: FewGood(fails, n, s.dirty)
  {
    if forall n :: GoingAfter(c, disk, s, fails, n) {
      forall n: nat ensures FewGood(fails, n, s.dirty) {
        GoingExact(c, disk, s, fails, n + 1);
      }
    }
    if forall n :: FewGood(fails, n, s.dirty) {
      forall n: nat ensures GoingAfter(c, disk, s, fails, n) {
        GoingExact(c, disk, s, fails, n);
      }
    }
  }

  /** Where the rounds end is where the loop ends. */
  lemma {:induction false} RoundsDrain(c: Config, disk: Disk, s: Saving, n: nat)
    requires Ahead(c, s.dirty, s.cursor) && Covers(c, disk)
    ensures var (t, more) := Rounds(c, disk, s, n); DrainAll(c, disk, s) == if more then DrainAll(c, disk, t) else t
  {
    if n > 0 {
      RoundsDrain(c, disk, s, n - 1);
    }
  }

  // ---------- the machine does the same ----------

  /** The machine's state as the loops see it, with all reads good. */
  function View(s: State): Saving { Saving(s.src.dirty, s.cursor, s.io.sent, s.io.next, [], false) }

  ghost predicate Scans(c: Config, s: State, d: nat) { Shape(c, s) && Quiet(s) && s.phase == Scanning(3, d) }

  lemma LeadsOn(c: Config, s: State, e: Event, t: State)
    requires Shape(c, s) && Step(c, s, e).Some? && Leads(Machine(c), Step(c, s, e).value, t)
    ensures Leads(Machine(c), s, t)
  {
    assert Machine(c)(s, e) == Step(c, s, e);
    LeadsFrom(Machine(c), s, e, t);
  }

  lemma ExamineOnce(c: Config, s: State, d: nat, t: State)
    requires Scans(c, s, d) && Examined(c, s, 3, d) == t
    ensures Leads(Machine(c), s, t)
  {
    LeadsNowhere(Machine(c), t);
    LeadsOn(c, s, Examine, t);
  }

  /** The state with the cursor of device `d` at `n`. */
  function At(s: State, d: nat, n: nat): State
    requires d < |s.cursor|
  {
    s.(cursor := s.cursor[d := n])
  }

  lemma ScanOne(c: Config, s: State, d: nat, n: nat)
    requires Scans(c, s, d) && d < |s.cursor| && n < c.Chunks(d) && Key(d, n) !in s.src.dirty
    ensures Leads(Machine(c), At(s, d, n), At(s, d, n + 1))
  {
    assert At(s, d, n).cursor[d := n + 1] == s.cursor[d := n + 1];
    ExamineOnce(c, At(s, d, n), d, At(s, d, n + 1));
  }

  /** The scan over clean chunks. */
  lemma {:induction false} ScanLeads(c: Config, s: State, d: nat, n: nat)
    requires Scans(c, s, d) && d < |s.cursor|
    ensures Leads(Machine(c), At(s, d, n), At(s, d, ScanTo(c, s.src.dirty, d, n)))
    decreases c.Chunks(d) - n
  {
    if n < c.Chunks(d) && Key(d, n) !in s.src.dirty {
      ScanOne(c, s, d, n);
      ScanLeads(c, s, d, n + 1);
      LeadsTrans(Machine(c), At(s, d, n), At(s, d, n + 1), At(s, d, ScanTo(c, s.src.dirty, d, n)));
    } else {
      LeadsNowhere(Machine(c), At(s, d, n));
    }
  }

  /** Where the machine is after a call of blk_mig_save_dirty_block. */
  ghost predicate After(s: State, t: State, saved: Saving, more: bool) {
    && View(t) == saved && t.src == s.src.(dirty := saved.dirty, missed := t.src.missed)
    && t.phase == (if more then Draining else Done)
    && (more ==> t.io.queue == s.io.queue && t.io.dropped == s.io.dropped)
    && (!more ==> t.io.queue == [] && t.io.dropped == s.io.queue)
  }

  /** The machine after one device: a dirty chunk is sent, or the scan goes on to the next device. */
  function DeviceScanned(c: Config, s: State, d: nat): State
    requires |s.cursor| == |c.total| && Covers(c, s.src.disk) && d < |s.cursor|
  {
    var n := ScanTo(c, s.src.dirty, d, s.cursor[d]);
    var u := At(s, d, n);
    if n < c.Chunks(d) then Resend(u, Key(d, n)) else u.(phase := Scanning(3, d + 1))
  }

  /** The machine after blk_mig_save_dirty_block from device `d` on. */
  function Scanned(c: Config, s: State, d: nat): State
    requires |s.cursor| == |c.total| && Covers(c, s.src.disk)
    decreases |s.cursor| - d
  {
    if d >= |s.cursor| then ScanOver(s, 3)
    else
      var u := DeviceScanned(c, s, d);
      if u.phase == Draining then u else Scanned(c, u, d + 1)
  }

  lemma DeviceAfter(c: Config, s: State, d: nat)
    requires |s.cursor| == |c.total| && Covers(c, s.src.disk) && d < |s.cursor|
    ensures var (saved, found) := SaveDevice(c, s.src.disk, View(s), d); var u := DeviceScanned(c, s, d);
            && (found <==> u.phase == Draining) && (found ==> After(s, u, saved, true))
            && (!found ==> View(u) == saved && u.src == s.src && u.io == s.io)
  {
  }

  lemma {:induction false} ScannedAfter(c: Config, s: State, d: nat)
    requires |s.cursor| == |c.total| && Covers(c, s.src.disk)
    ensures var (saved, more) := SaveFrom(c, s.src.disk, View(s), d); After(s, Scanned(c, s, d), saved, more)
    decreases |s.cursor| - d
  {
    if d < |s.cursor| {
      DeviceAfter(c, s, d);
      var u := DeviceScanned(c, s, d);
      if u.phase != Draining {
        ScannedAfter(c, u, d + 1);
      }
    }
  }

  lemma DeviceLeads(c: Config, s: State, d: nat)
    requires Scans(c, s, d) && d < |s.cursor|
    ensures Covers(c, s.src.disk) && Leads(Machine(c), s, DeviceScanned(c, s, d))
    ensures DeviceScanned(c, s, d).phase != Draining ==> Scans(c, DeviceScanned(c, s, d), d + 1)
  {
    var n := ScanTo(c, s.src.dirty, d, s.cursor[d]);
    var u := At(s, d, n);
    ExamineOnce(c, u, d, DeviceScanned(c, s, d));
    assert At(s, d, s.cursor[d]) == s;
    ScanLeads(c, s, d, s.cursor[d]);
    LeadsTrans(Machine(c), s, u, DeviceScanned(c, s, d));
  }

  lemma {:induction false} ScannedLeads(c: Config, s: State, d: nat)
    requires Scans(c, s, d)
    ensures Covers(c, s.src.disk) && Leads(Machine(c), s, Scanned(c, s, d))
    decreases |s.cursor| - d
  {
    if d >= |s.cursor| {
      ExamineOnce(c, s, d, ScanOver(s, 3));
    } else {
      DeviceLeads(c, s, d);
      ScansOn(c, s, d, DeviceScanned(c, s, d));
    }
  }

  /** The rest of the scan, from the device after `d`. */
  lemma {:induction false} ScansOn(c: Config, s: State, d: nat, u: State)
    requires |s.cursor| == |c.total| == |u.cursor| && Covers(c, s.src.disk) && d < |s.cursor|
    requires u == DeviceScanned(c, s, d) && Leads(Machine(c), s, u) && (u.phase != Draining ==> Scans(c, u, d + 1))
    ensures Leads(Machine(c), s, Scanned(c, s, d))
    decreases |s.cursor| - d, 0
  {
    if u.phase != Draining {
      ScannedLeads(c, u, d + 1);
      LeadsTrans(Machine(c), s, u, Scanned(c, u, d + 1));
    }
  }

  /** One round of the loop. */
  lemma RoundLeads(c: Config, s: State) returns (t: State)
    requires Shape(c, s) && Quiet(s) && s.phase == Draining
    ensures Covers(c, s.src.disk) && Leads(Machine(c), s, t)
    ensures var (saved, more) := SaveFrom(c, s.src.disk, View(s), 0);
            After(s, t, saved, more) && (more ==> Shape(c, t) && Quiet(t))
  {
    var u := s.(phase := Scanning(3, 0));
    ScannedLeads(c, u, 0);
    ScannedAfter(c, u, 0);
    t := Scanned(c, u, 0);
    LeadsOn(c, s, DirtyStep, t);
    StillShaped(c, s, t);
  }

  lemma StillShaped(c: Config, s: State, t: State)
    requires Shape(c, s) && Quiet(s) && InLoop(s.phase) && Leads(Machine(c), s, t)
    ensures Shape(c, t) && Quiet(t)
  {
    var events :| Run(Machine(c), s, events) == Some(t);
    QuietRun(c, s, events);
  }

  lemma {:induction false} QuietRun(c: Config, s: State, events: seq<Event>)
    requires Shape(c, s) && Quiet(s) && InLoop(s.phase) && Run(Machine(c), s, events).Some?
    ensures var t := Run(Machine(c), s, events).value; Shape(c, t) && Quiet(t) && InLoop(t.phase)
    decreases |events|
  {
    if events != [] {
      var n := |events| - 1;
      QuietRun(c, s, events[..n]);
      QuietStep(c, Run(Machine(c), s, events[..n]).value, events[n]);
    }
  }

  lemma QuietStep(c: Config, s: State, e: Event)
    requires Shape(c, s) && Quiet(s) && InLoop(s.phase) && Step(c, s, e).Some?
    ensures var t := Step(c, s, e).value; Shape(c, t) && Quiet(t) && InLoop(t.phase)
  {
    if IsGuest(e) {
      GuestAway(c, s, e);
    }
  }

  lemma AfterBoth(s: State, t: State, u: State, saved: Saving, last: Saving)
    requires After(s, t, saved, true) && After(t, u, last, false)
    ensures After(s, u, last, false)
  {
  }

  /** Undisturbed, the machine's loop of stage 3 is the loop of the code. */
  lemma {:induction false} DrainLeads(c: Config, s: State) returns (t: State)
    requires Shape(c, s) && Quiet(s) && s.phase == Draining
    ensures Covers(c, s.src.disk) && Leads(Machine(c), s, t) && After(s, t, DrainAll(c, s.src.disk, View(s)), false)
    decreases |s.src.dirty|
  {
    t := RoundLeads(c, s);
    var (saved, more) := SaveFrom(c, s.src.disk, View(s), 0);
    if more {
      var u := t;
      t := DrainLeads(c, u);
      LeadsTrans(Machine(c), s, u, t);
      AfterBoth(s, u, t, saved, DrainAll(c, s.src.disk, saved));
    }
  }
}
