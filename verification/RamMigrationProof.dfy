/**
 Every page is always dirty, logged, in the sender's hands, or already equal at the
 receiver; so when stage 3 returns the receiver's RAM is the source's RAM.
 */
module RamMigrationProof {
  import opened Bytes
  import opened RamLayout
  import opened RamStream
  import opened RamMigration
  import opened Runs

  // ---------- the invariant ----------

  /** From the end of stage 1's marking on, no page may be forgotten. */
  predicate Tracked(s: State) {
    match s.phase
    case Off => false
    case Syncing(_) => s.stage != 1
    case Marking(_) => false
    case Failed => false
    case Crashed => false
    case _ => true
  }

  predicate HasPage(s: State) {
    s.phase.Captured? || s.phase.Checking? || s.phase.Repeating? || s.phase.Copying?
  }

  /** Page `p` was captured and all the sender has read of it so far is still current. */
  ghost predicate InHand(s: State, p: nat)
    requires p < |s.mem|
  {
    match s.phase
    case Captured(q) => q == p
    case Checking(q, ch, n) => q == p && Repeats(s.mem[p], ch, 4 * n)
    case Repeating(q) => q == p && s.mem[p] != [] && Repeats(s.mem[p], s.mem[p][0], |s.mem[p]|)
    case Copying(q, buf) => q == p && buf <= s.mem[p]
    case _ => false
  }

  ghost predicate Repeats(page: Page, ch: byte, n: nat) {
    n <= |page| && forall i :: 0 <= i < n ==> page[i] == ch
  }

  /** The receiver has the source's blocks, with room for all their pages. */
  ghost predicate Hosts(c: Layout, ram: Ram) {
    forall b :: 0 <= b < |c.blocks| ==>
      && c.blocks[b].id in ram
      && |ram[c.blocks[b].id].pages| == c.blocks[b].pages
      && ram[c.blocks[b].id].length == c.blocks[b].pages * c.PageSize()
  }

  function IdAt(c: Layout, p: nat): Id
    requires p < c.Count()
  {
    c.blocks[c.BlockAt(p)].id
  }

  ghost function HostPage(c: Layout, ram: Ram, p: nat): Page
    requires Hosts(c, ram) && p < c.Count()
  {
    ram[IdAt(c, p)].pages[c.PageAt(p)]
  }

  ghost predicate Pending(s: State, p: nat)
    requires p < |s.dirty| && p < |s.log|
  {
    s.dirty[p] || s.log[p]
  }

  ghost predicate PageSafe(c: Layout, ram: Ram, s: State, p: nat)
    requires Shape(c, s) && Hosts(c, ram) && p < c.Count()
  {
    Pending(s, p) || if HasPage(s) && s.phase.page == p then InHand(s, p) else HostPage(c, ram, p) == s.mem[p]
  }

  /** Where the machine can be and what each place implies. */
  ghost predicate Control(c: Layout, s: State)
    requires Shape(c, s)
  {
    && (s.stage == 3 ==> !s.running)
    && (Tracked(s) && s.phase != Done ==> s.tracking)
    && (Tracked(s) && s.last.None? && !HasPage(s) ==> c.Count() > 0 && s.dirty[0])
    && (s.stage == 3 && Tracked(s) && !s.phase.Syncing? ==> forall p :: 0 <= p < |s.log| ==> !s.log[p])
    && s.phase != Crashed
    && match s.phase
       case Syncing(n) => 1 <= s.stage <= 3 && (s.stage == 3 ==> forall p :: 0 <= p < n ==> !s.log[p])
       case Marking(n) => s.last.None? && s.stage != 3 && forall p :: 0 <= p < n ==> s.dirty[p]
       case Scanning(cur, seen) => Walked(c, s, cur, seen)
       case Off => s.stage == 0
       case Rest => s.stage != 3
       case Done => s.stage == 3 && forall p :: 0 <= p < |s.dirty| ==> !s.dirty[p]
       case _ => true
  }

  /** The walk has looked at `seen` pages from its origin; with the guest stopped they are clean. */
  ghost predicate Walked(c: Layout, s: State, cur: nat, seen: nat)
    requires Shape(c, s)
  {
    && seen < c.Count()
       && cur == (if Origin(s.last) + seen < c.Count() then Origin(s.last) + seen
                  else Origin(s.last) + seen - c.Count())
    && (s.last.None? ==> seen == 0)
    && (s.stage == 3 ==> forall j :: 0 <= j < c.Count() && Behind(c.Count(), Origin(s.last), j) < seen ==> !s.dirty[j])
  }

  ghost predicate Inv(c: Layout, rx0: Rx, s: State, rx: Rx) {
    && c.Valid() && Shape(c, s) && Control(c, s)
    && Replay(c.PageSize(), rx0, s.sent) == Some(rx)
    && Hosts(c, rx.ram)
    && (Tracked(s) && s.last.Some? ==> rx.cur == Some(IdAt(c, s.last.value)))
    && AllSafe(c, rx.ram, s)
  }

  ghost predicate AllSafe(c: Layout, ram: Ram, s: State)
    requires Shape(c, s) && Hosts(c, ram)
  {
    Tracked(s) ==> forall p :: 0 <= p < c.Count() ==> PageSafe(c, ram, s, p)
  }

  // ---------- guest steps ----------

  predicate IsGuest(e: Event) { e.CpuWrite? || e.DeviceWrite? || e.StopGuest? }

  lemma GuestControl(c: Layout, s: State, e: Event)
    requires IsGuest(e) && Shape(c, s) && Control(c, s) && Step(c, s, e).Some?
    ensures Shape(c, Step(c, s, e).value) && Control(c, Step(c, s, e).value)
  {
  }

  lemma GuestPages(c: Layout, ram: Ram, s: State, e: Event)
    requires IsGuest(e) && Shape(c, s) && Step(c, s, e).Some? && Shape(c, Step(c, s, e).value)
    requires Hosts(c, ram) && (s.running && Tracked(s) ==> s.tracking) && AllSafe(c, ram, s)
    ensures AllSafe(c, ram, Step(c, s, e).value)
  {
    var s' := Step(c, s, e).value;
    if Tracked(s) {
      forall p | 0 <= p < c.Count() ensures PageSafe(c, ram, s', p) {
        assert PageSafe(c, ram, s, p);
        if e.StopGuest? || p != e.page {
          assert s'.mem[p] == s.mem[p];
        }
      }
    }
  }

  lemma GuestStep(c: Layout, rx0: Rx, s: State, e: Event, rx: Rx)
    requires Inv(c, rx0, s, rx) && IsGuest(e) && Step(c, s, e).Some?
    ensures Inv(c, rx0, Step(c, s, e).value, rx)
  {
    GuestControl(c, s, e);
    GuestPages(c, rx.ram, s, e);
  }

  // ---------- sender steps that write nothing ----------

  lemma SyncControl(c: Layout, s: State)
    requires c.Valid() && Shape(c, s) && Control(c, s) && s.phase.Syncing?
    ensures var s' := SyncStep(c, s, s.phase.next); Shape(c, s') && Control(c, s')
  {
  }

  lemma SyncPages(c: Layout, ram: Ram, s: State)
    requires Shape(c, s) && s.phase.Syncing? && Hosts(c, ram) && AllSafe(c, ram, s)
    requires Shape(c, SyncStep(c, s, s.phase.next))
    ensures AllSafe(c, ram, SyncStep(c, s, s.phase.next))
  {
    var s' := SyncStep(c, s, s.phase.next);
    if Tracked(s') {
      forall p | 0 <= p < c.Count() ensures PageSafe(c, ram, s', p) {
        assert PageSafe(c, ram, s, p);
      }
    }
  }

  lemma MarkControl(c: Layout, s: State)
    requires c.Valid() && Shape(c, s) && Control(c, s) && s.phase.Marking?
    ensures var s' := MarkStep(c, s, s.phase.next); Shape(c, s') && Control(c, s')
  {
    if s.phase.next == c.Count() {
      PositiveCount(c);
    }
  }

  lemma PositiveCount(c: Layout)
    requires c.Valid()
    ensures c.Count() > 0
  {
    StartMonotone(c.blocks, 1, |c.blocks|);
    assert Start(c.blocks, 1) == Start(c.blocks, 0) + c.blocks[0].pages;
  }

  /** One more clean page behind the walk. */
  lemma WalkedMore(c: Layout, s: State, cur: nat, seen: nat)
    requires Shape(c, s) && Walked(c, s, cur, seen) && cur < c.Count() && !s.dirty[cur]
    ensures s.stage == 3
            ==> forall j :: 0 <= j < c.Count() && Behind(c.Count(), Origin(s.last), j) < seen + 1 ==> !s.dirty[j]
    ensures s.last.Some? && Next(c.Count(), cur) != s.last.value ==>
              Walked(c, s.(phase := Scanning(Next(c.Count(), cur), seen + 1)), Next(c.Count(), cur), seen + 1)
    ensures s.last.Some? && Next(c.Count(), cur) == s.last.value ==> seen + 1 == c.Count()
  {
    if s.stage == 3 {
      forall j | 0 <= j < c.Count() && Behind(c.Count(), Origin(s.last), j) < seen + 1 ensures !s.dirty[j] {
        if Behind(c.Count(), Origin(s.last), j) == seen { assert j == cur; }
      }
    }
  }

  /** A full walk of stage 3 that found nothing. */
  lemma WalkedAll(c: Layout, s: State)
    requires Shape(c, s) && s.last.Some?
    requires forall j :: 0 <= j < c.Count() && Behind(c.Count(), Origin(s.last), j) < c.Count() ==> !s.dirty[j]
    ensures forall p :: 0 <= p < |s.dirty| ==> !s.dirty[p]
  {
    forall p | 0 <= p < |s.dirty| ensures !s.dirty[p] {
      assert Behind(c.Count(), Origin(s.last), p) < c.Count();
    }
  }

  lemma LookControl(c: Layout, s: State)
    requires c.Valid() && Shape(c, s) && Control(c, s) && s.phase.Scanning?
    ensures var s' := LookStep(c, s, s.phase.cur, s.phase.seen); Shape(c, s') && Control(c, s')
  {
    var cur, seen := s.phase.cur, s.phase.seen;
    if !s.dirty[cur] {
      WalkedMore(c, s, cur, seen);
      if s.stage == 3 && s.last.Some? && Next(c.Count(), cur) == s.last.value {
        WalkedAll(c, s);
      }
    }
  }

  /** Taking a dirty page in hand. */
  lemma CapturePages(c: Layout, ram: Ram, s: State, cur: nat)
    requires Shape(c, s) && Hosts(c, ram) && AllSafe(c, ram, s) && Tracked(s) && !HasPage(s) && cur < c.Count()
    ensures var s' := s.(dirty := s.dirty[cur := false], phase := Captured(cur)); Shape(c, s') && AllSafe(c, ram, s')
  {
    var s' := s.(dirty := s.dirty[cur := false], phase := Captured(cur));
    forall p | 0 <= p < c.Count() ensures PageSafe(c, ram, s', p) {
      assert PageSafe(c, ram, s, p);
    }
  }

  lemma CompareControl(c: Layout, s: State)
    requires c.Valid() && Shape(c, s) && Control(c, s) && s.phase.Checking?
    ensures var s' := CompareStep(c, s, s.phase.page, s.phase.ch, s.phase.words); Shape(c, s') && Control(c, s')
  {
  }

  /** The page in hand after one more comparison. */
  lemma CompareInHand(c: Layout, s: State, p: nat, ch: byte, n: nat)
    requires c.Valid() && Shape(c, s) && s.phase == Checking(p, ch, n) && p < c.Count() && InHand(s, p)
    ensures InHand(CompareStep(c, s, p, ch, n), p)
  {
    WordsPerPage(c);
    WordMatches(s.mem[p], ch, n);
  }

  /** Reading on in the page in hand does not concern the others. */
  lemma HandPages(c: Layout, ram: Ram, s: State, s': State, p: nat)
    requires Shape(c, s) && Shape(c, s') && Hosts(c, ram) && AllSafe(c, ram, s) && Tracked(s)
    requires HasPage(s) && HasPage(s') && s.phase.page == s'.phase.page == p < c.Count()
             && (InHand(s, p) ==> InHand(s', p))
    requires s' == s.(phase := s'.phase)
    ensures AllSafe(c, ram, s')
  {
    forall q | 0 <= q < c.Count() ensures PageSafe(c, ram, s', q) {
      assert PageSafe(c, ram, s, q);
    }
  }

  /** One matching word extends the run of equal bytes; after the last word the page repeats. */
  lemma WordMatches(page: Page, ch: byte, n: nat)
    requires |page| % 4 == 0 && |page| > 0 && Repeats(page, ch, 4 * n)
    ensures 4 * n + 4 <= |page| && page[4 * n..4 * n + 4] == [ch, ch, ch, ch] ==> Repeats(page, ch, 4 * (n + 1))
    ensures 4 * n + 4 > |page| ==> Repeats(page, page[0], |page|)
  {
    if 4 * n + 4 <= |page| && page[4 * n..4 * n + 4] == [ch, ch, ch, ch] {
      var w := page[4 * n..4 * n + 4];
      assert w[0] == page[4 * n] && w[1] == page[4 * n + 1] && w[2] == page[4 * n + 2] && w[3] == page[4 * n + 3];
    }
  }

  // ---------- sender steps that write a record ----------

  /** Storing ring page `p` changes that page of the receiver and no other. */
  lemma StoresPage(c: Layout, rx: Rx, s: State, p: nat, data: Page)
    requires c.Valid() && Shape(c, s) && Hosts(c, rx.ram) && p < c.Count()
    requires s.last.Some? ==> rx.cur == Some(IdAt(c, s.last.value))
    ensures var r := Store(rx, NameAt(c, s.last, p), c.PageAt(p), data);
            && r.Some? && r.value.cur == Some(IdAt(c, p)) && Hosts(c, r.value.ram)
            && forall q :: 0 <= q < c.Count() ==>
                 HostPage(c, r.value.ram, q) == if q == p then data else HostPage(c, rx.ram, q)
  {
    var b := c.BlockAt(p);
    var r := Store(rx, NameAt(c, s.last, p), c.PageAt(p), data);
    assert Target(rx, NameAt(c, s.last, p)) == Some(c.blocks[b].id);
    var ram' := Put(rx.ram, c.blocks[b].id, c.PageAt(p), data);
    forall q | 0 <= q < c.Count() && q != p
      ensures IdAt(c, q) == IdAt(c, p) ==> c.PageAt(q) != c.PageAt(p)
    {
      if IdAt(c, q) == IdAt(c, p) {
        SameBlock(c, q, p);
      }
    }
  }

  lemma SameBlock(c: Layout, p: nat, q: nat)
    requires c.Valid() && p < c.Count() && q < c.Count() && IdAt(c, p) == IdAt(c, q)
    ensures c.BlockAt(p) == c.BlockAt(q)
  {
    if c.BlockAt(p) < c.BlockAt(q) {
    } else if c.BlockAt(q) < c.BlockAt(p) {
    }
  }

  /** Sending page `p` with content `data`, current unless the page is pending again. */
  lemma SendPages(c: Layout, rx: Rx, s: State, p: nat, data: Page, ram': Ram)
    requires Shape(c, s) && Hosts(c, rx.ram) && Hosts(c, ram') && p < c.Count()
    requires HasPage(s) && s.phase.page == p && AllSafe(c, rx.ram, s)
    requires Pending(s, p) || data == s.mem[p]
    requires forall q :: 0 <= q < c.Count() ==> HostPage(c, ram', q) == if q == p then data else HostPage(c, rx.ram, q)
    ensures forall r :: Shape(c, Sent(s, p, r)) && AllSafe(c, ram', Sent(s, p, r))
  {
    forall r ensures AllSafe(c, ram', Sent(s, p, r)) {
      var s' := Sent(s, p, r);
      forall q | 0 <= q < c.Count() ensures PageSafe(c, ram', s', q) {
        assert PageSafe(c, rx.ram, s, q);
      }
    }
  }

  lemma ReplayAppend(size: nat, rx0: Rx, rs: seq<Record>, rx: Rx, r: Record)
    requires Replay(size, rx0, rs) == Some(rx)
    ensures Replay(size, rx0, rs + [r]) == Apply(size, rx, r)
  {
    assert (rs + [r])[..|rs|] == rs;
  }

  lemma SentControl(c: Layout, s: State, p: nat, r: Record)
    requires Shape(c, s) && Control(c, s) && p < c.Count() && HasPage(s)
    ensures Shape(c, Sent(s, p, r)) && Control(c, Sent(s, p, r))
  {
  }

  /** The last read of the page in hand, which completes its record. */
  lemma SendInv(c: Layout, rx0: Rx, s: State, rx: Rx, p: nat, r: Record, data: Page) returns (rx': Rx)
    requires Inv(c, rx0, s, rx) && HasPage(s) && s.phase.page == p < c.Count()
    requires r == FullPage(NameAt(c, s.last, p), c.PageAt(p), data)
          || exists ch: byte :: r == Compressed(NameAt(c, s.last, p), c.PageAt(p), ch) && data == Fill(c.PageSize(), ch)
    requires Pending(s, p) || data == s.mem[p]
    ensures Inv(c, rx0, Sent(s, p, r), rx')
  {
    StoresPage(c, rx, s, p, data);
    var after := Store(rx, NameAt(c, s.last, p), c.PageAt(p), data);
    assert Apply(c.PageSize(), rx, r) == after;
    rx' := after.value;
    ReplayAppend(c.PageSize(), rx0, s.sent, rx, r);
    SentControl(c, s, p, r);
    SendPages(c, rx, s, p, data, rx'.ram);
  }

  lemma ReadAgainInv(c: Layout, rx0: Rx, s: State, rx: Rx) returns (rx': Rx)
    requires Inv(c, rx0, s, rx) && s.phase.Repeating?
    ensures Inv(c, rx0, Step(c, s, ReadAgain).value, rx')
  {
    var p := s.phase.page;
    var ch := s.mem[p][0];
    assert PageSafe(c, rx.ram, s, p);
    rx' := SendInv(c, rx0, s, rx, p, Compressed(NameAt(c, s.last, p), c.PageAt(p), ch), Fill(c.PageSize(), ch));
  }

  lemma CopyByteInv(c: Layout, rx0: Rx, s: State, rx: Rx) returns (rx': Rx)
    requires Inv(c, rx0, s, rx) && s.phase.Copying?
    ensures Inv(c, rx0, Step(c, s, CopyByte).value, rx')
  {
    var p, buf := s.phase.page, s.phase.buf;
    var buf' := buf + [s.mem[p][|buf|]];
    assert PageSafe(c, rx.ram, s, p);
    assert buf <= s.mem[p] ==> buf' <= s.mem[p];
    if |buf'| == |s.mem[p]| {
      rx' := SendInv(c, rx0, s, rx, p, FullPage(NameAt(c, s.last, p), c.PageAt(p), buf'), buf');
    } else {
      rx' := rx;
      HandPages(c, rx.ram, s, s.(phase := Copying(p, buf')), p);
    }
  }

  lemma ReadFirstInv(c: Layout, rx0: Rx, s: State, rx: Rx)
    requires Inv(c, rx0, s, rx) && s.phase.Captured?
    ensures Inv(c, rx0, Step(c, s, ReadFirst).value, rx)
  {
    HandPages(c, rx.ram, s, Step(c, s, ReadFirst).value, s.phase.page);
  }

  // ---------- records that are not pages ----------

  lemma LoopOverInv(c: Layout, rx0: Rx, s: State, rx: Rx)
    requires Inv(c, rx0, s, rx) && Tracked(s) && !HasPage(s) && !s.phase.Syncing? && s.phase != Done
    requires Shape(c, LoopOver(s)) && Control(c, LoopOver(s))
    ensures Inv(c, rx0, LoopOver(s), rx)
  {
    ReplayAppend(c.PageSize(), rx0, s.sent, rx, Eos);
    SamePages(c, rx.ram, s, LoopOver(s));
  }

  lemma {:induction false} EntriesKnown(c: Layout, ram: Ram, b: nat)
    requires Hosts(c, ram)
    ensures Known(ram, EntriesFrom(c, b))
    decreases |c.blocks| - b
  {
    if b < |c.blocks| {
      EntriesKnown(c, ram, b + 1);
    }
  }

  lemma MarkInv(c: Layout, rx0: Rx, s: State, rx: Rx)
    requires Inv(c, rx0, s, rx) && s.phase.Marking?
    ensures Inv(c, rx0, Step(c, s, MarkPage).value, rx)
  {
    MarkControl(c, s);
    EntriesKnown(c, rx.ram, 0);
    ReplayAppend(c.PageSize(), rx0, s.sent, rx, BlockList(Entries(c)));
  }

  lemma LookInv(c: Layout, rx0: Rx, s: State, rx: Rx)
    requires Inv(c, rx0, s, rx) && s.phase.Scanning?
    ensures Inv(c, rx0, Step(c, s, Look).value, rx)
  {
    var cur, seen := s.phase.cur, s.phase.seen;
    LookControl(c, s);
    if s.dirty[cur] {
      CapturePages(c, rx.ram, s, cur);
    } else if s.last.Some? && Next(c.Count(), cur) == s.last.value {
      LoopOverInv(c, rx0, s, rx);
    } else {
      SamePages(c, rx.ram, s, LookStep(c, s, cur, seen));
    }
  }

  lemma SyncInv(c: Layout, rx0: Rx, s: State, rx: Rx)
    requires Inv(c, rx0, s, rx) && s.phase.Syncing?
    ensures Inv(c, rx0, Step(c, s, SyncPage).value, rx)
  {
    SyncControl(c, s);
    SyncPages(c, rx.ram, s);
  }

  lemma CompareInv(c: Layout, rx0: Rx, s: State, rx: Rx)
    requires Inv(c, rx0, s, rx) && s.phase.Checking?
    ensures Inv(c, rx0, Step(c, s, CompareWord).value, rx)
  {
    CompareControl(c, s);
    var p, ch, n := s.phase.page, s.phase.ch, s.phase.words;
    if InHand(s, p) {
      CompareInHand(c, s, p, ch, n);
    }
    HandPages(c, rx.ram, s, CompareStep(c, s, p, ch, n), p);
  }

  /** Steps that touch neither memory nor flags keep every page safe. */
  lemma SamePages(c: Layout, ram: Ram, s: State, s': State)
    requires Shape(c, s) && Shape(c, s') && Hosts(c, ram) && AllSafe(c, ram, s) && (Tracked(s') ==> Tracked(s))
    requires s'.mem == s.mem && s'.dirty == s.dirty && s'.log == s.log && !HasPage(s) && !HasPage(s')
    ensures AllSafe(c, ram, s')
  {
    if Tracked(s') {
      forall q | 0 <= q < c.Count() ensures PageSafe(c, ram, s', q) {
        assert PageSafe(c, ram, s, q);
      }
    }
  }

  predicate IsBoundary(e: Event) { e.Begin? || e.SyncFails? || e.Cancel? || e.SaveBlock? }

  lemma BoundaryControl(c: Layout, s: State, e: Event)
    requires c.Valid() && Shape(c, s) && Control(c, s) && IsBoundary(e) && Step(c, s, e).Some?
    ensures Shape(c, Step(c, s, e).value) && Control(c, Step(c, s, e).value)
  {
    PositiveCount(c);
  }

  /** What such a step may change. */
  lemma BoundaryFrame(c: Layout, s: State, e: Event)
    requires Shape(c, s) && IsBoundary(e) && Step(c, s, e).Some?
    ensures var s' := Step(c, s, e).value;
            && s'.mem == s.mem && s'.dirty == s.dirty && s'.log == s.log && s'.last == s.last && s'.sent == s.sent
            && !HasPage(s) && !HasPage(s') && (Tracked(s') ==> Tracked(s))
  {
  }

  /** Entering and leaving a call of ram_save_live, and entering ram_save_block. */
  lemma BoundaryInv(c: Layout, rx0: Rx, s: State, e: Event, rx: Rx)
    requires Inv(c, rx0, s, rx) && IsBoundary(e) && Step(c, s, e).Some?
    ensures Inv(c, rx0, Step(c, s, e).value, rx)
  {
    BoundaryControl(c, s, e);
    BoundaryFrame(c, s, e);
    SamePages(c, rx.ram, s, Step(c, s, e).value);
  }

  /** Every step keeps the invariant, whatever the guest does in between. */
  lemma StepInv(c: Layout, rx0: Rx, s: State, e: Event, rx: Rx) returns (rx': Rx)
    requires Inv(c, rx0, s, rx) && Step(c, s, e).Some?
    ensures Inv(c, rx0, Step(c, s, e).value, rx')
  {
    rx' := rx;
    match e
    case SyncPage => SyncInv(c, rx0, s, rx);
    case MarkPage => MarkInv(c, rx0, s, rx);
    case RateLimited => LoopOverInv(c, rx0, s, rx);
    case Look => LookInv(c, rx0, s, rx);
    case ReadFirst => ReadFirstInv(c, rx0, s, rx);
    case CompareWord => CompareInv(c, rx0, s, rx);
    case ReadAgain => rx' := ReadAgainInv(c, rx0, s, rx);
    case CopyByte => rx' := CopyByteInv(c, rx0, s, rx);
    case CpuWrite(_, _, _) => GuestStep(c, rx0, s, e, rx);
    case DeviceWrite(_, _, _) => GuestStep(c, rx0, s, e, rx);
    case StopGuest => GuestStep(c, rx0, s, e, rx);
    case _ => BoundaryInv(c, rx0, s, e, rx);
  }

  // ---------- whole runs ----------

  /** A machine about to start migrating; last_block may be stale from an earlier migration. */
  ghost predicate Init(c: Layout, s: State) {
    c.Valid() && Shape(c, s) && s.phase == Off && s.stage == 0 && !s.tracking && s.sent == []
  }

  ghost function Machine(c: Layout): (State, Event) -> Option<State> {
    (s, e) => if Shape(c, s) then Step(c, s, e) else None
  }

  /** A possible step, then a run. */
  lemma LeadsOn(c: Layout, s: State, e: Event, t: State)
    requires Shape(c, s) && Step(c, s, e).Some? && Leads(Machine(c), Step(c, s, e).value, t)
    ensures Leads(Machine(c), s, t)
  {
    assert Machine(c)(s, e) == Step(c, s, e);
    LeadsFrom(Machine(c), s, e, t);
  }

  lemma {:induction false} RunInv(c: Layout, rx0: Rx, s: State, events: seq<Event>) returns (rx: Rx)
    requires Init(c, s) && Hosts(c, rx0.ram) && Run(Machine(c), s, events).Some?
    ensures Inv(c, rx0, Run(Machine(c), s, events).value, rx)
    decreases |events|
  {
    if events == [] {
      rx := rx0;
    } else {
      var n := |events| - 1;
      var rx1 := RunInv(c, rx0, s, events[..n]);
      rx := StepInv(c, rx0, Run(Machine(c), s, events[..n]).value, events[n], rx1);
    }
  }

  /**
   Whatever the interleaving, once stage 3 has returned a receiver that replays the
   stream holds the source's RAM, page by page; and the walk never reads through the
   null last_block.
   */
  lemma MigrationCorrect(c: Layout, rx0: Rx, s: State, events: seq<Event>)
    requires Init(c, s) && Hosts(c, rx0.ram) && Run(Machine(c), s, events).Some?
    ensures var end := Run(Machine(c), s, events).value;
            && end.phase != Crashed
            && Replay(c.PageSize(), rx0, end.sent).Some?
            && (end.phase == Done ==>
                  var ram := Replay(c.PageSize(), rx0, end.sent).value.ram;
                  && Hosts(c, ram) && |end.mem| == c.Count()
                  && forall p :: 0 <= p < c.Count() ==> HostPage(c, ram, p) == end.mem[p])
  {
    var rx := RunInv(c, rx0, s, events);
    var end := Run(Machine(c), s, events).value;
    if end.phase == Done {
      forall p | 0 <= p < c.Count() ensures HostPage(c, rx.ram, p) == end.mem[p] {
        assert PageSafe(c, rx.ram, end, p);
      }
    }
  }
}
