/**
 The pieces together: the fine-grained machine, undisturbed, does what the code of
 ram_save_block does; and the bytes of a finished migration, fed to ram_load, give the
 destination the source's RAM.
 */
module RamEndToEnd {
  import opened Bytes
  import opened RamLayout
  import opened RamStream
  import opened RamReceiver
  import opened RamSender
  import M = RamMigration
  import opened RamMigrationProof
  import opened Runs

  // ---------- the machine refines the code ----------

  /** The undisturbed copy of a page ends with the page on the stream. */
  lemma {:induction false} CopyLeads(c: Layout, s: M.State)
    requires M.Shape(c, s) && s.phase.Copying? && s.phase.buf <= s.mem[s.phase.page]
    ensures var p := s.phase.page;
            Leads(Machine(c), s, M.Sent(s, p, FullPage(NameAt(c, s.last, p), c.PageAt(p), s.mem[p])))
    decreases c.PageSize() - |s.phase.buf|
  {
    var p, buf := s.phase.page, s.phase.buf;
    var t := M.Sent(s, p, FullPage(NameAt(c, s.last, p), c.PageAt(p), s.mem[p]));
    var s' := M.CopyStep(c, s, p, buf);
    var buf' := buf + [s.mem[p][|buf|]];
    assert buf' <= s.mem[p];
    if |buf'| == |s.mem[p]| {
      assert buf' == s.mem[p];
      LeadsNowhere(Machine(c), t);
    } else {
      CopyLeads(c, s');
    }
    LeadsOn(c, s, M.CopyByte, t);
  }

  /** What sending page `p` undisturbed comes to. */
  function AfterPage(c: Layout, s: M.State, p: nat): M.State
    requires p < c.Count() && p < |s.mem| && s.mem[p] != [] && (s.last.Some? ==> s.last.value < c.Count())
  {
    M.Sent(s, p, PageRecord(NameAt(c, s.last, p), c.PageAt(p), s.mem[p]))
  }

  lemma {:induction false} CheckLeads(c: Layout, s: M.State)
    requires c.Valid() && M.Shape(c, s) && s.phase.Checking?
    requires var p := s.phase.page;
             && s.mem[p] != [] && s.phase.ch == s.mem[p][0]
             && Repeats(s.mem[p], s.phase.ch, 4 * s.phase.words)
    ensures Leads(Machine(c), s, AfterPage(c, s, s.phase.page))
    decreases c.PageSize() - 4 * s.phase.words
  {
    var p, ch, n := s.phase.page, s.phase.ch, s.phase.words;
    var t := AfterPage(c, s, p);
    var s' := M.CompareStep(c, s, p, ch, n);
    WordsPerPage(c);
    WordMatches(s.mem[p], ch, n);
    if 4 * n + 4 <= |s.mem[p]| {
      if s.mem[p][4 * n..4 * n + 4] == [ch, ch, ch, ch] {
        CheckLeads(c, s');
      } else {
        WordDiffers(s.mem[p], ch, n);
        CopyLeads(c, s');
      }
    } else {
      assert IsDup(s.mem[p], s.mem[p][0]);
      LeadsNowhere(Machine(c), t);
      LeadsOn(c, s', M.ReadAgain, t);
    }
    LeadsOn(c, s, M.CompareWord, t);
  }

  lemma WordDiffers(page: Page, ch: byte, n: nat)
    requires 4 * n + 4 <= |page| && page[4 * n..4 * n + 4] != [ch, ch, ch, ch]
    ensures !IsDup(page, ch)
  {
    var w := page[4 * n..4 * n + 4];
    var k :| 0 <= k < 4 && w[k] != [ch, ch, ch, ch][k];
    assert page[4 * n + k] != ch;
  }

  lemma CapturedLeads(c: Layout, s: M.State)
    requires c.Valid() && M.Shape(c, s) && s.phase.Captured?
    ensures s.mem[s.phase.page] != [] && Leads(Machine(c), s, AfterPage(c, s, s.phase.page))
  {
    var s' := s.(phase := M.Checking(s.phase.page, s.mem[s.phase.page][0], 0));
    CheckLeads(c, s');
    LeadsOn(c, s, M.ReadFirst, AfterPage(c, s, s.phase.page));
  }

  /** What a call of ram_save_block comes to when the guest does not interfere. */
  function AfterCall(c: Layout, s: M.State, found: Option<nat>): M.State
    requires found.Some?
             ==> found.value < c.Count() && found.value < |s.mem| && found.value < |s.dirty| && s.mem[found.value] != []
    requires s.last.Some? ==> s.last.value < c.Count()
  {
    match found
    case None => M.LoopOver(s)
    case Some(p) => AfterPage(c, s.(dirty := s.dirty[p := false]), p)
  }

  lemma FoundLeads(c: Layout, s: M.State)
    requires c.Valid() && M.Shape(c, s) && s.phase.Scanning? && s.dirty[s.phase.cur]
    ensures s.mem[s.phase.cur] != [] && Leads(Machine(c), s, AfterCall(c, s, Some(s.phase.cur)))
  {
    CapturedLeads(c, M.LookStep(c, s, s.phase.cur, s.phase.seen));
    LeadsOn(c, s, M.Look, AfterCall(c, s, Some(s.phase.cur)));
  }

  /** The walk is back at its origin: the loop ends with nothing found. */
  lemma BackLeads(c: Layout, s: M.State)
    requires M.Shape(c, s) && s.phase.Scanning? && !s.dirty[s.phase.cur]
    requires s.last == Some(Next(c.Count(), s.phase.cur))
    ensures Leads(Machine(c), s, AfterCall(c, s, None))
  {
    LeadsNowhere(Machine(c), M.LoopOver(s));
    LeadsOn(c, s, M.Look, M.LoopOver(s));
  }

  lemma MoveLeads(c: Layout, s: M.State, found: Option<nat>)
    requires M.Shape(c, s) && s.phase.Scanning? && !s.dirty[s.phase.cur] && s.phase.seen + 1 < c.Count()
    requires s.last.Some? && s.last.value != Next(c.Count(), s.phase.cur)
    requires found.Some? ==> found.value < c.Count() && s.mem[found.value] != []
    requires Leads(Machine(c), M.LookStep(c, s, s.phase.cur, s.phase.seen), AfterCall(c, s, found))
    ensures Leads(Machine(c), s, AfterCall(c, s, found))
  {
    LeadsOn(c, s, M.Look, AfterCall(c, s, found));
  }

  lemma {:induction false} WalkLeads(c: Layout, s: M.State, cur: nat, seen: nat, found: Option<nat>)
    requires c.Valid() && M.Shape(c, s) && s.phase == M.Scanning(cur, seen) && seen < c.Count()
    requires s.last.None? ==> s.dirty[cur]
    requires s.last.Some? ==> Behind(c.Count(), s.last.value, cur) == seen
    requires found == FirstDirty(s.dirty, cur, c.Count() - seen)
    requires found.Some? ==> found.value < c.Count() && s.mem[found.value] != []
    ensures Leads(Machine(c), s, AfterCall(c, s, found))
    decreases c.Count() - seen
  {
    if s.dirty[cur] {
      FoundLeads(c, s);
    } else if Next(c.Count(), cur) == s.last.value {
      assert seen == c.Count() - 1;
      BackLeads(c, s);
    } else {
      var next := Next(c.Count(), cur);
      var s' := s.(phase := M.Scanning(next, seen + 1));
      WalkLeads(c, s', next, seen + 1, found);
      assert AfterCall(c, s', found) == AfterCall(c, s, found);
      MoveLeads(c, s, found);
    }
  }

  /**
   Undisturbed, the machine's walk-and-send does what the code does: same page chosen, same
   record written, same flag cleared, same position remembered.
   */
  lemma MachineRefinesCode(c: Layout, s: M.State)
    requires c.Valid() && M.Shape(c, s) && s.phase == M.Ready && (s.last.None? ==> c.Count() > 0 && s.dirty[0])
    ensures TxValid(c, s.mem, Tx(s.dirty, s.last, s.sent))
    ensures var code := Save(c, s.mem, Tx(s.dirty, s.last, s.sent));
            if code == Tx(s.dirty, s.last, s.sent) then Leads(Machine(c), s, M.LoopOver(s))
            else Leads(Machine(c), s, s.(dirty := code.dirty, last := code.last, sent := code.sent))
  {
    PositiveCount(c);
    var origin := Origin(s.last);
    FoundOrClean(s.dirty, origin);
    var s' := s.(phase := M.Scanning(origin, 0));
    var found := FirstDirty(s.dirty, origin, c.Count());
    WalkLeads(c, s', origin, 0, found);
    LeadsOn(c, s, M.SaveBlock, AfterCall(c, s', found));
    var code := Save(c, s.mem, Tx(s.dirty, s.last, s.sent));
    if code != Tx(s.dirty, s.last, s.sent) {
      var p := FirstDirty(s.dirty, origin, c.Count()).value;
      assert AfterCall(c, s', Some(p)) == s.(dirty := code.dirty, last := code.last, sent := code.sent);
    }
  }

  // ---------- every record can be written down ----------

  function FormatOf(c: Layout, width: nat): Format { Format(c.pageBits, width) }

  ghost predicate AllWire(fmt: Format, rs: seq<Record>) { forall r :: r in rs ==> Wire(fmt, r) }

  lemma PageWire(c: Layout, width: nat, last: Option<nat>, p: nat)
    requires c.Valid() && p < c.Count() && (last.Some? ==> last.value < c.Count())
    ensures PageFits(FormatOf(c, width), NameAt(c, last, p), c.PageAt(p))
  {
    var size, page := c.PageSize(), c.PageAt(p);
    if page + 1 < c.Count() + 1 {
      NextMultiple(page + 1, c.Count() + 1, size);
    }
  }

  lemma {:induction false} EntriesTotal(c: Layout, b: nat)
    requires b <= |c.blocks|
    ensures TotalLength(M.EntriesFrom(c, b)) == (c.Count() - Start(c.blocks, b)) * c.PageSize()
    decreases |c.blocks| - b
  {
    if b < |c.blocks| {
      EntriesTotal(c, b + 1);
      Distribute(c.blocks[b].pages, c.Count() - Start(c.blocks, b + 1), c.PageSize());
    }
  }

  lemma Distribute(a: int, b: int, m: int)
    ensures (a + b) * m == a * m + b * m
  {
  }

  lemma {:induction false} EntriesNamed(c: Layout, b: nat)
    requires c.Valid()
    ensures forall e :: e in M.EntriesFrom(c, b) ==> WireName(e.id) && e.length > 0
    decreases |c.blocks| - b
  {
    if b < |c.blocks| {
      EntriesNamed(c, b + 1);
      NextMultiple(0, c.blocks[b].pages, c.PageSize());
    }
  }

  lemma ListWire(c: Layout, width: nat)
    requires c.Valid()
    ensures Wire(FormatOf(c, width), BlockList(M.Entries(c)))
  {
    EntriesTotal(c, 0);
    EntriesNamed(c, 0);
    DivModUnique(c.Count() * c.PageSize(), c.PageSize(), c.Count(), 0);
    Distribute(c.Count(), 1, c.PageSize());
  }

  /** Every step appends records that can be written down, and a call ends with EOS. */
  ghost predicate Closed(c: Layout, width: nat, s: M.State) {
    && AllWire(FormatOf(c, width), s.sent)
    && (s.phase == M.Done ==> s.sent != [] && s.sent[|s.sent| - 1] == Eos)
  }

  lemma WireAppend(fmt: Format, rs: seq<Record>, r: Record)
    requires AllWire(fmt, rs) && Wire(fmt, r)
    ensures AllWire(fmt, rs + [r])
  {
  }

  lemma ClosedMark(c: Layout, width: nat, s: M.State)
    requires c.Valid() && M.Shape(c, s) && Closed(c, width, s) && s.phase.Marking?
    ensures Closed(c, width, M.MarkStep(c, s, s.phase.next))
  {
    ListWire(c, width);
    WireAppend(FormatOf(c, width), s.sent, BlockList(M.Entries(c)));
  }

  lemma ClosedSend(c: Layout, width: nat, s: M.State, p: nat, r: Record)
    requires c.Valid() && Closed(c, width, s) && p < c.Count() && (s.last.Some? ==> s.last.value < c.Count())
    requires r.Compressed? || (r.FullPage? && |r.data| == c.PageSize())
    requires r.id == NameAt(c, s.last, p) && r.page == c.PageAt(p)
    ensures Closed(c, width, M.Sent(s, p, r))
  {
    PageWire(c, width, s.last, p);
    WireAppend(FormatOf(c, width), s.sent, r);
  }

  lemma ClosedLoop(c: Layout, width: nat, s: M.State)
    requires Closed(c, width, s)
    ensures Closed(c, width, M.LoopOver(s))
  {
    WireAppend(FormatOf(c, width), s.sent, Eos);
  }

  lemma ClosedLook(c: Layout, width: nat, s: M.State)
    requires M.Shape(c, s) && Closed(c, width, s) && s.phase.Scanning?
    ensures Closed(c, width, M.LookStep(c, s, s.phase.cur, s.phase.seen))
  {
    ClosedLoop(c, width, s);
  }

  lemma ClosedCopy(c: Layout, width: nat, s: M.State)
    requires c.Valid() && M.Shape(c, s) && Closed(c, width, s) && s.phase.Copying?
    ensures Closed(c, width, M.CopyStep(c, s, s.phase.page, s.phase.buf))
  {
    var p, buf := s.phase.page, s.phase.buf + [s.mem[s.phase.page][|s.phase.buf|]];
    if |buf| == c.PageSize() {
      ClosedSend(c, width, s, p, FullPage(NameAt(c, s.last, p), c.PageAt(p), buf));
    }
  }

  predicate Writes(e: M.Event) { e in {M.MarkPage, M.RateLimited, M.Look, M.ReadAgain, M.CopyByte} }

  lemma ClosedQuiet(c: Layout, width: nat, s: M.State, e: M.Event)
    requires M.Shape(c, s) && Closed(c, width, s) && M.Step(c, s, e).Some? && !Writes(e)
    ensures Closed(c, width, M.Step(c, s, e).value)
  {
  }

  lemma ClosedStep(c: Layout, width: nat, s: M.State, e: M.Event)
    requires c.Valid() && M.Shape(c, s) && Closed(c, width, s) && M.Step(c, s, e).Some?
    ensures Closed(c, width, M.Step(c, s, e).value)
  {
    match e
    case MarkPage => ClosedMark(c, width, s);
    case RateLimited => ClosedLoop(c, width, s);
    case Look => ClosedLook(c, width, s);
    case ReadAgain =>
      var p := s.phase.page;
      ClosedSend(c, width, s, p, Compressed(NameAt(c, s.last, p), c.PageAt(p), s.mem[p][0]));
    case CopyByte => ClosedCopy(c, width, s);
    case _ => ClosedQuiet(c, width, s, e);
  }

  lemma {:induction false} ClosedRun(c: Layout, width: nat, s: M.State, events: seq<M.Event>)
    requires Init(c, s) && Run(Machine(c), s, events).Some?
    ensures Closed(c, width, Run(Machine(c), s, events).value)
    decreases |events|
  {
    if events != [] {
      var n := |events| - 1;
      ClosedRun(c, width, s, events[..n]);
      ClosedStep(c, width, Run(Machine(c), s, events[..n]).value, events[n]);
    }
  }

  // ---------- the receiver reads one section after another ----------

  /** Length of the first section of a stream of records. */
  function FirstSection(rs: seq<Record>): (n: nat)
    ensures n <= |rs|
  {
    if rs == [] then 0 else if rs[0] == Eos then 1 else 1 + FirstSection(rs[1..])
  }

  lemma {:induction false} FirstSectionIsSection(fmt: Format, rs: seq<Record>)
    requires rs != [] && rs[|rs| - 1] == Eos && AllWire(fmt, rs)
    ensures IsSection(fmt, rs[..FirstSection(rs)])
    ensures rs[FirstSection(rs)..] != [] ==> rs[FirstSection(rs)..][|rs| - FirstSection(rs) - 1] == Eos
    decreases |rs|
  {
    if rs[0] != Eos {
      FirstSectionIsSection(fmt, rs[1..]);
      var n := FirstSection(rs[1..]);
      assert rs[..n + 1] == [rs[0]] + rs[1..][..n];
      assert rs[n + 1..] == rs[1..][n..];
    }
  }

  lemma {:induction false} EncodeAllSplit(fmt: Format, rs: seq<Record>, n: nat)
    requires n <= |rs|
    ensures EncodeAll(fmt, rs) == EncodeAll(fmt, rs[..n]) + EncodeAll(fmt, rs[n..])
    decreases n
  {
    if n == 0 {
      assert rs[..0] == [] && rs[0..] == rs;
    } else {
      EncodeAllSplit(fmt, rs[1..], n - 1);
      var code, head, tail := Encode(fmt, rs[0]), EncodeAll(fmt, rs[1..][..n - 1]), EncodeAll(fmt, rs[n..]);
      assert rs[..n][1..] == rs[1..][..n - 1] && rs[n..] == rs[1..][n - 1..];
      assert EncodeAll(fmt, rs[..n]) == code + head;
      ConcatAssociative(code, head, tail);
    }
  }

  lemma ConcatAssociative(a: seq<byte>, b: seq<byte>, c: seq<byte>)
    ensures (a + b) + c == a + (b + c)
  {
  }

  lemma {:induction false} ReplaySplit(size: nat, rx: Rx, rs: seq<Record>, n: nat)
    requires n <= |rs| && Replay(size, rx, rs).Some?
    ensures Replay(size, rx, rs[..n]).Some?
    ensures Replay(size, Replay(size, rx, rs[..n]).value, rs[n..]) == Replay(size, rx, rs)
    decreases |rs| - n
  {
    if n == |rs| {
      assert rs[..n] == rs && rs[n..] == [];
    } else {
      var init := rs[..|rs| - 1];
      ReplaySplit(size, rx, init, n);
      assert init[..n] == rs[..n];
      assert rs[n..][..|rs| - n - 1] == init[n..];
    }
  }

  /** From `pos` on the stream holds `rs`, whole sections that take the receiver to `final`. */
  ghost predicate StreamAhead(fmt: Format, f: seq<byte>, pos: nat, rx: Rx, final: Rx, rs: seq<Record>) {
    && pos <= |f| && f[pos..] == EncodeAll(fmt, rs)
    && AllWire(fmt, rs) && (rs != [] ==> rs[|rs| - 1] == Eos)
    && Replay(fmt.PageSize(), rx, rs) == Some(final)
  }

  lemma SectionOfStream(fmt: Format, f: seq<byte>, pos: nat, rx: Rx, final: Rx, rs: seq<Record>)
    requires StreamAhead(fmt, f, pos, rx, final, rs) && rs != []
    ensures var n := FirstSection(rs); var section := rs[..n];
            && IsSection(fmt, section) && At(f, pos, EncodeAll(fmt, section))
            && Replay(fmt.PageSize(), rx, section).Some?
            && StreamAhead(fmt, f, pos + |EncodeAll(fmt, section)|, Replay(fmt.PageSize(), rx, section).value, final,
                           rs[n..])
  {
    var n := FirstSection(rs);
    FirstSectionIsSection(fmt, rs);
    EncodeAllSplit(fmt, rs, n);
    ReplaySplit(fmt.PageSize(), rx, rs, n);
    var head, tail := EncodeAll(fmt, rs[..n]), EncodeAll(fmt, rs[n..]);
    assert f[pos..][..|head|] == head && f[pos..][|head|..] == tail;
  }

  /** The destination: `ram_load` once per section until the stream is used up. */
  method LoadAll(r: Receiver, f: seq<byte>, ghost rs: seq<Record>, ghost final: Rx) returns (ret: LoadResult)
    requires r.Valid()
    modifies r
    ensures r.Valid()
    ensures old(StreamAhead(r.fmt, f, 0, r.State(), final, rs)) ==> ret == Loaded && r.State() == final
  {
    ghost var good := StreamAhead(r.fmt, f, 0, r.State(), final, rs);
    ghost var rest := rs;
    var pos := 0;
    ret := Loaded;
    while pos < |f|
      invariant r.Valid() && ret == Loaded
      invariant good ==> StreamAhead(r.fmt, f, pos, r.State(), final, rest)
      decreases |f| - pos
    {
      ghost var n := FirstSection(rest);
      if good {
        SectionOfStream(r.fmt, f, pos, r.State(), final, rest);
      }
      var next;
      ret, next := r.RamLoad(f, pos, rest[..n]);
      if ret != Loaded || next <= pos {
        return;
      }
      pos := next;
      if good {
        rest := rest[n..];
      }
    }
  }

  /**
   End to end: take any interleaving of guest and sender that reaches the end of stage 3,
   write its records out as bytes, and let a destination with the same blocks read them.
   The load succeeds and every page equals the source's page.
   */
  method Migrate(c: Layout, ghost s: M.State, ghost events: seq<M.Event>, ghost end: M.State, sent: seq<Record>,
      r: Receiver)
    returns (ret: LoadResult)
    requires Init(c, s) && Run(Machine(c), s, events) == Some(end) && end.phase == M.Done && sent == end.sent
    requires r.Valid() && r.fmt.bits == c.pageBits && Hosts(c, r.ram)
    modifies r
    ensures ret == Loaded && r.Valid() && Hosts(c, r.ram)
    ensures |end.mem| == c.Count() && forall p :: 0 <= p < c.Count() ==> HostPage(c, r.ram, p) == end.mem[p]
  {
    MigrationCorrect(c, r.State(), s, events);
    ClosedRun(c, r.fmt.width, s, events);
    ghost var final := Replay(c.PageSize(), r.State(), sent).value;
    ret := LoadAll(r, EncodeAll(r.fmt, sent), sent, final);
  }
}
