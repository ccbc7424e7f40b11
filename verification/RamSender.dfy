/**
 The sender's own code (arch_init.c): `is_dup_page`, `ram_save_block` and
 `ram_save_remaining`, with the static `last_block` and `last_offset`.
 */
module RamSender {
  import opened Bytes
  import opened RamLayout
  import opened RamStream

  // ---------- what a call does, on values ----------

  /** The first dirty page on the ring walk of `left` pages from `cur`. */
  function FirstDirty(dirty: seq<bool>, cur: nat, left: nat): Option<nat>
    requires cur < |dirty|
    decreases left
  {
    if left == 0 then None
    else if dirty[cur] then Some(cur)
    else FirstDirty(dirty, Next(|dirty|, cur), left - 1)
  }

  /** The walk finds the nearest dirty page ahead, and misses none within its reach. */
  lemma {:induction false} FirstDirtyIsNearest(dirty: seq<bool>, cur: nat, left: nat)
    requires cur < |dirty| && left <= |dirty|
    ensures match FirstDirty(dirty, cur, left)
            case Some(p) =>
              && p < |dirty| && dirty[p] && Behind(|dirty|, cur, p) < left
              && forall j :: 0 <= j < |dirty| && Behind(|dirty|, cur, j) < Behind(|dirty|, cur, p) ==> !dirty[j]
            case None =>
              forall j :: 0 <= j < |dirty| && Behind(|dirty|, cur, j) < left ==> !dirty[j]
    decreases left
  {
    var n := |dirty|;
    if left > 0 && !dirty[cur] {
      var next := Next(n, cur);
      FirstDirtyIsNearest(dirty, next, left - 1);
      assert forall j :: 0 <= j < n && j != cur ==> Behind(n, cur, j) == Behind(n, next, j) + 1;
    }
  }

  predicate IsDup(page: Page, ch: byte) { forall i :: 0 <= i < |page| ==> page[i] == ch }

  /** The record for a page: one byte when all its bytes are equal, the page otherwise. */
  function PageRecord(id: Option<Id>, page: nat, data: Page): Record
    requires data != []
  {
    if IsDup(data, data[0]) then Compressed(id, page, data[0]) else FullPage(id, page, data)
  }

  /** The sender between two calls: dirty flags, last page sent as a ring position, records so far. */
  datatype Tx = Tx(dirty: seq<bool>, last: Option<nat>, sent: seq<Record>)

  ghost predicate TxValid(c: Layout, mem: seq<Page>, tx: Tx) {
    && |mem| == |tx.dirty| == c.Count() > 0
    && (forall p :: 0 <= p < |mem| ==> |mem[p]| == c.PageSize())
    && (tx.last.Some? ==> tx.last.value < c.Count())
  }

  /** The effect of one call of ram_save_block when nothing interferes. */
  ghost function Save(c: Layout, mem: seq<Page>, tx: Tx): (r: Tx)
    requires TxValid(c, mem, tx)
  {
    FirstDirtyIsNearest(tx.dirty, Origin(tx.last), c.Count());
    match FirstDirty(tx.dirty, Origin(tx.last), c.Count())
    case None => tx
    case Some(p) =>
      Tx(tx.dirty[p := false], Some(p), tx.sent + [PageRecord(NameAt(c, tx.last, p), c.PageAt(p), mem[p])])
  }

  /** A call does nothing exactly when no page is dirty, and otherwise uses up one dirty page. */
  lemma SaveUsesOnePage(c: Layout, mem: seq<Page>, tx: Tx)
    requires TxValid(c, mem, tx)
    ensures TxValid(c, mem, Save(c, mem, tx))
    ensures (forall p :: 0 <= p < |tx.dirty| ==> !tx.dirty[p]) ==> Save(c, mem, tx) == tx
    ensures (exists p :: 0 <= p < |tx.dirty| && tx.dirty[p]) ==>
              && |Save(c, mem, tx).sent| == |tx.sent| + 1
              && Truths(Save(c, mem, tx).dirty) == Truths(tx.dirty) - 1
  {
    var o := Origin(tx.last);
    FirstDirtyIsNearest(tx.dirty, o, c.Count());
    match FirstDirty(tx.dirty, o, c.Count())
    case Some(p) =>
      TruthsUpdate(tx.dirty, p, false);
    case None =>
      forall j | 0 <= j < |tx.dirty| ensures !tx.dirty[j] {
        assert Behind(|tx.dirty|, o, j) < c.Count();
      }
  }

  // ---------- sending everything ----------

  /** Calls of ram_save_block until nothing is dirty. */
  ghost function SaveAll(c: Layout, mem: seq<Page>, tx: Tx): (r: Tx)
    requires TxValid(c, mem, tx)
    decreases Truths(tx.dirty)
  {
    SaveUsesOnePage(c, mem, tx);
    if exists p :: 0 <= p < |tx.dirty| && tx.dirty[p] then SaveAll(c, mem, Save(c, mem, tx)) else tx
  }

  ghost predicate PagesOf(c: Layout, mem: seq<Page>, pages: seq<nat>) {
    |mem| == c.Count() && (forall p :: 0 <= p < |mem| ==> mem[p] != [])
    && forall i :: 0 <= i < |pages| ==> pages[i] < c.Count()
  }

  /** One record for each of these pages, in order, with its current contents; `last` is the page sent before them. */
  function Records(c: Layout, mem: seq<Page>, last: Option<nat>, pages: seq<nat>): seq<Record>
    requires PagesOf(c, mem, pages) && (last.Some? ==> last.value < c.Count())
    decreases |pages|
  {
    if pages == [] then []
    else [PageRecord(NameAt(c, last, pages[0]), c.PageAt(pages[0]), mem[pages[0]])]
         + Records(c, mem, Some(pages[0]), pages[1..])
  }

  predicate Distinct(pages: seq<nat>) { forall i, j :: 0 <= i < j < |pages| ==> pages[i] != pages[j] }

  /** The pages are the dirty ones, each once. */
  ghost predicate AllDirty(dirty: seq<bool>, pages: seq<nat>) {
    Distinct(pages) && forall p :: p in pages <==> 0 <= p < |dirty| && dirty[p]
  }

  lemma AllDirtyMore(dirty: seq<bool>, p: nat, pages: seq<nat>)
    requires p < |dirty| && dirty[p] && AllDirty(dirty[p := false], pages)
    ensures AllDirty(dirty, [p] + pages)
  {
    assert p !in pages;
    forall i, j | 0 <= i < j < |[p] + pages| ensures ([p] + pages)[i] != ([p] + pages)[j] {
      assert ([p] + pages)[j] == pages[j - 1];
    }
  }

  /** The first call, and the rest. */
  lemma SaveAllStep(c: Layout, mem: seq<Page>, tx: Tx) returns (found: Option<nat>)
    requires TxValid(c, mem, tx)
    ensures found.None? ==> SaveAll(c, mem, tx) == tx && forall p :: 0 <= p < |tx.dirty| ==> !tx.dirty[p]
    ensures found.Some? ==>
              var p := found.value;
              && p < c.Count() && tx.dirty[p]
              && var next := Tx(tx.dirty[p := false], Some(p),
                                tx.sent + [PageRecord(NameAt(c, tx.last, p), c.PageAt(p), mem[p])]);
              TxValid(c, mem, next) && Truths(next.dirty) < Truths(tx.dirty)
              && SaveAll(c, mem, tx) == SaveAll(c, mem, next)
  {
    SaveUsesOnePage(c, mem, tx);
    FirstDirtyIsNearest(tx.dirty, Origin(tx.last), c.Count());
    FoundOrClean(tx.dirty, Origin(tx.last));
    found := FirstDirty(tx.dirty, Origin(tx.last), c.Count());
    assert found.None? ==> Save(c, mem, tx) == tx;
  }

  /** Exactly the dirty pages are sent, each once, with its current contents. */
  lemma {:induction false} SaveAllSends(c: Layout, mem: seq<Page>, tx: Tx) returns (pages: seq<nat>)
    requires TxValid(c, mem, tx)
    ensures AllDirty(tx.dirty, pages) && PagesOf(c, mem, pages)
    ensures var r := SaveAll(c, mem, tx);
            r.sent == tx.sent + Records(c, mem, tx.last, pages) && forall p :: 0 <= p < |r.dirty| ==> !r.dirty[p]
    decreases Truths(tx.dirty)
  {
    pages := [];
    var found := SaveAllStep(c, mem, tx);
    if found.Some? {
      var p := found.value;
      var r := PageRecord(NameAt(c, tx.last, p), c.PageAt(p), mem[p]);
      var rest := SaveAllSends(c, mem, Tx(tx.dirty[p := false], Some(p), tx.sent + [r]));
      pages := [p] + rest;
      AllDirtyMore(tx.dirty, p, rest);
      RecordsCons(c, mem, tx.last, p, rest);
      Regroup(tx.sent, r, Records(c, mem, Some(p), rest));
    }
  }

  lemma Regroup<T>(a: seq<T>, x: T, b: seq<T>)
    ensures (a + [x]) + b == a + ([x] + b)
  {
  }

  lemma RecordsCons(c: Layout, mem: seq<Page>, last: Option<nat>, p: nat, rest: seq<nat>)
    requires PagesOf(c, mem, rest) && p < c.Count() && (last.Some? ==> last.value < c.Count())
    ensures PagesOf(c, mem, [p] + rest)
    ensures Records(c, mem, last, [p] + rest)
         == [PageRecord(NameAt(c, last, p), c.PageAt(p), mem[p])] + Records(c, mem, Some(p), rest)
  {
    assert ([p] + rest)[1..] == rest;
  }

  // ---------- the code ----------

  /** Word by word, as `is_dup_page` compares; a page is a whole number of words. */
  method IsDupPage(page: Page, ch: byte) returns (dup: bool)
    requires |page| % 4 == 0
    ensures dup <==> IsDup(page, ch)
  {
    var i := 0;
    while i < |page| / 4
      invariant 0 <= i <= |page| / 4
      invariant forall j :: 0 <= j < 4 * i ==> page[j] == ch
    {
      var word := page[4 * i..4 * i + 4];
      assert forall k :: 0 <= k < 4 ==> word[k] == page[4 * i + k];
      if word != [ch, ch, ch, ch] {
        return false;
      }
      i := i + 1;
    }
    dup := true;
  }

  class Sender {
    const c: Layout
    var mem: seq<Page>
    var dirty: seq<bool>
    var lastBlock: Option<nat>   // index of last_block in the sorted list, None for NULL
    var lastOffset: nat          // last_offset, in pages
    var sent: seq<Record>        // records put on the QEMUFile

    ghost predicate Valid()
      reads this
    {
      && c.Valid()
      && TxValid(c, mem, Abs())
      && LastValid(c, lastBlock, lastOffset)
    }

    ghost function Abs(): Tx
      reads this
    {
      Tx(dirty, LastPos(c, lastBlock, lastOffset), sent)
    }

    /** The dirty branch of the walk: reset the flag, then put the page on the stream. */
    method SendPage(block: nat, offset: nat, index: nat) returns (bytesSent: nat)
      requires Valid() && block < |c.blocks| && offset < c.blocks[block].pages
      requires index == RingPos(c, block, offset) < c.Count()
      modifies this`dirty, this`lastBlock, this`lastOffset, this`sent
      ensures Valid()
      ensures Abs() == Tx(old(dirty)[index := false], Some(index),
                          old(sent) + [PageRecord(NameAt(c, old(Abs()).last, index), c.PageAt(index), mem[index])])
      ensures bytesSent > 0
      ensures bytesSent == if sent[|sent| - 1].Compressed? then 1 else c.PageSize()
      ensures var r, page := sent[|sent| - 1], mem[index];
              && (r.Compressed? || r.FullPage?)
              && (r.Compressed? <==> forall j :: 0 <= j < |page| ==> page[j] == page[0])
              && r.page == offset && r.id == if old(lastBlock) == Some(block) then None else Some(c.blocks[block].id)
    {
      ghost var last := Abs().last;
      var name := if lastBlock == Some(block) then None else Some(c.blocks[block].id);
      NameOfBlock(c, lastBlock, lastOffset, block, offset);
      dirty := dirty[index := false];
      var p := mem[index];
      WordsPerPage(c);
      var dup := IsDupPage(p, p[0]);
      var record;
      if dup {
        record, bytesSent := Compressed(name, offset, p[0]), 1;
      } else {
        record, bytesSent := FullPage(name, offset, p), c.PageSize();
      }
      assert record == PageRecord(NameAt(c, last, index), c.PageAt(index), mem[index]);
      sent := sent + [record];
      lastBlock, lastOffset := Some(block), offset;
    }

    /** `offset += TARGET_PAGE_SIZE`, and on to the next block, or back to the first, at the end of a block. */
    method NextPage(b: nat, k: nat, ghost origin: nat, ghost seen: nat) returns (block: nat, offset: nat)
      requires c.Valid() && Here(c, b, k, origin, seen) && origin < c.Count()
      ensures block < |c.blocks| && offset < c.blocks[block].pages
      ensures RingPos(c, block, offset) == Next(c.Count(), RingPos(c, b, k)) < c.Count()
      ensures if seen + 1 < c.Count() then Here(c, block, offset, origin, seen + 1)
                else RingPos(c, block, offset) == origin
    {
      Advance(c, b, k, origin, seen);
      block, offset := b, k + 1;
      if offset >= c.blocks[block].pages {
        offset := 0;
        block := if block + 1 < |c.blocks| then block + 1 else 0;
      }
    }

    /**
     The do/while walk of ram_save_block: block pointer and offset stop at the first dirty
     page ahead, or back where they began when there is none. The caller must not walk with
     last_block NULL and the first page clean: the loop condition would read through it.
     */
    method Walk() returns (found: bool, block: nat, offset: nat)
      requires Valid() && (lastBlock.None? ==> dirty[0])
      ensures block < |c.blocks| && offset < c.blocks[block].pages && RingPos(c, block, offset) < c.Count()
      ensures FirstDirty(dirty, Origin(Abs().last), c.Count())
           == if found then Some(RingPos(c, block, offset)) else None
      ensures !found ==> lastBlock == Some(block) && lastOffset == offset
    {
      block, offset := if lastBlock.Some? then lastBlock.value else 0, lastOffset;
      ghost var origin := Origin(Abs().last);
      ghost var seen := 0;
      AtOrigin(c, lastBlock, lastOffset);
      while true
        invariant Here(c, block, offset, origin, seen)
        invariant lastBlock.None? ==> seen == 0
        invariant FirstDirty(dirty, RingPos(c, block, offset), c.Count() - seen) == FirstDirty(dirty, origin, c.Count())
        decreases c.Count() - seen
      {
        if dirty[RingPos(c, block, offset)] {
          return true, block, offset;
        }
        block, offset := NextPage(block, offset, origin, seen);
        seen := seen + 1;
        BackAtOrigin(c, block, offset, lastBlock.value, lastOffset, seen);
        if BlockAddr(c, block, offset) == BlockAddr(c, lastBlock.value, lastOffset) {
          return false, block, offset;
        }
      }
    }

    /** `ram_save_remaining`: the number of dirty pages. */
    method RamSaveRemaining() returns (count: nat)
      ensures count == |SetFlags(dirty)| == Truths(dirty)
    {
      TruthsCounts(dirty);
      count := 0;
      var p := 0;
      while p < |dirty|
        invariant 0 <= p <= |dirty| && count + Truths(dirty[p..]) == Truths(dirty)
      {
        assert dirty[p..][1..] == dirty[p + 1..];
        if dirty[p] {
          count := count + 1;
        }
        p := p + 1;
      }
    }

    /**
     The loop of stage 3 that sends whatever is left, ignoring the rate limit: one record with the
     current contents for each dirty page, and nothing else. `bytes` counts the page data sent.
     */
    method FlushRemaining() returns (bytes: nat, ghost pages: seq<nat>)
      requires Valid() && (lastBlock.None? ==> dirty[0])
      modifies this`dirty, this`lastBlock, this`lastOffset, this`sent
      ensures Valid()
      ensures forall p :: 0 <= p < |dirty| ==> !dirty[p]
      ensures AllDirty(old(dirty), pages) && PagesOf(c, mem, pages)
      ensures sent == old(sent) + Records(c, mem, old(Abs()).last, pages)
      ensures bytes == DataBytes(c.PageSize(), Records(c, mem, old(Abs()).last, pages))
    {
      bytes := 0;
      ghost var tx := Abs();
      while true
        invariant Valid() && (lastBlock.None? ==> dirty[0])
        invariant SaveAll(c, mem, Abs()) == SaveAll(c, mem, tx)
        invariant SentMore(c.PageSize(), tx.sent, sent, bytes)
        decreases Truths(dirty)
      {
        SaveUsesOnePage(c, mem, Abs());
        ghost var before := sent;
        var n := RamSaveBlock();
        if n == 0 {
          break;
        }
        SentOne(c.PageSize(), tx.sent, before, sent, bytes);
        bytes := bytes + n;
      }
      pages := SaveAllSends(c, mem, tx);
      assert sent[|tx.sent|..] == Records(c, mem, tx.last, pages);
    }

    /** `ram_save_block`. */
    method RamSaveBlock() returns (bytesSent: nat)
      requires Valid() && (lastBlock.None? ==> dirty[0])
      modifies this`dirty, this`lastBlock, this`lastOffset, this`sent
      ensures Valid()
      ensures Abs() == Save(c, mem, old(Abs()))
      ensures bytesSent == 0 <==> forall p :: 0 <= p < |old(dirty)| ==> !old(dirty)[p]
      ensures bytesSent > 0 ==> bytesSent == if |sent| > 0 && sent[|sent| - 1].Compressed? then 1 else c.PageSize()
    {
      var found, block, offset := Walk();
      FoundOrClean(dirty, Origin(Abs().last));
      if found {
        bytesSent := SendPage(block, offset, RingPos(c, block, offset));
      } else {
        bytesSent := 0;
        lastBlock, lastOffset := Some(block), offset;
      }
    }
  }

  /** The page data of some records, as `bytes_sent` counts it. */
  function DataBytes(size: nat, rs: seq<Record>): nat {
    if rs == [] then 0 else DataBytes(size, rs[..|rs| - 1]) + if rs[|rs| - 1].Compressed? then 1 else size
  }

  /** Since `before` records with `bytes` bytes of data have been sent. */
  ghost predicate SentMore(size: nat, before: seq<Record>, now: seq<Record>, bytes: nat) {
    before <= now && bytes == DataBytes(size, now[|before|..])
  }

  lemma SentOne(size: nat, start: seq<Record>, before: seq<Record>, now: seq<Record>, bytes: nat)
    requires SentMore(size, start, before, bytes) && now != [] && now[..|now| - 1] == before
    ensures SentMore(size, start, now, bytes + if now[|now| - 1].Compressed? then 1 else size)
  {
    assert now[|start|..][..|now| - 1 - |start|] == before[|start|..];
  }

  /** A walk of the whole ring fails to find a dirty page exactly when there is none. */
  lemma FoundOrClean(dirty: seq<bool>, origin: nat)
    requires origin < |dirty|
    ensures FirstDirty(dirty, origin, |dirty|).None? <==> forall p :: 0 <= p < |dirty| ==> !dirty[p]
    ensures FirstDirty(dirty, origin, |dirty|).Some? ==> FirstDirty(dirty, origin, |dirty|).value < |dirty|
  {
    FirstDirtyIsNearest(dirty, origin, |dirty|);
    assert forall j :: 0 <= j < |dirty| ==> Behind(|dirty|, origin, j) < |dirty|;
  }

  /** Ring position of page `k` of block `b`. */
  function RingPos(c: Layout, b: nat, k: nat): nat
    requires b < |c.blocks|
  {
    Start(c.blocks, b) + k
  }

  /** `block->offset + offset`. */
  function BlockAddr(c: Layout, b: nat, k: nat): nat
    requires b < |c.blocks|
  {
    c.blocks[b].offset + k * c.PageSize()
  }

  /** Block and offset name a page, `seen` steps from the origin of the walk. */
  ghost predicate Here(c: Layout, b: nat, k: nat, origin: nat, seen: nat) {
    && b < |c.blocks| && k < c.blocks[b].pages && seen < c.Count()
    && RingPos(c, b, k) < c.Count()
    && RingPos(c, b, k) == if origin + seen < c.Count() then origin + seen else origin + seen - c.Count()
  }

  ghost predicate LastValid(c: Layout, block: Option<nat>, offset: nat) {
    && (block.None? ==> offset == 0)
    && (block.Some? ==> block.value < |c.blocks| && offset < c.blocks[block.value].pages)
  }

  ghost function LastPos(c: Layout, block: Option<nat>, offset: nat): Option<nat> {
    if block.Some? && block.value < |c.blocks| then Some(RingPos(c, block.value, offset)) else None
  }

  lemma AtOrigin(c: Layout, block: Option<nat>, offset: nat)
    requires c.Valid() && LastValid(c, block, offset)
    ensures Here(c, if block.Some? then block.value else 0, offset, Origin(LastPos(c, block, offset)), 0)
  {
    c.Locate(if block.Some? then block.value else 0, offset);
  }

  lemma NameOfBlock(c: Layout, last: Option<nat>, lastOffset: nat, b: nat, k: nat)
    requires c.Valid() && LastValid(c, last, lastOffset) && b < |c.blocks| && k < c.blocks[b].pages
    ensures RingPos(c, b, k) < c.Count() && c.PageAt(RingPos(c, b, k)) == k
    ensures last.Some? ==> RingPos(c, last.value, lastOffset) < c.Count()
    ensures NameAt(c, LastPos(c, last, lastOffset), RingPos(c, b, k))
         == if last == Some(b) then None else Some(c.blocks[b].id)
  {
    c.Locate(b, k);
    if last.Some? {
      c.Locate(last.value, lastOffset);
    }
  }

  /** Advancing block pointer and offset is one step on the ring. */
  lemma Advance(c: Layout, b: nat, k: nat, origin: nat, seen: nat)
    requires c.Valid() && Here(c, b, k, origin, seen) && origin < c.Count()
    ensures var wraps := k + 1 >= c.blocks[b].pages;
            var b' := if !wraps then b else if b + 1 < |c.blocks| then b + 1 else 0;
            var k' := if wraps then 0 else k + 1;
            && b' < |c.blocks| && k' < c.blocks[b'].pages
            && RingPos(c, b', k') == Next(c.Count(), RingPos(c, b, k)) < c.Count()
            && if seen + 1 < c.Count() then Here(c, b', k', origin, seen + 1) else RingPos(c, b', k') == origin
  {
    c.Locate(b, k);
    if k + 1 < c.blocks[b].pages {
      c.Locate(b, k + 1);
    } else if b + 1 < |c.blocks| {
      c.Locate(b + 1, 0);
    } else {
      c.Locate(0, 0);
    }
  }

  /** The loop condition compares addresses; they agree exactly on the page the walk began at. */
  lemma BackAtOrigin(c: Layout, b: nat, k: nat, last: nat, lastOffset: nat, seen: nat)
    requires c.Valid() && b < |c.blocks| && k < c.blocks[b].pages
    requires last < |c.blocks| && lastOffset < c.blocks[last].pages
    ensures BlockAddr(c, b, k) == BlockAddr(c, last, lastOffset)
       <==> RingPos(c, b, k) == RingPos(c, last, lastOffset)
    ensures RingPos(c, b, k) == RingPos(c, last, lastOffset) ==> b == last && k == lastOffset
  {
    c.Locate(b, k);
    c.Locate(last, lastOffset);
    if BlockAddr(c, b, k) == BlockAddr(c, last, lastOffset) {
      c.AddrInjective(RingPos(c, b, k), RingPos(c, last, lastOffset));
    }
  }
}
