/**
 `ram_load` and its helpers (arch_init.c), reading raw bytes. Reading past the end
 of the stream yields zeros and raises the file error, as `qemu_get_byte` does.
 */
module RamReceiver {
  import opened Bytes
  import opened RamLayout
  import opened RamStream

  datatype LoadResult = Loaded | Invalid | IoError | BadAddress

  function ByteAt(f: seq<byte>, pos: nat): byte { if pos < |f| then f[pos] else 0 }

  function BytesAt(f: seq<byte>, pos: nat, n: nat): (s: seq<byte>)
    ensures |s| == n
  {
    seq<byte>(n, i requires 0 <= i => ByteAt(f, pos + i))
  }

  function GetWord(f: seq<byte>, pos: nat, width: nat): (v: nat)
    ensures v < Pow256(width)
  {
    FromBeBelow(BytesAt(f, pos, width));
    FromBe(BytesAt(f, pos, width))
  }

  /** The part of a word below the page size. */
  function Low(word: nat, size: nat): (r: nat)
    requires size > 0
    ensures r <= word && r < size
  {
    RemainderBelow(word, size);
    word % size
  }

  /** The page a word addresses. */
  function High(word: nat, size: nat): nat
    requires size > 0
  {
    word / size
  }

  lemma RemainderBelow(a: nat, m: nat)
    requires m > 0
    ensures a % m <= a
  {
    if a < m {
      DivModUnique(a, m, 0, a);
    }
  }

  /** A name buffer read as a C string. */
  function CString(s: seq<byte>): (r: seq<byte>)
    ensures 0 !in s ==> r == s
    ensures 0 !in r
  {
    if s == [] || s[0] == 0 then [] else [s[0]] + CString(s[1..])
  }

  /** The bytes `x` are next in the stream. */
  ghost predicate At(f: seq<byte>, pos: nat, x: seq<byte>) {
    pos + |x| <= |f| && f[pos..pos + |x|] == x
  }

  lemma AtSplit(f: seq<byte>, pos: nat, x: seq<byte>, y: seq<byte>)
    requires At(f, pos, x + y)
    ensures At(f, pos, x) && At(f, pos + |x|, y)
  {
    assert forall i :: 0 <= i < |x| ==> (x + y)[i] == x[i];
    assert f[pos..pos + |x|] == (x + y)[..|x|] == x;
    assert f[pos + |x|..pos + |x| + |y|] == (x + y)[|x|..] == y;
  }

  lemma AtRead(f: seq<byte>, pos: nat, x: seq<byte>)
    requires At(f, pos, x)
    ensures BytesAt(f, pos, |x|) == x
  {
    forall i | 0 <= i < |x| ensures BytesAt(f, pos, |x|)[i] == x[i] {
      assert x[i] == f[pos..pos + |x|][i] == f[pos + i];
    }
  }

  /** The row of a block list that starts at `pos`, and where the next one starts. */
  function RowAt(width: nat, f: seq<byte>, pos: nat): Entry {
    var len := ByteAt(f, pos);
    Entry(CString(BytesAt(f, pos + 1, len)), GetWord(f, pos + 1 + len, width))
  }

  function NextRow(width: nat, f: seq<byte>, pos: nat): nat { pos + 1 + ByteAt(f, pos) + width }

  /** The `n` rows from `pos` on, and where they end. */
  function RowsFrom(width: nat, f: seq<byte>, pos: nat, n: nat): (seq<Entry>, nat) {
    if n == 0 then ([], pos)
    else
      var (rows, p) := RowsFrom(width, f, pos, n - 1);
      (rows + [RowAt(width, f, p)], NextRow(width, f, p))
  }

  /** The machine has this block, with this length. */
  predicate Has(ram: Ram, e: Entry) { e.id in ram && ram[e.id].length == e.length }

  /** Between `pos` and `end` the stream lists the blocks `entries`. */
  ghost predicate RowsAhead(width: nat, f: seq<byte>, pos: nat, end: nat, entries: seq<Entry>)
    decreases |entries|
  {
    if entries == [] then pos == end
    else
      && entries[0].length > 0 && RowAt(width, f, pos) == entries[0]
      && RowsAhead(width, f, NextRow(width, f, pos), end, entries[1..])
  }

  /** From `pos` to `end` the stream holds the section `rs`. */
  ghost predicate SectionAhead(fmt: Format, f: seq<byte>, pos: nat, end: nat, rs: seq<Record>)
    decreases |rs|
  {
    && rs != [] && Wire(fmt, rs[0]) && At(f, pos, Encode(fmt, rs[0]))
    && var next := pos + |Encode(fmt, rs[0])|;
    if rs[0] == Eos then next == end && |rs| == 1 else SectionAhead(fmt, f, next, end, rs[1..])
  }

  class Receiver {
    const fmt: Format
    var block: Option<Id>
    var ram: Ram

    /** Page offsets fit a word above the flags and no block has an empty name. */
    ghost predicate Valid()
      reads this
    {
      fmt.Valid() && [] !in ram && (block.Some? ==> block.value in ram)
    }

    ghost function State(): Rx
      reads this
    {
      Rx(block, ram)
    }

    constructor (fmt: Format, ram: Ram)
      requires fmt.Valid() && [] !in ram
      ensures Valid() && this.fmt == fmt && State() == Rx(None, ram)
    {
      this.fmt := fmt;
      this.block := None;
      this.ram := ram;
    }

    /** One row of the list: a name and a length. */
    method ReadRow(f: seq<byte>, pos: nat) returns (row: Entry, next: nat)
      ensures row == RowAt(fmt.width, f, pos) && next == NextRow(fmt.width, f, pos)
    {
      var len := ByteAt(f, pos);
      var id := CString(BytesAt(f, pos + 1, len));
      var length := GetWord(f, pos + 1 + len, fmt.width);
      return Entry(id, length), pos + 1 + len + fmt.width;
    }

    /**
     The `while (total_ram_bytes)` loop. It reads `n` rows. If it accepts them they name blocks of this
     machine, with their lengths, and these add up to `total` in 64 bits; otherwise the last of them does not
     fit the machine and all before it do. If the stream holds the rows the sender wrote, they are accepted
     exactly when the machine has all the blocks, and then exactly those rows are consumed.
     */
    method SyncBlockList(f: seq<byte>, pos: nat, total: nat, ghost entries: seq<Entry>, ghost end: nat)
      returns (ok: bool, next: nat, ghost n: nat)
      requires Valid() && total < TWO_TO_THE_64
      ensures next >= pos && next == RowsFrom(fmt.width, f, pos, n).1
      ensures if ok then RowsFit(fmt.width, ram, f, pos, total, n) else LastUnfit(fmt.width, ram, f, pos, n)
      ensures Listing(fmt.width, ram, f, pos, end, total, entries).There()
              ==> (ok <==> Known(ram, entries)) && (ok ==> next == end)
    {
      ok, next, n := ReadRows(f, pos, total, Listing(fmt.width, ram, f, pos, end, total, entries));
    }

    /** One turn of the loop: a row is read, looked up and counted. */
    method CheckRow(f: seq<byte>, pos: nat, left: nat, ghost g: Listing, ghost n: nat, ghost rest: seq<Entry>)
      returns (ok: bool, next: nat, left': nat, ghost rest': seq<Entry>)
      requires Valid() && g.width == fmt.width && g.ram == ram && g.f == f && left != 0 && g.Ongoing(n, pos, rest, left)
      ensures next > pos && (ok ==> pos < |f|)
      ensures if ok then g.Ongoing(n + 1, next, rest', left') else g.Result(false, next, n + 1)
    {
      var row;
      row, next := ReadRow(f, pos);
      ok, left', rest' := row.id in ram && ram[row.id].length == row.length, 0, rest;
      NoRowPastEnd(fmt.width, f, pos);
      if ok {
        rest' := g.Next(n, pos, rest, left);
        left' := (left - row.length) % TWO_TO_THE_64;
      } else {
        g.Unfit(n, pos, rest, left);
      }
    }

    method ReadRows(f: seq<byte>, pos: nat, total: nat, ghost g: Listing) returns (ok: bool, next: nat, ghost n: nat)
      requires Valid() && total < TWO_TO_THE_64
      requires g.width == fmt.width && g.ram == ram && g.f == f && g.pos == pos && g.total == total
      ensures next >= pos && g.Result(ok, next, n)
    {
      var left: nat := total;
      ok, next, n := true, pos, 0;
      ghost var rest := g.entries;
      g.Start();
      while left != 0
        invariant ok && next >= pos && g.Ongoing(n, next, rest, left)
        decreases |f| - next
      {
        ok, next, left, rest := CheckRow(f, next, left, g, n, rest);
        n := n + 1;
        if !ok {
          return;
        }
      }
      g.Over(n, next, rest);
    }

    /** `host_from_stream_offset`: pick the block of a page record. */
    method HostFromStreamOffset(f: seq<byte>, pos: nat, flags: nat, ghost id: Option<Id>)
      returns (found: bool, next: nat)
      requires Valid()
      modifies this`block
      ensures next >= pos
      ensures Valid()
      ensures found <==> block.Some?
      ensures (HasBit(flags, FLAG_CONTINUE) <==> id.None?) && (id.Some? ==> WireName(id.value))
              && At(f, pos, OptionalName(id))
              ==> && next == pos + |OptionalName(id)|
                  && block == (if id.None? then old(block) else if id.value in ram then id else None)
    {
      if HasBit(flags, FLAG_CONTINUE) {
        return block.Some?, pos;
      }
      var len := ByteAt(f, pos);
      var name := CString(BytesAt(f, pos + 1, len));
      next := pos + 1 + len;
      ghost var hyp := id.Some? && WireName(id.value) && At(f, pos, OptionalName(id));
      if hyp {
        NameReads(f, pos, id.value);
      }
      if name in ram {
        block := Some(name);
        found := true;
      } else {
        block := None;
        found := false;
      }
    }

    /** Write one page at `host + offset`; outside the current block this would corrupt memory. */
    method WriteHost(page: nat, data: Page) returns (ok: bool)
      requires Valid() && block.Some?
      modifies this`ram
      ensures Valid()
      ensures var s := Store(old(State()), None, page, data);
              ok == s.Some? && State() == (if ok then s.value else old(State()))
    {
      ok := page < |ram[block.value].pages|;
      if ok {
        ram := Put(ram, block.value, page, data);
      }
    }

    /** The contents of a page record, once its block is known. */
    method LoadContents(f: seq<byte>, pos: nat, flags: nat, page: nat) returns (ok: bool, next: nat)
      requires Valid() && block.Some?
      modifies this`ram
      ensures Valid() && next == pos + DataLength(fmt.PageSize(), flags)
      ensures var s := Store(old(State()), None, page, DataAt(fmt.PageSize(), f, pos, flags));
              ok == s.Some? && State() == (if ok then s.value else old(State()))
    {
      var size := fmt.PageSize();
      if HasBit(flags, FLAG_COMPRESS) {
        ok := WriteHost(page, Fill(size, ByteAt(f, pos)));
        next := pos + 1;
      } else {
        ok := WriteHost(page, BytesAt(f, pos, size));
        next := pos + size;
      }
    }

    /** What the machine makes of record `r`: its effect, or a refusal exactly when the record has none. */
    ghost predicate Took(before: Rx, r: Record, ret: LoadResult, length: int)
      reads this
    {
      match Apply(fmt.PageSize(), before, r)
      case Some(after) => ret == Loaded && length == |Body(fmt.width, r)| && State() == after
      case None => ret != Loaded
    }

    /** The part of a page record after its leading word. */
    method LoadPage(f: seq<byte>, pos: nat, flags: nat, page: nat, ghost r: Record)
      returns (ret: LoadResult, next: nat)
      requires Valid()
      modifies this
      ensures Valid() && next >= pos
      ensures PageThere(fmt, f, pos, r) && flags == Flags(r) && page == r.page
              ==> Took(old(State()), r, ret, next - pos)
    {
      ghost var there := PageThere(fmt, f, pos, r) && flags == Flags(r) && page == r.page;
      ghost var id := if there then r.id else None;
      if there {
        FlagTests(r);
        PageAhead(fmt, State(), f, pos, r);
      }
      var found;
      found, next := HostFromStreamOffset(f, pos, flags, id);
      if !found {
        return if HasBit(flags, FLAG_COMPRESS) then Invalid else BadAddress, next;
      }
      var ok;
      ok, next := LoadContents(f, next, flags, page);
      ret := if ok then Loaded else BadAddress;
    }

    /**
     The rest of a record once its leading word is split into flags and address. `there` says that `r` is what
     the stream holds.
     */
    method LoadBody(f: seq<byte>, pos: nat, flags: nat, addr: nat, page: nat, ghost r: Record, ghost there: bool)
      returns (ret: LoadResult, next: nat)
      requires Valid() && addr < TWO_TO_THE_64
      requires there ==> Wire(fmt, r) && flags == Flags(r) && Addressed(r, addr, page) && At(f, pos, Body(fmt.width, r))
      modifies this
      ensures Valid() && next >= pos
      ensures there ==> Took(old(State()), r, ret, next - pos)
    {
      var list, isPage := HasBit(flags, FLAG_MEM_SIZE), HasBit(flags, FLAG_COMPRESS) || HasBit(flags, FLAG_PAGE);
      if there {
        KindTests(r, list, isPage);
      }
      ret, next := Loaded, pos;
      if list {
        ret, next := LoadList(f, next, addr, r, there);
        if ret != Loaded {
          return;
        }
      }
      if isPage {
        ret, next := LoadPage(f, next, flags, page, r);
      }
    }

    /** The block list of a record. */
    method LoadList(f: seq<byte>, pos: nat, addr: nat, ghost r: Record, ghost there: bool)
      returns (ret: LoadResult, next: nat)
      requires Valid() && addr < TWO_TO_THE_64
      requires there ==> r.BlockList? && Wire(fmt, r) && addr == TotalLength(r.entries)
      requires there ==> At(f, pos, Body(fmt.width, r))
      ensures next >= pos && (there ==> Took(State(), r, ret, next - pos))
    {
      ghost var entries, end := if there then r.entries else [], pos;
      if there {
        end := pos + |Body(fmt.width, r)|;
        EncodedRows(fmt.width, f, pos, entries, end);
      }
      var ok;
      ghost var n;
      ok, next, n := SyncBlockList(f, pos, addr, entries, end);
      ret := if ok then Loaded else Invalid;
    }

    /** One pass through the body of the `do` loop. */
    method LoadRecord(f: seq<byte>, pos: nat, ghost r: Record) returns (ret: LoadResult, next: nat, eos: bool)
      requires Valid()
      modifies this
      ensures Valid() && next >= pos + fmt.width
      ensures ret == Loaded ==> next <= |f|
      ensures Wire(fmt, r) && At(f, pos, Encode(fmt, r))
              ==> Took(old(State()), r, ret, next - pos - fmt.width) && (eos <==> r == Eos)
    {
      ghost var there := Wire(fmt, r) && At(f, pos, Encode(fmt, r));
      var flags, addr, page := SplitWord(f, pos, r);
      ret, next := LoadBody(f, pos + fmt.width, flags, addr, page, r, there);
      eos := HasBit(flags, FLAG_EOS);
      if there {
        FlagTests(r);
        assert |Encode(fmt, r)| == fmt.width + |Body(fmt.width, r)|;
      }
      if ret == Loaded && next > |f| {
        ret := IoError;
      }
    }

    /**
     `flags = addr & ~TARGET_PAGE_MASK; addr &= TARGET_PAGE_MASK`; the masks are the
     remainder and its complement (`MasksAreRemainders`). `page` numbers the page at `addr`.
     */
    method SplitWord(f: seq<byte>, pos: nat, ghost r: Record) returns (flags: nat, addr: nat, page: nat)
      requires Valid()
      ensures addr < TWO_TO_THE_64
      ensures Wire(fmt, r) && At(f, pos, Encode(fmt, r))
              ==> flags == Flags(r) && Addressed(r, addr, page) && At(f, pos + fmt.width, Body(fmt.width, r))
    {
      var word := GetWord(f, pos, fmt.width);
      flags := Low(word, fmt.PageSize());
      addr := word - flags;
      page := High(addr, fmt.PageSize());
      if Wire(fmt, r) && At(f, pos, Encode(fmt, r)) {
        LeadingWord(fmt, f, pos, r);
      }
    }

    /**
     `ram_load`, version 4. Whatever the bytes, it stops. When they begin with a section the sender wrote, it
     succeeds exactly when the records make sense to this machine; then it has consumed exactly that section and
     leaves the machine as replaying the records does.
     */
    method RamLoad(f: seq<byte>, pos: nat, ghost section: seq<Record>) returns (ret: LoadResult, next: nat)
      requires Valid()
      modifies this
      ensures Valid() && next >= pos
      ensures Written(fmt, f, pos, section) ==>
                match Replay(fmt.PageSize(), old(State()), section)
                case Some(after) => ret == Loaded && next == pos + |EncodeAll(fmt, section)| && State() == after
                case None => ret != Loaded
    {
      ghost var there, rx := Written(fmt, f, pos, section), State();
      ghost var rest, end := section, pos + |EncodeAll(fmt, section)|;
      if there {
        EncodedSection(fmt, f, pos, end, section);
      }
      next := pos;
      ret := Loaded;
      var eos := false;
      while !eos
        invariant Valid() && next >= pos
        invariant there ==> Replay(fmt.PageSize(), State(), rest) == Replay(fmt.PageSize(), rx, section)
        invariant there ==> if eos then next == end && rest == [] else SectionAhead(fmt, f, next, end, rest)
        invariant next > |f| ==> next == pos
        invariant ret == Loaded
        decreases !eos, |f| - next
      {
        if there {
          ReplayFront(fmt.PageSize(), State(), rest);
        }
        ret, next, eos := LoadRecord(f, next, if there then rest[0] else Eos);
        if ret != Loaded {
          return;
        }
        if there {
          rest := rest[1..];
        }
      }
    }
  }

  /** `f` has at `pos` a section that the sender wrote. */
  ghost predicate Written(fmt: Format, f: seq<byte>, pos: nat, section: seq<Record>) {
    IsSection(fmt, section) && At(f, pos, EncodeAll(fmt, section))
  }

  // ---------- rows ----------

  /** The `n` rows are of blocks the machine has, and their lengths add up to `total`. */
  ghost predicate RowsFit(width: nat, ram: Ram, f: seq<byte>, pos: nat, total: nat, n: nat) {
    var rows := RowsFrom(width, f, pos, n).0;
    Known(ram, rows) && TotalLength(rows) % TWO_TO_THE_64 == total
  }

  /** All but the last of `n` rows are of blocks the machine has. */
  ghost predicate LastUnfit(width: nat, ram: Ram, f: seq<byte>, pos: nat, n: nat) {
    n > 0 && var (rows, p) := RowsFrom(width, f, pos, n - 1); Known(ram, rows) && !Has(ram, RowAt(width, f, p))
  }

  /** A row read past the end of the stream has an empty name. */
  lemma NoRowPastEnd(width: nat, f: seq<byte>, pos: nat)
    ensures RowAt(width, f, pos).id != [] ==> pos < |f|
    ensures NextRow(width, f, pos) > pos
  {
  }

  lemma {:induction false} TotalLengthAppend(rows: seq<Entry>, e: Entry)
    ensures TotalLength(rows + [e]) == TotalLength(rows) + e.length
  {
    if rows != [] {
      assert (rows + [e])[1..] == rows[1..] + [e];
      TotalLengthAppend(rows[1..], e);
    } else {
      assert [e][1..] == [];
    }
  }

  lemma SubtractTwice(a: int, b: nat)
    ensures (a % TWO_TO_THE_64 - b) % TWO_TO_THE_64 == (a - b) % TWO_TO_THE_64
  {
  }

  /** What the countdown says when it reaches zero. */
  lemma RowsSum(sum: nat, total: nat)
    requires total < TWO_TO_THE_64 && (total - sum) % TWO_TO_THE_64 == 0
    ensures sum % TWO_TO_THE_64 == total
  {
  }

  /** What the block list loop works on: the stream from `pos` on, and the rows `entries` that may be there. */
  datatype Listing = Listing(width: nat, ram: Ram, f: seq<byte>, pos: nat, end: nat, total: nat, entries: seq<Entry>) {
    /** The sender wrote these rows. */
    ghost predicate There() { total == TotalLength(entries) && RowsAhead(width, f, pos, end, entries) }

    /** The loop has read `n` rows, all of blocks the machine has, and `left` bytes are still to be listed. */
    ghost predicate Done(n: nat, next: nat, left: nat) {
      var (rows, p) := RowsFrom(width, f, pos, n);
      p == next && Known(ram, rows) && left == (total - TotalLength(rows)) % TWO_TO_THE_64
    }

    /** Of the rows the sender wrote, `rest` are still ahead; whether the machine has all blocks is up to them. */
    ghost predicate Left(next: nat, rest: seq<Entry>, left: nat) {
      left == TotalLength(rest) && RowsAhead(width, f, next, end, rest) && (Known(ram, rest) <==> Known(ram, entries))
    }

    ghost predicate Ongoing(n: nat, next: nat, rest: seq<Entry>, left: nat) {
      left < TWO_TO_THE_64 && Done(n, next, left) && (There() ==> Left(next, rest, left))
    }

    /** What the loop gives: whether it accepts, where it stops and how many rows it has read. */
    ghost predicate Result(ok: bool, next: nat, n: nat) {
      && next == RowsFrom(width, f, pos, n).1
      && (if ok then RowsFit(width, ram, f, pos, total, n) else LastUnfit(width, ram, f, pos, n))
      && (There() ==> (ok <==> Known(ram, entries)) && (ok ==> next == end))
    }

    lemma Start()
      requires total < TWO_TO_THE_64
      ensures Ongoing(0, pos, entries, total)
    {
    }

    lemma Unfit(n: nat, next: nat, rest: seq<Entry>, left: nat)
      requires Ongoing(n, next, rest, left) && left > 0 && !Has(ram, RowAt(width, f, next))
      ensures Result(false, NextRow(width, f, next), n + 1)
    {
      if There() {
        KnownFront(ram, rest);
      }
    }

    lemma Next(n: nat, next: nat, rest: seq<Entry>, left: nat) returns (rest': seq<Entry>)
      requires Ongoing(n, next, rest, left) && left > 0 && Has(ram, RowAt(width, f, next))
      ensures Ongoing(n + 1, NextRow(width, f, next), rest', (left - RowAt(width, f, next).length) % TWO_TO_THE_64)
    {
      DoneNext(n, next, left);
      rest' := rest;
      if There() {
        KnownFront(ram, rest);
        rest' := rest[1..];
      }
    }

    lemma DoneNext(n: nat, next: nat, left: nat)
      requires Done(n, next, left) && Has(ram, RowAt(width, f, next))
      ensures Done(n + 1, NextRow(width, f, next), (left - RowAt(width, f, next).length) % TWO_TO_THE_64)
    {
      var rows, e := RowsFrom(width, f, pos, n).0, RowAt(width, f, next);
      TotalLengthAppend(rows, e);
      SubtractTwice(total - TotalLength(rows), e.length);
    }

    lemma Over(n: nat, next: nat, rest: seq<Entry>)
      requires Ongoing(n, next, rest, 0) && total < TWO_TO_THE_64
      ensures Result(true, next, n)
    {
      RowsSum(TotalLength(RowsFrom(width, f, pos, n).0), total);
    }
  }

  lemma KnownFront(ram: Ram, rest: seq<Entry>)
    requires rest != []
    ensures Known(ram, rest) <==> Has(ram, rest[0]) && Known(ram, rest[1..])
  {
    assert rest == [rest[0]] + rest[1..];
  }

  // ---------- records and sections ----------

  /** Replaying from the front. */
  lemma {:induction false} ReplayFront(size: nat, rx: Rx, rs: seq<Record>)
    requires rs != []
    ensures match Apply(size, rx, rs[0])
            case Some(after) => Replay(size, rx, rs) == Replay(size, after, rs[1..])
            case None => Replay(size, rx, rs) == None
    decreases |rs|
  {
    var init := rs[..|rs| - 1];
    if init == [] {
      assert Replay(size, rx, init) == Some(rx);
    } else {
      ReplayFront(size, rx, init);
      assert rs[1..][..|rs| - 2] == init[1..];
    }
  }

  lemma FirstRecord(fmt: Format, f: seq<byte>, pos: nat, rs: seq<Record>)
    requires rs != [] && At(f, pos, EncodeAll(fmt, rs))
    ensures At(f, pos, Encode(fmt, rs[0])) && At(f, pos + |Encode(fmt, rs[0])|, EncodeAll(fmt, rs[1..]))
    ensures |EncodeAll(fmt, rs)| == |Encode(fmt, rs[0])| + |EncodeAll(fmt, rs[1..])|
  {
    AtSplit(f, pos, Encode(fmt, rs[0]), EncodeAll(fmt, rs[1..]));
  }

  /** A section written out is a section ahead. */
  lemma {:induction false} EncodedSection(fmt: Format, f: seq<byte>, pos: nat, end: nat, rs: seq<Record>)
    requires IsSection(fmt, rs) && At(f, pos, EncodeAll(fmt, rs)) && end == pos + |EncodeAll(fmt, rs)|
    ensures SectionAhead(fmt, f, pos, end, rs)
    decreases |rs|
  {
    SectionTail(fmt, rs);
    FirstRecord(fmt, f, pos, rs);
    if rs[0] == Eos {
      assert rs[1..] == [];
    } else {
      EncodedSection(fmt, f, pos + |Encode(fmt, rs[0])|, end, rs[1..]);
      SectionCons(fmt, f, pos, end, rs);
    }
  }

  lemma SectionCons(fmt: Format, f: seq<byte>, pos: nat, end: nat, rs: seq<Record>)
    requires rs != [] && rs[0] != Eos && Wire(fmt, rs[0]) && At(f, pos, Encode(fmt, rs[0]))
    requires SectionAhead(fmt, f, pos + |Encode(fmt, rs[0])|, end, rs[1..])
    ensures SectionAhead(fmt, f, pos, end, rs)
  {
  }

  lemma SectionTail(fmt: Format, rs: seq<Record>)
    requires IsSection(fmt, rs)
    ensures if rs[0] == Eos then |rs| == 1 else IsSection(fmt, rs[1..])
  {
    assert forall i :: 0 <= i < |rs| - 1 ==> rs[1..][i] == rs[i + 1];
  }

  /** What every entry of a block list is. */
  ghost predicate Listable(width: nat, entries: seq<Entry>) {
    && (forall e :: e in entries ==> WireName(e.id) && e.length > 0)
    && TotalLength(entries) < Pow256(width)
  }

  lemma ListableRest(width: nat, entries: seq<Entry>)
    requires Listable(width, entries) && entries != []
    ensures Listable(width, entries[1..]) && WireName(entries[0].id) && 0 < entries[0].length < Pow256(width)
  {
    assert entries[0] in entries;
    assert forall e :: e in entries[1..] ==> e in entries;
  }

  lemma FirstRow(width: nat, f: seq<byte>, pos: nat, entries: seq<Entry>)
    requires entries != [] && WireName(entries[0].id) && entries[0].length < Pow256(width)
             && At(f, pos, EncodeEntries(width, entries))
    ensures RowAt(width, f, pos) == entries[0] && NextRow(width, f, pos) == pos + 1 + |entries[0].id| + width
    ensures At(f, pos + 1 + |entries[0].id| + width, EncodeEntries(width, entries[1..]))
    ensures |EncodeEntries(width, entries)| == 1 + |entries[0].id| + width + |EncodeEntries(width, entries[1..])|
  {
    var tail := EncodeEntries(width, entries[1..]);
    RowsEncode(width, entries);
    RowReads(width, f, pos, entries[0], tail);
  }

  lemma RowsEncode(width: nat, entries: seq<Entry>)
    requires entries != []
    ensures var e := entries[0];
            && EncodeEntries(width, entries) == Name(e.id) + Be(e.length, width) + EncodeEntries(width, entries[1..])
            && |Name(e.id) + Be(e.length, width)| == 1 + |e.id| + width
  {
  }

  /** A written-out block list is a list of rows ahead. */
  lemma {:induction false} EncodedRows(width: nat, f: seq<byte>, pos: nat, entries: seq<Entry>, end: nat)
    requires Listable(width, entries)
    requires At(f, pos, EncodeEntries(width, entries)) && end == pos + |EncodeEntries(width, entries)|
    ensures RowsAhead(width, f, pos, end, entries)
    decreases |entries|
  {
    if entries != [] {
      ListableRest(width, entries);
      FirstRow(width, f, pos, entries);
      EncodedRows(width, f, NextRow(width, f, pos), entries[1..], end);
    }
  }

  /** What the flag tests say about a record. */
  lemma KindTests(r: Record, list: bool, isPage: bool)
    requires list == HasBit(Flags(r), FLAG_MEM_SIZE)
             && isPage == (HasBit(Flags(r), FLAG_COMPRESS) || HasBit(Flags(r), FLAG_PAGE))
    ensures (list <==> r.BlockList?) && (isPage <==> r.Compressed? || r.FullPage?)
  {
    FlagTests(r);
  }

  lemma RowReads(width: nat, f: seq<byte>, pos: nat, e: Entry, tail: seq<byte>)
    requires WireName(e.id) && e.length < Pow256(width)
    requires At(f, pos, Name(e.id) + Be(e.length, width) + tail)
    ensures RowAt(width, f, pos) == e && NextRow(width, f, pos) == pos + 1 + |e.id| + width
    ensures At(f, pos + 1 + |e.id| + width, tail)
  {
    AtSplit(f, pos, Name(e.id) + Be(e.length, width), tail);
    AtSplit(f, pos, Name(e.id), Be(e.length, width));
    NameReads(f, pos, e.id);
    WordReads(width, f, pos + 1 + |e.id|, e.length);
  }

  /** The flags of each record's leading word. */
  function Flags(r: Record): nat {
    match r
    case BlockList(_) => 0x04
    case Compressed(id, _, _) => if id.Some? then 0x02 else 0x22
    case FullPage(id, _, _) => if id.Some? then 0x08 else 0x28
    case Eos => 0x10
  }

  /** What the address of a leading word says: a total size or a page. */
  ghost predicate Addressed(r: Record, addr: int, page: int) {
    && (r.BlockList? ==> addr == TotalLength(r.entries))
    && (r.Compressed? || r.FullPage? ==> page == r.page)
  }

  /** The receiver's flag tests single out the kind of each record. */
  lemma FlagTests(r: Record)
    ensures HasBit(Flags(r), FLAG_MEM_SIZE) <==> r.BlockList?
    ensures HasBit(Flags(r), FLAG_COMPRESS) <==> r.Compressed?
    ensures HasBit(Flags(r), FLAG_PAGE) <==> r.FullPage?
    ensures HasBit(Flags(r), FLAG_EOS) <==> r.Eos?
    ensures r.Compressed? || r.FullPage? ==> (HasBit(Flags(r), FLAG_CONTINUE) <==> r.id.None?)
  {
  }

  function Aligned(size: nat, r: Record): nat {
    match r
    case BlockList(entries) => TotalLength(entries)
    case Compressed(_, page, _) => page * size
    case FullPage(_, page, _) => page * size
    case Eos => 0
  }

  /** The page that follows the name in a record with these flags, and its length in the stream. */
  function DataAt(size: nat, f: seq<byte>, pos: nat, flags: nat): Page {
    if HasBit(flags, FLAG_COMPRESS) then Fill(size, ByteAt(f, pos)) else BytesAt(f, pos, size)
  }

  function DataLength(size: nat, flags: nat): nat { if HasBit(flags, FLAG_COMPRESS) then 1 else size }

  /** The body of a page record is there. */
  ghost predicate PageThere(fmt: Format, f: seq<byte>, pos: nat, r: Record) {
    (r.Compressed? || r.FullPage?) && Wire(fmt, r) && At(f, pos, Body(fmt.width, r))
  }

  lemma PageAhead(fmt: Format, rx: Rx, f: seq<byte>, pos: nat, r: Record)
    requires PageThere(fmt, f, pos, r)
    ensures At(f, pos, OptionalName(r.id)) && (r.id.Some? ==> WireName(r.id.value))
    ensures |Body(fmt.width, r)| == |OptionalName(r.id)| + DataLength(fmt.PageSize(), Flags(r))
    ensures Apply(fmt.PageSize(), rx, r)
         == Store(Rx(Target(rx, r.id), rx.ram), None, r.page,
                  DataAt(fmt.PageSize(), f, pos + |OptionalName(r.id)|, Flags(r)))
  {
    FlagTests(r);
    if r.Compressed? {
      CompressedBody(fmt, f, pos, r);
    } else {
      FullBody(fmt, f, pos, r);
    }
  }

  lemma CompressedBody(fmt: Format, f: seq<byte>, pos: nat, r: Record)
    requires r.Compressed? && At(f, pos, Body(fmt.width, r))
    ensures At(f, pos, OptionalName(r.id)) && ByteAt(f, pos + |OptionalName(r.id)|) == r.ch
    ensures |Body(fmt.width, r)| == |OptionalName(r.id)| + 1
  {
    var name := OptionalName(r.id);
    AtSplit(f, pos, name, [r.ch]);
    AtRead(f, pos + |name|, [r.ch]);
    assert BytesAt(f, pos + |name|, 1)[0] == ByteAt(f, pos + |name|);
  }

  lemma FullBody(fmt: Format, f: seq<byte>, pos: nat, r: Record)
    requires r.FullPage? && Wire(fmt, r) && At(f, pos, Body(fmt.width, r))
    ensures At(f, pos, OptionalName(r.id)) && BytesAt(f, pos + |OptionalName(r.id)|, fmt.PageSize()) == r.data
    ensures |Body(fmt.width, r)| == |OptionalName(r.id)| + fmt.PageSize()
  {
    var name := OptionalName(r.id);
    AtSplit(f, pos, name, r.data);
    AtRead(f, pos + |name|, r.data);
  }

  /** Every leading word is a page-aligned value or-ed with the record's flags. */
  lemma LeadShape(fmt: Format, r: Record)
    requires fmt.Valid() && Wire(fmt, r)
    ensures var size := fmt.PageSize();
            && Lead(size, r) == Or(Aligned(size, r), Flags(r))
            && Aligned(size, r) % size == 0 && Aligned(size, r) + size <= TWO_TO_THE_64
            && (r.Compressed? || r.FullPage? ==> Aligned(size, r) / size == r.page)
  {
    match r
    case BlockList(_) =>
    case Compressed(id, page, _) =>
      PageShape(fmt.PageSize(), id, page, FLAG_COMPRESS);
    case FullPage(id, page, _) =>
      PageShape(fmt.PageSize(), id, page, FLAG_PAGE);
    case Eos =>
      EosShape(fmt);
  }

  lemma EosShape(fmt: Format)
    requires fmt.Valid()
    ensures Or(0, FLAG_EOS) == FLAG_EOS && 0 % fmt.PageSize() == 0 && fmt.PageSize() <= TWO_TO_THE_64
  {
    OrZeroLeft(FLAG_EOS);
    Pow2Of64();
    Pow2Monotone(fmt.bits, 64);
  }

  lemma PageShape(size: nat, id: Option<Id>, page: nat, flag: nat)
    requires size > 0 && flag in {FLAG_COMPRESS, FLAG_PAGE}
    ensures PageWord(size, id, page, flag)
         == Or(page * size, if id.Some? then flag else flag + FLAG_CONTINUE)
    ensures (page * size) % size == 0 && (page * size) / size == page
    ensures (page + 1) * size == page * size + size
  {
    DivModUnique(page * size, size, page, 0);
    PageFlags(page * size, if id.Some? then 0 else FLAG_CONTINUE, flag);
  }

  /** The flags of a page record do not overlap. */
  lemma PageFlags(offset: nat, cont: nat, flag: nat)
    requires cont in {0, FLAG_CONTINUE} && flag in {FLAG_COMPRESS, FLAG_PAGE}
    ensures Or(Or(offset, cont), flag) == Or(offset, cont + flag)
  {
    OrAssociative(offset, cont, flag);
    assert Pow2(5) == 32;
    OrAligned(cont, flag, 5);
  }

  /** The receiver's masks recover offset and flags of any record, and the body follows. */
  lemma LeadingWord(fmt: Format, f: seq<byte>, pos: nat, r: Record)
    requires fmt.Valid() && Wire(fmt, r) && At(f, pos, Encode(fmt, r))
    ensures var word, size := GetWord(f, pos, fmt.width), fmt.PageSize();
            && Low(word, size) == Flags(r)
            && Addressed(r, word - Low(word, size), High(word - Low(word, size), size))
    ensures At(f, pos + fmt.width, Body(fmt.width, r))
  {
    var lead := Lead(fmt.PageSize(), r);
    LeadSplits(fmt, r);
    AtSplit(f, pos, Be(lead, fmt.width), Body(fmt.width, r));
    WordReads(fmt.width, f, pos, lead);
  }

  lemma LeadSplits(fmt: Format, r: Record)
    requires fmt.Valid() && Wire(fmt, r)
    ensures var lead, size := Lead(fmt.PageSize(), r), fmt.PageSize();
            && lead < TWO_TO_THE_64 && Low(lead, size) == Flags(r)
            && Addressed(r, lead - Low(lead, size), High(lead - Low(lead, size), size))
  {
    var size := fmt.PageSize();
    LeadShape(fmt, r);
    WordSplits(fmt.bits, Aligned(size, r), Flags(r));
  }

  lemma WordReads(width: nat, f: seq<byte>, pos: nat, v: nat)
    requires v < Pow256(width) && At(f, pos, Be(v, width))
    ensures GetWord(f, pos, width) == v
  {
    AtRead(f, pos, Be(v, width));
    BeRoundTrip(v, width);
  }

  lemma NameReads(f: seq<byte>, pos: nat, id: Id)
    requires WireName(id) && At(f, pos, Name(id))
    ensures ByteAt(f, pos) == |id| && CString(BytesAt(f, pos + 1, |id|)) == id
  {
    AtSplit(f, pos, [|id| % 256], id);
    assert f[pos..pos + 1][0] == f[pos];
    AtRead(f, pos + 1, id);
  }
}
