/**
 The stream between `ram_save_live` and `ram_load` (version 4): what the sender
 writes for each record, what a record means to the receiver, and the receiver's
 parser over raw bytes.
 */
module RamStream {
  import opened Bytes
  import opened RamLayout

  const FLAG_COMPRESS: nat := 0x02
  const FLAG_MEM_SIZE: nat := 0x04
  const FLAG_PAGE: nat := 0x08
  const FLAG_EOS: nat := 0x10
  const FLAG_CONTINUE: nat := 0x20

  /**
   The two sizes of the format: pages of 2^bits bytes and big-endian words of `width` bytes,
   which are 8. A word then holds 64 bits; that is stated beside it and follows (`WordsHold64Bits`).
   */
  datatype Format = Format(bits: nat, width: nat) {
    ghost predicate Valid() { 6 <= bits <= 64 && width == 8 && Pow256(width) == TWO_TO_THE_64 }

    function PageSize(): (p: nat)
      ensures p > 0
    {
      Pow2(bits)
    }
  }

  lemma WordsHold64Bits(fmt: Format)
    ensures fmt.Valid() <==> 6 <= fmt.bits <= 64 && fmt.width == 8
  {
    Pow256Is64Bits();
  }

  /** `id` is None when the record carries the CONTINUE flag instead of a block name. */
  datatype Record =
    | BlockList(entries: seq<Entry>)
    | Compressed(id: Option<Id>, page: nat, ch: byte)
    | FullPage(id: Option<Id>, page: nat, data: Page)
    | Eos

  /** One row of the block-list header: a name and a length in bytes. */
  datatype Entry = Entry(id: Id, length: nat)

  // ---------- meaning of a record ----------

  /** A block of the receiving machine: its length in bytes and its pages. */
  datatype HostBlock = HostBlock(length: nat, pages: seq<Page>)

  type Ram = map<Id, HostBlock>

  /** The receiver: the static `block` of `host_from_stream_offset` and its RAM by block name. */
  datatype Rx = Rx(cur: Option<Id>, ram: Ram)

  function Fill(size: nat, ch: byte): (p: Page)
    ensures |p| == size && forall i :: 0 <= i < size ==> p[i] == ch
  {
    seq(size, _ => ch)
  }

  function Target(rx: Rx, id: Option<Id>): Option<Id> { if id.Some? then id else rx.cur }

  /** Store one page, or fail when the block is unknown or the page lies outside it. */
  function Store(rx: Rx, id: Option<Id>, page: nat, data: Page): Option<Rx> {
    var t := Target(rx, id);
    if t.Some? && t.value in rx.ram && page < |rx.ram[t.value].pages| then
      Some(Rx(t, Put(rx.ram, t.value, page, data)))
    else
      None
  }

  function Put(ram: Ram, id: Id, page: nat, data: Page): Ram
    requires id in ram && page < |ram[id].pages|
  {
    ram[id := ram[id].(pages := ram[id].pages[page := data])]
  }

  /** Every listed block exists with the listed length. */
  predicate Known(ram: Ram, entries: seq<Entry>) {
    forall e :: e in entries ==> e.id in ram && ram[e.id].length == e.length
  }

  function Apply(size: nat, rx: Rx, r: Record): Option<Rx> {
    match r
    case BlockList(entries) => if Known(rx.ram, entries) then Some(rx) else None
    case Compressed(id, page, ch) => Store(rx, id, page, Fill(size, ch))
    case FullPage(id, page, data) => Store(rx, id, page, data)
    case Eos => Some(rx)
  }

  /** The receiver after a sequence of records. */
  function Replay(size: nat, rx: Rx, rs: seq<Record>): Option<Rx> {
    if rs == [] then Some(rx)
    else
      var before := Replay(size, rx, rs[..|rs| - 1]);
      if before.Some? then Apply(size, before.value, rs[|rs| - 1]) else None
  }

  // ---------- bytes of a record ----------

  /** `qemu_put_byte` keeps the low byte of the length. */
  function Name(id: Id): seq<byte> { [|id| % 256] + id }

  function OptionalName(id: Option<Id>): seq<byte> { if id.Some? then Name(id.value) else [] }

  /** The leading word `offset | cont | flag` of a page record. */
  function PageWord(size: nat, id: Option<Id>, page: nat, flag: nat): nat {
    Or(Or(page * size, if id.Some? then 0 else FLAG_CONTINUE), flag)
  }

  /** `ram_bytes_total` over the listed blocks. */
  function TotalLength(entries: seq<Entry>): nat {
    if entries == [] then 0 else entries[0].length + TotalLength(entries[1..])
  }

  function EncodeEntries(width: nat, entries: seq<Entry>): seq<byte> {
    if entries == [] then []
    else Name(entries[0].id) + Be(entries[0].length, width) + EncodeEntries(width, entries[1..])
  }

  /** A block name is a C string whose length fits one byte. */
  predicate WireName(id: Id) { |id| <= 255 && 0 !in id }

  /** A record the sender can produce for pages of `2^bits` bytes. */
  ghost predicate Wire(fmt: Format, r: Record) {
    match r
    case BlockList(entries) =>
      && TotalLength(entries) % fmt.PageSize() == 0 && TotalLength(entries) + fmt.PageSize() <= TWO_TO_THE_64
      && forall e :: e in entries ==> WireName(e.id) && e.length > 0
    case Compressed(id, page, _) => PageFits(fmt, id, page)
    case FullPage(id, page, data) => PageFits(fmt, id, page) && |data| == fmt.PageSize()
    case Eos => true
  }

  ghost predicate PageFits(fmt: Format, id: Option<Id>, page: nat) {
    (id.Some? ==> WireName(id.value)) && (page + 1) * fmt.PageSize() <= TWO_TO_THE_64
  }

  /** The 64-bit word in front of a record. */
  function Lead(size: nat, r: Record): nat {
    match r
    case BlockList(entries) => Or(TotalLength(entries), FLAG_MEM_SIZE)
    case Compressed(id, page, _) => PageWord(size, id, page, FLAG_COMPRESS)
    case FullPage(id, page, _) => PageWord(size, id, page, FLAG_PAGE)
    case Eos => FLAG_EOS
  }

  function Body(width: nat, r: Record): seq<byte> {
    match r
    case BlockList(entries) => EncodeEntries(width, entries)
    case Compressed(id, _, ch) => OptionalName(id) + [ch]
    case FullPage(id, _, data) => OptionalName(id) + data
    case Eos => []
  }

  function Encode(fmt: Format, r: Record): seq<byte> {
    Be(Lead(fmt.PageSize(), r), fmt.width) + Body(fmt.width, r)
  }

  function EncodeAll(fmt: Format, rs: seq<Record>): seq<byte> {
    if rs == [] then [] else Encode(fmt, rs[0]) + EncodeAll(fmt, rs[1..])
  }

  /** One call of `ram_save_live` writes a section: records closed by a single EOS. */
  ghost predicate IsSection(fmt: Format, rs: seq<Record>) {
    && rs != [] && rs[|rs| - 1] == Eos
    && (forall i :: 0 <= i < |rs| - 1 ==> rs[i] != Eos)
    && (forall r :: r in rs ==> Wire(fmt, r))
  }

  // ---------- the bytes themselves ----------

  lemma {:induction false} BeZero(n: nat)
    ensures Be(0, n) == seq(n, _ => 0)
  {
    if n > 0 {
      BeZero(n - 1);
    }
  }

  /** A word below 65536: six zero bytes, then the high byte and the low one. */
  lemma WordBytes(v: nat, high: byte, low: byte)
    requires v == 256 * high + low
    ensures Be(v, 8) == [0, 0, 0, 0, 0, 0, high, low]
  {
    BeZero(6);
    assert Be(high, 7) == Be(0, 6) + [high];
    assert Be(v, 8) == Be(high, 7) + [low];
  }

  /** The leading word of a page record, for pages of 4096 bytes. */
  lemma PageWordIs(id: Option<Id>, page: nat, flag: nat)
    requires flag in {FLAG_COMPRESS, FLAG_PAGE}
    ensures PageWord(4096, id, page, flag) == 4096 * page + (if id.Some? then 0 else FLAG_CONTINUE) + flag
  {
    var cont := if id.Some? then 0 else FLAG_CONTINUE;
    OrAssociative(page * 4096, cont, flag);
    FlagsOr(cont, flag);
    PageOr(page, cont + flag);
  }

  lemma FlagsOr(cont: nat, flag: nat)
    requires cont in {0, FLAG_CONTINUE} && flag in {FLAG_COMPRESS, FLAG_PAGE}
    ensures Or(cont, flag) == cont + flag
  {
    assert Pow2(5) == 32;
    OrAligned(cont, flag, 5);
  }

  lemma PageOr(page: nat, flags: nat)
    requires flags < 4096
    ensures Or(page * 4096, flags) == page * 4096 + flags
  {
    assert Pow2(12) == 4096;
    OrAligned(page * 4096, flags, 12);
  }

  /** The records of each kind as they are on the wire, for pages of 4096 bytes and a block named "a". */
  lemma EosBytes()
    ensures Encode(Format(12, 8), Eos) == [0, 0, 0, 0, 0, 0, 0, 0x10]
  {
    WordBytes(0x10, 0, 0x10);
  }

  lemma CompressedBytes(named: bool)
    ensures Encode(Format(12, 8), Compressed(if named then Some([0x61]) else None, 2, 7))
         == [0, 0, 0, 0, 0, 0, 0x20, if named then 0x02 else 0x22] + (if named then [1, 0x61] else []) + [7]
  {
    var id: Option<Id> := if named then Some([0x61]) else None;
    PageWordIs(id, 2, FLAG_COMPRESS);
    assert Format(12, 8).PageSize() == 4096;
    WordBytes(PageWord(4096, id, 2, FLAG_COMPRESS), 0x20, if named then 0x02 else 0x22);
  }

  lemma FullPageBytes(named: bool, data: Page)
    ensures Encode(Format(12, 8), FullPage(if named then Some([0x61]) else None, 1, data))
         == [0, 0, 0, 0, 0, 0, 0x10, if named then 0x08 else 0x28] + (if named then [1, 0x61] else []) + data
  {
    var id: Option<Id> := if named then Some([0x61]) else None;
    PageWordIs(id, 1, FLAG_PAGE);
    assert Format(12, 8).PageSize() == 4096;
    WordBytes(PageWord(4096, id, 1, FLAG_PAGE), 0x10, if named then 0x08 else 0x28);
  }

  lemma BlockListBytes()
    ensures Encode(Format(12, 8), BlockList([Entry([0x61], 4096)]))
         == [0, 0, 0, 0, 0, 0, 0x10, 0x04] + [1, 0x61] + [0, 0, 0, 0, 0, 0, 0x10, 0]
  {
    var entries := [Entry([0x61], 4096)];
    OneRow(entries);
    OneTotal(entries);
    WordBytes(0x1004, 0x10, 0x04);
  }

  lemma OneRow(entries: seq<Entry>)
    requires entries == [Entry([0x61], 4096)]
    ensures EncodeEntries(8, entries) == [1, 0x61] + [0, 0, 0, 0, 0, 0, 0x10, 0]
  {
    assert entries[1..] == [];
    WordBytes(0x1000, 0x10, 0);
  }

  lemma OneTotal(entries: seq<Entry>)
    requires entries == [Entry([0x61], 4096)]
    ensures Or(TotalLength(entries), FLAG_MEM_SIZE) == 0x1004
  {
    assert entries[1..] == [] && Pow2(12) == 4096;
    OrAligned(4096, FLAG_MEM_SIZE, 12);
  }

  // ---------- flags and offsets separate ----------

  /** An aligned offset or-ed with flags keeps both parts apart. */
  lemma WordSplits(bits: nat, aligned: nat, flags: nat)
    requires 6 <= bits <= 64 && flags < 64
    requires aligned % Pow2(bits) == 0 && aligned + Pow2(bits) <= TWO_TO_THE_64
    ensures var w := Or(aligned, flags);
            && w < TWO_TO_THE_64
            && w % Pow2(bits) == flags
            && w - w % Pow2(bits) == aligned
  {
    FlagsBelowPage(bits);
    OrAligned(aligned, flags, bits);
    ModAligned(aligned, flags, Pow2(bits));
  }

  /** `w & ~TARGET_PAGE_MASK` and `w & TARGET_PAGE_MASK` on a 64-bit word. */
  lemma MasksAreRemainders(bits: nat, w: nat)
    requires bits <= 64 && w < TWO_TO_THE_64
    ensures And(w, Pow2(bits) - 1) == w % Pow2(bits)
    ensures Pow2(bits) <= TWO_TO_THE_64
    ensures And(w, TWO_TO_THE_64 - Pow2(bits)) == w - w % Pow2(bits)
  {
    AndLowMask(w, bits);
    Pow2Of64();
    AndHighMask(w, bits, 64);
  }

  lemma FlagsBelowPage(bits: nat)
    requires 6 <= bits
    ensures Pow2(bits) >= 64
  {
    Pow2Monotone(6, bits);
    assert Pow2(6) == 64;
  }

  /** A page is a whole number of 32-bit words. */
  lemma WordsPerPage(c: Layout)
    requires c.Valid()
    ensures c.PageSize() % 4 == 0 && c.PageSize() >= 64
  {
    FlagsBelowPage(c.pageBits);
    assert Pow2(c.pageBits) == 2 * Pow2(c.pageBits - 1) == 4 * Pow2(c.pageBits - 2);
  }
}
