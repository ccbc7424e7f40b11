/**
 The RAM blocks of a machine (`RAMBlock`, `ram_list`) and the ring of pages
 they form when the sender walks them.
 */
module RamLayout {
  import opened Bytes

  type Id = seq<byte>
  type Page = seq<byte>

  /** A block holds `pages` pages; its length in bytes is `pages * PageSize()`. */
  datatype Block = Block(id: Id, offset: nat, pages: nat)

  /** Number of pages in the first `b` blocks. */
  function Start(blocks: seq<Block>, b: nat): nat
    requires b <= |blocks|
  {
    if b == 0 then 0 else Start(blocks, b - 1) + blocks[b - 1].pages
  }

  lemma {:induction false} StartMonotone(blocks: seq<Block>, a: nat, b: nat)
    requires a <= b <= |blocks|
    ensures Start(blocks, a) <= Start(blocks, b)
    decreases b - a
  {
    if a < b {
      StartMonotone(blocks, a, b - 1);
    }
  }

  datatype Layout = Layout(pageBits: nat, blocks: seq<Block>) {

    /** `TARGET_PAGE_SIZE`. */
    function PageSize(): (p: nat)
      ensures p > 0
    {
      Pow2(pageBits)
    }

    /** Number of pages in all blocks. */
    function Count(): nat { Start(blocks, |blocks|) }

    /**
     What the sender relies on: the flag bits fit below the page offset, names are
     C strings of at most 255 bytes and distinct, no block is empty, the list is
     sorted by offset without overlap, and the total size is a 64-bit value.
     */
    ghost predicate Valid() {
      && 6 <= pageBits
      && blocks != []
      && (forall b :: 0 <= b < |blocks| ==> |blocks[b].id| <= 255 && 0 !in blocks[b].id && blocks[b].pages > 0)
      && (forall a, b :: 0 <= a < b < |blocks| ==> blocks[a].id != blocks[b].id)
      && (forall a, b :: 0 <= a < b < |blocks| ==>
            blocks[a].offset + blocks[a].pages * PageSize() <= blocks[b].offset)
      && (Count() + 1) * PageSize() <= TWO_TO_THE_64
    }

    /** The block that holds page `i` of the ring. */
    function BlockAt(i: nat): (b: nat)
      requires i < Count()
      ensures b < |blocks| && Start(blocks, b) <= i < Start(blocks, b + 1)
    {
      FindBlock(|blocks|, i)
    }

    function FindBlock(n: nat, i: nat): (b: nat)
      requires n <= |blocks| && i < Start(blocks, n)
      ensures b < n && Start(blocks, b) <= i < Start(blocks, b + 1)
      decreases n
    {
      if Start(blocks, n - 1) <= i then n - 1 else FindBlock(n - 1, i)
    }

    /** The page number of ring page `i` inside its block. */
    function PageAt(i: nat): (k: nat)
      requires i < Count()
      ensures k < blocks[BlockAt(i)].pages
    {
      i - Start(blocks, BlockAt(i))
    }

    /** The `ram_addr_t` of ring page `i`. */
    function Addr(i: nat): nat
      requires i < Count()
    {
      blocks[BlockAt(i)].offset + PageAt(i) * PageSize()
    }

    /** Page `k` of block `b` sits at ring position `Start(b) + k`. */
    lemma Locate(b: nat, k: nat)
      requires b < |blocks| && k < blocks[b].pages
      ensures Start(blocks, b) + k < Count()
      ensures BlockAt(Start(blocks, b) + k) == b && PageAt(Start(blocks, b) + k) == k
    {
      StartMonotone(blocks, b + 1, |blocks|);
      var i := Start(blocks, b) + k;
      assert i < Start(blocks, b + 1);
      OneBlock(i, b, BlockAt(i));
    }

    lemma OneBlock(i: nat, a: nat, b: nat)
      requires a < |blocks| && Start(blocks, a) <= i < Start(blocks, a + 1)
      requires b < |blocks| && Start(blocks, b) <= i < Start(blocks, b + 1)
      ensures a == b
    {
      if a < b {
        StartMonotone(blocks, a + 1, b);
      } else if b < a {
        StartMonotone(blocks, b + 1, a);
      }
    }

    /** Distinct pages have distinct addresses, so the ring walk can compare addresses. */
    lemma AddrInjective(i: nat, j: nat)
      requires Valid() && i < Count() && j < Count() && Addr(i) == Addr(j)
      ensures i == j
    {
      if BlockAt(i) < BlockAt(j) {
        AddrBelow(i, j);
      } else if BlockAt(j) < BlockAt(i) {
        AddrBelow(j, i);
      } else if PageAt(i) < PageAt(j) {
        NextMultiple(PageAt(i), PageAt(j), PageSize());
      } else if PageAt(j) < PageAt(i) {
        NextMultiple(PageAt(j), PageAt(i), PageSize());
      }
    }

    lemma AddrBelow(i: nat, j: nat)
      requires Valid() && i < Count() && j < Count() && BlockAt(i) < BlockAt(j)
      ensures Addr(i) < Addr(j)
    {
      NextMultiple(PageAt(i), blocks[BlockAt(i)].pages, PageSize());
    }
  }

  // ---------- ring walks and flags ----------

  /** One step on a ring of `n` pages. */
  function Next(n: nat, i: nat): nat { if i + 1 < n then i + 1 else 0 }

  /** How many steps the walk from `o` takes to reach `j`. */
  function Behind(n: nat, o: nat, j: nat): int { if j >= o then j - o else j + n - o }

  /** Where a ring walk begins: the last page sent, the first page before any was. */
  function Origin(last: Option<nat>): nat { if last.Some? then last.value else 0 }

  /** The name field of a page record: left out when the page is in the last block sent. */
  function NameAt(c: Layout, last: Option<nat>, p: nat): Option<Id>
    requires p < c.Count() && (last.Some? ==> last.value < c.Count())
  {
    if last.Some? && c.BlockAt(last.value) == c.BlockAt(p) then None else Some(c.blocks[c.BlockAt(p)].id)
  }

  /** Number of set flags. */
  function Truths(b: seq<bool>): nat {
    if b == [] then 0 else (if b[0] then 1 else 0) + Truths(b[1..])
  }

  /** The indices of the set flags. */
  function SetFlags(b: seq<bool>): set<int> { set i | 0 <= i < |b| && b[i] }

  lemma {:induction false} TruthsCounts(b: seq<bool>)
    ensures Truths(b) == |SetFlags(b)|
    decreases |b|
  {
    if b != [] {
      var n := |b| - 1;
      var init := b[..n];
      TruthsCounts(init);
      TruthsLast(b);
      assert SetFlags(b) == SetFlags(init) + (if b[n] then {n} else {});
    }
  }

  lemma {:induction false} TruthsLast(b: seq<bool>)
    requires b != []
    ensures Truths(b) == Truths(b[..|b| - 1]) + if b[|b| - 1] then 1 else 0
    decreases |b|
  {
    if |b| > 1 {
      TruthsLast(b[1..]);
      assert b[1..][..|b| - 2] == b[..|b| - 1][1..];
    } else {
      assert b[1..] == [] && b[..0] == [];
    }
  }

  lemma {:induction false} TruthsUpdate(b: seq<bool>, i: nat, v: bool)
    requires i < |b|
    ensures Truths(b[i := v]) == Truths(b) - (if b[i] then 1 else 0) + (if v then 1 else 0)
    decreases |b|
  {
    if i == 0 {
      assert b[i := v][1..] == b[1..];
    } else {
      TruthsUpdate(b[1..], i - 1, v);
      assert b[i := v][1..] == b[1..][i - 1 := v];
    }
  }
}
