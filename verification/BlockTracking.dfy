/**
 The bitmaps of block.c and the chunk sets of the migration machine are the same thing: what a guest write
 marks, what the migration resets and what it asks, bit by bit and as sets.
 */
module BlockTracking {
  import opened Bytes
  import opened Units
  import W = Words
  import opened Bitmaps
  import opened DirtyBitmap
  import opened Runs
  import opened BlockMigration
  import opened BlockMigrationResult

  // ---------- bits and sets ----------

  /** The chunks of device `d` whose bit is set. */
  function Marked(bits: seq<W.Word>, d: nat): (keys: set<Key>)
    ensures forall k :: k in keys <==> k.dev == d && k.chunk < |bits| * W.BITS && Bit(bits, k.chunk)
  {
    set j | 0 <= j < |bits| * W.BITS && Bit(bits, j) :: Key(d, j)
  }

  /** The chunks that `set_dirty_bitmap` goes over for a request. */
  function Request(d: nat, sector: nat, nb: nat): (keys: set<Key>)
    ensures forall k :: k in keys <==> k.dev == d && Marks(sector, nb, k.chunk)
  {
    set j: nat | FirstChunk(sector) <= j <= LastChunk(sector, nb) :: Key(d, j)
  }

  /** `bits` is `was` with the chunks of the request set or reset. */
  ghost predicate Repainted(was: seq<W.Word>, bits: seq<W.Word>, sector: nat, nb: nat, dirty: bool) {
    && |bits| == |was|
    && forall j :: 0 <= j < |bits| * W.BITS ==>
         Bit(bits, j) == if Marks(sector, nb, j) then dirty else Bit(was, j)
  }

  /** Bit by bit, or as sets. */
  lemma RepaintedSets(was: seq<W.Word>, bits: seq<W.Word>, d: nat, sector: nat, nb: nat, dirty: bool)
    requires Repainted(was, bits, sector, nb, dirty) && LastChunk(sector, nb) < |was| * W.BITS
    ensures Marked(bits, d)
            == if dirty then Marked(was, d) + Request(d, sector, nb) else Marked(was, d) - Request(d, sector, nb)
  {
  }

  lemma LastInside(sectors: nat, words: nat, sector: nat, nb: nat)
    requires sector + nb <= sectors <= words * W.BITS * CHUNK && sectors > 0
    ensures LastChunk(sector, nb) < words * W.BITS
  {
  }

  /** The dirty chunks of a tracked device. */
  function Dirty(t: Tracker, d: nat): set<Key>
    requires t.bitmap.Some?
    reads t
  {
    Marked(t.bitmap.value, d)
  }

  /** Completion of a write (`block_complete_cb`) and `bdrv_write`: the chunks of the request become dirty. */
  method SetDirty(t: Tracker, ghost d: nat, sector: nat, nb: nat)
    requires t.Valid() && t.bitmap.Some? && sector + nb <= t.sectors && t.sectors > 0
    modifies t`bitmap, t`dirtyCount
    ensures t.Valid() && t.bitmap.Some? && (old(t.Exact()) ==> t.Exact())
    ensures Dirty(t, d) == old(Dirty(t, d)) + Request(d, sector, nb)
  {
    ghost var was := t.bitmap.value;
    LastInside(t.sectors, |was|, sector, nb);
    t.SetDirtyBitmap(sector, nb, true);
    RepaintedSets(was, t.bitmap.value, d, sector, nb, true);
  }

  /** `bdrv_reset_dirty`. */
  method ResetDirty(t: Tracker, ghost d: nat, sector: nat, nb: nat)
    requires t.Valid() && t.bitmap.Some? && sector + nb <= t.sectors && t.sectors > 0
    modifies t`bitmap, t`dirtyCount
    ensures t.Valid() && t.bitmap.Some? && (old(t.Exact()) ==> t.Exact())
    ensures Dirty(t, d) == old(Dirty(t, d)) - Request(d, sector, nb)
  {
    ghost var was := t.bitmap.value;
    LastInside(t.sectors, |was|, sector, nb);
    t.SetDirtyBitmap(sector, nb, false);
    RepaintedSets(was, t.bitmap.value, d, sector, nb, false);
  }

  // ---------- requests on the migrated devices ----------

  /** The sectors of one chunk, or some of them, are one chunk. */
  lemma OneChunk(d: nat, chunk: nat, at: nat, nb: nat)
    requires nb > 0 && at + nb <= CHUNK
    ensures Request(d, chunk * CHUNK + at, nb) == {Key(d, chunk)}
  {
    assert (chunk * CHUNK + at) / CHUNK == chunk && (chunk * CHUNK + at + nb - 1) / CHUNK == chunk;
  }

  /** What the migration resets for a block of chunk `k` is what the machine's `Clean` removes. */
  lemma ResetIsClean(c: Config, src: Source, k: Key)
    requires c.Has(k)
    ensures src.Clean(k).dirty == src.dirty - Request(k.dev, k.chunk * CHUNK, c.Size(k))
  {
    OneChunk(k.dev, k.chunk, 0, c.Size(k));
  }

  /** A request inside a device concerns chunks of that device, so the machine can take it. */
  lemma RequestInDevice(c: Config, d: nat, sector: nat, nb: nat)
    requires d < |c.total| && nb > 0 && sector + nb <= c.total[d]
    ensures forall k :: k in Request(d, sector, nb) ==> c.Has(k)
  {
  }

  /** Every bitmap of the migrated devices shows the machine's dirty chunks of that device. */
  ghost predicate Agrees(c: Config, maps: seq<seq<W.Word>>, dirty: set<Key>) {
    && |maps| == |c.total| && (forall d :: 0 <= d < |maps| ==> c.total[d] <= |maps[d]| * W.BITS * CHUNK)
    && forall k :: k in dirty <==> k.dev < |maps| && k.chunk < |maps[k.dev]| * W.BITS && Bit(maps[k.dev], k.chunk)
  }

  /** Painting the bitmap of one device keeps the agreement, for sets changed the same way. */
  lemma AgreesPainted(c: Config, maps: seq<seq<W.Word>>, dirty: set<Key>, d: nat, bits: seq<W.Word>, sector: nat,
      nb: nat, v: bool)
    requires Agrees(c, maps, dirty) && d < |c.total| && nb > 0 && sector + nb <= c.total[d]
    requires Repainted(maps[d], bits, sector, nb, v)
    ensures Agrees(c, maps[d := bits], if v then dirty + Request(d, sector, nb) else dirty - Request(d, sector, nb))
  {
    LastInside(c.total[d], |maps[d]|, sector, nb);
  }

  /** `bdrv_get_dirty` asks the machine's question. */
  lemma AskedRight(c: Config, maps: seq<seq<W.Word>>, dirty: set<Key>, d: nat, sector: nat)
    requires Agrees(c, maps, dirty) && d < |c.total| && sector < c.total[d]
    ensures sector / CHUNK < |maps[d]| * W.BITS && (Bit(maps[d], sector / CHUNK) <==> Key(d, sector / CHUNK) in dirty)
  {
  }

  // ---------- the machine's steps ----------

  /** Completion of a write that was issued with tracking on. */
  lemma FinishAgrees(c: Config, maps: seq<seq<W.Word>>, src: Source, w: nat, d: nat, sector: nat, nb: nat,
      bits: seq<W.Word>)
    requires Agrees(c, maps, src.dirty) && w < |src.writes| && src.writes[w] == Write(Request(d, sector, nb), true)
    requires d < |c.total| && nb > 0 && sector + nb <= c.total[d] && Repainted(maps[d], bits, sector, nb, true)
    ensures Agrees(c, maps[d := bits], src.Finish(w).dirty)
  {
    AgreesPainted(c, maps, src.dirty, d, bits, sector, nb, true);
  }

  /** A block issued for `k`. */
  lemma CleanAgrees(c: Config, maps: seq<seq<W.Word>>, src: Source, k: Key, bits: seq<W.Word>)
    requires Agrees(c, maps, src.dirty) && c.Has(k)
    requires Repainted(maps[k.dev], bits, k.chunk * CHUNK, c.Size(k), false)
    ensures Agrees(c, maps[k.dev := bits], src.Clean(k).dirty)
  {
    ResetIsClean(c, src, k);
    AgreesPainted(c, maps, src.dirty, k.dev, bits, k.chunk * CHUNK, c.Size(k), false);
  }

  /** Sector `s` is on the disk of device `d`. */
  predicate HasSector(disk: Disk, d: nat, s: nat) { Key(d, s / CHUNK) in disk && s % CHUNK < |disk[Key(d, s / CHUNK)]| }

  ghost predicate OnDisk(disk: Disk, d: nat, sector: nat, nb: nat) {
    forall s: nat :: sector <= s < sector + nb ==> HasSector(disk, d, s)
  }

  lemma DeviceOnDisk(c: Config, disk: Disk, d: nat, sector: nat, nb: nat)
    requires DiskShape(c, disk) && d < |c.total| && sector + nb <= c.total[d]
    ensures OnDisk(disk, d, sector, nb)
  {
    forall s: nat | sector <= s < sector + nb ensures HasSector(disk, d, s) {
      assert c.Has(Key(d, s / CHUNK));
    }
  }

  ghost predicate SameSizes(a: Disk, b: Disk) { a.Keys == b.Keys && forall k :: k in a ==> |a[k]| == |b[k]| }

  /** `bdrv_write` of one sector. */
  function WriteSector(src: Source, d: nat, s: nat, v: Sector, tracking: bool): (r: Source)
    requires HasSector(src.disk, d, s)
    ensures SameSizes(src.disk, r.disk) && r.running == src.running
  {
    src.WriteNow(Key(d, s / CHUNK), s % CHUNK, v, tracking)
  }

  /** `bdrv_write` of a request, one sector after the other. */
  ghost function WriteAll(src: Source, d: nat, sector: nat, data: seq<Sector>, tracking: bool): (r: Source)
    requires OnDisk(src.disk, d, sector, |data|)
    ensures SameSizes(src.disk, r.disk) && r.running == src.running
    decreases |data|
  {
    if data == [] then src
    else
      var n := |data| - 1;
      var before := WriteAll(src, d, sector, data[..n], tracking);
      assert HasSector(src.disk, d, sector + n);
      WriteSector(before, d, sector + n, data[n], tracking)
  }

  lemma RequestGrows(d: nat, sector: nat, n: nat)
    ensures Request(d, sector, n + 1) == (if n == 0 then {} else Request(d, sector, n)) + {Key(d, (sector + n) / CHUNK)}
  {
  }

  /** Sector by sector, a tracked write marks the chunks that the bitmap gets for the whole request. */
  lemma {:induction false} WriteMarks(src: Source, d: nat, sector: nat, data: seq<Sector>)
    requires OnDisk(src.disk, d, sector, |data|)
    ensures WriteAll(src, d, sector, data, true).dirty
            == if data == [] then src.dirty else src.dirty + Request(d, sector, |data|)
    decreases |data|
  {
    if data != [] {
      WriteMarks(src, d, sector, data[..|data| - 1]);
      RequestGrows(d, sector, |data| - 1);
    }
  }

  lemma StillShape(c: Config, s: State, t: State)
    requires Shape(c, s) && t == s.(src := t.src) && SameSizes(s.src.disk, t.src.disk)
    ensures Shape(c, t)
  {
  }

  /** The machine can get from `s` to the source `x`, all else the same. */
  ghost predicate Reaches(c: Config, s: State, x: Source) { Leads(Machine(c), s, s.(src := x)) }

  lemma WriteOne(c: Config, s: State, x: Source, d: nat, at: nat, v: Sector)
    requires Shape(c, s) && Reaches(c, s, x) && x.running && SameSizes(s.src.disk, x.disk) && HasSector(x.disk, d, at)
    ensures Reaches(c, s, WriteSector(x, d, at, v, s.phase.Tracking()))
  {
    var e := WriteSync(Key(d, at / CHUNK), at % CHUNK, v);
    var t := s.(src := x);
    StillShape(c, s, t);
    assert Machine(c)(t, e) == Step(c, t, e);
    LeadsThen(Machine(c), s, t, e);
  }

  /** What writing a sector keeps, writing a request keeps. */
  lemma {:induction false} WriteKeeps(p: Source -> bool, src: Source, d: nat, sector: nat, data: seq<Sector>,
      tracking: bool)
    requires OnDisk(src.disk, d, sector, |data|) && p(src)
    requires forall x, at, v ::
               p(x) && SameSizes(src.disk, x.disk) && x.running == src.running && HasSector(x.disk, d, at) ==>
                 p(WriteSector(x, d, at, v, tracking))
    ensures p(WriteAll(src, d, sector, data, tracking))
    decreases |data|
  {
    if data != [] {
      WriteKeeps(p, src, d, sector, data[..|data| - 1], tracking);
      assert HasSector(src.disk, d, sector + |data| - 1);
    }
  }

  /** The machine can run a guest's whole write. */
  lemma WriteLeads(c: Config, s: State, d: nat, sector: nat, data: seq<Sector>)
    requires Shape(c, s) && s.src.running && OnDisk(s.src.disk, d, sector, |data|)
    ensures Reaches(c, s, WriteAll(s.src, d, sector, data, s.phase.Tracking()))
  {
    var tracking := s.phase.Tracking();
    assert s.(src := s.src) == s;
    LeadsNowhere(Machine(c), s);
    forall x, at, v | Reaches(c, s, x) && SameSizes(s.src.disk, x.disk) && x.running && HasSector(x.disk, d, at)
      ensures Reaches(c, s, WriteSector(x, d, at, v, tracking))
    {
      WriteOne(c, s, x, d, at, v);
    }
    WriteKeeps(x => Reaches(c, s, x), s.src, d, sector, data, tracking);
  }

  /**
   A guest write of a whole request while the migration is on: the machine reaches the state with the sectors
   written and with the dirty chunks that the device's bitmap has after `set_dirty_bitmap`.
   */
  lemma WriteAgrees(c: Config, s: State, maps: seq<seq<W.Word>>, d: nat, sector: nat, data: seq<Sector>,
      bits: seq<W.Word>)
    returns (t: State)
    requires Shape(c, s) && s.src.running && s.phase.Tracking() && Agrees(c, maps, s.src.dirty)
    requires d < |c.total| && data != [] && sector + |data| <= c.total[d]
    requires Repainted(maps[d], bits, sector, |data|, true)
    ensures Leads(Machine(c), s, t) && Agrees(c, maps[d := bits], t.src.dirty)
    ensures OnDisk(s.src.disk, d, sector, |data|) && t == s.(src := WriteAll(s.src, d, sector, data, true))
  {
    DeviceOnDisk(c, s.src.disk, d, sector, |data|);
    WriteLeads(c, s, d, sector, data);
    WriteMarks(s.src, d, sector, data);
    AgreesPainted(c, maps, s.src.dirty, d, bits, sector, |data|, true);
    t := s.(src := WriteAll(s.src, d, sector, data, true));
  }
}
