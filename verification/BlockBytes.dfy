/**
 bdrv_pread and bdrv_pwrite of block.c: byte requests over a device that reads and writes whole
 sectors of 512 bytes.
 */
module BlockBytes {
  import opened Bytes
  import opened Units

  const EACCES: int := 13

  /** `d` with the bytes from `at` on replaced by `part`, which must lie inside. */
  function Splice(d: seq<byte>, at: int, part: seq<byte>): (r: seq<byte>)
    ensures |r| == |d|
  {
    if 0 <= at && at + |part| <= |d| then d[..at] + part + d[at + |part|..] else d
  }

  /** Two adjoining parts are one. */
  lemma SpliceJoin(d: seq<byte>, at: int, a: seq<byte>, b: seq<byte>)
    requires 0 <= at && at + |a| + |b| <= |d|
    ensures Splice(Splice(d, at, a), at + |a|, b) == Splice(d, at, a + b)
  {
  }

  lemma SpliceNothing(d: seq<byte>, at: int)
    ensures Splice(d, at, []) == d
  {
  }

  /** Patching one sector and writing it back patches the device. */
  lemma SpliceSector(d: seq<byte>, at: nat, sector: seq<byte>, skip: nat, part: seq<byte>)
    requires skip + |part| <= 512 && at + 512 <= |d| && sector == d[at..at + 512]
    ensures Splice(d, at, Splice(sector, skip, part)) == Splice(d, at + skip, part)
  {
    assert Splice(sector, skip, part) == d[at..at + skip] + part + d[at + skip + |part|..at + 512];
    assert d[..at] + d[at..at + skip] == d[..at + skip];
    assert d[at + skip + |part|..at + 512] + d[at + 512..] == d[at + skip + |part|..];
  }

  lemma SpliceRead(d: seq<byte>, at: int, part: seq<byte>)
    requires 0 <= at && at + |part| <= |d|
    ensures Splice(d, at, part)[at..at + |part|] == part
  {
  }

  /** The head of a request: what is left of the sector that holds `offset`. */
  lemma Head(offset: int)
    ensures (512 - offset) % 512 == if offset % 512 == 0 then 0 else 512 - offset % 512
    ensures offset == 512 * (offset / 512) + offset % 512
  {
  }

  /** `buf` is what `d` holds from `at` to `end - 1`. */
  predicate Got(d: seq<byte>, buf: seq<byte>, at: int, end: int) {
    |buf| == end - at && (buf != [] ==> 0 <= at && end <= |d| && buf == d[at..end])
  }

  lemma SliceOfSlice(d: seq<byte>, a: nat, n: nat, skip: nat, len: nat)
    requires a + n <= |d| && skip + len <= n
    ensures d[a..a + n][skip..skip + len] == d[a + skip..a + skip + len]
  {
    var s := d[a..a + n];
    var x, y := s[skip..skip + len], d[a + skip..a + skip + len];
    forall k | 0 <= k < len ensures x[k] == y[k] {
      assert s[skip + k] == d[a + skip + k];
    }
  }

  lemma GotMore(d: seq<byte>, a: seq<byte>, at: int, mid: int, b: seq<byte>, end: int)
    requires Got(d, a, at, mid) && Got(d, b, mid, end)
    ensures Got(d, a + b, at, end)
  {
  }

  /** `a` and `b` differ at most in bytes `lo` to `hi - 1`. */
  predicate Within(a: seq<byte>, b: seq<byte>, lo: int, hi: int) {
    |a| == |b| && forall i :: 0 <= i < |a| && (i < lo || hi <= i) ==> a[i] == b[i]
  }

  lemma WithinBoth(a: seq<byte>, b: seq<byte>, c: seq<byte>, lo: int, mid: int, hi: int)
    requires Within(a, b, lo, mid) && Within(b, c, mid, hi) && lo <= mid <= hi
    ensures Within(a, c, lo, hi)
  {
  }

  /** Length of the sectors that hold `n` bytes from the start of a sector. */
  function SectorBytes(n: nat): nat { 512 * ((n + 511) / 512) }

  lemma SectorBytesOf(n: nat)
    ensures SectorBytes(n) == 512 * (n / 512) + if n % 512 > 0 then 512 else 0
  {
  }

  lemma PartsOf(n: nat)
    ensures n == 512 * (n / 512) + n % 512 && SectorBytes(n) == 512 * (n / 512) + SectorBytes(n - 512 * (n / 512))
  {
    SectorBytesOf(n);
    SectorBytesOf(n % 512);
  }

  /** The second half of a request of `n` bytes starts where the head of it ends, on a sector. */
  lemma Split(offset: int, n: nat, len: nat)
    requires len == if (512 - offset) % 512 < n then (512 - offset) % 512 else n
    ensures offset == 512 * (offset / 512) + offset % 512 && offset % 512 + len <= 512
    ensures len < n ==> 512 * (offset / 512 + if len > 0 then 1 else 0) == offset + len
    ensures len < n ==> SectorBytes(offset % 512 + n) == (if len > 0 then 512 else 0) + SectorBytes(n - len)
    ensures 0 < len == n ==> SectorBytes(offset % 512 + n) == 512
  {
    Head(offset);
    SectorBytesOf(offset % 512 + n);
    SectorBytesOf(n - len);
  }

  /**
   A device that does not grow. `faults` are the return values of the driver calls to come: a negative
   one is an error, and a failed write may leave anything in the sectors it was given.
   */
  class Device {
    var data: seq<byte>
    var drv: bool        // a driver is open
    var inserted: bool   // a medium is in it
    var readOnly: bool
    var faults: seq<int>

    ghost predicate Valid()
      reads this
    {
      |data| % 512 == 0
    }

    /** No driver call will fail. */
    ghost predicate Healthy()
      reads this
    {
      forall k :: 0 <= k < |faults| ==> faults[k] >= 0
    }

    /** The return value of the next driver call. */
    method Call() returns (ret: int)
      modifies this`faults
      ensures ret <= 0 && (old(Healthy()) ==> ret == 0 && Healthy())
    {
      if faults == [] {
        return 0;
      }
      ret := if faults[0] < 0 then faults[0] else 0;
      faults := faults[1..];
    }

    /** `bdrv_check_request` for a device that does not grow. */
    function CheckRequest(sector: int, nb: nat): int
      reads this
    {
      if !inserted then -ENOMEDIUM
      else if sector < 0 then -EIO
      else if 512 * sector > |data| || |data| - 512 * sector < 512 * nb then -EIO
      else 0
    }

    /** `bdrv_read` */
    method Read(sector: int, nb: nat) returns (ret: int, buf: seq<byte>)
      requires Valid()
      modifies this`faults
      ensures ret <= 0 && |buf| == 512 * nb
      ensures ret == 0
              ==> drv && inserted && 0 <= sector && 512 * (sector + nb) <= |data|
                  && buf == data[512 * sector..512 * (sector + nb)]
      ensures old(Healthy()) ==> Healthy() && (ret == 0 <==> drv && CheckRequest(sector, nb) == 0)
      ensures !drv ==> ret == -ENOMEDIUM
      ensures drv && CheckRequest(sector, nb) != 0 ==> ret == -EIO
    {
      buf := seq(512 * nb, _ => 0);
      if !drv {
        return -ENOMEDIUM, buf;
      }
      if CheckRequest(sector, nb) != 0 {
        return -EIO, buf;
      }
      ret := Call();
      if ret == 0 {
        buf := data[512 * sector..512 * (sector + nb)];
      }
    }

    /** `bdrv_write` */
    method Write(sector: int, buf: seq<byte>) returns (ret: int)
      requires Valid() && |buf| % 512 == 0
      modifies this`faults, this`data
      ensures Valid() && ret <= 0
      ensures ret == 0
              ==> drv && inserted && !readOnly && 0 <= sector && 512 * sector + |buf| <= |old(data)|
                  && data == Splice(old(data), 512 * sector, buf)
      ensures Within(old(data), data, 512 * sector, 512 * sector + |buf|)
      ensures old(Healthy()) ==> Healthy() && (ret == 0 <==> drv && !readOnly && CheckRequest(sector, |buf| / 512) == 0)
      ensures !drv ==> ret == -ENOMEDIUM
      ensures drv && readOnly ==> ret == -EACCES
      ensures drv && !readOnly && old(CheckRequest(sector, |buf| / 512)) != 0 ==> ret == -EIO
    {
      if !drv {
        return -ENOMEDIUM;
      }
      if readOnly {
        return -EACCES;
      }
      if CheckRequest(sector, |buf| / 512) != 0 {
        return -EIO;
      }
      ret := Call();
      if ret == 0 {
        data := Splice(data, 512 * sector, buf);
      } else {
        var left: seq<byte> := seq(|buf|, _ => 0);
        var junk: seq<byte> :| |junk| == |left|;
        data := Splice(data, 512 * sector, junk);
      }
    }

    /** One sector read into `tmp_buf`, and `len` bytes of it copied. */
    method ReadPart(sector: int, skip: nat, len: nat) returns (ret: int, part: seq<byte>)
      requires Valid() && skip + len <= 512
      modifies this`faults
      ensures ret <= 0
              && (ret == 0 ==> drv && inserted && Got(data, part, 512 * sector + skip, 512 * sector + skip + len))
      ensures ret == 0 && len > 0 ==> 0 <= sector && 512 * sector + 512 <= |data|
      ensures old(Healthy()) ==> Healthy() && (ret == 0 <==> drv && CheckRequest(sector, 1) == 0)
    {
      var tmp;
      ret, tmp := Read(sector, 1);
      part := tmp[skip..skip + len];
      if ret == 0 {
        SliceOfSlice(data, 512 * sector, 512, skip, len);
      }
    }

    /** The second half of `bdrv_pread`: whole sectors in place, then the start of the last one. */
    method ReadAligned(sector: int, count: nat) returns (ret: int, buf: seq<byte>)
      requires Valid()
      modifies this`faults
      ensures ret <= 0 && (ret == 0 ==> Got(data, buf, 512 * sector, 512 * sector + count))
      ensures old(Healthy()) && count > 0
              ==> (ret == 0 <==> drv && inserted && 0 <= sector && 512 * sector + count <= |data|)
    {
      buf := [];
      var nb, rest := count / 512, count % 512;
      if nb > 0 {
        ret, buf := Read(sector, nb);
        if ret < 0 {
          return;
        }
      }
      if rest > 0 {
        var tmp;
        ret, tmp := ReadPart(sector + nb, 0, rest);
        if ret < 0 {
          return;
        }
        GotMore(data, buf, 512 * sector, 512 * (sector + nb), tmp, 512 * sector + count);
        buf := buf + tmp;
      }
      ret := 0;
    }

    /**
     `bdrv_pread`: exactly the bytes asked for, whatever the alignment, or an error. On a healthy device
     it fails only for bytes that are not there.
     */
    method PRead(offset: int, count1: nat) returns (ret: int, buf: seq<byte>)
      requires Valid()
      modifies this`faults
      ensures ret < 0 || (ret == count1 && Got(data, buf, offset, offset + count1))
      ensures old(Healthy()) && count1 > 0
              ==> (ret == count1 <==> drv && inserted && 0 <= offset && offset + count1 <= |data|)
    {
      var count := count1;
      buf := [];
      var len := (512 - offset) % 512;
      if len > count {
        len := count;
      }
      var sector := offset / 512;
      Head(offset);
      if len > 0 {
        ret, buf := ReadPart(sector, offset % 512, len);
        if ret < 0 {
          return;
        }
        count := count - len;
        if count == 0 {
          return count1, buf;
        }
        sector := sector + 1;
      }
      var rest;
      ret, rest := ReadAligned(sector, count);
      if ret < 0 {
        return;
      }
      if count > 0 {
        GotMore(data, buf, offset, 512 * sector, rest, offset + count1);
      }
      return count1, buf + rest;
    }

    /** One sector read into `tmp_buf`, patched from byte `skip` on and written back. */
    method WritePart(sector: int, skip: nat, part: seq<byte>) returns (ret: int)
      requires Valid() && skip + |part| <= 512
      modifies this`faults, this`data
      ensures Valid() && ret <= 0 && Within(old(data), data, 512 * sector, 512 * sector + 512)
      ensures ret == 0
              ==> drv && inserted && !readOnly && 0 <= sector && 512 * sector + 512 <= |data|
                  && data == Splice(old(data), 512 * sector + skip, part)
      ensures old(Healthy()) ==> Healthy() && (ret == 0 <==> drv && !readOnly && CheckRequest(sector, 1) == 0)
    {
      var tmp;
      ret, tmp := Read(sector, 1);
      if ret < 0 {
        return;
      }
      SpliceSector(data, 512 * sector, tmp, skip, part);
      var patched := Splice(tmp, skip, part);
      ret := Write(sector, patched);
    }

    /** The bytes `offset` to `offset + n - 1` are there and can be written. */
    ghost predicate Writable(offset: int, n: nat)
      reads this
    {
      drv && inserted && !readOnly && 0 <= offset && offset + n <= |data|
    }

    /** The sectors written in place, if there are any. */
    method WriteWhole(sector: int, whole: seq<byte>) returns (ret: int)
      requires Valid() && |whole| % 512 == 0
      modifies this`faults, this`data
      ensures Valid() && ret <= 0 && Within(old(data), data, 512 * sector, 512 * sector + |whole|)
      ensures ret == 0
              ==> data == Splice(old(data), 512 * sector, whole) && (whole != [] ==> Writable(512 * sector, |whole|))
      ensures old(Healthy()) ==> Healthy() && (whole != [] ==> (ret == 0 <==> old(Writable(512 * sector, |whole|))))
      ensures whole == [] ==> ret == 0
    {
      ret := 0;
      SpliceNothing(data, 512 * sector);
      if whole != [] {
        ret := Write(sector, whole);
      }
    }

    /** The start of the last sector, if there is one. */
    method WriteRest(sector: int, rest: seq<byte>) returns (ret: int)
      requires Valid() && |rest| < 512
      modifies this`faults, this`data
      ensures Valid() && ret <= 0 && Within(old(data), data, 512 * sector, 512 * sector + SectorBytes(|rest|))
      ensures ret == 0
              ==> data == Splice(old(data), 512 * sector, rest) && (rest != [] ==> Writable(512 * sector, |rest|))
      ensures old(Healthy()) ==> Healthy() && (rest != [] ==> (ret == 0 <==> old(Writable(512 * sector, |rest|))))
      ensures rest == [] ==> ret == 0
    {
      ret := 0;
      SpliceNothing(data, 512 * sector);
      SectorBytesOf(|rest|);
      if rest != [] {
        ret := WritePart(sector, 0, rest);
      }
    }

    /** Whole sectors in place, then the start of the last one. */
    method WriteParts(sector: int, nb: nat, whole: seq<byte>, rest: seq<byte>) returns (ret: int)
      requires Valid() && |whole| == 512 * nb && |rest| < 512
      modifies this`faults, this`data
      ensures Valid() && ret <= 0 && Within(old(data), data, 512 * sector, 512 * (sector + nb) + SectorBytes(|rest|))
      ensures ret == 0 ==> data == Splice(old(data), 512 * sector, whole + rest)
      ensures ret == 0 && whole + rest != [] ==> Writable(512 * sector, |whole| + |rest|)
      ensures old(Healthy()) && whole + rest != [] ==> (ret == 0 <==> old(Writable(512 * sector, |whole| + |rest|)))
    {
      ghost var was := data;
      ret := WriteWhole(sector, whole);
      ghost var mid := data;
      if ret == 0 {
        ret := WriteRest(sector + nb, rest);
      }
      WithinBoth(was, mid, data, 512 * sector, 512 * (sector + nb), 512 * (sector + nb) + SectorBytes(|rest|));
      JoinWrites(was, mid, data, 512 * sector, whole, rest);
    }

    /** The second half of `bdrv_pwrite`. */
    method WriteAligned(sector: int, buf: seq<byte>) returns (ret: int)
      requires Valid()
      modifies this`faults, this`data
      ensures Valid() && ret <= 0 && Within(old(data), data, 512 * sector, 512 * sector + SectorBytes(|buf|))
      ensures ret == 0 ==> data == Splice(old(data), 512 * sector, buf) && (buf != [] ==> Writable(512 * sector, |buf|))
      ensures old(Healthy()) && buf != [] ==> (ret == 0 <==> old(Writable(512 * sector, |buf|)))
    {
      var nb := |buf| / 512;
      PartsOf(|buf|);
      assert buf[..512 * nb] + buf[512 * nb..] == buf;
      ret := WriteParts(sector, nb, buf[..512 * nb], buf[512 * nb..]);
    }

    /** The part of the request before the first whole sector, if there is one. */
    method WriteHead(offset: int, head: seq<byte>) returns (ret: int)
      requires Valid() && offset % 512 + |head| <= 512
      modifies this`faults, this`data
      ensures Valid() && ret <= 0
              && Within(old(data), data, 512 * (offset / 512), 512 * (offset / 512) + (if head == [] then 0 else 512))
      ensures ret == 0 ==> data == Splice(old(data), offset, head) && (head != [] ==> Writable(offset, |head|))
      ensures old(Healthy()) ==> Healthy() && (head != [] ==> (ret == 0 <==> old(Writable(offset, |head|))))
      ensures head == [] ==> ret == 0
    {
      ret := 0;
      SpliceNothing(data, offset);
      if head != [] {
        ret := WritePart(offset / 512, offset % 512, head);
      }
    }

    /** The head, and from `sector` on the rest. */
    method WriteBoth(offset: int, head: seq<byte>, rest: seq<byte>, sector: int, ghost lo: int, ghost hi: int)
      returns (ret: int)
      requires Valid() && offset % 512 + |head| <= 512 && rest != [] && 512 * sector == offset + |head|
      requires lo == 512 * (offset / 512) == 512 * sector - (if head == [] then 0 else 512)
               && hi == 512 * sector + SectorBytes(|rest|)
      modifies this`faults, this`data
      ensures Valid() && ret <= 0 && Within(old(data), data, lo, hi)
      ensures ret == 0 ==> data == Splice(old(data), offset, head + rest) && Writable(offset, |head + rest|)
      ensures old(Healthy()) ==> (ret == 0 <==> old(Writable(offset, |head + rest|)))
    {
      ghost var was := data;
      ret := WriteHead(offset, head);
      if ret < 0 {
        SectorBytesOf(|rest|);
        return;
      }
      ghost var mid := data;
      ret := WriteAligned(sector, rest);
      WithinBoth(was, mid, data, lo, 512 * sector, hi);
      JoinWrites(was, mid, data, offset, head, rest);
    }

    /**
     `bdrv_pwrite`: exactly the bytes `offset` to `offset + |buf| - 1` become `buf`, whatever the
     alignment, or an error. An error leaves every sector outside the request as it was. On a healthy
     device it fails only for bytes that are not there.
     */
    method PWrite(offset: int, buf: seq<byte>) returns (ret: int)
      requires Valid()
      modifies this`faults, this`data
      ensures Valid() && (ret < 0 || ret == |buf|)
      ensures ret == |buf| ==> data == Splice(old(data), offset, buf) && (buf != [] ==> Writable(offset, |buf|))
      ensures Within(old(data), data, 512 * (offset / 512), 512 * (offset / 512) + SectorBytes(offset % 512 + |buf|))
      ensures old(Healthy()) && buf != [] ==> (ret == |buf| <==> old(Writable(offset, |buf|)))
    {
      var len := (512 - offset) % 512;
      if len > |buf| {
        len := |buf|;
      }
      Split(offset, |buf|, len);
      ghost var lo := 512 * (offset / 512);
      if len == |buf| {
        ret := WriteHead(offset, buf);
      } else {
        var head, rest := buf[..len], buf[len..];
        assert buf == head + rest;
        var sector := offset / 512 + if len > 0 then 1 else 0;
        ret := WriteBoth(offset, head, rest, sector, lo, lo + SectorBytes(offset % 512 + |buf|));
      }
      if ret == 0 {
        ret := |buf|;
      }
    }
  }

  /** A read of what was just written gives it back. */
  method WriteThenRead(dev: Device, offset: int, buf: seq<byte>) returns (wrote: int, got: int, back: seq<byte>)
    requires dev.Valid()
    modifies dev
    ensures wrote == |buf| && got == |buf| ==> back == buf
  {
    wrote := dev.PWrite(offset, buf);
    ghost var d := dev.data;
    got, back := dev.PRead(offset, |buf|);
    if wrote == |buf| && buf != [] {
      SpliceRead(old(dev.data), offset, buf);
    }
  }

  lemma JoinWrites(was: seq<byte>, mid: seq<byte>, data: seq<byte>, at: int, a: seq<byte>, b: seq<byte>)
    ensures && mid == Splice(was, at, a) && data == Splice(mid, at + |a|, b)
            && (a + b != [] ==> 0 <= at && at + |a + b| <= |was|)
            ==> data == Splice(was, at, a + b)
  {
    if 0 <= at && at + |a + b| <= |was| {
      SpliceJoin(was, at, a, b);
    }
  }
}
