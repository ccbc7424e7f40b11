/**
 bdrv_commit of block.c: the allocated sectors of an overlay are copied to its backing image, and the
 overlay is emptied.
 */
module Commit {
  import opened Bytes
  import opened Units

  type Sector = seq<byte>

  const COMMIT_BUF_SECTORS: nat := 2048

  /** A backing image reads as zeroes past its end. */
  function Below(backing: seq<Sector>, zero: Sector, i: nat): Sector {
    if i < |backing| then backing[i] else zero
  }

  /** What the guest sees at sector `i`. */
  function Seen(over: seq<Sector>, used: seq<bool>, backing: seq<Sector>, zero: Sector, i: nat): Sector
    requires i < |over| == |used|
  {
    if used[i] then over[i] else Below(backing, zero, i)
  }

  /** The disk the guest sees. */
  function Visible(over: seq<Sector>, used: seq<bool>, backing: seq<Sector>, zero: Sector): (v: seq<Sector>)
    requires |over| == |used|
    ensures |v| == |over|
  {
    seq(|over|, i requires 0 <= i < |over| => Seen(over, used, backing, zero, i))
  }

  /** Changing the backing image only under allocated sectors does not show. */
  lemma HiddenChange(over: seq<Sector>, used: seq<bool>, a: seq<Sector>, b: seq<Sector>, zero: Sector)
    requires |over| == |used| && |a| == |b|
    requires forall i :: 0 <= i < |a| && a[i] != b[i] ==> i < |used| && used[i]
    ensures Visible(over, used, a, zero) == Visible(over, used, b, zero)
  {
  }

  /** Freeing sectors that the backing image holds does not show. */
  lemma FreeCommitted(over: seq<Sector>, used: seq<bool>, freed: seq<bool>, backing: seq<Sector>, zero: Sector)
    requires |over| == |used| == |freed|
    requires forall i :: 0 <= i < |freed| && freed[i] ==> used[i]
    requires forall i :: 0 <= i < |over| ==> Below(backing, zero, i) == Seen(over, used, backing, zero, i)
    ensures Visible(over, freed, backing, zero) == Visible(over, used, backing, zero)
  {
    forall i | 0 <= i < |over|
      ensures Seen(over, freed, backing, zero, i) == Seen(over, used, backing, zero, i)
    {
    }
  }

  class Image {
    const over: seq<Sector>
    const zero: Sector
    var used: seq<bool>
    var backing: seq<Sector>
    var canEmpty: bool        // the driver has bdrv_make_empty
    var faults: seq<int>      // return values of the driver calls to come

    ghost predicate Valid()
      reads this
    {
      |over| == |used|
    }

    ghost function View(): seq<Sector>
      requires Valid()
      reads this
    {
      Visible(over, used, backing, zero)
    }

    /** The backing image alone holds what the guest sees, in the first `n` sectors. */
    ghost predicate Committed(n: nat)
      requires Valid()
      reads this
    {
      forall i :: 0 <= i < n && i < |over| ==> Below(backing, zero, i) == Seen(over, used, backing, zero, i)
    }

    /** No driver call to come fails. */
    ghost predicate Healthy()
      reads this
    {
      forall i :: 0 <= i < |faults| ==> faults[i] >= 0
    }

    /** Every allocated sector lies inside the backing image. */
    ghost predicate Fits()
      reads this
    {
      forall i :: 0 <= i < |used| && used[i] ==> i < |backing|
    }

    method Call() returns (ret: int)
      modifies this`faults
      ensures ret <= 0 && (old(Healthy()) ==> Healthy() && ret == 0)
    {
      if faults == [] {
        return 0;
      }
      ret := if faults[0] < 0 then faults[0] else 0;
      faults := faults[1..];
    }

    /** `bdrv_is_allocated`: a run of at least one and at most `max` sectors that are all allocated or all not. */
    method IsAllocated(sector: nat, max: nat) returns (busy: bool, n: nat)
      requires Valid() && sector < |over| && max > 0
      ensures 1 <= n <= max && sector + n <= |over|
      ensures forall i :: sector <= i < sector + n ==> used[i] == busy
    {
      busy := used[sector];
      var most := if |over| - sector < max then |over| - sector else max;
      n :| 1 <= n <= most;
      var k := 1;
      while k < n && used[sector + k] == busy
        invariant 1 <= k <= n
        invariant forall i :: sector <= i < sector + k ==> used[i] == busy
      {
        k := k + 1;
      }
      n := k;
    }

    /** `bdrv_read` of the overlay. */
    method ReadOver(sector: nat, n: nat) returns (ret: int, buf: seq<Sector>)
      requires Valid() && sector + n <= |over|
      modifies this`faults
      ensures ret <= 0 && (ret == 0 ==> buf == View()[sector..sector + n]) && |buf| == n
      ensures old(Healthy()) ==> Healthy() && ret == 0
    {
      ret := Call();
      buf := Visible(over, used, backing, zero)[sector..sector + n];
    }

    /** `bdrv_write` of the backing image. It does not grow, and a failed write may leave anything in its sectors. */
    method WriteBacking(sector: nat, buf: seq<Sector>) returns (ret: int)
      modifies this`faults, this`backing
      ensures ret <= 0 && |backing| == |old(backing)|
      ensures ret == 0 ==> sector + |buf| <= |backing|
      ensures ret == 0 ==> forall i :: sector <= i < sector + |buf| ==> backing[i] == buf[i - sector]
      ensures forall i :: 0 <= i < |backing| && (i < sector || sector + |buf| <= i) ==> backing[i] == old(backing)[i]
      ensures old(Healthy()) ==> Healthy() && (ret == 0 <==> sector + |buf| <= |backing|)
    {
      if sector + |buf| > |backing| {
        return -EIO;
      }
      ret := Call();
      var wrote := buf;
      if ret < 0 {
        wrote :| |wrote| == |buf|;
      }
      backing := backing[..sector] + wrote + backing[sector + |buf|..];
    }

    /** `bdrv_make_empty`. If it fails, any of the sectors may have been freed. */
    method MakeEmpty() returns (ret: int)
      requires Valid()
      modifies this`faults, this`used
      ensures Valid() && ret <= 0
      ensures forall i :: 0 <= i < |used| && used[i] ==> old(used)[i]
      ensures ret == 0 ==> forall i :: 0 <= i < |used| ==> !used[i]
      ensures old(Healthy()) ==> Healthy() && ret == 0
    {
      ret := Call();
      var left: seq<bool> := seq(|used|, _ => false);
      if ret < 0 {
        var some: seq<bool> :| |some| == |used| && forall i :: 0 <= i < |some| && some[i] ==> used[i];
        left := some;
      }
      used := left;
    }

    /**
     The loop of `bdrv_commit`. The guest sees the same disk after every step and on every exit; on
     success the backing image alone holds it. If no driver call fails it succeeds exactly when every allocated
     sector lies inside the backing image.
     */
    method CopyDown() returns (ret: int)
      requires Valid()
      modifies this`faults, this`backing
      ensures Valid() && View() == old(View()) && |backing| == |old(backing)|
      ensures ret == 0 || ret == -EIO
      ensures ret == 0 ==> Committed(|over|) && Fits()
      ensures old(Healthy()) ==> Healthy() && (ret == 0 <==> Fits())
    {
      var sector := 0;
      while sector < |over|
        invariant Valid() && View() == old(View()) && |backing| == |old(backing)|
        invariant sector <= |over| && Committed(sector)
        invariant forall i :: 0 <= i < sector && used[i] ==> i < |backing|
        invariant old(Healthy()) ==> Healthy()
      {
        var busy, n := IsAllocated(sector, COMMIT_BUF_SECTORS);
        ghost var was := backing;
        if busy {
          var r, buf := ReadOver(sector, n);
          if r != 0 {
            return -EIO;
          }
          r := WriteBacking(sector, buf);
          HiddenChange(over, used, was, backing, zero);
          if r != 0 {
            assert used[sector + n - 1];
            return -EIO;
          }
          assert forall i :: sector <= i < sector + n ==> buf[i - sector] == over[i];
        }
        forall i | 0 <= i < sector + n
          ensures Below(backing, zero, i) == Seen(over, used, backing, zero, i)
        {
          if i < sector {
            assert Below(was, zero, i) == Seen(over, used, was, zero, i);
          }
        }
        sector := sector + n;
      }
      return 0;
    }

    /** `bdrv_commit`, from the point where the backing image is open for writing. */
    method Run() returns (ret: int)
      requires Valid()
      modifies this`faults, this`backing, this`used
      ensures Valid() && View() == old(View()) && ret <= 0
      ensures ret == 0 ==> Committed(|over|)
      ensures ret == 0 && canEmpty ==> forall i :: 0 <= i < |used| ==> !used[i]
      ensures !canEmpty ==> used == old(used)
      ensures old(Healthy()) ==> (ret == 0 <==> old(Fits())) && (ret == 0 || ret == -EIO)
    {
      ret := CopyDown();
      if ret != 0 {
        return;
      }
      if canEmpty {
        ghost var was := used;
        ret := MakeEmpty();
        FreeCommitted(over, was, used, backing, zero);
      }
    }
  }
}
