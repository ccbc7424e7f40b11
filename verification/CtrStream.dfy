/**
 Counter mode as Lacuna's two back ends use it (aesni.c and gcrypt.c of libprivcrypt): every call
 starts on a fresh counter block.
 */
module CtrStream {
  import opened GaloisField
  import opened Units

  type Block = s: seq<Byte> | |s| == 16 witness seq(16, _ => ZERO)

  /** How a counter block is stepped, and the block cipher under the session key. */
  datatype Cipher<!C> = Cipher(next: C -> C, block: C -> Block) {
    function Advance(ctr: C, n: nat): C { if n == 0 then ctr else next(Advance(ctr, n - 1)) }

    /** Byte `r` of block `q` of the key stream that starts at counter `ctr` (section 6.5 of NIST SP 800-38A). */
    function KeyByte(ctr: C, q: nat, r: nat): Byte
      requires r < 16
    {
      block(Advance(ctr, q))[r]
    }

    /** `data` added to the key stream from block `q` of it on. */
    function Mask(ctr: C, q: nat, data: seq<Byte>): (m: seq<Byte>)
      ensures |m| == |data|
    {
      seq(|data|, i requires 0 <= i < |data| => Xor(data[i], KeyByte(ctr, q + i / 16, i % 16)))
    }

    /** Section 6.5 of NIST SP 800-38A: byte `i` is added to byte `i % 16` of the cipher of counter `i / 16`. */
    lemma MaskAt(ctr: C, data: seq<Byte>, i: nat)
      requires i < |data|
      ensures Mask(ctr, 0, data)[i] == Xor(data[i], KeyByte(ctr, i / 16, i % 16))
      ensures Mask(ctr, 0, data)[i] == Xor(data[i], block(Advance(ctr, i / 16))[i % 16])
    {
    }

    /** What a call does: the masked data and the next counter. */
    function Call(ctr: C, data: seq<Byte>): (seq<Byte>, C) {
      (Mask(ctr, 0, data), Advance(ctr, BlockCount(|data|)))
    }

    /** The results of a sequence of calls. */
    function Calls(ctr: C, inputs: seq<seq<Byte>>): (seq<seq<Byte>>, C) {
      if inputs == [] then ([], ctr)
      else
        var (out, next) := Calls(ctr, inputs[..|inputs| - 1]);
        var (last, end) := Call(next, inputs[|inputs| - 1]);
        (out + [last], end)
    }

    /** Masking twice gives the data back. */
    lemma MaskInverts(ctr: C, q: nat, data: seq<Byte>)
      ensures Mask(ctr, q, Mask(ctr, q, data)) == data
    {
      var m := Mask(ctr, q, data);
      forall i | 0 <= i < |data|
        ensures Mask(ctr, q, m)[i] == data[i]
      {
        XorCancel(data[i], KeyByte(ctr, q + i / 16, i % 16));
      }
    }

    /** The peer that starts at the same counter recovers every message, call by call, and stays in step. */
    lemma {:induction false} CallsInvert(ctr: C, inputs: seq<seq<Byte>>)
      ensures Calls(ctr, Calls(ctr, inputs).0) == (inputs, Calls(ctr, inputs).1)
    {
      if inputs != [] {
        var init, last := inputs[..|inputs| - 1], inputs[|inputs| - 1];
        var (out, next) := Calls(ctr, init);
        CallsInvert(ctr, init);
        MaskInverts(next, 0, last);
        var all := out + [Call(next, last).0];
        assert all[..|all| - 1] == out && init + [last] == inputs;
        assert Calls(ctr, inputs) == (all, Call(next, last).1);
        assert Calls(ctr, all).0 == init + [last];
      }
    }

    lemma {:induction false} AdvanceSum(ctr: C, a: nat, b: nat)
      ensures Advance(Advance(ctr, a), b) == Advance(ctr, a + b)
      decreases b
    {
      if b > 0 {
        AdvanceSum(ctr, a, b - 1);
      }
    }

    /** Key stream blocks from `q` on are those of the counter advanced by `q`. */
    lemma MaskShift(ctr: C, q: nat, data: seq<Byte>)
      ensures Mask(Advance(ctr, q), 0, data) == Mask(ctr, q, data)
    {
      var a, b := Mask(Advance(ctr, q), 0, data), Mask(ctr, q, data);
      forall i | 0 <= i < |data| ensures a[i] == b[i] {
        AdvanceSum(ctr, q, i / 16);
      }
    }

    /** Masking whole blocks and then the rest. */
    lemma MaskSplit(ctr: C, a: seq<Byte>, b: seq<Byte>, n: nat)
      requires |a| == 16 * n
      ensures Mask(ctr, 0, a + b) == Mask(ctr, 0, a) + Mask(ctr, n, b)
    {
      var l, r := Mask(ctr, 0, a + b), Mask(ctr, 0, a) + Mask(ctr, n, b);
      forall i | 0 <= i < |a + b| ensures l[i] == r[i] {
        if i >= |a| {
          SixteenOf(n, i - |a|);
        }
      }
    }

    lemma MaskTake(ctr: C, data: seq<Byte>, n: nat)
      requires n <= |data|
      ensures Mask(ctr, 0, data)[..n] == Mask(ctr, 0, data[..n])
    {
    }
  }

  lemma SixteenOf(q: nat, i: nat)
    ensures (16 * q + i) / 16 == q + i / 16 && (16 * q + i) % 16 == i % 16
  {
  }

  const COUNTERS: nat := 0x1_0000_0000_0000_0000_0000_0000_0000_0000

  /** The counter block of AES: a 128-bit number that wraps around. */
  function Next(ctr: nat): nat { (ctr + 1) % COUNTERS }

  lemma {:induction false} AdvanceIs(c: Cipher<nat>, ctr: nat, n: nat)
    requires ctr < COUNTERS && forall x: nat :: c.next(x) == Next(x)
    ensures c.Advance(ctr, n) == (ctr + n) % COUNTERS
    decreases n
  {
    if n > 0 {
      AdvanceIs(c, ctr, n - 1);
      NextSum(ctr + (n - 1));
    }
  }

  lemma NextSum(x: nat)
    ensures Next(x % COUNTERS) == (x + 1) % COUNTERS
  {
  }
}
