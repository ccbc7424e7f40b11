/**
 The buffered output stream of buffered_file.c, over a backend that may take part of what it is
 given, ask to be called again, or fail.
 */
module BufferedFile {
  import opened Bytes

  const EAGAIN: int := 11
  const EINVAL: int := 22

  /** What a backend that answers `r` makes of `n` bytes: it cannot take more than it is given. */
  function Answer(r: int, n: nat): int { if r > n then n else r }

  /** An answer that is an error: nothing taken, and no request to be called again. */
  predicate Fatal(r: int) { r <= 0 && r != -EAGAIN }

  /** `after` are the answers still to come when those before them in `before` have been given. */
  ghost predicate Asked(before: seq<int>, after: seq<int>) {
    |after| <= |before| && after == before[|before| - |after|..]
  }

  /** One of the answers given in between was an error. */
  ghost predicate SawFatal(before: seq<int>, after: seq<int>) {
    exists j :: 0 <= j < |before| - |after| && Fatal(before[j])
  }

  lemma AskedOne(all: seq<int>, before: seq<int>, after: seq<int>)
    requires Asked(all, before) && before != [] && after == before[1..]
    ensures Asked(all, after) && (SawFatal(all, after) <==> SawFatal(all, before) || Fatal(before[0]))
  {
    assert before[0] == all[|all| - |before|];
  }

  /** Part of `data` handed over and the rest appended, with nothing in the buffer unless nothing is handed over. */
  lemma Joined(d: seq<byte>, b: seq<byte>, data: seq<byte>, n: nat)
    requires n <= |data| && (b == [] || n == 0)
    ensures (d + data[..n]) + (b + data[n..]) == (d + b) + data
    ensures n == 0 ==> d + data[..n] <= d + b
    ensures n == |data| && b == [] ==> b + data[n..] == []
  {
    assert data == data[..n] + data[n..];
  }

  class Output {
    var hasError: bool
    var freezeOutput: bool
    var bytesXfer: nat
    var xferLimit: nat
    var buffer: seq<byte>
    var delivered: seq<byte>      // what the backend has taken
    var answers: seq<int>         // answers of the backend to come; after them it takes everything
    var closed: bool              // the stream has been freed
    ghost var accepted: seq<byte> // what callers have put
    ghost const all: seq<int>     // all answers of the backend
    ghost var failed: bool        // one of those given was an error

    /** Without an error nothing is lost, duplicated or reordered; an error is known exactly when one was answered. */
    ghost predicate Valid()
      reads this
    {
      (!hasError ==> delivered + buffer == accepted) && Recorded() && hasError == failed
    }

    /** `failed` is what it says. */
    ghost predicate Recorded()
      reads this`answers, this`failed
    {
      Asked(all, answers) && (failed <==> SawFatal(all, answers))
    }

    constructor (bytesPerSecond: nat, answers: seq<int>)
      ensures Valid() && !hasError && !closed && accepted == [] && this.answers == answers
      ensures all == answers && !failed
    {
      all, failed := answers, false;
      hasError, freezeOutput, bytesXfer, xferLimit, closed := false, false, 0, bytesPerSecond / 10, false;
      buffer, delivered, accepted := [], [], [];
      this.answers := answers;
    }

    /** The backend's put_buffer. */
    method Put(data: seq<byte>) returns (ret: int)
      requires data != [] && Recorded()
      modifies this`delivered, this`answers, this`failed
      ensures ret <= |data|
      ensures delivered == old(delivered) + (if ret > 0 then data[..ret] else [])
      ensures old(answers) == [] ==> ret == |data| && answers == []
      ensures old(answers) != [] ==> answers == old(answers)[1..] && ret == Answer(old(answers)[0], |data|)
      ensures Recorded() && failed == (old(failed) || Fatal(ret))
    {
      if answers == [] {
        ret := |data|;
      } else {
        AskedOne(all, answers, answers[1..]);
        failed := failed || Fatal(answers[0]);
        ret := Answer(answers[0], |data|);
        answers := answers[1..];
      }
      if ret > 0 {
        delivered := delivered + data[..ret];
      }
    }

    /** `buffered_append` */
    method Append(data: seq<byte>)
      modifies this`buffer
      ensures buffer == old(buffer) + data
    {
      buffer := buffer + data;
    }

    /**
     `buffered_flush`: moves bytes from the front of the buffer to the backend, in order, until the backend asks
     to be called again or fails. Only a failure is an error.
     */
    method Flush()
      requires Recorded()
      modifies this`buffer, this`delivered, this`answers, this`failed, this`freezeOutput, this`hasError
      ensures delivered + buffer == old(delivered + buffer) && old(delivered) <= delivered
      ensures old(hasError) ==> hasError && buffer == old(buffer)
      ensures hasError || freezeOutput || buffer == []
      ensures !old(freezeOutput) && freezeOutput ==> !hasError
      ensures !old(hasError) && old(buffer) != [] && buffer != [] ==> |answers| < |old(answers)|
      ensures |answers| <= |old(answers)|
      ensures Recorded() && (old(hasError == failed) ==> hasError == failed) && (old(freezeOutput) ==> freezeOutput)
    {
      if hasError {
        return;
      }
      var offset := 0;
      while offset < |buffer|
        invariant offset <= |buffer| && buffer == old(buffer) && freezeOutput == old(freezeOutput) && !hasError
        invariant delivered == old(delivered) + buffer[..offset]
        invariant |answers| <= |old(answers)| && Recorded() && failed == old(failed)
        decreases |buffer| - offset
      {
        var ret := Put(buffer[offset..]);
        if ret == -EAGAIN {
          freezeOutput := true;
          break;
        }
        if ret <= 0 {
          hasError := true;
          break;
        }
        assert buffer[..offset + ret] == buffer[..offset] + buffer[offset..][..ret];
        offset := offset + ret;
      }
      assert buffer == buffer[..offset] + buffer[offset..];
      buffer := buffer[offset..];
    }

    /**
     The loop of `buffered_put_buffer`: hands data to the backend until it balks or the rate limit is passed.
     Nothing is handed over above the limit: before the last `last` bytes the count was within it.
     */
    method PutDirect(data: seq<byte>) returns (offset: int, ghost last: nat)
      requires Recorded()
      modifies this`delivered, this`answers, this`failed, this`freezeOutput, this`hasError, this`bytesXfer
      ensures offset <= |data| && (offset < 0 ==> offset == -EINVAL && hasError)
      ensures offset >= 0 ==> hasError == old(hasError) && delivered == old(delivered) + data[..offset]
      ensures old(freezeOutput) ==> offset == 0 && freezeOutput
      ensures Recorded() && failed == (old(failed) || offset < 0)
      ensures offset >= 0 ==> bytesXfer == old(bytesXfer) + offset && last <= offset && (offset > 0 ==> last > 0)
      ensures offset > 0 ==> old(bytesXfer) + offset - last <= xferLimit
      ensures 0 <= offset < |data| ==> freezeOutput || bytesXfer > xferLimit
      ensures old(freezeOutput) || old(bytesXfer) > xferLimit ==> offset == 0 && answers == old(answers)
    {
      offset, last := 0, 0;
      assert data[..0] == [];
      while !freezeOutput && offset < |data|
        invariant 0 <= offset <= |data| && hasError == old(hasError)
                  && (old(freezeOutput) ==> offset == 0 && freezeOutput)
        invariant delivered == old(delivered) + data[..offset]
        invariant Recorded() && failed == old(failed)
        invariant bytesXfer == old(bytesXfer) + offset && last <= offset && (offset > 0 ==> last > 0)
        invariant offset > 0 ==> old(bytesXfer) + offset - last <= xferLimit && old(bytesXfer) <= xferLimit
        invariant offset == 0 ==> answers == old(answers)
        decreases |data| - offset, !freezeOutput
      {
        if bytesXfer > xferLimit {
          break;
        }
        var ret := Put(data[offset..]);
        if ret == -EAGAIN {
          freezeOutput := true;
          break;
        }
        if ret <= 0 {
          hasError := true;
          return -EINVAL, last;
        }
        last := ret;
        assert data[..offset + ret] == data[..offset] + data[offset..][..ret];
        offset := offset + ret;
        bytesXfer := bytesXfer + ret;
      }
    }

    /**
     `buffered_put_buffer`: all of `data` is accepted, part of it perhaps only buffered, unless an error
     is or becomes known. Data stays in the buffer only if the backend asks to be called again or the rate limit
     is passed, and above the limit nothing of `data` is handed over.
     */
    method PutBuffer(data: seq<byte>) returns (ret: int)
      requires Valid() && !closed
      modifies this
      ensures Valid() && !closed
      ensures accepted == old(accepted) + (if old(hasError) then [] else data)
      ensures old(hasError) ==> ret == -EINVAL && hasError
      ensures !hasError ==> ret == |data|
      ensures !hasError && buffer != [] ==> freezeOutput || bytesXfer > xferLimit
      ensures old(bytesXfer) > xferLimit ==> delivered <= old(delivered + buffer)
    {
      if hasError {
        return -EINVAL;
      }
      freezeOutput := false;
      Flush();
      ghost var d, b, last := delivered, buffer, 0;
      accepted := accepted + data;
      ret, last := PutDirect(data);
      if ret >= 0 {
        Append(data[ret..]);
        if b == [] || ret == 0 {
          Joined(d, b, data, ret);
        }
        ret := |data|;
      }
    }

    /**
     `buffered_rate_tick`: a new period and another attempt to empty the buffer, unless the output is
     frozen; after an error the stream is closed instead.
     */
    method RateTick()
      requires Valid() && !closed
      modifies this
      ensures Valid() && accepted == old(accepted) && closed == old(hasError) && (closed ==> hasError)
      ensures old(hasError || freezeOutput) ==> delivered == old(delivered) && buffer == old(buffer)
      ensures !old(hasError || freezeOutput) ==> bytesXfer == 0 && delivered + buffer == old(delivered + buffer)
      ensures !hasError && buffer != [] ==> freezeOutput
    {
      if hasError {
        Close();
        return;
      }
      if freezeOutput {
        return;
      }
      bytesXfer := 0;
      Flush();
    }

    /** `buffered_close`: without an error the backend has taken every byte ever put, in order. */
    method Close()
      requires Valid() && !closed
      modifies this`buffer, this`delivered, this`answers, this`failed, this`freezeOutput, this`hasError, this`closed
      ensures Valid() && closed
      ensures !hasError ==> delivered == accepted && buffer == []
      ensures old(hasError) ==> hasError && delivered == old(delivered) && buffer == old(buffer)
    {
      while !hasError && buffer != []
        invariant Valid() && (old(hasError) ==> hasError && delivered == old(delivered) && buffer == old(buffer))
        decreases |answers|, |buffer|
      {
        Flush();
      }
      closed := true;
    }
  }

  datatype Operation = PutOp(data: seq<byte>) | TickOp

  function AllPut(ops: seq<Operation>): seq<byte> {
    if ops == [] then [] else AllPut(ops[..|ops| - 1]) + (if ops[|ops| - 1].PutOp? then ops[|ops| - 1].data else [])
  }

  /**
   Any puts and ticks, any answers of the backend, then a close: without an error the backend has exactly what was
   put, and there is no error unless one of the answers was.
   */
  method WholeRun(bytesPerSecond: nat, answers: seq<int>, ops: seq<Operation>) returns (out: Output)
    ensures !out.hasError ==> out.delivered == AllPut(ops)
    ensures out.hasError <==> SawFatal(answers, out.answers)
  {
    out := new Output(bytesPerSecond, answers);
    for i := 0 to |ops|
      invariant fresh(out) && out.Valid() && (!out.hasError ==> out.accepted == AllPut(ops[..i]))
      invariant out.closed ==> out.hasError
      invariant out.all == answers
    {
      assert ops[..i + 1][..i] == ops[..i];
      if !out.closed {
        match ops[i]
        case PutOp(data) =>
          var ret := out.PutBuffer(data);
        case TickOp =>
          out.RateTick();
      }
    }
    assert ops[..|ops|] == ops;
    if !out.closed {
      out.Close();
    }
  }
}
