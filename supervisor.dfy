/**
 * The reconnect loop of `Connect`: open the port, build a fresh session from
 * the initial callbacks, run the read loop until EOF, close the port, and
 * start over; a failed open ends everything with that error. The environment
 * is a finite script: one `Attempt` per open, each successful one carrying
 * the read results its port produces.
 */
module Supervisor {
  import opened Protocol
  import opened Session

  datatype Attempt = OpenFailed(reason: string) | Opened(lines: seq<ReadResult>)

  predicate ReachesEof(lines: seq<ReadResult>)
  {
    Eof in lines
  }

  /** The invocations one read result launches in a session whose listeners are `cbs`. */
  function LineDispatches(cbs: seq<Callback>, r: ReadResult): seq<Dispatch>
  {
    if r.Received? then Dispatches(cbs, r.msg) else []
  }

  /** All invocations of one read loop: every line up to the first EOF, which ends it. */
  function LoopDispatches(cbs: seq<Callback>, lines: seq<ReadResult>): seq<Dispatch>
  {
    if lines == [] || lines[0].Eof? then []
    else LineDispatches(cbs, lines[0]) + LoopDispatches(cbs, lines[1..])
  }

  /** Until EOF has been read, one more read result adds exactly its own invocations. */
  lemma {:induction false} LoopDispatchesSnoc(cbs: seq<Callback>, lines: seq<ReadResult>, r: ReadResult)
    requires !ReachesEof(lines)
    ensures LoopDispatches(cbs, lines + [r]) == LoopDispatches(cbs, lines) + LineDispatches(cbs, r)
  {
    if lines == [] {
      assert lines + [r] == [r] && [r][1..] == [];
    } else {
      var first, rest := lines[0], lines[1..];
      assert lines == [first] + rest;
      assert !first.Eof? && !ReachesEof(rest);
      assert (lines + [r])[0] == first && (lines + [r])[1..] == rest + [r];
      var head, tail, last := LineDispatches(cbs, first), LoopDispatches(cbs, rest), LineDispatches(cbs, r);
      calc {
        LoopDispatches(cbs, lines + [r]);
        head + LoopDispatches(cbs, rest + [r]);
        { LoopDispatchesSnoc(cbs, rest, r); }
        head + (tail + last);
        { assert head + (tail + last) == (head + tail) + last; }
        (head + tail) + last;
        LoopDispatches(cbs, lines) + last;
      }
    }
  }

  /** What follows the first EOF is never read: the loop has already stopped. */
  lemma {:induction false} NothingAfterEof(cbs: seq<Callback>, before: seq<ReadResult>, after: seq<ReadResult>)
    requires !ReachesEof(before)
    ensures LoopDispatches(cbs, before + [Eof] + after) == LoopDispatches(cbs, before)
  {
    if before == [] {
      assert before + [Eof] + after == [Eof] + after;
    } else {
      assert (before + [Eof] + after)[0] == before[0];
      assert (before + [Eof] + after)[1..] == before[1..] + [Eof] + after;
      assert before == [before[0]] + before[1..];
      NothingAfterEof(cbs, before[1..], after);
    }
  }

  /**
   * The index of the attempt the supervisor stops at: the first whose open
   * fails or whose read loop never reaches EOF; |attempts| if there is none.
   */
  function Halt(attempts: seq<Attempt>): (h: nat)
    ensures h <= |attempts|
  {
    if attempts == [] then 0
    else if attempts[0].OpenFailed? || !ReachesEof(attempts[0].lines) then 0
    else 1 + Halt(attempts[1..])
  }

  /** Every attempt before the halt opened and reached EOF; the one at the halt failed to open or never reached EOF. */
  lemma {:induction false} HaltMeaning(attempts: seq<Attempt>, k: nat)
    requires k <= Halt(attempts)
    ensures k < Halt(attempts) ==> attempts[k].Opened? && ReachesEof(attempts[k].lines)
    ensures k == Halt(attempts) < |attempts| ==> attempts[k].OpenFailed? || !ReachesEof(attempts[k].lines)
  {
    if k > 0 {
      assert Halt(attempts) == 1 + Halt(attempts[1..]);
      HaltMeaning(attempts[1..], k - 1);
      if k < |attempts| {
        assert attempts[1..][k - 1] == attempts[k];
      }
    }
  }

  /** How many attempts the supervisor performs. */
  function Performed(attempts: seq<Attempt>): (n: nat)
    ensures n <= |attempts|
  {
    if Halt(attempts) < |attempts| then Halt(attempts) + 1 else Halt(attempts)
  }

  /** How many sessions are built: one per successful open performed. */
  function SessionsBuilt(attempts: seq<Attempt>): (n: nat)
    ensures n == Halt(attempts) || n == Halt(attempts) + 1
  {
    if Halt(attempts) < |attempts| && attempts[Halt(attempts)].Opened? then Halt(attempts) + 1 else Halt(attempts)
  }

  /**
   * `Connect`. Returns only when an open fails, or when the script ends (the
   * session then still reading, or the script exhausted between sessions).
   * `arduino` is the last session built, `null` if none: as in the source, an
   * open that fails after a reconnect returns the error together with the
   * previous, closed, session. `performed` is the number of opens attempted
   * and `closed` the number of ports closed after EOF. What each session's
   * read loop launches is stated by `RunSession`. No writer exists here, so
   * every acknowledgement read is dropped.
   */
  method Connect(callbacks: seq<Callback>, attempts: seq<Attempt>)
    returns (arduino: Arduino?, err: Option<Error>, performed: nat, closed: nat)
    ensures performed == Performed(attempts) && closed == Halt(attempts)
    ensures err.Some? <==> closed < |attempts| && attempts[closed].OpenFailed?
    ensures err.Some? ==> err.value == PortOpenFailed(attempts[closed].reason)
    ensures arduino == null <==> SessionsBuilt(attempts) == 0
    ensures arduino != null ==> fresh(arduino)
    ensures arduino != null ==> Settled(arduino, callbacks) && (arduino.portOpen <==> SessionsBuilt(attempts) > closed)
  {
    arduino, err, performed, closed := null, None, 0, 0;
    while performed < |attempts|
      invariant performed <= Halt(attempts)
      invariant closed == performed
      invariant arduino == null <==> performed == 0
      invariant arduino != null ==> fresh(arduino)
      invariant arduino != null ==> Settled(arduino, callbacks) && !arduino.portOpen
    {
      var attempt := attempts[performed];
      if attempt.OpenFailed? {
        StopsAtOpenFailure(attempts, performed);
        performed := performed + 1;
        err := Some(PortOpenFailed(attempt.reason));
        return;
      }
      var eof, launched;
      arduino, eof, launched := RunSession(callbacks, attempt.lines);
      if !eof {
        StopsInSession(attempts, performed);
        performed := performed + 1;
        return;
      }
      GoesPastSession(attempts, performed);
      performed := performed + 1;
      closed := closed + 1;
    }
  }

  /**
   * The only handle `Connect` hands back is the one that comes with an open
   * error: after a session ended in EOF and the reopen failed, the caller owns
   * the previous session, whose port is closed. A write on it starts and
   * waits, but nothing reaches the wire.
   */
  method WriteAfterFailedReopen(callbacks: seq<Callback>, m: Message)
    returns (err: Option<Error>, started: bool, wire: seq<Chunk>)
    ensures err == Some(PortOpenFailed("gone"))
    ensures started && wire == []
  {
    var attempts := [Opened([Eof]), OpenFailed("gone")];
    assert ReachesEof(attempts[0].lines);
    assert attempts[1..] == [OpenFailed("gone")];
    assert Halt(attempts) == 1;
    var arduino, performed, closed;
    arduino, err, performed, closed := Connect(callbacks, attempts);
    started := arduino.Write(m);
    wire := arduino.transcript;
  }

  /** A session as the supervisor leaves it: the initial callbacks, no writer waiting, nothing written. */
  predicate Settled(a: Arduino, callbacks: seq<Callback>)
    reads a
  {
    a.listeners == callbacks && !a.waiting && a.transcript == []
  }

  /** An open that fails ends the supervisor there, with no session built for it. */
  lemma StopsAtOpenFailure(attempts: seq<Attempt>, i: nat)
    requires i <= Halt(attempts) && i < |attempts| && attempts[i].OpenFailed?
    ensures Halt(attempts) == i && Performed(attempts) == i + 1 && SessionsBuilt(attempts) == i
  {
    HaltAt(attempts, i);
  }

  /** A session whose read loop never reaches EOF is the last one. */
  lemma StopsInSession(attempts: seq<Attempt>, i: nat)
    requires i <= Halt(attempts) && i < |attempts| && attempts[i].Opened? && !ReachesEof(attempts[i].lines)
    ensures Halt(attempts) == i && Performed(attempts) == i + 1 && SessionsBuilt(attempts) == i + 1
  {
    HaltAt(attempts, i);
  }

  /** A session that reaches EOF is followed by another attempt. */
  lemma GoesPastSession(attempts: seq<Attempt>, i: nat)
    requires i <= Halt(attempts) && i < |attempts| && attempts[i].Opened? && ReachesEof(attempts[i].lines)
    ensures i + 1 <= Halt(attempts)
  {
    HaltAt(attempts, i);
  }

  /** Where the supervisor stands at attempt `i`: it stops there, or goes on past it. */
  lemma {:induction false} HaltAt(attempts: seq<Attempt>, i: nat)
    requires i <= Halt(attempts) && i < |attempts|
    ensures attempts[i].OpenFailed? || !ReachesEof(attempts[i].lines) ==> Halt(attempts) == i && Performed(attempts) == i + 1
    ensures attempts[i].OpenFailed? ==> SessionsBuilt(attempts) == i
    ensures attempts[i].Opened? && !ReachesEof(attempts[i].lines) ==> SessionsBuilt(attempts) == i + 1
    ensures attempts[i].Opened? && ReachesEof(attempts[i].lines) ==> i + 1 <= Halt(attempts)
    decreases i
  {
    if i > 0 {
      HaltAt(attempts[1..], i - 1);
      assert attempts[1..][i - 1] == attempts[i];
    }
  }

  /**
   * One iteration of the reconnect loop after a successful open: a session
   * built from the initial callbacks, its read loop, and the port closed
   * after EOF.
   */
  method RunSession(callbacks: seq<Callback>, lines: seq<ReadResult>) returns (arduino: Arduino, eof: bool, issued: seq<Dispatch>)
    ensures fresh(arduino)
    ensures Settled(arduino, callbacks)
    ensures eof <==> ReachesEof(lines)
    ensures arduino.portOpen <==> !eof
    ensures issued == LoopDispatches(callbacks, lines)
  {
    arduino := new Arduino(callbacks);
    eof, issued := ReadLoop(arduino, lines);
    if eof {
      arduino.Close();
    }
  }

  /**
   * The inner loop of `Connect`: step the session through the lines its port
   * produces until EOF (`eof`) or the end of the script (the loop still
   * reading). `issued` are the invocations launched on the way.
   */
  method ReadLoop(arduino: Arduino, lines: seq<ReadResult>) returns (eof: bool, issued: seq<Dispatch>)
    modifies arduino`waiting
    ensures eof <==> ReachesEof(lines)
    ensures issued == LoopDispatches(arduino.listeners, lines)
    ensures !old(arduino.waiting) ==> !arduino.waiting
    ensures arduino.listeners == old(arduino.listeners) && arduino.transcript == old(arduino.transcript)
    ensures arduino.portOpen == old(arduino.portOpen)
  {
    issued := [];
    var j, more := 0, true;
    while j < |lines| && more
      invariant j <= |lines|
      invariant more <==> !ReachesEof(lines[..j])
      invariant issued == LoopDispatches(arduino.listeners, lines[..j])
      invariant !old(arduino.waiting) ==> !arduino.waiting
      invariant arduino.listeners == old(arduino.listeners) && arduino.transcript == old(arduino.transcript)
      invariant arduino.portOpen == old(arduino.portOpen)
    {
      PrefixStep(arduino.listeners, lines, j);
      var completed, out;
      more, completed, out := arduino.Step(lines[j]);
      issued := issued + out;
      j := j + 1;
    }
    if more {
      assert lines[..j] == lines;
    } else {
      ReachesEofPrefix(arduino.listeners, lines, j);
    }
    eof := !more;
  }

  /** Reading one more line while EOF has not been seen: it is EOF itself, or adds its own invocations. */
  lemma PrefixStep(cbs: seq<Callback>, lines: seq<ReadResult>, j: nat)
    requires j < |lines| && !ReachesEof(lines[..j])
    ensures ReachesEof(lines[..j + 1]) <==> lines[j].Eof?
    ensures LoopDispatches(cbs, lines[..j + 1]) == LoopDispatches(cbs, lines[..j]) + LineDispatches(cbs, lines[j])
  {
    assert lines[..j + 1] == lines[..j] + [lines[j]];
    LoopDispatchesSnoc(cbs, lines[..j], lines[j]);
  }

  /** Once a prefix has reached EOF, the rest of the script is never read. */
  lemma {:induction false} ReachesEofPrefix(cbs: seq<Callback>, lines: seq<ReadResult>, j: nat)
    requires j <= |lines| && ReachesEof(lines[..j])
    ensures ReachesEof(lines)
    ensures LoopDispatches(cbs, lines) == LoopDispatches(cbs, lines[..j])
  {
    assert lines == lines[..j] + lines[j..];
    if !lines[0].Eof? {
      assert lines[..j] == [lines[0]] + lines[1..][..j - 1];
      ReachesEofPrefix(cbs, lines[1..], j - 1);
    }
  }
}
