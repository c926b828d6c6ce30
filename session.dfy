/**
 * One link session (`Arduino` in the source): the listener list, the ack
 * rendezvous and the bytes written to the port. Concurrency is replaced by
 * explicit events: a read-loop step per line read, the start of a write, and
 * the expiry of a waiting write's timer. The unbuffered `acks` channel becomes
 * the flag `waiting`: a send on it succeeds exactly when a writer is blocked
 * receiving.
 */
module Session {
  import opened Protocol

  /** What one call of `ReadString('\n')` plus decoding produced. */
  datatype ReadResult =
    | Eof                    // end of stream: the session ends
    | ReadFailed             // any other read error
    | Malformed(line: string) // a line that does not decode as a `Message`
    | Received(msg: Message) // a decoded line

  /** What the port was given: an encoded message, or the line terminator. */
  datatype Chunk = Encoded(msg: Message) | Newline

  class Arduino {
    var listeners: seq<Callback>   // onDeviceData
    var waiting: bool              // a writer is blocked receiving on `acks`
    var transcript: seq<Chunk>     // everything written to the port, in order
    var portOpen: bool

    /** A freshly opened session: the initial callbacks, no writer waiting, nothing written. */
    constructor (callbacks: seq<Callback>)
      ensures listeners == callbacks && !waiting && transcript == [] && portOpen
    {
      listeners := callbacks;
      waiting := false;
      transcript := [];
      portOpen := true;
    }

    /** Registers a listener at the end; nothing is removed or deduplicated. */
    method OnDeviceData(cb: Callback)
      modifies this`listeners
      ensures listeners == old(listeners) + [cb]
    {
      listeners := listeners + [cb];
    }

    /**
     * The inner loops of the read loop: every listener, in registration
     * order, is launched with every device record and then every ACK record.
     */
    method IssueDispatches(msg: Message) returns (issued: seq<Dispatch>)
      ensures issued == Dispatches(listeners, msg)
    {
      issued := [];
      for i := 0 to |listeners|
        invariant issued == Dispatches(listeners[..i], msg)
      {
        var cb := listeners[i];
        var fromDevice := Launch(cb, Present(msg.device));
        var fromAck := Launch(cb, Present(msg.ack));
        FanoutAppend(cb, Present(msg.device), Present(msg.ack));
        DispatchesSnoc(listeners[..i], cb, msg);
        assert listeners[..i + 1] == listeners[..i] + [cb];
        issued := issued + fromDevice + fromAck;
      }
      assert listeners[..|listeners|] == listeners;
    }

    /**
     * One iteration of the read loop. `more` is false when the loop stops;
     * `completed` is what the waiting writer's `Write` returns when this line
     * handed it an acknowledgement; `issued` are the listener invocations
     * launched, in order.
     */
    method Step(r: ReadResult) returns (more: bool, completed: Option<WriteOutcome>, issued: seq<Dispatch>)
      modifies this`waiting
      ensures more <==> !r.Eof?
      ensures listeners == old(listeners) && transcript == old(transcript) && portOpen == old(portOpen)
      // EOF, a read error and an undecodable line: no handoff, no dispatch, nothing changes
      ensures !r.Received? ==> completed.None? && issued == [] && waiting == old(waiting)
      ensures r.Received? ==> issued == Dispatches(listeners, r.msg)
      // no ACK slot: the writer, if any, keeps waiting
      ensures r.Received? && r.msg.ack.None? ==> completed.None? && waiting == old(waiting)
      // an ACK slot (even an empty one) is handed to a waiting writer, or dropped when none waits
      ensures r.Received? && r.msg.ack.Some? ==>
        !waiting && completed == (if old(waiting) then Some(Success(r.msg.ack.value)) else None)
    {
      more, completed, issued := true, None, [];
      match r
      case Eof =>
        more := false;
      case ReadFailed =>
      case Malformed(_) =>
      case Received(msg) =>
        if msg.ack.Some? && waiting {
          completed := Some(Success(msg.ack.value));
          waiting := false;
        }
        issued := IssueDispatches(msg);
    }

    /**
     * The first half of `Write`: under the lock, send the encoded message and
     * the terminator, then wait. While another write is waiting the lock is
     * held, so the call does not start and nothing changes. On a closed port
     * both sends fail, their errors are ignored and nothing reaches the wire,
     * but the call still waits (and can only time out).
     */
    method Write(message: Message) returns (started: bool)
      modifies this`waiting, this`transcript
      ensures started <==> !old(waiting)
      ensures waiting && listeners == old(listeners) && portOpen == old(portOpen)
      ensures transcript == if started && portOpen then old(transcript) + [Encoded(message), Newline] else old(transcript)
    {
      started := !waiting;
      if started {
        if portOpen {
          transcript := transcript + [Encoded(message)];
          transcript := transcript + [Newline];
        }
        waiting := true;
      }
    }

    /** The waiting writer's timer fires: its `Write` returns the timeout error and the lock is released. */
    method Timeout() returns (completed: Option<WriteOutcome>)
      modifies this`waiting
      ensures !waiting
      ensures completed == if old(waiting) then Some(Failure(WriteTimedOut)) else None
      ensures transcript == old(transcript) && listeners == old(listeners)
    {
      completed := None;
      if waiting {
        completed := Some(Failure(WriteTimedOut));
        waiting := false;
      }
    }

    /** The sending half of `GetVersion`; its result is `VersionReply` of the write's outcome. */
    method GetVersion() returns (started: bool)
      modifies this`waiting, this`transcript
      ensures started <==> !old(waiting)
      ensures waiting && listeners == old(listeners) && portOpen == old(portOpen)
      ensures transcript == if started && portOpen then old(transcript) + [Encoded(VersionRequest()), Newline] else old(transcript)
    {
      started := Write(VersionRequest());
    }

    /** The sending half of `WriteDeviceData`; its result is `WriteError` of the write's outcome. */
    method WriteDeviceData(data: seq<DeviceData>) returns (started: bool)
      modifies this`waiting, this`transcript
      ensures started <==> !old(waiting)
      ensures waiting && listeners == old(listeners) && portOpen == old(portOpen)
      ensures transcript == if started && portOpen then old(transcript) + [Encoded(DeviceDataRequest(data)), Newline] else old(transcript)
    {
      started := Write(DeviceDataRequest(data));
    }

    /** `conn.Close()` once the read loop has stopped. */
    method Close()
      modifies this`portOpen
      ensures !portOpen
    {
      portOpen := false;
    }
  }

  /** A `range` over one slot: the callback is launched with each record in turn. */
  method Launch(cb: Callback, ds: seq<DeviceData>) returns (issued: seq<Dispatch>)
    ensures |issued| == |ds|
    ensures forall k | 0 <= k < |ds| :: issued[k] == Dispatch(cb, ds[k])
  {
    issued := [];
    for k := 0 to |ds|
      invariant |issued| == k
      invariant forall m | 0 <= m < k :: issued[m] == Dispatch(cb, ds[m])
    {
      issued := issued + [Dispatch(cb, ds[k])];
    }
  }

  /**
   * The version exchange end to end: a session sends the version request and
   * the device answers with an ACK line before the timer fires. The request is
   * the only thing written, and the caller gets the answered string.
   */
  method VersionExchange(callbacks: seq<Callback>, answer: DeviceData) returns (version: string, err: Option<Error>, wire: seq<Chunk>)
    requires answer.da.Str?
    ensures err.None? && version == answer.da.s
    ensures wire == [Encoded(VersionRequest()), Newline]
  {
    var a := new Arduino(callbacks);
    var started := a.GetVersion();
    var more, completed, issued := a.Step(Received(Message(None, Some([answer]), None)));
    version, err := VersionReply(completed.value).0, VersionReply(completed.value).1;
    wire := a.transcript;
  }

  /**
   * The correlation rule has no request identity: an acknowledgement that
   * arrives after its write timed out is handed to the next write instead.
   */
  method LateAckExchange(callbacks: seq<Callback>, first: Message, second: Message, late: seq<DeviceData>)
    returns (firstOutcome: WriteOutcome, secondOutcome: WriteOutcome, wire: seq<Chunk>)
    ensures firstOutcome == Failure(WriteTimedOut)
    ensures secondOutcome == Success(late)
    ensures wire == [Encoded(first), Newline, Encoded(second), Newline]
  {
    var a := new Arduino(callbacks);
    var started := a.Write(first);
    var expired := a.Timeout();
    firstOutcome := expired.value;
    started := a.Write(second);
    var more, completed, issued := a.Step(Received(Message(None, Some(late), None)));
    secondOutcome := completed.value;
    wire := a.transcript;
  }

  /**
   * Writes never interleave on the wire: while one write waits for its
   * acknowledgement, a second one does not start, and it goes out only after
   * the first has been answered.
   */
  method SerializedWrites(callbacks: seq<Callback>, first: Message, second: Message, reply: seq<DeviceData>)
    returns (secondBlocked: bool, firstOutcome: WriteOutcome, wire: seq<Chunk>)
    ensures secondBlocked
    ensures firstOutcome == Success(reply)
    ensures wire == [Encoded(first), Newline, Encoded(second), Newline]
  {
    var a := new Arduino(callbacks);
    var started := a.Write(first);
    started := a.Write(second);
    secondBlocked := !started;
    var more, completed, issued := a.Step(Received(Message(None, Some(reply), None)));
    firstOutcome := completed.value;
    started := a.Write(second);
    wire := a.transcript;
  }

  /** An acknowledgement with no writer waiting is dropped; its records still reach every listener. */
  method UnsolicitedAck(callbacks: seq<Callback>, ack: seq<DeviceData>)
    returns (completed: Option<WriteOutcome>, issued: seq<Dispatch>, stillIdle: bool)
    ensures completed.None? && stillIdle
    ensures |issued| == |callbacks| * |ack|
    ensures forall c, d :: multiset(issued)[Dispatch(c, d)] == multiset(callbacks)[c] * multiset(ack)[d]
  {
    var a := new Arduino(callbacks);
    var msg := Message(None, Some(ack), None);
    var more;
    more, completed, issued := a.Step(Received(msg));
    stillIdle := !a.waiting;
    DispatchesLength(callbacks, msg);
    assert Records(msg) == ack;
    forall c, d ensures multiset(issued)[Dispatch(c, d)] == multiset(callbacks)[c] * multiset(ack)[d] {
      DispatchesMultiplicity(callbacks, msg, c, d);
    }
  }
}
