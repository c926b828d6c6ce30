/**
 * The values exchanged between the host and the microcontroller: one
 * `Message` per line, each slot independently optional, and the records
 * (`DeviceData`) those slots carry. Also the fan-out rule of the read loop:
 * which (callback, record) invocations one decoded message gives rise to,
 * and the pure halves of `GetVersion` and `WriteDeviceData`.
 */
module Protocol {

  datatype Option<T> = None | Some(value: T)

  /** The errors the core surfaces to a caller. */
  datatype Error =
    | WriteTimedOut                   // no acknowledgement within the 2-second wait
    | PortOpenFailed(reason: string)  // the serial device could not be opened

  datatype Result<T> = Success(value: T) | Failure(error: Error)

  /** The `DA` field: an untyped payload whose shape the device decides. */
  datatype Payload = Absent | Str(s: string) | Num(n: real)

  /** One device/channel record: group `G`, variable `V`, device code `D`, payload `DA`. */
  datatype DeviceData = DeviceData(g: string, v: int, d: int, da: Payload)

  /**
   * One line of the protocol. `None` is a slot the line did not carry (a nil
   * slice or pointer); `Some([])` is a slot that was present but empty.
   */
  datatype Message = Message(
    device: Option<seq<DeviceData>>,
    ack: Option<seq<DeviceData>>,
    error: Option<int>)

  /** An opaque listener: callbacks are compared by identity only. */
  type Callback = nat

  /** One launched invocation of a listener with one record. */
  datatype Dispatch = Dispatch(cb: Callback, data: DeviceData)

  /** The result of one `Write`: the acknowledgement list, or the error. */
  type WriteOutcome = Result<seq<DeviceData>>

  /** Ranging over an absent slot visits nothing. */
  function Present(slot: Option<seq<DeviceData>>): seq<DeviceData>
  {
    if slot.Some? then slot.value else []
  }

  /** Every record a message carries, in the order the read loop visits them: device slot first, then ACK slot. */
  function Records(msg: Message): seq<DeviceData>
  {
    Present(msg.device) + Present(msg.ack)
  }

  /** One callback applied to each record in turn. */
  function Fanout(cb: Callback, ds: seq<DeviceData>): seq<Dispatch>
  {
    seq(|ds|, i requires 0 <= i < |ds| => Dispatch(cb, ds[i]))
  }

  /** The invocations issued for one decoded message: callback-major, each callback seeing all of `Records(msg)`. */
  function Dispatches(cbs: seq<Callback>, msg: Message): seq<Dispatch>
  {
    if cbs == [] then [] else Fanout(cbs[0], Records(msg)) + Dispatches(cbs[1..], msg)
  }

  lemma FanoutAppend(cb: Callback, xs: seq<DeviceData>, ys: seq<DeviceData>)
    ensures Fanout(cb, xs + ys) == Fanout(cb, xs) + Fanout(cb, ys)
  {
    assert Fanout(cb, xs + ys) == Fanout(cb, xs) + Fanout(cb, ys);
  }

  /** Registering one more callback adds exactly its fan-out at the end. */
  lemma {:induction false} DispatchesSnoc(cbs: seq<Callback>, cb: Callback, msg: Message)
    ensures Dispatches(cbs + [cb], msg) == Dispatches(cbs, msg) + Fanout(cb, Records(msg))
  {
    if cbs == [] {
      assert [cb][1..] == [];
    } else {
      assert (cbs + [cb])[1..] == cbs[1..] + [cb];
      DispatchesSnoc(cbs[1..], cb, msg);
    }
  }

  /** Exactly |callbacks| x (|Device| + |ACK|) invocations. */
  lemma {:induction false} DispatchesLength(cbs: seq<Callback>, msg: Message)
    ensures |Dispatches(cbs, msg)| == |cbs| * (|Present(msg.device)| + |Present(msg.ack)|)
  {
    if cbs != [] {
      DispatchesLength(cbs[1..], msg);
      var n := |Present(msg.device)| + |Present(msg.ack)|;
      assert |cbs| * n == n + (|cbs| - 1) * n;
    }
  }

  /** The block of callback i sits between the blocks of the callbacks before it and those after it. */
  lemma {:induction false} DispatchesSplit(cbs: seq<Callback>, msg: Message, i: nat)
    requires i < |cbs|
    ensures Dispatches(cbs, msg) == Dispatches(cbs[..i], msg) + Fanout(cbs[i], Records(msg)) + Dispatches(cbs[i + 1..], msg)
  {
    if i == 0 {
      assert cbs[..0] == [];
    } else {
      DispatchesSplit(cbs[1..], msg, i - 1);
      assert cbs[1..][..i - 1] == cbs[..i][1..] && cbs[1..][i - 1] == cbs[i] && cbs[1..][i..] == cbs[i + 1..];
      assert cbs[..i][0] == cbs[0];
    }
  }

  /**
   * The order of the invocations: with n records per line, position i * n + j
   * holds callback i with record j.
   */
  lemma DispatchesAt(cbs: seq<Callback>, msg: Message, i: nat, j: nat)
    requires i < |cbs| && j < |Records(msg)|
    ensures i * |Records(msg)| + j < |Dispatches(cbs, msg)|
    ensures Dispatches(cbs, msg)[i * |Records(msg)| + j] == Dispatch(cbs[i], Records(msg)[j])
  {
    DispatchesSplit(cbs, msg, i);
    DispatchesLength(cbs[..i], msg);
    var before := Dispatches(cbs[..i], msg);
    var block := Fanout(cbs[i], Records(msg));
    assert |before| == i * |Records(msg)|;
    assert (before + block)[|before| + j] == block[j];
  }

  /** For each callback, the device records come first and the ACK records after them, each in list order. */
  lemma DispatchOrder(cbs: seq<Callback>, msg: Message, i: nat, j: nat)
    requires i < |cbs| && j < |Records(msg)|
    ensures i * |Records(msg)| + j < |Dispatches(cbs, msg)|
    ensures j < |Present(msg.device)| ==>
      Dispatches(cbs, msg)[i * |Records(msg)| + j] == Dispatch(cbs[i], Present(msg.device)[j])
    ensures |Present(msg.device)| <= j ==>
      Dispatches(cbs, msg)[i * |Records(msg)| + j] == Dispatch(cbs[i], Present(msg.ack)[j - |Present(msg.device)|])
  {
    DispatchesAt(cbs, msg, i, j);
  }

  /**
   * Every record reaches every callback: the number of times callback `c` is
   * invoked with record `d` is the number of registrations of `c` times the
   * number of occurrences of `d` in the message.
   */
  lemma {:induction false} DispatchesMultiplicity(cbs: seq<Callback>, msg: Message, c: Callback, d: DeviceData)
    ensures multiset(Dispatches(cbs, msg))[Dispatch(c, d)] == multiset(cbs)[c] * multiset(Records(msg))[d]
  {
    if cbs != [] {
      DispatchesMultiplicity(cbs[1..], msg, c, d);
      FanoutMultiplicity(cbs[0], Records(msg), c, d);
      FirstBlockCount(cbs, msg, Dispatch(c, d));
      HeadCount(cbs, c);
      CountStep(c == cbs[0], multiset(cbs[1..])[c], multiset(Records(msg))[d]);
    }
  }

  /** Counting registrations: the first one plus the rest. */
  lemma HeadCount(cbs: seq<Callback>, c: Callback)
    requires cbs != []
    ensures multiset(cbs)[c] == (if c == cbs[0] then 1 else 0) + multiset(cbs[1..])[c]
  {
    assert cbs == [cbs[0]] + cbs[1..];
  }

  /** Counting in a line's invocations: the first callback's block plus the rest. */
  lemma FirstBlockCount(cbs: seq<Callback>, msg: Message, x: Dispatch)
    requires cbs != []
    ensures multiset(Dispatches(cbs, msg))[x]
         == multiset(Fanout(cbs[0], Records(msg)))[x] + multiset(Dispatches(cbs[1..], msg))[x]
  {
    var head := Fanout(cbs[0], Records(msg));
    var tail := Dispatches(cbs[1..], msg);
    assert Dispatches(cbs, msg) == head + tail;
    assert multiset(head + tail) == multiset(head) + multiset(tail);
  }

  /** The product step of the count, kept apart so the multiset induction carries no nonlinear arithmetic. */
  lemma CountStep(same: bool, rest: nat, k: nat)
    ensures (if same then k else 0) + rest * k == ((if same then 1 else 0) + rest) * k
  {
    if same {
      assert (1 + rest) * k == k + rest * k;
    }
  }

  lemma {:induction false} FanoutMultiplicity(cb: Callback, ds: seq<DeviceData>, c: Callback, d: DeviceData)
    ensures multiset(Fanout(cb, ds))[Dispatch(c, d)] == if c == cb then multiset(ds)[d] else 0
  {
    if ds != [] {
      FanoutMultiplicity(cb, ds[1..], c, d);
      assert Fanout(cb, ds) == [Dispatch(cb, ds[0])] + Fanout(cb, ds[1..]);
      assert ds == [ds[0]] + ds[1..];
    }
  }

  /** With each listener registered once, each record reaches each listener once per occurrence in the line. */
  lemma ExactlyOnce(cbs: seq<Callback>, msg: Message, c: Callback, d: DeviceData)
    requires multiset(cbs)[c] == 1 && multiset(Records(msg))[d] == 1
    ensures multiset(Dispatches(cbs, msg))[Dispatch(c, d)] == 1
  {
    DispatchesMultiplicity(cbs, msg, c, d);
  }

  /** The request `GetVersion` sends: one record, G="0", V=0, D=1003, DA="VNO", and nothing else. */
  function VersionRequest(): (m: Message)
    ensures m.ack.None? && m.error.None?
    ensures m.device == Some([DeviceData("0", 0, 1003, Str("VNO"))])
  {
    Message(Some([DeviceData("0", 0, 1003, Str("VNO"))]), None, None)
  }

  /** The request `WriteDeviceData` sends: the given records in the device slot and no other slot. */
  function DeviceDataRequest(data: seq<DeviceData>): (m: Message)
    ensures Records(m) == data
    ensures m.ack.None? && m.error.None?
  {
    Message(Some(data), None, None)
  }

  /**
   * What `GetVersion` returns for the outcome of its write: on an error, the
   * empty string and that error; otherwise the string payload of the first
   * acknowledged record. The source panics on an empty ACK list or a
   * non-string payload, which the precondition excludes.
   */
  function VersionReply(outcome: WriteOutcome): (r: (string, Option<Error>))
    requires outcome.Success? ==> |outcome.value| > 0 && outcome.value[0].da.Str?
    ensures r.1.None? <==> outcome.Success?
    ensures outcome.Failure? ==> r == ("", Some(outcome.error))
    ensures outcome.Success? ==> Str(r.0) == outcome.value[0].da
  {
    match outcome
    case Failure(e) => ("", Some(e))
    case Success(ack) => (ack[0].da.s, None)
  }

  /** What `WriteDeviceData` returns: the write's error only, the acknowledgement discarded. */
  function WriteError(outcome: WriteOutcome): (err: Option<Error>)
    ensures err.None? <==> outcome.Success?
    ensures outcome.Failure? ==> err == Some(outcome.error)
  {
    if outcome.Failure? then Some(outcome.error) else None
  }
}
