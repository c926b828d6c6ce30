# Arduino serial bridge: dispatch and acknowledgement engine

This project models the core of the Ninja Sphere Arduino bridge: `arduino/arduino.go`. That file connects to the microcontroller over a serial port and runs a read loop. The loop decodes one JSON `Message` per line and launches every registered callback with every `DeviceData` record the line carries. It also hands an `ACK` list to the writer waiting for it. Writes are serialised by a lock and wait at most two seconds for their acknowledgement. When the port reports EOF, the bridge closes it and reopens it with a fresh session.

Concurrency is replaced by explicit events:

- A read-loop step consumes one read result: EOF, a read error, an undecodable line, or a decoded message.
- A write starts.
- A waiting write's timer fires.

The unbuffered `acks` channel becomes the session flag `waiting`. A non-blocking send on it succeeds exactly when a writer is blocked receiving. The lock becomes "a second write does not start while one is waiting". Launched goroutines become an ordered list of `Dispatch(callback, record)` values.

The project has three modules:

- `Protocol` (`protocol.dfy`) holds the values. These are `Message`, with each slot optional so that a missing slot (`nil`) differs from a present empty list, and `DeviceData`. It also holds the specification of the fan-out, `Dispatches`, with its lemmas, and the pure halves of `GetVersion` and `WriteDeviceData`.
- `Session` (`session.dfy`) holds the `Arduino` class. Its fields are the listener list, the `waiting` flag, a transcript of what was written to the port, and whether the port is open. Its methods are the read-loop step, the write and the timeout events, and `OnDeviceData`. End-to-end scenarios cover the version exchange, a late acknowledgement, serialised writes and an unsolicited acknowledgement.
- `Supervisor` (`supervisor.dfy`) holds `Connect`. It contains the reconnect loop and the read loop over a finite script of open attempts, each carrying the read results its port produces. The stopping point is specified by `Halt`.

## Model

| member | source | states |
|---|---|---|
| Protocol.DispatchesLength | arduino/arduino.go:87-94 | one decoded line launches exactly \|callbacks\| × (\|Device\| + \|ACK\|) invocations |
| Protocol.DispatchesSplit | arduino/arduino.go:87-94 | the order is callback-major: callback i's block of invocations lies between the blocks of the callbacks before it and those after it |
| Protocol.DispatchesAt | arduino/arduino.go:87-94 | position i·n + j of the invocation list holds callback i with record j, where n is the number of records on the line |
| Protocol.DispatchOrder | arduino/arduino.go:87-94 | for each callback, the Device records come first and the ACK records after them, each in list order |
| Protocol.DispatchesSnoc | arduino/arduino.go:87-94 | registering one more callback adds exactly its fan-out at the end of each line's invocations |
| Protocol.DispatchesMultiplicity | arduino/arduino.go:87-94 | callback c is launched with record d exactly (registrations of c) × (occurrences of d on the line) times |
| Protocol.FanoutMultiplicity | arduino/arduino.go:88-93 | one callback's inner loops launch it once per occurrence of each record, and launch no other callback |
| Protocol.ExactlyOnce | arduino/arduino.go:87-94 | a callback registered once gets a record that occurs once on the line exactly once |
| Protocol.VersionRequest | arduino/arduino.go:104-113 | the version request is the single record G="0", V=0, D=1003, DA="VNO" in the Device slot, and no other slot is set |
| Protocol.DeviceDataRequest | arduino/arduino.go:127-129 | `WriteDeviceData` sends exactly the given records in the Device slot, and no other slot is set |
| Protocol.VersionReply | arduino/arduino.go:115-119 | on a write error, the empty string and that error; otherwise no error and the string payload of the first acknowledged record |
| Protocol.WriteError | arduino/arduino.go:127-131 | `WriteDeviceData` reports an error exactly when the write failed, and that same error; the acknowledgement is discarded |
| Session.Arduino.constructor | arduino/arduino.go:53-57 | a new session has the initial callbacks, no writer waiting, nothing written, and an open port |
| Session.Arduino.OnDeviceData | arduino/arduino.go:122-124 | the callback is appended at the end; existing entries keep their order; nothing is removed or deduplicated |
| Session.Arduino.IssueDispatches | arduino/arduino.go:87-94 | the nested range loops launch exactly `Dispatches(listeners, msg)` |
| Session.Arduino.Step | arduino/arduino.go:60-95 | only EOF stops the loop. EOF, a read error and an undecodable line change nothing and launch nothing. A present ACK slot, even an empty one, completes a waiting write with that list, or is dropped when no write waits. A line without an ACK slot leaves a waiting write waiting. A decoded line launches `Dispatches`. Listeners, transcript and port never change |
| Session.Arduino.Write | arduino/arduino.go:134-150 | when no write is waiting, it starts waiting, and if the port is open it appends the encoded message and then one newline to the transcript (on a closed port the sends fail unnoticed and nothing is written); when a write is already waiting it does not start and nothing changes |
| Session.Arduino.Timeout | arduino/arduino.go:145-150 | a waiting write completes with the timeout error and the lock is released; with no write waiting it has no effect |
| Session.Arduino.GetVersion | arduino/arduino.go:103-113 | the sending half of `GetVersion`: a `Write` of `VersionRequest`, which reaches the transcript only on an open port |
| Session.Arduino.WriteDeviceData | arduino/arduino.go:126-129 | the sending half of `WriteDeviceData`: a `Write` of `DeviceDataRequest`, which reaches the transcript only on an open port |
| Session.Arduino.Close | arduino/arduino.go:97 | the port is closed |
| Session.Launch | arduino/arduino.go:88-93 | one range loop launches the callback once per record, in list order |
| Session.VersionExchange | arduino/arduino.go:103-119 | a version request answered by an ACK line returns the answer's string with no error, and only the request and its newline are written |
| Session.LateAckExchange | arduino/arduino.go:134-150 | an acknowledgement arriving after its write timed out completes the next write instead: acks are matched by arrival order only |
| Session.SerializedWrites | arduino/arduino.go:134-147 | while one write waits, a second does not start; once the first is answered, the second goes out, so writes never interleave on the wire |
| Session.UnsolicitedAck | arduino/arduino.go:79-94 | an ACK line with no write waiting completes nothing and leaves the session idle, yet its records still reach every listener, with exact counts |
| Supervisor.LoopDispatchesSnoc | arduino/arduino.go:60-96 | until EOF has been read, one more read result adds exactly its own invocations |
| Supervisor.PrefixStep | arduino/arduino.go:60-66 | before EOF, reading line j reaches EOF exactly when that line is EOF, and otherwise adds that line's invocations |
| Supervisor.NothingAfterEof | arduino/arduino.go:62-66 | nothing after the first EOF is read: the invocations equal those of the lines before it |
| Supervisor.ReachesEofPrefix | arduino/arduino.go:60-66 | once a prefix of the lines contains EOF, the rest of the lines launch nothing |
| Supervisor.ReadLoop | arduino/arduino.go:59-96 | the read loop stops exactly when the lines contain EOF, launches exactly `LoopDispatches` of the session's listeners, and never starts a wait nor changes listeners, transcript or port |
| Supervisor.RunSession | arduino/arduino.go:53-97 | a successful open builds a fresh session with the initial callbacks and an empty ack slot. It runs the read loop, which launches `LoopDispatches(callbacks, lines)`, and the port is closed exactly when EOF was reached |
| Supervisor.Halt | arduino/arduino.go:44-66 | the attempt at which the supervisor stops lies within the script |
| Supervisor.HaltMeaning | arduino/arduino.go:44-66 | every attempt before the halt opened and reached EOF; the attempt at the halt failed to open or never reached EOF |
| Supervisor.HaltAt | arduino/arduino.go:44-98 | at each attempt up to the halt, the supervisor either stops there (open failure or no EOF) or goes past it (EOF) |
| Supervisor.StopsAtOpenFailure | arduino/arduino.go:46-51 | a failed open ends the supervisor at that attempt, with no session built for it |
| Supervisor.StopsInSession | arduino/arduino.go:60-96 | a session whose read loop never reaches EOF is the last one |
| Supervisor.GoesPastSession | arduino/arduino.go:62-98 | a session that reaches EOF is closed and followed by another open |
| Supervisor.Performed | arduino/arduino.go:44-51 | the number of opens attempted is at most the length of the script |
| Supervisor.SessionsBuilt | arduino/arduino.go:46-57 | one session is built per successful open, so the count is the halt index or one more |
| Supervisor.Connect | arduino/arduino.go:42-101 | opens and sessions follow the script up to `Halt`. It returns an error exactly when an open failed, and that error is the open's. It returns the last session built, freshly allocated and owned by the caller (null if none): the previous, closed, session when a reopen fails, and an open port exactly when the script ended mid-session |
| Supervisor.WriteAfterFailedReopen | arduino/arduino.go:42-150 | after a session ended in EOF and the reopen failed, the caller gets the open error and the previous session; a write on it starts but puts nothing on the wire |

## Left out

- Serial I/O, the JSON codec and the `bufio` line reader are left out. A read result arrives already classified (`ReadResult`), and the transcript records `Encoded(message)` rather than bytes. Numbers in `DA` are modelled as reals without `float64` rounding. `DA` values other than a string, a number or null are not modelled.
- The one-second sleep after EOF and the two-second write timeout are left out; the timer firing is the explicit `Timeout` event. Logging (`fmt.Printf`, `log.Debugf`) is left out.
- Goroutines are left out. A launched callback is recorded as a `Dispatch` and never run, so listener behaviour and failures are not modelled.
- The `Incoming` channel is declared but never used by the source, so it is not modelled.
- A writer blocked on the mutex is modelled as a `Write` that does not start. The caller issues it again once the wait has ended. The Go scheduler's choice among several blocked writers is not modelled.
- The ack handoff succeeds only when a writer is already blocked in its `select`. A writer between taking the lock and reaching the `select` is treated as waiting, because each `Write` event is atomic here.
- The unsynchronised read of `onDeviceData` by the read loop, racing with `OnDeviceData`, is not modelled: events are sequential.
- Supervisor.Connect: the environment is a finite script, so `Connect` also returns when the script runs out. In the source it loops for ever while opens succeed.
- `Connect` returns only after a failed open, and each reopen allocates a new `Arduino`, so no handle to a live session reaches a caller. No write therefore runs concurrently with a read loop. `Write`, `GetVersion` and `WriteDeviceData` are modelled on a session of their own, and `WriteAfterFailedReopen` shows what a write on the handle `Connect` does return amounts to.
- Supervisor.Connect: the invocations launched by the read loops are stated per session by `RunSession`, not totalled over all sessions in `Connect`'s contract.
- Protocol.VersionReply: the source panics when the acknowledgement list is empty or its first payload is not a string; the precondition excludes those inputs.
- `main.go` and the rest of the repository are not part of this model.
