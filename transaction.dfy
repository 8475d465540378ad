/**
 * The non-blocking transaction step machines `ReceiveData` (read request)
 * and `SendData` (write request).  The driver calls one of them again and
 * again; each call advances the progress record by at most one step:
 *
 *   0 start, 1 send opcode, 2 wait, 3 drain, 4 send request, 5 wait,
 *   6 check 'O', 7 send 'O', 8 wait, 9 read answer, 10 send 'O',
 *   20 finished, 30 communication error, 40 timed out.
 *
 * Here one call is a function of the record, the driver fields it touches
 * (`Link`), the clock reading, the bytes waiting in the receive buffer and,
 * for `SendData`, whether the port is open.  Its result also names the
 * bytes the call writes to the port.  The `Epos` module implements the
 * calls as methods on the driver object and is proved to follow these
 * functions.
 */
module Transaction {
  import opened Bytes
  import opened ProgressStats

  /** Milliseconds the driver waits for an answer. */
  const Timeout := 1000
  /** ASCII 'O': the controller accepted the request. */
  const OkResponse: byte := 79
  /** The bits of the status word the driver keeps. */
  const StatusMask: bv16 := 0x417F

  const FinishedMessage := "Operation Finished Sucessfully"
  const FailedMessage := "Communication Error Received"
  const TimedOutMessage := "Operation Timed Out"

  /** The driver fields the step machines read and write. */
  datatype Link = Link(endTicks: int32, statusWord: bv16, dataReceived: bool)

  /** What one call leaves behind: the record it returns, the driver fields, the bytes it writes. */
  datatype Outcome = Outcome(sts: PrgSts, link: Link, written: seq<byte>)

  /** A call's write as an entry of the port's write log: none when it writes nothing. */
  function Entry(written: seq<byte>): seq<seq<byte>>
  {
    if written == [] then [] else [written]
  }

  /** The step numbers either machine ever holds. */
  predicate KnownStep(step: int)
  {
    0 <= step <= 10 || step == 20 || step == 30 || step == 40
  }

  /** A record in the life cycle: a known step, and Processing whenever the step is not 0. */
  predicate InCycle(sts: PrgSts)
  {
    KnownStep(sts.step) && (sts.step != 0 ==> sts.state == Processing)
  }

  /**
   * `Environment.TickCount + 1000`, an unchecked `int` addition: within a
   * second of the largest tick count the deadline wraps round to a large
   * negative number, before the clock reading it was armed at.
   */
  function Deadline(now: int32): (d: int32)
    ensures now < 0x8000_0000 - Timeout ==> d == now + Timeout
    ensures now >= 0x8000_0000 - Timeout ==> d == now + Timeout - 0x1_0000_0000 && d < now
  {
    Wrap32(now + Timeout)
  }

  /**
   * A wait step: go on to `next` when the data-received flag is set, then,
   * checked second and so overriding it, to 40 once the deadline has passed.
   */
  function Wait(sts: PrgSts, link: Link, now: int32, next: int32): PrgSts
  {
    var s := if link.dataReceived then next else sts.step;
    sts.(step := if now > link.endTicks then 40 else s)
  }

  /** A terminal step: report the outcome and rewind to step 0. */
  function Finish(sts: PrgSts, state: Status, message: string): PrgSts
  {
    sts.(step := 0, state := state, message := message)
  }

  /** `(ushort)((ushort)(b6 * 256) + (ushort)b5 & 0x417F)`: `+` binds tighter than `&`. */
  function StatusWord(rx: seq<byte>): (w: bv16)
    requires |rx| >= 7
    ensures w & !StatusMask == 0
    ensures LowByte(w) == rx[5] & 0x7F && HighByte(w) == rx[6] & 0x41
  {
    ((rx[6] as bv16) * 256 + rx[5] as bv16) & StatusMask
  }

  /**
   * What `ReceiveData` needs so that no call throws: the writes at steps
   * 1, 4, 7 and 10 stay inside the request, and step 6 reads the first
   * byte of the answer outside any handler.
   */
  predicate ReadCallable(frame: seq<byte>, step: int, rx: seq<byte>)
  {
    && (step == 1 ==> |frame| >= 1)
    && (step == 4 ==> |frame| >= 8)
    && (step == 7 || step == 10 ==> |frame| >= 9)
    && (step == 6 ==> |rx| > 0)
  }

  /** What `SendData` needs so that no call on an open port throws. */
  predicate SendCallable(frame: seq<byte>, step: int, rx: seq<byte>)
  {
    && (step == 1 ==> |frame| >= 1)
    && (step == 4 ==> |frame| >= 12)
    && (step == 7 || step == 10 ==> |frame| >= 13)
    && (step == 6 ==> |rx| > 0)
  }

  /** One call of `ReceiveData(frame, sts)`. */
  function ReadStep(frame: seq<byte>, sts: PrgSts, link: Link, now: int32, rx: seq<byte>): Outcome
    requires ReadCallable(frame, sts.step, rx)
  {
    match sts.step
    case 0 => Outcome(sts.(state := Processing, step := 1), link, [])
    case 1 => Outcome(sts.(step := 2), link.(endTicks := Deadline(now)), frame[0..1])
    case 2 => Outcome(Wait(sts, link, now, 3), link, [])
    case 3 => Outcome(sts.(step := 4), link.(dataReceived := false), [])
    case 4 => Outcome(sts.(step := 5), link.(endTicks := Deadline(now)), frame[1..8])
    case 5 => Outcome(Wait(sts, link, now, 6), link, [])
    case 6 =>
      Outcome(sts.(step := if rx[0] == OkResponse then 7 else 30), link.(dataReceived := false), [])
    case 7 => Outcome(sts.(step := 8), link.(endTicks := Deadline(now)), frame[8..9])
    case 8 => Outcome(Wait(sts, link, now, 9), link, [])
    case 9 =>
      if |rx| < 7 then Outcome(sts.(step := 30), link, [])
      else Outcome(sts.(step := 10), link.(statusWord := StatusWord(rx), dataReceived := false), [])
    case 10 => Outcome(sts.(step := 20), link, frame[8..9])
    case 20 => Outcome(Finish(sts, FinishedOk, FinishedMessage), link, [])
    case 30 => Outcome(Finish(sts, Failed, FailedMessage), link, [])
    case 40 => Outcome(Finish(sts, TimedOut, TimedOutMessage), link, [])
    case _ => Outcome(sts, link, [])
  }

  /** One call of `SendData(frame, sts)`. */
  function SendStep(frame: seq<byte>, sts: PrgSts, link: Link, now: int32, rx: seq<byte>, portOpen: bool): Outcome
    requires portOpen ==> SendCallable(frame, sts.step, rx)
  {
    if !portOpen then Outcome(sts, link, [])
    else match sts.step
    case 0 => Outcome(sts.(step := 1, state := Processing), link, [])
    case 1 => Outcome(sts.(step := 2), link.(endTicks := Deadline(now)), frame[0..1])
    case 2 => Outcome(Wait(sts, link, now, 3), link, [])
    case 3 => Outcome(sts.(step := 4), link.(dataReceived := false), [])
    case 4 => Outcome(sts.(step := 5), link.(endTicks := Deadline(now)), frame[1..12])
    case 5 => Outcome(Wait(sts, link, now, 6), link, [])
    case 6 =>
      Outcome(sts.(step := if rx[0] == OkResponse then 7 else 30), link.(dataReceived := false), [])
    case 7 => Outcome(sts.(step := 8), link.(endTicks := Deadline(now)), frame[12..13])
    case 8 => Outcome(Wait(sts, link, now, 9), link, [])
    case 9 => Outcome(sts.(step := 10), link.(dataReceived := false), [])
    case 10 => Outcome(sts.(step := 20), link, frame[12..13])
    case 20 => Outcome(Finish(sts, FinishedOk, FinishedMessage), link, [])
    case 30 => Outcome(Finish(sts, Failed, FailedMessage), link, [])
    case 40 => Outcome(Finish(sts, TimedOut, TimedOutMessage), link, [])
    case _ => Outcome(sts, link, [])
  }

  // ---------------------------------------------------------------------
  // One call

  /** Each call keeps the record in its life cycle and never touches its value. */
  lemma ReadStepInCycle(frame: seq<byte>, sts: PrgSts, link: Link, now: int32, rx: seq<byte>)
    requires InCycle(sts) && ReadCallable(frame, sts.step, rx)
    ensures var o := ReadStep(frame, sts, link, now, rx);
      InCycle(o.sts) && o.sts.value == sts.value
      && (o.sts.message != sts.message ==> sts.step in {20, 30, 40})
  {}

  lemma SendStepInCycle(frame: seq<byte>, sts: PrgSts, link: Link, now: int32, rx: seq<byte>, portOpen: bool)
    requires InCycle(sts) && (portOpen ==> SendCallable(frame, sts.step, rx))
    ensures var o := SendStep(frame, sts, link, now, rx, portOpen);
      InCycle(o.sts) && o.sts.value == sts.value
      && (o.sts.message != sts.message ==> sts.step in {20, 30, 40})
  {}

  /** A read transaction writes the opcode, bytes 1 to 7, then byte 8 twice. */
  lemma ReadStepWrites(frame: seq<byte>, sts: PrgSts, link: Link, now: int32, rx: seq<byte>)
    requires ReadCallable(frame, sts.step, rx)
    ensures ReadStep(frame, sts, link, now, rx).written ==
      if sts.step == 1 then [frame[0]]
      else if sts.step == 4 then frame[1..8]
      else if sts.step == 7 || sts.step == 10 then [frame[8]]
      else []
  {}

  /** A write transaction writes the opcode, bytes 1 to 11, then byte 12 twice. */
  lemma SendStepWrites(frame: seq<byte>, sts: PrgSts, link: Link, now: int32, rx: seq<byte>, portOpen: bool)
    requires portOpen ==> SendCallable(frame, sts.step, rx)
    ensures SendStep(frame, sts, link, now, rx, portOpen).written ==
      if !portOpen then []
      else if sts.step == 1 then [frame[0]]
      else if sts.step == 4 then frame[1..12]
      else if sts.step == 7 || sts.step == 10 then [frame[12]]
      else []
  {}

  /** Steps 1, 4 and 7 arm the deadline a second after the clock reading; no other step changes it. */
  lemma ReadStepArmsDeadline(frame: seq<byte>, sts: PrgSts, link: Link, now: int32, rx: seq<byte>)
    requires ReadCallable(frame, sts.step, rx)
    ensures var o := ReadStep(frame, sts, link, now, rx);
      o.link.endTicks == if sts.step in {1, 4, 7} then Deadline(now) else link.endTicks
  {}

  lemma SendStepArmsDeadline(frame: seq<byte>, sts: PrgSts, link: Link, now: int32, rx: seq<byte>, portOpen: bool)
    requires portOpen ==> SendCallable(frame, sts.step, rx)
    ensures var o := SendStep(frame, sts, link, now, rx, portOpen);
      o.link.endTicks == if portOpen && sts.step in {1, 4, 7} then Deadline(now) else link.endTicks
  {}

  /**
   * Steps 0, 1, 4, 7 and 10 always go forward: step 0 starts the
   * transaction, steps 1, 4 and 7 write and arm the deadline, step 10 sends
   * the last acknowledgement and goes to 20.  Nothing else in the record or
   * the driver fields changes.
   */
  lemma ReadStepAdvances(frame: seq<byte>, sts: PrgSts, link: Link, now: int32, rx: seq<byte>)
    requires sts.step in {0, 1, 4, 7, 10} && ReadCallable(frame, sts.step, rx)
    ensures var o := ReadStep(frame, sts, link, now, rx);
      && o.sts == sts.(step := if sts.step == 10 then 20 else sts.step + 1,
                       state := if sts.step == 0 then Processing else sts.state)
      && o.link == if sts.step in {1, 4, 7} then link.(endTicks := Deadline(now)) else link
  {}

  lemma SendStepAdvances(frame: seq<byte>, sts: PrgSts, link: Link, now: int32, rx: seq<byte>)
    requires sts.step in {0, 1, 4, 7, 10} && SendCallable(frame, sts.step, rx)
    ensures var o := SendStep(frame, sts, link, now, rx, true);
      && o.sts == sts.(step := if sts.step == 10 then 20 else sts.step + 1,
                       state := if sts.step == 0 then Processing else sts.state)
      && o.link == if sts.step in {1, 4, 7} then link.(endTicks := Deadline(now)) else link
  {}

  /**
   * A wait step moves on one step when data has arrived, to 40 exactly when
   * the deadline has passed (even if data has arrived too), and otherwise
   * stays; it changes nothing else.
   */
  lemma ReadWaitStep(frame: seq<byte>, sts: PrgSts, link: Link, now: int32, rx: seq<byte>)
    requires sts.step in {2, 5, 8}
    ensures var o := ReadStep(frame, sts, link, now, rx);
      && o.link == link && o.written == [] && o.sts == sts.(step := o.sts.step)
      && (o.sts.step == 40 <==> now > link.endTicks)
      && (now <= link.endTicks ==> o.sts.step == if link.dataReceived then sts.step + 1 else sts.step)
  {}

  lemma SendWaitStep(frame: seq<byte>, sts: PrgSts, link: Link, now: int32, rx: seq<byte>)
    requires sts.step in {2, 5, 8}
    ensures var o := SendStep(frame, sts, link, now, rx, true);
      && o.link == link && o.written == [] && o.sts == sts.(step := o.sts.step)
      && (o.sts.step == 40 <==> now > link.endTicks)
      && (now <= link.endTicks ==> o.sts.step == if link.dataReceived then sts.step + 1 else sts.step)
  {}

  /** Steps 3 and 6 drain the answer and clear the flag; step 6 goes on only on an 'O'. */
  lemma ReadDrainStep(frame: seq<byte>, sts: PrgSts, link: Link, now: int32, rx: seq<byte>)
    requires sts.step in {3, 6} && ReadCallable(frame, sts.step, rx)
    ensures var o := ReadStep(frame, sts, link, now, rx);
      && o.link == link.(dataReceived := false) && o.written == []
      && o.sts == sts.(step := o.sts.step)
      && (sts.step == 3 ==> o.sts.step == 4)
      && (sts.step == 6 ==> (o.sts.step == 7 <==> rx[0] == 79) && (o.sts.step == 30 <==> rx[0] != 79))
  {}

  lemma SendDrainStep(frame: seq<byte>, sts: PrgSts, link: Link, now: int32, rx: seq<byte>)
    requires sts.step in {3, 6, 9} && SendCallable(frame, sts.step, rx)
    ensures var o := SendStep(frame, sts, link, now, rx, true);
      && o.link == link.(dataReceived := false) && o.written == []
      && o.sts == sts.(step := o.sts.step)
      && (sts.step == 3 ==> o.sts.step == 4)
      && (sts.step == 6 ==> (o.sts.step == 7 <==> rx[0] == 79) && (o.sts.step == 30 <==> rx[0] != 79))
      && (sts.step == 9 ==> o.sts.step == 10)
  {}

  /**
   * Read step 9 keeps the masked status word of an answer of at least seven
   * bytes and clears the flag; a shorter answer fails the transaction and
   * leaves every driver field, the flag included, as it was.
   */
  lemma ReadStatusStep(frame: seq<byte>, sts: PrgSts, link: Link, now: int32, rx: seq<byte>)
    requires sts.step == 9
    ensures var o := ReadStep(frame, sts, link, now, rx);
      && o.written == [] && o.sts == sts.(step := o.sts.step)
      && (|rx| >= 7 ==> o.sts.step == 10 && o.link == Link(link.endTicks, StatusWord(rx), false))
      && (|rx| < 7 ==> o.sts.step == 30 && o.link == link)
  {}

  /** Steps 20, 30 and 40 report their outcome and rewind the record to step 0. */
  lemma ReadTerminalStep(frame: seq<byte>, sts: PrgSts, link: Link, now: int32, rx: seq<byte>)
    requires sts.step in {20, 30, 40}
    ensures var o := ReadStep(frame, sts, link, now, rx);
      && o.link == link && o.written == [] && o.sts.step == 0
      && o.sts.value == sts.value
      && (sts.step == 20 ==> o.sts.state == FinishedOk && o.sts.message == FinishedMessage)
      && (sts.step == 30 ==> o.sts.state == Failed && o.sts.message == FailedMessage)
      && (sts.step == 40 ==> o.sts.state == TimedOut && o.sts.message == TimedOutMessage)
  {}

  lemma SendTerminalStep(frame: seq<byte>, sts: PrgSts, link: Link, now: int32, rx: seq<byte>)
    requires sts.step in {20, 30, 40}
    ensures var o := SendStep(frame, sts, link, now, rx, true);
      && o.link == link && o.written == [] && o.sts.step == 0
      && o.sts.value == sts.value
      && (sts.step == 20 ==> o.sts.state == FinishedOk && o.sts.message == FinishedMessage)
      && (sts.step == 30 ==> o.sts.state == Failed && o.sts.message == FailedMessage)
      && (sts.step == 40 ==> o.sts.state == TimedOut && o.sts.message == TimedOutMessage)
  {}

  /** A step number outside the table leaves everything as it was; so does a closed port for `SendData`. */
  lemma ReadUnknownStep(frame: seq<byte>, sts: PrgSts, link: Link, now: int32, rx: seq<byte>)
    requires !KnownStep(sts.step)
    ensures ReadStep(frame, sts, link, now, rx) == Outcome(sts, link, [])
  {}

  lemma SendInert(frame: seq<byte>, sts: PrgSts, link: Link, now: int32, rx: seq<byte>, portOpen: bool)
    requires !portOpen || !KnownStep(sts.step)
    ensures SendStep(frame, sts, link, now, rx, portOpen) == Outcome(sts, link, [])
  {}

  /**
   * Armed within a second of the largest tick count, the deadline has
   * already passed: the next wait step times out at any later reading.
   */
  lemma ArmedNearWrapTimesOut(frame: seq<byte>, sts: PrgSts, link: Link, now: int32, later: int32, rx: seq<byte>)
    requires sts.step in {1, 4, 7} && ReadCallable(frame, sts.step, rx)
    requires now >= 0x8000_0000 - Timeout && later >= now
    ensures var o := ReadStep(frame, sts, link, now, rx);
      ReadStep(frame, o.sts, o.link, later, rx).sts.step == 40
  {}
}
