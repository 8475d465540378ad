/**
 * Runs of the step machines: the driver calls `ReceiveData` or `SendData`
 * once per cycle.  Between two calls the port's data-received event may
 * fire and set the flag; nothing in the driver itself ever sets it.  Each
 * call is described by the clock reading, the bytes then waiting in the
 * receive buffer, whether the event fired since the previous call, and
 * whether the port is open.  A run keeps the log of every
 * write to the port.
 */
module Runs {
  import opened Bytes
  import opened ProgressStats
  import opened Transaction

  datatype Call = Call(now: int32, rx: seq<byte>, arrived: bool, portOpen: bool)

  /** The record, the driver fields and the writes so far, oldest first. */
  datatype Driver = Driver(sts: PrgSts, link: Link, log: seq<seq<byte>>)

  /** The data-received event firing (or not) before a call. */
  function Arrive(link: Link, arrived: bool): Link
  {
    link.(dataReceived := link.dataReceived || arrived)
  }

  /**
   * One call of `ReceiveData` after the event had its chance to fire.  The
   * call must not throw: the port must be open (the driver asks it how many
   * bytes are waiting before anything else), the request must be long
   * enough for the write the current step makes, and at step 6 an answer
   * must be waiting.
   */
  function ReadNext(frame: seq<byte>, d: Driver, c: Call): Driver
    requires c.portOpen && ReadCallable(frame, d.sts.step, c.rx)
  {
    var o := ReadStep(frame, d.sts, Arrive(d.link, c.arrived), c.now, c.rx);
    Driver(o.sts, o.link, d.log + Entry(o.written))
  }

  /** One call of `SendData`; on a closed port it never throws. */
  function SendNext(frame: seq<byte>, d: Driver, c: Call): Driver
    requires c.portOpen ==> SendCallable(frame, d.sts.step, c.rx)
  {
    var o := SendStep(frame, d.sts, Arrive(d.link, c.arrived), c.now, c.rx, c.portOpen);
    Driver(o.sts, o.link, d.log + Entry(o.written))
  }

  /** No call of the read run throws, each at the step the calls before it reached. */
  predicate ReadRunnable(frame: seq<byte>, d: Driver, calls: seq<Call>)
    decreases |calls|
  {
    || calls == []
    || (&& calls[0].portOpen && ReadCallable(frame, d.sts.step, calls[0].rx)
        && ReadRunnable(frame, ReadNext(frame, d, calls[0]), calls[1..]))
  }

  predicate SendRunnable(frame: seq<byte>, d: Driver, calls: seq<Call>)
    decreases |calls|
  {
    || calls == []
    || (&& (calls[0].portOpen ==> SendCallable(frame, d.sts.step, calls[0].rx))
        && SendRunnable(frame, SendNext(frame, d, calls[0]), calls[1..]))
  }

  /** `ReceiveData` called once per entry of `calls`. */
  function ReadRun(frame: seq<byte>, d: Driver, calls: seq<Call>): Driver
    requires ReadRunnable(frame, d, calls)
    decreases |calls|
  {
    if calls == [] then d else ReadRun(frame, ReadNext(frame, d, calls[0]), calls[1..])
  }

  /** `SendData` called once per entry of `calls`. */
  function SendRun(frame: seq<byte>, d: Driver, calls: seq<Call>): Driver
    requires SendRunnable(frame, d, calls)
    decreases |calls|
  {
    if calls == [] then d else SendRun(frame, SendNext(frame, d, calls[0]), calls[1..])
  }

  /** The writes a read run may make: the opcode, the request body, the acknowledgement. */
  predicate ReadWrite(frame: seq<byte>, w: seq<byte>)
  {
    || (|frame| >= 1 && w == [frame[0]])
    || (|frame| >= 8 && w == frame[1..8])
    || (|frame| >= 9 && w == [frame[8]])
  }

  predicate SendWrite(frame: seq<byte>, w: seq<byte>)
  {
    || (|frame| >= 1 && w == [frame[0]])
    || (|frame| >= 12 && w == frame[1..12])
    || (|frame| >= 13 && w == [frame[12]])
  }

  // ---------------------------------------------------------------------
  // Invariants of whole runs

  /** A read run keeps the record in its life cycle and never touches its value. */
  lemma {:induction false} ReadRunInCycle(frame: seq<byte>, d: Driver, calls: seq<Call>)
    requires ReadRunnable(frame, d, calls) && InCycle(d.sts)
    ensures var e := ReadRun(frame, d, calls); InCycle(e.sts) && e.sts.value == d.sts.value
    decreases |calls|
  {
    if calls != [] {
      var c := calls[0];
      ReadStepInCycle(frame, d.sts, Arrive(d.link, c.arrived), c.now, c.rx);
      ReadRunInCycle(frame, ReadNext(frame, d, c), calls[1..]);
    }
  }

  /** A run never rewrites the log and only appends slices of the request to it. */
  lemma {:induction false} ReadRunLog(frame: seq<byte>, d: Driver, calls: seq<Call>)
    requires ReadRunnable(frame, d, calls)
    ensures var e := ReadRun(frame, d, calls);
      && |d.log| <= |e.log| && e.log[..|d.log|] == d.log
      && forall i :: |d.log| <= i < |e.log| ==> ReadWrite(frame, e.log[i])
    decreases |calls|
  {
    if calls != [] {
      var c := calls[0];
      ReadStepWrites(frame, d.sts, Arrive(d.link, c.arrived), c.now, c.rx);
      var d' := ReadNext(frame, d, c);
      ReadRunLog(frame, d', calls[1..]);
      var e := ReadRun(frame, d', calls[1..]);
      assert e.log[..|d.log|] == d'.log[..|d.log|] == d.log;
      forall i | |d.log| <= i < |e.log| ensures ReadWrite(frame, e.log[i]) {
        if i < |d'.log| {
          assert e.log[i] == d'.log[i];
        }
      }
    }
  }

  lemma {:induction false} SendRunInCycle(frame: seq<byte>, d: Driver, calls: seq<Call>)
    requires SendRunnable(frame, d, calls) && InCycle(d.sts)
    ensures var e := SendRun(frame, d, calls); InCycle(e.sts) && e.sts.value == d.sts.value
    decreases |calls|
  {
    if calls != [] {
      var c := calls[0];
      SendStepInCycle(frame, d.sts, Arrive(d.link, c.arrived), c.now, c.rx, c.portOpen);
      SendRunInCycle(frame, SendNext(frame, d, c), calls[1..]);
    }
  }

  /** A run never rewrites the log and only appends slices of the request to it. */
  lemma {:induction false} SendRunLog(frame: seq<byte>, d: Driver, calls: seq<Call>)
    requires SendRunnable(frame, d, calls)
    ensures var e := SendRun(frame, d, calls);
      && |d.log| <= |e.log| && e.log[..|d.log|] == d.log
      && forall i :: |d.log| <= i < |e.log| ==> SendWrite(frame, e.log[i])
    decreases |calls|
  {
    if calls != [] {
      var c := calls[0];
      SendStepWrites(frame, d.sts, Arrive(d.link, c.arrived), c.now, c.rx, c.portOpen);
      var d' := SendNext(frame, d, c);
      SendRunLog(frame, d', calls[1..]);
      var e := SendRun(frame, d', calls[1..]);
      assert e.log[..|d.log|] == d'.log[..|d.log|] == d.log;
      forall i | |d.log| <= i < |e.log| ensures SendWrite(frame, e.log[i]) {
        if i < |d'.log| {
          assert e.log[i] == d'.log[i];
        }
      }
    }
  }

  // ---------------------------------------------------------------------
  // A prompt exchange

  /**
   * A read transaction answered promptly: twelve calls from step 0 on an
   * open port, where the data-received event fires before each wait step's
   * call in time for its deadline, the answer drained at step 6 starts with
   * 'O' and the one drained at step 9 holds at least seven bytes.  The run reports success at step 0, has written
   * the opcode, the request body and two acknowledgements in that order,
   * and keeps the answer's status word.
   */
  lemma ReadRunSucceeds(frame: seq<byte>, d: Driver, calls: seq<Call>)
    requires |frame| >= 9 && d.sts.step == 0 && |calls| == 12
    requires forall i :: 0 <= i < |calls| ==> calls[i].portOpen
    requires calls[2].arrived && calls[2].now <= Deadline(calls[1].now)
    requires calls[5].arrived && calls[5].now <= Deadline(calls[4].now)
    requires calls[8].arrived && calls[8].now <= Deadline(calls[7].now)
    requires calls[6].rx != [] && calls[6].rx[0] == OkResponse
    requires |calls[9].rx| >= 7
    ensures ReadRunnable(frame, d, calls)
    ensures var e := ReadRun(frame, d, calls);
      && e.sts == d.sts.(state := FinishedOk, message := FinishedMessage)
      && e.log == d.log + [[frame[0]], frame[1..8], [frame[8]], [frame[8]]]
      && e.link == Link(Deadline(calls[7].now), StatusWord(calls[9].rx), calls[10].arrived || calls[11].arrived)
  {
    var p1, p2, p3, p4 := calls[..3], calls[3..6], calls[6..9], calls[9..];
    assert calls == p1 + p2 + p3 + p4;
    assert p1[1] == calls[1] && p1[2] == calls[2];
    assert p2[1] == calls[4] && p2[2] == calls[5];
    assert p3[0] == calls[6] && p3[1] == calls[7] && p3[2] == calls[8];
    assert p4[0] == calls[9] && p4[1] == calls[10] && p4[2] == calls[11];
    assert forall i :: 0 <= i < 3 ==> p1[i] == calls[i] && p2[i] == calls[i + 3];
    assert forall i :: 0 <= i < 3 ==> p3[i] == calls[i + 6] && p4[i] == calls[i + 9];
    ReadStarts(frame, d, p1);
    var d1 := ReadRun(frame, d, p1);
    ReadRequests(frame, d1, p2);
    var d2 := ReadRun(frame, d1, p2);
    ReadAcknowledges(frame, d2, p3);
    var d3 := ReadRun(frame, d2, p3);
    ReadFinishes(frame, d3, p4);
    ReadRunOfPhases(frame, d, p1, p2, p3, p4);
    AppendFour(d.log, [frame[0]], frame[1..8], [frame[8]], [frame[8]]);
  }

  /** Calls 0 to 2 of a prompt `ReceiveData`: start, send the opcode, see the answer arrive in time. */
  lemma ReadStarts(frame: seq<byte>, d: Driver, calls: seq<Call>)
    requires |frame| >= 1 && d.sts.step == 0 && |calls| == 3
    requires forall i :: 0 <= i < |calls| ==> calls[i].portOpen
    requires calls[2].arrived && calls[2].now <= Deadline(calls[1].now)
    ensures ReadRunnable(frame, d, calls)
    ensures ReadRun(frame, d, calls) ==
      Driver(d.sts.(state := Processing, step := 3), Link(Deadline(calls[1].now), d.link.statusWord, true),
             d.log + [[frame[0]]])
  {
    assert frame[0..1] == [frame[0]];
    var d1 := ReadNext(frame, d, calls[0]);
    var d2 := ReadNext(frame, d1, calls[1]);
    var d3 := ReadNext(frame, d2, calls[2]);
    ReadRunFrom(frame, d3, calls, 3);
    ReadRunFrom(frame, d2, calls, 2);
    ReadRunFrom(frame, d1, calls, 1);
    ReadRunFrom(frame, d, calls, 0);
    assert calls[0..] == calls;
  }

  /** Calls 3 to 5: drain the answer, send the request body, see the next answer arrive in time. */
  lemma ReadRequests(frame: seq<byte>, d: Driver, calls: seq<Call>)
    requires |frame| >= 8 && d.sts.step == 3 && |calls| == 3
    requires forall i :: 0 <= i < |calls| ==> calls[i].portOpen
    requires calls[2].arrived && calls[2].now <= Deadline(calls[1].now)
    ensures ReadRunnable(frame, d, calls)
    ensures ReadRun(frame, d, calls) ==
      Driver(d.sts.(step := 6), Link(Deadline(calls[1].now), d.link.statusWord, true), d.log + [frame[1..8]])
  {
    var d1 := ReadNext(frame, d, calls[0]);
    var d2 := ReadNext(frame, d1, calls[1]);
    var d3 := ReadNext(frame, d2, calls[2]);
    ReadRunFrom(frame, d3, calls, 3);
    ReadRunFrom(frame, d2, calls, 2);
    ReadRunFrom(frame, d1, calls, 1);
    ReadRunFrom(frame, d, calls, 0);
    assert calls[0..] == calls;
  }

  /** Calls 6 to 8: find an 'O' at the head of the answer, acknowledge it, see the next answer arrive in time. */
  lemma ReadAcknowledges(frame: seq<byte>, d: Driver, calls: seq<Call>)
    requires |frame| >= 9 && d.sts.step == 6 && |calls| == 3
    requires forall i :: 0 <= i < |calls| ==> calls[i].portOpen
    requires calls[0].rx != [] && calls[0].rx[0] == OkResponse
    requires calls[2].arrived && calls[2].now <= Deadline(calls[1].now)
    ensures ReadRunnable(frame, d, calls)
    ensures ReadRun(frame, d, calls) ==
      Driver(d.sts.(step := 9), Link(Deadline(calls[1].now), d.link.statusWord, true), d.log + [[frame[8]]])
  {
    assert frame[8..9] == [frame[8]];
    var d1 := ReadNext(frame, d, calls[0]);
    var d2 := ReadNext(frame, d1, calls[1]);
    var d3 := ReadNext(frame, d2, calls[2]);
    ReadRunFrom(frame, d3, calls, 3);
    ReadRunFrom(frame, d2, calls, 2);
    ReadRunFrom(frame, d1, calls, 1);
    ReadRunFrom(frame, d, calls, 0);
    assert calls[0..] == calls;
  }

  /** Calls 9 to 11: keep the status word of an answer of seven bytes or more, acknowledge again, report success. */
  lemma ReadFinishes(frame: seq<byte>, d: Driver, calls: seq<Call>)
    requires |frame| >= 9 && d.sts.step == 9 && |calls| == 3
    requires forall i :: 0 <= i < |calls| ==> calls[i].portOpen
    requires |calls[0].rx| >= 7
    ensures ReadRunnable(frame, d, calls)
    ensures ReadRun(frame, d, calls) ==
      Driver(d.sts.(step := 0, state := FinishedOk, message := FinishedMessage),
             Link(d.link.endTicks, StatusWord(calls[0].rx), calls[1].arrived || calls[2].arrived), d.log + [[frame[8]]])
  {
    assert frame[8..9] == [frame[8]];
    var d1 := ReadNext(frame, d, calls[0]);
    var d2 := ReadNext(frame, d1, calls[1]);
    var d3 := ReadNext(frame, d2, calls[2]);
    ReadRunFrom(frame, d3, calls, 3);
    ReadRunFrom(frame, d2, calls, 2);
    ReadRunFrom(frame, d1, calls, 1);
    ReadRunFrom(frame, d, calls, 0);
    assert calls[0..] == calls;
  }

  /** A run made of four phases, each started where the one before it ended. */
  lemma ReadRunOfPhases(frame: seq<byte>, d: Driver, p1: seq<Call>, p2: seq<Call>, p3: seq<Call>, p4: seq<Call>)
    requires ReadRunnable(frame, d, p1)
    requires ReadRunnable(frame, ReadRun(frame, d, p1), p2)
    requires ReadRunnable(frame, ReadRun(frame, ReadRun(frame, d, p1), p2), p3)
    requires ReadRunnable(frame, ReadRun(frame, ReadRun(frame, ReadRun(frame, d, p1), p2), p3), p4)
    ensures ReadRunnable(frame, d, p1 + p2 + p3 + p4)
    ensures ReadRun(frame, d, p1 + p2 + p3 + p4) ==
      ReadRun(frame, ReadRun(frame, ReadRun(frame, ReadRun(frame, d, p1), p2), p3), p4)
  {
    ReadRunAppend(frame, d, p1, p2);
    ReadRunAppend(frame, d, p1 + p2, p3);
    ReadRunAppend(frame, d, p1 + p2 + p3, p4);
  }

  /** A run of `a + b` is the run of `a` followed by the run of `b`. */
  lemma {:induction false} ReadRunAppend(frame: seq<byte>, d: Driver, a: seq<Call>, b: seq<Call>)
    requires ReadRunnable(frame, d, a) && ReadRunnable(frame, ReadRun(frame, d, a), b)
    ensures ReadRunnable(frame, d, a + b)
    ensures ReadRun(frame, d, a + b) == ReadRun(frame, ReadRun(frame, d, a), b)
    decreases |a|
  {
    if a == [] {
      assert a + b == b;
    } else {
      var d' := ReadNext(frame, d, a[0]);
      assert (a + b)[0] == a[0] && (a + b)[1..] == a[1..] + b;
      assert ReadRunnable(frame, d', a[1..]) && ReadRun(frame, d, a) == ReadRun(frame, d', a[1..]);
      ReadRunAppend(frame, d', a[1..], b);
    }
  }

  /** The same for a write transaction on an open port; its last answer is not read. */
  lemma SendRunSucceeds(frame: seq<byte>, d: Driver, calls: seq<Call>)
    requires |frame| >= 13 && d.sts.step == 0 && |calls| == 12
    requires forall i :: 0 <= i < |calls| ==> calls[i].portOpen
    requires calls[2].arrived && calls[2].now <= Deadline(calls[1].now)
    requires calls[5].arrived && calls[5].now <= Deadline(calls[4].now)
    requires calls[8].arrived && calls[8].now <= Deadline(calls[7].now)
    requires calls[6].rx != [] && calls[6].rx[0] == OkResponse
    ensures SendRunnable(frame, d, calls)
    ensures var e := SendRun(frame, d, calls);
      && e.sts == d.sts.(state := FinishedOk, message := FinishedMessage)
      && e.log == d.log + [[frame[0]], frame[1..12], [frame[12]], [frame[12]]]
      && e.link == Link(Deadline(calls[7].now), d.link.statusWord, calls[10].arrived || calls[11].arrived)
  {
    var p1, p2, p3, p4 := calls[..3], calls[3..6], calls[6..9], calls[9..];
    assert calls == p1 + p2 + p3 + p4;
    assert p1[1] == calls[1] && p1[2] == calls[2];
    assert p2[1] == calls[4] && p2[2] == calls[5];
    assert p3[0] == calls[6] && p3[1] == calls[7] && p3[2] == calls[8];
    assert p4[0] == calls[9] && p4[1] == calls[10] && p4[2] == calls[11];
    assert forall i :: 0 <= i < 3 ==> p1[i] == calls[i] && p2[i] == calls[i + 3];
    assert forall i :: 0 <= i < 3 ==> p3[i] == calls[i + 6] && p4[i] == calls[i + 9];
    SendStarts(frame, d, p1);
    var d1 := SendRun(frame, d, p1);
    SendRequests(frame, d1, p2);
    var d2 := SendRun(frame, d1, p2);
    SendAcknowledges(frame, d2, p3);
    var d3 := SendRun(frame, d2, p3);
    SendFinishes(frame, d3, p4);
    SendRunOfPhases(frame, d, p1, p2, p3, p4);
    AppendFour(d.log, [frame[0]], frame[1..12], [frame[12]], [frame[12]]);
  }

  /** Calls 0 to 2 of a prompt `SendData`: start, send the opcode, see the answer arrive in time. */
  lemma SendStarts(frame: seq<byte>, d: Driver, calls: seq<Call>)
    requires |frame| >= 1 && d.sts.step == 0 && |calls| == 3
    requires forall i :: 0 <= i < |calls| ==> calls[i].portOpen
    requires calls[2].arrived && calls[2].now <= Deadline(calls[1].now)
    ensures SendRunnable(frame, d, calls)
    ensures SendRun(frame, d, calls) ==
      Driver(d.sts.(state := Processing, step := 3), Link(Deadline(calls[1].now), d.link.statusWord, true),
             d.log + [[frame[0]]])
  {
    assert frame[0..1] == [frame[0]];
    var d1 := SendNext(frame, d, calls[0]);
    var d2 := SendNext(frame, d1, calls[1]);
    var d3 := SendNext(frame, d2, calls[2]);
    SendRunFrom(frame, d3, calls, 3);
    SendRunFrom(frame, d2, calls, 2);
    SendRunFrom(frame, d1, calls, 1);
    SendRunFrom(frame, d, calls, 0);
    assert calls[0..] == calls;
  }

  /** Calls 3 to 5: drain the answer, send the request body, see the next answer arrive in time. */
  lemma SendRequests(frame: seq<byte>, d: Driver, calls: seq<Call>)
    requires |frame| >= 12 && d.sts.step == 3 && |calls| == 3
    requires forall i :: 0 <= i < |calls| ==> calls[i].portOpen
    requires calls[2].arrived && calls[2].now <= Deadline(calls[1].now)
    ensures SendRunnable(frame, d, calls)
    ensures SendRun(frame, d, calls) ==
      Driver(d.sts.(step := 6), Link(Deadline(calls[1].now), d.link.statusWord, true), d.log + [frame[1..12]])
  {
    var d1 := SendNext(frame, d, calls[0]);
    var d2 := SendNext(frame, d1, calls[1]);
    var d3 := SendNext(frame, d2, calls[2]);
    SendRunFrom(frame, d3, calls, 3);
    SendRunFrom(frame, d2, calls, 2);
    SendRunFrom(frame, d1, calls, 1);
    SendRunFrom(frame, d, calls, 0);
    assert calls[0..] == calls;
  }

  /** Calls 6 to 8: find an 'O' at the head of the answer, acknowledge it, see the next answer arrive in time. */
  lemma SendAcknowledges(frame: seq<byte>, d: Driver, calls: seq<Call>)
    requires |frame| >= 13 && d.sts.step == 6 && |calls| == 3
    requires forall i :: 0 <= i < |calls| ==> calls[i].portOpen
    requires calls[0].rx != [] && calls[0].rx[0] == OkResponse
    requires calls[2].arrived && calls[2].now <= Deadline(calls[1].now)
    ensures SendRunnable(frame, d, calls)
    ensures SendRun(frame, d, calls) ==
      Driver(d.sts.(step := 9), Link(Deadline(calls[1].now), d.link.statusWord, true), d.log + [[frame[12]]])
  {
    assert frame[12..13] == [frame[12]];
    var d1 := SendNext(frame, d, calls[0]);
    var d2 := SendNext(frame, d1, calls[1]);
    var d3 := SendNext(frame, d2, calls[2]);
    SendRunFrom(frame, d3, calls, 3);
    SendRunFrom(frame, d2, calls, 2);
    SendRunFrom(frame, d1, calls, 1);
    SendRunFrom(frame, d, calls, 0);
    assert calls[0..] == calls;
  }

  /** Calls 9 to 11: drain the answer, acknowledge again, report success. */
  lemma SendFinishes(frame: seq<byte>, d: Driver, calls: seq<Call>)
    requires |frame| >= 13 && d.sts.step == 9 && |calls| == 3
    requires forall i :: 0 <= i < |calls| ==> calls[i].portOpen
    ensures SendRunnable(frame, d, calls)
    ensures SendRun(frame, d, calls) ==
      Driver(d.sts.(step := 0, state := FinishedOk, message := FinishedMessage),
             Link(d.link.endTicks, d.link.statusWord, calls[1].arrived || calls[2].arrived), d.log + [[frame[12]]])
  {
    assert frame[12..13] == [frame[12]];
    var d1 := SendNext(frame, d, calls[0]);
    var d2 := SendNext(frame, d1, calls[1]);
    var d3 := SendNext(frame, d2, calls[2]);
    SendRunFrom(frame, d3, calls, 3);
    SendRunFrom(frame, d2, calls, 2);
    SendRunFrom(frame, d1, calls, 1);
    SendRunFrom(frame, d, calls, 0);
    assert calls[0..] == calls;
  }

  /** A run made of four phases, each started where the one before it ended. */
  lemma SendRunOfPhases(frame: seq<byte>, d: Driver, p1: seq<Call>, p2: seq<Call>, p3: seq<Call>, p4: seq<Call>)
    requires SendRunnable(frame, d, p1)
    requires SendRunnable(frame, SendRun(frame, d, p1), p2)
    requires SendRunnable(frame, SendRun(frame, SendRun(frame, d, p1), p2), p3)
    requires SendRunnable(frame, SendRun(frame, SendRun(frame, SendRun(frame, d, p1), p2), p3), p4)
    ensures SendRunnable(frame, d, p1 + p2 + p3 + p4)
    ensures SendRun(frame, d, p1 + p2 + p3 + p4) ==
      SendRun(frame, SendRun(frame, SendRun(frame, SendRun(frame, d, p1), p2), p3), p4)
  {
    SendRunAppend(frame, d, p1, p2);
    SendRunAppend(frame, d, p1 + p2, p3);
    SendRunAppend(frame, d, p1 + p2 + p3, p4);
  }

  /** A run of `a + b` is the run of `a` followed by the run of `b`. */
  lemma {:induction false} SendRunAppend(frame: seq<byte>, d: Driver, a: seq<Call>, b: seq<Call>)
    requires SendRunnable(frame, d, a) && SendRunnable(frame, SendRun(frame, d, a), b)
    ensures SendRunnable(frame, d, a + b)
    ensures SendRun(frame, d, a + b) == SendRun(frame, SendRun(frame, d, a), b)
    decreases |a|
  {
    if a == [] {
      assert a + b == b;
    } else {
      var d' := SendNext(frame, d, a[0]);
      assert (a + b)[0] == a[0] && (a + b)[1..] == a[1..] + b;
      assert SendRunnable(frame, d', a[1..]) && SendRun(frame, d, a) == SendRun(frame, d', a[1..]);
      SendRunAppend(frame, d', a[1..], b);
    }
  }

  /** Four entries appended one at a time. */
  lemma AppendFour<T>(s: seq<T>, a: T, b: T, c: T, e: T)
    ensures s + [a] + [b] + [c] + [e] == s + [a, b, c, e]
  {}

  // ---------------------------------------------------------------------
  // Timing out

  /** A poll that sees neither data nor an expired deadline. */
  predicate QuietPoll(link: Link, c: Call)
  {
    !c.arrived && c.now <= link.endTicks
  }

  /**
   * While no data arrives and the deadline has not passed, a read run
   * waiting for an answer polls without changing anything, whatever the
   * receive buffer holds.
   */
  lemma {:induction false} ReadQuietWait(frame: seq<byte>, d: Driver, calls: seq<Call>)
    requires d.sts.step in {2, 5, 8} && !d.link.dataReceived
    requires forall i :: 0 <= i < |calls| ==> QuietPoll(d.link, calls[i]) && calls[i].portOpen
    ensures ReadRunnable(frame, d, calls) && ReadRun(frame, d, calls) == d
    decreases |calls|
  {
    if calls != [] {
      QuietPollStill(frame, d, calls[0]);
      assert forall i :: 0 <= i < |calls[1..]| ==> calls[1..][i] == calls[i + 1];
      ReadQuietWait(frame, d, calls[1..]);
    }
  }

  /** One quiet poll at a wait step changes nothing; the wait step does not read the buffer. */
  lemma QuietPollStill(frame: seq<byte>, d: Driver, c: Call)
    requires d.sts.step in {2, 5, 8} && !d.link.dataReceived && QuietPoll(d.link, c) && c.portOpen
    ensures ReadCallable(frame, d.sts.step, c.rx) && ReadNext(frame, d, c) == d
  {
    ReadWaitStep(frame, d.sts, d.link, c.now, c.rx);
  }

  /**
   * A read transaction whose answer never comes: after any number of quiet
   * polls, a poll past the deadline and one more call report a timeout at
   * step 0, having written nothing more.
   */
  lemma {:induction false} NeverAnsweredTimesOut(frame: seq<byte>, d: Driver, polls: seq<Call>, late: Call, last: Call)
    requires d.sts.step in {2, 5, 8} && !d.link.dataReceived
    requires forall i :: 0 <= i < |polls| ==> QuietPoll(d.link, polls[i]) && polls[i].portOpen
    requires late.now > d.link.endTicks && late.portOpen && last.portOpen
    ensures ReadRunnable(frame, d, polls + [late, last])
    ensures var e := ReadRun(frame, d, polls + [late, last]);
      && e.sts == d.sts.(step := 0, state := TimedOut, message := TimedOutMessage)
      && e.log == d.log
    decreases |polls|
  {
    var all := polls + [late, last];
    if polls == [] {
      assert all == [late, last];
      TimesOut(frame, d, late, last);
    } else {
      assert all[0] == polls[0] && all[1..] == polls[1..] + [late, last];
      QuietPollStill(frame, d, polls[0]);
      assert forall i :: 0 <= i < |polls[1..]| ==> polls[1..][i] == polls[i + 1];
      NeverAnsweredTimesOut(frame, d, polls[1..], late, last);
    }
  }

  /** A poll past the deadline, then the timeout report; neither reads the buffer. */
  lemma TimesOut(frame: seq<byte>, d: Driver, late: Call, last: Call)
    requires d.sts.step in {2, 5, 8} && late.now > d.link.endTicks && late.portOpen && last.portOpen
    ensures ReadRunnable(frame, d, [late, last])
    ensures var e := ReadRun(frame, d, [late, last]);
      && e.sts == d.sts.(step := 0, state := TimedOut, message := TimedOutMessage)
      && e.log == d.log
  {
    ReadWaitStep(frame, d.sts, Arrive(d.link, late.arrived), late.now, late.rx);
    var d1 := ReadNext(frame, d, late);
    ReadTerminalStep(frame, d1.sts, Arrive(d1.link, last.arrived), last.now, last.rx);
    var d2 := ReadNext(frame, d1, last);
    ReadRunFrom(frame, d2, [late, last], 2);
    ReadRunFrom(frame, d1, [late, last], 1);
    ReadRunFrom(frame, d, [late, last], 0);
    assert [late, last][0..] == [late, last];
  }

  /**
   * An answer at step 6 that does not start with 'O' fails the read
   * transaction: the call drains it, and the next call reports the
   * communication error at step 0.  Nothing is written, and the flag holds
   * only what arrived before the second call.
   */
  lemma Rejected(frame: seq<byte>, d: Driver, answer: Call, last: Call)
    requires d.sts.step == 6 && answer.portOpen && last.portOpen
    requires answer.rx != [] && answer.rx[0] != OkResponse
    ensures ReadRunnable(frame, d, [answer, last])
    ensures var e := ReadRun(frame, d, [answer, last]);
      && e.sts == d.sts.(step := 0, state := Failed, message := FailedMessage)
      && e.link == d.link.(dataReceived := last.arrived)
      && e.log == d.log
  {
    ReadDrainStep(frame, d.sts, Arrive(d.link, answer.arrived), answer.now, answer.rx);
    var d1 := ReadNext(frame, d, answer);
    ReadTerminalStep(frame, d1.sts, Arrive(d1.link, last.arrived), last.now, last.rx);
    var d2 := ReadNext(frame, d1, last);
    ReadRunFrom(frame, d2, [answer, last], 2);
    ReadRunFrom(frame, d1, [answer, last], 1);
    ReadRunFrom(frame, d, [answer, last], 0);
    assert [answer, last][0..] == [answer, last];
  }

  /** The same for a write transaction on an open port. */
  lemma SendRejected(frame: seq<byte>, d: Driver, answer: Call, last: Call)
    requires d.sts.step == 6 && answer.portOpen && last.portOpen
    requires answer.rx != [] && answer.rx[0] != OkResponse
    ensures SendRunnable(frame, d, [answer, last])
    ensures var e := SendRun(frame, d, [answer, last]);
      && e.sts == d.sts.(step := 0, state := Failed, message := FailedMessage)
      && e.link == d.link.(dataReceived := last.arrived)
      && e.log == d.log
  {
    SendDrainStep(frame, d.sts, Arrive(d.link, answer.arrived), answer.now, answer.rx);
    var d1 := SendNext(frame, d, answer);
    SendTerminalStep(frame, d1.sts, Arrive(d1.link, last.arrived), last.now, last.rx);
    var d2 := SendNext(frame, d1, last);
    SendRunFrom(frame, d2, [answer, last], 2);
    SendRunFrom(frame, d1, [answer, last], 1);
    SendRunFrom(frame, d, [answer, last], 0);
    assert [answer, last][0..] == [answer, last];
  }

  /**
   * The same for a write transaction: quiet polls change nothing, whatever
   * the receive buffer holds and whether the port is open or not.
   */
  lemma {:induction false} SendQuietWait(frame: seq<byte>, d: Driver, calls: seq<Call>)
    requires d.sts.step in {2, 5, 8} && !d.link.dataReceived
    requires forall i :: 0 <= i < |calls| ==> QuietPoll(d.link, calls[i])
    ensures SendRunnable(frame, d, calls) && SendRun(frame, d, calls) == d
    decreases |calls|
  {
    if calls != [] {
      SendQuietPollStill(frame, d, calls[0]);
      assert forall i :: 0 <= i < |calls[1..]| ==> calls[1..][i] == calls[i + 1];
      SendQuietWait(frame, d, calls[1..]);
    }
  }

  /** One quiet `SendData` poll at a wait step changes nothing; on a closed port no call changes anything. */
  lemma SendQuietPollStill(frame: seq<byte>, d: Driver, c: Call)
    requires d.sts.step in {2, 5, 8} && !d.link.dataReceived && QuietPoll(d.link, c)
    ensures (c.portOpen ==> SendCallable(frame, d.sts.step, c.rx)) && SendNext(frame, d, c) == d
  {
    if c.portOpen {
      SendWaitStep(frame, d.sts, d.link, c.now, c.rx);
    } else {
      SendInert(frame, d.sts, d.link, c.now, c.rx, false);
    }
  }

  /**
   * A write transaction whose answer never comes: after any number of quiet
   * polls, a poll past the deadline and one more call on the open port
   * report a timeout at step 0, having written nothing more.
   */
  lemma {:induction false} SendNeverAnsweredTimesOut(frame: seq<byte>, d: Driver, polls: seq<Call>, late: Call, last: Call)
    requires d.sts.step in {2, 5, 8} && !d.link.dataReceived
    requires forall i :: 0 <= i < |polls| ==> QuietPoll(d.link, polls[i])
    requires late.now > d.link.endTicks && late.portOpen && last.portOpen
    ensures SendRunnable(frame, d, polls + [late, last])
    ensures var e := SendRun(frame, d, polls + [late, last]);
      && e.sts == d.sts.(step := 0, state := TimedOut, message := TimedOutMessage)
      && e.log == d.log
    decreases |polls|
  {
    var all := polls + [late, last];
    if polls == [] {
      assert all == [late, last];
      SendTimesOut(frame, d, late, last);
    } else {
      assert all[0] == polls[0] && all[1..] == polls[1..] + [late, last];
      SendQuietPollStill(frame, d, polls[0]);
      assert forall i :: 0 <= i < |polls[1..]| ==> polls[1..][i] == polls[i + 1];
      SendNeverAnsweredTimesOut(frame, d, polls[1..], late, last);
    }
  }

  /** A `SendData` poll past the deadline, then the timeout report, on an open port. */
  lemma SendTimesOut(frame: seq<byte>, d: Driver, late: Call, last: Call)
    requires d.sts.step in {2, 5, 8} && late.now > d.link.endTicks && late.portOpen && last.portOpen
    ensures SendRunnable(frame, d, [late, last])
    ensures var e := SendRun(frame, d, [late, last]);
      && e.sts == d.sts.(step := 0, state := TimedOut, message := TimedOutMessage)
      && e.log == d.log
  {
    SendWaitStep(frame, d.sts, Arrive(d.link, late.arrived), late.now, late.rx);
    var d1 := SendNext(frame, d, late);
    SendTerminalStep(frame, d1.sts, Arrive(d1.link, last.arrived), last.now, last.rx);
    var d2 := SendNext(frame, d1, last);
    SendRunFrom(frame, d2, [late, last], 2);
    SendRunFrom(frame, d1, [late, last], 1);
    SendRunFrom(frame, d, [late, last], 0);
    assert [late, last][0..] == [late, last];
  }

  // ---------------------------------------------------------------------
  // Unfolding runs

  /**
   * The run of the calls from k on, built backwards: if call k can be made
   * and the calls after it run from its result `d'`, the calls from k on run
   * from `d` to the same end.  For k = |calls| the run is empty.
   */
  lemma ReadRunFrom(frame: seq<byte>, d: Driver, calls: seq<Call>, k: nat)
    requires k <= |calls|
    requires k < |calls| ==> calls[k].portOpen && ReadCallable(frame, d.sts.step, calls[k].rx)
    requires k < |calls| ==> ReadRunnable(frame, ReadNext(frame, d, calls[k]), calls[k + 1..])
    ensures ReadRunnable(frame, d, calls[k..])
    ensures ReadRun(frame, d, calls[k..]) ==
      if k == |calls| then d else ReadRun(frame, ReadNext(frame, d, calls[k]), calls[k + 1..])
  {
    if k < |calls| {
      assert calls[k..][0] == calls[k] && calls[k..][1..] == calls[k + 1..];
    }
  }

  lemma SendRunFrom(frame: seq<byte>, d: Driver, calls: seq<Call>, k: nat)
    requires k <= |calls|
    requires k < |calls| ==> (calls[k].portOpen ==> SendCallable(frame, d.sts.step, calls[k].rx))
    requires k < |calls| ==> SendRunnable(frame, SendNext(frame, d, calls[k]), calls[k + 1..])
    ensures SendRunnable(frame, d, calls[k..])
    ensures SendRun(frame, d, calls[k..]) ==
      if k == |calls| then d else SendRun(frame, SendNext(frame, d, calls[k]), calls[k + 1..])
  {
    if k < |calls| {
      assert calls[k..][0] == calls[k] && calls[k..][1..] == calls[k + 1..];
    }
  }
}
