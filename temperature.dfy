/** The temperature acquisition state machine (temperature_state_machine_bt):
    one Si7021 reading per cycle, powered on, commanded and read over I2C, and
    published as the GATT temperature measurement attribute. */
module Temperature {
  import opened Ble
  import Events

  const SI7021_POR_TIME_US: nat := 80000
  const SI7021_14B_CONVERSION_TIME_US: nat := 10800

  /** Length of htm_temperature_buffer: one flags byte and four measurement bytes. */
  const HTM_BUFFER_LENGTH: nat := 5

  datatype State =
    | StateIdle
    | WaitForSi7021POR
    | WaitForI2CWriteTransfer
    | WaitForSi7021Conversion
    | WaitForI2CReadTransfer

  /** The four bytes written after the flags byte: the Celsius conversion of the
      raw code, its IEEE-11073 float encoding and its bit-stream layout, which
      are all outside this model. */
  datatype Measurement = Measurement(b1: bv8, b2: bv8, b3: bv8, b4: bv8)

  /** The one extsignals bit each state waits for: 0x1 is the timer underflow,
      0x2 the timer compare match and 0x4 the I2C transfer complete bit
      (Events.KindMask). */
  function TriggerMask(s: State): bv32
  {
    match s
    case StateIdle => 0x1
    case WaitForSi7021POR => 0x2
    case WaitForI2CWriteTransfer => 0x4
    case WaitForSi7021Conversion => 0x2
    case WaitForI2CReadTransfer => 0x4
  }

  /** The state each state moves to when its trigger arrives. */
  function Successor(s: State): State
  {
    match s
    case StateIdle => WaitForSi7021POR
    case WaitForSi7021POR => WaitForI2CWriteTransfer
    case WaitForI2CWriteTransfer => WaitForSi7021Conversion
    case WaitForSi7021Conversion => WaitForI2CReadTransfer
    case WaitForI2CReadTransfer => StateIdle
  }

  /** The machine looks at an event only when it is an external signal, the
      connection is open and the client has turned indications on. */
  predicate Gate(evt: BtEvent, connectionOpen: bool, okToSend: bool)
  {
    evt.SystemExternalSignal? && connectionOpen && okToSend
  }

  /** The signal bits carry state s's trigger bit, tested as each case of the
      switch tests it. */
  predicate Triggered(s: State, bits: bv32)
  {
    match s
    case StateIdle => bits & 0x1 != 0
    case WaitForSi7021POR => bits & 0x2 != 0
    case WaitForI2CWriteTransfer => bits & 0x4 != 0
    case WaitForSi7021Conversion => bits & 0x2 != 0
    case WaitForI2CReadTransfer => bits & 0x4 != 0
  }

  /** Triggered is the test of the state's own mask. */
  lemma TriggeredTestsMask(s: State, bits: bv32)
    ensures Triggered(s, bits) <==> bits & TriggerMask(s) != 0
  {
    match s
    case StateIdle =>
    case WaitForSi7021POR =>
    case WaitForI2CWriteTransfer =>
    case WaitForSi7021Conversion =>
    case WaitForI2CReadTransfer =>
  }

  /** The gate holds and the signal carries the current state's trigger bit. */
  predicate Fires(s: State, evt: BtEvent, connectionOpen: bool, okToSend: bool)
  {
    Gate(evt, connectionOpen, okToSend) && Triggered(s, evt.extsignals)
  }

  /** The state after one call. */
  function Next(s: State, evt: BtEvent, connectionOpen: bool, okToSend: bool): State
  {
    if Fires(s, evt, connectionOpen, okToSend) then Successor(s) else s
  }

  /** The read-complete transition: the one that publishes a reading. */
  predicate ReadCompletes(s: State, evt: BtEvent, connectionOpen: bool, okToSend: bool)
  {
    s == WaitForI2CReadTransfer && Fires(s, evt, connectionOpen, okToSend)
  }

  /** The guard on sending an indication at once, exactly as the code writes it:
      not (nothing in flight, or a non-empty queue). */
  function IndicationGuard(inFlight: bool, queueDepth: nat): (send: bool)
    ensures send <==> inFlight && queueDepth == 0
  {
    !(inFlight == false || queueDepth > 0)
  }

  /** htm_temperature_buffer after the read-complete transition. */
  function HtmBuffer(flags: bv8, m: Measurement): (buf: seq<bv8>)
    ensures |buf| == HTM_BUFFER_LENGTH && buf[0] == flags
    ensures buf[1..] == [m.b1, m.b2, m.b3, m.b4]
  {
    [flags, m.b1, m.b2, m.b3, m.b4]
  }

  /** The calls the transition out of state s makes. */
  function TransitionActions(s: State, connection: Handle, buf: seq<bv8>, send: bool): seq<Action>
  {
    match s
    case StateIdle => [Si7021TurnOn, TimerWaitUs(SI7021_POR_TIME_US)]
    case WaitForSi7021POR => [I2CWriteMeasureTempNoHold]
    case WaitForI2CWriteTransfer => [DisableI2CIrq, TimerWaitUs(SI7021_14B_CONVERSION_TIME_US)]
    case WaitForSi7021Conversion => [I2CReadData]
    case WaitForI2CReadTransfer => ReadCompleteActions(connection, buf, true, send)
  }

  /** The calls of the read-complete work: stop the sensor, fetch the data,
      write the attribute, and then, when the connection is still open with
      indications on, send or enqueue the buffer and show the reading, or
      else clear the reading's row. */
  function ReadCompleteActions(connection: Handle, buf: seq<bv8>, stillOpen: bool, send: bool): seq<Action>
  {
    FetchActions(buf) + PublishActions(connection, buf, stillOpen, send)
  }

  /** Stop the sensor, fetch its data and write the attribute. */
  function FetchActions(buf: seq<bv8>): seq<Action>
  {
    [DisableI2CIrq, Si7021TurnOff, I2CGetData,
     WriteAttributeValue(TemperatureMeasurement, 0, HTM_BUFFER_LENGTH, buf)]
  }

  /** Send or enqueue the buffer and show the reading, or clear its row. */
  function PublishActions(connection: Handle, buf: seq<bv8>, stillOpen: bool, send: bool): seq<Action>
  {
    if stillOpen
    then (if send then [SendIndication(connection, TemperatureMeasurement, HTM_BUFFER_LENGTH, buf)]
          else [WriteQueue(TemperatureMeasurement, HTM_BUFFER_LENGTH, buf)])
         + [DisplaySet(RowTempValue)]
    else [DisplayClear(RowTempValue)]
  }

  /** The calls one call of the machine makes: its transition, if any, then the
      display clear when the connection is closed or indications are off. */
  function StepActions(s: State, evt: BtEvent, connectionOpen: bool, okToSend: bool,
                       connection: Handle, flags: bv8, m: Measurement,
                       inFlight: bool, queueDepth: nat): seq<Action>
  {
    (if Fires(s, evt, connectionOpen, okToSend)
     then TransitionActions(s, connection, HtmBuffer(flags, m), IndicationGuard(inFlight, queueDepth))
     else [])
    + (if !connectionOpen || !okToSend then [DisplayClear(RowTempValue)] else [])
  }

  /** The state after a sequence of calls, with the connection flags fixed
      (this machine never changes them). */
  function Run(s: State, evts: seq<BtEvent>, connectionOpen: bool, okToSend: bool): State
    decreases |evts|
  {
    if evts == [] then s
    else Run(Next(s, evts[0], connectionOpen, okToSend), evts[1..], connectionOpen, okToSend)
  }

  /** The states passed through, one per call. */
  function Trace(s: State, evts: seq<BtEvent>, connectionOpen: bool, okToSend: bool): (t: seq<State>)
    ensures |t| == |evts|
    decreases |evts|
  {
    if evts == [] then []
    else
      var s' := Next(s, evts[0], connectionOpen, okToSend);
      [s'] + Trace(s', evts[1..], connectionOpen, okToSend)
  }

  /** How many calls of a sequence move the machine. */
  function Firings(s: State, evts: seq<BtEvent>, connectionOpen: bool, okToSend: bool): nat
    decreases |evts|
  {
    if evts == [] then 0
    else
      (if Fires(s, evts[0], connectionOpen, okToSend) then 1 else 0)
      + Firings(Next(s, evts[0], connectionOpen, okToSend), evts[1..], connectionOpen, okToSend)
  }

  /** How many calls of a sequence publish a reading. */
  function Readings(s: State, evts: seq<BtEvent>, connectionOpen: bool, okToSend: bool): nat
    decreases |evts|
  {
    if evts == [] then 0
    else
      (if ReadCompletes(s, evts[0], connectionOpen, okToSend) then 1 else 0)
      + Readings(Next(s, evts[0], connectionOpen, okToSend), evts[1..], connectionOpen, okToSend)
  }

  /** The position of a state in the five-state cycle. */
  function Phase(s: State): (n: nat)
    ensures n < 5
    ensures n == 0 <==> s == StateIdle
  {
    match s
    case StateIdle => 0
    case WaitForSi7021POR => 1
    case WaitForI2CWriteTransfer => 2
    case WaitForSi7021Conversion => 3
    case WaitForI2CReadTransfer => 4
  }

  /** One call moves the machine at most one state on, and only when it fires. */
  lemma NextIsAtMostOneStep(s: State, evt: BtEvent, connectionOpen: bool, okToSend: bool)
    ensures Next(s, evt, connectionOpen, okToSend) != s <==> Fires(s, evt, connectionOpen, okToSend)
    ensures Next(s, evt, connectionOpen, okToSend) == s
            || Next(s, evt, connectionOpen, okToSend) == Successor(s)
    ensures Phase(Successor(s)) == (Phase(s) + 1) % 5
  {
  }

  /** A signal without the current state's trigger bit leaves the state alone. */
  lemma OutOfOrderSignalIgnored(s: State, bits: bv32, connectionOpen: bool, okToSend: bool)
    requires bits & TriggerMask(s) == 0
    ensures Next(s, SystemExternalSignal(bits), connectionOpen, okToSend) == s
  {
    TriggeredTestsMask(s, bits);
  }

  /** An event posted by the scheduler on its own moves exactly the states
      waiting for that event's bit. */
  lemma ScheduledEventFires(s: State, k: Events.EventKind)
    ensures Fires(s, SystemExternalSignal(Events.KindMask(k)), true, true)
            <==> k != Events.EventNone && TriggerMask(s) == Events.KindMask(k)
  {
    match k
    case EventNone =>
    case EventLetimerUF =>
      match s {
        case StateIdle =>
        case WaitForSi7021POR =>
        case WaitForI2CWriteTransfer =>
        case WaitForSi7021Conversion =>
        case WaitForI2CReadTransfer =>
      }
    case EventLetimerComp1 =>
      match s {
        case StateIdle =>
        case WaitForSi7021POR =>
        case WaitForI2CWriteTransfer =>
        case WaitForSi7021Conversion =>
        case WaitForI2CReadTransfer =>
      }
    case EventI2CTransferComplete =>
      match s {
        case StateIdle =>
        case WaitForSi7021POR =>
        case WaitForI2CWriteTransfer =>
        case WaitForSi7021Conversion =>
        case WaitForI2CReadTransfer =>
      }
  }

  /** Runs compose: running a then b is running a, then b from where a ended. */
  lemma {:induction false} RunAppend(s: State, a: seq<BtEvent>, b: seq<BtEvent>,
                                     connectionOpen: bool, okToSend: bool)
    ensures Run(s, a + b, connectionOpen, okToSend)
            == Run(Run(s, a, connectionOpen, okToSend), b, connectionOpen, okToSend)
    decreases |a|
  {
    if a != [] {
      assert a + b != [] && (a + b)[0] == a[0] && (a + b)[1..] == a[1..] + b;
      RunAppend(Next(s, a[0], connectionOpen, okToSend), a[1..], b, connectionOpen, okToSend);
    } else {
      assert a + b == b;
    }
  }

  /** With the connection closed or indications off, no sequence of events
      moves the machine. */
  lemma {:induction false} GateClosedStays(s: State, evts: seq<BtEvent>, connectionOpen: bool, okToSend: bool)
    requires !connectionOpen || !okToSend
    ensures Run(s, evts, connectionOpen, okToSend) == s
    ensures Readings(s, evts, connectionOpen, okToSend) == 0
    decreases |evts|
  {
    if evts != [] {
      GateClosedStays(s, evts[1..], connectionOpen, okToSend);
    }
  }

  /** The connection flags change between calls: a period with the connection
      closed leaves the cycle where it was, so what follows once it reopens is
      as if the closed period had not happened. */
  lemma ClosedPeriodKeepsCycle(s: State, closed: seq<BtEvent>, evts: seq<BtEvent>, okToSend: bool)
    ensures Run(Run(s, closed, false, okToSend), evts, true, true) == Run(s, evts, true, true)
    ensures Readings(Run(s, closed, false, okToSend), evts, true, true) == Readings(s, evts, true, true)
  {
    GateClosedStays(s, closed, false, okToSend);
  }

  /** Events none of which carries the current state's trigger bit leave the
      machine where it is. */
  lemma {:induction false} RunWithoutTriggerStays(s: State, evts: seq<BtEvent>, connectionOpen: bool, okToSend: bool)
    requires forall i :: 0 <= i < |evts| && evts[i].SystemExternalSignal? ==>
               !Triggered(s, evts[i].extsignals)
    ensures Run(s, evts, connectionOpen, okToSend) == s
    ensures Firings(s, evts, connectionOpen, okToSend) == 0
    decreases |evts|
  {
    if evts != [] {
      assert evts[0].SystemExternalSignal? ==> !Triggered(s, evts[0].extsignals);
      assert Next(s, evts[0], connectionOpen, okToSend) == s;
      forall i | 0 <= i < |evts[1..]| && evts[1..][i].SystemExternalSignal?
        ensures !Triggered(s, evts[1..][i].extsignals)
      {
        assert evts[1..][i] == evts[i + 1];
      }
      RunWithoutTriggerStays(s, evts[1..], connectionOpen, okToSend);
    }
  }

  /** Every fifth move publishes a reading: the phase reached, plus five per
      reading, accounts for every move made. */
  lemma {:induction false} ReadingsCountCycles(s: State, evts: seq<BtEvent>, connectionOpen: bool, okToSend: bool)
    ensures Phase(s) + Firings(s, evts, connectionOpen, okToSend)
            == 5 * Readings(s, evts, connectionOpen, okToSend) + Phase(Run(s, evts, connectionOpen, okToSend))
    decreases |evts|
  {
    if evts != [] {
      ReadingsCountCycles(Next(s, evts[0], connectionOpen, okToSend), evts[1..], connectionOpen, okToSend);
    }
  }

  /** The signals of one measurement cycle, in the order the scheduler posts them. */
  function CycleSignals(): seq<BtEvent>
  {
    [SystemExternalSignal(0x1), SystemExternalSignal(0x2),
     SystemExternalSignal(0x4), SystemExternalSignal(0x2),
     SystemExternalSignal(0x4)]
  }

  /** With the gate open, one cycle of signals from idle visits every state in
      order, publishes one reading and comes back to idle. */
  lemma FullCycle()
    ensures Trace(StateIdle, CycleSignals(), true, true)
            == [WaitForSi7021POR, WaitForI2CWriteTransfer, WaitForSi7021Conversion,
                WaitForI2CReadTransfer, StateIdle]
    ensures Run(StateIdle, CycleSignals(), true, true) == StateIdle
    ensures Readings(StateIdle, CycleSignals(), true, true) == 1
  {
    var c := CycleSignals();
    assert Next(StateIdle, c[0], true, true) == WaitForSi7021POR;
    assert Next(WaitForSi7021POR, c[1], true, true) == WaitForI2CWriteTransfer;
    assert Next(WaitForI2CWriteTransfer, c[2], true, true) == WaitForSi7021Conversion;
    assert Next(WaitForSi7021Conversion, c[3], true, true) == WaitForI2CReadTransfer;
    assert Next(WaitForI2CReadTransfer, c[4], true, true) == StateIdle;
    assert c[1..][1..][1..][1..][1..] == [];
  }

  /** A sequence of events that brings a state back to itself can be
      repeated: n repetitions end there too and publish n times as often. */
  lemma {:induction false} RepeatedRuns(s: State, cycle: seq<BtEvent>, n: nat,
                                        connectionOpen: bool, okToSend: bool)
    requires Run(s, cycle, connectionOpen, okToSend) == s
    ensures Run(s, Repeat(cycle, n), connectionOpen, okToSend) == s
    ensures Readings(s, Repeat(cycle, n), connectionOpen, okToSend)
            == n * Readings(s, cycle, connectionOpen, okToSend)
  {
    if n > 0 {
      RepeatedRuns(s, cycle, n - 1, connectionOpen, okToSend);
      assert Repeat(cycle, n) == cycle + Repeat(cycle, n - 1);
      RunAppend(s, cycle, Repeat(cycle, n - 1), connectionOpen, okToSend);
      ReadingsAppend(s, cycle, Repeat(cycle, n - 1), connectionOpen, okToSend);
      var r := Readings(s, cycle, connectionOpen, okToSend);
      assert n * r == r + (n - 1) * r;
    }
  }

  /** Repeating the cycle n times from idle publishes n readings and ends idle. */
  lemma RepeatedCycles(n: nat)
    ensures Run(StateIdle, Repeat(CycleSignals(), n), true, true) == StateIdle
    ensures Readings(StateIdle, Repeat(CycleSignals(), n), true, true) == n
  {
    FullCycle();
    RepeatedRuns(StateIdle, CycleSignals(), n, true, true);
  }

  /** n copies of a sequence, one after another. */
  function Repeat<T>(s: seq<T>, n: nat): (r: seq<T>)
    ensures |r| == n * |s|
  {
    if n == 0 then [] else s + Repeat(s, n - 1)
  }

  /** Readings add up over concatenated runs. */
  lemma {:induction false} ReadingsAppend(s: State, a: seq<BtEvent>, b: seq<BtEvent>,
                                          connectionOpen: bool, okToSend: bool)
    ensures Readings(s, a + b, connectionOpen, okToSend)
            == Readings(s, a, connectionOpen, okToSend)
               + Readings(Run(s, a, connectionOpen, okToSend), b, connectionOpen, okToSend)
    decreases |a|
  {
    if a != [] {
      assert a + b != [] && (a + b)[0] == a[0] && (a + b)[1..] == a[1..] + b;
      ReadingsAppend(Next(s, a[0], connectionOpen, okToSend), a[1..], b, connectionOpen, okToSend);
    } else {
      assert a + b == b;
    }
  }

  /** With nothing in flight the guard never lets an indication out: every
      reading then goes to the queue, whatever its depth. */
  lemma NoIndicationWhileNothingInFlight(s: State, evt: BtEvent, connectionOpen: bool, okToSend: bool,
                                          connection: Handle, flags: bv8, m: Measurement, queueDepth: nat)
    ensures forall a :: a in StepActions(s, evt, connectionOpen, okToSend, connection, flags, m, false, queueDepth)
                        ==> !a.SendIndication?
    ensures ReadCompletes(s, evt, connectionOpen, okToSend) ==>
              WriteQueue(TemperatureMeasurement, HTM_BUFFER_LENGTH, HtmBuffer(flags, m))
              in StepActions(s, evt, connectionOpen, okToSend, connection, flags, m, false, queueDepth)
  {
    var buf := HtmBuffer(flags, m);
    var send := IndicationGuard(false, queueDepth);
    assert !send;
    var fires := Fires(s, evt, connectionOpen, okToSend);
    var moved := if fires then TransitionActions(s, connection, buf, send) else [];
    var tail := if !connectionOpen || !okToSend then [DisplayClear(RowTempValue)] else [];
    assert StepActions(s, evt, connectionOpen, okToSend, connection, flags, m, false, queueDepth) == moved + tail;
    NoIndicationInTransition(s, connection, buf);
    if ReadCompletes(s, evt, connectionOpen, okToSend) {
      assert moved[4] == WriteQueue(TemperatureMeasurement, HTM_BUFFER_LENGTH, buf);
      assert (moved + tail)[4] == moved[4];
    }
  }

  /** No transition sends an indication when the guard says no. */
  lemma NoIndicationInTransition(s: State, connection: Handle, buf: seq<bv8>)
    ensures forall a :: a in TransitionActions(s, connection, buf, false) ==> !a.SendIndication?
  {
  }

  class TemperatureMachine {
    var nextState: State
    var flags: bv8
    const htmTemperatureBuffer: array<bv8>
    ghost var actions: seq<Action>

    ghost predicate Valid()
      reads this
    {
      htmTemperatureBuffer.Length == HTM_BUFFER_LENGTH
    }

    constructor ()
      ensures Valid() && fresh(htmTemperatureBuffer)
      ensures nextState == StateIdle && flags == 0 && actions == []
      ensures htmTemperatureBuffer[..] == [0, 0, 0, 0, 0]
    {
      nextState := StateIdle;
      flags := 0;
      htmTemperatureBuffer := new bv8[HTM_BUFFER_LENGTH](_ => 0);
      actions := [];
    }

    /** One call of temperature_state_machine_bt. rawData is what I2C_Get_Data
        returns and encode turns it into the four measurement bytes; both are
        used only on the read-complete transition. */
    method Dispatch(evt: BtEvent, ble: BleData, queue: IndicationQueue,
                    rawData: bv16, encode: bv16 -> Measurement)
      requires Valid()
      modifies this, htmTemperatureBuffer, ble`indicationInFlight, queue
      ensures Valid() && flags == old(flags)
      ensures nextState == Next(old(nextState), evt, ble.connectionOpen, ble.okToSendHtmIndications)
      ensures htmTemperatureBuffer[..] ==
        if ReadCompletes(old(nextState), evt, ble.connectionOpen, ble.okToSendHtmIndications)
        then HtmBuffer(flags, encode(rawData))
        else old(htmTemperatureBuffer[..])
      ensures ble.indicationInFlight == old(ble.indicationInFlight)
      ensures queue.entries == old(queue.entries) +
        if ReadCompletes(old(nextState), evt, ble.connectionOpen, ble.okToSendHtmIndications)
           && !IndicationGuard(old(ble.indicationInFlight), old(queue.Depth()))
        then [QueueEntry(TemperatureMeasurement, HTM_BUFFER_LENGTH, HtmBuffer(flags, encode(rawData)))]
        else []
      ensures actions == old(actions) +
        StepActions(old(nextState), evt, ble.connectionOpen, ble.okToSendHtmIndications,
                    ble.connectionHandle, flags, encode(rawData),
                    old(ble.indicationInFlight), old(queue.Depth()))
    {
      if evt.SystemExternalSignal? && ble.connectionOpen && ble.okToSendHtmIndications {
        Transition(evt.extsignals, ble, queue, rawData, encode);
      }
      if !ble.connectionOpen || !ble.okToSendHtmIndications {
        actions := actions + [DisplayClear(RowTempValue)];
      }
    }

    /** The switch on the current state, entered once the gate holds: each
        state moves on only when extsignals carries its trigger bit. */
    method Transition(extsignals: bv32, ble: BleData, queue: IndicationQueue,
                      rawData: bv16, encode: bv16 -> Measurement)
      requires Valid()
      requires ble.connectionOpen && ble.okToSendHtmIndications
      modifies `nextState, `actions, htmTemperatureBuffer, ble`indicationInFlight, queue
      ensures nextState ==
        if Triggered(old(nextState), extsignals) then Successor(old(nextState)) else old(nextState)
      ensures htmTemperatureBuffer[..] ==
        if old(nextState) == WaitForI2CReadTransfer && Triggered(old(nextState), extsignals)
        then HtmBuffer(flags, encode(rawData))
        else old(htmTemperatureBuffer[..])
      ensures ble.indicationInFlight == old(ble.indicationInFlight)
      ensures queue.entries == old(queue.entries) +
        if old(nextState) == WaitForI2CReadTransfer && Triggered(old(nextState), extsignals)
           && !IndicationGuard(old(ble.indicationInFlight), old(queue.Depth()))
        then [QueueEntry(TemperatureMeasurement, HTM_BUFFER_LENGTH, HtmBuffer(flags, encode(rawData)))]
        else []
      ensures actions == old(actions) +
        if Triggered(old(nextState), extsignals)
        then TransitionActions(old(nextState), ble.connectionHandle, HtmBuffer(flags, encode(rawData)),
                               IndicationGuard(old(ble.indicationInFlight), old(queue.Depth())))
        else []
    {
      var currentState := nextState;
      match currentState
      case StateIdle =>
        nextState := StateIdle;
        if extsignals & 0x1 != 0 {
          actions := actions + [Si7021TurnOn, TimerWaitUs(SI7021_POR_TIME_US)];
          nextState := WaitForSi7021POR;
        }
      case WaitForSi7021POR =>
        nextState := WaitForSi7021POR;
        if extsignals & 0x2 != 0 {
          actions := actions + [I2CWriteMeasureTempNoHold];
          nextState := WaitForI2CWriteTransfer;
        }
      case WaitForI2CWriteTransfer =>
        nextState := WaitForI2CWriteTransfer;
        if extsignals & 0x4 != 0 {
          actions := actions + [DisableI2CIrq, TimerWaitUs(SI7021_14B_CONVERSION_TIME_US)];
          nextState := WaitForSi7021Conversion;
        }
      case WaitForSi7021Conversion =>
        nextState := WaitForSi7021Conversion;
        if extsignals & 0x2 != 0 {
          actions := actions + [I2CReadData];
          nextState := WaitForI2CReadTransfer;
        }
      case WaitForI2CReadTransfer =>
        nextState := WaitForI2CReadTransfer;
        if extsignals & 0x4 != 0 {
          PublishReading(ble, queue, rawData, encode);
          nextState := StateIdle;
        }
    }

    /** The read-complete work of the WaitForI2CReadTransfer state: fill the
        buffer, write the attribute, then, with the connection still open and
        indications on, send an indication or enqueue the buffer. */
    method PublishReading(ble: BleData, queue: IndicationQueue, rawData: bv16, encode: bv16 -> Measurement)
      requires Valid()
      modifies htmTemperatureBuffer, `actions, ble`indicationInFlight, queue
      ensures htmTemperatureBuffer[..] == HtmBuffer(flags, encode(rawData))
      ensures ble.indicationInFlight == old(ble.indicationInFlight)
      ensures queue.entries == old(queue.entries) +
        if !ble.connectionOpen || !ble.okToSendHtmIndications
           || IndicationGuard(old(ble.indicationInFlight), old(queue.Depth())) then []
        else [QueueEntry(TemperatureMeasurement, HTM_BUFFER_LENGTH, HtmBuffer(flags, encode(rawData)))]
      ensures actions == old(actions) +
        ReadCompleteActions(ble.connectionHandle, HtmBuffer(flags, encode(rawData)),
                            ble.connectionOpen && ble.okToSendHtmIndications,
                            IndicationGuard(old(ble.indicationInFlight), old(queue.Depth())))
    {
      ghost var send := IndicationGuard(ble.indicationInFlight, queue.Depth());
      actions := actions + [DisableI2CIrq, Si7021TurnOff, I2CGetData];
      var reading := encode(rawData);
      FillBuffer(reading);
      var buf := htmTemperatureBuffer[..];
      actions := actions + [WriteAttributeValue(TemperatureMeasurement, 0, HTM_BUFFER_LENGTH, buf)];
      ghost var fetched := actions;
      assert fetched == old(actions) + FetchActions(buf);
      if ble.connectionOpen && ble.okToSendHtmIndications {
        IndicateOrEnqueue(ble, queue, buf);
        actions := actions + [DisplaySet(RowTempValue)];
      } else {
        actions := actions + [DisplayClear(RowTempValue)];
      }
      assert actions == fetched + PublishActions(ble.connectionHandle, buf,
                                                 ble.connectionOpen && ble.okToSendHtmIndications, send);
    }

    /** Writes the flags byte and then the four measurement bytes into
        htm_temperature_buffer through an advancing index. */
    method FillBuffer(reading: Measurement)
      requires Valid()
      modifies htmTemperatureBuffer
      ensures htmTemperatureBuffer[..] == HtmBuffer(flags, reading)
    {
      var p := 0;
      htmTemperatureBuffer[p] := flags;
      p := p + 1;
      htmTemperatureBuffer[p] := reading.b1;
      htmTemperatureBuffer[p + 1] := reading.b2;
      htmTemperatureBuffer[p + 2] := reading.b3;
      htmTemperatureBuffer[p + 3] := reading.b4;
      assert htmTemperatureBuffer[..] == HtmBuffer(flags, reading) by {
        var buf := htmTemperatureBuffer[..];
        assert buf[0] == flags && buf[1] == reading.b1 && buf[2] == reading.b2;
        assert buf[3] == reading.b3 && buf[4] == reading.b4;
      }
    }

    /** Sends the buffer as an indication when IndicationGuard allows it, and
        otherwise puts it on the retry queue. */
    method IndicateOrEnqueue(ble: BleData, queue: IndicationQueue, buf: seq<bv8>)
      modifies `actions, ble`indicationInFlight, queue
      ensures IndicationGuard(old(ble.indicationInFlight), old(queue.Depth())) ==> ble.indicationInFlight
      ensures ble.indicationInFlight == old(ble.indicationInFlight)
      ensures queue.entries == old(queue.entries) +
        if IndicationGuard(old(ble.indicationInFlight), old(queue.Depth())) then []
        else [QueueEntry(TemperatureMeasurement, HTM_BUFFER_LENGTH, buf)]
      ensures actions == old(actions) +
        if IndicationGuard(old(ble.indicationInFlight), old(queue.Depth()))
        then [SendIndication(ble.connectionHandle, TemperatureMeasurement, HTM_BUFFER_LENGTH, buf)]
        else [WriteQueue(TemperatureMeasurement, HTM_BUFFER_LENGTH, buf)]
    {
      if IndicationGuard(ble.indicationInFlight, queue.Depth()) {
        actions := actions + [SendIndication(ble.connectionHandle, TemperatureMeasurement, HTM_BUFFER_LENGTH, buf)];
        ble.indicationInFlight := true;
      } else {
        queue.Write(TemperatureMeasurement, HTM_BUFFER_LENGTH, buf);
        actions := actions + [WriteQueue(TemperatureMeasurement, HTM_BUFFER_LENGTH, buf)];
      }
    }
  }
}
