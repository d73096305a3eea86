/** The client's service discovery state machine (Discovery_State_Machine):
    on connection, find the Health Thermometer service and characteristic and
    turn their indications on, then do the same for the custom button
    service, and wait for the connection to close. */
module Discovery {
  import opened Ble
  import Uuids

  datatype State = State1 | State2 | State3 | State4 | State5 | State6 | State7

  /** The one stack event each state waits for. */
  predicate Awaited(s: State, evt: BtEvent)
  {
    match s
    case State1 => evt.ConnectionOpened?
    case State7 => evt.ConnectionClosed?
    case _ => evt.GattProcedureCompleted?
  }

  /** The state each state moves to when its event arrives. */
  function Successor(s: State): State
  {
    match s
    case State1 => State2
    case State2 => State3
    case State3 => State4
    case State4 => State5
    case State5 => State6
    case State6 => State7
    case State7 => State1
  }

  /** The state after one call; the stack's status codes play no part. */
  function Next(s: State, evt: BtEvent): State
  {
    if Awaited(s, evt) then Successor(s) else s
  }

  /** The handle fields of the BLE data struct this machine writes. */
  datatype Handles = Handles(serviceHandleHTM: Handle, characteristicHandleHTM: Handle,
                             serviceHandleButton: Handle, characteristicHandleButton: Handle,
                             isIndicationOnButton: bool)

  /** The handle fields after one call, given the service and characteristic
      handles the stack last reported. */
  function Record(s: State, evt: BtEvent, h: Handles, serviceHandle: Handle, characteristicHandle: Handle): Handles
  {
    if !Awaited(s, evt) then h
    else
      match s
      case State2 => h.(serviceHandleHTM := serviceHandle)
      case State3 => h.(characteristicHandleHTM := characteristicHandle)
      case State5 => h.(serviceHandleButton := serviceHandle)
      case State6 => h.(characteristicHandleButton := characteristicHandle, isIndicationOnButton := true)
      case _ => h
  }

  /** The calls the transition out of state s makes. */
  function TransitionActions(s: State, connection: Handle, serviceHandle: Handle,
                             characteristicHandle: Handle): seq<Action>
  {
    match s
    case State1 => [DiscoverPrimaryServicesByUuid(connection, Uuids.THERMO_SERVICE)]
    case State2 => [DiscoverCharacteristicsByUuid(connection, serviceHandle, Uuids.THERMO_CHAR)]
    case State3 => [SetCharacteristicIndication(connection, characteristicHandle)]
    case State4 => [DisplaySet(RowConnection), DiscoverPrimaryServicesByUuid(connection, Uuids.BUTTON_SERVICE)]
    case State5 => [DiscoverCharacteristicsByUuid(connection, serviceHandle, Uuids.BUTTON_CHAR)]
    case State6 => [SetCharacteristicIndication(connection, characteristicHandle)]
    case State7 => []
  }

  /** The calls one call of the machine makes. */
  function StepActions(s: State, evt: BtEvent, connection: Handle, serviceHandle: Handle,
                       characteristicHandle: Handle): seq<Action>
  {
    if Awaited(s, evt) then TransitionActions(s, connection, serviceHandle, characteristicHandle) else []
  }

  /** One step of a run: the event and the handles the stack reported before it. */
  datatype Step = Step(evt: BtEvent, serviceHandle: Handle, characteristicHandle: Handle)

  /** The state after a sequence of calls. */
  function Run(s: State, steps: seq<Step>): State
    decreases |steps|
  {
    if steps == [] then s else Run(Next(s, steps[0].evt), steps[1..])
  }

  /** The handle fields after a sequence of calls. */
  function RunRecord(s: State, steps: seq<Step>, h: Handles): Handles
    decreases |steps|
  {
    if steps == [] then h
    else
      RunRecord(Next(s, steps[0].evt), steps[1..],
                Record(s, steps[0].evt, h, steps[0].serviceHandle, steps[0].characteristicHandle))
  }

  /** The calls a sequence of calls makes, on one connection. */
  function RunActions(s: State, steps: seq<Step>, connection: Handle): seq<Action>
    decreases |steps|
  {
    if steps == [] then []
    else
      StepActions(s, steps[0].evt, connection, steps[0].serviceHandle, steps[0].characteristicHandle)
      + RunActions(Next(s, steps[0].evt), steps[1..], connection)
  }

  /** One call moves at most one state on, and only on the awaited event;
      the handle fields change only on such a move. */
  lemma NextIsAtMostOneStep(s: State, evt: BtEvent, h: Handles, serviceHandle: Handle, characteristicHandle: Handle)
    ensures Next(s, evt) != s <==> Awaited(s, evt)
    ensures Record(s, evt, h, serviceHandle, characteristicHandle) != h ==> Next(s, evt) == Successor(s)
  {
  }

  /** A disconnection in the middle of discovery is not seen: only the final
      state returns to the start, so a later connection is not rediscovered
      unless discovery had finished. */
  lemma DisconnectMidDiscoveryIgnored(s: State)
    requires s != State7
    ensures Next(s, ConnectionClosed) == s
  {
  }

  /** Events none of which is the current state's awaited event leave the
      machine and the handle fields as they are. */
  lemma {:induction false} RunWithoutAwaitedStays(s: State, steps: seq<Step>, h: Handles, connection: Handle)
    requires forall i :: 0 <= i < |steps| ==> !Awaited(s, steps[i].evt)
    ensures Run(s, steps) == s
    ensures RunRecord(s, steps, h) == h
    ensures RunActions(s, steps, connection) == []
    decreases |steps|
  {
    if steps != [] {
      assert !Awaited(s, steps[0].evt);
      forall i | 0 <= i < |steps[1..]| ensures !Awaited(s, steps[1..][i].evt) {
        assert steps[1..][i] == steps[i + 1];
      }
      RunWithoutAwaitedStays(s, steps[1..], h, connection);
    }
  }

  /** A connection followed by five completed procedures from State1 ends in
      State7, having recorded the handles the stack reported at each step,
      turned on both indications, and asked for both services in order. */
  lemma FullDiscovery(steps: seq<Step>, h: Handles, connection: Handle)
    requires |steps| == 6
    requires steps[0].evt == ConnectionOpened
    requires forall i :: 1 <= i < 6 ==> steps[i].evt == GattProcedureCompleted
    ensures Run(State1, steps) == State7
    ensures RunRecord(State1, steps, h)
            == Handles(steps[1].serviceHandle, steps[2].characteristicHandle,
                       steps[4].serviceHandle, steps[5].characteristicHandle, true)
    ensures RunActions(State1, steps, connection)
            == [DiscoverPrimaryServicesByUuid(connection, Uuids.THERMO_SERVICE),
                DiscoverCharacteristicsByUuid(connection, steps[1].serviceHandle, Uuids.THERMO_CHAR),
                SetCharacteristicIndication(connection, steps[2].characteristicHandle),
                DisplaySet(RowConnection),
                DiscoverPrimaryServicesByUuid(connection, Uuids.BUTTON_SERVICE),
                DiscoverCharacteristicsByUuid(connection, steps[4].serviceHandle, Uuids.BUTTON_CHAR),
                SetCharacteristicIndication(connection, steps[5].characteristicHandle)]
  {
    var t1 := steps[1..];
    var t2 := t1[1..];
    var t3 := t2[1..];
    var t4 := t3[1..];
    var t5 := t4[1..];
    var t6 := t5[1..];
    assert t1[0] == steps[1] && t2[0] == steps[2] && t3[0] == steps[3];
    assert t4[0] == steps[4] && t5[0] == steps[5] && t6 == [];
    var h1 := h;
    var h2 := h1.(serviceHandleHTM := steps[1].serviceHandle);
    var h3 := h2.(characteristicHandleHTM := steps[2].characteristicHandle);
    var h5 := h3.(serviceHandleButton := steps[4].serviceHandle);
    var h6 := h5.(characteristicHandleButton := steps[5].characteristicHandle, isIndicationOnButton := true);
    assert RunRecord(State6, t5, h5)
           == RunRecord(Next(State6, t5[0].evt), t5[1..],
                        Record(State6, t5[0].evt, h5, t5[0].serviceHandle, t5[0].characteristicHandle));
    assert Run(State6, t5) == State7 && RunRecord(State6, t5, h5) == h6;
    assert Run(State5, t4) == State7 && RunRecord(State5, t4, h3) == h6;
    assert Run(State4, t3) == State7 && RunRecord(State4, t3, h3) == h6;
    assert Run(State3, t2) == State7 && RunRecord(State3, t2, h2) == h6;
    assert Run(State2, t1) == State7 && RunRecord(State2, t1, h1) == h6;
    var a6 := [SetCharacteristicIndication(connection, steps[5].characteristicHandle)];
    var a5 := [DiscoverCharacteristicsByUuid(connection, steps[4].serviceHandle, Uuids.BUTTON_CHAR)] + a6;
    var a4 := [DisplaySet(RowConnection), DiscoverPrimaryServicesByUuid(connection, Uuids.BUTTON_SERVICE)] + a5;
    var a3 := [SetCharacteristicIndication(connection, steps[2].characteristicHandle)] + a4;
    var a2 := [DiscoverCharacteristicsByUuid(connection, steps[1].serviceHandle, Uuids.THERMO_CHAR)] + a3;
    assert RunActions(State6, t5, connection) == a6;
    assert RunActions(State5, t4, connection) == a5;
    assert RunActions(State4, t3, connection) == a4;
    assert RunActions(State3, t2, connection) == a3;
    assert RunActions(State2, t1, connection) == a2;
  }

  /** After a full discovery, closing the connection rearms the machine. */
  lemma CloseRearms()
    ensures Next(State7, ConnectionClosed) == State1
    ensures forall evt :: Awaited(State7, evt) <==> evt == ConnectionClosed
  {
  }

  /** The machine around the persistent nextState of Discovery_State_Machine. */
  class DiscoveryMachine {
    var nextState: State
    ghost var actions: seq<Action>

    constructor ()
      ensures nextState == State1 && actions == []
    {
      nextState := State1;
      actions := [];
    }

    /** The handle fields of the BLE data struct. */
    static function HandlesOf(ble: BleData): Handles
      reads ble
    {
      Handles(ble.serviceHandleHTM, ble.characteristicHandleHTM,
              ble.serviceHandleButton, ble.characteristicHandleButton, ble.isIndicationOnButton)
    }

    /** One call of Discovery_State_Machine. */
    method Dispatch(evt: BtEvent, ble: BleData)
      modifies this, ble`serviceHandleHTM, ble`characteristicHandleHTM, ble`serviceHandleButton,
               ble`characteristicHandleButton, ble`isIndicationOnButton
      ensures nextState == Next(old(nextState), evt)
      ensures HandlesOf(ble)
              == Record(old(nextState), evt, old(HandlesOf(ble)), ble.serviceHandle, ble.characteristicHandle)
      ensures actions == old(actions) +
        StepActions(old(nextState), evt, ble.connectionHandle, ble.serviceHandle, ble.characteristicHandle)
    {
      var currentState := nextState;
      match currentState
      case State1 =>
        nextState := State1;
        if evt.ConnectionOpened? {
          actions := actions + [DiscoverPrimaryServicesByUuid(ble.connectionHandle, Uuids.THERMO_SERVICE)];
          nextState := State2;
        }
      case State2 =>
        nextState := State2;
        if evt.GattProcedureCompleted? {
          ble.serviceHandleHTM := ble.serviceHandle;
          actions := actions + [DiscoverCharacteristicsByUuid(ble.connectionHandle, ble.serviceHandleHTM, Uuids.THERMO_CHAR)];
          nextState := State3;
        }
      case State3 =>
        nextState := State3;
        if evt.GattProcedureCompleted? {
          ble.characteristicHandleHTM := ble.characteristicHandle;
          actions := actions + [SetCharacteristicIndication(ble.connectionHandle, ble.characteristicHandleHTM)];
          nextState := State4;
        }
      case State4 =>
        nextState := State4;
        if evt.GattProcedureCompleted? {
          actions := actions + [DisplaySet(RowConnection)];
          actions := actions + [DiscoverPrimaryServicesByUuid(ble.connectionHandle, Uuids.BUTTON_SERVICE)];
          nextState := State5;
        }
      case State5 =>
        nextState := State5;
        if evt.GattProcedureCompleted? {
          ble.serviceHandleButton := ble.serviceHandle;
          actions := actions + [DiscoverCharacteristicsByUuid(ble.connectionHandle, ble.serviceHandleButton, Uuids.BUTTON_CHAR)];
          nextState := State6;
        }
      case State6 =>
        nextState := State6;
        if evt.GattProcedureCompleted? {
          ble.characteristicHandleButton := ble.characteristicHandle;
          actions := actions + [SetCharacteristicIndication(ble.connectionHandle, ble.characteristicHandleButton)];
          ble.isIndicationOnButton := true;
          nextState := State7;
        }
      case State7 =>
        nextState := State7;
        if evt.ConnectionClosed? {
          nextState := State1;
        }
    }
  }
}
