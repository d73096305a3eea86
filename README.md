# Scheduler core of the miner safety gear firmware, in Dafny

This project models `scheduler.c` of the node firmware. That file has four parts:

- **The event scheduler.** Interrupt handlers post timer-underflow, timer-compare-match and
  I2C-transfer-complete events as bits of one pending-event word (`SchedulerEvents`), and signal
  the Bluetooth stack. `getNextEvent` hands them out highest priority first: I2C transfer
  complete, then compare match, then underflow. It clears the bit it returns. The two button
  setters only signal the stack.
- **The temperature state machine** (`temperature_state_machine_bt`). It runs five states:
  power the Si7021 on, wait for its power-on reset, write the measure command, wait for the
  conversion, and read the result. It works only while three things hold: the event is an
  external signal, the connection is open, and the client has turned indications on. Each state
  moves on only when the signal carries its own trigger bit. The read-complete step fills the
  5-byte `htm_temperature_buffer` (flags byte first), writes the temperature measurement
  attribute, and then either sends an indication or puts the buffer on the retry queue.
- **The discovery state machine** (`Discovery_State_Machine`) of the client build. It goes through
  seven states:
  1. On connection, find the Health Thermometer service.
  2. Find its characteristic.
  3. Turn its indications on.
  4. Find the custom button service.
  5. Find its characteristic.
  6. Turn its indications on.
  7. Wait for the connection to close.

  It copies the handles the stack reports into the BLE data struct.
- **The UUID tables** the discovery machine searches for.

The source's state has these forms in the model:

- The pending-event word is the field `schedulerEvents: bv32` of class `Events.Scheduler`.
- The persistent `static nextState` of each machine is a field of `Temperature.TemperatureMachine`
  and `Discovery.DiscoveryMachine`.
- The BLE data struct is class `Ble.BleData`. The machines update its fields in place.
- `htm_temperature_buffer` is an `array<bv8>`, filled through an advancing index.
- The retry queue is class `Ble.IndicationQueue`.
- Calls into drivers and the stack are appended, in order, to a ghost log `actions: seq<Action>`.
  The signals handed to `sl_bt_external_signal` go to a ghost log `signals`.

Each method is proved against pure specification functions:

- the scheduler against `Posted`, `Cleared`, `Pending` and `HighestPending`;
- the temperature machine against `Next`, `HtmBuffer`, `IndicationGuard` and `StepActions`;
- the discovery machine against `Next`, `Record` and `StepActions`.

Lemmas about those functions state what the source promises: the drain order of the pending
word, the five-signal measurement cycle, the full discovery sequence, and the UUID byte order.

Two behaviours of the code are easy to misread:

- **The indication guard is modelled as written.** The guard is
  `!(indication_in_flight == false || get_queue_depth() > 0)`, which is `in_flight && depth == 0`
  (`Temperature.IndicationGuard`). The comment above it (scheduler.c:312-316) asks for the
  opposite test on `in_flight`: send only when no indication is in flight. Because the code sends
  only when an indication is already in flight, setting `indication_in_flight` to true never
  changes it. `Dispatch` and `IndicateOrEnqueue` therefore keep `indicationInFlight` unchanged.
  `Temperature.NoIndicationWhileNothingInFlight` shows that with nothing in flight every reading
  is queued.
- **Closed connection at read-complete.** A read-complete trigger that arrives with the
  connection closed does not go back to Idle or write the attribute: the outer gate is checked
  first, so such a call does nothing except clear the display row (`Temperature.GateClosedStays`,
  `Temperature.TemperatureMachine.Dispatch`). For the same reason, the inner branch that clears
  the display (scheduler.c line 347) cannot be reached from `Dispatch`. `PublishReading` still
  models it. After such a closed period the cycle resumes where it was
  (`Temperature.ClosedPeriodKeepsCycle`).

## Model

| member | source | states |
|---|---|---|
| Events.MasksAreBitPositions | LPEDT_Firmware/LPEDT_Miner_Safety_Project/src/scheduler.c:33-35 | the underflow, compare-match and transfer-complete masks are `1 << 0`, `1 << 1` and `1 << 2`; together they make up `0x7` |
| Events.KindMask | LPEDT_Firmware/LPEDT_Miner_Safety_Project/src/scheduler.c:33-35 | only EventNone has no bit, and every mask lies within the three scheduler bits |
| Events.IsPendingTestsMask | LPEDT_Firmware/LPEDT_Miner_Safety_Project/src/scheduler.c:179-184 | a kind counts as pending exactly when it is a scheduled kind whose own mask bit is set |
| Events.Pending | LPEDT_Firmware/LPEDT_Miner_Safety_Project/src/scheduler.c:179-184 | the pending set holds exactly the kinds whose bit is set in the word |
| Events.Posted | LPEDT_Firmware/LPEDT_Miner_Safety_Project/src/scheduler.c:125-158 | the word after a setter: the old word with the posted kind's single bit ORed in, as at lines 129, 142 and 155 |
| Events.Cleared | LPEDT_Firmware/LPEDT_Miner_Safety_Project/src/scheduler.c:189-199 | the word after getNextEvent's switch: the old word with the returned kind's bit cleared, and unchanged for EVENT_NONE |
| Events.PostedBits | LPEDT_Firmware/LPEDT_Miner_Safety_Project/src/scheduler.c:125-158 | posting sets the kind's bit and leaves every other bit as it was |
| Events.ClearedBits | LPEDT_Firmware/LPEDT_Miner_Safety_Project/src/scheduler.c:189-199 | clearing empties the kind's bit and leaves every other bit as it was |
| Events.DisjointKinds | LPEDT_Firmware/LPEDT_Miner_Safety_Project/src/scheduler.c:33-35 | two different kinds share no bit |
| Events.PostedPendingAt | LPEDT_Firmware/LPEDT_Miner_Safety_Project/src/scheduler.c:125-158 | after a post, a kind is pending iff it was pending before or is the posted kind |
| Events.ClearedPendingAt | LPEDT_Firmware/LPEDT_Miner_Safety_Project/src/scheduler.c:189-199 | after a clear, a kind is pending iff it was pending before and is not the cleared kind |
| Events.PendingAfterPost | LPEDT_Firmware/LPEDT_Miner_Safety_Project/src/scheduler.c:125-158 | a setter adds exactly its own kind to the pending set |
| Events.PendingAfterClear | LPEDT_Firmware/LPEDT_Miner_Safety_Project/src/scheduler.c:189-199 | getNextEvent's clear removes exactly the returned kind from the pending set |
| Events.Highest | LPEDT_Firmware/LPEDT_Miner_Safety_Project/src/scheduler.c:171-184 | the selected kind is EventNone or a member of the set, and has the highest priority in it |
| Events.HighestPending | LPEDT_Firmware/LPEDT_Miner_Safety_Project/src/scheduler.c:179-184 | the if-chain on bits 2, 1, 0 picks the highest-priority pending kind, and returns EventNone iff nothing is pending |
| Events.PostIdempotent | LPEDT_Firmware/LPEDT_Miner_Safety_Project/src/scheduler.c:125-158 | posting the same kind twice is the same as posting it once |
| Events.PostsCommute | LPEDT_Firmware/LPEDT_Miner_Safety_Project/src/scheduler.c:125-158 | two posts in either order give the same word |
| Events.ConsumeThenRepost | LPEDT_Firmware/LPEDT_Miner_Safety_Project/src/scheduler.c:125-158 | clearing a pending kind and posting it again restores the word exactly |
| Events.DrainOrderDeliversAll | LPEDT_Firmware/LPEDT_Miner_Safety_Project/src/scheduler.c:161-202 | a drain with no new posts delivers every pending kind exactly once, nothing else, in strictly decreasing priority |
| Events.DrainOrderFollowsGetNext | LPEDT_Firmware/LPEDT_Miner_Safety_Project/src/scheduler.c:166-202 | the drain order is getNextEvent's result followed by the drain order of the word it leaves |
| Events.AtMostThreePending | LPEDT_Firmware/LPEDT_Miner_Safety_Project/src/scheduler.c:41 | the word never has more than the three scheduled kinds pending, and EventNone is never pending |
| Events.ConsumeOneShrinks | LPEDT_Firmware/LPEDT_Miner_Safety_Project/src/scheduler.c:166-202 | one call of getNextEvent removes exactly one pending kind while there is one |
| Events.ConsumeNShrinks | LPEDT_Firmware/LPEDT_Miner_Safety_Project/src/scheduler.c:166-202 | n calls with no new posts leave at most the pending count minus n kinds pending |
| Events.DrainWithinThree | LPEDT_Firmware/LPEDT_Miner_Safety_Project/src/scheduler.c:166-202 | from any word, a drain loop with no new posts gets EVENT_NONE after at most three calls |
| Events.Scheduler.constructor | LPEDT_Firmware/LPEDT_Miner_Safety_Project/src/scheduler.c:41 | the pending-event word starts at 0 |
| Events.Scheduler.SetEventPB1 | LPEDT_Firmware/LPEDT_Miner_Safety_Project/src/scheduler.c:100-106 | the word is unchanged; the PB1 signal is sent to the stack |
| Events.Scheduler.SetEventPB0 | LPEDT_Firmware/LPEDT_Miner_Safety_Project/src/scheduler.c:112-118 | the word is unchanged; the PB0 signal is sent to the stack |
| Events.Scheduler.SetEventLETIMER0Comp1 | LPEDT_Firmware/LPEDT_Miner_Safety_Project/src/scheduler.c:125-132 | the new word is the old one with the compare-match bit ORed in; bits stay within the three; signal 0x2 is sent |
| Events.Scheduler.SetEventLETIMER0UF | LPEDT_Firmware/LPEDT_Miner_Safety_Project/src/scheduler.c:138-145 | the new word is the old one with the underflow bit ORed in; bits stay within the three; signal 0x1 is sent |
| Events.Scheduler.SetEventI2CTransferDone | LPEDT_Firmware/LPEDT_Miner_Safety_Project/src/scheduler.c:151-158 | the new word is the old one with the transfer-complete bit ORed in; bits stay within the three; signal 0x4 is sent |
| Events.Scheduler.GetNextEvent | LPEDT_Firmware/LPEDT_Miner_Safety_Project/src/scheduler.c:166-203 | returns the highest-priority pending kind, or EVENT_NONE; clears only that kind's bit, so the word is unchanged on EVENT_NONE |
| Temperature.TriggeredTestsMask | LPEDT_Firmware/LPEDT_Miner_Safety_Project/src/scheduler.c:230-286 | each state tests exactly its own trigger bit: underflow, compare match, transfer complete, compare match, transfer complete |
| Temperature.IndicationGuard | LPEDT_Firmware/LPEDT_Miner_Safety_Project/src/scheduler.c:325-326 | the guard as written holds iff an indication is in flight and the queue is empty |
| Temperature.HtmBuffer | LPEDT_Firmware/LPEDT_Miner_Safety_Project/src/scheduler.c:289-302 | the buffer is 5 bytes: byte 0 is flags and bytes 1 to 4 are the encoded measurement |
| Temperature.Phase | LPEDT_Firmware/LPEDT_Miner_Safety_Project/src/scheduler.c:46-52 | each state has a position in the five-state cycle; only Idle is at 0 |
| Temperature.Next | LPEDT_Firmware/LPEDT_Miner_Safety_Project/src/scheduler.c:227-286 | the successor state when the event is an external signal, the connection is open, indications are on and the state's trigger bit is set; otherwise the same state |
| Temperature.TransitionActions | LPEDT_Firmware/LPEDT_Miner_Safety_Project/src/scheduler.c:237-349 | the calls each state's transition makes: power on and wait 80000 us; the measure-command write; IRQ disable and wait 10800 us; the data read; and the read-complete calls |
| Temperature.ReadCompleteActions | LPEDT_Firmware/LPEDT_Miner_Safety_Project/src/scheduler.c:287-348 | the read-complete calls in order: IRQ disable, sensor off, data fetch, 5-byte attribute write, then send or enqueue and show the reading while the connection is open, or else clear the row |
| Temperature.StepActions | LPEDT_Firmware/LPEDT_Miner_Safety_Project/src/scheduler.c:227-362 | the calls of one call: the transition's calls when it fires, then the display clear when the connection is closed or indications are off |
| Temperature.Trace | LPEDT_Firmware/LPEDT_Miner_Safety_Project/src/scheduler.c:215-286 | the states a sequence of calls passes through, one per call, with the persistent state carried from call to call |
| Temperature.NextIsAtMostOneStep | LPEDT_Firmware/LPEDT_Miner_Safety_Project/src/scheduler.c:230-286 | a call changes the state iff the gate holds and the trigger bit is present; it moves one state on at most, one phase forward modulo 5 |
| Temperature.OutOfOrderSignalIgnored | LPEDT_Firmware/LPEDT_Miner_Safety_Project/src/scheduler.c:230-286 | a signal without the current state's trigger bit leaves the state unchanged |
| Temperature.ScheduledEventFires | LPEDT_Firmware/LPEDT_Miner_Safety_Project/src/scheduler.c:125-158 | with the gate open, the signal of a scheduled kind moves exactly the states waiting for that kind's bit |
| Temperature.GateClosedStays | LPEDT_Firmware/LPEDT_Miner_Safety_Project/src/scheduler.c:227-229 | with the connection closed or indications off, no sequence of events moves the machine or publishes a reading |
| Temperature.ClosedPeriodKeepsCycle | LPEDT_Firmware/LPEDT_Miner_Safety_Project/src/scheduler.c:215-229 | events that arrive while the connection is closed do not disturb the persistent state: the run after the connection reopens, and its readings, are the same as without the closed period |
| Temperature.RunWithoutTriggerStays | LPEDT_Firmware/LPEDT_Miner_Safety_Project/src/scheduler.c:230-286 | events that never carry the current state's trigger bit leave the machine where it is and make no move |
| Temperature.ReadingsCountCycles | LPEDT_Firmware/LPEDT_Miner_Safety_Project/src/scheduler.c:230-351 | over any sequence of events, the start phase plus the moves made equals five per published reading plus the end phase |
| Temperature.RunAppend | LPEDT_Firmware/LPEDT_Miner_Safety_Project/src/scheduler.c:215 | the persistent state carries over between calls: running a then b is running b from where a ended |
| Temperature.ReadingsAppend | LPEDT_Firmware/LPEDT_Miner_Safety_Project/src/scheduler.c:215 | the readings published over concatenated sequences of events add up |
| Temperature.FullCycle | LPEDT_Firmware/LPEDT_Miner_Safety_Project/src/scheduler.c:230-351 | the signals UF, COMP1, I2C, COMP1, I2C from Idle visit all five states in order, publish one reading and end in Idle |
| Temperature.RepeatedRuns | LPEDT_Firmware/LPEDT_Miner_Safety_Project/src/scheduler.c:230-351 | a sequence of events that returns to its start state can be repeated n times, ending there with n times the readings |
| Temperature.RepeatedCycles | LPEDT_Firmware/LPEDT_Miner_Safety_Project/src/scheduler.c:230-351 | n measurement cycles from Idle publish exactly n readings and end in Idle |
| Temperature.NoIndicationInTransition | LPEDT_Firmware/LPEDT_Miner_Safety_Project/src/scheduler.c:325-343 | when the guard is false, no transition sends an indication |
| Temperature.NoIndicationWhileNothingInFlight | LPEDT_Firmware/LPEDT_Miner_Safety_Project/src/scheduler.c:322-343 | with nothing in flight, a call never sends an indication, and a read-complete call enqueues the 5-byte buffer |
| Temperature.TemperatureMachine.constructor | LPEDT_Firmware/LPEDT_Miner_Safety_Project/src/scheduler.c:64-66 | the machine starts in Idle with flags 0 and a zeroed 5-byte buffer |
| Temperature.TemperatureMachine.Dispatch | LPEDT_Firmware/LPEDT_Miner_Safety_Project/src/scheduler.c:213-363 | new state, buffer, queue and call log of one call, in terms of Next, HtmBuffer, IndicationGuard and StepActions; flags and indication_in_flight are unchanged |
| Temperature.TemperatureMachine.Transition | LPEDT_Firmware/LPEDT_Miner_Safety_Project/src/scheduler.c:230-354 | with the gate open, each state moves to its successor iff its trigger bit is set, making that transition's calls |
| Temperature.TemperatureMachine.PublishReading | LPEDT_Firmware/LPEDT_Miner_Safety_Project/src/scheduler.c:287-348 | fills the buffer and writes the attribute; then, with the connection still open, sends or enqueues as the guard says and shows the reading, or else clears the row |
| Temperature.TemperatureMachine.FillBuffer | LPEDT_Firmware/LPEDT_Miner_Safety_Project/src/scheduler.c:289-302 | the buffer holds flags followed by the four measurement bytes |
| Temperature.TemperatureMachine.IndicateOrEnqueue | LPEDT_Firmware/LPEDT_Miner_Safety_Project/src/scheduler.c:325-343 | sends an indication and leaves indication_in_flight set when the guard holds, and otherwise appends one entry (measurement handle, length 5, buffer) to the queue; as the guard is written, indication_in_flight ends as it began |
| Ble.IndicationQueue.Depth | LPEDT_Firmware/LPEDT_Miner_Safety_Project/src/scheduler.c:326 | the depth is zero iff the queue is empty |
| Ble.IndicationQueue.Write | LPEDT_Firmware/LPEDT_Miner_Safety_Project/src/scheduler.c:342 | the entry is appended at the back and the depth grows by one |
| Discovery.Next | LPEDT_Firmware/LPEDT_Miner_Safety_Project/src/scheduler.c:377-516 | the next state in the seven-state order when the event is the state's awaited message id (connection-opened in State_1, connection-closed in State_7, procedure-completed otherwise); otherwise the same state |
| Discovery.Record | LPEDT_Firmware/LPEDT_Miner_Safety_Project/src/scheduler.c:406-501 | the handle fields after one call: State_2 copies the service handle to serviceHandleHTM, State_3 the characteristic handle to characteristicHandleHTM, State_5 the service handle to serviceHandleButton, State_6 the characteristic handle to characteristicHandleButton and sets isIndicationOnButton; nothing changes otherwise |
| Discovery.TransitionActions | LPEDT_Firmware/LPEDT_Miner_Safety_Project/src/scheduler.c:386-501 | the calls of each state's transition: service discovery by the thermometer UUID, characteristic discovery, indication enable, the connection row update and button service discovery, button characteristic discovery, indication enable; none in State_7 |
| Discovery.StepActions | LPEDT_Firmware/LPEDT_Miner_Safety_Project/src/scheduler.c:377-516 | the calls of one call: the transition's calls on the awaited event, none otherwise |
| Discovery.NextIsAtMostOneStep | LPEDT_Firmware/LPEDT_Miner_Safety_Project/src/scheduler.c:377-516 | a call changes the state iff it is the state's awaited event, whatever the status codes; the handle fields change only on such a move |
| Discovery.DisconnectMidDiscoveryIgnored | LPEDT_Firmware/LPEDT_Miner_Safety_Project/src/scheduler.c:377-504 | a connection-closed event before State_7 leaves the state unchanged |
| Discovery.RunWithoutAwaitedStays | LPEDT_Firmware/LPEDT_Miner_Safety_Project/src/scheduler.c:377-516 | events that are never the awaited one leave the state and the handle fields unchanged and make no calls |
| Discovery.FullDiscovery | LPEDT_Firmware/LPEDT_Miner_Safety_Project/src/scheduler.c:378-504 | a connection followed by five completed procedures goes from State_1 to State_7; it records the reported handles, sets isIndicationOnButton and makes the seven calls in order |
| Discovery.CloseRearms | LPEDT_Firmware/LPEDT_Miner_Safety_Project/src/scheduler.c:505-514 | State_7 waits only for connection-closed, which returns it to State_1 |
| Discovery.DiscoveryMachine.constructor | LPEDT_Firmware/LPEDT_Miner_Safety_Project/src/scheduler.c:371 | the machine starts in State_1 |
| Discovery.DiscoveryMachine.Dispatch | LPEDT_Firmware/LPEDT_Miner_Safety_Project/src/scheduler.c:368-517 | new state, handle fields and calls of one call, in terms of Next, Record and StepActions; the other fields of the BLE struct are not touched |
| Uuids.LittleEndian16 | LPEDT_Firmware/LPEDT_Miner_Safety_Project/src/scheduler.c:70-73 | a 16-bit UUID is stored as two bytes, low byte first, and decoding them gives the UUID back |
| Uuids.LittleEndian16RoundTrip | LPEDT_Firmware/LPEDT_Miner_Safety_Project/src/scheduler.c:70-73 | encoding a decoded pair of bytes gives the same bytes |
| Uuids.ThermoUuidsAreAssignedNumbers | LPEDT_Firmware/LPEDT_Miner_Safety_Project/src/scheduler.c:70-73 | the thermometer service and characteristic tables are the little-endian forms of 0x1809 and 0x2A1C |
| Uuids.Reverse | LPEDT_Firmware/LPEDT_Miner_Safety_Project/src/scheduler.c:76-91 | the reversed sequence has the same length and the element at i is the one at length - 1 - i |
| Uuids.ReverseInvolution | LPEDT_Firmware/LPEDT_Miner_Safety_Project/src/scheduler.c:76-91 | reversing twice gives the sequence back, so the text form can be recovered from the table |
| Uuids.ButtonServiceIsReversedText | LPEDT_Firmware/LPEDT_Miner_Safety_Project/src/scheduler.c:76-83 | the button service table is the UUID 00000001-38c8-433e-87ec-652a2d136289 reversed |
| Uuids.ButtonCharIsReversedText | LPEDT_Firmware/LPEDT_Miner_Safety_Project/src/scheduler.c:84-91 | the button characteristic table is the UUID 00000002-38c8-433e-87ec-652a2d136289 reversed |
| Uuids.ButtonUuidsShareBase | LPEDT_Firmware/LPEDT_Miner_Safety_Project/src/scheduler.c:76-91 | both tables are 16 bytes and differ only in byte 12, which is 0x01 and 0x02 |

## Left out

- Celsius conversion and float encoding are out. The floating-point conversion of the raw code and `INT32_TO_FLOAT`/`UINT32_TO_BITSTREAM` are replaced by the parameter `encode` of `TemperatureMachine.Dispatch`. It maps the raw 16-bit code to four bytes. Only byte 0 is `flags` and length 5 is stated. The macros live in headers that are not part of this model.
- Display text is out. `displayPrintf` with the temperature is logged as `DisplaySet(RowTempValue)`, the empty string as `DisplayClear(RowTempValue)`, and the "Handling Indications" text of the discovery machine as `DisplaySet(RowConnection)`.
- Critical sections and interrupt preemption are out. Each function is modelled as one atomic step. The unlocked read of the word in `getNextEvent` is not modelled.
- Hardware and stack calls are recorded as `Action` entries in a ghost log, not executed. This covers the Si7021, timer, I2C, NVIC, GATT server and client calls, and `write_queue`.
- Status codes are out. `sc` is never an input, since the code only logs it and advances regardless. `LOG_ERROR` output is not modelled.
- `sl_bt_external_signal` is recorded in the ghost `signals` log. The stack's delivery of signals to the machines is not modelled. The machines take an event as a parameter.
- Events.Scheduler.SetEventPB0: the button bit positions `PB0_BIT_POS`/`PB1_BIT_POS` come from a header that is not part of this model. The signal is recorded as `ButtonSignal(PB0)` or `ButtonSignal(PB1)`, not as bits.
- Build flags are out. `BUILD_INCLUDES_BLE_SERVER/CLIENT` are ignored, and both machines are modelled.
- Handles are unbounded naturals, since they are only copied, never computed. The global `htm_temperature_flt` is folded into `encode`.
- `get_ble_data_ptr` is out. Each machine receives the `BleData` object as a parameter. Nothing in this core changes `connection_open`, `ok_to_send_htm_indications` or the handles reported by the stack.
