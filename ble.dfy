/** What the two state machines of the scheduler see of the Bluetooth stack and
    of the firmware around them: the stack's event message, the shared BLE data
    struct, the external indication queue, and the log of calls into hardware
    drivers and the stack. */
module Ble {

  /** A stack event, reduced to the message ids the state machines test.
      An external signal carries the bits posted with sl_bt_external_signal. */
  datatype BtEvent =
    | SystemExternalSignal(extsignals: bv32)
    | ConnectionOpened
    | ConnectionClosed
    | GattProcedureCompleted
    | OtherEvent

  /** Connection, service and characteristic handles are copied, never computed. */
  type Handle = nat

  /** The GATT attributes written by this core (gattdb_temperature_measurement). */
  datatype Attribute = TemperatureMeasurement

  /** The display rows this core writes. */
  datatype DisplayRow = RowTempValue | RowConnection

  /** One call from the core into a driver or the stack, in the order made. */
  datatype Action =
    | Si7021TurnOn
    | Si7021TurnOff
    | TimerWaitUs(us: nat)
    | I2CWriteMeasureTempNoHold
    | I2CReadData
    | DisableI2CIrq
    | I2CGetData
    | WriteAttributeValue(attribute: Attribute, offset: nat, length: nat, value: seq<bv8>)
    | SendIndication(connection: Handle, attribute: Attribute, length: nat, value: seq<bv8>)
    | WriteQueue(attribute: Attribute, length: nat, value: seq<bv8>)
    | DisplaySet(row: DisplayRow)
    | DisplayClear(row: DisplayRow)
    | DiscoverPrimaryServicesByUuid(connection: Handle, uuid: seq<bv8>)
    | DiscoverCharacteristicsByUuid(connection: Handle, service: Handle, uuid: seq<bv8>)
    | SetCharacteristicIndication(connection: Handle, characteristic: Handle)

  /** The fields of ble_data_struct_t that the state machines read or write. */
  class BleData {
    var connectionOpen: bool
    var okToSendHtmIndications: bool
    var indicationInFlight: bool
    var connectionHandle: Handle
    var serviceHandle: Handle
    var characteristicHandle: Handle
    var serviceHandleHTM: Handle
    var characteristicHandleHTM: Handle
    var serviceHandleButton: Handle
    var characteristicHandleButton: Handle
    var isIndicationOnButton: bool
  }

  /** One pending indication in the external retry queue. */
  datatype QueueEntry = QueueEntry(attribute: Attribute, length: nat, value: seq<bv8>)

  /** The external indication retry queue, seen only through write_queue and
      get_queue_depth. */
  class IndicationQueue {
    var entries: seq<QueueEntry>

    constructor ()
      ensures entries == []
    {
      entries := [];
    }

    /** The number of indications waiting to be sent. */
    function Depth(): (d: nat)
      reads this
      ensures d == 0 <==> entries == []
    {
      |entries|
    }

    /** Appends one indication at the back of the queue. */
    method Write(attribute: Attribute, length: nat, value: seq<bv8>)
      modifies this
      ensures entries == old(entries) + [QueueEntry(attribute, length, value)]
      ensures Depth() == old(Depth()) + 1
    {
      entries := entries + [QueueEntry(attribute, length, value)];
    }
  }
}
