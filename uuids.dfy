/** The GATT UUIDs the discovery machine searches for, stored as the stack
    expects them: least significant byte first. */
module Uuids {

  /** Health Thermometer service, 16-bit UUID 0x1809 assigned by the Bluetooth SIG. */
  const THERMO_SERVICE: seq<bv8> := [0x09, 0x18]
  /** Temperature Measurement characteristic, 16-bit UUID 0x2A1C. */
  const THERMO_CHAR: seq<bv8> := [0x1c, 0x2a]

  /** Custom button service 00000001-38c8-433e-87ec-652a2d136289, reversed. */
  const BUTTON_SERVICE: seq<bv8> :=
    [0x89, 0x62, 0x13, 0x2d, 0x2a, 0x65, 0xec, 0x87, 0x3e, 0x43, 0xc8, 0x38, 0x01, 0x00, 0x00, 0x00]
  /** Custom button characteristic 00000002-38c8-433e-87ec-652a2d136289, reversed. */
  const BUTTON_CHAR: seq<bv8> :=
    [0x89, 0x62, 0x13, 0x2d, 0x2a, 0x65, 0xec, 0x87, 0x3e, 0x43, 0xc8, 0x38, 0x02, 0x00, 0x00, 0x00]

  /** The two custom UUIDs as written in their text form, most significant byte first. */
  const BUTTON_SERVICE_TEXT_ORDER: seq<bv8> :=
    [0x00, 0x00, 0x00, 0x01, 0x38, 0xc8, 0x43, 0x3e, 0x87, 0xec, 0x65, 0x2a, 0x2d, 0x13, 0x62, 0x89]
  const BUTTON_CHAR_TEXT_ORDER: seq<bv8> :=
    [0x00, 0x00, 0x00, 0x02, 0x38, 0xc8, 0x43, 0x3e, 0x87, 0xec, 0x65, 0x2a, 0x2d, 0x13, 0x62, 0x89]

  /** The two bytes of a 16-bit UUID, low byte first. */
  function LittleEndian16(v: bv16): (r: seq<bv8>)
    ensures |r| == 2
    ensures FromLittleEndian16(r) == v
  {
    [(v & 0xFF) as bv8, (v >> 8) as bv8]
  }

  /** The 16-bit value of two bytes stored low byte first. */
  function FromLittleEndian16(r: seq<bv8>): bv16
    requires |r| == 2
  {
    (r[0] as bv16) | ((r[1] as bv16) << 8)
  }

  /** Decoding and then encoding two bytes gives them back. */
  lemma LittleEndian16RoundTrip(r: seq<bv8>)
    requires |r| == 2
    ensures LittleEndian16(FromLittleEndian16(r)) == r
  {
    BytesRoundTrip(r[0], r[1]);
  }

  lemma BytesRoundTrip(lo: bv8, hi: bv8)
    ensures var v := (lo as bv16) | ((hi as bv16) << 8);
            (v & 0xFF) as bv8 == lo && (v >> 8) as bv8 == hi
  {
  }

  /** A sequence in the opposite order. */
  function Reverse<T>(s: seq<T>): (r: seq<T>)
    ensures |r| == |s|
    ensures forall i :: 0 <= i < |s| ==> r[i] == s[|s| - 1 - i]
  {
    if s == [] then [] else Reverse(s[1..]) + [s[0]]
  }

  /** Reversing twice gives the sequence back. */
  lemma ReverseInvolution<T>(s: seq<T>)
    ensures Reverse(Reverse(s)) == s
  {
    var r := Reverse(Reverse(s));
    assert forall i :: 0 <= i < |s| ==> r[i] == s[i];
  }

  /** The 16-bit tables are the little-endian forms of the assigned numbers. */
  lemma ThermoUuidsAreAssignedNumbers()
    ensures THERMO_SERVICE == LittleEndian16(0x1809)
    ensures THERMO_CHAR == LittleEndian16(0x2A1C)
  {
  }

  /** The button service table is its text-order UUID, reversed. */
  lemma ButtonServiceIsReversedText()
    ensures BUTTON_SERVICE == Reverse(BUTTON_SERVICE_TEXT_ORDER)
  {
    forall i | 0 <= i < 16 ensures BUTTON_SERVICE[i] == BUTTON_SERVICE_TEXT_ORDER[15 - i] {
      if i < 4 {} else if i < 8 {} else if i < 12 {} else {}
    }
    ReversedTables(BUTTON_SERVICE, BUTTON_SERVICE_TEXT_ORDER);
  }

  /** The button characteristic table is its text-order UUID, reversed. */
  lemma ButtonCharIsReversedText()
    ensures BUTTON_CHAR == Reverse(BUTTON_CHAR_TEXT_ORDER)
  {
    forall i | 0 <= i < 16 ensures BUTTON_CHAR[i] == BUTTON_CHAR_TEXT_ORDER[15 - i] {
      if i < 4 {} else if i < 8 {} else if i < 12 {} else {}
    }
    ReversedTables(BUTTON_CHAR, BUTTON_CHAR_TEXT_ORDER);
  }

  /** Two sequences that mirror each other element by element are reverses. */
  lemma ReversedTables(a: seq<bv8>, b: seq<bv8>)
    requires |a| == |b|
    requires forall i :: 0 <= i < |a| ==> a[i] == b[|b| - 1 - i]
    ensures a == Reverse(b)
  {
  }

  /** The button service and characteristic share a base UUID: they differ
      only in the low byte of the first group, which is byte 12 once reversed. */
  lemma ButtonUuidsShareBase()
    ensures |BUTTON_SERVICE| == |BUTTON_CHAR| == 16
    ensures forall i :: 0 <= i < 16 && i != 12 ==> BUTTON_SERVICE[i] == BUTTON_CHAR[i]
    ensures BUTTON_SERVICE[12] == 0x01 && BUTTON_CHAR[12] == 0x02
  {
  }
}
