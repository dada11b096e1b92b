/**
 * One row of the logic-analyser export (`Time [s], Packet ID, MOSI, MISO`),
 * already split into its fields, and the numeric test applied to its
 * packet-id field.
 */
module Capture {
  import opened Bytes

  /** A capture row; the two data bytes are already converted from hex. */
  datatype Row = Row(time: string, id: string, mosi: Byte, miso: Byte)

  /** Python's `str.isdigit()`: non-empty and every character a decimal digit. */
  predicate IsDigits(s: string)
  {
    |s| > 0 && forall i :: 0 <= i < |s| ==> '0' <= s[i] <= '9'
  }

  /** Python's `int(s)` on a string of decimal digits. */
  function DecimalValue(s: string): nat
    requires forall i :: 0 <= i < |s| ==> '0' <= s[i] <= '9'
  {
    if |s| == 0 then 0
    else DecimalValue(s[..|s| - 1]) * 10 + ((s[|s| - 1] as int) - ('0' as int))
  }
}
