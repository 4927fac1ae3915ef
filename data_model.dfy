/** The values sampled from a controller and the keys they are stored under. */
module DataModel {
  type Byte = bv8
  type Bytes = seq<Byte>

  /**
   * A decoded process value. The byte decoders of the field-bus library are
   * not part of this model, so a value is kept opaque: a 32-bit float is
   * carried by its bit pattern, a custom decoder's result by its text.
   */
  datatype Value = Real(bits: bv32) | Int(i: int) | Bool(b: bool) | Custom(text: string)

  /** One history entry: the cycle start time (seconds) and the value. */
  datatype Sample = Sample(timestamp: real, value: Value)

  /**
   * The store key `"<device>.<signal>"`. The key splits back into its
   * device and signal parts, so one device's signals never share a key.
   */
  function SignalKey(device: string, signal: string): (key: string)
    ensures |key| == |device| + 1 + |signal|
    ensures key[..|device|] == device && key[|device|] == '.'
    ensures key[|device| + 1..] == signal
  {
    device + "." + signal
  }
}
