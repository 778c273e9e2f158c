/** Shared value types: fixed-width integers, Option/Result and the error taxonomy. */
module Basics {

  /** An octet of a bus payload. */
  type byte = x: int | 0 <= x < 0x100
  /** Go's uint8 (slave ids). */
  type u8 = x: int | 0 <= x < 0x100
  /** Go's uint16 (addresses, sizes, written words). */
  type u16 = x: int | 0 <= x < 0x1_0000

  /** Go's conversion `uint8(v)` of an int: keeps the low 8 bits (two's complement wrap). */
  function ToU8(v: int): (r: u8)
    ensures 0 <= v < 0x100 ==> r == v
    ensures (v - r) % 0x100 == 0
  {
    v % 0x100
  }

  /** Go's conversion `uint16(v)` of an int: keeps the low 16 bits (two's complement wrap). */
  function ToU16(v: int): (r: u16)
    ensures 0 <= v < 0x1_0000 ==> r == v
    ensures (v - r) % 0x1_0000 == 0
  {
    v % 0x1_0000
  }

  datatype Option<+T> = None | Some(value: T)

  /** The errors the core reports; each constructor stands for one family of Go error values. */
  datatype Error =
    | InvalidReference(reference: string)   // not exactly three ':'-separated segments
    | NoChannel(title: string)
    | NoDevice(title: string)
    | NoRegister(title: string)
    | NoProcessor(reference: string)        // Bridge routing found no channel processor
    | BusFailure(fault: int)                // link-layer error, passed through unchanged
    | OpaqueBusFailure                      // link-layer error re-wrapped, its code lost
    | NoValue                               // empty payload
    | TooLargeChunk                         // payload length other than 1, 2 or 4
    | IncompatibleValue                     // the scaling evaluator gave no number
    | ReadOnlyRegister                      // WriteRef on a register whose mode is RO
    | InvalidWriteType                      // write to a register that is neither coil nor holding (a panic in the source)
    | QueueFull
    | QueueEmpty
    | NotHexadecimal
    | UnknownName(name: string)             // an enum parser was given a name it does not know

  datatype Result<+T> = Ok(value: T) | Err(error: Error) {
    predicate IsFailure() {
      Err?
    }

    function PropagateFailure<U>(): Result<U>
      requires Err?
    {
      Err(error)
    }

    function Extract(): T
      requires Ok?
    {
      value
    }
  }
}
