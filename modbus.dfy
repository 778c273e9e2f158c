/**
 * The Modbus client wrappers (src/bridge/modbus.go, service/modbus.go) and
 * the older float readers (service/reader.go, device/reader.go). The
 * link-layer client is a recorder of the requests it is handed; what the
 * device answers is a parameter of each call.
 */
module Modbus {
  import opened Basics
  import opened Enums
  import opened Model

  /** The link-layer operations the wrappers select from. */
  datatype Function =
    | ReadCoils
    | ReadDiscreteInputs
    | ReadInputRegisters
    | ReadHoldingRegisters
    | WriteSingleCoil
    | WriteSingleRegister

  /** One request: the operation, the slave, the address and the quantity (reads) or value (writes). */
  datatype Transaction = Transaction(code: Function, slaveId: u8, address: u16, operand: u16)

  /** The device's answer to one request: the response bytes, or a link-layer error. */
  datatype Reply = Payload(bytes: seq<byte>) | Fault(code: int)

  /** The link-layer client, reduced to the log of requests sent through it. */
  class Bus {
    var log: seq<Transaction>

    constructor ()
      ensures log == []
    {
      log := [];
    }

    /** Send one request; the device answers `reply`. */
    method Send(t: Transaction, reply: Reply) returns (answer: Reply)
      modifies this
      ensures log == old(log) + [t]
      ensures answer == reply
    {
      log := log + [t];
      answer := reply;
    }
  }

  // ---------------------------------------------------------------------------
  // Function selection and write normalisation
  // ---------------------------------------------------------------------------

  /** getReaderFunction: coils, discrete inputs and input registers by type; holding registers for every other type. */
  function ReaderFunction(t: RegType): (f: Function)
    ensures f == ReadCoils <==> t == COIL
    ensures f == ReadDiscreteInputs <==> t == DISCRETE
    ensures f == ReadInputRegisters <==> t == INPUT
    ensures f == ReadHoldingRegisters <==> t !in {COIL, DISCRETE, INPUT}
  {
    if t == COIL then ReadCoils
    else if t == DISCRETE then ReadDiscreteInputs
    else if t == INPUT then ReadInputRegisters
    else ReadHoldingRegisters
  }

  /** getWriterFunction: single coil or single register; None where the source panics. */
  function WriterFunction(t: RegType): (f: Option<Function>)
    ensures f.Some? <==> t == COIL || t == HOLDING
    ensures f == Some(WriteSingleCoil) <==> t == COIL
    ensures f == Some(WriteSingleRegister) <==> t == HOLDING
  {
    if t == COIL then Some(WriteSingleCoil)
    else if t == HOLDING then Some(WriteSingleRegister)
    else None
  }

  /** The value Write puts on the bus: a coil is switched on by 0xFF00, whatever non-zero value was asked for. */
  function CoilNormalized(t: RegType, value: u16): (w: u16)
    ensures t == COIL ==> (w == 0 <==> value == 0) && (value != 0 ==> w == 0xFF00) && w in {0, 0xFF00}
    ensures t != COIL ==> w == value
  {
    if t == COIL && value > 0 then 0xFF00 else value
  }

  /** Normalising twice changes nothing: 0xFF00 is itself a non-zero coil value. */
  lemma CoilNormalizedIdempotent(t: RegType, value: u16)
    ensures CoilNormalized(t, CoilNormalized(t, value)) == CoilNormalized(t, value)
  {
  }

  /** The request Write sends for `register`; None where the source panics. */
  function WriteRequest(register: Register, value: u16): (t: Option<Transaction>)
    requires register.device.Some?
    ensures t.Some? <==> register.regType == COIL || register.regType == HOLDING
    ensures t.Some? ==> (Some(t.value.code) == WriterFunction(register.regType)
      && t.value.slaveId == register.device.value.slaveId
      && t.value.address == register.address
      && t.value.operand == CoilNormalized(register.regType, value))
  {
    match WriterFunction(register.regType)
    case None => None
    case Some(f) => Some(Transaction(f, register.device.value.slaveId, register.address, CoilNormalized(register.regType, value)))
  }

  /** The request Read sends for `register`: its slave id, address and size. */
  function ReadRequest(register: Register): (t: Transaction)
    requires register.device.Some?
    ensures t.code == ReaderFunction(register.regType)
    ensures t.slaveId == register.device.value.slaveId && t.address == register.address && t.operand == register.size
  {
    Transaction(ReaderFunction(register.regType), register.device.value.slaveId, register.address, register.size)
  }

  // ---------------------------------------------------------------------------
  // Payload decoding
  // ---------------------------------------------------------------------------

  /** binary.BigEndian.Uint16 of b[i], b[i+1]. */
  function Word(b: seq<byte>, i: nat): (w: int)
    requires i + 1 < |b|
    ensures 0 <= w < 0x1_0000
  {
    b[i] as int * 0x100 + b[i + 1]
  }

  /** The canonical big-endian reading of a byte string (reference definition). */
  function BigEndian(b: seq<byte>): (v: nat) {
    if b == [] then 0 else BigEndian(b[..|b| - 1]) * 0x100 + b[|b| - 1] as int
  }

  /**
   * The raw value Read decodes from a payload (src/bridge/modbus.go and
   * service/modbus.go alike): one byte zero-extended, two bytes big-endian,
   * four bytes as the first word shifted by 8 plus the second word. Every
   * other length is an error. The result always fits the uint32 it is
   * stored in, so no wrap-around is involved.
   */
  function DecodePayload(b: seq<byte>): (r: Result<int>)
    ensures r.Ok? <==> |b| == 1 || |b| == 2 || |b| == 4
    ensures |b| == 0 ==> r == Err(NoValue)
    ensures |b| !in {0, 1, 2, 4} ==> r == Err(TooLargeChunk)
    ensures |b| == 1 || |b| == 2 ==> r == Ok(BigEndian(b))
    ensures |b| == 4 ==> r == Ok(Word(b, 0) * 0x100 + Word(b, 2))
    ensures r.Ok? ==> 0 <= r.value <= 16842495
  {
    if |b| == 0 then Err(NoValue)
    else if |b| == 1 then
      assert b[..0] == [];
      Ok(b[0])
    else if |b| == 2 then
      BigEndianTwo(b);
      Ok(Word(b, 0))
    else if |b| == 4 then Ok(Word(b, 0) * 0x100 + Word(b, 2))
    else Err(TooLargeChunk)
  }

  /** The canonical reading of two bytes is their big-endian word. */
  lemma BigEndianTwo(b: seq<byte>)
    requires |b| == 2
    ensures BigEndian(b) == Word(b, 0)
  {
    var p := b[..1];
    assert p[..0] == [] && p[0] == b[0];
    assert BigEndian(p) == b[0];
    assert BigEndian(b) == BigEndian(p) * 0x100 + b[1] as int;
  }

  /** The canonical reading of four bytes: the first word times 65536 plus the second. */
  lemma BigEndianFour(b: seq<byte>)
    requires |b| == 4
    ensures BigEndian(b) == Word(b, 0) * 0x1_0000 + Word(b, 2)
  {
    var p3, p2 := b[..3], b[..2];
    assert p3[..2] == p2 && p3[2] == b[2];
    BigEndianTwo(p2);
    assert Word(p2, 0) == Word(b, 0);
  }

  /**
   * The four-byte decode agrees with the canonical big-endian value exactly
   * when the first word is zero: otherwise the first word is shifted by 8
   * bits instead of 16.
   */
  lemma FourByteDecode(b: seq<byte>)
    requires |b| == 4
    ensures DecodePayload(b) == Ok(BigEndian(b)) <==> b[0] == 0 && b[1] == 0
  {
    BigEndianFour(b);
    var h := Word(b, 0);
    assert h * 0x1_0000 - h * 0x100 == h * 0xFF00;
    assert h == 0 <==> b[0] == 0 && b[1] == 0;
  }

  /** Two different four-byte payloads decode to the same raw value 256. */
  lemma FourByteCollision()
    ensures DecodePayload([0, 1, 0, 0]) == DecodePayload([0, 0, 1, 0]) == Ok(256)
  {
  }

  /**
   * The decode of the older float readers (service/reader.go,
   * device/reader.go): one byte zero-extended; two or more bytes give the
   * first big-endian word and the rest is ignored.
   */
  function LegacyDecode(b: seq<byte>): (r: Result<int>)
    ensures r.Err? <==> b == []
    ensures r.Err? ==> r.error == NoValue
    ensures |b| >= 1 ==> r == Ok(BigEndian(b[..if |b| == 1 then 1 else 2]))
    ensures r.Ok? ==> 0 <= r.value < 0x1_0000
  {
    if |b| == 0 then Err(NoValue)
    else if |b| == 1 then
      assert b[..1] == b && b[..0] == [];
      Ok(b[0])
    else
      var p := b[..2];
      BigEndianTwo(p);
      assert Word(p, 0) == Word(b, 0);
      Ok(Word(b, 0))
  }

  /** The older readers ignore everything after the first word. */
  lemma LegacyIgnoresTail(b: seq<byte>, tail: seq<byte>)
    requires |b| >= 2
    ensures LegacyDecode(b + tail) == LegacyDecode(b)
  {
    assert (b + tail)[0] == b[0] && (b + tail)[1] == b[1];
  }

  /**
   * Where the generations agree: on at most two bytes, and on four zero
   * bytes. Every other payload decodes differently (or fails in one only).
   */
  lemma LegacyAgreement(b: seq<byte>)
    ensures DecodePayload(b) == LegacyDecode(b) <==> |b| <= 2 || b == [0, 0, 0, 0]
  {
    if |b| == 4 {
      var h, l := Word(b, 0), Word(b, 2);
      assert DecodePayload(b) == LegacyDecode(b) <==> h * 0x100 + l == h;
      assert h * 0x100 + l == h <==> h == 0 && l == 0;
      if h == 0 && l == 0 {
        assert b[0] == 0 && b[1] == 0 && b[2] == 0 && b[3] == 0;
        assert b == [0, 0, 0, 0];
      }
    }
  }

  // ---------------------------------------------------------------------------
  // Read results
  // ---------------------------------------------------------------------------

  /** Which wrapper: the current bridge one, or the older service one. */
  datatype Generation = Bridge | Service

  /** (raw, value, err) of Read; `value` is None where the source returns NaN. */
  datatype ReadResult = ReadResult(raw: int, value: Option<real>, err: Option<Error>)

  /** How each generation reports a link-layer error: the bridge re-wraps it and loses its code. */
  function BusError(g: Generation, code: int): (e: Error)
    ensures g == Service ==> e == BusFailure(code)
    ensures g == Bridge ==> e == OpaqueBusFailure
  {
    if g == Bridge then OpaqueBusFailure else BusFailure(code)
  }

  /**
   * What Read returns for a reply. `scale` stands for the factor expression
   * evaluated by goval: None when it yields no number.
   */
  function ReadOutcome(g: Generation, register: Register, reply: Reply, scale: (Register, int) -> Option<real>): (res: ReadResult)
    ensures reply.Fault? ==> res == ReadResult(0, Some(0.0), Some(BusError(g, reply.code)))
    ensures res.err.None? ==> res.value.Some?
    ensures reply.Payload? && reply.bytes == [] ==> res == ReadResult(0, Some(0.0), Some(NoValue))
    ensures reply.Payload? && |reply.bytes| !in {0, 1, 2, 4} ==> res == ReadResult(0, None, Some(TooLargeChunk))
    ensures reply.Payload? && DecodePayload(reply.bytes).Ok? ==>
      res.raw == DecodePayload(reply.bytes).value
      && res.value == scale(register, res.raw)
      && (res.err.None? <==> res.value.Some?)
      && (res.err.Some? ==> res.err.value == IncompatibleValue)
  {
    match reply
    case Fault(code) => ReadResult(0, Some(0.0), Some(BusError(g, code)))
    case Payload(bytes) =>
      match DecodePayload(bytes)
      case Err(e) => ReadResult(0, if e == NoValue then Some(0.0) else None, Some(e))
      case Ok(raw) =>
        match scale(register, raw)
        case Some(v) => ReadResult(raw, Some(v), None)
        case None => ReadResult(raw, None, Some(IncompatibleValue))
  }

  /** The two generations' Read differ only in how a link-layer error is reported. */
  lemma GenerationsAgreeOnPayloads(register: Register, bytes: seq<byte>, scale: (Register, int) -> Option<real>)
    ensures ReadOutcome(Bridge, register, Payload(bytes), scale) == ReadOutcome(Service, register, Payload(bytes), scale)
  {
  }

  // ---------------------------------------------------------------------------
  // The client
  // ---------------------------------------------------------------------------

  /** modbusClient: a configuration to resolve references against, and the bus. */
  class ModbusClient {
    const generation: Generation
    const config: Config
    const bus: Bus

    constructor (generation: Generation, config: Config, bus: Bus)
      ensures this.generation == generation && this.config == config && this.bus == bus
    {
      this.generation := generation;
      this.config := config;
      this.bus := bus;
    }

    /** Read: one request chosen by the register's type, then decode and scale the answer. */
    method Read(register: Register, reply: Reply, scale: (Register, int) -> Option<real>) returns (res: ReadResult)
      requires register.device.Some?
      modifies bus
      ensures bus.log == old(bus.log) + [ReadRequest(register)]
      ensures res == ReadOutcome(generation, register, reply, scale)
    {
      var answer := bus.Send(ReadRequest(register), reply);
      match answer
      case Fault(code) =>
        return ReadResult(0, Some(0.0), Some(BusError(generation, code)));
      case Payload(bytes) =>
        var decoded := DecodePayload(bytes);
        if decoded.Err? {
          if decoded.error == NoValue {
            return ReadResult(0, Some(0.0), Some(NoValue));
          }
          return ReadResult(0, None, Some(decoded.error));
        }
        var raw := decoded.value;
        var v := scale(register, raw);
        if v.None? {
          return ReadResult(raw, None, Some(IncompatibleValue));
        }
        return ReadResult(raw, v, None);
    }

    /** ReadRef: resolve the reference, then Read; a failed resolution sends nothing. */
    method ReadRef(reference: string, reply: Reply, scale: (Register, int) -> Option<real>) returns (res: ReadResult, title: string)
      requires Attached(config)
      modifies bus
      ensures FindRegister(config, reference).Err? ==>
        res == ReadResult(0, Some(0.0), Some(FindRegister(config, reference).error)) && title == "" && bus.log == old(bus.log)
      ensures FindRegister(config, reference).Ok? ==>
        var register := FindRegister(config, reference).value;
        register.device.Some?
        && bus.log == old(bus.log) + [ReadRequest(register)]
        && res == ReadOutcome(generation, register, reply, scale)
        && title == register.title
    {
      var found := FindRegister(config, reference);
      if found.Err? {
        return ReadResult(0, Some(0.0), Some(found.error)), "";
      }
      var register := found.value;
      FoundIsAttached(config, reference);
      res := Read(register, reply, scale);
      title := register.title;
    }

    /**
     * Write: a coil or holding register gets one request carrying the
     * normalised value, whose link-layer error is returned unchanged; any
     * other type is the source's panic, reported as InvalidWriteType with
     * nothing sent.
     */
    method Write(register: Register, value: u16, reply: Reply) returns (err: Option<Error>)
      requires register.device.Some?
      modifies bus
      ensures WriteRequest(register, value).None? ==> err == Some(InvalidWriteType) && bus.log == old(bus.log)
      ensures WriteRequest(register, value).Some? ==>
        bus.log == old(bus.log) + [WriteRequest(register, value).value]
        && err == (if reply.Fault? then Some(BusFailure(reply.code)) else None)
    {
      var f := WriterFunction(register.regType);
      if f.None? {
        return Some(InvalidWriteType);
      }
      var v := value;
      if register.regType == COIL && v > 0 {
        v := 0xFF00;
      }
      var answer := bus.Send(Transaction(f.value, register.device.value.slaveId, register.address, v), reply);
      if answer.Fault? {
        return Some(BusFailure(answer.code));
      }
      return None;
    }

    /** WriteRef: resolve, refuse a read-only register before any request, then Write. */
    method WriteRef(reference: string, value: u16, reply: Reply) returns (err: Option<Error>)
      requires Attached(config)
      modifies bus
      ensures FindRegister(config, reference).Err? ==> err == Some(FindRegister(config, reference).error) && bus.log == old(bus.log)
      ensures FindRegister(config, reference).Ok? && FindRegister(config, reference).value.mode == RO ==>
        err == Some(ReadOnlyRegister) && bus.log == old(bus.log)
      ensures FindRegister(config, reference).Ok? && FindRegister(config, reference).value.mode != RO ==>
        var register := FindRegister(config, reference).value;
        register.device.Some?
        && (WriteRequest(register, value).None? ==> err == Some(InvalidWriteType) && bus.log == old(bus.log))
        && (WriteRequest(register, value).Some? ==>
          bus.log == old(bus.log) + [WriteRequest(register, value).value]
          && err == (if reply.Fault? then Some(BusFailure(reply.code)) else None))
    {
      var found := FindRegister(config, reference);
      if found.Err? {
        return Some(found.error);
      }
      var register := found.value;
      if register.mode == RO {
        return Some(ReadOnlyRegister);
      }
      FoundIsAttached(config, reference);
      err := Write(register, value, reply);
    }
  }

  // ---------------------------------------------------------------------------
  // The older float readers
  // ---------------------------------------------------------------------------

  /**
   * ReadFloatRegister (service/reader.go, device/reader.go): one request
   * chosen like Read; a link-layer error is returned unchanged; the first
   * word of the answer is scaled. `value` is None where the source returns NaN.
   */
  method ReadFloatRegister(bus: Bus, register: Register, reply: Reply, scale: (Register, int) -> Option<real>)
    returns (value: Option<real>, err: Option<Error>)
    requires register.device.Some?
    modifies bus
    ensures bus.log == old(bus.log) + [ReadRequest(register)]
    ensures reply.Fault? ==> value == Some(0.0) && err == Some(BusFailure(reply.code))
    ensures reply.Payload? && reply.bytes == [] ==> value == Some(0.0) && err == Some(NoValue)
    ensures reply.Payload? && reply.bytes != [] ==>
      value == scale(register, LegacyDecode(reply.bytes).value)
      && (err.None? <==> value.Some?)
      && (err.Some? ==> err.value == IncompatibleValue)
  {
    var answer := bus.Send(ReadRequest(register), reply);
    if answer.Fault? {
      return Some(0.0), Some(BusFailure(answer.code));
    }
    var decoded := LegacyDecode(answer.bytes);
    if decoded.Err? {
      return Some(0.0), Some(NoValue);
    }
    value := scale(register, decoded.value);
    err := if value.None? then Some(IncompatibleValue) else None;
  }
}
