/**
 * The custom JSON decoders of Register and Device (src/model/register.go,
 * src/model/device.go; the same code in src/model/model.go and, for
 * Register, model/model.go). The parsed JSON object is given as a record
 * of optional fields, each holding the text fmt.Sprint gives for the
 * field's value; `atoi` stands for strconv.Atoi with its error dropped
 * (0 for text that is not a decimal integer).
 */
module Decoding {
  import opened Basics
  import opened Enums
  import opened Model

  datatype RegisterObject = RegisterObject(
    typ: Option<string>,
    mode: Option<string>,
    address: Option<string>,
    title: Option<string>,
    size: Option<string>)

  datatype DeviceObject = DeviceObject(
    title: Option<string>,
    alias: Option<string>,
    slaveId: Option<string>,
    registers: Option<seq<RegisterObject>>)

  /** The mode a register gets when its object names a type but no mode. */
  function ModeForType(t: RegType): (m: RegMode)
    ensures m == RW <==> t == COIL || t == HOLDING
    ensures m == RO <==> !(t == COIL || t == HOLDING)
  {
    if t == COIL || t == HOLDING then RW else RO
  }

  /** The register Register.UnmarshalJSON produces from `obj`. */
  function DecodedRegister(obj: RegisterObject, atoi: string -> int): (r: Register)
    // a present, known mode is used whatever the type; an unknown one gives 0
    ensures obj.mode.Some? ==> r.mode == ParseRegMode(obj.mode.value).value
    // no mode: coil and holding are read-write, everything else read-only
    ensures obj.mode.None? && obj.typ.Some? ==> r.mode == ModeForType(r.regType)
    ensures obj.mode.None? && obj.typ.None? ==> r.mode == 0
    ensures r.regType == (if obj.typ.Some? then ParseRegType(obj.typ.value).value else 0)
    ensures obj.size.None? ==> r.size == 1
    ensures obj.size.Some? ==> r.size == ToU16(atoi(obj.size.value))
    ensures obj.address.None? ==> r.address == 0
    ensures obj.address.Some? ==> r.address == ToU16(atoi(obj.address.value))
    ensures r.title == (if obj.title.Some? then obj.title.value else "")
    ensures r.device.None?
  {
    var t: RegType := if obj.typ.Some? then ParseRegType(obj.typ.value).value else 0;
    Register(
      None,
      t,
      if obj.mode.Some? then ParseRegMode(obj.mode.value).value
      else if obj.typ.Some? then ModeForType(t)
      else 0,
      if obj.title.Some? then obj.title.value else "",
      if obj.address.Some? then ToU16(atoi(obj.address.value)) else 0,
      if obj.size.Some? then ToU16(atoi(obj.size.value)) else 1)
  }

  /** Register.UnmarshalJSON: fills a zero register field by field; it never fails. */
  method DecodeRegister(obj: RegisterObject, atoi: string -> int) returns (r: Register)
    ensures r == DecodedRegister(obj, atoi)
  {
    var register := Register(None, 0, 0, "", 0, 0);
    if obj.typ.Some? {
      register := register.(regType := ParseRegType(obj.typ.value).value);
    }
    if obj.mode.Some? {
      register := register.(mode := ParseRegMode(obj.mode.value).value);
    } else if obj.typ.Some? {
      if register.regType == COIL || register.regType == HOLDING {
        register := register.(mode := RW);
      } else {
        register := register.(mode := RO);
      }
    }
    if obj.address.Some? {
      var v := atoi(obj.address.value);
      register := register.(address := ToU16(v));
    }
    if obj.title.Some? {
      register := register.(title := obj.title.value);
    }
    if obj.size.Some? {
      var v := atoi(obj.size.value);
      register := register.(size := ToU16(v));
    } else {
      register := register.(size := 1);
    }
    r := register;
  }

  /** The register decoding cases of the unit tests, in both model generations. */
  method RegisterDecodingCases(atoi: string -> int) returns (a: Register, b: Register, c: Register)
    ensures a.mode == RW && a.size == 1
    ensures b.regType == COIL && b.mode == RW && b.size == 1
    ensures c.regType == DISCRETE && c.mode == RO && c.size == 1
  {
    a := DecodeRegister(RegisterObject(None, Some("rw"), None, None, None), atoi);
    b := DecodeRegister(RegisterObject(Some("coil"), None, None, None, None), atoi);
    c := DecodeRegister(RegisterObject(Some("discrete"), None, None, None, None), atoi);
    RwParses();
    CoilParses();
    DiscreteParses();
  }

  /** A decoded register can only be write-only when its object says so. */
  lemma WriteOnlyOnlyWhenAsked(obj: RegisterObject, atoi: string -> int)
    ensures DecodedRegister(obj, atoi).mode == WO ==> obj.mode.Some? && Text.Normalize(obj.mode.value) == "wo"
    ensures obj.mode.None? && obj.typ.Some? ==> DecodedRegister(obj, atoi).mode in {RO, RW}
  {
  }

  /** The device Device.UnmarshalJSON produces from `obj`. */
  function DecodedDevice(obj: DeviceObject, atoi: string -> int): (d: Device)
    ensures d.title == (if obj.title.Some? then obj.title.value else "")
    // an absent alias defaults to the title; a present one is kept as given
    ensures obj.alias.None? ==> d.alias == d.title
    ensures obj.alias.Some? ==> d.alias == obj.alias.value
    ensures obj.slaveId.None? ==> d.slaveId == 0
    ensures obj.slaveId.Some? ==> d.slaveId == ToU8(atoi(obj.slaveId.value))
    ensures obj.registers.None? ==> d.registers == []
    ensures obj.registers.Some? ==> (|d.registers| == |obj.registers.value|
      && forall i :: 0 <= i < |d.registers| ==> d.registers[i] == DecodedRegister(obj.registers.value[i], atoi))
    // the channel back-reference is left for the loader to wire
    ensures d.channel.None?
  {
    var title := if obj.title.Some? then obj.title.value else "";
    Device(
      None,
      if obj.slaveId.Some? then ToU8(atoi(obj.slaveId.value)) else 0,
      title,
      if obj.alias.Some? then obj.alias.value else title,
      if obj.registers.Some? then MapRun(RegisterDecoder(atoi), obj.registers.value) else [])
  }

  /** `f` applied to each element of `s`, in order. */
  function MapRun<A, B>(f: A -> B, s: seq<A>): (r: seq<B>)
    ensures |r| == |s|
    ensures forall i :: 0 <= i < |s| ==> r[i] == f(s[i])
  {
    if s == [] then [] else MapRun(f, s[..|s| - 1]) + [f(s[|s| - 1])]
  }

  /** The decoder of one register object, with `atoi` fixed. */
  function RegisterDecoder(atoi: string -> int): (decode: RegisterObject -> Register)
    ensures forall o :: decode(o) == DecodedRegister(o, atoi)
  {
    o => DecodedRegister(o, atoi)
  }

  /** Device.UnmarshalJSON: title, then alias, then slave id, then the registers one by one. */
  method DecodeDevice(obj: DeviceObject, atoi: string -> int) returns (d: Device)
    ensures d == DecodedDevice(obj, atoi)
  {
    var device := Device(None, 0, "", "", []);
    if obj.title.Some? {
      device := device.(title := obj.title.value);
    }
    if obj.alias.Some? {
      device := device.(alias := obj.alias.value);
    } else {
      device := device.(alias := device.title);
    }
    if obj.slaveId.Some? {
      var v := atoi(obj.slaveId.value);
      device := device.(slaveId := ToU8(v));
    }
    if obj.registers.Some? {
      var registers := DecodeRegisters(obj.registers.value, atoi);
      device := device.(registers := registers);
    }
    d := device;
  }

  /** json.Unmarshal of the register array: each element through Register.UnmarshalJSON, in order. */
  method DecodeRegisters(objs: seq<RegisterObject>, atoi: string -> int) returns (registers: seq<Register>)
    ensures registers == MapRun(RegisterDecoder(atoi), objs)
  {
    registers := [];
    var i := 0;
    while i < |objs|
      invariant 0 <= i <= |objs|
      invariant registers == MapRun(RegisterDecoder(atoi), objs[..i])
    {
      var r := DecodeRegister(objs[i], atoi);
      assert objs[..i + 1][..i] == objs[..i];
      registers := registers + [r];
      i := i + 1;
    }
    assert objs[..i] == objs;
  }

  /** A device without alias is aliased by its title; a given alias is kept even when it differs. */
  method DeviceAliasCases(atoi: string -> int) returns (a: Device, b: Device)
    ensures a.alias == "boiler" && a.title == "boiler"
    ensures b.alias == "Boiler room" && b.title == "boiler"
  {
    a := DecodeDevice(DeviceObject(Some("boiler"), None, None, None), atoi);
    b := DecodeDevice(DeviceObject(Some("boiler"), Some("Boiler room"), None, None), atoi);
  }
}
