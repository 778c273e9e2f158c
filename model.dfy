/**
 * The configuration tree (src/model): Config → Channel → Device → Register,
 * its defaults, and the resolution of a "channel:device:register"
 * reference. Go pointers become values; a back-reference (Register.Device,
 * Device.Channel) that the loader wires after decoding is an Option. The
 * loader sets Device.Channel only on the copy a register points to.
 */
module Model {
  import opened Basics
  import opened Text
  import opened Enums

  /** time.Duration is a count of nanoseconds. */
  const Millisecond: int := 1_000_000
  const Second: int := 1000 * Millisecond

  const DefaultMetricTTL: int := 30 * Second
  const DefaultCyclePollPause: int := 100 * Millisecond
  const DefaultRegisterPollPause: int := 10 * Millisecond

  /** What a register sees through its Device back-reference; `channel` is the title behind Device.Channel. */
  datatype DeviceRef = DeviceRef(channel: Option<string>, slaveId: u8, title: string, alias: string)

  datatype Register = Register(
    device: Option<DeviceRef>,
    regType: RegType,
    mode: RegMode,
    title: string,
    address: u16,
    size: u16)

  datatype Device = Device(
    channel: Option<string>,
    slaveId: u8,
    title: string,
    alias: string,
    registers: seq<Register>)
  {
    /** The back-reference a register of this device carries once wired. */
    function Ref(): DeviceRef {
      DeviceRef(channel, slaveId, title, alias)
    }
  }

  datatype Channel = Channel(
    mode: Mode,
    title: string,
    connection: string,
    cyclePause: Option<string>,
    registerPause: Option<string>,
    devices: seq<Device>)

  datatype Config = Config(
    ttl: Option<string>,
    prometheusExport: bool,
    channels: seq<Channel>)

  /**
   * The back-reference the start-up loop of src/main.go gives each register
   * of `d` in `c`: a copy of the device whose Channel points to a copy of
   * the channel. The configured device itself keeps a nil Channel.
   */
  function WiredRef(c: Channel, d: Device): (ref: DeviceRef)
    ensures ref.channel == Some(c.title)
    ensures ref.slaveId == d.slaveId && ref.title == d.title && ref.alias == d.alias
  {
    DeviceRef(Some(c.title), d.slaveId, d.title, d.alias)
  }

  /**
   * The configuration src/main.go builds: every register's Device points to
   * its device, and that device's Channel to the register's channel. Only
   * the registers' back-references are constrained.
   */
  predicate Wired(cfg: Config) {
    forall c, d, r :: c in cfg.channels && d in c.devices && r in d.registers ==>
      r.device == Some(WiredRef(c, d))
  }

  /**
   * Every register has some Device back-reference. Both start-up loops
   * (src/main.go and main.go, whose devices have no Channel at all)
   * establish this.
   */
  predicate Attached(cfg: Config) {
    forall c, d, r :: c in cfg.channels && d in c.devices && r in d.registers ==> r.device.Some?
  }

  /** The register loop of src/main.go:81-90 for one device of `c`. */
  function WireDevice(c: Channel, d: Device): (w: Device)
    ensures w.channel == d.channel && w.slaveId == d.slaveId && w.title == d.title && w.alias == d.alias
    ensures |w.registers| == |d.registers|
    ensures forall k :: 0 <= k < |d.registers| ==> w.registers[k] == d.registers[k].(device := Some(WiredRef(c, d)))
  {
    d.(registers := seq(|d.registers|, k requires 0 <= k < |d.registers| => d.registers[k].(device := Some(WiredRef(c, d)))))
  }

  /** The device loop of src/main.go:81-90 for one channel. */
  function WireChannel(c: Channel): (w: Channel)
    ensures w.title == c.title && |w.devices| == |c.devices|
    ensures forall j :: 0 <= j < |c.devices| ==> w.devices[j] == WireDevice(c, c.devices[j])
  {
    c.(devices := seq(|c.devices|, j requires 0 <= j < |c.devices| => WireDevice(c, c.devices[j])))
  }

  /** The start-up loop of src/main.go:81-90: set every register's Device back-reference. */
  function WireBackReferences(cfg: Config): (w: Config)
    ensures |w.channels| == |cfg.channels|
    ensures forall i :: 0 <= i < |cfg.channels| ==> w.channels[i] == WireChannel(cfg.channels[i])
  {
    cfg.(channels := seq(|cfg.channels|, i requires 0 <= i < |cfg.channels| => WireChannel(cfg.channels[i])))
  }

  /**
   * What the start-up loop builds is wired, though every configured device
   * keeps the Channel it was decoded with.
   */
  lemma WiringIsWired(cfg: Config)
    ensures Wired(WireBackReferences(cfg))
  {
    var w := WireBackReferences(cfg);
    forall c, d, r | c in w.channels && d in c.devices && r in d.registers
      ensures r.device == Some(WiredRef(c, d))
    {
      var i :| 0 <= i < |w.channels| && w.channels[i] == c;
      var j :| 0 <= j < |c.devices| && c.devices[j] == d;
      var k :| 0 <= k < |d.registers| && d.registers[k] == r;
      var c0 := cfg.channels[i];
      var d0 := c0.devices[j];
      assert d == WireDevice(c0, d0);
      assert r.device == Some(WiredRef(c0, d0));
    }
  }

  /** A wired configuration is attached. */
  lemma WiredAttached(cfg: Config)
    requires Wired(cfg)
    ensures Attached(cfg)
  {
  }

  // ---------------------------------------------------------------------------
  // Durations with defaults
  // ---------------------------------------------------------------------------

  /**
   * durationOrDefault: an absent setting, or one the duration parser
   * rejects, gives the default. `parse` stands for str2duration.ParseDuration.
   */
  function DurationOrDefault(input: Option<string>, default: int, parse: string -> Option<int>): (d: int)
    ensures input.None? ==> d == default
    ensures input.Some? && parse(input.value).None? ==> d == default
    ensures input.Some? && parse(input.value).Some? ==> d == parse(input.value).value
  {
    match input
    case None => default
    case Some(s) =>
      match parse(s)
      case None => default
      case Some(v) => v
  }

  /** Config.GetTTL: 30 s unless configured with a parsable duration. */
  function GetTTL(cfg: Config, parse: string -> Option<int>): (d: int)
    ensures cfg.ttl.None? ==> d == 30 * Second
    ensures cfg.ttl.Some? && parse(cfg.ttl.value).None? ==> d == 30 * Second
    ensures cfg.ttl.Some? && parse(cfg.ttl.value).Some? ==> d == parse(cfg.ttl.value).value
  {
    DurationOrDefault(cfg.ttl, DefaultMetricTTL, parse)
  }

  /** Channel.GetCyclePause: 100 ms unless configured with a parsable duration. */
  function GetCyclePause(c: Channel, parse: string -> Option<int>): (d: int)
    ensures c.cyclePause.None? ==> d == 100 * Millisecond
    ensures c.cyclePause.Some? && parse(c.cyclePause.value).None? ==> d == 100 * Millisecond
    ensures c.cyclePause.Some? && parse(c.cyclePause.value).Some? ==> d == parse(c.cyclePause.value).value
  {
    DurationOrDefault(c.cyclePause, DefaultCyclePollPause, parse)
  }

  /** Channel.GetRegisterPause: 10 ms unless configured with a parsable duration. */
  function GetRegisterPause(c: Channel, parse: string -> Option<int>): (d: int)
    ensures c.registerPause.None? ==> d == 10 * Millisecond
    ensures c.registerPause.Some? && parse(c.registerPause.value).None? ==> d == 10 * Millisecond
    ensures c.registerPause.Some? && parse(c.registerPause.value).Some? ==> d == parse(c.registerPause.value).value
  {
    DurationOrDefault(c.registerPause, DefaultRegisterPollPause, parse)
  }

  // ---------------------------------------------------------------------------
  // First-match searches by title
  // ---------------------------------------------------------------------------

  /** Position of the first element whose title is exactly `t`, or -1. */
  function FirstWithTitle<T>(s: seq<T>, titleOf: T -> string, t: string): (i: int)
    ensures -1 <= i < |s|
    ensures i >= 0 ==> titleOf(s[i]) == t
    ensures forall j :: 0 <= j < |s| && (i < 0 || j < i) ==> titleOf(s[j]) != t
  {
    if s == [] then -1
    else if titleOf(s[0]) == t then 0
    else
      var k := FirstWithTitle(s[1..], titleOf, t);
      if k < 0 then -1 else k + 1
  }

  function ChannelTitle(c: Channel): string { c.title }
  function DeviceTitle(d: Device): string { d.title }
  function RegisterTitle(r: Register): string { r.title }

  /** Config.FindChannelByTitle: the first channel, in declaration order, titled exactly `title`. */
  function FindChannelByTitle(cfg: Config, title: string): (r: Result<Channel>)
    ensures r.Ok? <==> exists i :: 0 <= i < |cfg.channels| && cfg.channels[i].title == title
    ensures r.Ok? ==> exists i :: (0 <= i < |cfg.channels| && cfg.channels[i] == r.value
      && r.value.title == title && forall j :: 0 <= j < i ==> cfg.channels[j].title != title)
    ensures r.Err? ==> r.error == NoChannel(title)
  {
    var i := FirstWithTitle(cfg.channels, ChannelTitle, title);
    if i < 0 then Err(NoChannel(title)) else Ok(cfg.channels[i])
  }

  /** Channel.findDeviceByTitle: the first device, in declaration order, titled exactly `title`. */
  function FindDeviceByTitle(c: Channel, title: string): (r: Result<Device>)
    ensures r.Ok? <==> exists i :: 0 <= i < |c.devices| && c.devices[i].title == title
    ensures r.Ok? ==> exists i :: (0 <= i < |c.devices| && c.devices[i] == r.value
      && r.value.title == title && forall j :: 0 <= j < i ==> c.devices[j].title != title)
    ensures r.Err? ==> r.error == NoDevice(title)
  {
    var i := FirstWithTitle(c.devices, DeviceTitle, title);
    if i < 0 then Err(NoDevice(title)) else Ok(c.devices[i])
  }

  /** Device.findRegisterByTitle: the first register, in declaration order, titled exactly `title`. */
  function FindRegisterByTitle(d: Device, title: string): (r: Result<Register>)
    ensures r.Ok? <==> exists i :: 0 <= i < |d.registers| && d.registers[i].title == title
    ensures r.Ok? ==> exists i :: (0 <= i < |d.registers| && d.registers[i] == r.value
      && r.value.title == title && forall j :: 0 <= j < i ==> d.registers[j].title != title)
    ensures r.Err? ==> r.error == NoRegister(title)
  {
    var i := FirstWithTitle(d.registers, RegisterTitle, title);
    if i < 0 then Err(NoRegister(title)) else Ok(d.registers[i])
  }

  // ---------------------------------------------------------------------------
  // Reference resolution
  // ---------------------------------------------------------------------------

  /** The lookup chain behind FindRegister, on already trimmed titles. */
  function Resolve(cfg: Config, channel: string, device: string, register: string): (r: Result<Register>)
    ensures r.Ok? ==> (r.value.title == register
      && exists c, d :: (c in cfg.channels && d in c.devices && r.value in d.registers
        && c.title == channel && d.title == device))
    ensures r.Err? ==> r.error in {NoChannel(channel), NoDevice(device), NoRegister(register)}
    ensures (forall c :: c in cfg.channels ==> c.title != channel) ==> r == Err(NoChannel(channel))
  {
    var c :- FindChannelByTitle(cfg, channel);
    var d :- FindDeviceByTitle(c, device);
    FindRegisterByTitle(d, register)
  }

  /**
   * Config.FindRegister: split on ':', demand exactly three segments, trim
   * each, then resolve channel, device and register by title.
   */
  function FindRegister(cfg: Config, reference: string): (r: Result<Register>)
    ensures |Split(reference, ":")| != 3 ==> r == Err(InvalidReference(reference))
    ensures r.Ok? ==> (|Split(reference, ":")| == 3
      && r.value.title == TrimSpace(Split(reference, ":")[2])
      && exists c, d :: (c in cfg.channels && d in c.devices && r.value in d.registers
        && c.title == TrimSpace(Split(reference, ":")[0])
        && d.title == TrimSpace(Split(reference, ":")[1])))
    ensures r.Err? ==> r.error.InvalidReference? || r.error.NoChannel? || r.error.NoDevice? || r.error.NoRegister?
  {
    var parts := Split(reference, ":");
    if |parts| != 3 then Err(InvalidReference(reference))
    else Resolve(cfg, TrimSpace(parts[0]), TrimSpace(parts[1]), TrimSpace(parts[2]))
  }

  /** A reference has three segments exactly when it holds exactly two ':'. */
  lemma SegmentCount(reference: string)
    ensures |Split(reference, ":")| == 3 <==> CountChar(reference, ':') == 2
  {
    SplitCharCount(reference, ':');
  }

  /** Three ':'-free segments are resolved by their trimmed titles. */
  lemma FindRegisterSegments(cfg: Config, a: string, b: string, c: string)
    requires ':' !in a && ':' !in b && ':' !in c
    ensures FindRegister(cfg, a + ":" + b + ":" + c) == Resolve(cfg, TrimSpace(a), TrimSpace(b), TrimSpace(c))
  {
    assert a + ":" + b + ":" + c == a + [':'] + b + [':'] + c;
    SplitThree(a, b, c, ':');
  }

  /** Whitespace around the segments is ignored: " a : b : c " resolves like "a:b:c". */
  lemma FindRegisterPadded(cfg: Config, a: string, b: string, c: string,
                           w1: string, w2: string, w3: string, w4: string, w5: string, w6: string)
    requires AllSpace(w1) && AllSpace(w2) && AllSpace(w3) && AllSpace(w4) && AllSpace(w5) && AllSpace(w6)
    requires ':' !in a && ':' !in b && ':' !in c
    ensures FindRegister(cfg, w1 + a + w2 + ":" + w3 + b + w4 + ":" + w5 + c + w6)
         == FindRegister(cfg, a + ":" + b + ":" + c)
  {
    var pa, pb, pc := w1 + a + w2, w3 + b + w4, w5 + c + w6;
    NoColonInSpace(w1, a, w2);
    NoColonInSpace(w3, b, w4);
    NoColonInSpace(w5, c, w6);
    assert w1 + a + w2 + ":" + w3 + b + w4 + ":" + w5 + c + w6 == pa + ":" + pb + ":" + pc;
    FindRegisterSegments(cfg, pa, pb, pc);
    FindRegisterSegments(cfg, a, b, c);
    TrimSpacePadded(w1, a, w2);
    TrimSpacePadded(w3, b, w4);
    TrimSpacePadded(w5, c, w6);
  }

  lemma NoColonInSpace(w1: string, a: string, w2: string)
    requires AllSpace(w1) && AllSpace(w2) && ':' !in a
    ensures ':' !in w1 + a + w2
  {
    var s := w1 + a + w2;
    forall k | 0 <= k < |s|
      ensures s[k] != ':'
    {
      if k < |w1| {
        assert s[k] == w1[k];
      } else if k < |w1| + |a| {
        assert s[k] == a[k - |w1|];
      } else {
        assert s[k] == w2[k - |w1| - |a|];
      }
    }
  }

  /** The third trimmed segment is the register's title; a missing channel is reported as such. */
  lemma FindRegisterTitles(cfg: Config, a: string, b: string, c: string)
    requires ':' !in a && ':' !in b && ':' !in c
    ensures FindRegister(cfg, a + ":" + b + ":" + c).Ok? ==>
      FindRegister(cfg, a + ":" + b + ":" + c).value.title == TrimSpace(c)
    ensures FindChannelByTitle(cfg, TrimSpace(a)).Err? ==>
      FindRegister(cfg, a + ":" + b + ":" + c) == Err(NoChannel(TrimSpace(a)))
  {
    FindRegisterSegments(cfg, a, b, c);
  }

  /** A register found in an attached configuration carries its device back-reference. */
  lemma FoundIsAttached(cfg: Config, reference: string)
    requires Attached(cfg)
    ensures FindRegister(cfg, reference).Ok? ==> FindRegister(cfg, reference).value.device.Some?
  {
    var r := FindRegister(cfg, reference);
    if r.Ok? {
      var c, d :| c in cfg.channels && d in c.devices && r.value in d.registers;
    }
  }
}
