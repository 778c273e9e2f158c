/** A cached reading (src/model/metric.go): its expiry rule and its key. */
module Metrics {
  import opened Basics
  import opened Text
  import opened Model

  /**
   * model.Metric. `raw` is the integer read from the bus, `value` the
   * scaled number, `timestamp` the reading's time in nanoseconds.
   */
  datatype Metric = Metric(
    key: string,
    channel: string,
    device: string,
    alias: string,
    register: string,
    raw: int,
    value: real,
    timestamp: int)

  /** Metric.IsExpired: the stamp plus the TTL lies strictly before `now`. */
  predicate IsExpired(m: Metric, ttl: int, now: int)
    ensures IsExpired(m, ttl, now) <==> now - m.timestamp > ttl
  {
    m.timestamp + ttl < now
  }

  /** Expiry is monotone in time and antitone in the TTL; a fresh stamp is never expired. */
  lemma ExpiryMonotone(m: Metric, ttl: int, ttl2: int, now: int, later: int)
    ensures IsExpired(m, ttl, now) && now <= later ==> IsExpired(m, ttl, later)
    ensures !IsExpired(m, ttl, now) && ttl <= ttl2 ==> !IsExpired(m, ttl2, now)
    ensures ttl >= 0 ==> !IsExpired(m, ttl, m.timestamp)
  {
  }

  /** The register is wired to a device that is wired to a channel. */
  predicate Linked(r: Register) {
    r.device.Some? && r.device.value.channel.Some?
  }

  /** MetricKey: device's channel title, device title and register title, joined by ':'. */
  function MetricKey(r: Register): (k: string)
    requires Linked(r)
    ensures |k| == |r.device.value.channel.value| + |r.device.value.title| + |r.title| + 2
  {
    r.device.value.channel.value + ":" + r.device.value.title + ":" + r.title
  }

  /**
   * Whatever the titles hold, the key reads the channel title, ':', the
   * device title, ':', the register title, from left to right.
   */
  lemma MetricKeySegments(r: Register)
    requires Linked(r)
    ensures var k, c, d, t := MetricKey(r), r.device.value.channel.value, r.device.value.title, r.title;
      && |k| == |c| + |d| + |t| + 2
      && k[..|c|] == c && k[|c|] == ':'
      && k[|c| + 1..|k| - |t| - 1] == d && k[|k| - |t| - 1] == ':'
      && k[|k| - |t|..] == t
  {
  }

  /** When no title holds ':', the key splits back into exactly the three titles. */
  lemma MetricKeySplit(r: Register)
    requires Linked(r)
    requires ':' !in r.device.value.channel.value && ':' !in r.device.value.title && ':' !in r.title
    ensures Split(MetricKey(r), ":") == [r.device.value.channel.value, r.device.value.title, r.title]
  {
    var c, d, t := r.device.value.channel.value, r.device.value.title, r.title;
    assert MetricKey(r) == c + [':'] + d + [':'] + t;
    SplitThree(c, d, t, ':');
  }

  /** Titles that FindRegister can reach: trimmed, free of ':', and first of their title at their level. */
  predicate Reachable(cfg: Config, ci: int, di: int, ri: int) {
    && 0 <= ci < |cfg.channels|
    && 0 <= di < |cfg.channels[ci].devices|
    && 0 <= ri < |cfg.channels[ci].devices[di].registers|
    && var c := cfg.channels[ci];
    && var d := c.devices[di];
    && var r := d.registers[ri];
    && ':' !in c.title && ':' !in d.title && ':' !in r.title
    && TrimSpace(c.title) == c.title && TrimSpace(d.title) == d.title && TrimSpace(r.title) == r.title
    && (forall j :: 0 <= j < ci ==> cfg.channels[j].title != c.title)
    && (forall j :: 0 <= j < di ==> c.devices[j].title != d.title)
    && (forall j :: 0 <= j < ri ==> d.registers[j].title != r.title)
  }

  lemma FirstChannel(cfg: Config, ci: int)
    requires 0 <= ci < |cfg.channels|
    requires forall j :: 0 <= j < ci ==> cfg.channels[j].title != cfg.channels[ci].title
    ensures FindChannelByTitle(cfg, cfg.channels[ci].title) == Ok(cfg.channels[ci])
  {
    var fc := FindChannelByTitle(cfg, cfg.channels[ci].title);
    var i :| 0 <= i < |cfg.channels| && cfg.channels[i] == fc.value && fc.value.title == cfg.channels[ci].title
      && forall j :: 0 <= j < i ==> cfg.channels[j].title != cfg.channels[ci].title;
    assert i == ci;
  }

  lemma FirstDevice(c: Channel, di: int)
    requires 0 <= di < |c.devices|
    requires forall j :: 0 <= j < di ==> c.devices[j].title != c.devices[di].title
    ensures FindDeviceByTitle(c, c.devices[di].title) == Ok(c.devices[di])
  {
    var fd := FindDeviceByTitle(c, c.devices[di].title);
    var i :| 0 <= i < |c.devices| && c.devices[i] == fd.value && fd.value.title == c.devices[di].title
      && forall j :: 0 <= j < i ==> c.devices[j].title != c.devices[di].title;
    assert i == di;
  }

  lemma FirstRegister(d: Device, ri: int)
    requires 0 <= ri < |d.registers|
    requires forall j :: 0 <= j < ri ==> d.registers[j].title != d.registers[ri].title
    ensures FindRegisterByTitle(d, d.registers[ri].title) == Ok(d.registers[ri])
  {
    var fr := FindRegisterByTitle(d, d.registers[ri].title);
    var i :| 0 <= i < |d.registers| && d.registers[i] == fr.value && fr.value.title == d.registers[ri].title
      && forall j :: 0 <= j < i ==> d.registers[j].title != d.registers[ri].title;
    assert i == ri;
  }

  /**
   * In a wired configuration, a register's MetricKey resolves back to that
   * register, provided its titles are reachable.
   */
  lemma ResolveByMetricKey(cfg: Config, ci: int, di: int, ri: int)
    requires Wired(cfg) && Reachable(cfg, ci, di, ri)
    ensures Linked(cfg.channels[ci].devices[di].registers[ri])
    ensures FindRegister(cfg, MetricKey(cfg.channels[ci].devices[di].registers[ri]))
         == Ok(cfg.channels[ci].devices[di].registers[ri])
  {
    var c := cfg.channels[ci];
    var d := c.devices[di];
    var r := d.registers[ri];
    assert c in cfg.channels && d in c.devices && r in d.registers;
    assert r.device == Some(WiredRef(c, d));
    assert MetricKey(r) == c.title + ":" + d.title + ":" + r.title;
    FindRegisterSegments(cfg, c.title, d.title, r.title);
    FirstChannel(cfg, ci);
    FirstDevice(c, di);
    FirstRegister(d, ri);
  }
}
