/** The executing stage of a channel (src/bridge/executor.go). */
module Executors {
  import opened Basics
  import opened Model
  import opened Metrics
  import opened Cache
  import opened Modbus
  import opened Commands

  /** The metric a successful read stores: names from the register's back-references, the read values, the time. */
  function Stored(register: Register, raw: int, value: real, now: int): (m: Metric)
    requires Linked(register)
    ensures m.key == MetricKey(register) && m.register == register.title && m.timestamp == now
    ensures m.channel == register.device.value.channel.value && m.device == register.device.value.title
    ensures m.alias == register.device.value.alias && m.raw == raw && m.value == value
    ensures forall ttl :: ttl >= 0 ==> !IsExpired(m, ttl, now)
  {
    Metric(MetricKey(register), register.device.value.channel.value, register.device.value.title,
      register.device.value.alias, register.title, raw, value, now)
  }

  /** executorImpl: the bus client and the cache of its channel, and the started flag. */
  class Executor {
    const client: ModbusClient
    const cache: MetricCache
    var started: bool

    constructor (client: ModbusClient, cache: MetricCache)
      ensures this.client == client && this.cache == cache && !started
    {
      this.client := client;
      this.cache := cache;
      started := false;
    }

    /** Start: a no-op while started. */
    method Start()
      modifies this
      ensures started
    {
      if started {
        return;
      }
      started := true;
    }

    /** Stop: a no-op while not started. */
    method Stop()
      modifies this
      ensures !started
    {
      if !started {
        return;
      }
      started := false;
    }

    /**
     * handleCommand: a read goes to readRegister, a write to writeRegister.
     * `crashed` reports the source's panic on a write to a register that is
     * neither a coil nor a holding register.
     */
    method HandleCommand(cmd: Command, reply: Reply, scale: (Register, int) -> Option<real>, now: int) returns (crashed: bool)
      requires cmd.register.device.Some?
      requires cmd.ReadCommand? ==> Linked(cmd.register)
      modifies client.bus, cache
      ensures cmd.ReadCommand? ==>
        var res := ReadOutcome(client.generation, cmd.register, reply, scale);
        !crashed
        && client.bus.log == old(client.bus.log) + [ReadRequest(cmd.register)]
        && (res.err.Some? ==> cache.metrics == old(cache.metrics))
        && (res.err.None? ==> cache.metrics == old(cache.metrics)[MetricCache.Key(cmd.channel, cmd.register) :=
              Stored(cmd.register, res.raw, res.value.value, now)])
      ensures cmd.WriteCommand? ==>
        cache.metrics == old(cache.metrics)
        && crashed == WriteRequest(cmd.register, cmd.GetValue()).None?
        && (crashed ==> client.bus.log == old(client.bus.log))
        && (!crashed ==> client.bus.log == old(client.bus.log) + [WriteRequest(cmd.register, cmd.GetValue()).value])
    {
      if cmd.GetType() == CTRead {
        ReadRegister(cmd, reply, scale, now);
        crashed := false;
      } else {
        crashed := WriteRegister(cmd, reply);
      }
    }

    /** readRegister: on success store one metric under the cache key; on failure only log. */
    method ReadRegister(cmd: Command, reply: Reply, scale: (Register, int) -> Option<real>, now: int)
      requires cmd.register.device.Some? && Linked(cmd.register)
      modifies client.bus, cache
      ensures
        var res := ReadOutcome(client.generation, cmd.register, reply, scale);
        client.bus.log == old(client.bus.log) + [ReadRequest(cmd.register)]
        && (res.err.Some? ==> cache.metrics == old(cache.metrics))
        && (res.err.None? ==> cache.metrics == old(cache.metrics)[MetricCache.Key(cmd.channel, cmd.register) :=
              Stored(cmd.register, res.raw, res.value.value, now)])
    {
      var res := client.Read(cmd.register, reply, scale);
      if res.err.None? {
        cache.Set(MetricCache.Key(cmd.channel, cmd.register), Stored(cmd.register, res.raw, res.value.value, now));
      }
    }

    /** writeRegister: one Write with the command's value; its error is only logged. */
    method WriteRegister(cmd: Command, reply: Reply) returns (crashed: bool)
      requires cmd.register.device.Some?
      modifies client.bus
      ensures crashed == WriteRequest(cmd.register, cmd.GetValue()).None?
      ensures crashed ==> client.bus.log == old(client.bus.log)
      ensures !crashed ==> client.bus.log == old(client.bus.log) + [WriteRequest(cmd.register, cmd.GetValue()).value]
    {
      var err := client.Write(cmd.register, cmd.GetValue(), reply);
      crashed := err == Some(InvalidWriteType);
    }
  }

  /**
   * The cache key a read is stored under is the stored metric's own key
   * exactly when the command's channel is the register's wired channel.
   */
  lemma StoredKeys(channel: Channel, register: Register, raw: int, value: real, now: int)
    requires Linked(register)
    ensures Stored(register, raw, value, now).key == MetricKey(register)
    ensures MetricCache.Key(channel, register) == MetricKey(register) <==> channel.title == register.device.value.channel.value
  {
    var c, c2 := channel.title, register.device.value.channel.value;
    var tail := ":" + register.device.value.title + ":" + register.title;
    assert MetricKey(register) == c2 + tail;
    if MetricCache.Key(channel, register) == MetricKey(register) {
      assert (c2 + tail)[..|c2|] == c2;
    }
  }
}
