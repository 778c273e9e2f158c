/** The write entry point of a channel (src/bridge/commander.go). */
module Commanders {
  import opened Basics
  import opened Model
  import opened Commands

  /** commanderImpl: the write-command stream is the sequence of commands sent so far. */
  class Commander {
    const channel: Channel
    const config: Config
    var writeStream: seq<Command>

    constructor (channel: Channel, config: Config)
      ensures this.channel == channel && this.config == config && writeStream == []
    {
      this.channel := channel;
      this.config := config;
      writeStream := [];
    }

    /**
     * WriteRef: resolve the reference against the whole configuration and
     * enqueue one write command on this commander's channel. The register's
     * Mode is not looked at, so read-only registers are enqueued too.
     * Every register must carry its device back-reference, because the
     * source dereferences it while tracing.
     */
    method WriteRef(reference: string, value: u16) returns (err: Option<Error>)
      requires Attached(config)
      modifies this
      ensures FindRegister(config, reference).Err? ==>
        err == Some(FindRegister(config, reference).error) && writeStream == old(writeStream)
      ensures FindRegister(config, reference).Ok? ==>
        var register := FindRegister(config, reference).value;
        err == None
        && register.device.Some?
        && writeStream == old(writeStream) + [NewWriteCommand(channel, register.device, register, value)]
    {
      var found := FindRegister(config, reference);
      if found.Err? {
        return Some(found.error);
      }
      var register := found.value;
      FoundIsAttached(config, reference);
      var cmd := NewWriteCommand(channel, register.device, register, value);
      writeStream := writeStream + [cmd];
      return None;
    }
  }
}
