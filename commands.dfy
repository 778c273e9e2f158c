/** The commands that flow through a channel's pipeline (src/bridge/command.go). */
module Commands {
  import opened Basics
  import opened Model

  /** Command.GetType: CTRead is 0 and CTWrite is 1 (iota order). */
  type CommandType = x: int | 0 <= x <= 1
  const CTRead: CommandType := 0
  const CTWrite: CommandType := 1

  /**
   * readCommand and writeCommand. The device is the Device pointer the
   * builder passed: the enclosing device for the poller, the register's
   * back-reference for the commander (absent when not wired).
   */
  datatype Command =
    | ReadCommand(channel: Channel, device: Option<DeviceRef>, register: Register)
    | WriteCommand(channel: Channel, device: Option<DeviceRef>, register: Register, value: u16)
  {
    /** GetType: which of the two kinds this is. */
    function GetType(): (t: CommandType)
      ensures t == CTRead <==> ReadCommand?
      ensures t == CTWrite <==> WriteCommand?
    {
      if ReadCommand? then CTRead else CTWrite
    }

    /** GetValue: a read carries no value (0); a write the value it was built with. */
    function GetValue(): (v: u16)
      ensures ReadCommand? ==> v == 0
      ensures WriteCommand? ==> v == value
    {
      if ReadCommand? then 0 else value
    }
  }

  /** NewReadCommand. */
  function NewReadCommand(channel: Channel, device: Option<DeviceRef>, register: Register): (c: Command)
    ensures c.GetType() == CTRead && c.GetValue() == 0
    ensures c.channel == channel && c.device == device && c.register == register
  {
    ReadCommand(channel, device, register)
  }

  /** NewWriteCommand. */
  function NewWriteCommand(channel: Channel, device: Option<DeviceRef>, register: Register, value: u16): (c: Command)
    ensures c.GetType() == CTWrite && c.GetValue() == value
    ensures c.channel == channel && c.device == device && c.register == register
  {
    WriteCommand(channel, device, register, value)
  }

  /** The two kinds never share a type code, and a command is fully determined by what built it. */
  lemma CommandsDistinct(channel: Channel, device: Option<DeviceRef>, register: Register, value: u16)
    ensures NewReadCommand(channel, device, register).GetType() != NewWriteCommand(channel, device, register, value).GetType()
    ensures forall c: Command :: c.ReadCommand? ==> c == NewReadCommand(c.channel, c.device, c.register)
    ensures forall c: Command :: c.WriteCommand? ==> c == NewWriteCommand(c.channel, c.device, c.register, c.GetValue())
  {
  }
}
