/**
 * The polling stage of a channel (src/bridge/poller.go): one cycle walks
 * the channel's devices and registers in declaration order and emits a
 * read command for every register whose mode is RO or RW, until the stop
 * flag is seen.
 */
module Pollers {
  import opened Basics
  import opened Enums
  import opened Model
  import opened Commands

  /** One stop-flag check of the inner loop: a register and its enclosing device. */
  datatype Slot = Slot(device: Device, register: Register)

  /** The slots of one device, in register order. */
  function DeviceSlots(d: Device): (s: seq<Slot>)
    ensures |s| == |d.registers|
    ensures forall j :: 0 <= j < |s| ==> s[j] == Slot(d, d.registers[j])
  {
    seq(|d.registers|, j requires 0 <= j < |d.registers| => Slot(d, d.registers[j]))
  }

  /** The slots of a device list: devices in order, registers in order within each. */
  function Slots(devices: seq<Device>): seq<Slot> {
    if devices == [] then []
    else Slots(devices[..|devices| - 1]) + DeviceSlots(devices[|devices| - 1])
  }

  /** The registers the poller reads. */
  predicate Polled(r: Register) {
    r.mode == RO || r.mode == RW
  }

  /** The read commands for a run of slots, in order. */
  function Emitted(channel: Channel, slots: seq<Slot>): seq<Command> {
    if slots == [] then []
    else
      var s := slots[|slots| - 1];
      Emitted(channel, slots[..|slots| - 1])
        + (if Polled(s.register) then [NewReadCommand(channel, Some(s.device.Ref()), s.register)] else [])
  }

  /** Emitting over two runs of slots is emitting over each in turn. */
  lemma {:induction false} EmittedAppend(channel: Channel, a: seq<Slot>, b: seq<Slot>)
    ensures Emitted(channel, a + b) == Emitted(channel, a) + Emitted(channel, b)
    decreases |b|
  {
    if b != [] {
      var init := b[..|b| - 1];
      assert (a + b)[..|a + b| - 1] == a + init;
      EmittedAppend(channel, a, init);
    } else {
      assert a + b == a;
    }
  }

  /** The slots before device i are a prefix of all slots. */
  lemma {:induction false} SlotsPrefix(devices: seq<Device>, i: nat)
    requires i <= |devices|
    ensures Slots(devices[..i]) <= Slots(devices)
    decreases |devices| - i
  {
    if i < |devices| {
      var init := devices[..|devices| - 1];
      assert init[..i] == devices[..i];
      SlotsPrefix(init, i);
    } else {
      assert devices[..i] == devices;
    }
  }

  /** The emitted commands of a prefix of slots are a prefix of the emitted commands. */
  lemma {:induction false} EmittedPrefix(channel: Channel, slots: seq<Slot>, n: nat)
    requires n <= |slots|
    ensures Emitted(channel, slots[..n]) <= Emitted(channel, slots)
    decreases |slots| - n
  {
    if n < |slots| {
      var init := slots[..|slots| - 1];
      assert init[..n] == slots[..n];
      EmittedPrefix(channel, init, n);
    } else {
      assert slots[..n] == slots;
    }
  }

  /**
   * Exactly the RO/RW registers are read: a command is emitted iff it is
   * the read of a polled slot, each on the poller's channel with the
   * enclosing device.
   */
  lemma {:induction false} EmittedExactly(channel: Channel, slots: seq<Slot>)
    ensures forall c :: c in Emitted(channel, slots) <==>
      exists k :: 0 <= k < |slots| && Polled(slots[k].register)
        && c == NewReadCommand(channel, Some(slots[k].device.Ref()), slots[k].register)
  {
    if slots != [] {
      var init := slots[..|slots| - 1];
      EmittedExactly(channel, init);
      forall k | 0 <= k < |init|
        ensures slots[k] == init[k]
      {
      }
    }
  }

  /** Emitted commands are reads of polled registers, so WO and mode-0 registers are never read. */
  lemma {:induction false} EmittedArePolledReads(channel: Channel, slots: seq<Slot>)
    ensures forall c :: c in Emitted(channel, slots) ==>
      c.ReadCommand? && c.channel == channel && Polled(c.register) && c.register.mode != WO
  {
    EmittedExactly(channel, slots);
  }

  /** How many slots a cycle gets through: none once stopped, else up to the interruption point. */
  function Budget(stopped: bool, interrupt: Option<nat>, total: nat): (n: nat)
    ensures n <= total
    ensures stopped ==> n == 0
    ensures !stopped && interrupt.None? ==> n == total
  {
    if stopped then 0
    else if interrupt.None? || interrupt.value > total then total
    else interrupt.value
  }

  /** How many registers of one device are visited, `count` having been visited before it. */
  function DeviceBudget(stopped: bool, interrupt: Option<nat>, count: nat, len: nat): (n: nat)
    ensures n <= len
    ensures stopped ==> n == 0
    ensures !stopped && interrupt.None? ==> n == len
    ensures n < len && !stopped ==> interrupt.Some? && count + n >= interrupt.value
    ensures n < len && !stopped && interrupt.value > count ==> count + n == interrupt.value
  {
    if stopped then 0
    else if interrupt.None? then len
    else if interrupt.value <= count then 0
    else if interrupt.value - count < len then interrupt.value - count
    else len
  }

  /** pollerImpl. `readStream` is the sequence of commands sent so far. */
  class Poller {
    const channel: Channel
    var started: bool
    var stopped: bool
    var readStream: seq<Command>

    constructor (channel: Channel)
      ensures this.channel == channel && !started && !stopped && readStream == []
    {
      this.channel := channel;
      started := false;
      stopped := false;
      readStream := [];
    }

    /** Start: a no-op while started; the stop flag is left as it is. */
    method Start()
      modifies this
      ensures started
      ensures stopped == old(stopped) && readStream == old(readStream)
    {
      if started {
        return;
      }
      started := true;
    }

    /**
     * Stop: a no-op while not started; otherwise the quit signal is sent
     * and the polling routine sets the stop flag on receiving it. Nothing
     * ever clears that flag again.
     */
    method Stop()
      modifies this
      ensures !started
      ensures stopped == (old(stopped) || old(started))
      ensures readStream == old(readStream)
    {
      if !started {
        return;
      }
      started := false;
      stopped := true;
    }

    /**
     * One device of a cycle: the stop flag is checked before each register;
     * `count` registers were visited earlier in the cycle.
     */
    method PollDevice(d: Device, interrupt: Option<nat>, count: nat) returns (n: nat)
      modifies this
      ensures n == DeviceBudget(old(stopped), interrupt, count, |d.registers|)
      ensures readStream == old(readStream) + Emitted(channel, DeviceSlots(d)[..n])
      ensures stopped == (old(stopped) || n < |d.registers|)
      ensures started == old(started)
    {
      ghost var budget := DeviceBudget(stopped, interrupt, count, |d.registers|);
      var j := 0;
      while j < |d.registers|
        invariant 0 <= j <= |d.registers|
        invariant readStream == old(readStream) + Emitted(channel, DeviceSlots(d)[..j])
        invariant stopped ==> j == budget
        invariant !stopped ==> j <= budget && !old(stopped)
        invariant stopped && !old(stopped) ==> j < |d.registers|
        invariant old(stopped) ==> stopped
        invariant started == old(started)
      {
        if interrupt.Some? && count + j >= interrupt.value {
          stopped := true;
        }
        if stopped {
          break;
        }
        var r := d.registers[j];
        assert DeviceSlots(d)[..j + 1][..j] == DeviceSlots(d)[..j];
        if r.mode == RO || r.mode == RW {
          readStream := readStream + [NewReadCommand(channel, Some(d.Ref()), r)];
        }
        j := j + 1;
      }
      n := j;
    }

    /**
     * cycle. The stop flag is checked before each device and each register.
     * The program runs every cycle with `interrupt == None`: the flag is
     * written only between cycles, by the goroutine that runs them.
     * `interrupt == Some(n)`, the flag found set once n registers have been
     * visited, over-approximates what a run can do.
     */
    method Cycle(interrupt: Option<nat>)
      modifies this
      ensures readStream == old(readStream)
        + Emitted(channel, Slots(channel.devices)[..Budget(old(stopped), interrupt, |Slots(channel.devices)|)])
      ensures old(stopped) ==> stopped
      ensures interrupt.None? ==> stopped == old(stopped)
      ensures started == old(started)
    {
      var devices := channel.devices;
      ghost var all := Slots(devices);
      ghost var budget := Budget(stopped, interrupt, |all|);
      var count := 0;
      var i := 0;
      while i < |devices|
        invariant 0 <= i <= |devices|
        invariant count <= budget
        invariant stopped ==> count == budget
        invariant !stopped ==> count == |Slots(devices[..i])|
        invariant readStream == old(readStream) + Emitted(channel, all[..count])
        invariant old(stopped) ==> stopped
        invariant interrupt.None? ==> stopped == old(stopped)
        invariant started == old(started)
      {
        if stopped || (interrupt.Some? && count >= interrupt.value) {
          stopped := true;
          break;
        }
        var n := PollNext(i, interrupt, count, old(readStream));
        count := count + n;
        i := i + 1;
      }
      if !stopped {
        assert devices[..i] == devices;
      }
    }

    /**
     * Device i of a cycle, the devices before it having been polled in full:
     * the commands sent so far are those of the slots before device i, and
     * afterwards those of the slots up to the n-th register of device i.
     */
    method PollNext(i: nat, interrupt: Option<nat>, count: nat, ghost start: seq<Command>) returns (n: nat)
      requires i < |channel.devices| && !stopped
      requires count == |Slots(channel.devices[..i])| <= |Slots(channel.devices)|
      requires readStream == start + Emitted(channel, Slots(channel.devices)[..count])
      modifies this
      ensures n == DeviceBudget(false, interrupt, count, |channel.devices[i].registers|)
      ensures count + n <= |Slots(channel.devices)|
      ensures readStream == start + Emitted(channel, Slots(channel.devices)[..count + n])
      ensures stopped == (n < |channel.devices[i].registers|)
      ensures !stopped ==> count + n == |Slots(channel.devices[..i + 1])|
      ensures started == old(started)
    {
      ghost var before := Emitted(channel, Slots(channel.devices)[..count]);
      n := PollDevice(channel.devices[i], interrupt, count);
      CycleStep(channel, channel.devices, i, n);
      ghost var step := Emitted(channel, DeviceSlots(channel.devices[i])[..n]);
      assert (start + before) + step == start + (before + step);
    }
  }

  /**
   * Polling device i after the devices before it: the slots visited so far
   * are a prefix of all slots, and the device's first n slots extend it.
   */
  lemma CycleStep(channel: Channel, devices: seq<Device>, i: nat, n: nat)
    requires i < |devices| && n <= |devices[i].registers|
    ensures |Slots(devices[..i])| + n <= |Slots(devices)|
    ensures Emitted(channel, Slots(devices)[..|Slots(devices[..i])| + n])
      == Emitted(channel, Slots(devices)[..|Slots(devices[..i])|]) + Emitted(channel, DeviceSlots(devices[i])[..n])
    ensures n == |devices[i].registers| ==> |Slots(devices[..i + 1])| == |Slots(devices[..i])| + n
  {
    var all, pre, step := Slots(devices), Slots(devices[..i]), DeviceSlots(devices[i])[..n];
    StepPrefix(devices, i, n);
    assert all[..|pre| + n] == pre + step;
    assert all[..|pre|] == pre;
    EmittedAppend(channel, pre, step);
  }

  /** The slots visited after the first n registers of device i, as a prefix of all slots. */
  lemma StepPrefix(devices: seq<Device>, i: nat, n: nat)
    requires i < |devices| && n <= |devices[i].registers|
    ensures Slots(devices[..i]) + DeviceSlots(devices[i])[..n] <= Slots(devices)
    ensures n == |devices[i].registers| ==> Slots(devices[..i]) + DeviceSlots(devices[i])[..n] == Slots(devices[..i + 1])
  {
    SlotsPrefix(devices, i + 1);
    assert devices[..i + 1][..i] == devices[..i];
    assert Slots(devices[..i + 1]) == Slots(devices[..i]) + DeviceSlots(devices[i]);
    assert DeviceSlots(devices[i])[..|devices[i].registers|] == DeviceSlots(devices[i]);
  }

  /** A full cycle's commands extend any interrupted cycle's commands. */
  lemma InterruptedIsPrefix(channel: Channel, n: nat)
    ensures Emitted(channel, Slots(channel.devices)[..Budget(false, Some(n), |Slots(channel.devices)|)])
      <= Emitted(channel, Slots(channel.devices))
  {
    EmittedPrefix(channel, Slots(channel.devices), Budget(false, Some(n), |Slots(channel.devices)|));
  }

  /** Stop and Start on the same poller: the stop flag stays set, so later cycles emit nothing. */
  method RestartedPollerIsSilent(channel: Channel) returns (emitted: seq<Command>)
    ensures emitted == []
  {
    var p := new Poller(channel);
    p.Start();
    p.Stop();
    p.Start();
    p.Cycle(None);
    emitted := p.readStream;
  }

  /** A fresh poller's first complete cycle emits the reads of all RO/RW registers. */
  method FirstCycle(channel: Channel) returns (emitted: seq<Command>)
    ensures emitted == Emitted(channel, Slots(channel.devices))
  {
    var p := new Poller(channel);
    p.Start();
    p.Cycle(None);
    emitted := p.readStream;
    assert Slots(channel.devices)[..|Slots(channel.devices)|] == Slots(channel.devices);
  }
}
