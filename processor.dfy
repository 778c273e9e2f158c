/**
 * A channel's pipeline (src/bridge/processor.go, src/bridge/demultiplexer.go):
 * the processor owns a demultiplexer, an executor, a poller, a commander
 * and the cache, and starts and stops the three goroutine stages in a
 * fixed order. The calls it makes are recorded as an event trace.
 */
module Processors {
  import opened Basics
  import opened Text
  import opened Model
  import opened Cache
  import opened Modbus
  import opened Commanders
  import opened Pollers
  import opened Executors

  /** demultiplexerImpl, reduced to its started flag (its loop is a two-way select). */
  class Demultiplexer {
    var started: bool

    constructor ()
      ensures !started
    {
      started := false;
    }

    /** Start: a no-op while started. */
    method Start()
      modifies this
      ensures started
    {
      if started {
        return;
      }
      started := true;
    }

    /** Stop: a no-op while not started. */
    method Stop()
      modifies this
      ensures !started
    {
      if !started {
        return;
      }
      started := false;
    }
  }

  /** One component call made by the processor. */
  datatype Event =
    | DemultiplexerStarted | ExecutorStarted | PollerStarted
    | PollerStopped | ExecutorStopped | DemultiplexerStopped

  /** Start's calls: demultiplexer, then executor, then poller. */
  const StartCalls: seq<Event> := [DemultiplexerStarted, ExecutorStarted, PollerStarted]
  /** Stop's calls: poller, then executor, then demultiplexer. */
  const StopCalls: seq<Event> := [PollerStopped, ExecutorStopped, DemultiplexerStopped]

  /**
   * The trace is a strict alternation of complete start and stop blocks,
   * beginning with a start, and it ends with a start block exactly when
   * the processor is started.
   */
  ghost predicate Alternating(trace: seq<Event>, started: bool)
    decreases |trace|
  {
    if started then
      |trace| >= 3 && trace[|trace| - 3..] == StartCalls && Alternating(trace[..|trace| - 3], false)
    else
      trace == [] || (|trace| >= 3 && trace[|trace| - 3..] == StopCalls && Alternating(trace[..|trace| - 3], true))
  }

  lemma ModStep(n: int)
    ensures n % 6 == 0 ==> (n + 3) % 6 == 3
    ensures n % 6 == 3 ==> (n + 3) % 6 == 0
  {
  }

  /**
   * An alternating trace opens with a start block and holds whole
   * start/stop pairs, plus one start block while started.
   */
  lemma {:induction false} AlternatingCounts(trace: seq<Event>, started: bool)
    requires Alternating(trace, started)
    ensures |trace| % 6 == (if started then 3 else 0)
    ensures trace != [] ==> |trace| >= 3 && trace[..3] == StartCalls
    decreases |trace|
  {
    if trace != [] {
      assert |trace| >= 3;
      var init := trace[..|trace| - 3];
      assert Alternating(init, !started);
      AlternatingCounts(init, !started);
      ModStep(|init|);
      if init == [] {
        assert trace == trace[|trace| - 3..];
      } else {
        assert trace[..3] == init[..3];
      }
    }
  }

  /** channelProcessorImpl. */
  class ChannelProcessor {
    const channelTitle: string
    const commander: Commander
    const poller: Poller
    const demultiplexer: Demultiplexer
    const executor: Executor
    const cache: MetricCache
    var started: bool
    var trace: seq<Event>

    /** The objects Start and Stop update. */
    ghost function Repr(): set<object> {
      {this, demultiplexer, executor, poller}
    }

    /** Everything the processor owns. */
    ghost function Parts(): set<object> {
      Repr() + {commander, cache}
    }

    ghost predicate Valid()
      reads this, demultiplexer, executor, poller
    {
      Alternating(trace, started)
      && demultiplexer.started == started && executor.started == started && poller.started == started
      && executor.cache == cache
    }

    /** CreateProcessor: fresh components over the channel, a fresh cache with the given TTL, a fresh bus client. */
    constructor (channel: Channel, config: Config, ttl: int)
      ensures Valid() && !started && trace == []
      ensures channelTitle == ToLower(channel.title)
      ensures commander.channel == channel && commander.config == config && commander.writeStream == []
      ensures poller.channel == channel && poller.readStream == [] && !poller.stopped
      ensures cache.ttl == ttl && cache.metrics == map[]
      ensures executor.client.config == config && executor.client.generation == Bridge && executor.client.bus.log == []
      ensures fresh(commander) && fresh(poller) && fresh(demultiplexer) && fresh(executor) && fresh(cache)
      ensures fresh(executor.client) && fresh(executor.client.bus)
    {
      var bus := new Bus();
      var client := new ModbusClient(Bridge, config, bus);
      var c := new MetricCache(ttl);
      channelTitle := ToLower(channel.title);
      demultiplexer := new Demultiplexer();
      executor := new Executor(client, c);
      poller := new Poller(channel);
      commander := new Commander(channel, config);
      cache := c;
      started := false;
      trace := [];
    }

    /** Start: a no-op while started; otherwise demultiplexer, executor, poller, in that order. */
    method Start()
      requires Valid()
      modifies Repr()
      ensures Valid() && started
      ensures old(started) ==> trace == old(trace)
      ensures !old(started) ==> trace == old(trace) + StartCalls
      ensures poller.stopped == old(poller.stopped) && poller.readStream == old(poller.readStream)
    {
      if started {
        return;
      }
      started := true;
      demultiplexer.Start();
      trace := trace + [DemultiplexerStarted];
      executor.Start();
      trace := trace + [ExecutorStarted];
      poller.Start();
      trace := trace + [PollerStarted];
      assert trace[..|trace| - 3] == old(trace);
    }

    /** Stop: a no-op while stopped; otherwise poller, executor, demultiplexer, in that order. */
    method Stop()
      requires Valid()
      modifies Repr()
      ensures Valid() && !started
      ensures old(started) ==> trace == old(trace) + StopCalls && poller.stopped
      ensures !old(started) ==> trace == old(trace) && poller.stopped == old(poller.stopped)
      ensures poller.readStream == old(poller.readStream)
    {
      if !started {
        return;
      }
      started := false;
      poller.Stop();
      trace := trace + [PollerStopped];
      executor.Stop();
      trace := trace + [ExecutorStopped];
      demultiplexer.Stop();
      trace := trace + [DemultiplexerStopped];
      assert trace[..|trace| - 3] == old(trace);
    }
  }

  /** Start, Start, Stop, Stop: the repeated calls add nothing, and the flag has alternated once. */
  method StartStopIdempotent(channel: Channel, config: Config, ttl: int) returns (trace: seq<Event>, started: bool)
    ensures trace == StartCalls + StopCalls && !started
  {
    var p := new ChannelProcessor(channel, config, ttl);
    p.Start();
    p.Start();
    p.Stop();
    p.Stop();
    trace, started := p.trace, p.started;
  }
}
