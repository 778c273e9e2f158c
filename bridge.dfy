/**
 * The bridge (src/bridge/bridge.go): one channel processor per channel
 * title, routing of references to processors, and the listings across
 * all channels.
 */
module Bridges {
  import opened Basics
  import opened Text
  import opened Ordering
  import opened Model
  import opened Metrics
  import opened Cache
  import opened Commands
  import opened Commanders
  import opened Processors

  // ---------------------------------------------------------------------------
  // Routing
  // ---------------------------------------------------------------------------

  /** getProcessor's key: the reference up to its first ':', untrimmed. */
  function Route(reference: string): (r: string)
    ensures ':' !in r
    ensures r <= reference
    ensures r == reference || reference[|r|] == ':'
  {
    var i := Index(reference, ":");
    forall j | 0 <= j < (if i < 0 then |reference| else i)
      ensures reference[j] != ':'
    {
      assert !OccursAt(reference, ":", j);
      assert reference[j..j + 1][0] == reference[j];
    }
    Split(reference, ":")[0]
  }

  /** Routing does not trim: leading blanks stay part of the channel title looked up. */
  lemma RouteUntrimmed(w: string, t: string, rest: string)
    requires ':' !in w + t
    ensures Route(w + t + ":" + rest) == w + t
  {
    var s := w + t + ":" + rest;
    assert s == (w + t) + [':'] + rest;
    SplitCharCons(w + t, ':', rest);
  }

  /** The index of the last channel titled `t`, or -1: the one whose processor Start keeps. */
  function LastWithTitle(channels: seq<Channel>, t: string): (i: int)
    ensures -1 <= i < |channels|
    ensures i >= 0 ==> channels[i].title == t && forall j :: i < j < |channels| ==> channels[j].title != t
    ensures i < 0 ==> forall j :: 0 <= j < |channels| ==> channels[j].title != t
  {
    if channels == [] then -1
    else if channels[|channels| - 1].title == t then |channels| - 1
    else LastWithTitle(channels[..|channels| - 1], t)
  }

  // ---------------------------------------------------------------------------
  // Regs: one register per metric key, sorted by key
  // ---------------------------------------------------------------------------

  /** The registers of `devices`, device by device, in configuration order. */
  function DeviceRegisters(devices: seq<Device>): (r: seq<Register>)
    ensures forall x :: x in r <==> exists d :: d in devices && x in d.registers
  {
    if devices == [] then []
    else
      var init := devices[..|devices| - 1];
      assert forall d :: d in devices <==> d in init || d == devices[|devices| - 1] by {
        assert devices == init + [devices[|devices| - 1]];
      }
      DeviceRegisters(init) + devices[|devices| - 1].registers
  }

  /** The registers of `channels`, channel by channel, in configuration order. */
  function ChannelRegisters(channels: seq<Channel>): (r: seq<Register>)
    ensures forall x :: x in r <==> exists c :: c in channels && x in DeviceRegisters(c.devices)
  {
    if channels == [] then []
    else
      var init := channels[..|channels| - 1];
      assert forall c :: c in channels <==> c in init || c == channels[|channels| - 1] by {
        assert channels == init + [channels[|channels| - 1]];
      }
      ChannelRegisters(init) + DeviceRegisters(channels[|channels| - 1].devices)
  }

  /** Every register of a wired configuration knows its device and channel. */
  lemma WiredRegistersLinked(cfg: Config)
    requires Wired(cfg)
    ensures forall x :: x in ChannelRegisters(cfg.channels) ==> Linked(x)
  {
  }

  /** The index of the last register in `registers` whose metric key is `k`, or -1. */
  function LastWithKey(registers: seq<Register>, k: string): (i: int)
    requires forall x :: x in registers ==> Linked(x)
    ensures -1 <= i < |registers|
    ensures i >= 0 ==> MetricKey(registers[i]) == k && forall j :: i < j < |registers| ==> MetricKey(registers[j]) != k
    ensures i < 0 ==> forall j :: 0 <= j < |registers| ==> MetricKey(registers[j]) != k
  {
    if registers == [] then -1
    else if MetricKey(registers[|registers| - 1]) == k then |registers| - 1
    else LastWithKey(registers[..|registers| - 1], k)
  }

  /** `m` after assigning `registers` in order under their metric keys: the last register of a key wins. */
  function IndexRegisters(m: map<string, Register>, registers: seq<Register>): (r: map<string, Register>)
    requires forall x :: x in registers ==> Linked(x)
  {
    if registers == [] then m
    else
      var last := registers[|registers| - 1];
      IndexRegisters(m, registers[..|registers| - 1])[MetricKey(last) := last]
  }

  /**
   * What IndexRegisters builds: the keys of `m` and of the run, each mapped to
   * the last register of the run with that key, or else to its old value.
   */
  lemma {:induction false} IndexRegistersSpec(m: map<string, Register>, registers: seq<Register>)
    requires forall x :: x in registers ==> Linked(x)
    ensures forall k :: k in IndexRegisters(m, registers) <==> k in m || LastWithKey(registers, k) >= 0
    ensures forall k :: k in IndexRegisters(m, registers) ==>
      IndexRegisters(m, registers)[k] ==
        if LastWithKey(registers, k) >= 0 then registers[LastWithKey(registers, k)] else m[k]
  {
    if registers != [] {
      IndexRegistersSpec(m, registers[..|registers| - 1]);
    }
  }

  /** Assigning two runs one after the other is assigning their concatenation. */
  lemma {:induction false} IndexRegistersAppend(m: map<string, Register>, a: seq<Register>, b: seq<Register>)
    requires forall x :: x in a + b ==> Linked(x)
    ensures forall x :: x in a ==> Linked(x)
    ensures forall x :: x in b ==> Linked(x)
    ensures IndexRegisters(m, a + b) == IndexRegisters(IndexRegisters(m, a), b)
  {
    assert forall x :: x in a ==> x in a + b;
    assert forall x :: x in b ==> x in a + b;
    if b == [] {
      assert a + b == a;
    } else {
      var init, last := b[..|b| - 1], b[|b| - 1];
      assert (a + b)[..|a + b| - 1] == a + init && (a + b)[|a + b| - 1] == last;
      assert forall x :: x in init ==> x in b;
      IndexRegistersAppend(m, a, init);
    }
  }

  /** The register map Regs builds. */
  function RegisterIndex(cfg: Config): (m: map<string, Register>)
    requires Wired(cfg)
  {
    WiredRegistersLinked(cfg);
    IndexRegisters(map[], ChannelRegisters(cfg.channels))
  }

  /** The registers of the run `all`, indexed by key and listed in ascending key order. */
  ghost function SortedIndex(all: seq<Register>): seq<Register>
    requires forall x :: x in all ==> Linked(x)
  {
    var m := IndexRegisters(map[], all);
    ValuesAt(m, SortedKeys(m.Keys))
  }

  /** What Regs returns: the indexed registers of the configuration in ascending key order. */
  ghost function RegsOf(cfg: Config): seq<Register>
    requires Wired(cfg)
  {
    WiredRegistersLinked(cfg);
    SortedIndex(ChannelRegisters(cfg.channels))
  }

  /** Strictly ascending metric keys, so no key twice. */
  ghost predicate ByKey(r: seq<Register>) {
    (forall i :: 0 <= i < |r| ==> Linked(r[i]))
    && forall i, j :: 0 <= i < j < |r| ==> Linked(r[i]) && Linked(r[j]) && Less(MetricKey(r[i]), MetricKey(r[j]))
  }

  /** `x` is the last register of the run `all` that carries its metric key. */
  ghost predicate LastOfKey(all: seq<Register>, x: Register)
    requires forall y :: y in all ==> Linked(y)
  {
    Linked(x) && LastWithKey(all, MetricKey(x)) >= 0 && x == all[LastWithKey(all, MetricKey(x))]
  }

  /** Some register of `r` carries the metric key `k`. */
  ghost predicate HasKey(r: seq<Register>, k: string) {
    exists y :: y in r && Linked(y) && MetricKey(y) == k
  }

  /**
   * Regs lists, in strictly ascending metric-key order, exactly one
   * register for every metric key of the configuration: the last register
   * in configuration order that carries the key.
   */
  lemma RegsSpec(cfg: Config)
    requires Wired(cfg)
    ensures forall x :: x in ChannelRegisters(cfg.channels) ==> Linked(x)
    ensures ByKey(RegsOf(cfg))
    ensures forall x :: x in RegsOf(cfg) ==> LastOfKey(ChannelRegisters(cfg.channels), x)
    ensures forall x :: x in ChannelRegisters(cfg.channels) ==> HasKey(RegsOf(cfg), MetricKey(x))
  {
    WiredRegistersLinked(cfg);
    SortedIndexOrdered(ChannelRegisters(cfg.channels));
    SortedIndexCovers(ChannelRegisters(cfg.channels));
  }

  /** The indexed registers come out in strictly ascending key order, each the last of its key in the run. */
  lemma SortedIndexOrdered(all: seq<Register>)
    requires forall x :: x in all ==> Linked(x)
    ensures ByKey(SortedIndex(all))
    ensures forall x :: x in SortedIndex(all) ==> LastOfKey(all, x)
  {
    var m := IndexRegisters(map[], all);
    var keys := SortedKeys(m.Keys);
    var regs := SortedIndex(all);
    IndexedUnderOwnKey(all, m);
    forall i | 0 <= i < |regs|
      ensures Linked(regs[i]) && MetricKey(regs[i]) == keys[i] && LastOfKey(all, regs[i])
    {
      assert regs[i] == m[keys[i]];
    }
  }

  /** Every key of the run is listed. */
  lemma SortedIndexCovers(all: seq<Register>)
    requires forall x :: x in all ==> Linked(x)
    ensures forall x :: x in all ==> HasKey(SortedIndex(all), MetricKey(x))
  {
    forall x | x in all
      ensures HasKey(SortedIndex(all), MetricKey(x))
    {
      KeyCovered(all, x);
    }
  }

  /** The key of one register of the run is listed. */
  lemma KeyCovered(all: seq<Register>, x: Register)
    requires forall y :: y in all ==> Linked(y)
    requires x in all
    ensures HasKey(SortedIndex(all), MetricKey(x))
  {
    var m := IndexRegisters(map[], all);
    var keys := SortedKeys(m.Keys);
    var regs := SortedIndex(all);
    var k := MetricKey(x);
    IndexRegistersSpec(map[], all);
    IndexedUnderOwnKey(all, m);
    var j :| 0 <= j < |all| && all[j] == x;
    assert LastWithKey(all, k) >= 0;
    var i :| 0 <= i < |keys| && keys[i] == k;
    assert regs[i] == m[k];
  }

  /** Indexing a run from the empty map files each register under its own key, the last one of that key. */
  lemma IndexedUnderOwnKey(all: seq<Register>, m: map<string, Register>)
    requires forall x :: x in all ==> Linked(x)
    requires m == IndexRegisters(map[], all)
    ensures forall k :: k in m ==>
      LastWithKey(all, k) >= 0 && m[k] == all[LastWithKey(all, k)] && Linked(m[k]) && MetricKey(m[k]) == k
  {
    IndexRegistersSpec(map[], all);
    forall k | k in m
      ensures LastWithKey(all, k) >= 0 && m[k] == all[LastWithKey(all, k)] && Linked(m[k]) && MetricKey(m[k]) == k
    {
      var i := LastWithKey(all, k);
      assert all[i] in all;
    }
  }

  // ---------------------------------------------------------------------------
  // The bridge
  // ---------------------------------------------------------------------------

  /**
   * `owner` maps each part of the processor `p` to the title `t`. A ghost map of this kind keeps the processors of a
   * bridge apart: an object shared by two titles would need two owners.
   */
  ghost predicate Owns(owner: map<object, string>, p: ChannelProcessor, t: string) {
    p in owner && p.demultiplexer in owner && p.executor in owner && p.poller in owner
    && p.commander in owner && p.cache in owner
    && owner[p] == t && owner[p.demultiplexer] == t && owner[p.executor] == t && owner[p.poller] == t
    && owner[p.commander] == t && owner[p.cache] == t
  }

  /** Every processor of `ps` is owned under its own title. */
  ghost predicate Owned(ps: map<string, ChannelProcessor>, owner: map<object, string>) {
    forall t :: t in ps ==> Owns(owner, ps[t], t)
  }

  /** The caches of the processors in `ps`. */
  ghost function Caches(ps: map<string, ChannelProcessor>): set<object> {
    set t | t in ps :: ps[t].cache as object
  }

  /** What each processor's List returns at `now`, by title. */
  ghost function Listings(ps: map<string, ChannelProcessor>, now: int): (r: map<string, seq<Metric>>)
    reads Caches(ps)
    ensures r.Keys == ps.Keys
    ensures forall t :: t in ps ==> r[t] == Listing(ps[t].cache.metrics, ps[t].cache.ttl, now)
  {
    map t | t in ps :: Listing(ps[t].cache.metrics, ps[t].cache.ttl, now)
  }

  /** The commanders of the processors in `ps`. */
  ghost function CommanderSet(ps: map<string, ChannelProcessor>): set<object> {
    set t | t in ps :: ps[t].commander as object
  }

  /** bridgeImpl. */
  class Bridge {
    const config: Config
    var started: bool
    var processors: map<string, ChannelProcessor>
    /** The owner title of every object that some processor's Start or Stop updates. */
    ghost var owner: map<object, string>

    /** Every processor writes through the bridge's configuration. */
    ghost predicate Configured()
      reads this
    {
      forall t :: t in processors ==> processors[t].commander.config == config
    }

    ghost predicate Valid()
      reads this, owner.Keys
    {
      Configured() && Owned(processors, owner) && this !in owner
      && forall t :: t in processors ==> processors[t].Valid() && processors[t].started == started
    }

    /** CreateBridge: no processors until started. */
    constructor (config: Config)
      ensures this.config == config && !started && processors == map[] && Valid()
    {
      this.config := config;
      started := false;
      processors := map[];
      owner := map[];
    }

    /** getProcessor: the processor for the text before the first ':'. */
    function GetProcessor(reference: string): (r: Result<ChannelProcessor>)
      reads this
      ensures r.Ok? <==> Route(reference) in processors
      ensures r.Ok? ==> r.value == processors[Route(reference)]
      ensures r.Err? ==> r.error == NoProcessor(reference)
    {
      var t := Route(reference);
      if t in processors then Ok(processors[t]) else Err(NoProcessor(reference))
    }

    /**
     * Start: a no-op while started. Otherwise a fresh processor is created
     * for every channel (among equal titles the last channel wins), all with
     * an empty cache holding the configuration's TTL (`parse` is the
     * duration parser), and every processor is started.
     */
    method Start(parse: string -> Option<int>)
      requires Valid()
      modifies this
      ensures Valid() && started
      ensures old(started) ==> processors == old(processors)
      ensures !old(started) ==> Built(processors, config.channels, GetTTL(config, parse))
      ensures !old(started) ==> forall t :: t in processors ==>
        fresh(processors[t]) && processors[t].trace == StartCalls && processors[t].cache.metrics == map[]
    {
      if started {
        return;
      }
      var ps, own := Launch(config, GetTTL(config, parse));
      started := true;
      processors := ps;
      owner := own;
    }

    /**
     * Stop: a no-op while stopped. Otherwise every processor is stopped; the
     * map is kept, and no cache or commander changes, so Get still answers
     * from the caches.
     */
    method Stop()
      requires Valid()
      modifies this, owner.Keys
      ensures Valid() && !started && processors == old(processors)
      ensures old(started) ==> forall t :: t in processors ==>
        processors[t].trace == old(processors[t].trace) + StopCalls && processors[t].poller.stopped
      ensures !old(started) ==> forall t :: t in processors ==>
        processors[t].trace == old(processors[t].trace) && processors[t].poller.stopped == old(processors[t].poller.stopped)
      ensures unchanged(Caches(processors), CommanderSet(processors))
    {
      if !started {
        return;
      }
      started := false;
      StopAll(processors, owner);
    }

    /** Get: the routing error, or else the cache's answer for the whole reference. */
    method Get(reference: string, now: int) returns (m: Option<Metric>, err: Option<Error>)
      ensures Route(reference) !in processors ==> m == None && err == Some(NoProcessor(reference))
      ensures Route(reference) in processors ==>
        var c := processors[Route(reference)].cache;
        err == None && m == Visible(c.metrics, c.ttl, reference, now)
    {
      var p := GetProcessor(reference);
      if p.Err? {
        return None, Some(p.error);
      }
      m := p.value.cache.Get(reference, now);
      err := None;
    }

    /** Set: the routing error, or else what the processor's commander returns; Mode is never checked. */
    method Set(reference: string, value: u16) returns (err: Option<Error>)
      requires Configured() && Owned(processors, owner) && Attached(config)
      modifies CommanderSet(processors)
      ensures Route(reference) !in processors ==> err == Some(NoProcessor(reference))
      ensures forall t :: t in processors && t != Route(reference) ==>
        processors[t].commander.writeStream == old(processors[t].commander.writeStream)
      ensures Route(reference) in processors ==>
        var c := processors[Route(reference)].commander;
        (FindRegister(config, reference).Err? ==>
          err == Some(FindRegister(config, reference).error) && c.writeStream == old(c.writeStream))
        && (FindRegister(config, reference).Ok? ==>
          var register := FindRegister(config, reference).value;
          err == None && c.writeStream == old(c.writeStream) + [NewWriteCommand(c.channel, register.device, register, value)])
    {
      var p := GetProcessor(reference);
      if p.Err? {
        return Some(p.error);
      }
      err := p.value.commander.WriteRef(reference, value);
    }

    /**
     * List: every processor's List, concatenated in the order the map is
     * ranged over (`order`, some arrangement of the titles; `blocks` holds
     * the listing of each). Each block is key-sorted; the whole need not be.
     */
    method List(now: int) returns (result: seq<Metric>, ghost order: seq<string>, ghost blocks: seq<seq<Metric>>)
      ensures multiset(order) == multiset(processors.Keys)
      ensures |blocks| == |order|
      ensures forall j :: 0 <= j < |order| ==> order[j] in processors
      ensures forall j {:trigger blocks[j]} :: 0 <= j < |order| ==>
        blocks[j] == Listing(processors[order[j]].cache.metrics, processors[order[j]].cache.ttl, now)
      ensures result == Concat(blocks)
      ensures forall m :: m in result <==>
        exists t :: t in processors && m in Listing(processors[t].cache.metrics, processors[t].cache.ttl, now)
    {
      var keys := CollectKeys(processors);
      ghost var lists := Listings(processors, now);
      assert forall j :: 0 <= j < |keys| ==> keys[j] in multiset(processors.Keys);
      result := ListTitles(processors, keys, now, lists);
      order := keys;
      blocks := ValuesAt(lists, keys);
      BlocksMember(order, blocks, lists);
    }

    /** Flush: every processor's cache is emptied. */
    method Flush()
      modifies Caches(processors)
      ensures forall t :: t in processors ==> processors[t].cache.metrics == map[]
    {
      var rest := processors.Keys;
      while rest != {}
        invariant rest <= processors.Keys
        invariant forall t :: t in processors && t !in rest ==> processors[t].cache.metrics == map[]
        decreases rest
      {
        var t :| t in rest;
        processors[t].cache.Flush();
        rest := rest - {t};
      }
    }

    /** Regs: index every register by its metric key, sort the keys, list the registers in key order. */
    method Regs() returns (result: seq<Register>)
      requires Wired(config)
      ensures result == RegsOf(config)
    {
      WiredRegistersLinked(config);
      var registers := AddChannels(config.channels);
      var keys := CollectKeys(registers);
      var sorted := SortStrings(keys);
      SortedKeysUnique(sorted, registers.Keys);
      result := LookUp(registers, sorted);
    }
  }

  /** The register map of `channels`, channel by channel. */
  method AddChannels(channels: seq<Channel>) returns (r: map<string, Register>)
    requires forall x :: x in ChannelRegisters(channels) ==> Linked(x)
    ensures r == IndexRegisters(map[], ChannelRegisters(channels))
  {
    r := map[];
    for i := 0 to |channels|
      invariant forall x :: x in ChannelRegisters(channels[..i]) ==> Linked(x)
      invariant r == IndexRegisters(map[], ChannelRegisters(channels[..i]))
    {
      assert channels[..i + 1][..i] == channels[..i];
      assert ChannelRegisters(channels[..i + 1]) == ChannelRegisters(channels[..i]) + DeviceRegisters(channels[i].devices);
      IndexRegistersAppend(map[], ChannelRegisters(channels[..i]), DeviceRegisters(channels[i].devices));
      r := AddDevices(r, channels[i].devices);
    }
    assert channels[..|channels|] == channels;
  }

  /** The registers of `m` under `keys`, in that order. */
  method LookUp(m: map<string, Register>, keys: seq<string>) returns (r: seq<Register>)
    requires forall k :: k in keys ==> k in m
    ensures r == ValuesAt(m, keys)
  {
    r := [];
    for i := 0 to |keys|
      invariant r == ValuesAt(m, keys[..i])
    {
      r := r + [m[keys[i]]];
    }
    assert keys[..|keys|] == keys;
  }

  /** The blocks one after another, in order. */
  function Concat(blocks: seq<seq<Metric>>): seq<Metric> {
    if blocks == [] then []
    else Concat(blocks[..|blocks| - 1]) + blocks[|blocks| - 1]
  }

  /** List's loop: the listings of the processors titled `keys`, concatenated in that order. */
  method ListTitles(ps: map<string, ChannelProcessor>, keys: seq<string>, now: int, ghost lists: map<string, seq<Metric>>)
    returns (result: seq<Metric>)
    requires forall j :: 0 <= j < |keys| ==> keys[j] in ps
    requires lists == Listings(ps, now)
    ensures result == Concat(ValuesAt(lists, keys))
  {
    result := [];
    for i := 0 to |keys|
      invariant result == Concat(ValuesAt(lists, keys[..i]))
    {
      var block := ps[keys[i]].cache.List(now);
      assert block == lists[keys[i]];
      ListedStep(lists, keys, i);
      result := result + block;
    }
    assert keys[..|keys|] == keys;
  }

  /** Listing one more title appends that title's block. */
  lemma ListedStep(lists: map<string, seq<Metric>>, keys: seq<string>, i: int)
    requires forall x :: x in keys ==> x in lists
    requires 0 <= i < |keys|
    ensures Concat(ValuesAt(lists, keys[..i + 1])) == Concat(ValuesAt(lists, keys[..i])) + lists[keys[i]]
  {
    ValuesAtStep(lists, keys, i);
    ConcatStep(ValuesAt(lists, keys[..i]), lists[keys[i]]);
  }

  /** One more block appends its metrics. */
  lemma ConcatStep(blocks: seq<seq<Metric>>, b: seq<Metric>)
    ensures Concat(blocks + [b]) == Concat(blocks) + b
  {
    assert (blocks + [b])[..|blocks|] == blocks;
  }

  /** A metric is in the concatenation exactly when it is in one of the blocks. */
  lemma {:induction false} ConcatMember(blocks: seq<seq<Metric>>, x: Metric)
    ensures x in Concat(blocks) <==> exists j :: 0 <= j < |blocks| && x in blocks[j]
  {
    if blocks != [] {
      var init := blocks[..|blocks| - 1];
      ConcatMember(init, x);
      if x in Concat(init) {
        var j :| 0 <= j < |init| && x in init[j];
        assert x in blocks[j];
      }
      if exists j :: 0 <= j < |blocks| && x in blocks[j] {
        var j :| 0 <= j < |blocks| && x in blocks[j];
        if j < |init| {
          assert x in init[j];
        }
      }
    }
  }

  /**
   * Concatenating one block per title, the titles in any order, lists a
   * metric exactly when some title's block holds it.
   */
  lemma BlocksMember(order: seq<string>, blocks: seq<seq<Metric>>, lists: map<string, seq<Metric>>)
    requires multiset(order) == multiset(lists.Keys) && |blocks| == |order|
    requires forall j :: 0 <= j < |order| ==> order[j] in lists && blocks[j] == lists[order[j]]
    ensures forall x :: x in Concat(blocks) <==> exists t :: t in lists && x in lists[t]
  {
    forall x
      ensures x in Concat(blocks) <==> exists t :: t in lists && x in lists[t]
    {
      ConcatMember(blocks, x);
      if t :| t in lists && x in lists[t] {
        assert t in multiset(order);
        var j :| 0 <= j < |order| && order[j] == t;
        assert x in blocks[j];
      }
    }
  }

  /** `m` after assigning the registers of `devices`, device by device. */
  method AddDevices(m: map<string, Register>, devices: seq<Device>) returns (r: map<string, Register>)
    requires forall x :: x in DeviceRegisters(devices) ==> Linked(x)
    ensures r == IndexRegisters(m, DeviceRegisters(devices))
  {
    r := m;
    for i := 0 to |devices|
      invariant forall x :: x in DeviceRegisters(devices[..i]) ==> Linked(x)
      invariant r == IndexRegisters(m, DeviceRegisters(devices[..i]))
    {
      assert devices[..i + 1][..i] == devices[..i];
      assert DeviceRegisters(devices[..i + 1]) == DeviceRegisters(devices[..i]) + devices[i].registers;
      IndexRegistersAppend(m, DeviceRegisters(devices[..i]), devices[i].registers);
      r := AddRegisters(r, devices[i].registers);
    }
    assert devices[..|devices|] == devices;
  }

  /** `registers` assigned in order under their metric keys. */
  method AddRegisters(m: map<string, Register>, registers: seq<Register>) returns (r: map<string, Register>)
    requires forall x :: x in registers ==> Linked(x)
    ensures r == IndexRegisters(m, registers)
  {
    r := m;
    for i := 0 to |registers|
      invariant r == IndexRegisters(m, registers[..i])
    {
      assert registers[..i + 1][..i] == registers[..i];
      r := r[MetricKey(registers[i]) := registers[i]];
    }
    assert registers[..|registers|] == registers;
  }

  /**
   * What Start builds: one processor per channel title, over the last
   * channel with that title, with a cache of the given TTL.
   */
  ghost predicate Built(ps: map<string, ChannelProcessor>, channels: seq<Channel>, ttl: int) {
    (forall t :: t in ps <==> LastWithTitle(channels, t) >= 0)
    && forall t :: t in ps ==>
      ps[t].commander.channel == channels[LastWithTitle(channels, t)]
      && ps[t].poller.channel == channels[LastWithTitle(channels, t)]
      && ps[t].cache.ttl == ttl
  }

  /** Filing a processor over the next channel under its title extends what Start has built by that channel. */
  lemma BuiltStep(ps: map<string, ChannelProcessor>, channels: seq<Channel>, ttl: int, p: ChannelProcessor)
    requires channels != [] && Built(ps, channels[..|channels| - 1], ttl)
    requires p.commander.channel == channels[|channels| - 1] && p.poller.channel == channels[|channels| - 1]
    requires p.cache.ttl == ttl
    ensures Built(ps[channels[|channels| - 1].title := p], channels, ttl)
  {
  }

  /** `owner` with every part of `p` given to `t`. */
  ghost function Adopted(owner: map<object, string>, p: ChannelProcessor, t: string): (r: map<object, string>)
    ensures r.Keys == owner.Keys + p.Parts()
    ensures Owns(r, p, t)
    ensures forall o :: o in owner && o !in p.Parts() ==> r[o] == owner[o]
  {
    owner[p := t][p.demultiplexer := t][p.executor := t][p.poller := t][p.commander := t][p.cache := t]
  }

  /** Adding a processor with parts nobody owns yet keeps every title's ownership. */
  lemma AdoptedOwned(ps: map<string, ChannelProcessor>, owner: map<object, string>, p: ChannelProcessor, t: string)
    requires Owned(ps, owner)
    requires p.Parts() !! owner.Keys
    ensures Owned(ps[t := p], Adopted(owner, p, t))
  {
    var r := Adopted(owner, p, t);
    forall u | u in ps && u != t
      ensures Owns(r, ps[u], u)
    {
      var q := ps[u];
      assert Owns(owner, q, u);
      assert q.Parts() <= owner.Keys;
    }
  }

  /** A processor as CreateProcessor returns it: consistent, stopped, nothing done yet, writing through `config`, an empty cache. */
  ghost predicate Idle(p: ChannelProcessor, config: Config)
    reads p, p.demultiplexer, p.executor, p.poller, p.cache
  {
    p.Valid() && !p.started && p.trace == [] && p.commander.config == config && p.cache.metrics == map[]
  }

  /** The creation loop of Start: one fresh, stopped processor per title, the last channel winning. */
  method CreateProcessors(config: Config, ttl: int) returns (ps: map<string, ChannelProcessor>, ghost owner: map<object, string>)
    ensures Owned(ps, owner) && fresh(owner.Keys) && Built(ps, config.channels, ttl)
    ensures forall t :: t in ps ==> fresh(ps[t]) && Idle(ps[t], config)
  {
    ps := map[];
    owner := map[];
    var channels := config.channels;
    for i := 0 to |channels|
      invariant Owned(ps, owner) && fresh(owner.Keys) && Built(ps, channels[..i], ttl)
      invariant forall t :: t in ps ==> fresh(ps[t]) && Idle(ps[t], config)
    {
      assert channels[..i + 1][..i] == channels[..i];
      var p;
      ps, owner, p := CreateOne(ps, owner, channels[..i + 1], config, ttl);
    }
    assert channels[..|channels|] == channels;
  }

  /** CreateProcessor for one channel: a fresh processor, not yet started. */
  method NewIdle(c: Channel, config: Config, ttl: int) returns (p: ChannelProcessor)
    ensures fresh(p.Parts()) && Idle(p, config)
    ensures p.commander.channel == c && p.poller.channel == c && p.cache.ttl == ttl
  {
    p := new ChannelProcessor(c, config, ttl);
  }

  /** One step of the creation loop: a processor for the last channel of `channels`, under its title. */
  method CreateOne(ps: map<string, ChannelProcessor>, ghost owner: map<object, string>, channels: seq<Channel>, config: Config, ttl: int)
    returns (ps': map<string, ChannelProcessor>, ghost owner': map<object, string>, p: ChannelProcessor)
    requires channels != []
    requires Owned(ps, owner) && Built(ps, channels[..|channels| - 1], ttl)
    requires forall t :: t in ps ==> Idle(ps[t], config)
    ensures Owned(ps', owner') && Built(ps', channels, ttl)
    ensures ps' == ps[channels[|channels| - 1].title := p]
    ensures owner'.Keys == owner.Keys + p.Parts() && fresh(p.Parts())
    ensures forall t :: t in ps' ==> Idle(ps'[t], config)
  {
    var c := channels[|channels| - 1];
    p := NewIdle(c, config, ttl);
    BuiltStep(ps, channels, ttl, p);
    AdoptedOwned(ps, owner, p, c.title);
    ps' := ps[c.title := p];
    owner' := Adopted(owner, p, c.title);
  }

  /** Start's work once it has decided to run: create the processors, then start each. */
  method Launch(config: Config, ttl: int) returns (ps: map<string, ChannelProcessor>, ghost owner: map<object, string>)
    ensures Owned(ps, owner) && fresh(owner.Keys) && Built(ps, config.channels, ttl)
    ensures forall t :: t in ps ==> fresh(ps[t]) && ps[t].commander.config == config
    ensures forall t :: t in ps ==>
      ps[t].Valid() && ps[t].started && ps[t].trace == StartCalls && ps[t].cache.metrics == map[]
  {
    ps, owner := CreateProcessors(config, ttl);
    StartAll(ps, owner, config);
  }

  /** The start loop of Start: every processor is started once; the caches keep their state. */
  method StartAll(ps: map<string, ChannelProcessor>, ghost owner: map<object, string>, ghost config: Config)
    requires Owned(ps, owner)
    requires forall t :: t in ps ==> Idle(ps[t], config)
    modifies owner.Keys
    ensures forall t :: t in ps ==> ps[t].Valid() && ps[t].started && ps[t].trace == StartCalls && ps[t].cache.metrics == map[]
  {
    var rest := ps.Keys;
    while rest != {}
      invariant rest <= ps.Keys
      invariant forall u :: u in ps ==>
        ps[u].Valid() && ps[u].started == (u !in rest) && ps[u].trace == (if u in rest then [] else StartCalls)
        && ps[u].cache.metrics == map[]
      decreases rest
    {
      var t :| t in rest;
      StartOne(ps, t, rest, owner);
      rest := rest - {t};
    }
  }

  /** The stop loop of Stop: every processor is stopped once; caches and commanders keep their state. */
  method StopAll(ps: map<string, ChannelProcessor>, ghost owner: map<object, string>)
    requires Owned(ps, owner)
    requires forall t :: t in ps ==> ps[t].Valid() && ps[t].started
    modifies owner.Keys
    ensures forall t :: t in ps ==>
      ps[t].Valid() && !ps[t].started && ps[t].trace == old(ps[t].trace) + StopCalls && ps[t].poller.stopped
    ensures unchanged(Caches(ps), CommanderSet(ps))
  {
    ghost var traces := map t | t in ps :: ps[t].trace;
    var rest := ps.Keys;
    while rest != {}
      invariant rest <= ps.Keys
      invariant forall u :: u in ps ==>
        u in traces && ps[u].Valid() && ps[u].started == (u in rest)
        && ps[u].trace == traces[u] + (if u in rest then [] else StopCalls)
        && (u !in rest ==> ps[u].poller.stopped)
      invariant unchanged(Caches(ps), CommanderSet(ps))
      decreases rest
    {
      var t :| t in rest;
      StopOne(ps, t, rest, owner, traces);
      rest := rest - {t};
    }
  }

  /** One step of Start's loop: the processor titled `t` is started; the others and all caches keep their state. */
  method StartOne(ps: map<string, ChannelProcessor>, t: string, rest: set<string>, ghost owner: map<object, string>)
    requires t in rest && rest <= ps.Keys && Owned(ps, owner)
    requires forall u :: u in ps ==>
      ps[u].Valid() && ps[u].started == (u !in rest) && ps[u].trace == (if u in rest then [] else StartCalls)
      && ps[u].cache.metrics == map[]
    modifies ps[t], ps[t].demultiplexer, ps[t].executor, ps[t].poller
    ensures forall u :: u in ps ==>
      ps[u].Valid() && ps[u].started == (u !in rest - {t}) && ps[u].trace == (if u in rest - {t} then [] else StartCalls)
      && ps[u].cache.metrics == map[]
  {
    var p := ps[t];
    assert Owns(owner, p, t);
    p.Start();
  }

  /** One step of Stop's loop: the processor titled `t` is stopped; the others keep their state. */
  method StopOne(ps: map<string, ChannelProcessor>, t: string, rest: set<string>, ghost owner: map<object, string>,
                 ghost traces: map<string, seq<Event>>)
    requires t in rest && rest <= ps.Keys && Owned(ps, owner)
    requires forall u :: u in ps ==>
      u in traces && ps[u].Valid() && ps[u].started == (u in rest)
      && ps[u].trace == traces[u] + (if u in rest then [] else StopCalls)
      && (u !in rest ==> ps[u].poller.stopped)
    modifies ps[t], ps[t].demultiplexer, ps[t].executor, ps[t].poller
    ensures forall u :: u in ps ==>
      u in traces && ps[u].Valid() && ps[u].started == (u in rest - {t})
      && ps[u].trace == traces[u] + (if u in rest - {t} then [] else StopCalls)
      && (u !in rest - {t} ==> ps[u].poller.stopped)
    ensures unchanged(Caches(ps), CommanderSet(ps))
  {
    var p := ps[t];
    assert Owns(owner, p, t);
    p.Stop();
  }
}
