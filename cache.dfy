/**
 * The per-channel metric store (src/bridge/cache.go): a map from
 * "channel:device:register" keys to metrics with lazy TTL expiry. Expired
 * entries are hidden by Get and List but stay stored until overwritten
 * or flushed.
 */
module Cache {
  import opened Basics
  import opened Text
  import opened Ordering
  import opened Model
  import opened Metrics

  /** Get's answer for key `k`: the stored metric unless it is missing or expired. */
  function Visible(metrics: map<string, Metric>, ttl: int, k: string, now: int): (m: Option<Metric>)
    ensures m.Some? <==> k in metrics && !IsExpired(metrics[k], ttl, now)
    ensures m.Some? ==> m.value == metrics[k]
  {
    if k in metrics && !IsExpired(metrics[k], ttl, now) then Some(metrics[k]) else None
  }

  /** The keys among `keys` whose metric is still fresh, in the order of `keys`. */
  function FreshKeys(metrics: map<string, Metric>, ttl: int, now: int, keys: seq<string>): (r: seq<string>)
    requires forall k :: k in keys ==> k in metrics
    ensures forall k :: k in r <==> k in keys && !IsExpired(metrics[k], ttl, now)
  {
    if keys == [] then []
    else
      var last := keys[|keys| - 1];
      var init := FreshKeys(metrics, ttl, now, keys[..|keys| - 1]);
      assert forall k :: k in keys <==> k in keys[..|keys| - 1] || k == last by {
        assert keys == keys[..|keys| - 1] + [last];
      }
      init + (if IsExpired(metrics[last], ttl, now) then [] else [last])
  }

  /** The keys List reports: the fresh ones, in ascending order. */
  ghost function ListedKeys(metrics: map<string, Metric>, ttl: int, now: int): seq<string> {
    FreshKeys(metrics, ttl, now, SortedKeys(metrics.Keys))
  }

  /** The fresh metrics stored under `keys`, in the order of `keys`. */
  function FreshEntries(metrics: map<string, Metric>, ttl: int, now: int, keys: seq<string>): (r: seq<Metric>)
    requires forall k :: k in keys ==> k in metrics
    ensures r == ValuesAt(metrics, FreshKeys(metrics, ttl, now, keys))
  {
    if keys == [] then []
    else
      var last := keys[|keys| - 1];
      var init := FreshEntries(metrics, ttl, now, keys[..|keys| - 1]);
      init + (if IsExpired(metrics[last], ttl, now) then [] else [metrics[last]])
  }

  /** What List returns. */
  ghost function Listing(metrics: map<string, Metric>, ttl: int, now: int): (r: seq<Metric>)
    ensures forall i :: 0 <= i < |r| ==> r[i] in metrics.Values && !IsExpired(r[i], ttl, now)
  {
    FreshEntries(metrics, ttl, now, SortedKeys(metrics.Keys))
  }

  lemma {:induction false} FreshKeysOrdered(metrics: map<string, Metric>, ttl: int, now: int, keys: seq<string>)
    requires forall k :: k in keys ==> k in metrics
    requires StrictlySorted(keys)
    ensures StrictlySorted(FreshKeys(metrics, ttl, now, keys))
  {
    if keys != [] {
      var init := keys[..|keys| - 1];
      var last := keys[|keys| - 1];
      assert StrictlySorted(init);
      FreshKeysOrdered(metrics, ttl, now, init);
      var f := FreshKeys(metrics, ttl, now, init);
      forall i | 0 <= i < |f|
        ensures Less(f[i], last)
      {
        assert f[i] in init;
        var j :| 0 <= j < |init| && init[j] == f[i];
      }
    }
  }

  /**
   * List returns exactly the stored metrics that are not expired, one per
   * key, in strictly ascending key order.
   */
  lemma ListingSpec(metrics: map<string, Metric>, ttl: int, now: int)
    ensures |Listing(metrics, ttl, now)| == |ListedKeys(metrics, ttl, now)|
    ensures StrictlySorted(ListedKeys(metrics, ttl, now))
    ensures forall k :: k in ListedKeys(metrics, ttl, now) <==> k in metrics && !IsExpired(metrics[k], ttl, now)
    ensures forall i :: 0 <= i < |ListedKeys(metrics, ttl, now)| ==>
      Listing(metrics, ttl, now)[i] == metrics[ListedKeys(metrics, ttl, now)[i]]
  {
    FreshKeysOrdered(metrics, ttl, now, SortedKeys(metrics.Keys));
  }

  /** After a Flush nothing is visible and nothing is listed. */
  lemma FlushedIsEmpty(ttl: int, k: string, now: int)
    ensures Visible(map[], ttl, k, now) == None
    ensures Listing(map[], ttl, now) == []
  {
    assert SortedKeys({}) == [];
  }

  /** A Set is seen by the next Get while fresh, and no other key is affected. */
  lemma SetThenGet(metrics: map<string, Metric>, ttl: int, k: string, m: Metric, other: string, now: int)
    ensures !IsExpired(m, ttl, now) ==> Visible(metrics[k := m], ttl, k, now) == Some(m)
    ensures IsExpired(m, ttl, now) ==> Visible(metrics[k := m], ttl, k, now) == None
    ensures other != k ==> Visible(metrics[k := m], ttl, other, now) == Visible(metrics, ttl, other, now)
  {
  }

  /** metricCacheImpl. */
  class MetricCache {
    const ttl: int
    var metrics: map<string, Metric>

    /** CreateMetricCache: an empty store with a fixed TTL. */
    constructor (ttl: int)
      ensures this.ttl == ttl && metrics == map[]
    {
      this.ttl := ttl;
      metrics := map[];
    }

    /** Key: the given channel's title, the register's device title, the register title. */
    static function Key(channel: Channel, register: Register): (k: string)
      requires register.device.Some?
      ensures |k| == |channel.title| + |register.device.value.title| + |register.title| + 2
      ensures k[|channel.title|] == ':' && k[|k| - |register.title| - 1] == ':'
      ensures k[..|channel.title|] == channel.title && k[|k| - |register.title|..] == register.title
      ensures k[|channel.title| + 1..|k| - |register.title| - 1] == register.device.value.title
    {
      channel.title + ":" + register.device.value.title + ":" + register.title
    }

    /** When no title holds ':', the key splits back into the channel, device and register titles. */
    static lemma KeySplit(channel: Channel, register: Register)
      requires register.device.Some?
      requires ':' !in channel.title && ':' !in register.device.value.title && ':' !in register.title
      ensures Split(Key(channel, register), ":") == [channel.title, register.device.value.title, register.title]
    {
      var c, d, t := channel.title, register.device.value.title, register.title;
      assert Key(channel, register) == c + [':'] + d + [':'] + t;
      SplitThree(c, d, t, ':');
    }

    /** Get: the metric under `k`, hidden (but kept) once expired. */
    method Get(k: string, now: int) returns (m: Option<Metric>)
      ensures m == Visible(metrics, ttl, k, now)
    {
      if k !in metrics {
        return None;
      }
      var v := metrics[k];
      if IsExpired(v, ttl, now) {
        return None;
      }
      return Some(v);
    }

    /** Set: store `m` under `k`, replacing what was there. */
    method Set(k: string, m: Metric)
      modifies this
      ensures metrics == old(metrics)[k := m]
    {
      metrics := metrics[k := m];
    }

    /** Flush: delete the keys one by one until none is left, expired or not. */
    method Flush()
      modifies this
      ensures metrics == map[]
    {
      while metrics != map[]
        decreases |metrics.Keys|
      {
        var k :| k in metrics;
        metrics := metrics - {k};
      }
    }

    /** The fresh entries under `keys`, in that order. */
    method Fresh(keys: seq<string>, now: int) returns (result: seq<Metric>)
      requires forall k :: k in keys ==> k in metrics
      ensures result == FreshEntries(metrics, ttl, now, keys)
    {
      result := [];
      var i := 0;
      while i < |keys|
        invariant 0 <= i <= |keys|
        invariant result == FreshEntries(metrics, ttl, now, keys[..i])
      {
        var k := keys[i];
        assert keys[..i + 1][..i] == keys[..i];
        var m := metrics[k];
        if !IsExpired(m, ttl, now) {
          result := result + [m];
        }
        i := i + 1;
      }
      assert keys[..|keys|] == keys;
    }

    /** List: collect the keys, sort them, keep the fresh entries in that order. */
    method List(now: int) returns (result: seq<Metric>)
      ensures result == Listing(metrics, ttl, now)
    {
      var keys := CollectKeys(metrics);
      var sorted := SortStrings(keys);
      SortedKeysUnique(sorted, metrics.Keys);
      result := Fresh(sorted, now);
    }
  }
}
