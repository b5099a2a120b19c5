// The hot store: the client of the recent-data store (Batsd::Redis).  Its
// internals are not part of this model; a client is a record of the calls
// made on it, in order, so that callers can be specified by what they ask
// the store to do.

module Hot {
  /** One retention tier: samples every `interval` seconds, `count` of them kept. */
  datatype Tier = Tier(interval: int, count: int)

  /** How far back a tier reaches: `interval * count` seconds. */
  function Window(t: Tier): int {
    t.interval * t.count
  }

  /** Retentions come from a Ruby Hash keyed by interval: no interval twice. */
  predicate DistinctIntervals(tiers: seq<Tier>) {
    forall i, j :: 0 <= i < j < |tiers| ==> tiers[i].interval != tiers[j].interval
  }

  /** A call made on the hot store client. */
  datatype HotCall =
    | Registered(key: string)                                   // add_datapoint
    | CounterStored(timestamp: int, key: string, count: int)    // store_and_update_all_counters
    | TimerStored(timestamp: int, key: string, reading: string)  // store_timer
    | Unregistered(key: string)                                 // remove_datapoint

  class HotStore {
    const host: string
    const port: int
    const tiers: seq<Tier>
    var calls: seq<HotCall>

    constructor (host: string, port: int, tiers: seq<Tier>)
      ensures this.host == host && this.port == port && this.tiers == tiers
      ensures calls == []
    {
      this.host := host;
      this.port := port;
      this.tiers := tiers;
      calls := [];
    }

    /** `add_datapoint(key)`: list `key` among the available metrics. */
    method AddDatapoint(key: string)
      modifies this
      ensures calls == old(calls) + [Registered(key)]
    {
      calls := calls + [Registered(key)];
    }

    /** `store_and_update_all_counters(timestamp, key, value)`. */
    method StoreAndUpdateAllCounters(timestamp: int, key: string, value: int)
      modifies this
      ensures calls == old(calls) + [CounterStored(timestamp, key, value)]
    {
      calls := calls + [CounterStored(timestamp, key, value)];
    }

    /** `store_timer(timestamp, key, value)`. */
    method StoreTimer(timestamp: int, key: string, value: string)
      modifies this
      ensures calls == old(calls) + [TimerStored(timestamp, key, value)]
    {
      calls := calls + [TimerStored(timestamp, key, value)];
    }

    /** `remove_datapoint(key)`: drop `key` from the available metrics. */
    method RemoveDatapoint(key: string)
      modifies this
      ensures calls == old(calls) + [Unregistered(key)]
    {
      calls := calls + [Unregistered(key)];
    }
  }
}
