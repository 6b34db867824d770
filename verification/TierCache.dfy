/** The 60-second in-memory cache in front of the two-hop tier lookup: client to tier, tier to
    limits. The limits text is JSON; its parser is a parameter, `parse`. */
module TierCache {
  import opened Text
  import opened Decimal
  import opened RateLimitKv

  type Limits = map<string, u32>

  datatype TierEntry = TierEntry(limits: Limits, fetchedAt: u64)

  const CAPACITY: nat := 1000
  const FRESH_SECS: nat := 60

  function ClientPath(client: string): string {
    "rate_limits/clients/" + client
  }

  function TierPath(tier: string): string {
    "rate_limits/tiers/" + tier
  }

  function LimitFor(limits: Limits, endpoint: string, default: u32): u32 {
    if endpoint in limits then limits[endpoint] else default
  }

  function LimitsIn(json: Option<string>, parse: string -> Limits): Limits {
    match json
    case Some(text) => parse(text)
    case None => map[]
  }

  /** The uncached lookup, as a function of what its two KV reads returned. A failed read and a
      missing key look alike. */
  function PlainLimit(tier: Option<string>, json: Option<string>, endpoint: string, default: u32,
                      parse: string -> Limits): u32
  {
    if tier.None? then default else LimitFor(LimitsIn(json, parse), endpoint, default)
  }

  // ---------------------------------------------------------------- the cache

  predicate Fresh(entry: TierEntry, now: u64) {
    SatSub(now, entry.fetchedAt) < FRESH_SECS
  }

  predicate Hit(entries: map<string, TierEntry>, client: string, now: u64) {
    client in entries && Fresh(entries[client], now)
  }

  /** No entry is older. */
  predicate Oldest(entries: map<string, TierEntry>, victim: string) {
    victim in entries && forall c | c in entries :: entries[victim].fetchedAt <= entries[c].fetchedAt
  }

  /** A full cache first gives up an oldest entry; `victim` says which, as several may tie. */
  function Inserted(entries: map<string, TierEntry>, victim: string, client: string, entry: TierEntry)
    : map<string, TierEntry>
  {
    (if |entries| >= CAPACITY then entries - {victim} else entries)[client := entry]
  }

  class Cache {
    var entries: map<string, TierEntry>

    constructor ()
      ensures entries == map[]
    {
      entries := map[];
    }

    method Lookup(client: string, endpoint: string, default: u32, now: u64) returns (limit: Option<u32>)
      ensures limit.Some? <==> client in entries && now < entries[client].fetchedAt + 60
      ensures limit.Some? && endpoint in entries[client].limits ==> limit.value == entries[client].limits[endpoint]
      ensures limit.Some? && endpoint !in entries[client].limits ==> limit.value == default
    {
      if client in entries {
        var entry := entries[client];
        if SatSub(now, entry.fetchedAt) < FRESH_SECS {
          return Some(LimitFor(entry.limits, endpoint, default));
        }
      }
      limit := None;
    }

    /** `iter().min_by_key(fetched_at)`, over keys in any order. */
    method FindOldest() returns (victim: string)
      requires entries != map[]
      ensures Oldest(entries, victim)
    {
      var rest := entries.Keys;
      victim :| victim in rest;
      rest := rest - {victim};
      while rest != {}
        invariant victim in entries && rest <= entries.Keys
        invariant forall c | c in entries && c !in rest :: entries[victim].fetchedAt <= entries[c].fetchedAt
      {
        var c :| c in rest;
        if entries[c].fetchedAt < entries[victim].fetchedAt {
          victim := c;
        }
        rest := rest - {c};
      }
    }

    method Insert(client: string, limits: Limits, now: u64)
      modifies this
      ensures exists victim ::
                && (|old(entries)| >= CAPACITY ==> Oldest(old(entries), victim))
                && entries == Inserted(old(entries), victim, client, TierEntry(limits, now))
      ensures |old(entries)| <= CAPACITY ==> |entries| <= CAPACITY
    {
      var victim := "";
      var kept := entries;
      if |entries| >= CAPACITY {
        victim := FindOldest();
        kept := entries - {victim};
        RemoveOne(entries, victim);
      }
      entries := kept[client := TierEntry(limits, now)];
      InsertOne(kept, client, TierEntry(limits, now));
      assert entries == Inserted(old(entries), victim, client, TierEntry(limits, now));
    }
  }

  lemma RemoveOne(m: map<string, TierEntry>, k: string)
    requires k in m
    ensures |m - {k}| == |m| - 1
  {
    assert (m - {k}).Keys == m.Keys - {k};
    assert |(m - {k}).Keys| == |m - {k}| && |m.Keys| == |m|;
  }

  lemma InsertOne(m: map<string, TierEntry>, k: string, e: TierEntry)
    ensures |m[k := e]| <= |m| + 1
  {
    assert m[k := e].Keys == m.Keys + {k};
    assert |m[k := e].Keys| == |m[k := e]| && |m.Keys| == |m|;
  }

  /** What the limit is, in terms of the stored texts: the one that the tier's text parses to for the
      endpoint, and the default if the client has no tier, the tier no text or the text no such endpoint. */
  lemma PlainLimitMeans(config: Store, now: nat, client: string, endpoint: string, default: u32,
                        parse: string -> Limits)
    ensures var tier := Get(config, "rate_limits/clients/" + client, now);
            var json := if tier.None? then None else Get(config, "rate_limits/tiers/" + tier.value, now);
            var limit := PlainLimit(Get(config, ClientPath(client), now),
                                    if tier.None? then None else Get(config, TierPath(tier.value), now),
                                    endpoint, default, parse);
            && (json.Some? && endpoint in parse(json.value) ==> limit == parse(json.value)[endpoint])
            && (json.None? || endpoint !in parse(json.value) ==> limit == default)
  {
  }

  /** A fresh entry is one fetched less than 60 seconds ago, and answers with its own limit. */
  lemma HitMeans(entries: map<string, TierEntry>, client: string, endpoint: string, default: u32, now: u64)
    ensures Hit(entries, client, now) <==> client in entries && now < entries[client].fetchedAt + 60
    ensures client in entries && endpoint in entries[client].limits ==>
              LimitFor(entries[client].limits, endpoint, default) == entries[client].limits[endpoint]
    ensures client in entries && endpoint !in entries[client].limits ==>
              LimitFor(entries[client].limits, endpoint, default) == default
  {
  }

  /** The whole lookup by a caller with the KV to itself. */
  method GetCustomerLimit(cache: Cache, kv: KvStore, client: string, endpoint: string, default: u32, now: u64,
                          parse: string -> Limits)
    returns (limit: u32)
    modifies cache, kv
    ensures var live := client in old(cache.entries) && now < old(cache.entries)[client].fetchedAt + 60;
            var tier := if old(kv.getError).Some? then None
                        else Get(old(kv.data), "rate_limits/clients/" + client, now);
            var json := if tier.None? then None else Get(old(kv.data), "rate_limits/tiers/" + tier.value, now);
            var limits := if live then old(cache.entries)[client].limits
                          else if json.Some? then parse(json.value) else map[];
            && limit == (if endpoint in limits then limits[endpoint] else default)
            && (live || tier.None? ==> cache.entries == old(cache.entries))
            && (!live && tier.Some? ==> client in cache.entries && cache.entries[client] == TierEntry(limits, now))
            && kv.data == old(kv.data) && kv.putError == old(kv.putError)
            && kv.persistentErrors == old(kv.persistentErrors)
            && kv.getError == (if live || kv.persistentErrors then old(kv.getError) else None)
    ensures old(|cache.entries|) <= 1000 ==> |cache.entries| <= 1000
  {
    var cached := cache.Lookup(client, endpoint, default, now);
    if cached.Some? {
      return cached.value;
    }
    var tier := kv.GetText(ClientPath(client), now);
    if tier.Err? || tier.value.None? {
      return default;
    }
    var json := kv.GetText(TierPath(tier.value.value), now);
    var limits: Limits := map[];
    if json.Ok? && json.value.Some? {
      limits := parse(json.value.value);
    }
    limit := LimitFor(limits, endpoint, default);
    cache.Insert(client, limits, now);
  }
}
