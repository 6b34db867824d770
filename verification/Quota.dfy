/** The two quota checks: the tier lookup gives the limit, the counter of the hour is checked
    against it. */
module Quota {
  import opened Text
  import opened Decimal
  import opened RateLimitKv
  import opened KvCounter
  import opened TierCache
  import opened CounterKeys

  /** The limit a lookup returns. If its first read fails there is no second one. */
  function CustomerLimit(entries: map<string, TierEntry>, config: Store, readFails: bool, client: string,
                         endpoint: string, default: u32, now: u64, parse: string -> Limits): u32
  {
    if Hit(entries, client, now) then LimitFor(entries[client].limits, endpoint, default)
    else
      var tier := if readFails then None else Get(config, ClientPath(client), now);
      var json := if tier.None? then None else Get(config, TierPath(tier.value), now);
      PlainLimit(tier, json, endpoint, default, parse)
  }

  /** What the limit is, in terms of the cache and the stored texts. */
  lemma CustomerLimitMeans(entries: map<string, TierEntry>, config: Store, readFails: bool, client: string,
                           endpoint: string, default: u32, now: u64, parse: string -> Limits)
    ensures var live := client in entries && now < entries[client].fetchedAt + 60;
            var tier := if readFails then None else Get(config, "rate_limits/clients/" + client, now);
            var json := if tier.None? then None else Get(config, "rate_limits/tiers/" + tier.value, now);
            var limits := if live then entries[client].limits
                          else if json.Some? then parse(json.value) else map[];
            CustomerLimit(entries, config, readFails, client, endpoint, default, now, parse) ==
              if endpoint in limits then limits[endpoint] else default
  {
    HitMeans(entries, client, endpoint, default, now);
    PlainLimitMeans(config, now, client, endpoint, default, parse);
  }

  /** The faults the counter meets after the lookup. When both use one store, as they do for the
      public routes, a lookup that misses the cache uses up an error that is not persistent. */
  function FaultsLeft(faults: Faults, shared: bool, hit: bool, persistent: bool): Faults {
    if shared && !hit && !persistent then faults.(read := false) else faults
  }

  method CheckQuota(cache: Cache, rateKv: KvStore, configKv: KvStore, client: string, endpoint: string, default: u32,
                    now: u64, parse: string -> Limits)
    returns (r: RateLimitResult)
    modifies cache, rateKv, configKv
    ensures var limit := CustomerLimit(old(cache.entries), old(configKv.data), old(configKv.getError).Some?, client,
                                       endpoint, default, now, parse);
            var faults := FaultsLeft(old(FaultsOf(rateKv)), rateKv == configKv, old(Hit(cache.entries, client, now)),
                                     old(rateKv.persistentErrors));
            var key := QuotaKey(client, endpoint, WindowStart(now, HOUR));
            var (store, v) := Check(old(rateKv.data), key, limit, 7200, now, faults);
            rateKv.data == store && r == ResultOf(v, now, HOUR)
    ensures rateKv != configKv ==> configKv.data == old(configKv.data)
  {
    var limit := GetCustomerLimit(cache, configKv, client, endpoint, default, now, parse);
    r := CountQuota(rateKv, client, endpoint, limit, now);
  }

  method CheckAccountQuota(cache: Cache, rateKv: KvStore, configKv: KvStore, client: string, endpoint: string,
                           default: u32, now: u64, parse: string -> Limits)
    returns (r: RateLimitResult)
    modifies cache, rateKv, configKv
    ensures var limit := CustomerLimit(old(cache.entries), old(configKv.data), old(configKv.getError).Some?, client,
                                       endpoint, default, now, parse);
            var faults := FaultsLeft(old(FaultsOf(rateKv)), rateKv == configKv, old(Hit(cache.entries, client, now)),
                                     old(rateKv.persistentErrors));
            var key := AccountQuotaKey(client, endpoint, WindowStart(now, HOUR));
            var (store, v) := Check(old(rateKv.data), key, limit, 7200, now, faults);
            rateKv.data == store && r == ResultOf(v, now, HOUR)
    ensures rateKv != configKv ==> configKv.data == old(configKv.data)
  {
    var limit := GetCustomerLimit(cache, configKv, client, endpoint, default, now, parse);
    r := CountAccountQuota(rateKv, client, endpoint, limit, now);
  }

  // ---------------------------------------------------------------- one store for counters and tiers

  lemma NamespaceHasNoSlash(b: Bucket)
    ensures '/' !in Namespace(b)
  {
  }

  /** A text whose first colon follows a name without a slash does not start with a path that has a
      slash and no colon. */
  lemma NotUnderPath(name: string, rest: string, path: string, tail: string)
    requires ':' !in path && '/' in path && '/' !in name
    ensures name + ":" + rest != path + tail
  {
    var s, t := name + ":" + rest, path + tail;
    if |name| < |path| {
      assert s[|name|] == ':' && t[|name|] == path[|name|] && path[|name|] in path;
    } else {
      var i :| 0 <= i < |path| && path[i] == '/';
      assert s[i] == name[i] && t[i] == '/' && name[i] in name;
    }
  }

  /** No counter has the key of a client's tier or of a tier's limits. */
  lemma CountersApartFromTiers(b: Bucket, client: string, tier: string)
    ensures Key(b) != ClientPath(client) && Key(b) != TierPath(tier)
  {
    hide Key, Namespace, Rest;
    KeyParts(b);
    NamespaceHasNoSlash(b);
    assert "rate_limits/clients/"[11] == '/' && "rate_limits/tiers/"[11] == '/';
    NotUnderPath(Namespace(b), Rest(b), "rate_limits/clients/", client);
    NotUnderPath(Namespace(b), Rest(b), "rate_limits/tiers/", tier);
  }

  /** However counters and tiers share a store, no check on any counter, with any fault, changes the
      limit any lookup returns at any time. */
  lemma ChecksKeepLimits(store: Store, b: Bucket, limit: u32, ttl: nat, at: nat, faults: Faults,
                         entries: map<string, TierEntry>, readFails: bool, client: string, endpoint: string,
                         default: u32, now: u64, parse: string -> Limits)
    ensures var (after, _) := Check(store, Key(b), limit, ttl, at, faults);
            CustomerLimit(entries, after, readFails, client, endpoint, default, now, parse) ==
            CustomerLimit(entries, store, readFails, client, endpoint, default, now, parse)
  {
    hide Key, Print, Parse, ClientPath, TierPath;
    CountersApartFromTiers(b, client, "");
    var tier := if readFails then None else Get(store, ClientPath(client), now);
    if tier.Some? {
      CountersApartFromTiers(b, client, tier.value);
    }
  }
}
