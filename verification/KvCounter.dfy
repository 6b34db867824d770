/** The read-check-write counter, the fixed-window checks built on it, and the reply chosen for
    a rejected request. */
module KvCounter {
  import opened Text
  import opened Decimal
  import opened RateLimitKv

  /** `(allowed, count, limit, read_failed)`. */
  datatype Verdict = Verdict(allowed: bool, count: u32, limit: u32, readFailed: bool)

  /** Which of the two KV calls of one check fail. */
  datatype Faults = Faults(read: bool, write: bool)

  const NO_FAULTS := Faults(false, false)

  /** `parse().unwrap_or(0)`. */
  function ParseCount(s: string): u32 {
    GetOr(Parse(s, U32_MAX), 0)
  }

  /** The count a read at `now` sees. */
  function Count(store: Store, key: string, now: nat): u32 {
    match Get(store, key, now)
    case Some(s) => ParseCount(s)
    case None => 0
  }

  /** What the half of a check up to the write decides. */
  datatype Reading = Rejected(verdict: Verdict) | Admissible(count: u32)

  function ReadPhase(store: Store, key: string, limit: u32, now: nat, fails: bool): Reading {
    if fails then Rejected(Verdict(false, 0, limit, true))
    else
      var count := Count(store, key, now);
      if count >= limit then Rejected(Verdict(false, count, limit, false)) else Admissible(count)
  }

  function WritePhase(store: Store, key: string, count: u32, ttl: nat, now: nat, fails: bool): Store {
    if fails then store else Put(store, key, Print(SatAdd32(count, 1)), ttl, now)
  }

  /** One whole check, read and write with nothing in between. */
  function Check(store: Store, key: string, limit: u32, ttl: nat, now: nat, faults: Faults): (Store, Verdict) {
    match ReadPhase(store, key, limit, now, faults.read)
    case Rejected(verdict) => (store, verdict)
    case Admissible(count) =>
      (WritePhase(store, key, count, ttl, now, faults.write),
       Verdict(true, SatAdd32(count, 1), limit, false))
  }

  function FaultsOf(kv: KvStore): Faults
    reads kv
  {
    Faults(kv.getError.Some?, kv.putError.Some?)
  }

  method CheckKvCounter(kv: KvStore, key: string, limit: u32, ttl: nat, now: nat) returns (v: Verdict)
    modifies kv
    ensures (kv.data, v) == Check(old(kv.data), key, limit, ttl, now, old(FaultsOf(kv)))
    ensures kv.puts == old(kv.puts) +
              if v.allowed && !old(FaultsOf(kv)).write then [PutRecord(key, Print(v.count), ttl)] else []
    ensures !old(FaultsOf(kv)).read ==> !FaultsOf(kv).read
    ensures !old(FaultsOf(kv)).write ==> !FaultsOf(kv).write
  {
    var count: u32 := 0;
    var read := kv.GetText(key, now);
    match read {
      case Ok(Some(s)) => count := ParseCount(s);
      case Ok(None) => count := 0;
      case Err(_) => return Verdict(false, 0, limit, true);
    }
    if count >= limit {
      return Verdict(false, count, limit, false);
    }
    var _ := kv.PutWithTtl(key, Print(SatAdd32(count, 1)), ttl, now);
    v := Verdict(true, SatAdd32(count, 1), limit, false);
  }

  // ---------------------------------------------------------------- fixed windows

  const HOUR: nat := 3600
  const MINUTE: nat := 60

  /** The start of the window that holds `now`; it is at most `now`, so the source's saturating
      multiplication never saturates. */
  function WindowStart(now: u64, window: nat): (start: u64)
    requires window > 0
    ensures start <= now < start + window
  {
    now / window * window
  }

  const MAX_ADVERTISED_RETRY_AFTER_SECS: u32 := 60

  function ClampRetryAfter(secs: u32): u32 {
    if secs < MAX_ADVERTISED_RETRY_AFTER_SECS then secs else MAX_ADVERTISED_RETRY_AFTER_SECS
  }

  function ToU32(n: nat): u32 {
    if n <= U32_MAX then n else U32_MAX
  }

  function RetryAfter(now: u64, window: u64): u32
    requires window > 0
  {
    ClampRetryAfter(ToU32(SatSub(SatAdd64(WindowStart(now, window), window), now)))
  }

  datatype RateLimitResult = RateLimitResult(
    allowed: bool, currentCount: u32, limit: u32, retryAfterSecs: u32, readFailed: bool)

  function ResultOf(v: Verdict, now: u64, window: u64): RateLimitResult
    requires window > 0
  {
    RateLimitResult(v.allowed, v.count, v.limit, RetryAfter(now, window), v.readFailed)
  }

  function QuotaKey(client: string, endpoint: string, window: nat): string {
    "quota:" + (client + ":" + (endpoint + ":" + Print(window)))
  }

  function AccountQuotaKey(client: string, endpoint: string, window: nat): string {
    "acct_quota:" + (client + ":" + (endpoint + ":" + Print(window)))
  }

  /** `prefix` is one of `global_ip:`, `health_ip:`, `metrics_ip:`, `short_code:`. */
  function PerIpKey(prefix: string, ip: string, window: nat): string {
    prefix + (ip + ":" + Print(window))
  }

  function CatchallKey(hashedIp: string, window: nat): string {
    "catchall:" + (hashedIp + ":" + Print(window))
  }

  function HostedIpKey(hashedIp: string, endpoint: string, window: nat): string {
    "hosted:" + (endpoint + ":" + (hashedIp + ":" + Print(window)))
  }

  function ExpertIpKey(hashedIp: string, endpoint: string, window: nat): string {
    "expert_ip:" + (endpoint + ":" + (hashedIp + ":" + Print(window)))
  }

  /** Two windows of lifetime per entry: 7200 s for hourly buckets, 120 s for minute buckets. */
  function WindowTtl(window: nat): nat {
    2 * window
  }

  method CheckWindow(kv: KvStore, key: string, limit: u32, window: u64, now: u64) returns (r: RateLimitResult)
    requires window > 0
    modifies kv
    ensures var (store, v) := Check(old(kv.data), key, limit, WindowTtl(window), now, old(FaultsOf(kv)));
            kv.data == store && r == ResultOf(v, now, window)
    ensures !old(FaultsOf(kv)).read ==> !FaultsOf(kv).read
    ensures !old(FaultsOf(kv)).write ==> !FaultsOf(kv).write
  {
    var v := CheckKvCounter(kv, key, limit, WindowTtl(window), now);
    r := ResultOf(v, now, window);
  }

  method CheckPerIpLimit(kv: KvStore, prefix: string, ip: string, limit: u32, now: u64) returns (r: RateLimitResult)
    modifies kv
    ensures var key := PerIpKey(prefix, ip, WindowStart(now, HOUR));
            var (store, v) := Check(old(kv.data), key, limit, 7200, now, old(FaultsOf(kv)));
            kv.data == store && r == ResultOf(v, now, HOUR)
    ensures !old(FaultsOf(kv)).read ==> !FaultsOf(kv).read
    ensures !old(FaultsOf(kv)).write ==> !FaultsOf(kv).write
  {
    r := CheckWindow(kv, PerIpKey(prefix, ip, WindowStart(now, HOUR)), limit, HOUR, now);
  }

  method CheckCatchallLimit(kv: KvStore, hashedIp: string, limit: u32, now: u64) returns (r: RateLimitResult)
    modifies kv
    ensures var key := CatchallKey(hashedIp, WindowStart(now, MINUTE));
            var (store, v) := Check(old(kv.data), key, limit, 120, now, old(FaultsOf(kv)));
            kv.data == store && r == ResultOf(v, now, MINUTE)
  {
    r := CheckWindow(kv, CatchallKey(hashedIp, WindowStart(now, MINUTE)), limit, MINUTE, now);
  }

  method CheckHostedIpLimit(kv: KvStore, hashedIp: string, endpoint: string, limit: u32, now: u64)
    returns (r: RateLimitResult)
    modifies kv
    ensures var key := HostedIpKey(hashedIp, endpoint, WindowStart(now, HOUR));
            var (store, v) := Check(old(kv.data), key, limit, 7200, now, old(FaultsOf(kv)));
            kv.data == store && r == ResultOf(v, now, HOUR)
    ensures !old(FaultsOf(kv)).read ==> !FaultsOf(kv).read
    ensures !old(FaultsOf(kv)).write ==> !FaultsOf(kv).write
  {
    r := CheckWindow(kv, HostedIpKey(hashedIp, endpoint, WindowStart(now, HOUR)), limit, HOUR, now);
  }

  method CheckExpertIpLimit(kv: KvStore, hashedIp: string, endpoint: string, limit: u32, now: u64)
    returns (r: RateLimitResult)
    modifies kv
    ensures var key := ExpertIpKey(hashedIp, endpoint, WindowStart(now, HOUR));
            var (store, v) := Check(old(kv.data), key, limit, 7200, now, old(FaultsOf(kv)));
            kv.data == store && r == ResultOf(v, now, HOUR)
    ensures !old(FaultsOf(kv)).read ==> !FaultsOf(kv).read
    ensures !old(FaultsOf(kv)).write ==> !FaultsOf(kv).write
  {
    r := CheckWindow(kv, ExpertIpKey(hashedIp, endpoint, WindowStart(now, HOUR)), limit, HOUR, now);
  }

  /** The counting half of the pre-authentication quota check; the limit is the caller's tier limit. */
  method CountQuota(kv: KvStore, client: string, endpoint: string, limit: u32, now: u64) returns (r: RateLimitResult)
    modifies kv
    ensures var key := QuotaKey(client, endpoint, WindowStart(now, HOUR));
            var (store, v) := Check(old(kv.data), key, limit, 7200, now, old(FaultsOf(kv)));
            kv.data == store && r == ResultOf(v, now, HOUR)
    ensures !old(FaultsOf(kv)).read ==> !FaultsOf(kv).read
    ensures !old(FaultsOf(kv)).write ==> !FaultsOf(kv).write
  {
    r := CheckWindow(kv, QuotaKey(client, endpoint, WindowStart(now, HOUR)), limit, HOUR, now);
  }

  /** The same after authentication, keyed on the verified client with no IP component. */
  method CountAccountQuota(kv: KvStore, client: string, endpoint: string, limit: u32, now: u64)
    returns (r: RateLimitResult)
    modifies kv
    ensures var key := AccountQuotaKey(client, endpoint, WindowStart(now, HOUR));
            var (store, v) := Check(old(kv.data), key, limit, 7200, now, old(FaultsOf(kv)));
            kv.data == store && r == ResultOf(v, now, HOUR)
    ensures !old(FaultsOf(kv)).read ==> !FaultsOf(kv).read
    ensures !old(FaultsOf(kv)).write ==> !FaultsOf(kv).write
  {
    r := CheckWindow(kv, AccountQuotaKey(client, endpoint, WindowStart(now, HOUR)), limit, HOUR, now);
  }

  // ---------------------------------------------------------------- the reply to a rejected request

  const READ_FAILURE_RETRY_AFTER_SECS: u32 := 5

  datatype Reply = Reply(status: nat, retryAfter: u32)

  /** `rate_limit_or_unavailable_response`, called at every rejection. */
  function RejectionReply(r: RateLimitResult): Reply {
    if r.readFailed then Reply(503, READ_FAILURE_RETRY_AFTER_SECS) else Reply(429, r.retryAfterSecs)
  }

  /** The whole meaning of one check. It admits exactly when its read worked and the stored count is
      below the limit, and then reports the count with the request in it; a rejection reports the count
      it found, nothing if the read failed, and leaves the KV alone. A rejection is answered 503 after
      five seconds exactly when the read failed and 429 otherwise; a lost write never rejects. The
      advertised wait is 1 to 60 seconds except in the last second a 64-bit clock can show. */
  lemma RejectionMeaning(store: Store, key: string, limit: u32, window: u64, now: u64, faults: Faults)
    requires window > 0
    ensures var (after, v) := Check(store, key, limit, WindowTtl(window), now, faults);
            var r, count := ResultOf(v, now, window), Count(store, key, now);
            var reply := RejectionReply(r);
            && r.limit == limit && r.readFailed == faults.read
            && (r.allowed <==> !faults.read && count < limit)
            && r.currentCount == (if faults.read then 0 else if count < limit then count + 1 else count)
            && (!r.allowed || faults.write ==> after == store)
            && (!r.allowed && faults.read ==> reply == Reply(503, 5))
            && (!r.allowed && !faults.read ==> reply == Reply(429, RetryAfter(now, window)) && count >= limit)
            && reply.retryAfter <= 60
            && (!r.allowed ==> (reply.retryAfter == 0 <==> !faults.read && now == U64_MAX))
  {
  }

  /** An admitted and written request is counted once for as long as its entry lives, and then the
      counter starts over: the next working check with a positive limit is admitted. */
  lemma CountsAndStartsOver(store: Store, key: string, limit: u32, ttl: nat, now: nat, t: nat, limit': u32, ttl': nat,
                            faults': Faults)
    requires Check(store, key, limit, ttl, now, NO_FAULTS).1.allowed
    ensures var after := Check(store, key, limit, ttl, now, NO_FAULTS).0;
            && Count(after, key, t) == (if t < now + ttl then Count(store, key, now) + 1 else 0)
            && (now + ttl <= t && limit' > 0 && !faults'.read ==>
                  Check(after, key, limit', ttl', t, faults').1 == Verdict(true, 1, limit', false))
  {
    ParseOfPrint(SatAdd32(Count(store, key, now), 1), U32_MAX);
  }

  /** What is stored counts for the number it denotes, and for nothing if it denotes none. */
  lemma CountMeans(store: Store, key: string, now: nat, n: u32)
    ensures Count(store, key, now) == n && n > 0 <==>
              && n > 0 && key in store && now < store[key].expiresAt && Denotes(store[key].value, n)
    ensures key !in store || store[key].expiresAt <= now ==> Count(store, key, now) == 0
  {
    if key in store {
      ParseMeans(store[key].value, U32_MAX, n);
    }
  }
}
