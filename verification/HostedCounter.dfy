/** The hosted flow's counter: an in-memory count in front of the KV counter, written back on every
    tenth hit, re-read from the KV after ten seconds. Times are whole milliseconds. */
module HostedCounter {
  import opened Text
  import opened Decimal
  import opened RateLimitKv
  import opened KvCounter

  /** The count including hits not yet written, when it was last synced, and the count then. */
  datatype Memo = Memo(count: u64, lastSyncedAt: nat, kvCount: u64)

  type Memos = map<string, Memo>

  const MAX_ENTRIES: nat := 5000
  const SYNC_INTERVAL_MS: nat := 10_000
  const SYNC_INTERVAL_HITS: nat := 10

  predicate Usable(memos: Memos, key: string, now: nat) {
    key in memos && now as int - memos[key].lastSyncedAt < SYNC_INTERVAL_MS
  }

  /** A hit on a usable memo, and the count to write back if it is the tenth since the last sync. */
  function HitMemo(m: Memo, now: nat): (Memo, Option<u64>) {
    var count := SatAdd64(m.count, 1);
    if SatSub(count, m.kvCount) >= SYNC_INTERVAL_HITS then (Memo(count, now, count), Some(count))
    else (m.(count := count), None)
  }

  function StoredCount(store: Store, key: string, now: nat): u64 {
    match Get(store, key, now / 1000)
    case Some(s) => GetOr(Parse(s, U64_MAX), 0)
    case None => 0
  }

  function PutUnless(fails: bool, store: Store, key: string, count: nat, ttl: nat, now: nat): Store {
    if fails then store else Put(store, key, Print(count), ttl, now / 1000)
  }

  /** Denied from the moment the count, this request included, reaches the limit. */
  function Decide(count: u64, limit: u32): Verdict {
    Verdict(ToU32(count) < limit, ToU32(count), limit, false)
  }

  datatype Site = Site(memos: Memos, store: Store)

  /** The section before the KV read: a usable memo answers at once. */
  function HitPart(s: Site, key: string, limit: u32, ttl: nat, now: nat, writeFails: bool): (Site, Verdict)
    requires Usable(s.memos, key, now)
  {
    var (m, sync) := HitMemo(s.memos[key], now);
    var store := if sync.Some? then PutUnless(writeFails, s.store, key, sync.value, ttl, now) else s.store;
    (Site(s.memos[key := m], store), Decide(m.count, limit))
  }

  /** The section after the KV read of a request that came at `now`: the memo is replaced and the
      count written at `at`. `evicted` are the keys a full cache gives up to make room. */
  function RefreshPart(s: Site, key: string, limit: u32, ttl: nat, now: nat, at: nat, stored: u64, writeFails: bool,
                       evicted: set<string>): (Site, Verdict)
  {
    var count := SatAdd64(stored, 1);
    (Site((s.memos - evicted)[key := Memo(count, now, count)], PutUnless(writeFails, s.store, key, count, ttl, at)),
     Decide(count, limit))
  }

  /** One check with nothing between its two sections. */
  function HostedCheck(s: Site, key: string, limit: u32, ttl: nat, now: nat, faults: Faults, evicted: set<string>)
    : (Site, Verdict)
  {
    if Usable(s.memos, key, now) then HitPart(s, key, limit, ttl, now, faults.write)
    else if faults.read then (s, Verdict(false, 0, limit, true))
    else RefreshPart(s, key, limit, ttl, now, now, StoredCount(s.store, key, now), faults.write, evicted)
  }

  // ---------------------------------------------------------------- eviction

  /** The memos synced within the counter's lifetime. */
  function Recent(memos: Memos, ttl: nat, now: nat): Memos {
    map k | k in memos && memos[k].lastSyncedAt as int > now as int - ttl * 1000 :: memos[k]
  }

  /** A cache below capacity gives up nothing; a full one its expired memos, and if that is not
      enough half of the rest, none of them synced later than one it keeps. */
  predicate EvictionAllowed(memos: Memos, evicted: set<string>, ttl: nat, now: nat) {
    var recent := Recent(memos, ttl, now);
    if |memos| < MAX_ENTRIES then evicted == {}
    else if |recent| < MAX_ENTRIES then memos - evicted == recent
    else
      && evicted <= memos.Keys && memos.Keys - recent.Keys <= evicted
      && |evicted * recent.Keys| == |recent| / 2
      && forall k, l | k in evicted * recent.Keys && l in recent && l !in evicted ::
           recent[k].lastSyncedAt <= recent[l].lastSyncedAt
  }

  lemma RecentKeys(memos: Memos, ttl: nat, now: nat)
    ensures forall k | k in memos :: k in Recent(memos, ttl, now) <==> now < memos[k].lastSyncedAt + ttl * 1000
    ensures Recent(memos, ttl, now).Keys <= memos.Keys
  {
  }

  lemma SizeAfter(memos: Memos, evicted: set<string>)
    requires evicted <= memos.Keys
    ensures |memos - evicted| == |memos| - |evicted|
  {
    assert (memos - evicted).Keys == memos.Keys - evicted;
    assert |(memos - evicted).Keys| == |memos - evicted| && |memos.Keys| == |memos|;
  }

  /** Below 5000 memos nothing is evicted. A full cache evicts exactly the memos not synced within the
      counter's lifetime if fewer than 5000 others are left; else these and others, none of them synced
      later than one it keeps. */
  lemma EvictionMeans(memos: Memos, evicted: set<string>, ttl: nat, now: nat)
    requires EvictionAllowed(memos, evicted, ttl, now)
    ensures |memos| < 5000 ==> evicted == {}
    ensures |memos| >= 5000 ==>
              forall k | k in memos && k !in evicted :: now < memos[k].lastSyncedAt + ttl * 1000
    ensures |memos| >= 5000 && |Recent(memos, ttl, now)| < 5000 ==>
              forall k | k in memos && k in evicted :: memos[k].lastSyncedAt + ttl * 1000 <= now
    ensures |memos| >= 5000 ==> forall k, l |
              k in memos && k in evicted && now < memos[k].lastSyncedAt + ttl * 1000 && l in memos && l !in evicted ::
                memos[k].lastSyncedAt <= memos[l].lastSyncedAt
  {
    RecentKeys(memos, ttl, now);
    if |memos| >= 5000 && |Recent(memos, ttl, now)| < 5000 {
      forall k | k in memos
        ensures k in evicted <==> memos[k].lastSyncedAt + ttl * 1000 <= now
      {
        assert k in memos - evicted <==> k in Recent(memos, ttl, now);
      }
    }
  }

  /** Eviction makes room: a cache of at most 5000 memos is left with fewer. */
  lemma EvictionMakesRoom(memos: Memos, evicted: set<string>, ttl: nat, now: nat)
    requires EvictionAllowed(memos, evicted, ttl, now) && |memos| <= 5000
    ensures |memos - evicted| < 5000
  {
    var recent := Recent(memos, ttl, now);
    if |memos| < 5000 {
      assert memos - evicted == memos;
    } else if |recent| >= 5000 {
      assert |recent| >= 2;
      assert |evicted * recent.Keys| > 0;
      SizeAfter(memos, evicted);
      assert evicted != {};
    }
  }

  method FindOldest(memos: Memos) returns (oldest: string)
    requires memos != map[]
    ensures oldest in memos && forall k | k in memos :: memos[oldest].lastSyncedAt <= memos[k].lastSyncedAt
  {
    var rest := memos.Keys;
    oldest :| oldest in rest;
    rest := rest - {oldest};
    while rest != {}
      invariant oldest in memos && rest <= memos.Keys
      invariant forall k | k in memos && k !in rest :: memos[oldest].lastSyncedAt <= memos[k].lastSyncedAt
    {
      var k :| k in rest;
      if memos[k].lastSyncedAt < memos[oldest].lastSyncedAt {
        oldest := k;
      }
      rest := rest - {k};
    }
  }

  /** The `n` oldest memos, oldest first. */
  method OldestKeys(memos: Memos, n: nat) returns (picked: set<string>)
    requires n <= |memos|
    ensures picked <= memos.Keys && |picked| == n
    ensures forall k, l | k in picked && l in memos && l !in picked :: memos[k].lastSyncedAt <= memos[l].lastSyncedAt
  {
    picked := {};
    var rest := memos;
    while |picked| < n
      invariant picked <= memos.Keys && |picked| <= n && rest == memos - picked
      invariant forall k, l | k in picked && l in rest :: memos[k].lastSyncedAt <= memos[l].lastSyncedAt
      decreases n - |picked|
    {
      assert rest.Keys == memos.Keys - picked && |rest.Keys| == |memos.Keys| - |picked| && |memos.Keys| == |memos|;
      assert rest != map[];
      var k := FindOldest(rest);
      picked := picked + {k};
      rest := rest - {k};
      assert rest == memos - picked;
    }
  }

  lemma SplitEviction(memos: Memos, recent: Memos, half: set<string>)
    requires half <= recent.Keys <= memos.Keys
    ensures var evicted := memos.Keys - recent.Keys + half;
            evicted <= memos.Keys && memos.Keys - recent.Keys <= evicted && evicted * recent.Keys == half
  {
  }

  method ChooseEvicted(memos: Memos, ttl: nat, now: nat) returns (evicted: set<string>)
    ensures EvictionAllowed(memos, evicted, ttl, now)
  {
    if |memos| < MAX_ENTRIES {
      return {};
    }
    var recent := Recent(memos, ttl, now);
    evicted := memos.Keys - recent.Keys;
    if |recent| >= MAX_ENTRIES {
      var half := OldestKeys(recent, |recent| / 2);
      evicted := evicted + half;
      SplitEviction(memos, recent, half);
    } else {
      assert memos - evicted == recent;
    }
  }

  lemma MemoAdded(memos: Memos, key: string, m: Memo)
    ensures |memos[key := m]| == |memos| + (if key in memos then 0 else 1)
  {
    assert memos[key := m].Keys == memos.Keys + {key};
    assert |memos[key := m].Keys| == |memos[key := m]| && |memos.Keys| == |memos|;
  }

  class CounterCache {
    var memos: Memos

    constructor ()
      ensures memos == map[]
    {
      memos := map[];
    }

    /** Everything up to the await on the KV read; `None` means: read the KV, then `Refresh`. */
    method Hit(kv: KvStore, key: string, limit: u32, ttl: nat, now: nat) returns (v: Option<Verdict>)
      modifies this, kv
      ensures v.Some? <==> old(Usable(memos, key, now))
      ensures v.Some? ==> (Site(memos, kv.data), v.value) ==
                            HitPart(Site(old(memos), old(kv.data)), key, limit, ttl, now, old(FaultsOf(kv)).write)
      ensures |memos| == old(|memos|)
      ensures v == None ==> memos == old(memos) && kv.data == old(kv.data) && FaultsOf(kv) == old(FaultsOf(kv))
    {
      v := None;
      if key in memos && now as int - memos[key].lastSyncedAt < SYNC_INTERVAL_MS {
        var (m, sync) := HitMemo(memos[key], now);
        MemoAdded(memos, key, m);
        memos := memos[key := m];
        if sync.Some? {
          var _ := kv.PutWithTtl(key, Print(sync.value), ttl, now / 1000);
        }
        v := Some(Decide(m.count, limit));
      }
    }

    /** Everything after that await; the memos are what other requests have made of them meanwhile. */
    method Refresh(kv: KvStore, key: string, limit: u32, ttl: nat, now: nat, at: nat, stored: u64) returns (v: Verdict)
      modifies this, kv
      ensures exists evicted ::
                && EvictionAllowed(old(memos), evicted, ttl, now)
                && (Site(memos, kv.data), v) ==
                     RefreshPart(Site(old(memos), old(kv.data)), key, limit, ttl, now, at, stored,
                                 old(FaultsOf(kv)).write, evicted)
      ensures old(|memos|) <= 5000 ==> |memos| <= 5000
    {
      ghost var before, fails := Site(memos, kv.data), FaultsOf(kv).write;
      var count := SatAdd64(stored, 1);
      var evicted := ChooseEvicted(memos, ttl, now);
      MemoAdded(memos - evicted, key, Memo(count, now, count));
      if |memos| <= 5000 {
        EvictionMakesRoom(memos, evicted, ttl, now);
      }
      memos := (memos - evicted)[key := Memo(count, now, count)];
      var _ := kv.PutWithTtl(key, Print(count), ttl, at / 1000);
      v := Decide(count, limit);
      assert (Site(memos, kv.data), v) == RefreshPart(before, key, limit, ttl, now, at, stored, fails, evicted);
    }

    /** A check during whose KV read nothing else happens. */
    method Check(kv: KvStore, key: string, limit: u32, ttl: nat, now: nat) returns (v: Verdict)
      modifies this, kv
      ensures exists evicted ::
                && (old(Usable(memos, key, now)) || old(FaultsOf(kv)).read ||
                    EvictionAllowed(old(memos), evicted, ttl, now))
                && (Site(memos, kv.data), v) ==
                     HostedCheck(Site(old(memos), old(kv.data)), key, limit, ttl, now, old(FaultsOf(kv)), evicted)
      ensures old(|memos|) <= 5000 ==> |memos| <= 5000
    {
      ghost var before, faults := Site(memos, kv.data), FaultsOf(kv);
      var hit := Hit(kv, key, limit, ttl, now);
      if hit.Some? {
        assert (Site(memos, kv.data), hit.value) == HostedCheck(before, key, limit, ttl, now, faults, {});
        return hit.value;
      }
      var read := kv.GetText(key, now / 1000);
      if read.Err? {
        v := Verdict(false, 0, limit, true);
        assert (Site(memos, kv.data), v) == HostedCheck(before, key, limit, ttl, now, faults, {});
        return;
      }
      var stored := if read.value.Some? then GetOr(Parse(read.value.value, U64_MAX), 0) else 0;
      v := Refresh(kv, key, limit, ttl, now, now, stored);
    }
  }

  // ---------------------------------------------------------------- what a run counts

  /** One request; `evicted` may be anything, so the results hold for every way of making room. */
  datatype Request = Request(key: string, limit: u32, ttl: nat, now: nat, evicted: set<string>)

  function Serve1(s: Site, r: Request): (Site, Verdict) {
    HostedCheck(s, r.key, r.limit, r.ttl, r.now, NO_FAULTS, r.evicted)
  }

  function Serve(s: Site, reqs: seq<Request>): Site {
    if reqs == [] then s else Serve1(Serve(s, reqs[..|reqs| - 1]), reqs[|reqs| - 1]).0
  }

  function Asked(reqs: seq<Request>, key: string): nat {
    if reqs == [] then 0 else Asked(reqs[..|reqs| - 1], key) + if reqs[|reqs| - 1].key == key then 1 else 0
  }

  function Admitted(s: Site, reqs: seq<Request>, key: string): nat {
    if reqs == [] then 0
    else
      var before, r := reqs[..|reqs| - 1], reqs[|reqs| - 1];
      Admitted(s, before, key) + if r.key == key && Serve1(Serve(s, before), r).1.allowed then 1 else 0
  }

  /** The count in the KV, expired or not. */
  function InKv(s: Site, key: string): u64 {
    if key in s.store then GetOr(Parse(s.store[key].value, U64_MAX), 0) else 0
  }

  /** All requests on the key have the limit `limit` and come while its entry is readable. */
  predicate Steady(s: Site, reqs: seq<Request>, key: string, limit: u32, until: nat) {
    && (key in s.store ==> until <= s.store[key].expiresAt)
    && forall r | r in reqs && r.key == key :: r.limit == limit && r.now / 1000 < until <= r.now / 1000 + r.ttl
  }

  /** Hits in memory that the KV does not know of; nine are allowed for when there is no memo. */
  function Unsynced(s: Site, key: string): nat {
    if key in s.memos then SatSub(s.memos[key].count, s.memos[key].kvCount) else 9
  }

  /** After `n` requests on the key since the KV said `c0`: a memo knows the KV's count and runs at
      most nine ahead of it; the KV has counted at least one request in ten, and never one too many. */
  predicate Inv(s: Site, key: string, c0: nat, n: nat, until: nat) {
    && (key in s.store ==> until <= s.store[key].expiresAt)
    && (key in s.memos ==>
          s.memos[key].kvCount == InKv(s, key) && s.memos[key].kvCount <= s.memos[key].count <= c0 + n)
    && Unsynced(s, key) <= 9
    && c0 <= InKv(s, key) <= c0 + n
    && n <= 10 * (InKv(s, key) - c0) + Unsynced(s, key)
  }

  lemma OthersKeep(s: Site, r: Request, key: string, c0: nat, n: nat, until: nat)
    requires Inv(s, key, c0, n, until) && r.key != key
    ensures Inv(Serve1(s, r).0, key, c0, n, until)
  {
    var s' := Serve1(s, r).0;
    assert InKv(s', key) == InKv(s, key);
    assert key in s'.memos ==> key in s.memos && s'.memos[key] == s.memos[key];
  }

  lemma HitKeeps(s: Site, r: Request, key: string, c0: nat, n: nat, until: nat)
    requires Inv(s, key, c0, n, until) && r.key == key && Usable(s.memos, key, r.now)
    requires r.now / 1000 < until <= r.now / 1000 + r.ttl && c0 + n < U64_MAX
    ensures Inv(Serve1(s, r).0, key, c0, n + 1, until)
    ensures Serve1(s, r).1.count == ToU32(s.memos[key].count + 1)
  {
    ParseOfPrint(s.memos[key].count + 1, U64_MAX);
  }

  lemma MissKeeps(s: Site, r: Request, key: string, c0: nat, n: nat, until: nat)
    requires Inv(s, key, c0, n, until) && r.key == key && !Usable(s.memos, key, r.now)
    requires r.now / 1000 < until <= r.now / 1000 + r.ttl && c0 + n < U64_MAX
    ensures Inv(Serve1(s, r).0, key, c0, n + 1, until)
    ensures Serve1(s, r).1.count == ToU32(InKv(s, key) + 1)
  {
    ParseOfPrint(InKv(s, key) + 1, U64_MAX);
    assert StoredCount(s.store, key, r.now) == InKv(s, key);
  }

  /** What one request on the key adds, and when it is admitted: while `n` requests or fewer have
      come it is, if the limit leaves room for them; and if it is, the KV's count plus what memory
      holds is still below the limit. */
  lemma RequestCounts(s: Site, r: Request, key: string, c0: nat, n: nat, limit: u32, until: nat)
    requires Inv(s, key, c0, n, until) && r.key == key && r.limit == limit
    requires r.now / 1000 < until <= r.now / 1000 + r.ttl && c0 + n < U64_MAX
    ensures var (s', v) := Serve1(s, r);
            && Inv(s', key, c0, n + 1, until)
            && (c0 + n + 1 < limit ==> v.allowed)
            && (v.allowed ==> c0 + 1 < limit && n + 1 <= 10 * (limit - 1 - c0))
  {
    if Usable(s.memos, key, r.now) {
      HitKeeps(s, r, key, c0, n, until);
    } else {
      MissKeeps(s, r, key, c0, n, until);
    }
  }

  /** What is true after a run: `n` requests came on the key and `admitted` were let through. */
  predicate Bounded(s: Site, key: string, c0: nat, n: nat, admitted: nat, limit: u32, until: nat) {
    && Inv(s, key, c0, n, until)
    && Min(n, SatSub(limit, c0 + 1)) <= admitted <= Min(n, 10 * SatSub(limit, c0 + 1))
  }

  lemma OneMore(s: Site, r: Request, key: string, c0: nat, n: nat, admitted: nat, limit: u32, until: nat)
    requires Bounded(s, key, c0, n, admitted, limit, until) && c0 + n < U64_MAX
    requires r.key == key ==> r.limit == limit && r.now / 1000 < until <= r.now / 1000 + r.ttl
    ensures var (s', v) := Serve1(s, r);
            Bounded(s', key, c0, if r.key == key then n + 1 else n,
                    if r.key == key && v.allowed then admitted + 1 else admitted, limit, until)
  {
    hide Serve1, Inv;
    if r.key == key {
      RequestCounts(s, r, key, c0, n, limit, until);
    } else {
      OthersKeep(s, r, key, c0, n, until);
    }
  }

  lemma NoneCounted(s: Site, reqs: seq<Request>, key: string, limit: u32, until: nat)
    requires Steady(s, reqs, key, limit, until) && key !in s.memos && reqs == []
    ensures Asked(reqs, key) == 0
    ensures Bounded(Serve(s, reqs), key, InKv(s, key), 0, Admitted(s, reqs, key), limit, until)
  {
  }

  lemma OneCounted(s: Site, reqs: seq<Request>, key: string, limit: u32, until: nat)
    requires Steady(s, reqs, key, limit, until) && reqs != [] && InKv(s, key) + |reqs| < U64_MAX
    requires var before := reqs[..|reqs| - 1];
             Asked(before, key) < |reqs| &&
             Bounded(Serve(s, before), key, InKv(s, key), Asked(before, key), Admitted(s, before, key), limit, until)
    ensures Asked(reqs, key) <= |reqs|
    ensures Bounded(Serve(s, reqs), key, InKv(s, key), Asked(reqs, key), Admitted(s, reqs, key), limit, until)
  {
    hide Bounded, Serve1, InKv;
    var before, r := reqs[..|reqs| - 1], reqs[|reqs| - 1];
    OneMore(Serve(s, before), r, key, InKv(s, key), Asked(before, key), Admitted(s, before, key), limit, until);
  }

  lemma SteadyBefore(s: Site, reqs: seq<Request>, key: string, limit: u32, until: nat)
    requires Steady(s, reqs, key, limit, until) && reqs != []
    ensures Steady(s, reqs[..|reqs| - 1], key, limit, until)
  {
  }

  lemma {:induction false} RunCounts(s: Site, reqs: seq<Request>, key: string, limit: u32, until: nat)
    requires Steady(s, reqs, key, limit, until) && key !in s.memos
    requires InKv(s, key) + |reqs| < U64_MAX
    ensures Asked(reqs, key) <= |reqs|
    ensures Bounded(Serve(s, reqs), key, InKv(s, key), Asked(reqs, key), Admitted(s, reqs, key), limit, until)
    decreases |reqs|
  {
    hide *;
    if reqs == [] {
      NoneCounted(s, reqs, key, limit, until);
    } else {
      SteadyBefore(s, reqs, key, limit, until);
      RunCounts(s, reqs[..|reqs| - 1], key, limit, until);
      OneCounted(s, reqs, key, limit, until);
    }
  }

  function Min(a: nat, b: nat): nat {
    if a <= b then a else b
  }

  /** For requests checked one after the other by one isolate with a working KV, whatever is evicted
      and whatever other keys are asked for: of `n` requests the KV counts at most all and at least one
      in ten, and with room for `m` more before the last one of the limit, at least the first `m` and at
      most `10 * m` are admitted. */
  lemma {:induction false} HostedBounds(s: Site, reqs: seq<Request>, key: string, limit: u32, until: nat)
    requires Steady(s, reqs, key, limit, until) && key !in s.memos
    requires InKv(s, key) + |reqs| < U64_MAX
    ensures var c0, n := InKv(s, key), Asked(reqs, key);
            && c0 + n / 10 <= InKv(Serve(s, reqs), key) <= c0 + n
            && Min(n, SatSub(limit, c0 + 1)) <= Admitted(s, reqs, key) <= Min(n, 10 * SatSub(limit, c0 + 1))
  {
    RunCounts(s, reqs, key, limit, until);
  }

  // ---------------------------------------------------------------- lifetimes and faults

  /** How long a memo answers: ten seconds from its last write to the KV, which is the check itself if
      it was the tenth hit or found no usable memo, and no hit in between prolongs it. */
  lemma MemoLifetime(s: Site, key: string, limit: u32, ttl: nat, now: nat, faults: Faults, evicted: set<string>,
                     later: nat)
    requires Usable(s.memos, key, now) || !faults.read
    ensures var s' := HostedCheck(s, key, limit, ttl, now, faults, evicted).0;
            var hit := key in s.memos && now < s.memos[key].lastSyncedAt + 10_000;
            Usable(s'.memos, key, later) <==>
              if hit && SatSub(SatAdd64(s.memos[key].count, 1), s.memos[key].kvCount) < 10
              then later < s.memos[key].lastSyncedAt + 10_000
              else later < now + 10_000
  {
  }

  /** A failed read refuses a check that needs it and changes nothing; one with a usable memo does not
      notice. A failed write changes neither the verdict nor the memos, and leaves the KV as it was. */
  lemma FaultsMean(s: Site, key: string, limit: u32, ttl: nat, now: nat, fails: bool, evicted: set<string>)
    ensures var (after, v) := HostedCheck(s, key, limit, ttl, now, Faults(true, fails), evicted);
            if Usable(s.memos, key, now)
            then (after, v) == HostedCheck(s, key, limit, ttl, now, Faults(false, fails), evicted)
            else after == s && !v.allowed && v.readFailed && v.count == 0 && v.limit == limit
    ensures var (after, v) := HostedCheck(s, key, limit, ttl, now, Faults(false, true), evicted);
            var (working, w) := HostedCheck(s, key, limit, ttl, now, NO_FAULTS, evicted);
            v == w && after == Site(working.memos, s.store)
  {
  }

  // ---------------------------------------------------------------- the ledger of dropped hits

  /** Hits that the key's memo counts and the KV does not. */
  function Ahead(s: Site, key: string): nat {
    if key in s.memos then SatSub(s.memos[key].count, s.memos[key].kvCount) else 0
  }

  /** What one check forgets of the key's hits: those of its memo gone stale, or of its memo evicted. */
  function DroppedBy(s: Site, r: Request, key: string): nat {
    if !Usable(s.memos, r.key, r.now) && (r.key == key || key in r.evicted) then Ahead(s, key) else 0
  }

  function Dropped(s: Site, reqs: seq<Request>, key: string): nat {
    if reqs == [] then 0
    else
      var before, r := reqs[..|reqs| - 1], reqs[|reqs| - 1];
      Dropped(s, before, key) + DroppedBy(Serve(s, before), r, key)
  }

  /** What the KV and the memo count together. */
  function Known(s: Site, key: string): nat {
    InKv(s, key) + Ahead(s, key)
  }

  lemma LedgerStep(s: Site, r: Request, key: string, c0: nat, n: nat, until: nat)
    requires Inv(s, key, c0, n, until) && c0 + n < U64_MAX
    requires r.key == key ==> r.now / 1000 < until <= r.now / 1000 + r.ttl
    ensures var (s', v) := Serve1(s, r);
            && Known(s', key) + DroppedBy(s, r, key) == Known(s, key) + (if r.key == key then 1 else 0)
            && (r.key == key ==> v == Decide(Known(s', key), r.limit))
  {
    ParseOfPrint(InKv(s, key) + 1, U64_MAX);
    if r.key == key {
      LedgerStepHere(s, r, c0, n, until);
    } else {
      var s' := Serve1(s, r).0;
      assert InKv(s', key) == InKv(s, key);
      assert key in s'.memos ==> key in s.memos && s'.memos[key] == s.memos[key];
    }
  }

  lemma HitLedger(s: Site, r: Request, c0: nat, n: nat, until: nat)
    requires Inv(s, r.key, c0, n, until) && c0 + n < U64_MAX && Usable(s.memos, r.key, r.now)
    requires r.now / 1000 < until <= r.now / 1000 + r.ttl
    ensures var (s', v) := Serve1(s, r);
            && Known(s', r.key) == Known(s, r.key) + 1 <= U64_MAX
            && v == Decide(Known(s', r.key), r.limit)
  {
    ParseOfPrint(s.memos[r.key].count + 1, U64_MAX);
  }

  lemma MissLedger(s: Site, r: Request, c0: nat, n: nat, until: nat)
    requires Inv(s, r.key, c0, n, until) && c0 + n < U64_MAX && !Usable(s.memos, r.key, r.now)
    requires r.now / 1000 < until <= r.now / 1000 + r.ttl
    ensures var (s', v) := Serve1(s, r);
            && Known(s', r.key) == InKv(s, r.key) + 1 <= U64_MAX
            && v == Decide(Known(s', r.key), r.limit)
  {
    ParseOfPrint(InKv(s, r.key) + 1, U64_MAX);
    assert StoredCount(s.store, r.key, r.now) == InKv(s, r.key);
  }

  lemma LedgerStepHere(s: Site, r: Request, c0: nat, n: nat, until: nat)
    requires Inv(s, r.key, c0, n, until) && c0 + n < U64_MAX
    requires r.now / 1000 < until <= r.now / 1000 + r.ttl
    ensures var (s', v) := Serve1(s, r);
            && Known(s', r.key) <= U64_MAX
            && Known(s', r.key) + DroppedBy(s, r, r.key) == Known(s, r.key) + 1
            && v == Decide(Known(s', r.key), r.limit)
  {
    hide Inv, Serve1, Usable, Ahead, InKv;
    if Usable(s.memos, r.key, r.now) {
      HitLedger(s, r, c0, n, until);
    } else {
      MissLedger(s, r, c0, n, until);
    }
  }

  /** When a check counts exactly: one on the key adds one to what is known unless it finds a stale
      memo with unwritten hits; one on another key changes nothing unless it evicts such a memo. */
  lemma CheckCountsExactly(s: Site, r: Request, key: string, c0: nat, n: nat, until: nat)
    requires Inv(s, key, c0, n, until) && c0 + n < U64_MAX
    requires r.key == key ==> r.now / 1000 < until <= r.now / 1000 + r.ttl
    ensures var s' := Serve1(s, r).0;
            Known(s', key) == Known(s, key) + (if r.key == key then 1 else 0) <==>
              || Usable(s.memos, r.key, r.now)
              || key !in s.memos || s.memos[key].count == s.memos[key].kvCount
              || (r.key != key && key !in r.evicted)
  {
    LedgerStep(s, r, key, c0, n, until);
  }

  lemma {:induction false} LedgerOfRun(s: Site, reqs: seq<Request>, key: string, limit: u32, until: nat)
    requires Steady(s, reqs, key, limit, until) && key !in s.memos
    requires InKv(s, key) + |reqs| < U64_MAX
    ensures Known(Serve(s, reqs), key) + Dropped(s, reqs, key) == InKv(s, key) + Asked(reqs, key)
  {
    if reqs != [] {
      var before, r := reqs[..|reqs| - 1], reqs[|reqs| - 1];
      SteadyBefore(s, reqs, key, limit, until);
      LedgerOfRun(s, before, key, limit, until);
      RunCounts(s, before, key, limit, until);
      hide Serve1, Known, DroppedBy, Inv;
      BoundedInv(Serve(s, before), key, InKv(s, key), Asked(before, key), Admitted(s, before, key), limit, until);
      LedgerStep(Serve(s, before), r, key, InKv(s, key), Asked(before, key), until);
    }
  }

  lemma BoundedInv(s: Site, key: string, c0: nat, n: nat, admitted: nat, limit: u32, until: nat)
    requires Bounded(s, key, c0, n, admitted, limit, until)
    ensures Inv(s, key, c0, n, until)
  {
  }

  /** Every verdict of a run, exactly: a request is let through when the requests on its key so far,
      itself included, less the hits dropped by then, stay below the limit. */
  lemma VerdictByLedger(s: Site, reqs: seq<Request>, key: string, limit: u32, until: nat)
    requires reqs != [] && reqs[|reqs| - 1].key == key
    requires Steady(s, reqs, key, limit, until) && key !in s.memos
    requires InKv(s, key) + |reqs| < U64_MAX
    ensures var known := InKv(s, key) + Asked(reqs, key) - Dropped(s, reqs, key);
            var v := Serve1(Serve(s, reqs[..|reqs| - 1]), reqs[|reqs| - 1]).1;
            && (v.allowed <==> known < limit) && v.count == (if known < U32_MAX then known else U32_MAX)
            && v.limit == limit && !v.readFailed
  {
    var before, r := reqs[..|reqs| - 1], reqs[|reqs| - 1];
    LedgerOfRun(s, reqs, key, limit, until);
    SteadyBefore(s, reqs, key, limit, until);
    RunCounts(s, before, key, limit, until);
    hide Serve1, Known, DroppedBy, Inv;
    BoundedInv(Serve(s, before), key, InKv(s, key), Asked(before, key), Admitted(s, before, key), limit, until);
    LedgerStep(Serve(s, before), r, key, InKv(s, key), Asked(before, key), until);
  }

  /** The KV and the memo together have counted every request on the key exactly when no hit was
      dropped; and then the counter admits exactly the first ones, to one less than the limit. */
  lemma {:induction false} CountsAllUnlessDropped(s: Site, reqs: seq<Request>, key: string, limit: u32, until: nat)
    requires Steady(s, reqs, key, limit, until) && key !in s.memos
    requires InKv(s, key) + |reqs| < U64_MAX
    ensures var c0, n := InKv(s, key), Asked(reqs, key);
            && Known(Serve(s, reqs), key) == c0 + n - Dropped(s, reqs, key)
            && (Known(Serve(s, reqs), key) == c0 + n <==> Dropped(s, reqs, key) == 0)
            && (Dropped(s, reqs, key) == 0 ==> Admitted(s, reqs, key) == Min(n, SatSub(limit, c0 + 1)))
  {
    LedgerOfRun(s, reqs, key, limit, until);
    if Dropped(s, reqs, key) == 0 {
      AdmittedUnlessDropped(s, reqs, key, limit, until);
    }
  }

  lemma {:induction false} AdmittedUnlessDropped(s: Site, reqs: seq<Request>, key: string, limit: u32, until: nat)
    requires Steady(s, reqs, key, limit, until) && key !in s.memos
    requires InKv(s, key) + |reqs| < U64_MAX && Dropped(s, reqs, key) == 0
    ensures Admitted(s, reqs, key) == Min(Asked(reqs, key), SatSub(limit, InKv(s, key) + 1))
  {
    if reqs != [] {
      SteadyBefore(s, reqs, key, limit, until);
      AdmittedUnlessDropped(s, reqs[..|reqs| - 1], key, limit, until);
      hide Serve1, InKv, DroppedBy, Steady;
      if reqs[|reqs| - 1].key == key {
        VerdictByLedger(s, reqs, key, limit, until);
      }
    }
  }

  // ---------------------------------------------------------------- ten counted as one

  /** `n` requests at one moment. */
  function Volley(r: Request, n: nat): seq<Request> {
    if n == 0 then [] else Volley(r, n - 1) + [r]
  }

  /** Volleys of `n` requests, ten seconds apart, starting at `r.now`. */
  function Volleys(r: Request, n: nat, rounds: nat): seq<Request> {
    if rounds == 0 then [] else Volleys(r, n, rounds - 1) + Volley(Later(r, rounds - 1), n)
  }

  lemma {:induction false} ServeOfConcat(s: Site, a: seq<Request>, b: seq<Request>)
    ensures Serve(s, a + b) == Serve(Serve(s, a), b)
  {
    if b == [] {
      assert a + b == a;
    } else {
      assert (a + b)[..|a + b| - 1] == a + b[..|b| - 1];
      ServeOfConcat(s, a, b[..|b| - 1]);
    }
  }

  predicate Stale(s: Site, r: Request, v: u64) {
    && !Usable(s.memos, r.key, r.now) && InKv(s, r.key) == v
    && (r.key in s.store ==> r.now / 1000 < s.store[r.key].expiresAt)
  }

  /** The counter after a miss at `r.now` and `j` hits on the memo it left. */
  predicate Volleyed(s: Site, r: Request, v: nat, j: nat) {
    && v + j + 1 <= U64_MAX
    && r.key in s.memos && s.memos[r.key] == Memo(v + j + 1, r.now, v + 1)
    && InKv(s, r.key) == v + 1
    && r.key in s.store && s.store[r.key].expiresAt == r.now / 1000 + r.ttl
  }

  lemma MissOnce(s: Site, r: Request, v: u64)
    requires Stale(s, r, v) && v + 1 <= U64_MAX
    ensures Volleyed(Serve1(s, r).0, r, v, 0)
  {
    ParseOfPrint(v + 1, U64_MAX);
    assert StoredCount(s.store, r.key, r.now) == v;
  }

  lemma HitOnce(s: Site, r: Request, v: nat, j: nat)
    requires Volleyed(s, r, v, j) && j < 9 && v + j + 2 <= U64_MAX
    ensures Volleyed(Serve1(s, r).0, r, v, j + 1)
  {
  }

  lemma FirstOfVolley(s: Site, r: Request, v: u64, j: nat)
    requires Stale(s, r, v) && j == 0 && v + 10 <= U64_MAX
    ensures Volleyed(Serve(s, Volley(r, j + 1)), r, v, j)
  {
    hide Stale, Volleyed, Serve1;
    assert Volley(r, j + 1) == [r] && [r][..0] == [];
    MissOnce(s, r, v);
  }

  lemma VolleySnoc(s: Site, r: Request, n: nat)
    ensures Serve(s, Volley(r, n + 1)) == Serve1(Serve(s, Volley(r, n)), r).0
  {
    hide Serve1;
    ServeSnoc(s, Volley(r, n), r);
  }

  lemma ServeSnoc(s: Site, a: seq<Request>, r: Request)
    ensures Serve(s, a + [r]) == Serve1(Serve(s, a), r).0
  {
    hide Serve1;
    assert (a + [r])[..|a|] == a;
  }

  lemma NextOfVolley(s: Site, r: Request, v: u64, j: nat)
    requires 0 < j <= 9 && v + 10 <= U64_MAX && Volleyed(Serve(s, Volley(r, j)), r, v, j - 1)
    ensures Volleyed(Serve(s, Volley(r, j + 1)), r, v, j)
  {
    hide *;
    VolleySnoc(s, r, j);
    HitOnce(Serve(s, Volley(r, j)), r, v, j - 1);
  }

  lemma {:induction false} AfterVolley(s: Site, r: Request, v: u64, j: nat)
    requires Stale(s, r, v) && j <= 9 && v + 10 <= U64_MAX
    ensures Volleyed(Serve(s, Volley(r, j + 1)), r, v, j)
    decreases j
  {
    hide *;
    if j == 0 {
      FirstOfVolley(s, r, v, j);
    } else {
      AfterVolley(s, r, v, j - 1);
      NextOfVolley(s, r, v, j);
    }
  }

  function Later(r: Request, rounds: nat): Request {
    r.(now := r.now + SYNC_INTERVAL_MS * rounds)
  }

  lemma VolleyedThenStale(s: Site, r: Request, v: u64, j: nat)
    requires Volleyed(s, r, v, j) && r.ttl > 10
    ensures v + 1 <= U64_MAX && Stale(s, Later(r, 1), v + 1)
  {
    assert (r.now + SYNC_INTERVAL_MS) / 1000 == r.now / 1000 + 10;
  }

  lemma OneVolley(s: Site, r: Request, v: u64, n: nat)
    requires Stale(s, r, v) && 1 <= n <= 10 && v + 10 <= U64_MAX && r.ttl > 10
    ensures Stale(Serve(s, Volley(r, n)), Later(r, 1), v + 1)
  {
    hide *;
    AfterVolley(s, r, v, n - 1);
    VolleyedThenStale(Serve(s, Volley(r, n)), r, v, n - 1);
  }

  lemma NoVolleys(s: Site, r: Request, n: nat, m: nat)
    requires m == 0
    ensures Serve(s, Volleys(r, n, m)) == s && Later(r, m) == r
  {
  }

  lemma MoreVolleys(s: Site, r: Request, v: u64, n: nat, m: nat)
    requires m > 0 && Stale(Serve(s, Volleys(r, n, m - 1)), Later(r, m - 1), v)
    requires 1 <= n <= 10 && v + 10 <= U64_MAX && r.ttl > 10
    ensures Stale(Serve(s, Volleys(r, n, m)), Later(r, m), v + 1)
  {
    var last := Later(r, m - 1);
    assert last.ttl > 10 && Later(last, 1) == Later(r, m);
    hide Stale, Serve, Volley, Later;
    OneVolley(Serve(s, Volleys(r, n, m - 1)), last, v, n);
    ServeOfConcat(s, Volleys(r, n, m - 1), Volley(last, n));
  }

  lemma {:induction false} AfterVolleys(s: Site, r: Request, v: u64, n: nat, m: nat)
    requires Stale(s, r, v) && 1 <= n <= 10 && v + m + 10 <= U64_MAX && r.ttl > 10
    ensures Stale(Serve(s, Volleys(r, n, m)), Later(r, m), v + m)
    decreases m
  {
    hide *;
    if m == 0 {
      NoVolleys(s, r, n, m);
    } else {
      AfterVolleys(s, r, v, n, m - 1);
      MoreVolleys(s, r, v + (m - 1), n, m);
    }
  }

  /** The lower bound is reached: `n * m` requests, for any `n` up to ten and any `m`, raise the KV's
      count by `m` only. A memo gone stale is replaced by the KV's count and its unwritten hits are
      forgotten. */
  lemma TenCountedAsOne(s: Site, r: Request, v: u64, n: nat, m: nat)
    requires Stale(s, r, v) && 1 <= n <= 10 && v + m + 10 <= U64_MAX && r.ttl > 10
    ensures InKv(Serve(s, Volleys(r, n, m)), r.key) == v + m
    ensures |Volleys(r, n, m)| == n * m
  {
    AfterVolleys(s, r, v, n, m);
    VolleysLength(r, n, m);
  }

  lemma {:induction false} VolleysLength(r: Request, n: nat, m: nat)
    ensures |Volleys(r, n, m)| == n * m
  {
    if m > 0 {
      VolleysLength(r, n, m - 1);
      VolleyLength(Later(r, m - 1), n);
      assert n * (m - 1) + n == n * m;
    }
  }

  lemma {:induction false} VolleyLength(r: Request, n: nat)
    ensures |Volley(r, n)| == n
  {
    if n > 0 {
      VolleyLength(r, n - 1);
    }
  }
}
