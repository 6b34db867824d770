/** Counters over time: what one key admits in a span of seconds, what a family of fixed windows
    admits in an interval, and where a client that obeys Retry-After ends up. Requests are served
    one after the other under a clock that does not go back; either KV call of each may fail. */
module CounterWindows {
  import opened Text
  import opened Decimal
  import opened RateLimitKv
  import opened KvCounter
  import CounterKeys

  type positive = n: nat | n > 0 witness 1

  /** A counter with a new key for each window, or one with a single key kept alive by its TTL. */
  datatype Family = Fixed(prefix: string, window: positive) | Single(key: string)

  function KeyAt(f: Family, at: nat): string {
    match f
    case Fixed(prefix, window) => prefix + Print(at / window * window)
    case Single(key) => key
  }

  /** Every fixed-window check of the rate limiter uses the key of such a family. */
  lemma ChecksUseFamilies(a: string, b: string, prefix: string, now: u64)
    ensures QuotaKey(a, b, WindowStart(now, HOUR)) == KeyAt(Fixed("quota:" + (a + ":" + (b + ":")), 3600), now)
    ensures AccountQuotaKey(a, b, WindowStart(now, HOUR)) ==
              KeyAt(Fixed("acct_quota:" + (a + ":" + (b + ":")), 3600), now)
    ensures HostedIpKey(a, b, WindowStart(now, HOUR)) == KeyAt(Fixed("hosted:" + (b + ":" + (a + ":")), 3600), now)
    ensures ExpertIpKey(a, b, WindowStart(now, HOUR)) == KeyAt(Fixed("expert_ip:" + (b + ":" + (a + ":")), 3600), now)
    ensures PerIpKey(prefix, a, WindowStart(now, HOUR)) == KeyAt(Fixed(prefix + (a + ":"), 3600), now)
    ensures CatchallKey(a, WindowStart(now, MINUTE)) == KeyAt(Fixed("catchall:" + (a + ":"), 60), now)
  {
    var h, m := Print(WindowStart(now, HOUR)), Print(WindowStart(now, MINUTE));
    ThreeParts("quota:", a, b, h);
    ThreeParts("acct_quota:", a, b, h);
    ThreeParts("hosted:", b, a, h);
    ThreeParts("expert_ip:", b, a, h);
    TwoParts(prefix, a, h);
    TwoParts("catchall:", a, m);
  }

  lemma TwoParts(p: string, a: string, w: string)
    ensures p + (a + ":" + w) == p + (a + ":") + w
  {
    Assoc(p, a + ":", w);
  }

  lemma ThreeParts(p: string, a: string, b: string, w: string)
    ensures p + (a + ":" + (b + ":" + w)) == p + (a + ":" + (b + ":")) + w
  {
    Assoc(a + ":", b + ":", w);
    Assoc(p, a + ":" + (b + ":"), w);
  }

  datatype Request = Request(family: Family, limit: u32, ttl: nat, at: nat, faults: Faults)

  function KeyOf(r: Request): string {
    KeyAt(r.family, r.at)
  }

  function Serve1(store: Store, r: Request): (Store, Verdict) {
    Check(store, KeyOf(r), r.limit, r.ttl, r.at, r.faults)
  }

  function Serve(store: Store, reqs: seq<Request>): Store {
    if reqs == [] then store else Serve1(Serve(store, Init(reqs)), Last(reqs)).0
  }

  function Init(reqs: seq<Request>): seq<Request>
    requires reqs != []
  {
    reqs[..|reqs| - 1]
  }

  function Last(reqs: seq<Request>): Request
    requires reqs != []
  {
    reqs[|reqs| - 1]
  }

  predicate Admits(store: Store, r: Request) {
    Serve1(store, r).1.allowed
  }

  predicate Within(r: Request, f: Family, from: nat, to: nat) {
    r.family == f && from <= r.at < to
  }

  /** The requests of a family in `[from, to)` that were admitted and whose write landed. */
  function Landed(store: Store, reqs: seq<Request>, f: Family, from: nat, to: nat): nat {
    if reqs == [] then 0
    else
      var r := Last(reqs);
      Landed(store, Init(reqs), f, from, to) +
        if Within(r, f, from, to) && Admits(Serve(store, Init(reqs)), r) && !r.faults.write then 1 else 0
  }

  /** Those that were admitted although the write failed. */
  function Lost(store: Store, reqs: seq<Request>, f: Family, from: nat, to: nat): nat {
    if reqs == [] then 0
    else
      var r := Last(reqs);
      Lost(store, Init(reqs), f, from, to) +
        if Within(r, f, from, to) && Admits(Serve(store, Init(reqs)), r) && r.faults.write then 1 else 0
  }

  function Admitted(store: Store, reqs: seq<Request>, f: Family, from: nat, to: nat): nat {
    Landed(store, reqs, f, from, to) + Lost(store, reqs, f, from, to)
  }

  predicate Sorted(reqs: seq<Request>) {
    forall i, j | 0 <= i < j < |reqs| :: reqs[i].at <= reqs[j].at
  }

  /** Every request on `key` is held to `limit`, and an entry it writes at or after `from` outlives `to`. */
  predicate Governed(reqs: seq<Request>, key: string, limit: u32, from: nat, to: nat) {
    forall r | r in reqs && KeyOf(r) == key :: r.limit <= limit && to <= from + r.ttl
  }

  /** The entry counts at least `n` and is readable until `to`. */
  predicate Remembers(store: Store, key: string, n: nat, to: nat) {
    key in store && to <= store[key].expiresAt && n <= ParseCount(store[key].value)
  }

  lemma ServeElsewhere(store: Store, r: Request, key: string)
    requires KeyOf(r) != key
    ensures key in store <==> key in Serve1(store, r).0
    ensures key in store ==> Serve1(store, r).0[key] == store[key]
  {
  }

  lemma ServeRemembers(store: Store, r: Request, key: string, n: nat, limit: u32, from: nat, to: nat)
    requires from <= r.at < to && (KeyOf(r) == key ==> r.limit <= limit && to <= from + r.ttl)
    requires n > 0 ==> Remembers(store, key, n, to)
    ensures var landed := KeyOf(r) == key && Admits(store, r) && !r.faults.write;
            && (n > 0 || landed ==> Remembers(Serve1(store, r).0, key, if landed then n + 1 else n, to))
            && (landed ==> n + 1 <= limit)
  {
    if KeyOf(r) != key {
      ServeElsewhere(store, r, key);
    } else {
      ParseOfPrint(SatAdd32(Count(store, key, r.at), 1), U32_MAX);
      assert n > 0 ==> Count(store, key, r.at) >= n;
    }
  }

  /** While a span lasts, the entry remembers at least what landed in it; so no more than the limit
      lands in it, whatever fails and whatever else is served. */
  lemma {:induction false} SpanBound(store: Store, reqs: seq<Request>, f: Family, key: string, limit: u32, from: nat,
                                     to: nat)
    requires Sorted(reqs) && Governed(reqs, key, limit, from, to)
    requires forall at: nat | from <= at < to :: KeyAt(f, at) == key
    ensures Landed(store, reqs, f, from, to) <= limit
    ensures reqs != [] && Last(reqs).at < to && Landed(store, reqs, f, from, to) > 0 ==>
              Remembers(Serve(store, reqs), key, Landed(store, reqs, f, from, to), to)
  {
    if reqs != [] {
      var before, r := Init(reqs), Last(reqs);
      SpanBound(store, before, f, key, limit, from, to);
      var n := Landed(store, before, f, from, to);
      if r.at < from {
        NothingYet(store, before, f, from, to);
      } else if r.at < to {
        assert before != [] ==> Last(before).at <= r.at;
        ServeRemembers(Serve(store, before), r, key, n, limit, from, to);
      }
    }
  }

  lemma {:induction false} NothingYet(store: Store, reqs: seq<Request>, f: Family, from: nat, to: nat)
    requires forall r | r in reqs :: r.at < from
    ensures Landed(store, reqs, f, from, to) == 0
  {
    if reqs != [] {
      NothingYet(store, Init(reqs), f, from, to);
    }
  }

  // ---------------------------------------------------------------- counters kept alive by their TTL

  /** A counter whose entry lives `ttl` seconds after each counted request is a sliding window: no
      span of `ttl` seconds, wherever it starts, contains more than `limit` counted requests. */
  lemma SlidingWindow(store: Store, reqs: seq<Request>, key: string, limit: u32, ttl: nat, from: nat)
    requires Sorted(reqs)
    requires forall r | r in reqs && KeyOf(r) == key :: r.limit == limit && r.ttl == ttl
    ensures Landed(store, reqs, Single(key), from, from + ttl) <= limit
    ensures Admitted(store, reqs, Single(key), from, from + ttl) <=
              limit + Lost(store, reqs, Single(key), from, from + ttl)
  {
    SpanBound(store, reqs, Single(key), key, limit, from, from + ttl);
  }

  /** The first second from which a write still counts at `at`. */
  function SpanStart(at: nat, ttl: nat): nat {
    SatSub(at + 1, ttl)
  }

  /** Every request on the key is one of the family and writes entries that live `ttl`. */
  predicate OnlyFamily(reqs: seq<Request>, key: string, ttl: nat) {
    forall r | r in reqs && KeyOf(r) == key :: r.family == Single(key) && r.ttl == ttl
  }

  predicate Readable(store: Store, key: string, at: nat) {
    key in store && at < store[key].expiresAt
  }

  /** A readable entry is the one the run began with, or was written in the last `ttl` seconds. */
  lemma {:induction false} ReadableIsRecent(store: Store, reqs: seq<Request>, key: string, ttl: nat, at: nat)
    requires OnlyFamily(reqs, key, ttl) && Readable(Serve(store, reqs), key, at)
    requires forall r | r in reqs :: r.at <= at
    ensures Readable(store, key, at) || Landed(store, reqs, Single(key), SpanStart(at, ttl), at + 1) > 0
  {
    if reqs != [] {
      var r := Last(reqs);
      assert r in reqs;
      if KeyOf(r) != key {
        ServeElsewhere(Serve(store, Init(reqs)), r, key);
      }
      if Readable(Serve(store, Init(reqs)), key, at) {
        ReadableIsRecent(store, Init(reqs), key, ttl, at);
      }
    }
  }

  /** The lower half of the sliding window: in every run a request whose read works is admitted if
      nothing has landed on its key in the last `ttl` seconds and the run began with no count that is
      still readable. */
  lemma {:induction false} QuietCounterAdmits(store: Store, reqs: seq<Request>, r: Request, key: string, ttl: nat)
    requires OnlyFamily(reqs, key, ttl) && forall q | q in reqs :: q.at <= r.at
    requires KeyOf(r) == key && !r.faults.read && r.limit > 0 && !Readable(store, key, r.at)
    requires Landed(store, reqs, Single(key), SpanStart(r.at, ttl), r.at + 1) == 0
    ensures Admits(Serve(store, reqs), r)
  {
    if Readable(Serve(store, reqs), key, r.at) {
      ReadableIsRecent(store, reqs, key, ttl, r.at);
    }
  }

  /** The CSP-report counter: 10 in 60 s; a report whose count could not be written is still accepted. */
  method CspReportGate(kv: KvStore, hashedIp: string, now: nat) returns (status: Option<nat>)
    modifies kv
    ensures var r := Request(Single(CounterKeys.Key(CounterKeys.CspReport(hashedIp))), 10, 60, now, old(FaultsOf(kv)));
            && kv.data == Serve1(old(kv.data), r).0
            && (status == None <==> Admits(old(kv.data), r))
            && (status == Some(503) <==> r.faults.read)
            && (status == Some(429) <==> !r.faults.read && Count(old(kv.data), KeyOf(r), now) >= 10)
  {
    var key := "csp_report:" + hashedIp;
    var read := kv.GetText(key, now);
    if read.Err? {
      return Some(503);
    }
    var count: u32 := if read.value.Some? then ParseCount(read.value.value) else 0;
    if count >= 10 {
      return Some(429);
    }
    var _ := kv.PutWithTtl(key, Print(SatAdd32(count, 1)), 60, now);
    status := None;
  }

  /** The origin-registration counter: 10 in 3600 s; a request whose count could not be written is
      refused, so what passes is exactly what landed. */
  method OriginRegistrationGate(kv: KvStore, hashedIp: string, now: nat) returns (status: Option<nat>)
    modifies kv
    ensures var key := CounterKeys.Key(CounterKeys.OriginRegistration(hashedIp));
            var r := Request(Single(key), 10, 3600, now, old(FaultsOf(kv)));
            && kv.data == Serve1(old(kv.data), r).0
            && (status == None <==> Admits(old(kv.data), r) && !r.faults.write)
            && (status == Some(429) <==> !r.faults.read && Count(old(kv.data), KeyOf(r), now) >= 10)
            && (status == Some(503) <==> r.faults.read || (Admits(old(kv.data), r) && r.faults.write))
  {
    var key := "origin_reg:" + hashedIp;
    var read := kv.GetText(key, now);
    if read.Err? {
      return Some(503);
    }
    var count: u32 := if read.value.Some? then ParseCount(read.value.value) else 0;
    if count >= 10 {
      return Some(429);
    }
    var put := kv.PutWithTtl(key, Print(SatAdd32(count, 1)), 3600, now);
    status := if put.Err? then Some(503) else None;
  }

  // ---------------------------------------------------------------- fixed windows

  /** The first second after the window that holds `at`. */
  function WindowEnd(at: nat, window: positive): (end: nat)
    ensures at < end
  {
    at / window * window + window
  }

  /** How many windows `[from, to)` touches. */
  function WindowsTouched(from: nat, to: nat, window: positive): nat
    decreases if from < to then to - from else 0
  {
    if from >= to then 0 else 1 + WindowsTouched(WindowEnd(from, window), to, window)
  }

  lemma DivIs(a: nat, window: positive, q: nat)
    requires q * window <= a < q * window + window
    ensures a / window == q
  {
    var d := a / window;
    assert a == d * window + a % window;
    if d > q {
      MulGap(q, d, window);
    } else if d < q {
      MulGap(d, q, window);
    }
  }

  lemma MulGap(p: nat, q: nat, window: positive)
    requires p < q
    ensures p * window + window <= q * window
  {
    assert q * window == (p + 1) * window + (q - p - 1) * window;
  }

  lemma {:induction false} TouchedClosedForm(from: nat, to: nat, window: positive)
    requires from < to
    ensures WindowsTouched(from, to, window) == (to - 1) / window - from / window + 1
    decreases if from < to then to - from else 0
  {
    var q := from / window;
    var end := WindowEnd(from, window);
    assert end == (q + 1) * window;
    DivIs(end, window, q + 1);
    if end < to {
      TouchedClosedForm(end, to, window);
    } else {
      DivIs(to - 1, window, q);
    }
  }

  /** A span no longer than a window touches at most two. */
  lemma TouchedTwo(from: nat, to: nat, window: positive)
    requires to <= from + window
    ensures WindowsTouched(from, to, window) <= 2
  {
    var end := WindowEnd(from, window);
    var q := from / window;
    assert end == (q + 1) * window;
    DivIs(end, window, q + 1);
    assert WindowEnd(end, window) == end + window >= to;
    assert WindowsTouched(end + window, to, window) == 0;
    assert WindowsTouched(end, to, window) <= 1;
  }

  /** Every request that shares a key with the family is held to `limit`, and its entries live at
      least one window. */
  ghost predicate FamilyGoverned(reqs: seq<Request>, f: Family, limit: u32)
    requires f.Fixed?
  {
    forall r, at: nat | r in reqs && KeyOf(r) == KeyAt(f, at) :: r.limit <= limit && f.window <= r.ttl
  }

  lemma {:induction false} LandedSplits(store: Store, reqs: seq<Request>, f: Family, from: nat, mid: nat, to: nat)
    requires from <= mid <= to
    ensures Landed(store, reqs, f, from, to) ==
              Landed(store, reqs, f, from, mid) + Landed(store, reqs, f, mid, to)
  {
    if reqs != [] {
      LandedSplits(store, Init(reqs), f, from, mid, to);
    }
  }

  lemma OneKey(f: Family, from: nat, at: nat)
    requires f.Fixed? && from / f.window * f.window <= at < WindowEnd(from, f.window)
    ensures KeyAt(f, at) == KeyAt(f, from)
  {
    DivIs(at, f.window, from / f.window);
  }

  lemma OneWindow(store: Store, reqs: seq<Request>, f: Family, limit: u32, from: nat, to: nat)
    requires f.Fixed? && Sorted(reqs) && FamilyGoverned(reqs, f, limit)
    requires from <= to <= WindowEnd(from, f.window)
    ensures Landed(store, reqs, f, from, to) <= limit
  {
    hide Landed, KeyAt, Sorted;
    var start, end := from / f.window * f.window, WindowEnd(from, f.window);
    var key := KeyAt(f, from);
    forall at: nat | start <= at < end
      ensures KeyAt(f, at) == key
    {
      OneKey(f, from, at);
    }
    SpanBound(store, reqs, f, key, limit, start, end);
    LandedSplits(store, reqs, f, start, from, end);
    LandedSplits(store, reqs, f, from, to, end);
  }

  /** In any interval a fixed-window counter admits at most its limit times the windows touched,
      plus the requests whose write failed. */
  lemma {:induction false} WindowBudget(store: Store, reqs: seq<Request>, f: Family, limit: u32, from: nat, to: nat)
    requires f.Fixed? && Sorted(reqs) && FamilyGoverned(reqs, f, limit)
    ensures Landed(store, reqs, f, from, to) <= limit * WindowsTouched(from, to, f.window)
    ensures Admitted(store, reqs, f, from, to) <=
              limit * WindowsTouched(from, to, f.window) + Lost(store, reqs, f, from, to)
    decreases if from < to then to - from else 0
  {
    if from >= to {
      LandedEmpty(store, reqs, f, from, to);
    } else {
      var mid := WindowEnd(from, f.window);
      WindowBudget(store, reqs, f, limit, mid, to);
      if to <= mid {
        OneWindow(store, reqs, f, limit, from, to);
      } else {
        OneWindow(store, reqs, f, limit, from, mid);
        LandedSplits(store, reqs, f, from, mid, to);
      }
      MulSucc(limit, WindowsTouched(mid, to, f.window));
    }
  }

  lemma MulSucc(a: nat, n: nat)
    ensures a * (1 + n) == a + a * n
  {
  }

  lemma {:induction false} LandedEmpty(store: Store, reqs: seq<Request>, f: Family, from: nat, to: nat)
    requires from >= to
    ensures Landed(store, reqs, f, from, to) == 0
  {
    if reqs != [] {
      LandedEmpty(store, Init(reqs), f, from, to);
    }
  }

  /** In particular never more than twice the limit in a span of one window length. */
  lemma TwiceTheLimit(store: Store, reqs: seq<Request>, f: Family, limit: u32, from: nat)
    requires f.Fixed? && Sorted(reqs) && FamilyGoverned(reqs, f, limit)
    ensures Admitted(store, reqs, f, from, from + f.window) <=
              2 * limit + Lost(store, reqs, f, from, from + f.window)
  {
    WindowBudget(store, reqs, f, limit, from, from + f.window);
    TouchedTwo(from, from + f.window, f.window);
    MulUpTo(limit, WindowsTouched(from, from + f.window, f.window), 2);
  }

  lemma MulUpTo(a: nat, n: nat, m: nat)
    requires n <= m
    ensures a * n <= m * a
  {
    assert a * m == a * n + a * (m - n);
  }

  /** Keys of one family are equal only within one window. */
  lemma KeyNamesWindow(f: Family, a: nat, b: nat)
    requires f.Fixed? && KeyAt(f, a) == KeyAt(f, b)
    ensures a / f.window * f.window == b / f.window * f.window
  {
    var x, y := Print(a / f.window * f.window), Print(b / f.window * f.window);
    assert x == (f.prefix + x)[|f.prefix|..] && y == (f.prefix + y)[|f.prefix|..];
    PrintInjective(a / f.window * f.window, b / f.window * f.window);
  }

  lemma LaterWindow(f: Family, a: nat, b: nat)
    requires f.Fixed? && WindowEnd(a, f.window) <= b
    ensures KeyAt(f, a) != KeyAt(f, b)
  {
    assert b == b / f.window * f.window + b % f.window;
    if KeyAt(f, a) == KeyAt(f, b) {
      KeyNamesWindow(f, a, b);
    }
  }

  lemma {:induction false} KeyUntouched(store: Store, reqs: seq<Request>, key: string)
    requires forall r | r in reqs :: KeyOf(r) != key
    ensures key in Serve(store, reqs) <==> key in store
  {
    if reqs != [] {
      assert Last(reqs) in reqs;
      KeyUntouched(store, Init(reqs), key);
      ServeElsewhere(Serve(store, Init(reqs)), Last(reqs), key);
    }
  }

  /** A new window starts over: whatever the earlier windows of the family counted, the first request
      of a window whose read works is admitted. */
  lemma NextWindowStartsOver(store: Store, reqs: seq<Request>, r: Request)
    requires r.family.Fixed? && !r.faults.read && r.limit > 0 && KeyOf(r) !in store
    requires forall q | q in reqs && q.family == r.family :: WindowEnd(q.at, r.family.window) <= r.at
    requires forall q | q in reqs && q.family != r.family :: KeyOf(q) != KeyOf(r)
    ensures Admits(Serve(store, reqs), r)
  {
    forall q | q in reqs
      ensures KeyOf(q) != KeyOf(r)
    {
      if q.family == r.family {
        LaterWindow(r.family, q.at, r.at);
      }
    }
    KeyUntouched(store, reqs, KeyOf(r));
  }

  // ---------------------------------------------------------------- the client's retry loop

  /** When a client that waits what it is told after each rejection comes back for the `n`-th time. */
  function AfterWaits(now: u64, window: u64, n: nat): u64
    requires window > 0
  {
    if n == 0 then now
    else
      var t := AfterWaits(now, window, n - 1);
      SatAdd64(t, RetryAfter(t, window))
  }

  lemma WaitInWindow(t: u64, window: u64, q: nat)
    requires window > 0 && q * window <= t < q * window + window <= U64_MAX
    ensures RetryAfter(t, window) == ClampRetryAfter(ToU32(q * window + window - t))
    ensures WindowStart(t, window) == q * window
  {
    DivIs(t, window, q);
  }

  /** Before the next window starts, `n` waits are `n` minutes; the wait that would overshoot ends
      exactly at the start of the next window instead. */
  lemma {:induction false} Waits(now: u64, window: u64, n: nat, q: nat)
    requires window > 0 && q * window <= now < q * window + window <= U64_MAX
    ensures now + 60 * n < q * window + window ==> AfterWaits(now, window, n) == now + 60 * n
    ensures q * window + window <= now + 60 * n < q * window + window + 60 ==>
              AfterWaits(now, window, n) == q * window + window
  {
    if n > 0 && now + 60 * n < q * window + window + 60 {
      Waits(now, window, n - 1, q);
      WaitInWindow(now + 60 * (n - 1), window, q);
    }
  }

  /** A client that obeys Retry-After is sent back in the same window, 1 to 60 seconds later, until
      the wait that takes it to the first second of the next window: one wait for each minute
      started, so at most 60 for an hourly limit, and never past the boundary. */
  lemma RetryReachesNextWindow(now: u64, window: u64, n: nat)
    requires window > 0 && WindowStart(now, window) + window <= U64_MAX
    ensures var next := WindowStart(now, window) + window;
            var waits := (next - now + 59) / 60;
            && (n < waits ==>
                  && WindowStart(AfterWaits(now, window, n), window) == WindowStart(now, window)
                  && 1 <= RetryAfter(AfterWaits(now, window, n), window) <= 60
                  && AfterWaits(now, window, n) < next)
            && (n == waits ==> AfterWaits(now, window, n) == next == WindowStart(next, window))
            && (window <= 3600 ==> waits <= 60)
  {
    var q := now / window;
    var next := WindowStart(now, window) + window;
    NextStart(window, q);
    Waits(now, window, n, q);
    if now + 60 * n < next {
      WaitInWindow(now + 60 * n, window, q);
    }
  }

  lemma NextStart(window: u64, q: nat)
    requires window > 0 && q * window + window <= U64_MAX
    ensures WindowStart(q * window + window, window) == q * window + window
  {
    assert q * window + window == (q + 1) * window;
    DivIs(q * window + window, window, q + 1);
  }
}
