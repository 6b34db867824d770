/** The chain of gates a challenge request passes: the global per-IP gate, the per-IP gate of the
    endpoint, the per-client quota. Requests are served one after the other from an empty KV, the
    clock may do as it likes, and no KV call fails. */
module GateChain {
  import opened Text
  import opened Decimal
  import opened RateLimitKv
  import opened KvCounter
  import opened CounterKeys

  const GLOBAL_IP_LIMIT: u32 := 1000

  /** `get_client_id`: the Origin, else the hashed API key, else nothing, always with the IP hash.
      `apiKey` is the 16-character digest prefix of a non-empty X-API-Key header. */
  function ClientId(origin: Option<string>, apiKey: Option<string>, ip: string): string {
    if origin.Some? && origin.value != "" then "origin:" + origin.value + ":" + ip
    else if apiKey.Some? then "apikey:" + apiKey.value + ":" + ip
    else "ip" + ":" + ip
  }

  /** What a request is told apart by besides its address: an Origin that is not empty, else the digest
      of its API key. */
  function Credential(o: Option<string>, k: Option<string>): (Option<string>, Option<string>) {
    if GetOr(o, "") != "" then (o, None) else (None, k)
  }

  /** Two requests have one client id exactly when they come from one address with the same Origin, or
      without Origins and with the same API key or none; origins may have any colons. */
  lemma ClientIdsApart(o: Option<string>, k: Option<string>, ip: string, o': Option<string>, k': Option<string>,
                       ip': string)
    requires ':' !in ip && ':' !in ip'
    ensures ClientId(o, k, ip) == ClientId(o', k', ip') <==> ip == ip' && Credential(o, k) == Credential(o', k')
  {
    var head := ClientHead(o, k, ip);
    var head' := ClientHead(o', k', ip');
    if ClientId(o, k, ip) == ClientId(o', k', ip') {
      LastSeparator(head, ip, head', ip', ':');
      HeadsApart(o, k, o', k', head, head');
    }
  }

  lemma HeadsApart(o: Option<string>, k: Option<string>, o': Option<string>, k': Option<string>, head: string,
                   head': string)
    requires head == HeadOf(o, k) && head' == HeadOf(o', k') && head == head'
    ensures Credential(o, k) == Credential(o', k')
  {
    assert "origin:"[0] == 'o' && "apikey:"[0] == 'a' && "ip"[0] == 'i';
    assert head[0] == head'[0];
    assert GetOr(o, "") != "" ==> head[7..] == o.value;
    assert GetOr(o', "") != "" ==> head'[7..] == o'.value;
    assert GetOr(o, "") == "" && k.Some? ==> head[7..] == k.value;
    assert GetOr(o', "") == "" && k'.Some? ==> head'[7..] == k'.value;
  }

  function HeadOf(o: Option<string>, k: Option<string>): string {
    if o.Some? && o.value != "" then "origin:" + o.value else if k.Some? then "apikey:" + k.value else "ip"
  }

  lemma ClientHead(o: Option<string>, k: Option<string>, ip: string) returns (head: string)
    ensures head == HeadOf(o, k) && ClientId(o, k, ip) == head + ":" + ip
  {
    head := HeadOf(o, k);
  }

  /** One request: its hashed address, what identifies the client, the endpoint label, what the clock
      showed at each of the three gates, and the quota its tier gives it. */
  datatype Visit = Visit(ip: string, origin: Option<string>, apiKey: Option<string>, endpoint: string,
                         at: u64, ipAt: u64, quotaAt: u64, quota: u32)
  {
    function Client(): string { ClientId(origin, apiKey, ip) }
    function GlobalBucket(): Bucket { GlobalIp(ip, WindowStart(at, HOUR)) }
    function IpBucket(): Bucket { Expert(ip, endpoint, WindowStart(ipAt, HOUR)) }
    function QuotaBucket(): Bucket { Quota(Client(), endpoint, WindowStart(quotaAt, HOUR)) }
  }

  datatype Outcome = RefusedGlobally | RefusedByIp | RefusedByQuota | Reached

  function Gate(store: Store, b: Bucket, limit: u32, at: u64, faults: Faults): (Store, Verdict) {
    Check(store, Key(b), limit, 7200, at, faults)
  }

  function FaultyChain(store: Store, v: Visit, perIp: u32, f: Faults, g: Faults, h: Faults): (Store, Outcome) {
    var (store1, global) := Gate(store, v.GlobalBucket(), GLOBAL_IP_LIMIT, v.at, f);
    if !global.allowed then (store1, RefusedGlobally)
    else
      var (store2, ip) := Gate(store1, v.IpBucket(), perIp, v.ipAt, g);
      if !ip.allowed then (store2, RefusedByIp)
      else
        var (store3, quota) := Gate(store2, v.QuotaBucket(), v.quota, v.quotaAt, h);
        if !quota.allowed then (store3, RefusedByQuota) else (store3, Reached)
  }

  function Chain(store: Store, v: Visit, perIp: u32): (Store, Outcome) {
    FaultyChain(store, v, perIp, NO_FAULTS, NO_FAULTS, NO_FAULTS)
  }

  lemma GateElsewhere(store: Store, g: Bucket, limit: u32, at: u64, faults: Faults, b: Bucket)
    requires Wellformed(g) && Wellformed(b) && b != g
    ensures var after := Gate(store, g, limit, at, faults).0;
            (Key(b) in after <==> Key(b) in store) && (Key(b) in store ==> after[Key(b)] == store[Key(b)])
  {
    hide Key;
    KeysDoNotCollide(b, g);
  }

  /** A visit, whatever becomes of it, leaves the quota entry of every other Origin or API key of its
      own address, and of every other address, as it was. */
  lemma QuotasApart(store: Store, v: Visit, perIp: u32, f: Faults, g: Faults, h: Faults, o: Option<string>,
                    k: Option<string>, ip: string, endpoint: string, hour: nat)
    requires ':' !in v.ip && ':' !in ip && ':' !in v.endpoint && ':' !in endpoint
    requires v.ip != ip || Credential(v.origin, v.apiKey) != Credential(o, k)
    ensures var key, after := QuotaKey(ClientId(o, k, ip), endpoint, hour), FaultyChain(store, v, perIp, f, g, h).0;
            (key in after <==> key in store) && (key in store ==> after[key] == store[key])
  {
    var b := Quota(ClientId(o, k, ip), endpoint, hour);
    ClientIdsApart(v.origin, v.apiKey, v.ip, o, k, ip);
    hide Gate, ClientId;
    var (store1, global) := Gate(store, v.GlobalBucket(), GLOBAL_IP_LIMIT, v.at, f);
    var (store2, second) := Gate(store1, v.IpBucket(), perIp, v.ipAt, g);
    GateElsewhere(store, v.GlobalBucket(), GLOBAL_IP_LIMIT, v.at, f, b);
    GateElsewhere(store1, v.IpBucket(), perIp, v.ipAt, g, b);
    GateElsewhere(store2, v.QuotaBucket(), v.quota, v.quotaAt, h, b);
  }

  /** The gates as the handlers run them, each with its early return; a fault of the KV at one gate
      may or may not be there at the next. */
  method ServeVisit(kv: KvStore, v: Visit, perIp: u32) returns (outcome: Outcome, reply: Option<Reply>)
    modifies kv
    ensures exists g, h ::
              && (kv.data, outcome) == FaultyChain(old(kv.data), v, perIp, old(FaultsOf(kv)), g, h)
              && (old(FaultsOf(kv)) == NO_FAULTS ==> g == h == NO_FAULTS)
    ensures reply == None <==> outcome == Reached
    ensures old(FaultsOf(kv)).read ==> outcome == RefusedGlobally && reply == Some(Reply(503, 5))
    ensures !old(FaultsOf(kv)).read && reply.Some? ==> reply.value.status == 429
  {
    ghost var store, f := kv.data, FaultsOf(kv);
    ghost var g, h := NO_FAULTS, NO_FAULTS;
    var r := CheckPerIpLimit(kv, "global_ip:", v.ip, GLOBAL_IP_LIMIT, v.at);
    if !r.allowed {
      assert (kv.data, RefusedGlobally) == FaultyChain(store, v, perIp, f, g, h);
      return RefusedGlobally, Some(RejectionReply(r));
    }
    g := FaultsOf(kv);
    r := CheckExpertIpLimit(kv, v.ip, v.endpoint, perIp, v.ipAt);
    if !r.allowed {
      assert (kv.data, RefusedByIp) == FaultyChain(store, v, perIp, f, g, h);
      return RefusedByIp, Some(RejectionReply(r));
    }
    h := FaultsOf(kv);
    r := CountQuota(kv, v.Client(), v.endpoint, v.quota, v.quotaAt);
    if !r.allowed {
      assert (kv.data, RefusedByQuota) == FaultyChain(store, v, perIp, f, g, h);
      return RefusedByQuota, Some(RejectionReply(r));
    }
    assert (kv.data, Reached) == FaultyChain(store, v, perIp, f, g, h);
    outcome, reply := Reached, None;
  }

  function Serve(visits: seq<Visit>, perIp: u32): Store {
    if visits == [] then map[] else Chain(Serve(visits[..|visits| - 1], perIp), visits[|visits| - 1], perIp).0
  }

  /** How many visits the predicate holds of, given what became of each. */
  function Tally(visits: seq<Visit>, perIp: u32, p: (Visit, Outcome) -> bool): nat {
    if visits == [] then 0
    else
      var before, v := visits[..|visits| - 1], visits[|visits| - 1];
      Tally(before, perIp, p) + if p(v, Chain(Serve(before, perIp), v, perIp).1) then 1 else 0
  }

  /** Whether a visit with this outcome was counted in the bucket. */
  predicate Counts(b: Bucket, v: Visit, o: Outcome) {
    || (b == v.GlobalBucket() && o != RefusedGlobally)
    || (b == v.IpBucket() && (o == RefusedByQuota || o == Reached))
    || (b == v.QuotaBucket() && o == Reached)
  }

  function Counted(visits: seq<Visit>, perIp: u32, b: Bucket): nat {
    Tally(visits, perIp, (v, o) => Counts(b, v, o))
  }

  /** IP hashes are hexadecimal and endpoint labels are colon-free. */
  predicate Plain(visits: seq<Visit>) {
    forall v | v in visits :: ':' !in v.ip && ':' !in v.endpoint
  }

  // ---------------------------------------------------------------- the KV is the ledger of the run

  /** The bucket's entry says `n`, and lives to the end of its hour; with nothing counted there is none. */
  predicate Says(store: Store, b: Bucket, n: nat)
    requires b.Quota? || b.Expert? || b.GlobalIp?
  {
    if n == 0 then Key(b) !in store
    else Key(b) in store && ParseCount(store[Key(b)].value) == n && b.window + HOUR <= store[Key(b)].expiresAt
  }

  predicate Hourly(b: Bucket) {
    Wellformed(b) && (b.Quota? || b.Expert? || b.GlobalIp?)
  }

  /** A gate counts in its own bucket, when it lets the request through, and nowhere else. */
  lemma GateCounts(store: Store, g: Bucket, limit: u32, at: u64, n: nat, b: Bucket, m: nat)
    requires Hourly(g) && g.window == WindowStart(at, HOUR) && Says(store, g, n)
    requires Hourly(b) && Says(store, b, m)
    ensures var (after, v) := Gate(store, g, limit, at, NO_FAULTS);
            && (v.allowed <==> n < limit)
            && Says(after, b, if v.allowed && b == g then m + 1 else m)
  {
    KeysDoNotCollide(b, g);
    assert Count(store, Key(g), at) == n;
    if n < limit {
      ParseOfPrint(n + 1, U32_MAX);
    }
  }

  ghost predicate Ledger(visits: seq<Visit>, perIp: u32) {
    forall b | Hourly(b) :: Says(Serve(visits, perIp), b, Counted(visits, perIp, b))
  }

  /** What one visit does to an hourly bucket. */
  lemma ChainCounts(store: Store, v: Visit, perIp: u32, b: Bucket, n: nat, global: nat, ip: nat, quota: nat)
    requires ':' !in v.ip && ':' !in v.endpoint && Hourly(b) && Says(store, b, n)
    requires Says(store, v.GlobalBucket(), global)
    requires Says(store, v.IpBucket(), ip) && Says(store, v.QuotaBucket(), quota)
    ensures var (after, o) := Chain(store, v, perIp);
            && Says(after, b, if Counts(b, v, o) then n + 1 else n)
            && (Counts(v.GlobalBucket(), v, o) ==> global < GLOBAL_IP_LIMIT)
            && (Counts(v.IpBucket(), v, o) ==> ip < perIp)
  {
    var g, i, q := v.GlobalBucket(), v.IpBucket(), v.QuotaBucket();
    var (store1, first) := Gate(store, g, GLOBAL_IP_LIMIT, v.at, NO_FAULTS);
    ChainIsInner(store, v, perIp);
    GateCounts(store, g, GLOBAL_IP_LIMIT, v.at, global, b, n);
    if first.allowed {
      GateCounts(store, g, GLOBAL_IP_LIMIT, v.at, global, i, ip);
      GateCounts(store, g, GLOBAL_IP_LIMIT, v.at, global, q, quota);
      InnerCounts(store1, v, perIp, b, if b == g then n + 1 else n, ip, quota);
    }
  }

  /** What the last two gates do. */
  function InnerChain(store: Store, v: Visit, perIp: u32): (Store, Outcome) {
    var (store2, ip) := Gate(store, v.IpBucket(), perIp, v.ipAt, NO_FAULTS);
    if !ip.allowed then (store2, RefusedByIp)
    else
      var (store3, quota) := Gate(store2, v.QuotaBucket(), v.quota, v.quotaAt, NO_FAULTS);
      if !quota.allowed then (store3, RefusedByQuota) else (store3, Reached)
  }

  lemma ChainIsInner(store: Store, v: Visit, perIp: u32)
    ensures var (store1, first) := Gate(store, v.GlobalBucket(), GLOBAL_IP_LIMIT, v.at, NO_FAULTS);
            Chain(store, v, perIp) == if first.allowed then InnerChain(store1, v, perIp) else (store1, RefusedGlobally)
  {
  }

  lemma InnerCounts(store: Store, v: Visit, perIp: u32, b: Bucket, n: nat, ip: nat, quota: nat)
    requires ':' !in v.ip && ':' !in v.endpoint && Hourly(b) && Says(store, b, n)
    requires Says(store, v.IpBucket(), ip) && Says(store, v.QuotaBucket(), quota)
    ensures var (after, o) := InnerChain(store, v, perIp);
            && o != RefusedGlobally
            && Says(after, b, if b != v.GlobalBucket() && Counts(b, v, o) then n + 1 else n)
            && (Counts(v.IpBucket(), v, o) ==> ip < perIp)
  {
    var i, q := v.IpBucket(), v.QuotaBucket();
    var (store2, second) := Gate(store, i, perIp, v.ipAt, NO_FAULTS);
    GateCounts(store, i, perIp, v.ipAt, ip, b, n);
    if second.allowed {
      GateCounts(store, i, perIp, v.ipAt, ip, q, quota);
      GateCounts(store2, q, v.quota, v.quotaAt, quota, b, if b == i then n + 1 else n);
    }
  }

  lemma {:induction false} KvIsLedger(visits: seq<Visit>, perIp: u32)
    requires Plain(visits)
    ensures Ledger(visits, perIp)
  {
    if visits != [] {
      var before, v := visits[..|visits| - 1], visits[|visits| - 1];
      KvIsLedger(before, perIp);
      var store := Serve(before, perIp);
      forall b | Hourly(b)
        ensures Says(Serve(visits, perIp), b, Counted(visits, perIp, b))
      {
        ChainCounts(store, v, perIp, b, Counted(before, perIp, b), Counted(before, perIp, v.GlobalBucket()),
                    Counted(before, perIp, v.IpBucket()), Counted(before, perIp, v.QuotaBucket()));
      }
    }
  }

  /** The cap on what a per-IP bucket counts. */
  function Cap(b: Bucket, perIp: u32): u32 {
    if b.GlobalIp? then GLOBAL_IP_LIMIT else perIp
  }

  lemma {:induction false} CountsCapped(visits: seq<Visit>, perIp: u32, b: Bucket)
    requires Plain(visits) && Hourly(b) && (b.GlobalIp? || b.Expert?)
    ensures Counted(visits, perIp, b) <= Cap(b, perIp)
  {
    hide Chain, FaultyChain, Serve, Says;
    if visits != [] {
      var before, v := visits[..|visits| - 1], visits[|visits| - 1];
      CountsCapped(before, perIp, b);
      KvIsLedger(before, perIp);
      ChainCounts(Serve(before, perIp), v, perIp, b, Counted(before, perIp, b), Counted(before, perIp, v.GlobalBucket()),
                  Counted(before, perIp, v.IpBucket()), Counted(before, perIp, v.QuotaBucket()));
    }
  }

  // ---------------------------------------------------------------- conservation

  /** A visit whose clock at the per-IP gate showed the hour. */
  predicate AtIpGate(v: Visit, ip: string, endpoint: string, hour: nat) {
    v.ip == ip && v.endpoint == endpoint && WindowStart(v.ipAt, HOUR) == hour
  }

  /** A visit whose clock at the quota gate showed the hour. */
  predicate AtQuotaGate(v: Visit, ip: string, endpoint: string, hour: nat) {
    v.ip == ip && v.endpoint == endpoint && WindowStart(v.quotaAt, HOUR) == hour
  }

  function ReachedFrom(visits: seq<Visit>, perIp: u32, ip: string, endpoint: string, hour: nat): nat {
    Tally(visits, perIp, (v: Visit, o) => AtIpGate(v, ip, endpoint, hour) && o == Reached)
  }

  function QuotaRefusals(visits: seq<Visit>, perIp: u32, ip: string, endpoint: string, hour: nat): nat {
    Tally(visits, perIp, (v: Visit, o) => AtIpGate(v, ip, endpoint, hour) && o == RefusedByQuota)
  }

  function PassedQuota(visits: seq<Visit>, perIp: u32, ip: string, endpoint: string, hour: nat): nat {
    Tally(visits, perIp, (v: Visit, o) => AtQuotaGate(v, ip, endpoint, hour) && o == Reached)
  }

  /** Visits that reached the handler and left the hour between the per-IP gate and the quota gate. */
  function CrossedOut(visits: seq<Visit>, perIp: u32, ip: string, endpoint: string, hour: nat): nat {
    Tally(visits, perIp,
          (v: Visit, o) => AtIpGate(v, ip, endpoint, hour) && !AtQuotaGate(v, ip, endpoint, hour) && o == Reached)
  }

  /** Visits that reached the handler and came into the hour between these gates. */
  function CrossedIn(visits: seq<Visit>, perIp: u32, ip: string, endpoint: string, hour: nat): nat {
    Tally(visits, perIp,
          (v: Visit, o) => AtQuotaGate(v, ip, endpoint, hour) && !AtIpGate(v, ip, endpoint, hour) && o == Reached)
  }

  /** All requests from the address that passed the global gate in the hour and got through, whatever
      the endpoint. */
  function ReachedAnywhere(visits: seq<Visit>, perIp: u32, ip: string, hour: nat): nat {
    Tally(visits, perIp, (v: Visit, o) => v.ip == ip && WindowStart(v.at, HOUR) == hour && o == Reached)
  }

  lemma CountsAtIpGate(v: Visit, o: Outcome, ip: string, endpoint: string, hour: nat)
    ensures Counts(Expert(ip, endpoint, hour), v, o) <==>
              AtIpGate(v, ip, endpoint, hour) && (o == RefusedByQuota || o == Reached)
  {
  }

  /** The tally of two properties that exclude each other is the sum of theirs. */
  lemma {:induction false} TalliesAdd(visits: seq<Visit>, perIp: u32, p: (Visit, Outcome) -> bool,
                                      q: (Visit, Outcome) -> bool, either: (Visit, Outcome) -> bool)
    requires forall v, o :: either(v, o) <==> p(v, o) || q(v, o)
    requires forall v, o :: !(p(v, o) && q(v, o))
    ensures Tally(visits, perIp, either) == Tally(visits, perIp, p) + Tally(visits, perIp, q)
  {
    hide Chain, Serve;
    if visits != [] {
      TalliesAdd(visits[..|visits| - 1], perIp, p, q, either);
    }
  }

  lemma IpCountSplits(visits: seq<Visit>, perIp: u32, ip: string, endpoint: string, hour: nat)
    ensures Counted(visits, perIp, Expert(ip, endpoint, hour)) ==
              ReachedFrom(visits, perIp, ip, endpoint, hour) + QuotaRefusals(visits, perIp, ip, endpoint, hour)
  {
    hide Tally, Counts, AtIpGate;
    forall v: Visit, o: Outcome
      ensures Counts(Expert(ip, endpoint, hour), v, o) <==>
                AtIpGate(v, ip, endpoint, hour) && (o == RefusedByQuota || o == Reached)
    {
      CountsAtIpGate(v, o, ip, endpoint, hour);
    }
    TalliesAdd(visits, perIp, (v: Visit, o) => AtIpGate(v, ip, endpoint, hour) && o == Reached,
               (v: Visit, o) => AtIpGate(v, ip, endpoint, hour) && o == RefusedByQuota,
               (v, o) => Counts(Expert(ip, endpoint, hour), v, o));
  }

  /** A tally of fewer visits is smaller. */
  lemma {:induction false} TallyWithin(visits: seq<Visit>, perIp: u32, p: (Visit, Outcome) -> bool,
                                       q: (Visit, Outcome) -> bool)
    requires forall v, o | p(v, o) :: q(v, o)
    ensures Tally(visits, perIp, p) <= Tally(visits, perIp, q)
  {
    if visits != [] {
      TallyWithin(visits[..|visits| - 1], perIp, p, q);
    }
  }

  /** What one of two properties has more than the other is the difference of their tallies. */
  lemma {:induction false} TalliesDiffer(visits: seq<Visit>, perIp: u32, p: (Visit, Outcome) -> bool,
                                         q: (Visit, Outcome) -> bool, onlyP: (Visit, Outcome) -> bool,
                                         onlyQ: (Visit, Outcome) -> bool)
    requires forall v, o :: onlyP(v, o) <==> p(v, o) && !q(v, o)
    requires forall v, o :: onlyQ(v, o) <==> q(v, o) && !p(v, o)
    ensures Tally(visits, perIp, p) + Tally(visits, perIp, onlyQ) ==
              Tally(visits, perIp, q) + Tally(visits, perIp, onlyP)
  {
    hide Chain, Serve;
    if visits != [] {
      TalliesDiffer(visits[..|visits| - 1], perIp, p, q, onlyP, onlyQ);
    }
  }

  lemma Crossings(visits: seq<Visit>, perIp: u32, ip: string, endpoint: string, hour: nat)
    ensures ReachedFrom(visits, perIp, ip, endpoint, hour) + CrossedIn(visits, perIp, ip, endpoint, hour) ==
              PassedQuota(visits, perIp, ip, endpoint, hour) + CrossedOut(visits, perIp, ip, endpoint, hour)
  {
    hide Tally;
    TalliesDiffer(visits, perIp,
      (v: Visit, o) => AtIpGate(v, ip, endpoint, hour) && o == Reached,
      (v: Visit, o) => AtQuotaGate(v, ip, endpoint, hour) && o == Reached,
      (v: Visit, o) => AtIpGate(v, ip, endpoint, hour) && !AtQuotaGate(v, ip, endpoint, hour) && o == Reached,
      (v: Visit, o) => AtQuotaGate(v, ip, endpoint, hour) && !AtIpGate(v, ip, endpoint, hour) && o == Reached);
  }

  lemma ReachedWasCounted(visits: seq<Visit>, perIp: u32, ip: string, hour: nat)
    ensures ReachedAnywhere(visits, perIp, ip, hour) <= Counted(visits, perIp, GlobalIp(ip, hour))
  {
    hide Tally;
    TallyWithin(visits, perIp, (v: Visit, o) => v.ip == ip && WindowStart(v.at, HOUR) == hour && o == Reached,
                (v, o) => Counts(GlobalIp(ip, hour), v, o));
  }

  /** The sum of the quota counts of the listed clients. */
  function QuotaSum(store: Store, clients: seq<string>, endpoint: string, hour: nat): nat {
    if clients == [] then 0
    else RawCount(store, Quota(clients[0], endpoint, hour)) + QuotaSum(store, clients[1..], endpoint, hour)
  }

  function RawCount(store: Store, b: Bucket): nat {
    if Key(b) in store then ParseCount(store[Key(b)].value) else 0
  }

  predicate Distinct(xs: seq<string>) {
    forall i, j | 0 <= i < j < |xs| :: xs[i] != xs[j]
  }

  function CountedSum(visits: seq<Visit>, perIp: u32, clients: seq<string>, endpoint: string, hour: nat): nat {
    if clients == [] then 0
    else Counted(visits, perIp, Quota(clients[0], endpoint, hour)) +
         CountedSum(visits, perIp, clients[1..], endpoint, hour)
  }

  lemma {:induction false} SumsAgree(visits: seq<Visit>, perIp: u32, clients: seq<string>, endpoint: string, hour: nat)
    requires Ledger(visits, perIp) && ':' !in endpoint
    ensures QuotaSum(Serve(visits, perIp), clients, endpoint, hour) ==
              CountedSum(visits, perIp, clients, endpoint, hour)
  {
    if clients != [] {
      SumsAgree(visits, perIp, clients[1..], endpoint, hour);
      assert Hourly(Quota(clients[0], endpoint, hour));
    }
  }

  /** One more visit adds one to the sum exactly when it reached the handler as one of the clients. */
  lemma {:induction false} SumGrows(visits: seq<Visit>, perIp: u32, clients: seq<string>, endpoint: string, hour: nat)
    requires visits != [] && Distinct(clients)
    ensures var before, v := visits[..|visits| - 1], visits[|visits| - 1];
            CountedSum(visits, perIp, clients, endpoint, hour) ==
              CountedSum(before, perIp, clients, endpoint, hour) +
              if v.Client() in clients && v.endpoint == endpoint && WindowStart(v.quotaAt, HOUR) == hour
                 && Chain(Serve(before, perIp), v, perIp).1 == Reached then 1 else 0
    decreases |clients|
  {
    hide Chain, FaultyChain, Serve, Visit.Client;
    if clients != [] {
      SumGrows(visits, perIp, clients[1..], endpoint, hour);
      assert clients[0] !in clients[1..];
      assert clients == [clients[0]] + clients[1..];
    }
  }

  lemma PassedGrows(visits: seq<Visit>, perIp: u32, ip: string, endpoint: string, hour: nat)
    requires visits != []
    ensures var before, v := visits[..|visits| - 1], visits[|visits| - 1];
            PassedQuota(visits, perIp, ip, endpoint, hour) ==
              PassedQuota(before, perIp, ip, endpoint, hour) +
              if AtQuotaGate(v, ip, endpoint, hour) && Chain(Serve(before, perIp), v, perIp).1 == Reached then 1 else 0
  {
  }

  lemma {:induction false} SumIsPassed(visits: seq<Visit>, perIp: u32, clients: seq<string>, ip: string,
                                       endpoint: string, hour: nat)
    requires Distinct(clients)
    requires forall v | v in visits :: v.Client() in clients <==> v.ip == ip
    ensures CountedSum(visits, perIp, clients, endpoint, hour) == PassedQuota(visits, perIp, ip, endpoint, hour)
  {
    if visits == [] {
      SumOfNone(perIp, clients, endpoint, hour);
    } else {
      SumGrows(visits, perIp, clients, endpoint, hour);
      PassedGrows(visits, perIp, ip, endpoint, hour);
      SumIsPassed(visits[..|visits| - 1], perIp, clients, ip, endpoint, hour);
      assert visits[|visits| - 1] in visits;
    }
  }

  lemma {:induction false} SumOfNone(perIp: u32, clients: seq<string>, endpoint: string, hour: nat)
    ensures CountedSum([], perIp, clients, endpoint, hour) == 0
  {
    if clients != [] {
      SumOfNone(perIp, clients[1..], endpoint, hour);
    }
  }

  /** `clients` lists, once each, the clients that visited from the address. */
  predicate ClientsOf(visits: seq<Visit>, ip: string, clients: seq<string>) {
    && Distinct(clients)
    && (forall v | v in visits && v.ip == ip :: v.Client() in clients)
    && (forall c | c in clients :: exists v | v in visits :: v.ip == ip && v.Client() == c)
  }

  lemma LedgerSays(visits: seq<Visit>, perIp: u32, b: Bucket)
    requires Ledger(visits, perIp) && Hourly(b)
    ensures RawCount(Serve(visits, perIp), b) == Counted(visits, perIp, b)
  {
    hide Serve, Counted;
    SaysCount(Serve(visits, perIp), b, Counted(visits, perIp, b));
  }

  /** Conservation along the chain, for every address, endpoint and hour of every run: the stored
      per-IP count is the sum of the stored quota counts of that address's clients plus the requests
      refused at the quota gate, but for the requests that crossed into or out of the hour between the
      two gates; without them, or with as many in as out, and only then, it is that sum. What reaches
      the handler is at most the per-IP limit, and at most 1000 over all endpoints. */
  lemma Conservation(visits: seq<Visit>, perIp: u32, ip: string, endpoint: string, hour: nat, clients: seq<string>)
    requires Plain(visits) && ':' !in endpoint && ClientsOf(visits, ip, clients)
    ensures var count := RawCount(Serve(visits, perIp), Expert(ip, endpoint, hour));
            var quotas := QuotaSum(Serve(visits, perIp), clients, endpoint, hour);
            var refused := QuotaRefusals(visits, perIp, ip, endpoint, hour);
            var out, in_ := CrossedOut(visits, perIp, ip, endpoint, hour), CrossedIn(visits, perIp, ip, endpoint, hour);
            && count + in_ == quotas + refused + out
            && (count == quotas + refused <==> in_ == out)
            && quotas == PassedQuota(visits, perIp, ip, endpoint, hour)
            && count == ReachedFrom(visits, perIp, ip, endpoint, hour) + refused <= perIp
            && ReachedAnywhere(visits, perIp, ip, hour) <= 1000
  {
    hide Serve, Tally, Chain, QuotaSum, CountedSum, Ledger, Counted, Says, RawCount;
    hide ReachedFrom, QuotaRefusals, PassedQuota, CrossedOut, CrossedIn, ReachedAnywhere;
    KvIsLedger(visits, perIp);
    LedgerSays(visits, perIp, Expert(ip, endpoint, hour));
    SumsAgree(visits, perIp, clients, endpoint, hour);
    ClientsNameIp(visits, ip, clients);
    SumIsPassed(visits, perIp, clients, ip, endpoint, hour);
    IpCountSplits(visits, perIp, ip, endpoint, hour);
    Crossings(visits, perIp, ip, endpoint, hour);
    ReachedWasCounted(visits, perIp, ip, hour);
    CountsCapped(visits, perIp, Expert(ip, endpoint, hour));
    CountsCapped(visits, perIp, GlobalIp(ip, hour));
  }

  lemma ClientsNameIp(visits: seq<Visit>, ip: string, clients: seq<string>)
    requires Plain(visits) && ClientsOf(visits, ip, clients)
    ensures forall v | v in visits :: v.Client() in clients <==> v.ip == ip
  {
    forall v | v in visits
      ensures v.Client() in clients <==> v.ip == ip
    {
      if v.Client() in clients {
        var u :| u in visits && u.ip == ip && u.Client() == v.Client();
        ClientIdsApart(u.origin, u.apiKey, u.ip, v.origin, v.apiKey, v.ip);
      }
    }
  }

  /** A visit that straddles the hour, as one with the gates at seconds 3599, 3599 and 3600: its hour
      has it in the per-IP count and in no quota count. */
  lemma StraddlingVisit(v: Visit, perIp: u32)
    requires ':' !in v.ip && ':' !in v.endpoint && v.quota > 0 && perIp > 0
    requires WindowStart(v.ipAt, HOUR) != WindowStart(v.quotaAt, HOUR)
    ensures Chain(map[], v, perIp).1 == Reached
    ensures RawCount(Serve([v], perIp), v.IpBucket()) == 1
    ensures RawCount(Serve([v], perIp), Quota(v.Client(), v.endpoint, WindowStart(v.ipAt, HOUR))) == 0
  {
    var other := Quota(v.Client(), v.endpoint, WindowStart(v.ipAt, HOUR));
    FirstVisitReaches(v, perIp);
    OneVisit(v, perIp);
    hide Chain, Says;
    ChainCounts(map[], v, perIp, v.IpBucket(), 0, 0, 0, 0);
    ChainCounts(map[], v, perIp, other, 0, 0, 0, 0);
    SaysCount(Serve([v], perIp), v.IpBucket(), 1);
    SaysCount(Serve([v], perIp), other, 0);
  }

  lemma OneVisit(v: Visit, perIp: u32)
    ensures Serve([v], perIp) == Chain(map[], v, perIp).0
    ensures Says(map[], v.GlobalBucket(), 0) && Says(map[], v.IpBucket(), 0) && Says(map[], v.QuotaBucket(), 0)
    ensures Says(map[], Quota(v.Client(), v.endpoint, WindowStart(v.ipAt, HOUR)), 0)
  {
    assert [v][..0] == [];
  }

  lemma SaysCount(store: Store, b: Bucket, n: nat)
    requires Hourly(b) && Says(store, b, n)
    ensures RawCount(store, b) == n
  {
  }

  /** On an empty KV all three gates are open. */
  lemma FirstVisitReaches(v: Visit, perIp: u32)
    requires ':' !in v.ip && ':' !in v.endpoint && v.quota > 0 && perIp > 0
    ensures Chain(map[], v, perIp).1 == Reached
  {
    var g, i, q := v.GlobalBucket(), v.IpBucket(), v.QuotaBucket();
    var store1 := Gate(map[], g, GLOBAL_IP_LIMIT, v.at, NO_FAULTS).0;
    GateCounts(map[], g, GLOBAL_IP_LIMIT, v.at, 0, i, 0);
    GateCounts(map[], g, GLOBAL_IP_LIMIT, v.at, 0, q, 0);
    GateCounts(store1, i, perIp, v.ipAt, 0, q, 0);
    var store2 := Gate(store1, i, perIp, v.ipAt, NO_FAULTS).0;
    GateCounts(store2, q, v.quota, v.quotaAt, 0, q, 0);
    hide Gate;
  }
}
