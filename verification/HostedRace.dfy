/** The hosted counter under concurrency. A check that finds no usable memo waits for a KV read, which
    may come after the memo has changed and may return any count sent to the KV before; what was read
    may be out of date again when the check replaces the memo and sends its own count. A run is a list
    of the sections of any number of checks on any number of keys.

    The store of a world holds the counts sent last. A count that lands late, after a later one or not
    at all is one that reads do not return: they return earlier ones. */
module HostedRace {
  import opened Text
  import opened Decimal
  import opened RateLimitKv
  import opened KvCounter
  import opened HostedCounter

  /** A check at its await: the count it read, and how many counts had been written by then. */
  datatype Pending = Pending(key: string, limit: u32, ttl: nat, now: nat, stored: u64, seen: nat)

  /** What has happened on one key: the counts sent to the KV in order, the requests given a
      count, those of them let through, and those refused for a failed read. */
  datatype Tally = Tally(written: seq<u64>, answered: nat, admitted: nat, unavailable: nat)

  const NOTHING := Tally([], 0, 0, 0)

  /** `origin` is the store as it was when the run began. */
  datatype World = World(site: Site, origin: Store, pending: map<nat, Pending>, tallies: map<string, Tally>)

  /** A check looks for a memo and reads the KV if there is none; a check that waited ends. The read
      comes `late` if the memo was looked for earlier, whatever it is now, and returns the count sent
      `back` counts ago. */
  datatype Event =
    | Ask(id: nat, key: string, limit: u32, ttl: nat, now: nat, fails: bool, late: bool, back: nat)
    | Finish(id: nat, at: nat, evicted: set<string>)

  function Of(w: World, key: string): Tally {
    if key in w.tallies then w.tallies[key] else NOTHING
  }

  function Answer(t: Tally, v: Verdict, put: Option<u64>): Tally {
    Tally(if put.Some? then t.written + [put.value] else t.written, t.answered + 1,
          if v.allowed then t.admitted + 1 else t.admitted, t.unavailable)
  }

  function Step(w: World, e: Event): World {
    if e.Ask? then if e.id in w.pending then w else StepAsk(w, e)
    else if e.id !in w.pending then w else StepFinish(w, e)
  }

  /** What a read returns: the count sent last if it is not expired, an earlier one, or, before the
      first of the run, what the store held. */
  function CountRead(w: World, key: string, now: nat, back: nat): u64 {
    var written := Of(w, key).written;
    if back == 0 then StoredCount(w.site.store, key, now)
    else if back < |written| then written[|written| - 1 - back]
    else StoredCount(w.origin, key, now)
  }

  function StepAsk(w: World, e: Event): World
    requires e.Ask? && e.id !in w.pending
  {
    var t := Of(w, e.key);
    if !e.late && Usable(w.site.memos, e.key, e.now) then
      var (site, v) := HitPart(w.site, e.key, e.limit, e.ttl, e.now, false);
      w.(site := site, tallies := w.tallies[e.key := Answer(t, v, HitMemo(w.site.memos[e.key], e.now).1)])
    else if e.fails then w.(tallies := w.tallies[e.key := t.(unavailable := t.unavailable + 1)])
    else
      var p := Pending(e.key, e.limit, e.ttl, e.now, CountRead(w, e.key, e.now, e.back), SatSub(|t.written|, e.back));
      w.(pending := w.pending[e.id := p])
  }

  function StepFinish(w: World, e: Event): World
    requires e.Finish? && e.id in w.pending
  {
    var p := w.pending[e.id];
    var (site, v) := RefreshPart(w.site, p.key, p.limit, p.ttl, p.now, e.at, p.stored, false, e.evicted);
    w.(site := site, pending := w.pending - {e.id},
       tallies := w.tallies[p.key := Answer(Of(w, p.key), v, Some(SatAdd64(p.stored, 1)))])
  }

  function Run(w: World, events: seq<Event>): World {
    if events == [] then w else Step(Run(w, events[..|events| - 1]), events[|events| - 1])
  }

  /** The two sections with nothing in between are one check. */
  lemma CheckIsAskThenFinish(w: World, id: nat, key: string, limit: u32, ttl: nat, now: nat, fails: bool,
                             evicted: set<string>)
    requires id !in w.pending
    ensures var (site, v) := HostedCheck(w.site, key, limit, ttl, now, Faults(fails, false), evicted);
            var w' := Step(Step(w, Ask(id, key, limit, ttl, now, fails, false, 0)), Finish(id, now, evicted));
            && w'.site == site && w'.pending == w.pending
            && Of(w', key).admitted == Of(w, key).admitted + (if v.allowed then 1 else 0)
            && Of(w', key).unavailable == Of(w, key).unavailable + (if v.readFailed then 1 else 0)
  {
    if !Usable(w.site.memos, key, now) && !fails {
      var w1 := Step(w, Ask(id, key, limit, ttl, now, fails, false, 0));
      assert w1.pending - {id} == w.pending;
    }
  }

  /** The next event, if it is on `key`: its limit is in `[lo, hi]`, it reads no expired entry and
      writes none that expires before `until`, and at most `k` other counts were written since the
      value it read. */
  predicate Disciplined(w: World, e: Event, key: string, lo: u32, hi: u32, k: nat, until: nat) {
    match e
    case Ask(id, ekey, limit, ttl, now, _, _, _) =>
      ekey == key && id !in w.pending ==> lo <= limit <= hi && now / 1000 < until <= now / 1000 + ttl
    case Finish(id, at, _) =>
      id in w.pending && w.pending[id].key == key ==>
        until <= at / 1000 + w.pending[id].ttl && |Of(w, key).written| <= w.pending[id].seen + k
  }

  predicate OverlapAtMost(w: World, events: seq<Event>, key: string, lo: u32, hi: u32, k: nat, until: nat) {
    events == [] ||
    var before := events[..|events| - 1];
    && OverlapAtMost(w, before, key, lo, hi, k, until)
    && Disciplined(Run(w, before), events[|events| - 1], key, lo, hi, k, until)
  }

  // ---------------------------------------------------------------- what every step keeps

  function ValueAfter(c0: nat, written: seq<nat>, j: nat): nat
    requires j <= |written|
  {
    if j == 0 then c0 else written[j - 1]
  }

  /** After `j` writes the count is at least `c0 + j/(k+1)`, and no count passes `c0 + n`. */
  ghost predicate Paced(c0: nat, written: seq<nat>, n: nat, k: nat) {
    forall j: nat | j <= |written| ::
      && c0 <= ValueAfter(c0, written, j) <= c0 + n
      && j <= (k + 1) * (ValueAfter(c0, written, j) - c0)
  }

  predicate Tracked(p: Pending, c0: nat, written: seq<nat>, lo: u32, hi: u32) {
    p.seen <= |written| && p.stored == ValueAfter(c0, written, p.seen) && lo <= p.limit <= hi
  }

  predicate AllTracked(pending: map<nat, Pending>, key: string, c0: nat, written: seq<nat>, lo: u32, hi: u32) {
    forall id | id in pending && pending[id].key == key :: Tracked(pending[id], c0, written, lo, hi)
  }

  /** The KV holds the last count written, the memo knows it, and runs at most nine ahead of it. */
  predicate Synced(s: Site, key: string, c0: nat, written: seq<nat>, n: nat, until: nat) {
    && InKv(s, key) == ValueAfter(c0, written, |written|)
    && (key in s.store ==> until <= s.store[key].expiresAt)
    && (key in s.memos ==>
          s.memos[key].kvCount == InKv(s, key) && s.memos[key].kvCount <= s.memos[key].count <= c0 + n)
    && Unsynced(s, key) <= 9
    && n <= 10 * |written| + Unsynced(s, key)
  }

  /** `n` requests were answered and `admitted` of them let through. */
  predicate AdmittedWithin(admitted: nat, n: nat, c0: nat, lo: u32, hi: u32, k: nat) {
    Min(n, SatSub(lo, c0 + 1)) <= admitted <= Min(n, 10 * ((k + 1) * SatSub(hi, c0 + 1)))
  }

  /** The run began with the count `c0`, readable until `until`. */
  predicate Began(origin: Store, key: string, c0: nat, until: nat) {
    InKv(Site(map[], origin), key) == c0 && (key in origin ==> until <= origin[key].expiresAt)
  }

  ghost predicate Inv(w: World, key: string, c0: nat, lo: u32, hi: u32, k: nat, until: nat) {
    var t := Of(w, key);
    && Paced(c0, t.written, t.answered, k)
    && Synced(w.site, key, c0, t.written, t.answered, until)
    && AllTracked(w.pending, key, c0, t.written, lo, hi)
    && Began(w.origin, key, c0, until)
    && AdmittedWithin(t.admitted, t.answered, c0, lo, hi, k)
  }

  lemma PacedStep(c0: nat, written: seq<nat>, n: nat, k: nat, seen: nat, v: nat)
    requires Paced(c0, written, n, k) && seen <= |written| <= seen + k
    requires ValueAfter(c0, written, seen) < v <= c0 + n + 1
    ensures Paced(c0, written + [v], n + 1, k)
  {
    var written', u := written + [v], ValueAfter(c0, written, seen);
    forall j: nat | j <= |written'|
      ensures ValueAfter(c0, written', j) == if j <= |written| then ValueAfter(c0, written, j) else v
    {}
    assert (k + 1) * (v - c0) == (k + 1) * (u - c0) + (k + 1) * (v - u);
    MulMonotone(k + 1, 1, v - u);
  }

  lemma MulMonotone(a: nat, x: nat, y: nat)
    requires x <= y
    ensures a * x <= a * y
  {
  }

  lemma PacedLater(c0: nat, written: seq<nat>, n: nat, k: nat)
    requires Paced(c0, written, n, k)
    ensures Paced(c0, written, n + 1, k)
    ensures c0 <= ValueAfter(c0, written, |written|) <= c0 + n
  {
  }

  lemma TrackedLater(pending: map<nat, Pending>, key: string, c0: nat, written: seq<nat>, v: nat, lo: u32, hi: u32)
    requires AllTracked(pending, key, c0, written, lo, hi)
    ensures AllTracked(pending, key, c0, written + [v], lo, hi)
  {
    forall id | id in pending && pending[id].key == key
      ensures Tracked(pending[id], c0, written + [v], lo, hi)
    {
      assert Tracked(pending[id], c0, written, lo, hi);
    }
  }

  /** A request that is given the count `value + ahead`, of which the KV holds `value`. */
  lemma AdmittedStep(admitted: nat, n: nat, c0: nat, limit: u32, lo: u32, hi: u32, k: nat,
                     written: nat, value: nat, ahead: nat)
    requires AdmittedWithin(admitted, n, c0, lo, hi, k) && lo <= limit <= hi
    requires c0 <= value && value + ahead <= c0 + n + 1
    requires n + 1 <= 10 * written + ahead && written <= (k + 1) * (value - c0)
    ensures AdmittedWithin(if value + ahead < limit then admitted + 1 else admitted, n + 1, c0, lo, hi, k)
  {
    if value + ahead < limit {
      var room := SatSub(hi, c0 + 1);
      assert value - c0 + ahead <= room;
      assert (k + 1) * (value - c0 + ahead) == (k + 1) * (value - c0) + (k + 1) * ahead;
      MulMonotone(k + 1, value - c0 + ahead, room);
      MulMonotone(ahead, 1, k + 1);
    }
  }

  /** The counts written, a hit's included. */
  function WithPut(written: seq<nat>, put: Option<nat>): seq<nat> {
    if put.Some? then written + [put.value] else written
  }

  lemma HitSynced(s: Site, key: string, limit: u32, ttl: nat, now: nat, c0: nat, written: seq<nat>, n: nat, until: nat)
    requires Synced(s, key, c0, written, n, until) && Usable(s.memos, key, now)
    requires c0 + n < U64_MAX && until <= now / 1000 + ttl
    ensures var (site, v) := HitPart(s, key, limit, ttl, now, false);
            var (m, put) := HitMemo(s.memos[key], now);
            && Synced(site, key, c0, WithPut(written, put), n + 1, until)
            && v == Decide(m.count, limit) && m.count == s.memos[key].count + 1
            && (put == None || put == Some(m.count))
            && (put == None ==> m.count <= s.memos[key].kvCount + 9)
  {
    ParseOfPrint(s.memos[key].count + 1, U64_MAX);
  }

  lemma SyncedMeans(s: Site, key: string, c0: nat, written: seq<nat>, n: nat, until: nat)
    requires Synced(s, key, c0, written, n, until) && key in s.memos
    ensures s.memos[key].kvCount == ValueAfter(c0, written, |written|) <= s.memos[key].count <= c0 + n
    ensures n <= 10 * |written| + (s.memos[key].count - s.memos[key].kvCount)
    ensures s.memos[key].count - s.memos[key].kvCount <= 9
  {
  }

  lemma HitIs(w: World, e: Event)
    requires e.Ask? && e.id !in w.pending && !e.late && Usable(w.site.memos, e.key, e.now)
    ensures var (site, v) := HitPart(w.site, e.key, e.limit, e.ttl, e.now, false);
            && Step(w, e).site == site && Step(w, e).pending == w.pending && Step(w, e).origin == w.origin
            && Of(Step(w, e), e.key) == Answer(Of(w, e.key), v, HitMemo(w.site.memos[e.key], e.now).1)
  {
  }

  lemma HitKeeps(w: World, e: Event, key: string, c0: nat, lo: u32, hi: u32, k: nat, until: nat)
    requires Inv(w, key, c0, lo, hi, k, until) && Disciplined(w, e, key, lo, hi, k, until)
    requires e.Ask? && e.id !in w.pending && e.key == key && !e.late && Usable(w.site.memos, key, e.now)
    requires c0 + Of(w, key).answered < U64_MAX
    ensures Inv(Step(w, e), key, c0, lo, hi, k, until)
  {
    hide Paced, Synced, AllTracked, AdmittedWithin, Began, HitPart, HitMemo, ValueAfter, Unsynced, InKv, Step, Of;
    HitIs(w, e);
    var t, memo := Of(w, key), w.site.memos[key];
    var (m, put) := HitMemo(memo, e.now);
    SyncedMeans(w.site, key, c0, t.written, t.answered, until);
    HitSynced(w.site, key, e.limit, e.ttl, e.now, c0, t.written, t.answered, until);
    PacedLater(c0, t.written, t.answered, k);
    LastPaced(c0, t.written, t.answered, k);
    if put.Some? {
      PacedStep(c0, t.written, t.answered, k, |t.written|, m.count);
      LastPaced(c0, t.written + [m.count], t.answered + 1, k);
      LastValue(c0, t.written, m.count);
      TrackedLater(w.pending, key, c0, t.written, m.count, lo, hi);
      AdmittedStep(t.admitted, t.answered, c0, e.limit, lo, hi, k, |t.written| + 1, m.count, 0);
    } else {
      AdmittedStep(t.admitted, t.answered, c0, e.limit, lo, hi, k, |t.written|, memo.kvCount, m.count - memo.kvCount);
    }
  }

  lemma LastValue(c0: nat, written: seq<nat>, v: nat)
    ensures ValueAfter(c0, written + [v], |written + [v]|) == v
  {
  }

  lemma LastPaced(c0: nat, written: seq<nat>, n: nat, k: nat)
    requires Paced(c0, written, n, k)
    ensures c0 <= ValueAfter(c0, written, |written|) <= c0 + n
    ensures |written| <= (k + 1) * (ValueAfter(c0, written, |written|) - c0)
  {
  }

  lemma CountReadIs(w: World, key: string, now: nat, back: nat, c0: nat, written: seq<nat>, n: nat, until: nat)
    requires Synced(w.site, key, c0, written, n, until) && Began(w.origin, key, c0, until) && now / 1000 < until
    requires written == Of(w, key).written
    ensures CountRead(w, key, now, back) == ValueAfter(c0, written, SatSub(|written|, back))
  {
    assert StoredCount(w.site.store, key, now) == InKv(w.site, key);
    assert StoredCount(w.origin, key, now) == c0;
  }

  lemma MoreTracked(pending: map<nat, Pending>, id: nat, p: Pending, key: string, c0: nat, written: seq<nat>, lo: u32,
                    hi: u32)
    requires AllTracked(pending, key, c0, written, lo, hi) && Tracked(p, c0, written, lo, hi)
    ensures AllTracked(pending[id := p], key, c0, written, lo, hi)
  {
  }

  lemma MissKeeps(w: World, e: Event, key: string, c0: nat, lo: u32, hi: u32, k: nat, until: nat)
    requires Inv(w, key, c0, lo, hi, k, until) && Disciplined(w, e, key, lo, hi, k, until)
    requires e.Ask? && e.id !in w.pending && e.key == key && (e.late || !Usable(w.site.memos, key, e.now))
    ensures Inv(Step(w, e), key, c0, lo, hi, k, until)
  {
    hide Paced, AdmittedWithin, Synced, AllTracked, Began, CountRead, Usable, ValueAfter;
    var t := Of(w, key);
    if !e.fails {
      CountReadIs(w, key, e.now, e.back, c0, t.written, t.answered, until);
      MoreTracked(w.pending, e.id, Step(w, e).pending[e.id], key, c0, t.written, lo, hi);
    }
  }

  lemma RefreshSynced(s: Site, p: Pending, at: nat, evicted: set<string>, c0: nat, written: seq<nat>, n: nat,
                      until: nat)
    requires Synced(s, p.key, c0, written, n, until) && c0 <= p.stored <= c0 + n < U64_MAX
    requires until <= at / 1000 + p.ttl
    ensures var (site, v) := RefreshPart(s, p.key, p.limit, p.ttl, p.now, at, p.stored, false, evicted);
            Synced(site, p.key, c0, written + [p.stored + 1], n + 1, until) && v == Decide(p.stored + 1, p.limit)
  {
    ParseOfPrint(p.stored + 1, U64_MAX);
  }

  lemma FinishKeeps(w: World, e: Event, key: string, c0: nat, lo: u32, hi: u32, k: nat, until: nat)
    requires Inv(w, key, c0, lo, hi, k, until) && Disciplined(w, e, key, lo, hi, k, until)
    requires e.Finish? && e.id in w.pending && w.pending[e.id].key == key
    requires c0 + Of(w, key).answered < U64_MAX
    ensures Inv(Step(w, e), key, c0, lo, hi, k, until)
  {
    hide Paced, Synced, AdmittedWithin, AllTracked, Began, RefreshPart, ValueAfter;
    var t, p := Of(w, key), w.pending[e.id];
    var v := p.stored + 1;
    FindTracked(w.pending, e.id, key, c0, t.written, lo, hi);
    SeenPaced(c0, t.written, t.answered, k, p.seen);
    RefreshSynced(w.site, p, e.at, e.evicted, c0, t.written, t.answered, until);
    PacedStep(c0, t.written, t.answered, k, p.seen, v);
    LastPaced(c0, t.written + [v], t.answered + 1, k);
    LastValue(c0, t.written, v);
    TrackedLater(w.pending, key, c0, t.written, v, lo, hi);
    FewerTracked(w.pending, e.id, key, c0, t.written + [v], lo, hi);
    WritesCover(w.site, key, c0, t.written, t.answered, until);
    AdmittedStep(t.admitted, t.answered, c0, p.limit, lo, hi, k, |t.written| + 1, v, 0);
  }

  lemma WritesCover(s: Site, key: string, c0: nat, written: seq<nat>, n: nat, until: nat)
    requires Synced(s, key, c0, written, n, until)
    ensures n <= 10 * |written| + 9
  {
  }

  lemma FindTracked(pending: map<nat, Pending>, id: nat, key: string, c0: nat, written: seq<nat>, lo: u32, hi: u32)
    requires AllTracked(pending, key, c0, written, lo, hi) && id in pending && pending[id].key == key
    ensures Tracked(pending[id], c0, written, lo, hi)
  {
  }

  lemma SeenPaced(c0: nat, written: seq<nat>, n: nat, k: nat, j: nat)
    requires Paced(c0, written, n, k) && j <= |written|
    ensures c0 <= ValueAfter(c0, written, j) <= c0 + n
  {
  }

  lemma FewerTracked(pending: map<nat, Pending>, id: nat, key: string, c0: nat, written: seq<nat>, lo: u32, hi: u32)
    requires AllTracked(pending, key, c0, written, lo, hi)
    ensures AllTracked(pending - {id}, key, c0, written, lo, hi)
  {
  }

  /** A memo that is gone may have held nine hits. */
  lemma SyncedElsewhere(s: Site, s': Site, key: string, c0: nat, written: seq<nat>, n: nat, until: nat)
    requires Synced(s, key, c0, written, n, until)
    requires key in s.store <==> key in s'.store
    requires key in s.store ==> s'.store[key] == s.store[key]
    requires key in s'.memos ==> key in s.memos && s'.memos[key] == s.memos[key]
    ensures Synced(s', key, c0, written, n, until)
  {
    assert InKv(s', key) == InKv(s, key);
  }

  /** An event on another key does no more to this one than to evict its memo. */
  lemma OthersKeep(w: World, e: Event, key: string, c0: nat, lo: u32, hi: u32, k: nat, until: nat)
    requires Inv(w, key, c0, lo, hi, k, until)
    requires e.Ask? ==> e.key != key
    requires e.Finish? ==> e.id in w.pending && w.pending[e.id].key != key
    ensures Inv(Step(w, e), key, c0, lo, hi, k, until)
  {
    hide Paced, AdmittedWithin, Synced, Tracked, Began, CountRead, InKv;
    var w' := Step(w, e);
    assert Of(w', key) == Of(w, key);
    SyncedElsewhere(w.site, w'.site, key, c0, Of(w, key).written, Of(w, key).answered, until);
  }

  /** An event that cannot happen. */
  predicate Idle(w: World, e: Event)
    ensures !Idle(w, e) <==> if e.Ask? then e.id !in w.pending else e.id in w.pending
  {
    if e.Ask? then e.id in w.pending else e.id !in w.pending
  }

  lemma IdleStep(w: World, e: Event)
    requires Idle(w, e)
    ensures Step(w, e) == w
  {
  }

  lemma AnswersGrow(w: World, e: Event, key: string)
    ensures Of(Step(w, e), key).answered <= Of(w, key).answered + 1
  {
  }

  lemma StepKeeps(w: World, e: Event, key: string, c0: nat, lo: u32, hi: u32, k: nat, until: nat)
    requires Inv(w, key, c0, lo, hi, k, until) && Disciplined(w, e, key, lo, hi, k, until)
    requires c0 + Of(w, key).answered < U64_MAX
    ensures Inv(Step(w, e), key, c0, lo, hi, k, until)
    ensures Of(Step(w, e), key).answered <= Of(w, key).answered + 1
  {
    hide *;
    AnswersGrow(w, e, key);
    if Idle(w, e) {
      IdleStep(w, e);
    } else if e.Ask? && e.key == key {
      if !e.late && Usable(w.site.memos, key, e.now) {
        HitKeeps(w, e, key, c0, lo, hi, k, until);
      } else {
        MissKeeps(w, e, key, c0, lo, hi, k, until);
      }
    } else if e.Finish? && w.pending[e.id].key == key {
      FinishKeeps(w, e, key, c0, lo, hi, k, until);
    } else {
      OthersKeep(w, e, key, c0, lo, hi, k, until);
    }
  }

  /** At the beginning of a run nothing is known of the key or under way on it but its KV entry. */
  predicate Quiet(w: World, key: string) {
    && key !in w.tallies && key !in w.site.memos && w.origin == w.site.store
    && forall id | id in w.pending :: w.pending[id].key != key
  }

  lemma QuietInv(w: World, key: string, lo: u32, hi: u32, k: nat, until: nat)
    requires Quiet(w, key) && (key in w.site.store ==> until <= w.site.store[key].expiresAt)
    ensures Inv(w, key, InKv(w.site, key), lo, hi, k, until) && Of(w, key).answered == 0
  {
  }

  lemma {:induction false} RunKeeps(w: World, events: seq<Event>, key: string, lo: u32, hi: u32, k: nat, until: nat)
    requires Quiet(w, key) && (key in w.site.store ==> until <= w.site.store[key].expiresAt)
    requires OverlapAtMost(w, events, key, lo, hi, k, until) && InKv(w.site, key) + |events| < U64_MAX
    ensures Inv(Run(w, events), key, InKv(w.site, key), lo, hi, k, until)
    ensures Of(Run(w, events), key).answered <= |events|
  {
    hide Inv, Step, Disciplined;
    if events == [] {
      QuietInv(w, key, lo, hi, k, until);
    } else {
      var before := events[..|events| - 1];
      RunKeeps(w, before, key, lo, hi, k, until);
      StepKeeps(Run(w, before), events[|events| - 1], key, InKv(w.site, key), lo, hi, k, until);
    }
  }

  /** In every interleaving in which no count is sent more than `k` others after the value it was
      computed from, of `n` answered requests the count sent last has at most all and at least one in
      `10 * (k + 1)`, nine aside; with room for `m` before the last one of the limit, at least
      `min(n, m)` and at most `10 * (k + 1) * m` are admitted. */
  lemma {:induction false} HostedOverlapBound(w: World, events: seq<Event>, key: string, lo: u32, hi: u32, k: nat,
                                              until: nat)
    requires Quiet(w, key) && (key in w.site.store ==> until <= w.site.store[key].expiresAt)
    requires OverlapAtMost(w, events, key, lo, hi, k, until) && InKv(w.site, key) + |events| < U64_MAX
    ensures var c0, end, t := InKv(w.site, key), InKv(Run(w, events).site, key), Of(Run(w, events), key);
            && c0 <= end <= c0 + t.answered
            && t.answered <= 10 * ((k + 1) * (end - c0)) + 9
            && AdmittedWithin(t.admitted, t.answered, c0, lo, hi, k)
  {
    RunKeeps(w, events, key, lo, hi, k, until);
    var t := Of(Run(w, events), key);
    LastPaced(InKv(w.site, key), t.written, t.answered, k);
  }

  // ---------------------------------------------------------------- what overlap costs

  lemma Snoc(w: World, a: seq<Event>, e: Event, key: string, lo: u32, hi: u32, k: nat, until: nat)
    ensures Run(w, a + [e]) == Step(Run(w, a), e)
    ensures OverlapAtMost(w, a + [e], key, lo, hi, k, until) <==>
              OverlapAtMost(w, a, key, lo, hi, k, until) && Disciplined(Run(w, a), e, key, lo, hi, k, until)
  {
    assert (a + [e])[..|a|] == a;
  }

  lemma {:induction false} Joined(w: World, a: seq<Event>, b: seq<Event>, key: string, lo: u32, hi: u32, k: nat,
                                  until: nat)
    ensures Run(w, a + b) == Run(Run(w, a), b)
    ensures (OverlapAtMost(w, a, key, lo, hi, k, until) && OverlapAtMost(Run(w, a), b, key, lo, hi, k, until)) ==>
              OverlapAtMost(w, a + b, key, lo, hi, k, until)
    decreases |b|
  {
    if b == [] {
      assert a + b == a;
    } else {
      assert (a + b)[..|a + b| - 1] == a + b[..|b| - 1];
      Joined(w, a, b[..|b| - 1], key, lo, hi, k, until);
    }
  }

  /** One request of the crowd comes in. */
  function AskOf(r: Request, id: nat): Event {
    Ask(id, r.key, r.limit, r.ttl, r.now, false, false, 0)
  }

  function Misses(r: Request, n: nat): seq<Event> {
    if n == 0 then [] else Misses(r, n - 1) + [AskOf(r, n - 1)]
  }

  /** A check that waited ends, and `h` more requests are answered from the memo it leaves. */
  function Round(r: Request, i: nat, n: nat, h: nat): seq<Event> {
    if h == 0 then [Finish(i, r.now, {})] else Round(r, i, n, h - 1) + [AskOf(r, n)]
  }

  function Rounds(r: Request, i: nat, n: nat, h: nat): seq<Event> {
    if i == 0 then [] else Rounds(r, i - 1, n, h) + Round(r, i - 1, n, h)
  }

  /** `n` requests read the same count before any of them writes. */
  function Crowd(r: Request, n: nat, h: nat): seq<Event> {
    Misses(r, n) + Rounds(r, n, n, h)
  }

  /** Checks `i` to `n - 1` wait, and all of them read `v`. */
  predicate AllWait(w: World, r: Request, i: nat, n: nat, v: u64) {
    && (forall id | id in w.pending :: i <= id < n)
    && (forall id | i <= id < n :: id in w.pending && w.pending[id] == Pending(r.key, r.limit, r.ttl, r.now, v, 0))
  }

  /** So far `a` requests were answered, all of them let through, and `writes` counts written. */
  predicate Answered(w: World, r: Request, a: nat, writes: nat) {
    var t := Of(w, r.key);
    t.answered == a && t.admitted == a && |t.written| == writes
  }

  predicate Pays(w: World, events: seq<Event>, r: Request, n: nat) {
    n > 0 && OverlapAtMost(w, events, r.key, r.limit, r.limit, n - 1, r.now / 1000 + r.ttl)
  }

  predicate AllAsked(w: World, r: Request, i: nat, v: u64) {
    AllWait(w, r, 0, i, v) && Stale(w.site, r, v) && Answered(w, r, 0, 0)
  }

  lemma OneMiss(w: World, r: Request, i: nat, v: u64, n: nat)
    requires AllAsked(w, r, i, v) && r.ttl > 0 && n > 0
    ensures AllAsked(Step(w, AskOf(r, i)), r, i + 1, v)
    ensures Disciplined(w, AskOf(r, i), r.key, r.limit, r.limit, n - 1, r.now / 1000 + r.ttl)
  {
    assert StoredCount(w.site.store, r.key, r.now) == v;
  }

  lemma {:induction false} AfterMisses(w: World, r: Request, i: nat, v: u64, n: nat)
    requires AllAsked(w, r, 0, v) && r.ttl > 0 && n > 0
    ensures AllAsked(Run(w, Misses(r, i)), r, i, v) && Pays(w, Misses(r, i), r, n)
  {
    hide AllAsked, Step, Disciplined, AskOf;
    if i > 0 {
      AfterMisses(w, r, i - 1, v, n);
      OneMiss(Run(w, Misses(r, i - 1)), r, i - 1, v, n);
      Snoc(w, Misses(r, i - 1), AskOf(r, i - 1), r.key, r.limit, r.limit, n - 1, r.now / 1000 + r.ttl);
    }
  }

  lemma OneFinish(w: World, r: Request, i: nat, n: nat, v: u64, a: nat)
    requires i < n && AllWait(w, r, i, n, v) && Answered(w, r, a, i) && v + 1 < r.limit
    ensures var w' := Step(w, Finish(i, r.now, {}));
            AllWait(w', r, i + 1, n, v) && Volleyed(w'.site, r, v, 0) && Answered(w', r, a + 1, i + 1)
    ensures Disciplined(w, Finish(i, r.now, {}), r.key, r.limit, r.limit, n - 1, r.now / 1000 + r.ttl)
  {
    ParseOfPrint(v + 1, U64_MAX);
  }

  lemma OneHit(w: World, r: Request, i: nat, n: nat, v: u64, j: nat, a: nat, writes: nat)
    requires AllWait(w, r, i, n, v) && Volleyed(w.site, r, v, j) && Answered(w, r, a, writes)
    requires j < 9 && v + 2 + j < r.limit && r.ttl > 0 && n > 0
    ensures var w' := Step(w, AskOf(r, n));
            AllWait(w', r, i, n, v) && Volleyed(w'.site, r, v, j + 1) && Answered(w', r, a + 1, writes)
    ensures Disciplined(w, AskOf(r, n), r.key, r.limit, r.limit, n - 1, r.now / 1000 + r.ttl)
  {
    HitOnce(w.site, r, v, j);
  }

  lemma SingleFinish(w: World, r: Request, i: nat, n: nat)
    requires n > 0
    ensures Run(w, [Finish(i, r.now, {})]) == Step(w, Finish(i, r.now, {}))
    ensures Pays(w, [Finish(i, r.now, {})], r, n) <==>
              Disciplined(w, Finish(i, r.now, {}), r.key, r.limit, r.limit, n - 1, r.now / 1000 + r.ttl)
  {
    Snoc(w, [], Finish(i, r.now, {}), r.key, r.limit, r.limit, n - 1, r.now / 1000 + r.ttl);
    assert [] + [Finish(i, r.now, {})] == [Finish(i, r.now, {})];
  }

  lemma {:induction false} AfterRound(w: World, r: Request, i: nat, n: nat, v: u64, h: nat, a: nat)
    requires i < n && AllWait(w, r, i, n, v) && Answered(w, r, a, i)
    requires h <= 9 && v + 1 + h < r.limit && r.ttl > 0
    ensures var w' := Run(w, Round(r, i, n, h));
            AllWait(w', r, i + 1, n, v) && Volleyed(w'.site, r, v, h) && Answered(w', r, a + 1 + h, i + 1)
    ensures Pays(w, Round(r, i, n, h), r, n)
    decreases h
  {
    hide AllWait, Volleyed, Answered, Step, Disciplined, AskOf, Run, OverlapAtMost;
    if h == 0 {
      SingleFinish(w, r, i, n);
      OneFinish(w, r, i, n, v, a);
    } else {
      AfterRound(w, r, i, n, v, h - 1, a);
      OneHit(Run(w, Round(r, i, n, h - 1)), r, i + 1, n, v, h - 1, a + h, i + 1);
      Snoc(w, Round(r, i, n, h - 1), AskOf(r, n), r.key, r.limit, r.limit, n - 1, r.now / 1000 + r.ttl);
    }
  }

  lemma NoRounds(w: World, r: Request, n: nat, h: nat)
    requires n > 0
    ensures Run(w, Rounds(r, 0, n, h)) == w && Pays(w, Rounds(r, 0, n, h), r, n)
  {
  }

  lemma {:induction false} AfterRounds(w: World, r: Request, i: nat, n: nat, v: u64, h: nat)
    requires i <= n && AllWait(w, r, 0, n, v) && Answered(w, r, 0, 0)
    requires n > 0 && h <= 9 && v + 1 + h < r.limit && r.ttl > 0
    ensures var w' := Run(w, Rounds(r, i, n, h));
            AllWait(w', r, i, n, v) && (i > 0 ==> Volleyed(w'.site, r, v, h)) && Answered(w', r, i * (h + 1), i)
    ensures Pays(w, Rounds(r, i, n, h), r, n)
    decreases i
  {
    hide AllWait, Volleyed, Answered, Run, OverlapAtMost, Round;
    if i == 0 {
      NoRounds(w, r, n, h);
    } else {
      AfterRounds(w, r, i - 1, n, v, h);
      AfterRound(Run(w, Rounds(r, i - 1, n, h)), r, i - 1, n, v, h, (i - 1) * (h + 1));
      Joined(w, Rounds(r, i - 1, n, h), Round(r, i - 1, n, h), r.key, r.limit, r.limit, n - 1, r.now / 1000 + r.ttl);
      assert (i - 1) * (h + 1) + 1 + h == i * (h + 1);
    }
  }

  lemma CrowdStarts(w: World, r: Request, v: u64)
    requires w.pending == map[] && r.key !in w.tallies && Stale(w.site, r, v)
    ensures AllAsked(w, r, 0, v)
  {
  }

  lemma CrowdWaits(w: World, r: Request, n: nat, v: u64)
    requires AllAsked(w, r, n, v)
    ensures AllWait(w, r, 0, n, v) && Answered(w, r, 0, 0)
  {
  }

  lemma CrowdEnds(w: World, r: Request, n: nat, v: u64, h: nat)
    requires n > 0 && AllWait(w, r, n, n, v) && Volleyed(w.site, r, v, h) && Answered(w, r, n * (h + 1), n)
    ensures w.pending == map[] && InKv(w.site, r.key) == v + 1
    ensures Of(w, r.key).answered == n * (h + 1) == Of(w, r.key).admitted
  {
  }

  lemma CrowdPays(w: World, r: Request, n: nat, h: nat)
    requires Pays(w, Misses(r, n), r, n) && Pays(Run(w, Misses(r, n)), Rounds(r, n, n, h), r, n)
    ensures OverlapAtMost(w, Misses(r, n), r.key, r.limit, r.limit, n - 1, r.now / 1000 + r.ttl)
    ensures OverlapAtMost(Run(w, Misses(r, n)), Rounds(r, n, n, h), r.key, r.limit, r.limit, n - 1,
                          r.now / 1000 + r.ttl)
    ensures Crowd(r, n, h) == Misses(r, n) + Rounds(r, n, n, h)
  {
  }

  /** With overlap `n - 1`, for any `n`, all of `10 * n` requests can be admitted and counted as one:
      `n` checks read the same count, and each that ends throws away the nine hits in front of it. */
  lemma CrowdCountsOnce(w: World, r: Request, v: u64, n: nat, h: nat)
    requires w.pending == map[] && r.key !in w.tallies && Stale(w.site, r, v)
    requires n > 0 && h <= 9 && v + 1 + h < r.limit && r.ttl > 0
    ensures var end := Run(w, Crowd(r, n, h));
            && OverlapAtMost(w, Crowd(r, n, h), r.key, r.limit, r.limit, n - 1, r.now / 1000 + r.ttl)
            && end.pending == map[] && InKv(end.site, r.key) == v + 1
            && Of(end, r.key).answered == n * (h + 1) == Of(end, r.key).admitted
  {
    hide *;
    CrowdStarts(w, r, v);
    AfterMisses(w, r, n, v, n);
    var w1 := Run(w, Misses(r, n));
    CrowdWaits(w1, r, n, v);
    AfterRounds(w1, r, n, n, v, h);
    CrowdEnds(Run(w1, Rounds(r, n, n, h)), r, n, v, h);
    CrowdPays(w, r, n, h);
    Joined(w, Misses(r, n), Rounds(r, n, n, h), r.key, r.limit, r.limit, n - 1, r.now / 1000 + r.ttl);
  }
}
