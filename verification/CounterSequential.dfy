/** Checks served one after the other are the runs of the race in which nothing overlaps, so the
    race's theorems, with overlap 0, say exactly what a sequential run admits. */
module CounterSequential {
  import opened Decimal
  import opened RateLimitKv
  import opened CounterRace
  import opened CounterRaceExtremes
  import opened CounterWindows

  /** The two events of one check by a request that has the KV to itself. */
  function EventsOf(r: Request): seq<Event> {
    [Event.Read(0, KeyOf(r), r.limit, r.ttl, r.at, r.faults.read)] + [Event.Write(0, r.at, r.faults.write)]
  }

  function Events(reqs: seq<Request>): seq<Event> {
    if reqs == [] then [] else Events(Init(reqs)) + EventsOf(Last(reqs))
  }

  /** Requests on one key with limits from `lo` to `limit`, none of which finds its entry expired. */
  predicate OneCounter(store: Store, reqs: seq<Request>, key: string, lo: u32, limit: u32, until: nat) {
    && (key in store ==> until <= store[key].expiresAt)
    && forall r | r in reqs :: KeyOf(r) == key && lo <= r.limit <= limit && r.at < until <= r.at + r.ttl
  }

  lemma TwoSteps(w: World, r: Request, limit: u32)
    ensures var w1 := Step(w, EventsOf(r)[0]);
            && Run(w, EventsOf(r)) == Step(w1, EventsOf(r)[1])
            && (OverlapAtMost(w, EventsOf(r), KeyOf(r), limit, 0) <==>
                  && Disciplined(w, EventsOf(r)[0], KeyOf(r), limit, 0)
                  && Disciplined(w1, EventsOf(r)[1], KeyOf(r), limit, 0))
  {
    var read, write := EventsOf(r)[0], EventsOf(r)[1];
    Snoc(w, [], read, KeyOf(r), limit, 0);
    Snoc(w, [read], write, KeyOf(r), limit, 0);
    assert [] + [read] == [read];
  }

  lemma CheckIsReadThenWrite(w: World, r: Request, limit: u32, until: nat)
    requires w.pending == map[] && r.at < until <= r.at + r.ttl && r.limit <= limit
    requires KeyOf(r) in w.store ==> until <= w.store[KeyOf(r)].expiresAt
    ensures var (store, v) := Serve1(w.store, r);
            var w' := Run(w, EventsOf(r));
            && w'.store == store && w'.pending == map[]
            && (KeyOf(r) in store ==> until <= store[KeyOf(r)].expiresAt)
            && Of(w', KeyOf(r)).Admitted() == Of(w, KeyOf(r)).Admitted() + (if v.allowed then 1 else 0)
            && Of(w', KeyOf(r)).lost == Of(w, KeyOf(r)).lost + (if v.allowed && r.faults.write then 1 else 0)
            && Of(w', KeyOf(r)).unavailable == Of(w, KeyOf(r)).unavailable + (if r.faults.read then 1 else 0)
            && Of(w', KeyOf(r)).asked == Of(w, KeyOf(r)).asked + 1
            && OverlapAtMost(w, EventsOf(r), KeyOf(r), limit, 0)
  {
    hide Run, OverlapAtMost, Parse;
    TwoSteps(w, r, limit);
    assert Step(Step(w, EventsOf(r)[0]), EventsOf(r)[1]).pending == map[];
  }

  /** The requests whose read failed. */
  function ReadFailures(reqs: seq<Request>): nat {
    if reqs == [] then 0 else ReadFailures(Init(reqs)) + if Last(reqs).faults.read then 1 else 0
  }

  /** The requests a sequential run let through. */
  function LetThrough(store: Store, reqs: seq<Request>): nat {
    if reqs == [] then 0
    else LetThrough(store, Init(reqs)) + if Admits(Serve(store, Init(reqs)), Last(reqs)) then 1 else 0
  }

  /** Those of them whose write failed. */
  function Unwritten(store: Store, reqs: seq<Request>): nat {
    if reqs == [] then 0
    else Unwritten(store, Init(reqs)) +
         if Admits(Serve(store, Init(reqs)), Last(reqs)) && Last(reqs).faults.write then 1 else 0
  }

  /** The tally of the race after the run's events says what the sequential run did. */
  predicate TallyIs(t: Tally, store: Store, reqs: seq<Request>) {
    && t.asked == |reqs| && t.unavailable == ReadFailures(reqs)
    && t.Admitted() == LetThrough(store, reqs) && t.lost == Unwritten(store, reqs)
  }

  lemma {:induction false} SequentialIsRace(w: World, reqs: seq<Request>, key: string, lo: u32, limit: u32, until: nat)
    requires w.pending == map[] && key !in w.tallies && OneCounter(w.store, reqs, key, lo, limit, until)
    ensures var w' := Run(w, Events(reqs));
            && w'.store == Serve(w.store, reqs) && w'.pending == map[]
            && (key in w'.store ==> until <= w'.store[key].expiresAt)
            && TallyIs(Of(w', key), w.store, reqs)
            && OverlapAtMost(w, Events(reqs), key, limit, 0)
  {
    hide EventsOf, Serve1, Step, Disciplined;
    if reqs != [] {
      SequentialIsRace(w, Init(reqs), key, lo, limit, until);
      var before, r := Run(w, Events(Init(reqs))), Last(reqs);
      CheckIsReadThenWrite(before, r, limit, until);
      RunOfConcat(w, Events(Init(reqs)), EventsOf(r));
      OverlapOfConcat(w, Events(Init(reqs)), EventsOf(r), key, limit, 0);
    }
  }

  lemma {:induction false} EventLimits(reqs: seq<Request>, key: string, lo: u32)
    requires forall r | r in reqs :: lo <= r.limit
    ensures LimitsFrom(Events(reqs), key, lo)
  {
    if reqs != [] {
      EventLimits(Init(reqs), key, lo);
    }
  }

  /** The count in a store, expired or not. */
  function StoredIn(store: Store, key: string): u32 {
    Stored(World(store, map[], map[]), key)
  }

  /** Accounting for a sequential run with failures, in its own verdicts: the count rises by exactly
      the admitted requests whose write landed; of the `n` requests whose read worked at least as many
      are admitted as there is room under the lowest limit, and at most as many as under the highest,
      plus one for each failed write. */
  lemma {:induction false} FailureAccounting(store: Store, reqs: seq<Request>, key: string, lo: u32, limit: u32,
                                             until: nat)
    requires OneCounter(store, reqs, key, lo, limit, until)
    ensures ReadFailures(reqs) <= |reqs|
    ensures var c0, n := StoredIn(store, key), |reqs| - ReadFailures(reqs);
            var admitted, lost := LetThrough(store, reqs), Unwritten(store, reqs);
            && Min(n, Room(lo, c0)) <= admitted <= Min(n, Room(limit, c0) + lost)
            && (lost == 0 && lo == limit ==> admitted == Min(n, Room(limit, c0)))
            && StoredIn(Serve(store, reqs), key) == c0 + admitted - lost
  {
    hide *;
    var w := World(store, map[], map[]);
    NothingUnderWay(store, key);
    Limited(store, reqs, key, lo, limit, until);
    EventLimits(reqs, key, lo);
    SequentialIsRace(w, reqs, key, lo, limit, until);
    NoneWaiting(Run(w, Events(reqs)), key);
    CompleteRun(w, Events(reqs), key, lo, limit, 0);
    OverlapBound(w, Events(reqs), key, limit, 0);
    Concludes(w, Run(w, Events(reqs)), store, reqs, key, lo, limit);
  }

  lemma Limited(store: Store, reqs: seq<Request>, key: string, lo: u32, limit: u32, until: nat)
    requires OneCounter(store, reqs, key, lo, limit, until)
    ensures forall r | r in reqs :: lo <= r.limit
  {
  }

  lemma Concludes(w: World, end: World, store: Store, reqs: seq<Request>, key: string, lo: u32, limit: u32)
    requires w == World(store, map[], map[]) && end.store == Serve(store, reqs)
    requires TallyIs(Of(end, key), store, reqs)
    requires AdmissionsWithin(Of(end, key), Room(lo, Stored(w, key)), Room(limit, Stored(w, key)), 0)
    requires Stored(w, key) <= Stored(end, key) <= Stored(w, key) + |Of(end, key).written|
    requires |Of(end, key).written| <= (0 + 1) * (Stored(end, key) - Stored(w, key))
    ensures ReadFailures(reqs) <= |reqs|
    ensures var c0, n := StoredIn(store, key), |reqs| - ReadFailures(reqs);
            var admitted, lost := LetThrough(store, reqs), Unwritten(store, reqs);
            && Min(n, Room(lo, c0)) <= admitted <= Min(n, Room(limit, c0) + lost)
            && (lost == 0 && lo == limit ==> admitted == Min(n, Room(limit, c0)))
            && StoredIn(Serve(store, reqs), key) == c0 + admitted - lost
  {
    hide Serve, LetThrough, Unwritten, ReadFailures;
    assert Stored(end, key) == StoredIn(end.store, key);
  }

  lemma NothingUnderWay(store: Store, key: string)
    ensures Quiet(World(store, map[], map[]), key)
  {
  }

  lemma NoneWaiting(w: World, key: string)
    requires w.pending == map[]
    ensures Waiting(w, key) == {}
  {
  }
}
