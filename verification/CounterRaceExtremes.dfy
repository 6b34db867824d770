/** How much the overlap costs: the bound of the race is reached for every overlap, and bounding
    the number of requests in flight is not enough to bound what is admitted. */
module CounterRaceExtremes {
  import opened Decimal
  import opened CounterRace

  lemma Snoc(w: World, a: seq<Event>, e: Event, key: string, limit: u32, k: nat)
    ensures Run(w, a + [e]) == Step(Run(w, a), e)
    ensures OverlapAtMost(w, a + [e], key, limit, k) <==>
              OverlapAtMost(w, a, key, limit, k) && Disciplined(Run(w, a), e, key, limit, k)
  {
    assert (a + [e])[..|a|] == a;
  }

  lemma {:induction false} RunOfConcat(w: World, a: seq<Event>, b: seq<Event>)
    ensures Run(w, a + b) == Run(Run(w, a), b)
    decreases |b|
  {
    if b == [] {
      assert a + b == a;
    } else {
      assert (a + b)[..|a + b| - 1] == a + b[..|b| - 1];
      RunOfConcat(w, a, b[..|b| - 1]);
    }
  }

  lemma {:induction false} OverlapOfConcat(w: World, a: seq<Event>, b: seq<Event>, key: string, limit: u32, k: nat)
    requires OverlapAtMost(w, a, key, limit, k) && OverlapAtMost(Run(w, a), b, key, limit, k)
    ensures OverlapAtMost(w, a + b, key, limit, k)
    decreases |b|
  {
    hide Disciplined, Step;
    if b == [] {
      assert a + b == a;
    } else {
      assert (a + b)[..|a + b| - 1] == a + b[..|b| - 1];
      OverlapOfConcat(w, a, b[..|b| - 1], key, limit, k);
      RunOfConcat(w, a, b[..|b| - 1]);
    }
  }

  /** One counter used at one moment. */
  datatype Site = Site(key: string, limit: u32, ttl: nat, at: nat)

  /** The counter holds `v`, is readable, and `landed` writes have landed on it. */
  predicate Holds(w: World, s: Site, v: u32, landed: nat) {
    && Stored(w, s.key) == v
    && (s.key in w.store ==> s.at < w.store[s.key].expiresAt)
    && |Of(w, s.key).written| == landed
    && Of(w, s.key).lost == 0
  }

  // ---------------------------------------------------------------- the bound is reached

  function Reads(s: Site, n: nat): seq<Event> {
    if n == 0 then [] else Reads(s, n - 1) + [Read(n - 1, s.key, s.limit, s.ttl, s.at, false)]
  }

  function Writes(s: Site, n: nat): seq<Event> {
    if n == 0 then [] else Writes(s, n - 1) + [Write(n - 1, s.at, false)]
  }

  /** `k + 1` requests read the same count, then all of them write. */
  function Burst(s: Site, k: nat): seq<Event> {
    Reads(s, k + 1) + Writes(s, k + 1)
  }

  function Bursts(s: Site, k: nat, rounds: nat): seq<Event> {
    if rounds == 0 then [] else Bursts(s, k, rounds - 1) + Burst(s, k)
  }

  /** Requests `lo` to `hi - 1` are under way and all of them read `v`. */
  predicate AllRead(w: World, s: Site, lo: nat, hi: nat, v: u32, seen: nat) {
    && (forall id | id in w.pending :: lo <= id < hi)
    && (forall id | lo <= id < hi :: id in w.pending && w.pending[id] == Pending(s.key, s.limit, s.ttl, v, seen))
  }

  lemma OneRead(w: World, s: Site, n: nat, v: u32, landed: nat, k: nat)
    requires AllRead(w, s, 0, n, v, landed) && Holds(w, s, v, landed) && v < s.limit
    ensures var e := Read(n, s.key, s.limit, s.ttl, s.at, false);
            && AllRead(Step(w, e), s, 0, n + 1, v, landed) && Holds(Step(w, e), s, v, landed)
            && Disciplined(w, e, s.key, s.limit, k)
  {
  }

  lemma NoReads(w: World, s: Site, n: nat, k: nat)
    requires n == 0
    ensures Run(w, Reads(s, n)) == w && OverlapAtMost(w, Reads(s, n), s.key, s.limit, k)
  {
  }

  lemma MoreReads(w: World, s: Site, n: nat, v: u32, landed: nat, k: nat)
    requires n > 0 && v < s.limit && OverlapAtMost(w, Reads(s, n - 1), s.key, s.limit, k)
    requires var w' := Run(w, Reads(s, n - 1));
             AllRead(w', s, 0, n - 1, v, landed) && Holds(w', s, v, landed)
    ensures var w' := Run(w, Reads(s, n));
            AllRead(w', s, 0, n, v, landed) && Holds(w', s, v, landed)
    ensures OverlapAtMost(w, Reads(s, n), s.key, s.limit, k)
  {
    OneRead(Run(w, Reads(s, n - 1)), s, n - 1, v, landed, k);
    Snoc(w, Reads(s, n - 1), Read(n - 1, s.key, s.limit, s.ttl, s.at, false), s.key, s.limit, k);
  }

  lemma {:induction false} AfterReads(w: World, s: Site, n: nat, v: u32, landed: nat, k: nat)
    requires AllRead(w, s, 0, 0, v, landed) && Holds(w, s, v, landed) && v < s.limit
    ensures var w' := Run(w, Reads(s, n));
            AllRead(w', s, 0, n, v, landed) && Holds(w', s, v, landed)
    ensures OverlapAtMost(w, Reads(s, n), s.key, s.limit, k)
    decreases n
  {
    hide *;
    if n == 0 {
      NoReads(w, s, n, k);
    } else {
      AfterReads(w, s, n - 1, v, landed, k);
      MoreReads(w, s, n, v, landed, k);
    }
  }

  lemma OneWrite(w: World, s: Site, n: nat, v: u32, landed: nat, k: nat)
    requires n <= k && AllRead(w, s, n, k + 1, v, landed) && v < s.limit && s.ttl > 0
    requires Holds(w, s, if n == 0 then v else v + 1, landed + n)
    ensures var e := Write(n, s.at, false);
            && AllRead(Step(w, e), s, n + 1, k + 1, v, landed) && Holds(Step(w, e), s, v + 1, landed + n + 1)
            && Disciplined(w, e, s.key, s.limit, k)
  {
    ParseOfPrint(v + 1, U32_MAX);
  }

  lemma NoWrites(w: World, s: Site, n: nat, k: nat)
    requires n == 0
    ensures Run(w, Writes(s, n)) == w && OverlapAtMost(w, Writes(s, n), s.key, s.limit, k)
  {
  }

  lemma MoreWrites(w: World, s: Site, n: nat, v: u32, landed: nat, k: nat)
    requires 0 < n <= k + 1 && v < s.limit && s.ttl > 0 && OverlapAtMost(w, Writes(s, n - 1), s.key, s.limit, k)
    requires var w' := Run(w, Writes(s, n - 1));
             AllRead(w', s, n - 1, k + 1, v, landed) && Holds(w', s, if n == 1 then v else v + 1, landed + (n - 1))
    ensures var w' := Run(w, Writes(s, n));
            AllRead(w', s, n, k + 1, v, landed) && Holds(w', s, v + 1, landed + n)
    ensures OverlapAtMost(w, Writes(s, n), s.key, s.limit, k)
  {
    OneWrite(Run(w, Writes(s, n - 1)), s, n - 1, v, landed, k);
    Snoc(w, Writes(s, n - 1), Write(n - 1, s.at, false), s.key, s.limit, k);
  }

  lemma {:induction false} AfterWrites(w: World, s: Site, n: nat, v: u32, landed: nat, k: nat)
    requires AllRead(w, s, 0, k + 1, v, landed) && Holds(w, s, v, landed) && v < s.limit
    requires n <= k + 1 && s.ttl > 0
    ensures var w' := Run(w, Writes(s, n));
            AllRead(w', s, n, k + 1, v, landed) && Holds(w', s, if n == 0 then v else v + 1, landed + n)
    ensures OverlapAtMost(w, Writes(s, n), s.key, s.limit, k)
    decreases n
  {
    hide *;
    if n == 0 {
      NoWrites(w, s, n, k);
    } else {
      AfterWrites(w, s, n - 1, v, landed, k);
      MoreWrites(w, s, n, v, landed, k);
    }
  }

  lemma NoneRead(w: World, s: Site, m: nat, v: u32, seen: nat)
    ensures AllRead(w, s, m, m, v, seen) <==> w.pending == map[]
  {
  }

  lemma AfterBurst(w: World, s: Site, v: u32, landed: nat, k: nat)
    requires w.pending == map[] && Holds(w, s, v, landed) && v < s.limit && s.ttl > 0
    ensures var w' := Run(w, Burst(s, k));
            w'.pending == map[] && Holds(w', s, v + 1, landed + (k + 1))
    ensures OverlapAtMost(w, Burst(s, k), s.key, s.limit, k)
  {
    hide Run, OverlapAtMost, AllRead, Holds, Reads, Writes;
    var rs, ws := Reads(s, k + 1), Writes(s, k + 1);
    NoneRead(w, s, 0, v, landed);
    AfterReads(w, s, k + 1, v, landed, k);
    AfterWrites(Run(w, rs), s, k + 1, v, landed, k);
    RunOfConcat(w, rs, ws);
    OverlapOfConcat(w, rs, ws, s.key, s.limit, k);
    NoneRead(Run(w, Burst(s, k)), s, k + 1, v, landed);
  }

  lemma NoBursts(w: World, s: Site, k: nat, rounds: nat)
    requires rounds == 0
    ensures Run(w, Bursts(s, k, rounds)) == w && OverlapAtMost(w, Bursts(s, k, rounds), s.key, s.limit, k)
    ensures (k + 1) * rounds == 0
  {
  }

  lemma MoreBursts(w: World, s: Site, v: u32, landed: nat, k: nat, rounds: nat)
    requires rounds > 0 && v < s.limit && s.ttl > 0 && OverlapAtMost(w, Bursts(s, k, rounds - 1), s.key, s.limit, k)
    requires var w' := Run(w, Bursts(s, k, rounds - 1));
             w'.pending == map[] && Holds(w', s, v, landed)
    ensures var w' := Run(w, Bursts(s, k, rounds));
            w'.pending == map[] && Holds(w', s, v + 1, landed + (k + 1))
    ensures OverlapAtMost(w, Bursts(s, k, rounds), s.key, s.limit, k)
  {
    hide Run, OverlapAtMost, Holds, Burst;
    AfterBurst(Run(w, Bursts(s, k, rounds - 1)), s, v, landed, k);
    RunOfConcat(w, Bursts(s, k, rounds - 1), Burst(s, k));
    OverlapOfConcat(w, Bursts(s, k, rounds - 1), Burst(s, k), s.key, s.limit, k);
  }

  lemma {:induction false} AfterBursts(w: World, s: Site, v: u32, k: nat, rounds: nat)
    requires w.pending == map[] && Holds(w, s, v, 0) && v + rounds <= s.limit && s.ttl > 0
    ensures var w' := Run(w, Bursts(s, k, rounds));
            w'.pending == map[] && Holds(w', s, v + rounds, (k + 1) * rounds)
    ensures OverlapAtMost(w, Bursts(s, k, rounds), s.key, s.limit, k)
    decreases rounds
  {
    hide *;
    if rounds == 0 {
      NoBursts(w, s, k, rounds);
    } else {
      AfterBursts(w, s, v, k, rounds - 1);
      MoreBursts(w, s, v + (rounds - 1), (k + 1) * (rounds - 1), k, rounds);
      assert (k + 1) * (rounds - 1) + (k + 1) == (k + 1) * rounds;
    }
  }

  /** For every overlap `k`, limit and starting count there is a run with overlap `k` that admits
      exactly `(k+1) * room` requests: the bound cannot be lowered. */
  lemma BoundIsReached(w: World, s: Site, k: nat)
    requires Quiet(w, s.key) && w.pending == map[] && s.ttl > 0
    requires s.key in w.store ==> s.at < w.store[s.key].expiresAt
    ensures exists events ::
              && OverlapAtMost(w, events, s.key, s.limit, k)
              && Waiting(Run(w, events), s.key) == {}
              && Of(Run(w, events), s.key).Admitted() == (k + 1) * Room(s.limit, Stored(w, s.key))
  {
    var v, room := Stored(w, s.key), Room(s.limit, Stored(w, s.key));
    var events := Bursts(s, k, room);
    if room == 0 {
      assert events == [];
    } else {
      AfterBursts(w, s, v, k, room);
    }
    assert Waiting(Run(w, events), s.key) == {};
  }

  // ---------------------------------------------------------------- a late writer

  function Solo(s: Site, n: nat): seq<Event> {
    if n == 0 then [] else Solo(s, n - 1) + One(s)
  }

  predicate InFlightAtMost(w: World, events: seq<Event>, n: nat) {
    |Run(w, events).pending| <= n && (events != [] ==> InFlightAtMost(w, events[..|events| - 1], n))
  }

  lemma {:induction false} InFlightOfConcat(w: World, a: seq<Event>, b: seq<Event>, n: nat)
    requires InFlightAtMost(w, a, n) && InFlightAtMost(Run(w, a), b, n)
    ensures InFlightAtMost(w, a + b, n)
    decreases |b|
  {
    RunOfConcat(w, a, b);
    if b == [] {
      assert a + b == a;
    } else {
      assert (a + b)[..|a + b| - 1] == a + b[..|b| - 1];
      InFlightOfConcat(w, a, b[..|b| - 1], n);
    }
  }

  function One(s: Site): seq<Event> {
    [Read(0, s.key, s.limit, s.ttl, s.at, false)] + [Write(0, s.at, false)]
  }

  lemma SingleEvent(w: World, e: Event, n: nat)
    requires |w.pending| <= n && |Step(w, e).pending| <= n
    ensures Run(w, [e]) == Step(w, e) && InFlightAtMost(w, [e], n)
  {
    assert [e][..0] == [];
    assert Run(w, []) == w;
  }

  lemma ReadStep(w: World, s: Site, v: u32, landed: nat)
    requires 0 !in w.pending && Holds(w, s, v, landed) && v < s.limit
    ensures var w' := Step(w, Read(0, s.key, s.limit, s.ttl, s.at, false));
            && w'.pending == w.pending[0 := Pending(s.key, s.limit, s.ttl, v, landed)]
            && Holds(w', s, v, landed)
  {
  }

  /** Whatever the counter holds now, a late write puts the value it read plus one. */
  lemma WriteStep(w: World, s: Site, id: nat, v: u32, seen: nat, now: u32, landed: nat)
    requires id in w.pending && w.pending[id] == Pending(s.key, s.limit, s.ttl, v, seen)
    requires Holds(w, s, now, landed) && v < s.limit && s.ttl > 0
    ensures var w' := Step(w, Write(id, s.at, false));
            w'.pending == w.pending - {id} && Holds(w', s, v + 1, landed + 1)
  {
    ParseOfPrint(v + 1, U32_MAX);
  }

  /** One request that reads and writes with nothing of its own in between. */
  lemma AfterOne(w: World, s: Site, v: u32, landed: nat)
    requires 0 !in w.pending && |w.pending| <= 1 && Holds(w, s, v, landed) && v < s.limit && s.ttl > 0
    ensures var w' := Run(w, One(s));
            w'.pending == w.pending && Holds(w', s, v + 1, landed + 1) && InFlightAtMost(w, One(s), 2)
  {
    var r, e := Read(0, s.key, s.limit, s.ttl, s.at, false), Write(0, s.at, false);
    var w1 := Step(w, r);
    ReadStep(w, s, v, landed);
    WriteStep(w1, s, 0, v, landed, v, landed);
    assert |w1.pending| == |w.pending| + 1;
    assert w1.pending - {0} == w.pending;
    SingleEvent(w, r, 2);
    SingleEvent(w1, e, 2);
    RunOfConcat(w, [r], [e]);
    InFlightOfConcat(w, [r], [e], 2);
  }

  lemma NoSolo(w: World, s: Site, n: nat)
    requires n == 0 && |w.pending| <= 2
    ensures Run(w, Solo(s, n)) == w && InFlightAtMost(w, Solo(s, n), 2)
  {
  }

  lemma MoreSolo(w: World, s: Site, n: nat, v: u32, landed: nat)
    requires n > 0 && v < s.limit && s.ttl > 0 && InFlightAtMost(w, Solo(s, n - 1), 2)
    requires var w' := Run(w, Solo(s, n - 1));
             0 !in w'.pending && |w'.pending| <= 1 && Holds(w', s, v, landed)
    ensures var w' := Run(w, Solo(s, n));
            w'.pending == Run(w, Solo(s, n - 1)).pending && Holds(w', s, v + 1, landed + 1)
    ensures InFlightAtMost(w, Solo(s, n), 2)
  {
    AfterOne(Run(w, Solo(s, n - 1)), s, v, landed);
    RunOfConcat(w, Solo(s, n - 1), One(s));
    InFlightOfConcat(w, Solo(s, n - 1), One(s), 2);
  }

  lemma {:induction false} AfterSolo(w: World, s: Site, n: nat, v: u32, landed: nat)
    requires 0 !in w.pending && |w.pending| <= 1 && Holds(w, s, v, landed) && v + n <= s.limit && s.ttl > 0
    ensures var w' := Run(w, Solo(s, n));
            w'.pending == w.pending && Holds(w', s, v + n, landed + n)
    ensures InFlightAtMost(w, Solo(s, n), 2)
    decreases n
  {
    hide *;
    if n == 0 {
      NoSolo(w, s, n);
    } else {
      AfterSolo(w, s, n - 1, v, landed);
      MoreSolo(w, s, n, v + (n - 1), landed + (n - 1));
    }
  }

  /** A request reads 0, waits while others take the whole limit, and then writes 1 over their
      count; the rest of the limit is then admitted a second time. */
  function LateWriter(s: Site): seq<Event>
    requires s.limit > 0
  {
    LateWriterHalf(s) + ([Write(1, s.at, false)] + Solo(s, s.limit - 1))
  }

  function LateWriterHalf(s: Site): seq<Event> {
    [Read(1, s.key, s.limit, s.ttl, s.at, false)] + Solo(s, s.limit)
  }

  lemma FirstHalf(w: World, s: Site)
    requires w == World(map[], map[], map[]) && s.limit > 0 && s.ttl > 0
    ensures var w' := Run(w, LateWriterHalf(s));
            && w'.pending == map[1 := Pending(s.key, s.limit, s.ttl, 0, 0)]
            && Holds(w', s, s.limit, s.limit) && InFlightAtMost(w, LateWriterHalf(s), 2)
  {
    var r := Read(1, s.key, s.limit, s.ttl, s.at, false);
    SingleEvent(w, r, 2);
    AfterSolo(Step(w, r), s, s.limit, 0, 0);
    RunOfConcat(w, [r], Solo(s, s.limit));
    InFlightOfConcat(w, [r], Solo(s, s.limit), 2);
  }

  lemma SecondHalf(w: World, s: Site)
    requires w.pending == map[1 := Pending(s.key, s.limit, s.ttl, 0, 0)]
    requires Holds(w, s, s.limit, s.limit) && s.limit > 0 && s.ttl > 0
    ensures var events := [Write(1, s.at, false)] + Solo(s, s.limit - 1);
            && Run(w, events).pending == map[] && Holds(Run(w, events), s, s.limit, 2 * s.limit)
            && InFlightAtMost(w, events, 2)
  {
    hide *;
    var e := Write(1, s.at, false);
    assert w.pending - {1} == map[];
    WriteStep(w, s, 1, 0, 0, s.limit, s.limit);
    SingleEvent(w, e, 2);
    AfterSolo(Step(w, e), s, s.limit - 1, 1, s.limit + 1);
    RunOfConcat(w, [e], Solo(s, s.limit - 1));
    InFlightOfConcat(w, [e], Solo(s, s.limit - 1), 2);
  }

  /** With never more than two requests in flight, `2 * limit` requests are admitted, for every
      limit: concurrency of `N` does not cost only `N - 1` extra requests. */
  lemma LateWriterDoublesTheLimit(s: Site)
    requires s.limit > 0 && s.ttl > 0
    ensures var w := World(map[], map[], map[]);
            && InFlightAtMost(w, LateWriter(s), 2)
            && Run(w, LateWriter(s)).pending == map[]
            && Of(Run(w, LateWriter(s)), s.key).Admitted() == 2 * s.limit
  {
    var w := World(map[], map[], map[]);
    var rest := [Write(1, s.at, false)] + Solo(s, s.limit - 1);
    FirstHalf(w, s);
    SecondHalf(Run(w, LateWriterHalf(s)), s);
    RunOfConcat(w, LateWriterHalf(s), rest);
    InFlightOfConcat(w, LateWriterHalf(s), rest, 2);
  }
}
