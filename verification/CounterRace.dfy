/** The counter under concurrency. A check is two KV calls with an await between them and no
    compare-and-swap, so the writes of different requests land in any order, each computed from
    a value that may be out of date. A run is a list of read and write events of any number of
    requests on any number of keys. */
module CounterRace {
  import opened Decimal
  import opened RateLimitKv
  import opened KvCounter

  /** A request between its read and its write: the count it read and how many writes had landed
      on its key by then. */
  datatype Pending = Pending(key: string, limit: u32, ttl: nat, count: u32, seen: nat)

  /** What has happened on one key: the counts written in order, the writes that failed, the
      requests denied for being over the limit and for a failed read, and all that asked. */
  datatype Tally = Tally(written: seq<nat>, lost: nat, denied: nat, unavailable: nat, asked: nat)
  {
    function Admitted(): nat { |written| + lost }
  }

  const NOTHING := Tally([], 0, 0, 0, 0)

  datatype World = World(store: Store, pending: map<nat, Pending>, tallies: map<string, Tally>)

  datatype Event =
    | Read(id: nat, key: string, limit: u32, ttl: nat, at: nat, fails: bool)
    | Write(id: nat, at: nat, fails: bool)

  function Of(w: World, key: string): Tally {
    if key in w.tallies then w.tallies[key] else NOTHING
  }

  /** One event. A read by a request already under way and a write by one that is not change nothing. */
  function Step(w: World, e: Event): World {
    match e
    case Read(id, key, limit, ttl, at, fails) => if id in w.pending then w else StepRead(w, e)
    case Write(id, at, fails) => if id !in w.pending then w else StepWrite(w, e)
  }

  function StepRead(w: World, e: Event): World
    requires e.Read? && e.id !in w.pending
  {
    var t := Of(w, e.key);
    var t := t.(asked := t.asked + 1);
    match ReadPhase(w.store, e.key, e.limit, e.at, e.fails)
    case Rejected(v) =>
      var t := if v.readFailed then t.(unavailable := t.unavailable + 1) else t.(denied := t.denied + 1);
      w.(tallies := w.tallies[e.key := t])
    case Admissible(count) =>
      w.(tallies := w.tallies[e.key := t],
         pending := w.pending[e.id := Pending(e.key, e.limit, e.ttl, count, |t.written|)])
  }

  function StepWrite(w: World, e: Event): World
    requires e.Write? && e.id in w.pending
  {
    var p := w.pending[e.id];
    var t := Of(w, p.key);
    var t := if e.fails then t.(lost := t.lost + 1) else t.(written := t.written + [SatAdd32(p.count, 1)]);
    World(WritePhase(w.store, p.key, p.count, p.ttl, e.at, e.fails), w.pending - {e.id}, w.tallies[p.key := t])
  }

  function Run(w: World, events: seq<Event>): World {
    if events == [] then w
    else Step(Run(w, events[..|events| - 1]), events[|events| - 1])
  }

  /** The count in the store, expired or not. */
  function Stored(w: World, key: string): u32 {
    if key in w.store then ParseCount(w.store[key].value) else 0
  }

  ghost function Waiting(w: World, key: string): set<nat> {
    set id | id in w.pending && w.pending[id].key == key
  }

  /** The next event, if it is on `key`, uses no limit above `limit`, reads no expired entry, and if
      it is a write that lands, at most `k` other writes landed since the value it was computed from. */
  predicate Disciplined(w: World, e: Event, key: string, limit: u32, k: nat) {
    match e
    case Read(id, ekey, elimit, _, at, _) =>
      ekey == key ==> elimit <= limit && (key in w.store ==> at < w.store[key].expiresAt)
    case Write(id, _, fails) =>
      id in w.pending && w.pending[id].key == key && !fails ==>
        |Of(w, key).written| <= w.pending[id].seen + k
  }

  predicate OverlapAtMost(w: World, events: seq<Event>, key: string, limit: u32, k: nat) {
    events == [] ||
    var before := events[..|events| - 1];
    OverlapAtMost(w, before, key, limit, k) && Disciplined(Run(w, before), events[|events| - 1], key, limit, k)
  }

  // ---------------------------------------------------------------- what every step keeps

  /** The count after the first `j` writes on the key. */
  function ValueAfter(c0: nat, written: seq<nat>, j: nat): nat
    requires j <= |written|
  {
    if j == 0 then c0 else written[j - 1]
  }

  /** After `j` writes the count is at least `c0 + j/(k+1)` and at most `c0 + j`. */
  ghost predicate Paced(c0: nat, written: seq<nat>, limit: u32, k: nat) {
    forall j: nat | j <= |written| ::
      && c0 <= ValueAfter(c0, written, j) <= c0 + j
      && j <= (k + 1) * (ValueAfter(c0, written, j) - c0)
      && (j > 0 ==> ValueAfter(c0, written, j) <= limit)
  }

  ghost predicate Tracked(p: Pending, c0: nat, written: seq<nat>, limit: u32) {
    p.seen <= |written| && p.count == ValueAfter(c0, written, p.seen) && p.count < limit
  }

  ghost predicate Inv(w: World, key: string, c0: nat, limit: u32, k: nat) {
    var t := Of(w, key);
    && Paced(c0, t.written, limit, k)
    && Stored(w, key) == ValueAfter(c0, t.written, |t.written|)
    && (forall id | id in Waiting(w, key) :: Tracked(w.pending[id], c0, t.written, limit))
    && t.asked == t.Admitted() + t.denied + t.unavailable + |Waiting(w, key)|
  }

  lemma PacedStep(c0: nat, written: seq<nat>, limit: u32, k: nat, seen: nat)
    requires Paced(c0, written, limit, k)
    requires seen <= |written| <= seen + k && ValueAfter(c0, written, seen) < limit
    ensures Paced(c0, written + [ValueAfter(c0, written, seen) + 1], limit, k)
  {
    var v := ValueAfter(c0, written, seen);
    var written' := written + [v + 1];
    forall j: nat | j <= |written'|
      ensures ValueAfter(c0, written', j) == if j <= |written| then ValueAfter(c0, written, j) else v + 1
    {}
    assert (k + 1) * (v + 1 - c0) == (k + 1) * (v - c0) + (k + 1);
  }

  /** An event on another key leaves everything about `key` as it was. */
  lemma StepElsewhere(w: World, e: Event, key: string)
    requires e.Read? ==> e.key != key
    requires e.Write? ==> e.id in w.pending ==> w.pending[e.id].key != key
    ensures Of(Step(w, e), key) == Of(w, key)
    ensures Stored(Step(w, e), key) == Stored(w, key)
    ensures Waiting(Step(w, e), key) == Waiting(w, key)
    ensures forall id | id in Waiting(w, key) :: Step(w, e).pending[id] == w.pending[id]
    ensures key in w.store <==> key in Step(w, e).store
    ensures key in w.store ==> Step(w, e).store[key] == w.store[key]
  {
  }

  lemma PacedEnd(c0: nat, written: seq<nat>, limit: u32, k: nat)
    requires Paced(c0, written, limit, k)
    ensures ValueAfter(c0, written, |written|) <= c0 + |written|
  {
  }

  lemma ReadKeeps(w: World, e: Event, key: string, c0: nat, limit: u32, k: nat)
    requires Inv(w, key, c0, limit, k) && Disciplined(w, e, key, limit, k)
    requires e.Read? && e.key == key && e.id !in w.pending
    ensures Inv(Step(w, e), key, c0, limit, k)
  {
    hide ParseCount, Paced, ValueAfter;
    var w' := Step(w, e);
    var t := Of(w, key);
    PacedEnd(c0, t.written, limit, k);
    assert Of(w', key).written == t.written;
    assert !e.fails ==> Count(w.store, key, e.at) == Stored(w, key);
    if e.id in w'.pending {
      assert Waiting(w', key) == Waiting(w, key) + {e.id};
      assert Tracked(w'.pending[e.id], c0, t.written, limit);
    } else {
      assert Waiting(w', key) == Waiting(w, key);
    }
  }

  lemma WriteKeeps(w: World, e: Event, key: string, c0: nat, limit: u32, k: nat)
    requires Inv(w, key, c0, limit, k) && Disciplined(w, e, key, limit, k)
    requires e.Write? && e.id in w.pending && w.pending[e.id].key == key
    ensures Inv(Step(w, e), key, c0, limit, k)
  {
    var w' := Step(w, e);
    var p := w.pending[e.id];
    var t := Of(w, key);
    assert e.id in Waiting(w, key);
    assert Waiting(w', key) == Waiting(w, key) - {e.id};
    if !e.fails {
      PacedStep(c0, t.written, limit, k, p.seen);
      var t' := Of(w', key);
      assert t'.written == t.written + [p.count + 1];
      ParseOfPrint(p.count + 1, U32_MAX);
      forall id | id in Waiting(w', key)
        ensures Tracked(w'.pending[id], c0, t'.written, limit)
      {
        assert id in Waiting(w, key);
      }
    }
  }

  lemma StepKeeps(w: World, e: Event, key: string, c0: nat, limit: u32, k: nat)
    requires Inv(w, key, c0, limit, k) && Disciplined(w, e, key, limit, k)
    ensures Inv(Step(w, e), key, c0, limit, k)
  {
    if e.Read? && e.key == key && e.id !in w.pending {
      ReadKeeps(w, e, key, c0, limit, k);
    } else if e.Write? && e.id in w.pending && w.pending[e.id].key == key {
      WriteKeeps(w, e, key, c0, limit, k);
    } else if Step(w, e) != w {
      StepElsewhere(w, e, key);
    }
  }

  /** A world in which nothing is under way on `key` and nothing has been tallied for it. */
  predicate Quiet(w: World, key: string) {
    key !in w.tallies && forall id | id in w.pending :: w.pending[id].key != key
  }

  lemma {:induction false} RunKeeps(w: World, events: seq<Event>, key: string, limit: u32, k: nat)
    requires Quiet(w, key) && OverlapAtMost(w, events, key, limit, k)
    ensures Inv(Run(w, events), key, Stored(w, key), limit, k)
  {
    if events == [] {
      assert Waiting(w, key) == {};
    } else {
      var before := events[..|events| - 1];
      RunKeeps(w, before, key, limit, k);
      StepKeeps(Run(w, before), events[|events| - 1], key, Stored(w, key), limit, k);
    }
  }

  // ---------------------------------------------------------------- the overlap bound

  function Room(limit: u32, c0: nat): nat {
    SatSub(limit, c0)
  }

  function Min(a: nat, b: nat): nat {
    if a <= b then a else b
  }

  /** In every interleaving of requests with limits up to `limit` in which no landed write is computed
      from a value more than `k` writes old, `m` landed writes raise the count by at least `m/(k+1)` and
      at most `m`, the count never passes the limit (or the value it started from), and at most
      `(k+1) * room` writes land; with the writes that failed these are all the requests admitted. */
  lemma {:induction false} OverlapBound(w: World, events: seq<Event>, key: string, limit: u32, k: nat)
    requires Quiet(w, key) && OverlapAtMost(w, events, key, limit, k)
    ensures var end, c0 := Run(w, events), Stored(w, key);
            var t := Of(end, key);
            && c0 <= Stored(end, key) <= c0 + |t.written|
            && |t.written| <= (k + 1) * (Stored(end, key) - c0)
            && Stored(end, key) <= (if c0 < limit then limit else c0)
            && t.Admitted() <= (k + 1) * Room(limit, c0) + t.lost
  {
    RunKeeps(w, events, key, limit, k);
    InvBounds(Run(w, events), key, Stored(w, key), limit, k);
  }

  lemma InvBounds(end: World, key: string, c0: nat, limit: u32, k: nat)
    requires Inv(end, key, c0, limit, k)
    ensures var t := Of(end, key);
            && c0 <= Stored(end, key) <= c0 + |t.written|
            && |t.written| <= (k + 1) * (Stored(end, key) - c0)
            && Stored(end, key) <= (if c0 < limit then limit else c0)
            && |t.written| <= (k + 1) * Room(limit, c0)
  {
    var written := Of(end, key).written;
    var last := ValueAfter(c0, written, |written|);
    assert last == Stored(end, key);
    assert |written| <= (k + 1) * (last - c0);
    if |written| > 0 {
      assert last <= limit;
      MulMonotone(k + 1, last - c0, Room(limit, c0));
    }
  }

  lemma MulMonotone(a: nat, x: nat, y: nat)
    requires x <= y
    ensures a * x <= a * y
  {
  }

  /** Of the `n` requests that got a count back, how many were let through. */
  predicate AdmissionsWithin(t: Tally, least: nat, room: nat, k: nat) {
    t.asked >= t.unavailable &&
    var n := t.asked - t.unavailable;
    && Min(n, least) <= t.Admitted() <= Min(n, (k + 1) * room + t.lost)
    && (k == 0 && t.lost == 0 && least == room ==> t.Admitted() == Min(n, room))
  }

  /** Every request on the key has a limit of at least `lo`. */
  predicate LimitsFrom(events: seq<Event>, key: string, lo: u32) {
    forall e | e in events && e.Read? && e.key == key :: lo <= e.limit
  }

  /** Somebody was denied for being over the limit only after the room under `lo` was used up. */
  predicate DeniedLate(w: World, key: string, c0: nat, lo: u32) {
    Of(w, key).denied > 0 ==> c0 + |Of(w, key).written| >= lo
  }

  lemma DenialStep(w: World, e: Event, key: string, c0: nat, lo: u32, limit: u32, k: nat)
    requires Inv(w, key, c0, limit, k) && Disciplined(w, e, key, limit, k) && DeniedLate(w, key, c0, lo)
    requires e.Read? && e.key == key ==> lo <= e.limit
    ensures DeniedLate(Step(w, e), key, c0, lo)
  {
    PacedEnd(c0, Of(w, key).written, limit, k);
    hide Paced, Tracked;
    if e.Read? && e.key == key && e.id !in w.pending && !e.fails {
      assert Count(w.store, key, e.at) == Stored(w, key);
    }
  }

  lemma {:induction false} DenialsLate(w: World, events: seq<Event>, key: string, lo: u32, limit: u32, k: nat)
    requires Quiet(w, key) && OverlapAtMost(w, events, key, limit, k) && LimitsFrom(events, key, lo)
    ensures DeniedLate(Run(w, events), key, Stored(w, key), lo)
  {
    if events != [] {
      hide Inv, Disciplined, Step;
      var before := events[..|events| - 1];
      DenialsLate(w, before, key, lo, limit, k);
      RunKeeps(w, before, key, limit, k);
      DenialStep(Run(w, before), events[|events| - 1], key, Stored(w, key), lo, limit, k);
    }
  }

  /** A run that has finished, whose requests have limits from `lo` to `limit`: of those whose read
      worked, at least `min(n, room under lo)` and at most `(k+1)` times the room under `limit` plus
      the failed writes are admitted. With one limit, without overlap and without failed writes it is
      `min(n, room)` exactly. */
  lemma CompleteRun(w: World, events: seq<Event>, key: string, lo: u32, limit: u32, k: nat)
    requires Quiet(w, key) && OverlapAtMost(w, events, key, limit, k) && LimitsFrom(events, key, lo)
    requires Waiting(Run(w, events), key) == {}
    ensures AdmissionsWithin(Of(Run(w, events), key), Room(lo, Stored(w, key)), Room(limit, Stored(w, key)), k)
  {
    RunKeeps(w, events, key, limit, k);
    DenialsLate(w, events, key, lo, limit, k);
    InvFinished(Run(w, events), key, Stored(w, key), lo, limit, k);
  }

  lemma InvFinished(end: World, key: string, c0: nat, lo: u32, limit: u32, k: nat)
    requires Inv(end, key, c0, limit, k) && Waiting(end, key) == {} && DeniedLate(end, key, c0, lo)
    ensures AdmissionsWithin(Of(end, key), Room(lo, c0), Room(limit, c0), k)
  {
    InvBounds(end, key, c0, limit, k);
    assert |Waiting(end, key)| == 0;
    FinishedTally(Of(end, key), Room(lo, c0), (k + 1) * Room(limit, c0));
  }

  lemma FinishedTally(t: Tally, least: nat, most: nat)
    requires t.asked == t.Admitted() + t.denied + t.unavailable
    requires |t.written| <= most
    requires t.denied > 0 ==> |t.written| >= least
    ensures var n := t.asked - t.unavailable;
            && Min(n, least) <= t.Admitted() <= Min(n, most + t.lost)
            && (most == least && t.lost == 0 ==> t.Admitted() == Min(n, least))
  {
  }

  // ---------------------------------------------------------------- the ledger of overwritten counts

  /** How many counts a landing write takes back: those between the value it was computed from and the
      one it replaces. After a late writer it can be negative. */
  function Overwrite(w: World, e: Event, key: string): int {
    if e.Write? && !e.fails && e.id in w.pending && w.pending[e.id].key == key
    then Stored(w, key) - w.pending[e.id].count else 0
  }

  function Overwritten(w: World, events: seq<Event>, key: string): int {
    if events == [] then 0
    else
      var before := events[..|events| - 1];
      Overwritten(w, before, key) + Overwrite(Run(w, before), events[|events| - 1], key)
  }

  /** No request under way on the key is at the end of the counter's width. */
  predicate BelowMax(w: World, key: string) {
    forall id | id in w.pending && w.pending[id].key == key :: w.pending[id].count < U32_MAX
  }

  lemma LedgerStep(w: World, e: Event, key: string)
    requires BelowMax(w, key)
    ensures BelowMax(Step(w, e), key)
    ensures Stored(Step(w, e), key) + Overwrite(w, e, key) - |Of(Step(w, e), key).written| ==
              Stored(w, key) - |Of(w, key).written|
  {
    if e.Write? && e.id in w.pending && w.pending[e.id].key == key {
      ParseOfPrint(w.pending[e.id].count + 1, U32_MAX);
    }
  }

  /** A write raises the count by one exactly when it was computed from the count it replaces. */
  lemma WriteCountsExactly(w: World, e: Event, key: string)
    requires BelowMax(w, key) && e.Write? && !e.fails && e.id in w.pending && w.pending[e.id].key == key
    ensures Stored(Step(w, e), key) == Stored(w, key) + 1 <==> w.pending[e.id].count == Stored(w, key)
  {
    ParseOfPrint(w.pending[e.id].count + 1, U32_MAX);
  }

  lemma {:induction false} LedgerOfRun(w: World, events: seq<Event>, key: string)
    requires Quiet(w, key)
    ensures BelowMax(Run(w, events), key)
    ensures Stored(Run(w, events), key) + Overwritten(w, events, key) ==
              Stored(w, key) + |Of(Run(w, events), key).written|
  {
    if events != [] {
      hide BelowMax, Step, Stored, Overwrite;
      LedgerOfRun(w, events[..|events| - 1], key);
      LedgerStep(Run(w, events[..|events| - 1]), events[|events| - 1], key);
    }
  }

  /** In every interleaving whatsoever, with any overlap, any failures and expired entries too: the
      count has risen by the writes that landed less the counts they took back, so concurrency loses
      nothing exactly when the counts taken back add up to nothing. */
  lemma {:induction false} WriteLedger(w: World, events: seq<Event>, key: string)
    requires Quiet(w, key)
    ensures var rise := Stored(Run(w, events), key) - Stored(w, key);
            && rise == |Of(Run(w, events), key).written| - Overwritten(w, events, key)
            && (rise == |Of(Run(w, events), key).written| <==> Overwritten(w, events, key) == 0)
  {
    LedgerOfRun(w, events, key);
  }
}
