/** Windows under concurrency: what the requests of a fixed window, or of any span of one TTL, can
    write whatever other counters and late writers do, under a clock that does not go back. */
module CounterRaceWindows {
  import opened Decimal
  import opened KvCounter
  import opened CounterRace
  import opened CounterWindows

  predicate Clocked(events: seq<Event>) {
    forall i, j | 0 <= i < j < |events| :: events[i].at <= events[j].at
  }

  /** A request on a key of the family has a limit of at most `limit`, writes entries that live two
      windows, and reads its counter in the key's window or, its clock read before, in the next one. */
  ghost predicate UsesFamily(e: Event, f: Family, limit: u32)
    requires f.Fixed?
  {
    e.Read? ==>
      forall a: nat | KeyAt(f, a) == e.key ::
        && a / f.window * f.window <= e.at < WindowEnd(a, f.window) + f.window
        && e.limit <= limit && 2 * f.window <= e.ttl
  }

  /** A write that lands on `key` comes after at most `k` others since the value it was computed from. */
  predicate Near(w: World, e: Event, key: string, k: nat) {
    e.Write? && e.id in w.pending && w.pending[e.id].key == key && !e.fails ==>
      |Of(w, key).written| <= w.pending[e.id].seen + k
  }

  predicate NearOn(w: World, events: seq<Event>, key: string, k: nat) {
    events == [] ||
    var before := events[..|events| - 1];
    NearOn(w, before, key, k) && Near(Run(w, before), events[|events| - 1], key, k)
  }

  /** Of the counts written after the first `base`, the `j`-th is at least `j/(k+1)`, and none passes
      the limit. */
  predicate Grown(written: seq<nat>, base: nat, limit: u32, k: nat) {
    forall j: nat | base <= j < |written| :: j - base + 1 <= (k + 1) * written[j] && written[j] <= limit
  }

  /** A request under way read what was last written, or what is older than the first `base`. */
  predicate Follows(p: Pending, written: seq<nat>, base: nat, limit: u32, lifetime: nat) {
    && p.seen <= |written| && p.count < limit && lifetime <= p.ttl
    && (p.seen > base ==> p.count == written[p.seen - 1])
  }

  predicate AllFollow(pending: map<nat, Pending>, key: string, written: seq<nat>, base: nat, limit: u32,
                      lifetime: nat) {
    forall id | id in pending && pending[id].key == key :: Follows(pending[id], written, base, limit, lifetime)
  }

  /** What was written after the first `base` is what is stored, and it is readable until `end`. */
  predicate Kept(w: World, key: string, base: nat, end: nat) {
    var written := Of(w, key).written;
    && base <= |written|
    && (base < |written| ==>
          key in w.store && end <= w.store[key].expiresAt && Stored(w, key) == written[|written| - 1])
  }

  predicate Inv(w: World, key: string, base: nat, limit: u32, k: nat, lifetime: nat, end: nat) {
    && Grown(Of(w, key).written, base, limit, k)
    && Kept(w, key, base, end)
    && AllFollow(w.pending, key, Of(w, key).written, base, limit, lifetime)
  }

  lemma NextProduct(m: nat, seen: nat, k: nat, count: nat)
    requires m <= seen + k && seen <= (k + 1) * count
    ensures m + 1 <= (k + 1) * (count + 1)
  {
    assert (k + 1) * (count + 1) == (k + 1) * count + (k + 1);
  }

  lemma NoProduct(k: nat, count: nat)
    ensures 0 <= (k + 1) * count
  {
  }

  lemma GrownAt(written: seq<nat>, base: nat, limit: u32, k: nat, j: nat)
    requires Grown(written, base, limit, k) && base <= j < |written|
    ensures j - base + 1 <= (k + 1) * written[j]
  {
  }

  /** The next count, computed from the `seen`-th or from one before the first `base`. */
  lemma NextGrown(written: seq<nat>, base: nat, limit: u32, k: nat, p: Pending, lifetime: nat)
    requires Grown(written, base, limit, k) && Follows(p, written, base, limit, lifetime)
    requires base <= |written| <= p.seen + k
    ensures |written| - base + 1 <= (k + 1) * (p.count + 1)
  {
    hide Grown;
    if p.seen > base {
      GrownAt(written, base, limit, k, p.seen - 1);
      NextProduct(|written| - base, p.seen - base, k, p.count);
    } else {
      NoProduct(k, p.count);
      NextProduct(|written| - base, 0, k, p.count);
    }
  }

  lemma GrownSnoc(written: seq<nat>, base: nat, limit: u32, k: nat, v: nat)
    requires Grown(written, base, limit, k) && base <= |written| && v <= limit
    requires |written| - base + 1 <= (k + 1) * v
    ensures Grown(written + [v], base, limit, k)
  {
    forall j: nat | base <= j < |written + [v]|
      ensures j - base + 1 <= (k + 1) * (written + [v])[j] && (written + [v])[j] <= limit
    {
      assert (written + [v])[j] == if j < |written| then written[j] else v;
    }
  }

  lemma AllFollowLater(pending: map<nat, Pending>, key: string, written: seq<nat>, base: nat, limit: u32,
                       lifetime: nat, v: nat)
    requires AllFollow(pending, key, written, base, limit, lifetime)
    ensures AllFollow(pending, key, written + [v], base, limit, lifetime)
  {
    forall id | id in pending && pending[id].key == key
      ensures Follows(pending[id], written + [v], base, limit, lifetime)
    {
      assert Follows(pending[id], written, base, limit, lifetime);
    }
  }

  lemma AllFollowFewer(pending: map<nat, Pending>, id: nat, key: string, written: seq<nat>, base: nat, limit: u32,
                       lifetime: nat)
    requires AllFollow(pending, key, written, base, limit, lifetime)
    ensures AllFollow(pending - {id}, key, written, base, limit, lifetime)
  {
  }

  lemma ReadKeeps(w: World, e: Event, key: string, base: nat, limit: u32, k: nat, lifetime: nat, end: nat)
    requires Inv(w, key, base, limit, k, lifetime, end) && e.Read? && e.key == key && e.id !in w.pending
    requires e.limit <= limit && lifetime <= e.ttl && e.at < end
    ensures Inv(Step(w, e), key, base, limit, k, lifetime, end)
  {
    hide Grown, ParseCount;
    var written := Of(w, key).written;
    if base < |written| && !e.fails {
      assert Count(w.store, key, e.at) == Stored(w, key);
    }
    assert Of(Step(w, e), key).written == written;
  }

  lemma WriteKeeps(w: World, e: Event, key: string, base: nat, limit: u32, k: nat, lifetime: nat, end: nat)
    requires Inv(w, key, base, limit, k, lifetime, end) && Near(w, e, key, k)
    requires e.Write? && e.id in w.pending && w.pending[e.id].key == key && end <= e.at + lifetime
    ensures Inv(Step(w, e), key, base, limit, k, lifetime, end)
  {
    var p, written := w.pending[e.id], Of(w, key).written;
    assert Follows(p, written, base, limit, lifetime);
    hide Grown, AllFollow, Follows;
    AllFollowFewer(w.pending, e.id, key, written, base, limit, lifetime);
    if !e.fails {
      FollowsMeans(p, written, base, limit, lifetime);
      NextGrown(written, base, limit, k, p, lifetime);
      GrownSnoc(written, base, limit, k, p.count + 1);
      AllFollowLater(w.pending - {e.id}, key, written, base, limit, lifetime, p.count + 1);
      ParseOfPrint(p.count + 1, U32_MAX);
    }
  }

  lemma FollowsMeans(p: Pending, written: seq<nat>, base: nat, limit: u32, lifetime: nat)
    requires Follows(p, written, base, limit, lifetime)
    ensures p.count + 1 <= limit && lifetime <= p.ttl
  {
  }

  lemma ElsewhereKeeps(w: World, e: Event, key: string, base: nat, limit: u32, k: nat, lifetime: nat, end: nat)
    requires Inv(w, key, base, limit, k, lifetime, end)
    requires e.Read? ==> e.key != key
    requires e.Write? ==> e.id in w.pending ==> w.pending[e.id].key != key
    ensures Inv(Step(w, e), key, base, limit, k, lifetime, end)
  {
    StepElsewhere(w, e, key);
    hide Grown, Follows, Stored;
    var w' := Step(w, e);
    forall id | id in w'.pending && w'.pending[id].key == key
      ensures Follows(w'.pending[id], Of(w', key).written, base, limit, lifetime)
    {
      assert id in Waiting(w', key);
      assert id in Waiting(w, key);
    }
  }

  lemma StepKeeps(w: World, e: Event, key: string, base: nat, limit: u32, k: nat, lifetime: nat, end: nat)
    requires Inv(w, key, base, limit, k, lifetime, end) && Near(w, e, key, k)
    requires e.Read? && e.key == key ==> e.limit <= limit && lifetime <= e.ttl && e.at < end
    requires e.Write? && e.id in w.pending && w.pending[e.id].key == key ==> end <= e.at + lifetime
    ensures Inv(Step(w, e), key, base, limit, k, lifetime, end)
  {
    hide Inv, Near;
    if e.Read? && e.key == key {
      if e.id !in w.pending {
        ReadKeeps(w, e, key, base, limit, k, lifetime, end);
      }
    } else if e.Write? && e.id in w.pending && w.pending[e.id].key == key {
      WriteKeeps(w, e, key, base, limit, k, lifetime, end);
    } else {
      ElsewhereKeeps(w, e, key, base, limit, k, lifetime, end);
    }
  }

  lemma NothingYetWritten(w: World, key: string, limit: u32, k: nat, lifetime: nat, end: nat)
    requires Quiet(w, key)
    ensures Inv(w, key, 0, limit, k, lifetime, end) && Waiting(w, key) == {} && Of(w, key).written == []
  {
  }

  lemma WrittenWithin(w: World, key: string, base: nat, limit: u32, k: nat, lifetime: nat, end: nat)
    requires Inv(w, key, base, limit, k, lifetime, end)
    ensures base <= |Of(w, key).written| <= base + (k + 1) * limit
  {
    var written := Of(w, key).written;
    if base < |written| {
      var last := |written| - 1;
      assert last - base + 1 <= (k + 1) * written[last];
      MulMonotone(k + 1, written[last], limit);
    } else {
      NoProduct(k, limit);
    }
  }

  lemma RunSnoc(w: World, events: seq<Event>)
    requires events != []
    ensures Run(w, events) == Step(Run(w, events[..|events| - 1]), events[|events| - 1])
  {
  }

  /** Who waits on the key after an event waited before it or came in with it. */
  lemma WaitersCome(w: World, e: Event, key: string)
    requires Waiting(Step(w, e), key) != {}
    ensures Waiting(w, key) != {} || (e.Read? && e.key == key)
  {
    if Waiting(w, key) == {} {
      var id :| id in Waiting(Step(w, e), key);
      assert id in w.pending ==> id in Waiting(w, key);
    }
  }

  // ---------------------------------------------------------------- fixed windows

  /** In every run the invariant holds of every window's key, and nobody waits on it before the
      window has begun. */
  lemma {:induction false} RunKeepsWindow(w: World, events: seq<Event>, f: Family, a: nat, limit: u32, k: nat)
    requires f.Fixed? && w.pending == map[] && w.tallies == map[] && Clocked(events)
    requires forall e | e in events :: UsesFamily(e, f, limit)
    requires NearOn(w, events, KeyAt(f, a), k)
    ensures Inv(Run(w, events), KeyAt(f, a), 0, limit, k, 2 * f.window, WindowEnd(a, f.window) + f.window)
    ensures Waiting(Run(w, events), KeyAt(f, a)) != {} ==>
              events != [] && WindowEnd(a, f.window) <= events[|events| - 1].at + f.window
  {
    if events == [] {
      NothingYetWritten(w, KeyAt(f, a), limit, k, 2 * f.window, WindowEnd(a, f.window) + f.window);
    } else {
      var before, e := events[..|events| - 1], events[|events| - 1];
      assert e in events;
      RunKeepsWindow(w, before, f, a, limit, k);
      assert before != [] ==> before[|before| - 1].at <= e.at;
      RunSnoc(w, events);
      hide Run, Inv, Clocked, KeyAt;
      WindowStep(Run(w, before), e, f, a, limit, k);
    }
  }

  lemma WindowStep(w: World, e: Event, f: Family, a: nat, limit: u32, k: nat)
    requires f.Fixed? && UsesFamily(e, f, limit) && Near(w, e, KeyAt(f, a), k)
    requires Inv(w, KeyAt(f, a), 0, limit, k, 2 * f.window, WindowEnd(a, f.window) + f.window)
    requires Waiting(w, KeyAt(f, a)) != {} ==> WindowEnd(a, f.window) <= e.at + f.window
    ensures Inv(Step(w, e), KeyAt(f, a), 0, limit, k, 2 * f.window, WindowEnd(a, f.window) + f.window)
    ensures Waiting(Step(w, e), KeyAt(f, a)) != {} ==> WindowEnd(a, f.window) <= e.at + f.window
  {
    hide Inv, Near, KeyAt, Step;
    var key := KeyAt(f, a);
    assert e.Write? && e.id in w.pending && w.pending[e.id].key == key ==> e.id in Waiting(w, key);
    StepKeeps(w, e, key, 0, limit, k, 2 * f.window, WindowEnd(a, f.window) + f.window);
    if Waiting(Step(w, e), key) != {} {
      WaitersCome(w, e, key);
    }
  }

  /** What has been written by the requests of the windows that `[from, to)` touches. */
  function WrittenIn(w: World, f: Family, from: nat, to: nat): nat
    requires f.Fixed?
    decreases if from < to then to - from else 0
  {
    if from >= to then 0
    else |Of(w, KeyAt(f, from)).written| + WrittenIn(w, f, WindowEnd(from, f.window), to)
  }

  /** Those of them admitted although the write failed. */
  function LostIn(w: World, f: Family, from: nat, to: nat): nat
    requires f.Fixed?
    decreases if from < to then to - from else 0
  {
    if from >= to then 0
    else Of(w, KeyAt(f, from)).lost + LostIn(w, f, WindowEnd(from, f.window), to)
  }

  function AdmittedIn(w: World, f: Family, from: nat, to: nat): nat
    requires f.Fixed?
    decreases if from < to then to - from else 0
  {
    if from >= to then 0
    else Of(w, KeyAt(f, from)).Admitted() + AdmittedIn(w, f, WindowEnd(from, f.window), to)
  }

  /** The fixed-window budget under concurrency: in every interleaving with overlap `k`, under a clock
      that does not go back and whatever the store held before, the requests of the windows an
      interval touches write at most `(k+1)` times the limit for each of these windows; with those
      whose write failed they are all that were admitted. Late writes of earlier windows count there. */
  lemma {:induction false} WindowRaceBudget(w: World, events: seq<Event>, f: Family, limit: u32, k: nat, from: nat,
                                            to: nat)
    requires f.Fixed? && w.pending == map[] && w.tallies == map[] && Clocked(events)
    requires forall e | e in events :: UsesFamily(e, f, limit)
    requires forall a: nat :: NearOn(w, events, KeyAt(f, a), k)
    ensures var end := Run(w, events);
            && WrittenIn(end, f, from, to) <= ((k + 1) * limit) * WindowsTouched(from, to, f.window)
            && AdmittedIn(end, f, from, to) == WrittenIn(end, f, from, to) + LostIn(end, f, from, to)
    decreases if from < to then to - from else 0
  {
    if from < to {
      WindowRaceBudget(w, events, f, limit, k, WindowEnd(from, f.window), to);
      RunKeepsWindow(w, events, f, from, limit, k);
      WrittenWithin(Run(w, events), KeyAt(f, from), 0, limit, k, 2 * f.window, WindowEnd(from, f.window) + f.window);
      hide Run, Inv, Clocked, KeyAt;
      MulSucc((k + 1) * limit, WindowsTouched(WindowEnd(from, f.window), to, f.window));
    }
  }

  // ---------------------------------------------------------------- counters kept alive by their TTL

  /** Every request on the key has a limit of at most `limit` and writes entries that live `ttl`. */
  predicate UsesKey(events: seq<Event>, key: string, limit: u32, ttl: nat) {
    forall e | e in events && e.Read? && e.key == key :: e.limit <= limit && ttl <= e.ttl
  }

  predicate Lands(w: World, e: Event, key: string) {
    e.Write? && !e.fails && e.id in w.pending && w.pending[e.id].key == key
  }

  /** The writes on the key that land in `[from, to)`. */
  function LandedIn(w: World, events: seq<Event>, key: string, from: nat, to: nat): nat {
    if events == [] then 0
    else
      var before, e := events[..|events| - 1], events[|events| - 1];
      LandedIn(w, before, key, from, to) + if from <= e.at < to && Lands(Run(w, before), e, key) then 1 else 0
  }

  lemma WrittenGrows(w: World, e: Event, key: string)
    ensures |Of(Step(w, e), key).written| == |Of(w, key).written| + (if Lands(w, e, key) then 1 else 0)
  {
  }

  /** Before the span nothing is asked of what was written: all of it is base. */
  lemma EarlyStep(w: World, e: Event, key: string, limit: u32, k: nat, ttl: nat, end: nat)
    requires AllFollow(w.pending, key, Of(w, key).written, |Of(w, key).written|, limit, ttl)
    requires e.Read? && e.key == key ==> e.limit <= limit && ttl <= e.ttl
    ensures Inv(Step(w, e), key, |Of(Step(w, e), key).written|, limit, k, ttl, end)
  {
    var w', written := Step(w, e), Of(w, key).written;
    WrittenGrows(w, e, key);
    forall id | id in w'.pending && w'.pending[id].key == key
      ensures Follows(w'.pending[id], Of(w', key).written, |Of(w', key).written|, limit, ttl)
    {
      if id in w.pending {
        assert Follows(w.pending[id], written, |written|, limit, ttl);
      }
    }
  }

  lemma Rebased(w: World, key: string, base: nat, limit: u32, k: nat, ttl: nat, end: nat)
    requires Inv(w, key, base, limit, k, ttl, end)
    ensures AllFollow(w.pending, key, Of(w, key).written, |Of(w, key).written|, limit, ttl)
  {
    forall id | id in w.pending && w.pending[id].key == key
      ensures Follows(w.pending[id], Of(w, key).written, |Of(w, key).written|, limit, ttl)
    {
      assert Follows(w.pending[id], Of(w, key).written, base, limit, ttl);
    }
  }

  lemma {:induction false} NoneLandedYet(w: World, events: seq<Event>, key: string, from: nat, to: nat)
    requires forall e | e in events :: e.at < from
    ensures LandedIn(w, events, key, from, to) == 0
  {
    if events != [] {
      NoneLandedYet(w, events[..|events| - 1], key, from, to);
      assert events[|events| - 1] in events;
    }
  }

  /** The invariant, with what was written before the span as its base. */
  predicate SpanInv(w: World, key: string, landed: nat, limit: u32, k: nat, ttl: nat, end: nat) {
    landed <= |Of(w, key).written| && Inv(w, key, |Of(w, key).written| - landed, limit, k, ttl, end)
  }

  lemma SpanStep(w: World, e: Event, key: string, landed: nat, limit: u32, k: nat, ttl: nat, from: nat)
    requires SpanInv(w, key, landed, limit, k, ttl, from + ttl) && Near(w, e, key, k) && e.at < from + ttl
    requires e.Read? && e.key == key ==> e.limit <= limit && ttl <= e.ttl
    requires e.at < from ==> landed == 0
    ensures SpanInv(Step(w, e), key, if from <= e.at && Lands(w, e, key) then landed + 1 else landed,
                    limit, k, ttl, from + ttl)
  {
    hide Inv, Step, Near, AllFollow;
    var base := |Of(w, key).written| - landed;
    WrittenGrows(w, e, key);
    if e.at < from {
      Rebased(w, key, base, limit, k, ttl, from + ttl);
      EarlyStep(w, e, key, limit, k, ttl, from + ttl);
    } else {
      StepKeeps(w, e, key, base, limit, k, ttl, from + ttl);
    }
  }

  lemma LandedSnoc(w: World, events: seq<Event>, key: string, from: nat, to: nat)
    requires events != []
    ensures var before, e := events[..|events| - 1], events[|events| - 1];
            LandedIn(w, events, key, from, to) ==
              LandedIn(w, before, key, from, to) + (if from <= e.at < to && Lands(Run(w, before), e, key) then 1 else 0)
  {
  }

  predicate SpanUsed(w: World, events: seq<Event>, key: string, limit: u32, k: nat, ttl: nat) {
    Quiet(w, key) && Clocked(events) && UsesKey(events, key, limit, ttl) && NearOn(w, events, key, k)
  }

  lemma UsedBefore(w: World, events: seq<Event>, key: string, limit: u32, k: nat, ttl: nat)
    requires SpanUsed(w, events, key, limit, k, ttl) && events != []
    ensures var before, e := events[..|events| - 1], events[|events| - 1];
            && SpanUsed(w, before, key, limit, k, ttl) && Near(Run(w, before), e, key, k)
            && (e.Read? && e.key == key ==> e.limit <= limit && ttl <= e.ttl)
            && (forall d | d in before :: d.at <= e.at)
  {
    hide Run, Near;
    assert events[|events| - 1] in events;
  }

  /** The bound on what has landed so far, and the invariant while the span lasts. */
  predicate SpanSoFar(w: World, events: seq<Event>, key: string, limit: u32, k: nat, ttl: nat, from: nat) {
    var landed := LandedIn(w, events, key, from, from + ttl);
    && landed <= (k + 1) * limit
    && (events == [] || events[|events| - 1].at < from + ttl ==>
          SpanInv(Run(w, events), key, landed, limit, k, ttl, from + ttl))
  }

  lemma SpanNone(w: World, events: seq<Event>, key: string, limit: u32, k: nat, ttl: nat, from: nat)
    requires Quiet(w, key) && events == []
    ensures SpanSoFar(w, events, key, limit, k, ttl, from)
  {
    NoProduct(k, limit);
    NothingYetWritten(w, key, limit, k, ttl, from + ttl);
  }

  lemma SpanNext(w: World, events: seq<Event>, key: string, limit: u32, k: nat, ttl: nat, from: nat)
    requires events != []
    requires var before, e := events[..|events| - 1], events[|events| - 1];
             && SpanSoFar(w, before, key, limit, k, ttl, from) && Near(Run(w, before), e, key, k)
             && (e.Read? && e.key == key ==> e.limit <= limit && ttl <= e.ttl)
             && (forall d | d in before :: d.at <= e.at)
    ensures SpanSoFar(w, events, key, limit, k, ttl, from)
  {
    hide Run, LandedIn, SpanInv, Step, Near;
    var before, e := events[..|events| - 1], events[|events| - 1];
    LandedSnoc(w, events, key, from, from + ttl);
    if e.at < from + ttl {
      if e.at < from {
        NoneLandedYet(w, before, key, from, from + ttl);
      }
      assert before != [] ==> before[|before| - 1] in before;
      RunSnoc(w, events);
      SpanStep(Run(w, before), e, key, LandedIn(w, before, key, from, from + ttl), limit, k, ttl, from);
      SpanBounded(Run(w, events), key, LandedIn(w, events, key, from, from + ttl), limit, k, ttl, from + ttl);
    }
  }

  lemma SpanBounded(w: World, key: string, landed: nat, limit: u32, k: nat, ttl: nat, end: nat)
    requires SpanInv(w, key, landed, limit, k, ttl, end)
    ensures landed <= (k + 1) * limit
  {
    WrittenWithin(w, key, |Of(w, key).written| - landed, limit, k, ttl, end);
  }

  lemma {:induction false} RunKeepsSpan(w: World, events: seq<Event>, key: string, limit: u32, k: nat, ttl: nat,
                                        from: nat)
    requires SpanUsed(w, events, key, limit, k, ttl)
    ensures SpanSoFar(w, events, key, limit, k, ttl, from)
    decreases |events|
  {
    hide *;
    if events == [] {
      QuietAtFirst(w, events, key, limit, k, ttl);
      SpanNone(w, events, key, limit, k, ttl, from);
    } else {
      UsedBefore(w, events, key, limit, k, ttl);
      RunKeepsSpan(w, events[..|events| - 1], key, limit, k, ttl, from);
      SpanNext(w, events, key, limit, k, ttl, from);
    }
  }

  lemma QuietAtFirst(w: World, events: seq<Event>, key: string, limit: u32, k: nat, ttl: nat)
    requires SpanUsed(w, events, key, limit, k, ttl)
    ensures Quiet(w, key)
  {
  }

  /** The sliding window under concurrency: in every interleaving with overlap `k`, under a clock that
      does not go back and whatever the store held before, no span of one TTL, wherever it starts, has
      more than `(k+1)` times the limit of writes landing in it. */
  lemma {:induction false} SlidingWindowRace(w: World, events: seq<Event>, key: string, limit: u32, k: nat, ttl: nat,
                                             from: nat)
    requires Quiet(w, key) && Clocked(events) && UsesKey(events, key, limit, ttl) && NearOn(w, events, key, k)
    ensures LandedIn(w, events, key, from, from + ttl) <= (k + 1) * limit
  {
    RunKeepsSpan(w, events, key, limit, k, ttl, from);
  }
}
