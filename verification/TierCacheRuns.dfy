/** Runs of the tier cache: lookups interleave at their two KV reads and before their insertion while
    the configuration and the clock move on, so that limits fetched earlier may overwrite later ones. */
module TierCacheRuns {
  import opened Text
  import opened Decimal
  import opened TierCache

  type Config = map<string, string>

  /** The configuration and the clock at one instant. */
  datatype Instant = Instant(time: u64, config: Config)

  /** A cache entry with the instants at which its two reads were made. */
  datatype Held = Held(entry: TierEntry, tierRead: nat, limitsRead: nat, limitsFailed: bool)

  /** A lookup that missed the cache: before its first read, before its second, before it ends. */
  datatype Call =
    | Asked(client: string, endpoint: string, default: u32, start: u64)
    | GotTier(client: string, endpoint: string, default: u32, start: u64, tier: string, tierRead: nat)
    | GotLimits(client: string, endpoint: string, default: u32, start: u64, held: Held)

  /** A limit returned to a caller whose clock showed `start` when it asked; `past` is how many
      instants there had been. */
  datatype Answer = Answer(client: string, endpoint: string, default: u32, start: u64, limit: u32, past: nat)

  /** `failures` are the instants at which some read failed. */
  datatype World = World(past: seq<Instant>, failures: set<nat>, cache: map<string, Held>, calls: map<nat, Call>,
                         answers: seq<Answer>)

  datatype Event =
    | Advance(time: u64, config: Config)
    | Begin(id: nat, client: string, endpoint: string, default: u32)
    | ReadTier(id: nat, fails: bool)
    | ReadLimits(id: nat, fails: bool)
    | Finish(id: nat, victim: string)

  function Entries(cache: map<string, Held>): map<string, TierEntry> {
    map c | c in cache :: cache[c].entry
  }

  function Now(w: World): Instant
    requires w.past != []
  {
    w.past[|w.past| - 1]
  }

  function Read(config: Config, key: string, fails: bool): Option<string> {
    if !fails && key in config then Some(config[key]) else None
  }

  function Reply(w: World, c: Call, limit: u32): World {
    w.(answers := w.answers + [Answer(c.client, c.endpoint, c.default, c.start, limit, |w.past|)])
  }

  function Noted(w: World, fails: bool): World
    requires w.past != []
  {
    if fails then w.(failures := w.failures + {|w.past| - 1}) else w
  }

  /** An event that cannot happen (the clock going back, an unknown call, an evicted entry that is
      not an oldest one) changes nothing. */
  function Step(w: World, e: Event, parse: string -> Limits): World
    requires w.past != []
  {
    match e
    case Advance(time, config) =>
      if time < Now(w).time then w else w.(past := w.past + [Instant(time, config)])
    case Begin(id, client, endpoint, default) => StepBegin(w, id, Asked(client, endpoint, default, Now(w).time))
    case ReadTier(id, fails) => if id in w.calls && w.calls[id].Asked? then StepTier(Noted(w, fails), id, fails) else w
    case ReadLimits(id, fails) =>
      if id in w.calls && w.calls[id].GotTier? then StepLimits(Noted(w, fails), id, fails, parse) else w
    case Finish(id, victim) => if CanFinish(w, id, victim) then StepFinish(w, id, victim) else w
  }

  predicate CanFinish(w: World, id: nat, victim: string) {
    id in w.calls && w.calls[id].GotLimits? && (|w.cache| >= CAPACITY ==> Oldest(Entries(w.cache), victim))
  }

  function StepBegin(w: World, id: nat, c: Call): World {
    if id in w.calls then w
    else if Hit(Entries(w.cache), c.client, c.start)
    then Reply(w, c, LimitFor(w.cache[c.client].entry.limits, c.endpoint, c.default))
    else w.(calls := w.calls[id := c])
  }

  function StepTier(w: World, id: nat, fails: bool): World
    requires w.past != [] && id in w.calls && w.calls[id].Asked?
  {
    var c := w.calls[id];
    match Read(Now(w).config, ClientPath(c.client), fails)
    case None => Reply(w, c, c.default).(calls := w.calls - {id})
    case Some(tier) =>
      w.(calls := w.calls[id := GotTier(c.client, c.endpoint, c.default, c.start, tier, |w.past| - 1)])
  }

  function Kept(cache: map<string, Held>, victim: string): map<string, Held> {
    if |cache| >= CAPACITY then cache - {victim} else cache
  }

  /** What the second read of a call will put in the cache, dated when the call began. */
  function NewHeld(w: World, c: Call, fails: bool, parse: string -> Limits): Held
    requires w.past != [] && c.GotTier?
  {
    var limits := LimitsIn(Read(Now(w).config, TierPath(c.tier), fails), parse);
    Held(TierEntry(limits, c.start), c.tierRead, |w.past| - 1, fails)
  }

  function StepLimits(w: World, id: nat, fails: bool, parse: string -> Limits): World
    requires w.past != [] && id in w.calls && w.calls[id].GotTier?
  {
    var c := w.calls[id];
    w.(calls := w.calls[id := GotLimits(c.client, c.endpoint, c.default, c.start, NewHeld(w, c, fails, parse))])
  }

  function StepFinish(w: World, id: nat, victim: string): World
    requires id in w.calls && w.calls[id].GotLimits?
  {
    var c := w.calls[id];
    Reply(w, c, LimitFor(c.held.entry.limits, c.endpoint, c.default))
      .(calls := w.calls - {id}, cache := Kept(w.cache, victim)[c.client := c.held])
  }

  function Run(w: World, events: seq<Event>, parse: string -> Limits): (r: World)
    requires w.past != []
    ensures r.past != []
  {
    if events == [] then w else Step(Run(w, events[..|events| - 1], parse), events[|events| - 1], parse)
  }

  // ---------------------------------------------------------------- what an answer rests on

  /** The plain two-hop lookup, its first read made at instant `i` and its second at `j`. */
  function LookupAt(past: seq<Instant>, i: nat, firstFails: bool, j: nat, secondFails: bool, client: string,
                    endpoint: string, default: u32, parse: string -> Limits): u32
    requires i <= j < |past|
  {
    var tier := Read(past[i].config, ClientPath(client), firstFails);
    var json := if tier.None? then None else Read(past[j].config, TierPath(tier.value), secondFails);
    PlainLimit(tier, json, endpoint, default, parse)
  }

  /** The answer agrees with the texts stored at instant `i` and at instant `j`: it is the limit that the
      text of the client's tier parses to for the endpoint, and the default if a read fails or there is
      no such tier, text or endpoint. */
  predicate Agrees(past: seq<Instant>, i: nat, firstFails: bool, j: nat, secondFails: bool, a: Answer,
                   parse: string -> Limits)
    requires i <= j < |past|
  {
    var first, second := past[i].config, past[j].config;
    var client := "rate_limits/clients/" + a.client;
    if firstFails || client !in first then a.limit == a.default
    else
      var tier := "rate_limits/tiers/" + first[client];
      if secondFails || tier !in second || a.endpoint !in parse(second[tier]) then a.limit == a.default
      else a.limit == parse(second[tier])[a.endpoint]
  }

  lemma LookupAgrees(past: seq<Instant>, i: nat, f: bool, j: nat, g: bool, a: Answer, parse: string -> Limits)
    requires i <= j < |past|
    ensures a.limit == LookupAt(past, i, f, j, g, a.client, a.endpoint, a.default, parse) <==>
              Agrees(past, i, f, j, g, a, parse)
  {
  }

  /** The answer is what a plain lookup would have returned with reads made before the answer and
      less than 60 seconds before the caller's clock reading, or later; the reads of that lookup
      fail only at instants at which a read did fail. */
  ghost predicate Explained(past: seq<Instant>, failures: set<nat>, a: Answer, parse: string -> Limits) {
    a.past <= |past| &&
    exists i: nat, j: nat, f: bool, g: bool | i <= j < a.past ::
      && Agrees(past, i, f, j, g, a, parse) && a.start < past[i].time + 60
      && (f ==> i in failures) && (g ==> j in failures)
  }

  predicate Monotone(past: seq<Instant>) {
    forall i, j | 0 <= i < j < |past| :: past[i].time <= past[j].time
  }

  predicate HeldRight(past: seq<Instant>, failures: set<nat>, client: string, h: Held, parse: string -> Limits) {
    && h.tierRead <= h.limitsRead < |past|
    && (h.limitsFailed ==> h.limitsRead in failures)
    && h.entry.fetchedAt <= past[h.tierRead].time
    && var tier := Read(past[h.tierRead].config, ClientPath(client), false);
       tier.Some? && h.entry.limits ==
         LimitsIn(Read(past[h.limitsRead].config, TierPath(tier.value), h.limitsFailed), parse)
  }

  predicate CallRight(past: seq<Instant>, failures: set<nat>, c: Call, parse: string -> Limits) {
    && past != [] && c.start <= past[|past| - 1].time
    && (c.GotTier? ==>
          && c.tierRead < |past| && c.start <= past[c.tierRead].time
          && Read(past[c.tierRead].config, ClientPath(c.client), false) == Some(c.tier))
    && (c.GotLimits? ==> HeldRight(past, failures, c.client, c.held, parse) && c.held.entry.fetchedAt == c.start)
  }

  predicate CacheRight(past: seq<Instant>, failures: set<nat>, cache: map<string, Held>, parse: string -> Limits) {
    |cache| <= CAPACITY && forall c | c in cache :: HeldRight(past, failures, c, cache[c], parse)
  }

  predicate CallsRight(past: seq<Instant>, failures: set<nat>, calls: map<nat, Call>, parse: string -> Limits) {
    forall id | id in calls :: CallRight(past, failures, calls[id], parse)
  }

  ghost predicate AnswersRight(past: seq<Instant>, failures: set<nat>, answers: seq<Answer>, parse: string -> Limits) {
    forall i | 0 <= i < |answers| :: Explained(past, failures, answers[i], parse)
  }

  ghost predicate Inv(w: World, parse: string -> Limits) {
    && w.past != [] && Monotone(w.past)
    && CacheRight(w.past, w.failures, w.cache, parse)
    && CallsRight(w.past, w.failures, w.calls, parse)
    && AnswersRight(w.past, w.failures, w.answers, parse)
  }

  lemma ExplainedLater(past: seq<Instant>, failures: set<nat>, past': seq<Instant>, failures': set<nat>, a: Answer,
                       parse: string -> Limits)
    requires Explained(past, failures, a, parse) && past <= past' && failures <= failures'
    ensures Explained(past', failures', a, parse)
  {
    var i: nat, j: nat, f: bool, g: bool :| i <= j < a.past
      && Agrees(past, i, f, j, g, a, parse) && a.start < past[i].time + 60
      && (f ==> i in failures) && (g ==> j in failures);
    assert past'[i] == past[i] && past'[j] == past[j];
    assert Agrees(past', i, f, j, g, a, parse);
  }

  lemma HeldRightLater(past: seq<Instant>, failures: set<nat>, past': seq<Instant>, failures': set<nat>,
                       client: string, h: Held, parse: string -> Limits)
    requires HeldRight(past, failures, client, h, parse) && past <= past' && failures <= failures'
    ensures HeldRight(past', failures', client, h, parse)
  {
    assert past'[h.tierRead] == past[h.tierRead] && past'[h.limitsRead] == past[h.limitsRead];
  }

  lemma CacheRightLater(past: seq<Instant>, failures: set<nat>, past': seq<Instant>, failures': set<nat>,
                        cache: map<string, Held>, parse: string -> Limits)
    requires CacheRight(past, failures, cache, parse) && past <= past' && failures <= failures'
    ensures CacheRight(past', failures', cache, parse)
  {
    hide HeldRight;
    forall c | c in cache
      ensures HeldRight(past', failures', c, cache[c], parse)
    {
      HeldRightLater(past, failures, past', failures', c, cache[c], parse);
    }
  }

  lemma CallRightLater(past: seq<Instant>, failures: set<nat>, past': seq<Instant>, failures': set<nat>, c: Call,
                       parse: string -> Limits)
    requires CallRight(past, failures, c, parse) && past <= past' && failures <= failures' && Monotone(past')
    ensures CallRight(past', failures', c, parse)
  {
    hide HeldRight;
    assert past[|past| - 1] == past'[|past| - 1];
    if c.GotTier? {
      assert past[c.tierRead] == past'[c.tierRead];
    } else if c.GotLimits? {
      HeldRightLater(past, failures, past', failures', c.client, c.held, parse);
    }
  }

  lemma CallsRightLater(past: seq<Instant>, failures: set<nat>, past': seq<Instant>, failures': set<nat>,
                        calls: map<nat, Call>, parse: string -> Limits)
    requires CallsRight(past, failures, calls, parse) && past <= past' && failures <= failures' && Monotone(past')
    ensures CallsRight(past', failures', calls, parse)
  {
    hide CallRight;
    forall id | id in calls
      ensures CallRight(past', failures', calls[id], parse)
    {
      CallRightLater(past, failures, past', failures', calls[id], parse);
    }
  }

  lemma AnswersRightLater(past: seq<Instant>, failures: set<nat>, past': seq<Instant>, failures': set<nat>,
                          answers: seq<Answer>, parse: string -> Limits)
    requires AnswersRight(past, failures, answers, parse) && past <= past' && failures <= failures'
    ensures AnswersRight(past', failures', answers, parse)
  {
    forall k | 0 <= k < |answers|
      ensures Explained(past', failures', answers[k], parse)
    {
      ExplainedLater(past, failures, past', failures', answers[k], parse);
    }
  }

  /** Nothing that was right is made wrong by more instants and more failures. */
  lemma RightLater(w: World, past': seq<Instant>, failures': set<nat>, parse: string -> Limits)
    requires Inv(w, parse) && w.past <= past' && w.failures <= failures' && Monotone(past')
    ensures Inv(w.(past := past', failures := failures'), parse)
  {
    hide CacheRight, CallsRight, AnswersRight, Monotone;
    CacheRightLater(w.past, w.failures, past', failures', w.cache, parse);
    CallsRightLater(w.past, w.failures, past', failures', w.calls, parse);
    AnswersRightLater(w.past, w.failures, past', failures', w.answers, parse);
  }

  lemma AnswerAdded(w: World, a: Answer, i: nat, f: bool, j: nat, g: bool, parse: string -> Limits)
    requires AnswersRight(w.past, w.failures, w.answers, parse) && a.past == |w.past| && i <= j < |w.past|
    requires a.limit == LookupAt(w.past, i, f, j, g, a.client, a.endpoint, a.default, parse)
    requires a.start < w.past[i].time + 60
    requires (f ==> i in w.failures) && (g ==> j in w.failures)
    ensures AnswersRight(w.past, w.failures, w.answers + [a], parse)
  {
    LookupAgrees(w.past, i, f, j, g, a, parse);
    assert Explained(w.past, w.failures, a, parse);
  }

  /** What a right entry says is what the two reads it came from say. */
  lemma HeldAnswers(w: World, c: Call, h: Held, parse: string -> Limits)
    requires w.past != [] && AnswersRight(w.past, w.failures, w.answers, parse)
    requires HeldRight(w.past, w.failures, c.client, h, parse) && c.start < h.entry.fetchedAt + FRESH_SECS
    ensures var limit := LimitFor(h.entry.limits, c.endpoint, c.default);
            AnswersRight(w.past, w.failures, Reply(w, c, limit).answers, parse)
  {
    var limit := LimitFor(h.entry.limits, c.endpoint, c.default);
    var a := Answer(c.client, c.endpoint, c.default, c.start, limit, |w.past|);
    AnswerAdded(w, a, h.tierRead, false, h.limitsRead, h.limitsFailed, parse);
  }

  lemma NotedKeeps(w: World, fails: bool, parse: string -> Limits)
    requires Inv(w, parse)
    ensures Inv(Noted(w, fails), parse)
  {
    RightLater(w, w.past, Noted(w, fails).failures, parse);
  }

  /** A call that has just begun is right. */
  lemma CallAdded(w: World, id: nat, c: Call, parse: string -> Limits)
    requires w.past != [] && CallsRight(w.past, w.failures, w.calls, parse) && c.Asked? && c.start == Now(w).time
    ensures CallsRight(w.past, w.failures, w.calls[id := c], parse)
  {
  }

  lemma BeginKeeps(w: World, id: nat, c: Call, parse: string -> Limits)
    requires Inv(w, parse) && c.Asked? && c.start == Now(w).time
    ensures Inv(StepBegin(w, id, c), parse)
  {
    hide Explained, HeldRight, CallRight, CallsRight, AnswersRight, LimitFor;
    CallAdded(w, id, c, parse);
    if id !in w.calls && Hit(Entries(w.cache), c.client, c.start) {
      assert HeldRight(w.past, w.failures, c.client, w.cache[c.client], parse);
      HeldAnswers(w, c, w.cache[c.client], parse);
    }
  }

  lemma TierKeeps(w: World, id: nat, fails: bool, parse: string -> Limits)
    requires Inv(w, parse) && id in w.calls && w.calls[id].Asked?
    requires fails ==> |w.past| - 1 in w.failures
    ensures Inv(StepTier(w, id, fails), parse)
  {
    hide Explained, HeldRight, CacheRight, AnswersRight, ClientPath;
    var c, last := w.calls[id], |w.past| - 1;
    if Read(Now(w).config, ClientPath(c.client), fails) == None {
      AnswerAdded(w, Answer(c.client, c.endpoint, c.default, c.start, c.default, |w.past|),
                  last, fails, last, fails, parse);
    }
  }

  lemma KeptSmaller(cache: map<string, Held>, victim: string, client: string, held: Held)
    requires |cache| <= CAPACITY && (|cache| == CAPACITY ==> victim in cache)
    ensures |Kept(cache, victim)[client := held]| <= CAPACITY
  {
    var kept := Kept(cache, victim);
    assert |cache| >= CAPACITY ==> kept.Keys == cache.Keys - {victim};
    assert kept[client := held].Keys == kept.Keys + {client};
    assert |kept.Keys| == |kept| && |cache.Keys| == |cache|;
    assert |kept[client := held].Keys| == |kept[client := held]|;
  }

  lemma HoldKeeps(past: seq<Instant>, failures: set<nat>, cache: map<string, Held>, victim: string,
                  client: string, held: Held, parse: string -> Limits)
    requires CacheRight(past, failures, cache, parse) && HeldRight(past, failures, client, held, parse)
    requires |cache| >= CAPACITY ==> victim in cache
    ensures CacheRight(past, failures, Kept(cache, victim)[client := held], parse)
  {
    KeptSmaller(cache, victim, client, held);
    var cache' := Kept(cache, victim)[client := held];
    forall c | c in cache'
      ensures HeldRight(past, failures, c, cache'[c], parse)
    {
      if c != client {
        assert cache'[c] == cache[c];
      }
    }
  }

  lemma HeldOf(w: World, c: Call, fails: bool, parse: string -> Limits)
    requires w.past != [] && Monotone(w.past) && c.GotTier? && CallRight(w.past, w.failures, c, parse)
    requires fails ==> |w.past| - 1 in w.failures
    ensures HeldRight(w.past, w.failures, c.client, NewHeld(w, c, fails, parse), parse)
  {
  }

  lemma LimitsKeep(w: World, id: nat, fails: bool, parse: string -> Limits)
    requires Inv(w, parse) && id in w.calls && w.calls[id].GotTier?
    requires fails ==> |w.past| - 1 in w.failures
    ensures Inv(StepLimits(w, id, fails, parse), parse)
  {
    hide HeldRight, CacheRight, AnswersRight;
    assert CallRight(w.past, w.failures, w.calls[id], parse);
    HeldOf(w, w.calls[id], fails, parse);
  }

  lemma FinishKeeps(w: World, id: nat, victim: string, parse: string -> Limits)
    requires Inv(w, parse) && id in w.calls && w.calls[id].GotLimits?
    requires |w.cache| >= CAPACITY ==> victim in w.cache
    ensures Inv(StepFinish(w, id, victim), parse)
  {
    hide HeldRight, CacheRight, AnswersRight, Monotone;
    var c := w.calls[id];
    assert CallRight(w.past, w.failures, c, parse);
    HoldKeeps(w.past, w.failures, w.cache, victim, c.client, c.held, parse);
    HeldAnswers(w, c, c.held, parse);
    CallGone(w.past, w.failures, w.calls, id, parse);
  }

  lemma CallGone(past: seq<Instant>, failures: set<nat>, calls: map<nat, Call>, id: nat, parse: string -> Limits)
    requires CallsRight(past, failures, calls, parse)
    ensures CallsRight(past, failures, calls - {id}, parse)
  {
  }

  lemma StepIs(w: World, e: Event, parse: string -> Limits)
    requires w.past != []
    ensures Step(w, e, parse) == match e
      case Advance(time, config) =>
        if time < Now(w).time then w else w.(past := w.past + [Instant(time, config)], failures := w.failures)
      case Begin(id, client, endpoint, default) => StepBegin(w, id, Asked(client, endpoint, default, Now(w).time))
      case ReadTier(id, fails) =>
        if id in w.calls && w.calls[id].Asked? then StepTier(Noted(w, fails), id, fails) else w
      case ReadLimits(id, fails) =>
        if id in w.calls && w.calls[id].GotTier? then StepLimits(Noted(w, fails), id, fails, parse) else w
      case Finish(id, victim) => if CanFinish(w, id, victim) then StepFinish(w, id, victim) else w
  {
  }

  lemma CanEvict(w: World, id: nat, victim: string)
    requires CanFinish(w, id, victim)
    ensures id in w.calls && w.calls[id].GotLimits? && (|w.cache| >= CAPACITY ==> victim in w.cache)
  {
    assert Entries(w.cache).Keys == w.cache.Keys;
  }

  lemma Sized(w: World, parse: string -> Limits)
    requires Inv(w, parse)
    ensures w.past != [] && Monotone(w.past)
  {
  }

  lemma LaterMonotone(past: seq<Instant>, next: Instant)
    requires past != [] && Monotone(past) && past[|past| - 1].time <= next.time
    ensures Monotone(past + [next])
  {
  }

  lemma StepKeeps(w: World, e: Event, parse: string -> Limits)
    requires Inv(w, parse)
    ensures w.past != [] && Inv(Step(w, e, parse), parse)
  {
    hide Step, Inv, StepBegin, StepTier, StepLimits, StepFinish, CanFinish, Monotone;
    Sized(w, parse);
    StepIs(w, e, parse);
    match e
    case Advance(time, config) =>
      if Now(w).time <= time {
        var past' := w.past + [Instant(time, config)];
        LaterMonotone(w.past, Instant(time, config));
        RightLater(w, past', w.failures, parse);
      }
    case Begin(id, client, endpoint, default) =>
      BeginKeeps(w, id, Asked(client, endpoint, default, Now(w).time), parse);
    case ReadTier(id, fails) =>
      NotedKeeps(w, fails, parse);
      if id in w.calls && w.calls[id].Asked? { TierKeeps(Noted(w, fails), id, fails, parse); }
    case ReadLimits(id, fails) =>
      NotedKeeps(w, fails, parse);
      if id in w.calls && w.calls[id].GotTier? { LimitsKeep(Noted(w, fails), id, fails, parse); }
    case Finish(id, victim) =>
      if CanFinish(w, id, victim) {
        CanEvict(w, id, victim);
        FinishKeeps(w, id, victim, parse);
      }
  }

  lemma {:induction false} RunKeeps(w: World, events: seq<Event>, parse: string -> Limits)
    requires Inv(w, parse)
    ensures Inv(Run(w, events, parse), parse)
  {
    if events != [] {
      RunKeeps(w, events[..|events| - 1], parse);
      StepKeeps(Run(w, events[..|events| - 1], parse), events[|events| - 1], parse);
    }
  }

  function Start(first: Instant): World {
    World([first], {}, map[], map[], [])
  }

  /** How many lookups began. */
  function Begun(w: World, events: seq<Event>, parse: string -> Limits): nat
    requires w.past != []
  {
    if events == [] then 0
    else
      var before, e := Run(w, events[..|events| - 1], parse), events[|events| - 1];
      Begun(w, events[..|events| - 1], parse) + if e.Begin? && e.id !in before.calls then 1 else 0
  }

  /** Of the lookups begun, `extra` more than before, each is answered or under way. */
  predicate Balanced(w: World, w': World, extra: nat) {
    |w'.answers| + |w'.calls| == |w.answers| + |w.calls| + extra
  }

  lemma BeginAnswers(w: World, id: nat, c: Call)
    ensures Balanced(w, StepBegin(w, id, c), if id !in w.calls then 1 else 0)
  {
    hide Entries, Hit, LimitFor;
    if id !in w.calls {
      CallAddedCounts(w.calls, id, c);
    }
  }

  lemma TierAnswers(w: World, id: nat, fails: bool)
    requires w.past != [] && id in w.calls && w.calls[id].Asked?
    ensures Balanced(w, StepTier(w, id, fails), 0)
  {
    hide Read;
    CallRemovedCounts(w.calls, id);
    var c := w.calls[id];
    var read := Read(Now(w).config, ClientPath(c.client), fails);
    if read.Some? {
      CallReplacedCounts(w.calls, id, GotTier(c.client, c.endpoint, c.default, c.start, read.value, |w.past| - 1));
    }
  }

  lemma LimitsAnswers(w: World, id: nat, fails: bool, parse: string -> Limits)
    requires w.past != [] && id in w.calls && w.calls[id].GotTier?
    ensures Balanced(w, StepLimits(w, id, fails, parse), 0)
  {
    hide NewHeld;
    var c := w.calls[id];
    CallReplacedCounts(w.calls, id, GotLimits(c.client, c.endpoint, c.default, c.start, NewHeld(w, c, fails, parse)));
  }

  lemma FinishAnswers(w: World, id: nat, victim: string)
    requires id in w.calls && w.calls[id].GotLimits?
    ensures Balanced(w, StepFinish(w, id, victim), 0)
  {
    hide Kept, LimitFor;
    CallRemovedCounts(w.calls, id);
  }

  lemma CallAddedCounts(calls: map<nat, Call>, id: nat, c: Call)
    requires id !in calls
    ensures |calls[id := c]| == |calls| + 1
  {
    assert calls[id := c].Keys == calls.Keys + {id};
    assert |calls[id := c].Keys| == |calls[id := c]| && |calls.Keys| == |calls|;
  }

  lemma CallReplacedCounts(calls: map<nat, Call>, id: nat, c: Call)
    requires id in calls
    ensures |calls[id := c]| == |calls|
  {
    assert calls[id := c].Keys == calls.Keys;
    assert |calls[id := c].Keys| == |calls[id := c]| && |calls.Keys| == |calls|;
  }

  lemma CallRemovedCounts(calls: map<nat, Call>, id: nat)
    requires id in calls
    ensures |calls - {id}| == |calls| - 1
  {
    assert (calls - {id}).Keys == calls.Keys - {id};
    assert |(calls - {id}).Keys| == |calls - {id}| && |calls.Keys| == |calls|;
  }

  lemma NotedSame(w: World, fails: bool, w': World)
    requires w.past != []
    ensures Balanced(Noted(w, fails), w', 0) <==> Balanced(w, w', 0)
    ensures Balanced(w, w, 0)
  {
  }

  lemma StepAnswers(w: World, e: Event, parse: string -> Limits)
    requires w.past != []
    ensures Balanced(w, Step(w, e, parse), if e.Begin? && e.id !in w.calls then 1 else 0)
  {
    hide Step, StepBegin, StepTier, StepLimits, StepFinish, CanFinish, Balanced;
    StepIs(w, e, parse);
    NotedSame(w, false, w);
    match e
    case Advance(time, config) =>
      AdvanceBalanced(w, Instant(time, config));
    case Begin(id, client, endpoint, default) =>
      BeginAnswers(w, id, Asked(client, endpoint, default, Now(w).time));
    case ReadTier(id, fails) =>
      if id in w.calls && w.calls[id].Asked? {
        TierAnswers(Noted(w, fails), id, fails);
        NotedSame(w, fails, StepTier(Noted(w, fails), id, fails));
      }
    case ReadLimits(id, fails) =>
      if id in w.calls && w.calls[id].GotTier? {
        LimitsAnswers(Noted(w, fails), id, fails, parse);
        NotedSame(w, fails, StepLimits(Noted(w, fails), id, fails, parse));
      }
    case Finish(id, victim) =>
      if CanFinish(w, id, victim) {
        CanEvict(w, id, victim);
        FinishAnswers(w, id, victim);
      }
  }

  lemma AdvanceBalanced(w: World, next: Instant)
    ensures Balanced(w, w.(past := w.past + [next], failures := w.failures), 0)
  {
  }

  /** Every lookup that began has been answered once or is still under way. */
  lemma {:induction false} EveryLookupAnswered(first: Instant, events: seq<Event>, parse: string -> Limits)
    ensures var w := Run(Start(first), events, parse);
            |w.answers| + |w.calls| == Begun(Start(first), events, parse)
  {
    if events != [] {
      hide Step;
      EveryLookupAnswered(first, events[..|events| - 1], parse);
      StepAnswers(Run(Start(first), events[..|events| - 1], parse), events[|events| - 1], parse);
    }
  }

  /** The cache refines the uncached lookup: in every run, every limit returned is what the plain
      two-hop lookup gives with both reads made no 60 seconds before the caller asked; and the cache
      never holds more than 1000 clients. */
  lemma {:induction false} CacheRefinesLookup(first: Instant, events: seq<Event>, parse: string -> Limits)
    ensures var w := Run(Start(first), events, parse);
            |w.cache| <= 1000 && AnswersRight(w.past, w.failures, w.answers, parse)
  {
    RunKeeps(Start(first), events, parse);
  }
}
