/** The application-state cache: two global cells read, cleared and written around an await. A
    worker is single-threaded, so what lies before the await is one atomic section and what lies
    after it is another; any number of requests may be at the await. */
module AppStateCache {
  import opened Text

  /** The environment variables the cache key is made of. */
  datatype Config = Config(corsOrigins: string, apiBaseUrl: string, shardCount: string)

  function CacheKey(c: Config): (key: string)
    ensures key != ""
  {
    c.corsOrigins + ":" + (c.apiBaseUrl + ":" + c.shardCount)
  }

  /** An initialised state: which initialisation made it, and for which key. */
  datatype AppState = AppState(id: nat, key: string)

  /** `APP_STATE_CACHE` and `ENV_CACHE_KEY`. */
  datatype Cells = Cells(cache: Option<AppState>, envKey: string)

  /** The section before the await: drop a state of another configuration, else return what is cached. */
  function Enter(c: Cells, key: string): Cells {
    if c.envKey != "" && c.envKey != key then c.(cache := None) else c
  }

  /** The section after the await: an earlier publication wins. */
  function Publish(c: Cells, key: string, made: AppState): (Cells, AppState) {
    if c.cache.Some? then (c, c.cache.value) else (Cells(Some(made), key), made)
  }

  class StateCache {
    var cache: Option<AppState>
    var envKey: string

    function Read(): Cells
      reads this
    {
      Cells(cache, envKey)
    }

    constructor ()
      ensures Read() == Cells(None, "")
    {
      cache, envKey := None, "";
    }

    /** `None` means: initialise a state and call `AfterInit` with it. */
    method BeforeInit(key: string) returns (cached: Option<AppState>)
      modifies this
      ensures Read() == Enter(old(Read()), key)
      ensures cached == Read().cache
    {
      if envKey != "" && envKey != key {
        cache := None;
      }
      if cache.Some? {
        return cache;
      }
      cached := cache;
    }

    method AfterInit(key: string, made: AppState) returns (state: AppState)
      modifies this
      ensures (Read(), state) == Publish(old(Read()), key, made)
    {
      if cache.Some? {
        return cache.value;
      }
      cache := Some(made);
      envKey := key;
      state := made;
    }
  }

  // ---------------------------------------------------------------- runs

  /** A state handed to a caller, before the await or after it. */
  datatype Grant = Grant(key: string, state: AppState, early: bool)

  /** `waiting` are the callers at the await; `published` the states put into the cache; `dropped`
      how often a cached state was thrown away; `made` how many initialisations succeeded. */
  datatype World = World(cells: Cells, waiting: map<nat, string>, grants: seq<Grant>,
                         published: seq<AppState>, dropped: nat, made: nat)

  const START := World(Cells(None, ""), map[], [], [], 0, 0)

  datatype Event = Request(id: nat, config: Config) | Finish(id: nat, succeeds: bool)

  function Step(w: World, e: Event): World {
    match e
    case Request(id, config) => if id in w.waiting then w else StepRequest(w, id, CacheKey(config))
    case Finish(id, succeeds) => if id in w.waiting then StepFinish(w, id, succeeds) else w
  }

  function StepRequest(w: World, id: nat, key: string): World {
    var cells := Enter(w.cells, key);
    var w := w.(cells := cells, dropped := if cells != w.cells then w.dropped + 1 else w.dropped);
    if cells.cache.Some? then w.(grants := w.grants + [Grant(key, cells.cache.value, true)])
    else w.(waiting := w.waiting[id := key])
  }

  /** A failed initialisation gives the caller an error and leaves both cells alone. */
  function StepFinish(w: World, id: nat, succeeds: bool): World
    requires id in w.waiting
  {
    var key := w.waiting[id];
    var w := w.(waiting := w.waiting - {id});
    if !succeeds then w
    else
      var (cells, state) := Publish(w.cells, key, AppState(w.made, key));
      w.(cells := cells, made := w.made + 1, grants := w.grants + [Grant(key, state, false)],
         published := if cells != w.cells then w.published + [state] else w.published)
  }

  function Run(events: seq<Event>): World {
    if events == [] then START else Step(Run(events[..|events| - 1]), events[|events| - 1])
  }

  predicate Inv(w: World) {
    && (forall id | id in w.waiting :: w.waiting[id] != "")
    && (w.cells.cache.Some? ==>
          && w.cells.envKey == w.cells.cache.value.key != ""
          && w.published != [] && w.cells.cache.value == w.published[|w.published| - 1])
    && |w.published| == w.dropped + (if w.cells.cache.Some? then 1 else 0)
    && (forall g | g in w.grants :: g.state in w.published && (g.early ==> g.state.key == g.key))
  }

  lemma RequestKeeps(w: World, id: nat, key: string)
    requires Inv(w) && key != ""
    ensures Inv(StepRequest(w, id, key))
  {
  }

  lemma FinishKeeps(w: World, id: nat, succeeds: bool)
    requires Inv(w) && id in w.waiting
    ensures Inv(StepFinish(w, id, succeeds))
  {
    var w' := StepFinish(w, id, succeeds);
    assert w.published <= w'.published;
    assert forall s | s in w.published :: s in w'.published;
    if succeeds {
      var (cells, state) := Publish(w.cells, w.waiting[id], AppState(w.made, w.waiting[id]));
      assert state in w'.published;
    }
  }

  lemma {:induction false} RunKeeps(events: seq<Event>)
    ensures Inv(Run(events))
  {
    if events != [] {
      var before, e := Run(events[..|events| - 1]), events[|events| - 1];
      RunKeeps(events[..|events| - 1]);
      match e
      case Request(id, config) => RequestKeeps(before, id, CacheKey(config));
      case Finish(id, succeeds) => if id in before.waiting { FinishKeeps(before, id, succeeds); }
    }
  }

  /** In every run: the stored key is the key the cached state was built with; a caller served
      before the await gets a state of its own key; every state handed out was published; and the
      states published are one more, at most, than those thrown away. */
  lemma Agreement(events: seq<Event>)
    ensures var w := Run(events);
            && (w.cells.cache.Some? ==> w.cells.envKey == w.cells.cache.value.key)
            && (forall g | g in w.grants :: g.state in w.published && (g.early ==> g.state.key == g.key))
            && w.dropped <= |w.published| <= w.dropped + 1
  {
    RunKeeps(events);
  }

  // ---------------------------------------------------------------- one configuration

  predicate OneKey(events: seq<Event>, key: string) {
    forall e | e in events :: e.Request? ==> CacheKey(e.config) == key
  }

  lemma {:induction false} NothingDropped(events: seq<Event>, key: string)
    requires OneKey(events, key)
    ensures var w := Run(events);
            && w.dropped == 0 && (w.cells.envKey == "" || w.cells.envKey == key)
            && forall id | id in w.waiting :: w.waiting[id] == key
  {
    if events != [] {
      NothingDropped(events[..|events| - 1], key);
      assert events[|events| - 1] in events;
    }
  }

  /** While all requests share one key, at most one state is ever published, and every caller that
      gets a state gets that one, however the initialisations race and whichever fail. */
  lemma OneKeyOneState(events: seq<Event>, key: string)
    requires OneKey(events, key)
    ensures var w := Run(events);
            && |w.published| <= 1
            && forall g | g in w.grants :: w.published == [g.state]
  {
    RunKeeps(events);
    NothingDropped(events, key);
    forall g | g in Run(events).grants
      ensures Run(events).published == [g.state]
    {
      assert g.state in Run(events).published;
    }
  }

  /** A request is served at once, with the cached state, exactly when that was built for its key;
      otherwise it goes to initialise one, and a state of another key is gone. */
  lemma RequestMeans(w: World, id: nat, config: Config)
    requires Inv(w) && id !in w.waiting
    ensures var key, w' := CacheKey(config), Step(w, Request(id, config));
            if w.cells.cache.Some? && w.cells.cache.value.key == key
            then w' == w.(grants := w.grants + [Grant(key, w.cells.cache.value, true)])
            else
              && w'.cells == Cells(None, w.cells.envKey) && w'.waiting == w.waiting[id := key]
              && w'.grants == w.grants && w'.published == w.published
  {
  }

  /** What a request that waited gets: an error if its initialisation failed, and then nothing else
      changes; else the state in the cache, its own if that was empty. */
  lemma FinishMeans(w: World, id: nat, succeeds: bool)
    requires Inv(w) && id in w.waiting
    ensures var key, w' := w.waiting[id], Step(w, Finish(id, succeeds));
            if !succeeds then w' == w.(waiting := w.waiting - {id})
            else
              var own := AppState(w.made, key);
              && w'.waiting == w.waiting - {id} && w'.made == w.made + 1
              && w'.cells.cache == (if w.cells.cache.Some? then w.cells.cache else Some(own))
              && w'.cells.envKey == (if w.cells.cache.Some? then w.cells.envKey else key)
              && w'.grants == w.grants + [Grant(key, w'.cells.cache.value, false)]
  {
  }

  /** How many requests came in, and how many of their initialisations failed. */
  function Arrived(events: seq<Event>): nat {
    if events == [] then 0
    else
      var before, e := events[..|events| - 1], events[|events| - 1];
      Arrived(before) + if e.Request? && e.id !in Run(before).waiting then 1 else 0
  }

  function Failed(events: seq<Event>): nat {
    if events == [] then 0
    else
      var before, e := events[..|events| - 1], events[|events| - 1];
      Failed(before) + if e.Finish? && !e.succeeds && e.id in Run(before).waiting then 1 else 0
  }

  lemma WaitingCounts(waiting: map<nat, string>, id: nat, key: string)
    ensures id !in waiting ==> |waiting[id := key]| == |waiting| + 1
    ensures id in waiting ==> |waiting - {id}| == |waiting| - 1
  {
    assert waiting[id := key].Keys == waiting.Keys + {id} && (waiting - {id}).Keys == waiting.Keys - {id};
    assert |waiting[id := key].Keys| == |waiting[id := key]| && |waiting.Keys| == |waiting|;
    assert |(waiting - {id}).Keys| == |waiting - {id}|;
  }

  lemma StepAccounts(w: World, e: Event)
    ensures var w' := Step(w, e);
            |w'.grants| + |w'.waiting| == |w.grants| + |w.waiting|
              + (if e.Request? && e.id !in w.waiting then 1 else 0)
              - (if e.Finish? && !e.succeeds && e.id in w.waiting then 1 else 0)
  {
    WaitingCounts(w.waiting, e.id, if e.Request? then CacheKey(e.config) else "");
  }

  /** Every request that came in has been given one state, has failed, or is still waiting. */
  lemma {:induction false} EveryRequestAccounted(events: seq<Event>)
    ensures |Run(events).grants| + |Run(events).waiting| + Failed(events) == Arrived(events)
  {
    if events != [] {
      hide Step;
      EveryRequestAccounted(events[..|events| - 1]);
      StepAccounts(Run(events[..|events| - 1]), events[|events| - 1]);
    }
  }

  // ---------------------------------------------------------------- two configurations

  /** After the await the caller's key is not compared again. It gets a state of its own key exactly
      when the cache is empty by then or holds one. */
  lemma LateGrant(w: World, id: nat)
    requires Inv(w) && id in w.waiting
    ensures var w' := Step(w, Finish(id, true));
            var g := w'.grants[|w.grants|];
            && |w'.grants| == |w.grants| + 1 && !g.early && g.key == w.waiting[id]
            && (g.state.key == g.key <==> w.cells.cache == None || w.cells.envKey == g.key)
  {
  }

  /** For any two configurations with different keys, two racing first requests end with one caller
      holding the other's state. */
  lemma ForeignState(a: Config, b: Config)
    requires CacheKey(a) != CacheKey(b)
    ensures var w := Run([Request(0, a), Request(1, b), Finish(0, true), Finish(1, true)]);
            w.grants == [Grant(CacheKey(a), AppState(0, CacheKey(a)), false),
                         Grant(CacheKey(b), AppState(0, CacheKey(a)), false)]
  {
    var e0, e1, e2, e3 := Request(0, a), Request(1, b), Finish(0, true), Finish(1, true);
    assert [e0, e1, e2, e3][..3] == [e0, e1, e2] && [e0, e1, e2][..2] == [e0, e1] && [e0, e1][..1] == [e0];
    assert [e0][..0] == [];
    assert Run([]) == START;
    assert Run([e0]) == Step(START, e0);
    assert Run([e0, e1]) == Step(Run([e0]), e1);
    assert Run([e0, e1, e2]) == Step(Run([e0, e1]), e2);
    assert Run([e0, e1, e2, e3]) == Step(Run([e0, e1, e2]), e3);
  }

  // ---------------------------------------------------------------- the key

  function Colons(s: string): nat {
    if s == "" then 0 else Colons(s[1..]) + if s[0] == ':' then 1 else 0
  }

  lemma {:induction false} ColonsOfConcat(s: string, t: string)
    ensures Colons(s + t) == Colons(s) + Colons(t)
  {
    if s == "" {
      assert s + t == t;
    } else {
      assert (s + t)[1..] == s[1..] + t;
      ColonsOfConcat(s[1..], t);
    }
  }

  /** The parts of a key contain colons themselves, so the key does not always tell configurations
      apart: configurations with equal keys are equal exactly when their base URLs have equally many
      colons and so have their shard counts. */
  lemma KeyTellsApart(c: Config, d: Config)
    requires CacheKey(c) == CacheKey(d)
    ensures c == d <==> Colons(c.apiBaseUrl) == Colons(d.apiBaseUrl) && Colons(c.shardCount) == Colons(d.shardCount)
  {
    if Colons(c.apiBaseUrl) == Colons(d.apiBaseUrl) && Colons(c.shardCount) == Colons(d.shardCount) {
      ColonsOfTail(c);
      ColonsOfTail(d);
      SameColons(c.corsOrigins, c.apiBaseUrl + ":" + c.shardCount, d.corsOrigins, d.apiBaseUrl + ":" + d.shardCount);
      SameColons(c.apiBaseUrl, c.shardCount, d.apiBaseUrl, d.shardCount);
    }
  }

  lemma ColonsOfTail(c: Config)
    ensures Colons(c.apiBaseUrl + ":" + c.shardCount) == Colons(c.apiBaseUrl) + 1 + Colons(c.shardCount)
  {
    ColonsOfConcat(c.apiBaseUrl + ":", c.shardCount);
    ColonsOfConcat(c.apiBaseUrl, ":");
  }

  lemma SameColons(a: string, x: string, b: string, y: string)
    requires a + ":" + x == b + ":" + y && Colons(x) == Colons(y)
    ensures a == b && x == y
  {
    if |a| < |b| {
      Longer(a, x, b, y);
    } else if |b| < |a| {
      Longer(b, y, a, x);
    } else {
      assert a == (a + ":" + x)[..|a|] && b == (b + ":" + y)[..|b|];
      assert x == (a + ":" + x)[|a| + 1..] && y == (b + ":" + y)[|b| + 1..];
    }
  }

  lemma Longer(a: string, x: string, b: string, y: string)
    requires a + ":" + x == b + ":" + y && |a| < |b|
    ensures Colons(x) > Colons(y)
  {
    var s := a + ":" + x;
    var middle := s[|a| + 1..|b|];
    assert x == s[|a| + 1..] && y == s[|b| + 1..] && s[|b|] == ':';
    assert x == middle + (":" + y);
    ColonsOfConcat(middle, ":" + y);
    assert (":" + y)[1..] == y;
  }

  /** Two configurations that share a key. */
  lemma KeysCollide()
    ensures CacheKey(Config("a:b", "c", "1")) == CacheKey(Config("a", "b:c", "1"))
  {
    assert "a:b" + ":" + ("c" + ":" + "1") == "a" + ":" + ("b:c" + ":" + "1");
  }
}
