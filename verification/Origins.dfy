/** Origin lists: how they are read from configuration, when an origin matches, and the CORS
    headers that follow. URL parsing is a parameter, `parse`. */
module Origins {
  import opened Text

  /** What the matcher looks at in a parsed URL; the port is the explicit or the known default one. */
  datatype Url = Url(scheme: string, host: Option<string>, port: Option<nat>)

  type Parser = string -> Option<Url>

  datatype AllowedOrigins = AllowedOrigins(patterns: seq<string>, containsGlobalWildcard: bool)

  // ---------------------------------------------------------------- reading the list

  /** `map(trim).filter(non-empty)`. */
  function Cleaned(pieces: seq<string>): seq<string> {
    if pieces == [] then []
    else
      var p := Trim(pieces[0]);
      (if p == "" then [] else [p]) + Cleaned(pieces[1..])
  }

  /** `None` is the error for a list with nothing in it. */
  function NewOrigins(raw: string): Option<AllowedOrigins> {
    var list := Cleaned(Split(raw, ","));
    if list == [] then None else Some(AllowedOrigins(list, "*" in list))
  }

  predicate CleanPattern(p: string) {
    p != "" && Trimmed(p) && ',' !in p
  }

  lemma {:induction false} CleanedOfClean(list: seq<string>)
    requires forall p | p in list :: CleanPattern(p)
    ensures Cleaned(list) == list
  {
    if list != [] {
      assert list[0] in list;
      TrimOfTrimmed(list[0]);
      CleanedOfClean(list[1..]);
    }
  }

  lemma {:induction false} CleanedIsClean(pieces: seq<string>)
    requires forall p | p in pieces :: ',' !in p
    ensures forall p | p in Cleaned(pieces) :: CleanPattern(p)
  {
    if pieces != [] {
      assert pieces[0] in pieces;
      TrimTrims(pieces[0]);
      CleanedIsClean(pieces[1..]);
    }
  }

  /** Reading the comma-join of clean patterns returns them, and flags the global wildcard exactly
      when `*` is among them. */
  lemma ListRoundTrip(patterns: seq<string>)
    requires patterns != [] && forall p | p in patterns :: CleanPattern(p)
    ensures NewOrigins(Join(patterns, ",")) == Some(AllowedOrigins(patterns, "*" in patterns))
  {
    SplitOfJoin(patterns, ",");
    CleanedOfClean(patterns);
  }

  /** Whatever text was read, the list it gave is the one its own join gives. */
  lemma ReadingIsStable(raw: string)
    requires NewOrigins(raw).Some?
    ensures NewOrigins(Join(NewOrigins(raw).value.patterns, ",")) == NewOrigins(raw)
  {
    SplitPieces(raw, ",");
    CleanedIsClean(Split(raw, ","));
    ListRoundTrip(NewOrigins(raw).value.patterns);
  }

  /** Each piece gives what is left when the white space around it is dropped, and a blank one nothing. */
  lemma CleanedMeans(pre: string, p: string, post: string, rest: seq<string>)
    requires Blank(pre) && Blank(post) && Trimmed(p)
    ensures Cleaned([pre + p + post] + rest) == (if p == "" then [] else [p]) + Cleaned(rest)
    ensures Cleaned([]) == []
  {
    TrimOfPadded(pre, p, post);
    assert ([pre + p + post] + rest)[1..] == rest;
  }

  lemma BlankIsTrimmedAway(s: string)
    ensures Trim(s) == "" <==> Blank(s)
  {
    if Blank(s) {
      assert "" + "" + s == s;
      TrimOfPadded("", "", s);
    }
    if Trim(s) == "" {
      TrimmedAwayIsBlank(s);
    }
  }

  lemma TrimmedAwayIsBlank(s: string)
    requires Trim(s) == ""
    ensures Blank(s)
  {
    TrimStartTrims(s);
    var t := TrimStart(s);
    if t != "" {
      EndKept(t);
    }
    StartDropped(s);
  }

  lemma {:induction false} EndKept(t: string)
    requires t != "" && !IsWhitespace(t[0])
    ensures TrimEnd(t) != ""
  {
    if IsWhitespace(t[|t| - 1]) {
      EndKept(t[..|t| - 1]);
    }
  }

  lemma {:induction false} StartDropped(s: string)
    requires TrimStart(s) == ""
    ensures Blank(s)
  {
    if s != "" {
      StartDropped(s[1..]);
      assert s == [s[0]] + s[1..];
    }
  }

  lemma {:induction false} CleanedEmpty(pieces: seq<string>)
    ensures Cleaned(pieces) == [] <==> forall p | p in pieces :: Blank(p)
  {
    if pieces != [] {
      BlankIsTrimmedAway(pieces[0]);
      CleanedEmpty(pieces[1..]);
      assert pieces == [pieces[0]] + pieces[1..];
    }
  }

  /** A list is refused exactly when there is nothing but white space between its commas. */
  lemma RefusedMeans(raw: string)
    ensures NewOrigins(raw) == None <==> forall p | p in Split(raw, ",") :: Blank(p)
  {
    CleanedEmpty(Split(raw, ","));
  }

  // ---------------------------------------------------------------- matching

  function MatchesSubdomainWildcard(pattern: string, origin: Url, parse: Parser): bool {
    match parse(Replace(pattern, "*.", "wildcard."))
    case None => false
    case Some(p) =>
      p.scheme == origin.scheme && p.port == origin.port && p.host.Some? && origin.host.Some? &&
      var suffix := GetOr(StripPrefix(p.host.value, "wildcard."), p.host.value);
      EndsWith(LowerCase(origin.host.value), "." + LowerCase(suffix))
  }

  function MatchesPattern(pattern: string, origin: Url, parse: Parser): bool {
    if pattern == "*" then true
    else if Find(pattern, "://*.").Some? then MatchesSubdomainWildcard(pattern, origin, parse)
    else parse(pattern) == Some(origin)
  }

  function Matches(o: AllowedOrigins, origin: string, parse: Parser): bool {
    match parse(origin)
    case None => false
    case Some(url) => exists p | p in o.patterns :: MatchesPattern(p, url, parse)
  }

  function AllowsCredentials(o: AllowedOrigins, origin: string, parse: Parser): bool {
    !o.containsGlobalWildcard && Matches(o, origin, parse)
  }

  function Labels(host: string): seq<string> {
    Split(host, ".")
  }

  predicate ProperLabelSuffix(host: seq<string>, suffix: seq<string>) {
    |suffix| < |host| && host[|host| - |suffix|..] == suffix
  }

  lemma SuffixHasLabels(host: string, suffix: string)
    requires EndsWith(host, "." + suffix)
    ensures ProperLabelSuffix(Labels(host), Labels(suffix))
  {
    var front := host[..|host| - |suffix| - 1];
    assert host == front + "." + suffix;
    SplitOfConcat(front, suffix, ".");
    var tail := Labels(suffix);
    assert (Labels(front) + tail)[|Labels(front)|..] == tail;
  }

  lemma LabelsMakeSuffix(host: string, suffix: string)
    requires ProperLabelSuffix(Labels(host), Labels(suffix))
    ensures EndsWith(host, "." + suffix)
  {
    var labels, tail := Labels(host), Labels(suffix);
    var front := labels[..|labels| - |tail|];
    assert labels == front + tail;
    JoinOfSplit(host, ".");
    JoinOfSplit(suffix, ".");
    JoinOfConcat(front, tail, ".");
    EndOfConcat(Join(front, "."), suffix);
  }

  lemma EndOfConcat(front: string, suffix: string)
    ensures EndsWith(front + "." + suffix, "." + suffix)
  {
    var s := front + "." + suffix;
    assert s[|s| - |"." + suffix|..] == "." + suffix;
  }

  /** Ending in a dot and the suffix is the same as having the suffix's labels, and more, at the end. */
  lemma SuffixIsLabels(host: string, suffix: string)
    ensures EndsWith(host, "." + suffix) <==> ProperLabelSuffix(Labels(host), Labels(suffix))
  {
    if EndsWith(host, "." + suffix) {
      SuffixHasLabels(host, suffix);
    }
    if ProperLabelSuffix(Labels(host), Labels(suffix)) {
      LabelsMakeSuffix(host, suffix);
    }
  }

  /** Neither the bare domain nor a longer name that merely ends in its letters has its labels. */
  lemma NoLookalikes(suffix: string, evil: string)
    ensures !ProperLabelSuffix(Labels(suffix), Labels(suffix))
    ensures ProperLabelSuffix(Labels(evil + suffix), Labels(suffix)) <==> EndsWith(evil, ".")
  {
    SuffixIsLabels(evil + suffix, suffix);
    var host := evil + suffix;
    if evil != "" {
      assert host[|host| - |suffix| - 1..] == [evil[|evil| - 1]] + suffix;
      assert evil[|evil| - 1..] == [evil[|evil| - 1]];
      assert ([evil[|evil| - 1]] + suffix)[0] == evil[|evil| - 1] && ("." + suffix)[0] == '.';
    }
  }

  /** No occurrence of the star and dot lies across another one. */
  lemma {:induction false} FindAtStar(a: string, b: string)
    ensures Find(a + "*." + b, "*.") == if Find(a, "*.").Some? then Find(a, "*.") else Some(|a|)
  {
    var s := a + "*." + b;
    if a == "" {
      assert s[..2] == "*.";
    } else {
      assert s[1..] == a[1..] + "*." + b;
      assert s[1] == if |a| == 1 then '*' else a[1];
      FindAtStar(a[1..], b);
    }
  }

  lemma {:induction false} SplitAtStar(a: string, b: string)
    ensures Split(a + "*." + b, "*.") == Split(a, "*.") + Split(b, "*.")
    decreases |a|
  {
    hide Find, Split;
    FindAtStar(a, b);
    var s := a + "*." + b;
    match Find(a, "*.")
    case None =>
      SplitNotFound(a, "*.");
      SplitAtFound(s, "*.", |a|);
      assert s[..|a|] == a && s[|a| + 2..] == b;
    case Some(i) =>
      SplitAtFound(a, "*.", i);
      SplitAtFound(s, "*.", i);
      var tail := a[i + 2..];
      assert s[..i] == a[..i] && s[i + 2..] == tail + "*." + b;
      SplitAtStar(tail, b);
      Assoc([a[..i]], Split(tail, "*."), Split(b, "*."));
  }

  function Starless(pattern: string): string {
    Replace(pattern, "*.", "wildcard.")
  }

  /** Every `*.` becomes `wildcard.`, the one singled out and all the others. */
  lemma StarlessOfConcat(a: string, b: string)
    ensures Starless(a + "*." + b) == Starless(a) + "wildcard." + Starless(b)
  {
    SplitAtStar(a, b);
    JoinOfConcat(Split(a, "*."), Split(b, "*."), "wildcard.");
  }

  /** A subdomain pattern matches exactly the origins of its scheme and port whose host has the labels
      of the pattern's domain, case folded, and at least one more in front; `domain` is what the URL
      parser leaves after the wildcard once every other `*.` of the pattern is replaced too. */
  lemma WildcardMeansSubdomain(scheme: string, rest: string, domain: string, p: Url, origin: Url, parse: Parser)
    requires parse(Starless(scheme + "://") + "wildcard." + Starless(rest)) == Some(p)
    requires p.host == Some("wildcard." + domain)
    ensures MatchesSubdomainWildcard(scheme + "://" + "*." + rest, origin, parse) <==>
              && p.scheme == origin.scheme && p.port == origin.port && origin.host.Some?
              && ProperLabelSuffix(Labels(LowerCase(origin.host.value)), Labels(LowerCase(domain)))
  {
    StarlessOfConcat(scheme + "://", rest);
    assert ("wildcard." + domain)[|"wildcard."|..] == domain;
    if origin.host.Some? {
      SuffixIsLabels(LowerCase(origin.host.value), LowerCase(domain));
    }
  }

  lemma NoStar(s: string)
    requires '*' !in s
    ensures Starless(s) == s
  {
    SplitOnceAbsent(s, "*.");
  }

  lemma LowerOfConcat(a: string, b: string)
    ensures LowerCase(a + b) == LowerCase(a) + LowerCase(b)
  {
  }

  lemma LowerWildcard()
    ensures LowerCase("wildcard.") == "wildcard."
  {
  }

  /** A second `*.`, wherever it stands, matches no label but the literal `wildcard`: for a pattern
      whose host is `*.middle*.after`, and a parser that reads the host as it is written, the matching
      hosts are those that end in `middle`, `wildcard.` and `after`, with at least a label in front. */
  lemma SecondStarIsLiteral(scheme: string, middle: string, after: string, p: Url, origin: Url, parse: Parser)
    requires '*' !in scheme && '*' !in middle && '*' !in after
    requires parse(scheme + "://" + "wildcard." + (middle + "wildcard." + after)) == Some(p)
    requires p.host == Some("wildcard." + (middle + "wildcard." + after))
    ensures MatchesSubdomainWildcard(scheme + "://" + "*." + (middle + "*." + after), origin, parse) <==>
              && p.scheme == origin.scheme && p.port == origin.port && origin.host.Some?
              && EndsWith(LowerCase(origin.host.value),
                          "." + (LowerCase(middle) + "wildcard." + LowerCase(after)))
  {
    hide Starless, MatchesSubdomainWildcard, ProperLabelSuffix, EndsWith, Labels, LowerCase;
    NoStar(scheme + "://");
    NoStar(middle);
    NoStar(after);
    StarlessOfConcat(middle, after);
    WildcardMeansSubdomain(scheme, middle + "*." + after, middle + "wildcard." + after, p, origin, parse);
    LowerOfConcat(middle + "wildcard.", after);
    LowerOfConcat(middle, "wildcard.");
    LowerWildcard();
    if origin.host.Some? {
      SuffixIsLabels(LowerCase(origin.host.value), LowerCase(middle + "wildcard." + after));
    }
  }

  /** So two leading stars do not match a host two labels below the domain, whatever the labels are,
      unless the lower of them is `wildcard`. */
  lemma TwoStarsMissTwoLabels(scheme: string, after: string, x: string, y: string, p: Url, origin: Url, parse: Parser)
    requires '*' !in scheme && '*' !in after && '.' !in y && LowerCase(y) != "wildcard"
    requires parse(scheme + "://" + "wildcard." + ("" + "wildcard." + after)) == Some(p)
    requires p.host == Some("wildcard." + ("" + "wildcard." + after))
    requires origin.host == Some(x + "." + y + "." + after)
    ensures !MatchesSubdomainWildcard(scheme + "://" + "*." + ("" + "*." + after), origin, parse)
  {
    SecondStarIsLiteral(scheme, "", after, p, origin, parse);
    var host := LowerCase(x + "." + y + "." + after);
    var tail := "wildcard." + LowerCase(after);
    assert "." + (LowerCase("") + "wildcard." + LowerCase(after)) == "." + tail;
    LowerOfConcat(x + "." + y + ".", after);
    LowerOfConcat(x + "." + y, ".");
    LowerOfConcat(x + ".", y);
    LowerOfConcat(x, ".");
    if EndsWith(host, "." + tail) {
      LowerDot(y);
      LastLabel(LowerCase(x), LowerCase(y), LowerCase(after), host);
    }
  }

  lemma LowerDot(y: string)
    requires '.' !in y
    ensures '.' !in LowerCase(y) && LowerCase(".") == "."
  {
  }

  /** The label before `after`. */
  lemma LastLabel(x: string, y: string, after: string, host: string)
    requires host == x + "." + y + "." + after && '.' !in y
    requires EndsWith(host, "." + ("wildcard." + after))
    ensures y == "wildcard"
  {
    var front := host[..|host| - |after| - 1];
    assert front == x + "." + y;
    var k := |host| - |"." + ("wildcard." + after)|;
    assert host == host[..k] + ("." + ("wildcard." + after));
    assert front == host[..k] + "." + "wildcard";
    LastSeparator(x, y, host[..k], "wildcard", '.');
  }

  /** What follows the wildcard in the host of a parsed pattern. */
  function DomainOf(host: string): string {
    if "wildcard." <= host then host[9..] else host
  }

  /** What a pattern allows: `*` every origin; one with a wildcard host the origins of its scheme and
      port with the labels of its domain and at least one more in front; any other the origins of its
      scheme, host and port. */
  ghost predicate Allows(pattern: string, origin: Url, parse: Parser) {
    if pattern == "*" then true
    else if exists j: nat :: OccursAt(pattern, "://*.", j) then
      exists p :: parse(Starless(pattern)) == Some(p)
        && p.scheme == origin.scheme && p.port == origin.port && p.host.Some? && origin.host.Some?
        && ProperLabelSuffix(Labels(LowerCase(origin.host.value)), Labels(LowerCase(DomainOf(p.host.value))))
    else
      exists p :: parse(pattern) == Some(p)
        && p.scheme == origin.scheme && p.host == origin.host && p.port == origin.port
  }

  lemma PatternMeans(pattern: string, origin: Url, parse: Parser)
    ensures MatchesPattern(pattern, origin, parse) <==> Allows(pattern, origin, parse)
  {
    hide Find, LowerCase, Labels, Replace, ProperLabelSuffix, OccursAt;
    FindMeans(pattern, "://*.");
    var p := parse(Starless(pattern));
    if p.Some? && p.value.host.Some? && origin.host.Some? {
      SuffixIsLabels(LowerCase(origin.host.value), LowerCase(DomainOf(p.value.host.value)));
    }
    StarlessIs(pattern);
    assert |"wildcard."| == 9;
  }

  lemma StarlessIs(pattern: string)
    ensures Starless(pattern) == Replace(pattern, "*.", "wildcard.")
  {
  }

  ghost predicate AllowsSome(patterns: seq<string>, origin: string, parse: Parser) {
    exists url, p :: parse(origin) == Some(url) && p in patterns && Allows(p, url, parse)
  }

  /** An origin matches a list exactly when it parses and some pattern of the list allows it. */
  lemma MatchesMeans(o: AllowedOrigins, origin: string, parse: Parser)
    ensures Matches(o, origin, parse) <==> AllowsSome(o.patterns, origin, parse)
  {
    hide MatchesPattern, Allows;
    forall p, url
      ensures MatchesPattern(p, url, parse) <==> Allows(p, url, parse)
    {
      PatternMeans(p, url, parse);
    }
  }

  /** A list without wildcards matches exactly the origins of one of its schemes, hosts and ports. */
  lemma ExactListMeans(o: AllowedOrigins, origin: string, parse: Parser)
    requires forall p | p in o.patterns :: p != "*" && forall j: nat :: !OccursAt(p, "://*.", j)
    ensures Matches(o, origin, parse) <==>
              exists url, p, q :: parse(origin) == Some(url) && p in o.patterns && parse(p) == Some(q)
                && q.scheme == url.scheme && q.host == url.host && q.port == url.port
  {
    MatchesMeans(o, origin, parse);
  }

  // ---------------------------------------------------------------- accepted configurations

  datatype ConfigError = InvalidOrigins | WildcardInProduction

  datatype Config = Config(allowed: AllowedOrigins, cors: AllowedOrigins, environment: string)

  datatype Loaded = Ready(config: Config) | Rejected(error: ConfigError)

  function Lenient(environment: Option<string>): bool {
    environment == Some("sandbox") || environment == Some("development")
  }

  function FromWorkerEnv(allowed: string, cors: string, environment: Option<string>): Loaded {
    match NewOrigins(allowed)
    case None => Rejected(InvalidOrigins)
    case Some(a) =>
      if !Lenient(environment) && a.containsGlobalWildcard then Rejected(WildcardInProduction)
      else
        match NewOrigins(cors)
        case None => Rejected(InvalidOrigins)
        case Some(c) =>
          if !Lenient(environment) && c.containsGlobalWildcard then Rejected(WildcardInProduction)
          else Ready(Config(a, c, GetOr(environment, "production")))
  }

  /** A configuration is accepted exactly when both lists have something in them and, unless the
      environment is `sandbox` or `development`, neither has `*`; an empty list is reported before a
      wildcard in the second one and after a wildcard in the first. */
  lemma LoadMeans(allowed: string, cors: string, environment: Option<string>)
    ensures var a, c := NewOrigins(allowed), NewOrigins(cors);
            var lenient := environment == Some("sandbox") || environment == Some("development");
            var starA, starC := a.Some? && "*" in a.value.patterns, c.Some? && "*" in c.value.patterns;
            var loaded := FromWorkerEnv(allowed, cors, environment);
            && (loaded.Ready? <==> a.Some? && c.Some? && (lenient || (!starA && !starC)))
            && (loaded.Ready? ==> loaded.config == Config(a.value, c.value, GetOr(environment, "production")))
            && (loaded == Rejected(WildcardInProduction) <==> !lenient && (starA || (a.Some? && starC)))
            && (loaded == Rejected(InvalidOrigins) <==> a.None? || (c.None? && (lenient || !starA)))
  {
  }

  // ---------------------------------------------------------------- CORS headers

  /** What a response grants the requesting origin. */
  datatype Grant = Nothing | Anonymous | Credentialed

  function GrantOf(matches: bool, credentials: bool): Grant {
    if !matches then Nothing else if credentials then Credentialed else Anonymous
  }

  /** The grant of an ordinary response: a sandbox reflects every origin, without credentials. */
  function NormalGrant(cfg: Config, origin: string, parse: Parser): Grant {
    var sandbox := cfg.environment == "sandbox";
    if origin == "" then Nothing
    else GrantOf(sandbox || Matches(cfg.cors, origin, parse), !sandbox && AllowsCredentials(cfg.cors, origin, parse))
  }

  function PreflightGrant(cfg: Config, origin: string, parse: Parser): Grant {
    if origin == "" then Nothing
    else GrantOf(Matches(cfg.cors, origin, parse), AllowsCredentials(cfg.cors, origin, parse))
  }

  /** The response headers the CORS code sets, and the security headers set before it. */
  datatype Header =
    | AccessControlAllowOrigin
    | AccessControlAllowCredentials
    | AccessControlAllowMethods
    | AccessControlAllowHeaders
    | AccessControlMaxAge
    | Vary
    | XRequestId
    | SecurityHeader(name: string)

  function WithGrant(h: map<Header, string>, origin: string, g: Grant): map<Header, string> {
    var h := if g == Nothing then h else h[AccessControlAllowOrigin := origin];
    if g == Credentialed then h[AccessControlAllowCredentials := "true"] else h
  }

  function WithBaseline(h: map<Header, string>): map<Header, string> {
    h[AccessControlAllowMethods := "GET, POST, OPTIONS"]
     [AccessControlAllowHeaders := "Content-Type, X-API-Version, X-API-Key, Idempotency-Key, X-CSRF-Token"]
     [AccessControlMaxAge := "86400"]
     [Vary := "Origin"]
  }

  class Headers {
    var entries: map<Header, string>

    constructor (initial: map<Header, string>)
      ensures entries == initial
    {
      entries := initial;
    }

    method Set(name: Header, value: string)
      modifies this
      ensures entries == old(entries)[name := value]
    {
      entries := entries[name := value];
    }
  }

  method SetBaseline(h: Headers)
    modifies h
    ensures h.entries == WithBaseline(old(h.entries))
  {
    h.Set(AccessControlAllowMethods, "GET, POST, OPTIONS");
    h.Set(AccessControlAllowHeaders, "Content-Type, X-API-Version, X-API-Key, Idempotency-Key, X-CSRF-Token");
    h.Set(AccessControlMaxAge, "86400");
    h.Set(Vary, "Origin");
  }

  /** `h` already holds the security headers. */
  method AddSecurityAndCorsHeaders(h: Headers, originHeader: Option<string>, cfg: Config, requestId: string,
                                   parse: Parser)
    modifies h
    ensures var origin := GetOr(originHeader, "");
            var sent := WithBaseline(WithGrant(old(h.entries), origin, NormalGrant(cfg, origin, parse)));
            h.entries == sent[XRequestId := requestId]
  {
    var origin := GetOr(originHeader, "");
    if origin != "" {
      var sandbox := cfg.environment == "sandbox";
      var originMatches := sandbox || Matches(cfg.cors, origin, parse);
      var credentials := if sandbox then false else AllowsCredentials(cfg.cors, origin, parse);
      if originMatches {
        h.Set(AccessControlAllowOrigin, origin);
        if credentials {
          h.Set(AccessControlAllowCredentials, "true");
        }
      }
    }
    SetBaseline(h);
    h.Set(XRequestId, requestId);
  }

  method HandleOptions(h: Headers, originHeader: Option<string>, cfg: Config, parse: Parser)
    modifies h
    ensures var origin := GetOr(originHeader, "");
            h.entries == WithBaseline(WithGrant(old(h.entries), origin, PreflightGrant(cfg, origin, parse)))
  {
    var origin := GetOr(originHeader, "");
    if origin != "" {
      var originMatches := Matches(cfg.cors, origin, parse);
      var credentials := AllowsCredentials(cfg.cors, origin, parse);
      if originMatches {
        h.Set(AccessControlAllowOrigin, origin);
        if credentials {
          h.Set(AccessControlAllowCredentials, "true");
        }
      }
    }
    SetBaseline(h);
  }

  /** What a browser sees of the grant in the headers that were set. */
  lemma GrantIsVisible(h: map<Header, string>, origin: string, g: Grant)
    requires AccessControlAllowOrigin !in h && AccessControlAllowCredentials !in h
    ensures var sent := WithBaseline(WithGrant(h, origin, g));
            && (AccessControlAllowOrigin in sent <==> g != Nothing)
            && (AccessControlAllowCredentials in sent <==> g == Credentialed)
            && (AccessControlAllowOrigin in sent ==> sent[AccessControlAllowOrigin] == origin)
  {
  }

  /** For every accepted configuration that is neither sandbox nor development, every origin and the
      same security headers: preflight and response send the same CORS headers, and
      Allow-Credentials exactly when Allow-Origin, which is exactly when some pattern of the configured
      list allows the origin. */
  lemma ProductionCors(allowed: string, cors: string, environment: Option<string>, origin: string, parse: Parser,
                       h: map<Header, string>)
    requires FromWorkerEnv(allowed, cors, environment).Ready?
    requires environment != Some("sandbox") && environment != Some("development")
    requires AccessControlAllowOrigin !in h && AccessControlAllowCredentials !in h
    ensures NewOrigins(cors).Some?
    ensures var cfg := FromWorkerEnv(allowed, cors, environment).config;
            var normal := WithBaseline(WithGrant(h, origin, NormalGrant(cfg, origin, parse)));
            var preflight := WithBaseline(WithGrant(h, origin, PreflightGrant(cfg, origin, parse)));
            && normal == preflight
            && (AccessControlAllowCredentials in normal <==> AccessControlAllowOrigin in normal)
            && (AccessControlAllowOrigin in normal ==> normal[AccessControlAllowOrigin] == origin)
            && (AccessControlAllowOrigin in normal <==>
                  origin != "" && AllowsSome(NewOrigins(cors).value.patterns, origin, parse))
  {
    hide Matches, NewOrigins, AllowsSome;
    var cfg := FromWorkerEnv(allowed, cors, environment).config;
    GrantIsVisible(h, origin, NormalGrant(cfg, origin, parse));
    MatchesMeans(cfg.cors, origin, parse);
  }

  /** The same, down to the configured patterns: with `cors` the comma-join of clean patterns other than
      `*`, an origin is granted credentials exactly when one of these patterns allows it. */
  lemma ConfiguredGrant(allowed: string, patterns: seq<string>, environment: Option<string>, origin: string,
                        parse: Parser)
    requires NewOrigins(allowed).Some? && "*" !in NewOrigins(allowed).value.patterns
    requires patterns != [] && "*" !in patterns && forall p | p in patterns :: CleanPattern(p)
    requires environment != Some("sandbox") && origin != ""
    ensures var loaded := FromWorkerEnv(allowed, Join(patterns, ","), environment);
            var grant := if AllowsSome(patterns, origin, parse) then Credentialed else Nothing;
            && loaded.Ready?
            && NormalGrant(loaded.config, origin, parse) == grant == PreflightGrant(loaded.config, origin, parse)
  {
    ListRoundTrip(patterns);
    LoadMeans(allowed, Join(patterns, ","), environment);
    hide Matches, NewOrigins, AllowsSome, FromWorkerEnv;
    MatchesMeans(AllowedOrigins(patterns, false), origin, parse);
  }

  /** Without that condition: the two agree on an origin exactly outside the sandbox, without an
      Origin header, or when the list matches it through a global wildcard; and a response names an
      origin without credentials exactly in a sandbox or through a global wildcard. */
  lemma CorsInGeneral(cfg: Config, origin: string, parse: Parser)
    ensures NormalGrant(cfg, origin, parse) == PreflightGrant(cfg, origin, parse) <==>
              || cfg.environment != "sandbox" || origin == ""
              || (Matches(cfg.cors, origin, parse) && cfg.cors.containsGlobalWildcard)
    ensures NormalGrant(cfg, origin, parse) == Anonymous <==>
              && origin != ""
              && (cfg.environment == "sandbox" || (Matches(cfg.cors, origin, parse) && cfg.cors.containsGlobalWildcard))
  {
  }
}
