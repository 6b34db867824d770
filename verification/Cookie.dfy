/** Session cookies: the Set-Cookie value that is printed and the Cookie header that is parsed. */
module Cookie {
  import opened Text
  import opened Decimal

  datatype SameSite = Lax | Strict | NoneSite

  function SameSiteText(s: SameSite): string {
    match s
    case Lax => "Lax"
    case Strict => "Strict"
    case NoneSite => "None"
  }

  datatype CookieConfig = CookieConfig(
    name: string, domain: Option<string>, path: string, maxAge: u64, httpOnly: bool, secure: bool, sameSite: SameSite)

  /** The cookie-octets of section 4.1.1 of RFC 6265. A character outside ASCII is bytes outside them. */
  predicate IsCookieOctet(c: char) {
    var n := c as int;
    n == 0x21 || 0x23 <= n <= 0x2B || 0x2D <= n <= 0x3A || 0x3C <= n <= 0x5B || 0x5D <= n <= 0x7E
  }

  predicate IsCookieValueSafe(value: string) {
    forall c | c in value :: IsCookieOctet(c)
  }

  /** The safe characters are the visible ones of ASCII without quotes, commas, semicolons and
      backslashes. */
  lemma SafeMeans(value: string)
    ensures IsCookieValueSafe(value) <==>
              forall c | c in value :: ' ' < c <= '~' && c != '"' && c != ',' && c != ';' && c != '\\'
  {
    forall c | c in value
      ensures IsCookieOctet(c) <==> ' ' < c <= '~' && c != '"' && c != ',' && c != ';' && c != '\\'
    {
      OctetMeans(c);
    }
  }

  lemma OctetMeans(c: char)
    ensures IsCookieOctet(c) <==> ' ' < c <= '~' && c != '"' && c != ',' && c != ';' && c != '\\'
  {
  }

  // ---------------------------------------------------------------- printing

  const HOST_PREFIX := "__Host-"

  /** A `__Host-` cookie is forced to Secure, Path=/ and no Domain. An empty domain is kept but not printed. */
  function Enforced(config: CookieConfig): CookieConfig {
    if StartsWith(config.name, HOST_PREFIX) then
      config.(domain := if GetOr(config.domain, "") != "" then None else config.domain, secure := true, path := "/")
    else config
  }

  function DomainPart(config: CookieConfig): seq<string> {
    if GetOr(config.domain, "") != "" then ["Domain=" + config.domain.value] else []
  }

  /** The attributes of a cookie in the order they are printed, the pair first. */
  function Attributes(token: string, config: CookieConfig): (parts: seq<string>)
    ensures |parts| >= 1
  {
    [config.name + "=" + token] + DomainPart(config) + ["Path=" + config.path] + ["Max-Age=" + Print(config.maxAge)]
      + (if config.httpOnly then ["HttpOnly"] else []) + (if config.secure then ["Secure"] else [])
      + ["SameSite=" + SameSiteText(config.sameSite)]
  }

  /** An unsafe token is replaced by a deletion of the cookie. */
  function Intended(token: string, config: CookieConfig): (parts: seq<string>)
    ensures |parts| >= 1
  {
    if IsCookieValueSafe(token) then Attributes(token, Enforced(config))
    else [config.name + "=invalid", "Path=/", "Max-Age=0", "HttpOnly", "Secure", "SameSite=None"]
  }

  method Enforce(config: CookieConfig) returns (fixed: CookieConfig)
    ensures fixed == Enforced(config)
  {
    fixed := config;
    if StartsWith(config.name, HOST_PREFIX) {
      if fixed.domain.Some? && fixed.domain.value != "" {
        fixed := fixed.(domain := None);
      }
      if !fixed.secure {
        fixed := fixed.(secure := true);
      }
      if fixed.path != "/" {
        fixed := fixed.(path := "/");
      }
    }
  }

  method GenerateSessionCookie(token: string, config: CookieConfig) returns (header: string)
    ensures header == Join(Intended(token, config), "; ")
  {
    if !IsCookieValueSafe(token) {
      header := config.name + "=invalid" + "; " + ("Path=/" + "; " + ("Max-Age=0" + "; " + ("HttpOnly" + "; " +
        ("Secure" + "; " + "SameSite=None"))));
      DeletionText(config.name);
      return;
    }
    var fixed := Enforce(config);
    var parts := [fixed.name + "=" + token];
    if fixed.domain.Some? && fixed.domain.value != "" {
      parts := parts + ["Domain=" + fixed.domain.value];
    }
    parts := parts + ["Path=" + fixed.path];
    parts := parts + ["Max-Age=" + Print(fixed.maxAge)];
    if fixed.httpOnly {
      parts := parts + ["HttpOnly"];
    }
    if fixed.secure {
      parts := parts + ["Secure"];
    }
    parts := parts + ["SameSite=" + SameSiteText(fixed.sameSite)];
    assert parts == Attributes(token, fixed);
    header := Join(parts, "; ");
  }

  lemma DeletionText(name: string)
    ensures Join([name + "=invalid", "Path=/", "Max-Age=0", "HttpOnly", "Secure", "SameSite=None"], "; ") ==
              name + "=invalid" + "; " + ("Path=/" + "; " + ("Max-Age=0" + "; " + ("HttpOnly" + "; " +
              ("Secure" + "; " + "SameSite=None"))))
  {
    var t4 := ["Secure"] + ["SameSite=None"];
    JoinOfCons("Secure", ["SameSite=None"], "; ");
    var t3 := ["HttpOnly"] + t4;
    JoinOfCons("HttpOnly", t4, "; ");
    var t2 := ["Max-Age=0"] + t3;
    JoinOfCons("Max-Age=0", t3, "; ");
    var t1 := ["Path=/"] + t2;
    JoinOfCons("Path=/", t2, "; ");
    JoinOfCons(name + "=invalid", t1, "; ");
    assert [name + "=invalid"] + t1 ==
             [name + "=invalid", "Path=/", "Max-Age=0", "HttpOnly", "Secure", "SameSite=None"];
  }

  predicate NoSemicolon(s: string) {
    ';' !in s
  }

  /** What is copied into the header has no semicolon. A `__Host-` name has its path and domain
      replaced, and a deletion prints neither, so then only the name matters. */
  predicate SeparatorFree(token: string, config: CookieConfig) {
    NoSemicolon(config.name) &&
    var printed := Enforced(config);
    IsCookieValueSafe(token) ==> NoSemicolon(printed.path) && NoSemicolon(GetOr(printed.domain, ""))
  }

  lemma AttributesClean(token: string, config: CookieConfig)
    requires NoSemicolon(config.name) && NoSemicolon(config.path) && NoSemicolon(GetOr(config.domain, ""))
    requires NoSemicolon(token)
    ensures forall p | p in Attributes(token, config) :: NoSemicolon(p)
  {
    assert NoSemicolon(Print(config.maxAge)) by {
      assert !IsDigit(';');
    }
  }

  /** Splitting the header at its separator gives back exactly the intended attributes: no token and
      no separator-free configuration can add, hide or split one. */
  lemma SetCookieStructure(token: string, config: CookieConfig)
    requires SeparatorFree(token, config)
    ensures Split(Join(Intended(token, config), "; "), "; ") == Intended(token, config)
  {
    if IsCookieValueSafe(token) {
      AttributesClean(token, Enforced(config));
    }
    assert forall p | p in Intended(token, config) :: "; "[0] !in p;
    SplitOfJoin(Intended(token, config), "; ");
  }

  /** The value of the first part `name=value`. */
  function AttributeOf(parts: seq<string>, name: string): Option<string> {
    if parts == [] then None
    else match SplitOnce(parts[0], "=")
         case Some((key, value)) => if key == name then Some(value) else AttributeOf(parts[1..], name)
         case None => AttributeOf(parts[1..], name)
  }

  lemma {:induction false} AttributeOfConcat(a: seq<string>, b: seq<string>, name: string)
    ensures AttributeOf(a + b, name) ==
              if AttributeOf(a, name).Some? then AttributeOf(a, name) else AttributeOf(b, name)
  {
    hide SplitOnce;
    if a == [] {
      assert a + b == b;
    } else {
      assert (a + b)[0] == a[0] && (a + b)[1..] == a[1..] + b;
      AttributeOfConcat(a[1..], b, name);
    }
  }

  lemma AttributeOfPair(key: string, value: string, name: string)
    requires '=' !in key
    ensures AttributeOf([key + "=" + value], name) == if key == name then Some(value) else None
  {
    SplitOnceAfter(key, "=", value);
  }

  lemma AttributeOfFlags(flags: seq<string>, name: string)
    requires |flags| <= 1 && forall f | f in flags :: '=' !in f
    ensures AttributeOf(flags, name) == None
  {
    if flags != [] {
      SplitOnceAbsent(flags[0], "=");
    }
  }

  function DomainAttribute(domain: string): seq<string> {
    if domain == "" then [] else ["Domain" + "=" + domain]
  }

  function FlagPart(set_: bool, flag: string): seq<string> {
    if set_ then [flag] else []
  }

  /** The attributes after the pair, given what each is to say. */
  function Tail(domain: string, path: string, maxAge: string, httpOnly: bool, secure: bool,
                sameSite: string): seq<string> {
    DomainAttribute(domain) + (["Path" + "=" + path] + (["Max-Age" + "=" + maxAge] +
      (FlagPart(httpOnly, "HttpOnly") + (FlagPart(secure, "Secure") + ["SameSite" + "=" + sameSite]))))
  }

  lemma DomainAttributeSays(domain: string, name: string)
    ensures AttributeOf(DomainAttribute(domain), name) ==
              if domain != "" && name == "Domain" then Some(domain) else None
  {
    if domain != "" {
      assert "Domain"[0] == 'D' && '=' !in "Domain";
      AttributeOfPair("Domain", domain, name);
    }
  }

  lemma FlagSays(set_: bool, flag: string, name: string)
    requires '=' !in flag
    ensures AttributeOf(FlagPart(set_, flag), name) == None
  {
    AttributeOfFlags(FlagPart(set_, flag), name);
  }

  lemma TailSays(domain: string, path: string, maxAge: string, httpOnly: bool, secure: bool, sameSite: string,
                 name: string)
    ensures AttributeOf(Tail(domain, path, maxAge, httpOnly, secure, sameSite), name) ==
              if name == "Domain" then (if domain == "" then None else Some(domain))
              else if name == "Path" then Some(path)
              else if name == "Max-Age" then Some(maxAge)
              else if name == "SameSite" then Some(sameSite)
              else None
  {
    assert |"Domain"| == 6 && |"Path"| == 4 && |"Max-Age"| == 7 && |"SameSite"| == 8;
    assert '=' !in "Path" && '=' !in "Max-Age" && '=' !in "SameSite" && '=' !in "HttpOnly" && '=' !in "Secure";
    hide AttributeOf, DomainAttribute, FlagPart;
    var t5 := ["SameSite" + "=" + sameSite];
    var t4 := FlagPart(secure, "Secure") + t5;
    var t3 := FlagPart(httpOnly, "HttpOnly") + t4;
    var t2 := ["Max-Age" + "=" + maxAge] + t3;
    var t1 := ["Path" + "=" + path] + t2;
    AttributeOfConcat(DomainAttribute(domain), t1, name);
    AttributeOfConcat(["Path" + "=" + path], t2, name);
    AttributeOfConcat(["Max-Age" + "=" + maxAge], t3, name);
    AttributeOfConcat(FlagPart(httpOnly, "HttpOnly"), t4, name);
    AttributeOfConcat(FlagPart(secure, "Secure"), t5, name);
    DomainAttributeSays(domain, name);
    AttributeOfPair("Path", path, name);
    AttributeOfPair("Max-Age", maxAge, name);
    FlagSays(httpOnly, "HttpOnly", name);
    FlagSays(secure, "Secure", name);
    AttributeOfPair("SameSite", sameSite, name);
  }

  lemma TailFlags(domain: string, path: string, maxAge: string, httpOnly: bool, secure: bool, sameSite: string)
    ensures "HttpOnly" in Tail(domain, path, maxAge, httpOnly, secure, sameSite) <==> httpOnly
    ensures "Secure" in Tail(domain, path, maxAge, httpOnly, secure, sameSite) <==> secure
  {
    var flag, secureFlag := "HttpOnly", "Secure";
    assert flag[0] == 'H' && secureFlag[0] == 'S' && secureFlag[1] == 'e';
    assert ("Domain" + "=" + domain)[0] == 'D' && ("Path" + "=" + path)[0] == 'P';
    assert ("Max-Age" + "=" + maxAge)[0] == 'M';
    assert ("SameSite" + "=" + sameSite)[0] == 'S' && ("SameSite" + "=" + sameSite)[1] == 'a';
  }

  lemma AttributesAreTail(token: string, config: CookieConfig)
    ensures var domain := GetOr(config.domain, "");
            Attributes(token, config) == [config.name + "=" + token] +
              Tail(domain, config.path, Print(config.maxAge), config.httpOnly, config.secure,
                   SameSiteText(config.sameSite))
  {
    assert "Domain" + "=" == "Domain=" && "Path" + "=" == "Path=" && "Max-Age" + "=" == "Max-Age=";
    assert "SameSite" + "=" == "SameSite=";
    assert DomainPart(config) == DomainAttribute(GetOr(config.domain, ""));
  }

  /** What a browser reads back: the name and token; the path, domain and flags as configured, or as a
      `__Host-` cookie must have them; the configured age and SameSite mode. */
  lemma SetCookieSays(token: string, config: CookieConfig)
    requires IsCookieValueSafe(token) && SeparatorFree(token, config) && '=' !in config.name
    ensures var parts := Split(Join(Intended(token, config), "; "), "; ");
            var host, age := "__Host-" <= config.name, AttributeOf(parts[1..], "Max-Age");
            && SplitOnce(parts[0], "=") == Some((config.name, token))
            && AttributeOf(parts[1..], "Path") == Some(if host then "/" else config.path)
            && AttributeOf(parts[1..], "Domain") == (if host || config.domain == Some("") then None else config.domain)
            && age.Some? && Parse(age.value, U64_MAX) == Some(config.maxAge)
            && ("HttpOnly" in parts[1..] <==> config.httpOnly)
            && ("Secure" in parts[1..] <==> config.secure || host)
            && AttributeOf(parts[1..], "SameSite") == Some(match config.sameSite
                 case Lax => "Lax"
                 case Strict => "Strict"
                 case NoneSite => "None")
  {
    var c := Enforced(config);
    var domain, age, site := GetOr(c.domain, ""), Print(c.maxAge), SameSiteText(c.sameSite);
    SetCookieStructure(token, config);
    AttributesAreTail(token, c);
    var tail := Tail(domain, c.path, age, c.httpOnly, c.secure, site);
    FirstAndRest(config.name + "=" + token, tail);
    SplitOnceAfter(config.name, "=", token);
    ParseOfPrint(c.maxAge, U64_MAX);
    assert |"Domain"| == 6 && |"Path"| == 4 && |"Max-Age"| == 7 && |"SameSite"| == 8;
    hide Tail, AttributeOf, Attributes, Split, Join, SplitOnce, Parse, Print;
    TailSays(domain, c.path, age, c.httpOnly, c.secure, site, "Path");
    TailSays(domain, c.path, age, c.httpOnly, c.secure, site, "Domain");
    TailSays(domain, c.path, age, c.httpOnly, c.secure, site, "Max-Age");
    TailSays(domain, c.path, age, c.httpOnly, c.secure, site, "SameSite");
    TailFlags(domain, c.path, age, c.httpOnly, c.secure, site);
  }

  lemma FirstAndRest(first: string, rest: seq<string>)
    ensures ([first] + rest)[0] == first && ([first] + rest)[1..] == rest
  {
  }

  /** The attributes allowed next to the pair of a `__Host-` cookie. */
  predicate HostPart(part: string) {
    part == "Path=/" || (part != "" && part[0] != 'D' && part[0] != 'P')
  }

  lemma HostPartMeans(part: string)
    requires HostPart(part)
    ensures !StartsWith(part, "Domain=") && (StartsWith(part, "Path=") ==> part == "Path=/")
  {
    assert "Domain="[0] == 'D' && "Path="[0] == 'P' && "Path=/"[0] == 'P';
  }

  lemma HostName(name: string, rest: string)
    requires StartsWith(name, HOST_PREFIX)
    ensures HostPart(name + rest)
  {
    assert HOST_PREFIX[0] == '_' && (name + rest)[0] == '_';
  }

  lemma HostParts(token: string, config: CookieConfig)
    requires StartsWith(config.name, HOST_PREFIX)
    requires config.path == "/" && config.secure && GetOr(config.domain, "") == ""
    ensures "Path=/" in Attributes(token, config) && "Secure" in Attributes(token, config)
    ensures forall p | p in Attributes(token, config) :: HostPart(p)
  {
    Assoc(config.name, "=", token);
    HostName(config.name, "=" + token);
    assert "Path=" + config.path == "Path=/";
    assert ("Max-Age=" + Print(config.maxAge))[0] == 'M';
    assert ("SameSite=" + SameSiteText(config.sameSite))[0] == 'S';
    assert HostPart("HttpOnly") && HostPart("Secure");
  }

  lemma HostDeletionParts(name: string)
    requires StartsWith(name, HOST_PREFIX)
    ensures var parts := [name + "=invalid", "Path=/", "Max-Age=0", "HttpOnly", "Secure", "SameSite=None"];
            && "Path=/" in parts && "Secure" in parts && forall p | p in parts :: HostPart(p)
  {
    HostName(name, "=invalid");
    var parts := [name + "=invalid", "Path=/", "Max-Age=0", "HttpOnly", "Secure", "SameSite=None"];
    assert parts[1] == "Path=/" && parts[4] == "Secure";
  }

  /** A cookie whose name starts with `__Host-` has Path=/ and Secure and no Domain, whatever the
      token and whatever the configuration asks for. */
  lemma HostCookie(token: string, config: CookieConfig)
    requires NoSemicolon(config.name) && StartsWith(config.name, HOST_PREFIX)
    ensures Split(Join(Intended(token, config), "; "), "; ") == Intended(token, config)
    ensures var parts := Split(Join(Intended(token, config), "; "), "; ");
            && "Path=/" in parts && "Secure" in parts
            && forall p | p in parts :: !StartsWith(p, "Domain=") && (StartsWith(p, "Path=") ==> p == "Path=/")
  {
    SetCookieStructure(token, config);
    if IsCookieValueSafe(token) {
      HostParts(token, Enforced(config));
    } else {
      HostDeletionParts(config.name);
    }
    forall p | p in Intended(token, config)
      ensures !StartsWith(p, "Domain=") && (StartsWith(p, "Path=") ==> p == "Path=/")
    {
      HostPartMeans(p);
    }
  }

  // ---------------------------------------------------------------- parsing

  /** The value of the first piece named `name`. */
  function FirstNamed(pieces: seq<string>, name: string): Option<string> {
    if pieces == [] then None
    else match SplitOnce(Trim(pieces[0]), "=")
         case Some((key, value)) => if key == name then Some(value) else FirstNamed(pieces[1..], name)
         case None => FirstNamed(pieces[1..], name)
  }

  method ParseCookie(header: string, name: string) returns (value: Option<string>)
    ensures value == FirstNamed(Split(header, ";"), name)
  {
    var pieces := Split(header, ";");
    var i := 0;
    while i < |pieces|
      invariant i <= |pieces| && FirstNamed(pieces, name) == FirstNamed(pieces[i..], name)
    {
      var pair := SplitOnce(Trim(pieces[i]), "=");
      assert pieces[i..][1..] == pieces[i + 1..];
      if pair.Some? && pair.value.0 == name {
        return Some(pair.value.1);
      }
      i := i + 1;
    }
    value := None;
  }

  predicate IsNamed(piece: string, name: string) {
    var pair := SplitOnce(Trim(piece), "=");
    pair.Some? && pair.value.0 == name
  }

  /** The first piece with the name answers, whatever comes before it; a piece without `=` and one with
      another name are passed over. */
  lemma {:induction false} FirstNamedAt(pieces: seq<string>, name: string, i: nat)
    requires i < |pieces| && IsNamed(pieces[i], name) && forall j | 0 <= j < i :: !IsNamed(pieces[j], name)
    ensures FirstNamed(pieces, name) == Some(SplitOnce(Trim(pieces[i]), "=").value.1)
  {
    hide SplitOnce, Trim;
    if i > 0 {
      assert !IsNamed(pieces[0], name);
      FirstNamedAt(pieces[1..], name, i - 1);
    }
  }

  /** Nothing is found exactly when no piece has the name. */
  lemma {:induction false} FirstNamedNone(pieces: seq<string>, name: string)
    ensures FirstNamed(pieces, name) == None <==> forall i | 0 <= i < |pieces| :: !IsNamed(pieces[i], name)
  {
    hide SplitOnce, Trim;
    if pieces != [] {
      FirstNamedNone(pieces[1..], name);
      assert forall i | 0 < i < |pieces| :: pieces[i] == pieces[1..][i - 1];
    }
  }

  datatype Pair = Pair(name: string, value: string)

  function Texts(pairs: seq<Pair>): seq<string> {
    seq(|pairs|, i requires 0 <= i < |pairs| => pairs[i].name + "=" + pairs[i].value)
  }

  /** The Cookie header a browser sends, section 4.2.1 of RFC 6265. */
  function CookieHeader(pairs: seq<Pair>): string {
    Join(Texts(pairs), "; ")
  }

  function FirstValue(pairs: seq<Pair>, name: string): Option<string> {
    if pairs == [] then None
    else if pairs[0].name == name then Some(pairs[0].value)
    else FirstValue(pairs[1..], name)
  }

  /** A name without `;`, `=` or white space at its edges, a value of cookie-octets. */
  predicate Sendable(p: Pair) {
    ';' !in p.name && '=' !in p.name && Trimmed(p.name) && IsCookieValueSafe(p.value)
  }

  lemma TrimOfSpaced(s: string)
    requires s != "" && Trimmed(s)
    ensures Trim(" " + s) == s
  {
    assert (" " + s)[1..] == s;
    assert IsWhitespace(' ');
    TrimOfTrimmed(s);
  }

  lemma PairText(p: Pair)
    requires Sendable(p)
    ensures var text := p.name + "=" + p.value;
            ';' !in text && Trimmed(text) && text != "" && SplitOnce(text, "=") == Some((p.name, p.value))
  {
    var text := p.name + "=" + p.value;
    SplitOnceAfter(p.name, "=", p.value);
    assert !IsCookieOctet(';') && !IsWhitespace('=');
    assert forall c | IsCookieOctet(c) :: !IsWhitespace(c);
    assert text[0] == if p.name == "" then '=' else p.name[0];
    if p.value != "" {
      assert text[|text| - 1] == p.value[|p.value| - 1] && p.value[|p.value| - 1] in p.value;
    } else {
      assert text[|text| - 1] == '=';
    }
  }

  /** Splitting at `;` leaves the space of the separator at the front of all pieces but the first. */
  function Spaced(texts: seq<string>): seq<string> {
    seq(|texts|, i requires 0 <= i < |texts| => if i == 0 then texts[0] else " " + texts[i])
  }

  function AllSpaced(texts: seq<string>): seq<string> {
    seq(|texts|, i requires 0 <= i < |texts| => " " + texts[i])
  }

  lemma SpacedCons(texts: seq<string>)
    requires |texts| >= 1
    ensures Spaced(texts) == [texts[0]] + AllSpaced(texts[1..])
    ensures AllSpaced(texts) == [" " + texts[0]] + AllSpaced(texts[1..])
  {
  }

  lemma {:induction false} SplitOfHeader(texts: seq<string>)
    requires |texts| >= 1 && forall t | t in texts :: ';' !in t
    ensures Split(Join(texts, "; "), ";") == Spaced(texts)
  {
    hide Spaced, AllSpaced, Find;
    SpacedCons(texts);
    assert texts[0] in texts;
    if |texts| == 1 {
      NoneSpaced(texts[1..]);
      SplitOnceAbsent(texts[0], ";");
    } else {
      SplitOfSpacedHeader(texts[1..]);
      var rest := Join(texts[1..], "; ");
      assert "; " == ";" + " ";
      Assoc(texts[0], ";", " ");
      Assoc(texts[0] + ";", " ", rest);
      SplitOfCons(texts[0], " " + rest, ";");
    }
  }

  lemma NoneSpaced(texts: seq<string>)
    requires texts == []
    ensures AllSpaced(texts) == []
  {
  }

  lemma {:induction false} SplitOfSpacedHeader(texts: seq<string>)
    requires |texts| >= 1 && forall t | t in texts :: ';' !in t
    ensures Split(" " + Join(texts, "; "), ";") == AllSpaced(texts)
  {
    hide AllSpaced, Find;
    SpacedCons(texts);
    assert texts[0] in texts;
    var first := " " + texts[0];
    if |texts| == 1 {
      NoneSpaced(texts[1..]);
      SplitOnceAbsent(first, ";");
    } else {
      SplitOfSpacedHeader(texts[1..]);
      var rest := Join(texts[1..], "; ");
      assert "; " == ";" + " ";
      Assoc(texts[0], ";", " ");
      Assoc(texts[0] + ";", " ", rest);
      Assoc(" ", texts[0], ";");
      Assoc(" ", texts[0] + ";", " " + rest);
      SplitOfCons(first, " " + rest, ";");
    }
  }

  lemma {:induction false} FirstNamedInPieces(pieces: seq<string>, pairs: seq<Pair>, name: string)
    requires |pieces| == |pairs|
    requires forall i | 0 <= i < |pairs| ::
               SplitOnce(Trim(pieces[i]), "=") == Some((pairs[i].name, pairs[i].value))
    ensures FirstNamed(pieces, name) == FirstValue(pairs, name)
  {
    if pairs != [] {
      FirstNamedInPieces(pieces[1..], pairs[1..], name);
    }
  }

  /** Parsing a header returns, for every name, the first value sent under it, and nothing exactly
      when none was. */
  lemma CookieRoundTrip(pairs: seq<Pair>, name: string)
    requires forall p | p in pairs :: Sendable(p)
    ensures FirstNamed(Split(CookieHeader(pairs), ";"), name) == FirstValue(pairs, name)
    ensures FirstValue(pairs, name) == None <==> forall p | p in pairs :: p.name != name
  {
    AbsentIffNone(pairs, name);
    var texts := Texts(pairs);
    if pairs == [] {
      SplitOnceAbsent("", ";");
      SplitOnceAbsent("", "=");
      assert Split("", ";") == [""] && Trim("") == "";
      assert FirstNamed([""], name) == None;
    } else {
      forall t | t in texts
        ensures ';' !in t
      {
        var i :| 0 <= i < |pairs| && t == texts[i];
        PairText(pairs[i]);
      }
      SplitOfHeader(texts);
      forall i | 0 <= i < |pairs|
        ensures SplitOnce(Trim(Spaced(texts)[i]), "=") == Some((pairs[i].name, pairs[i].value))
      {
        PairText(pairs[i]);
        TrimOfTrimmed(texts[i]);
        TrimOfSpaced(texts[i]);
      }
      FirstNamedInPieces(Spaced(texts), pairs, name);
    }
  }

  lemma {:induction false} AbsentIffNone(pairs: seq<Pair>, name: string)
    ensures FirstValue(pairs, name) == None <==> forall p | p in pairs :: p.name != name
  {
    if pairs != [] {
      AbsentIffNone(pairs[1..], name);
      assert pairs == [pairs[0]] + pairs[1..];
    }
  }
}
