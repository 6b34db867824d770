/** The string operations of the Rust standard library that the verifier is written with:
    splitting, joining, trimming, prefix and suffix tests, character replacement.
    Separators are strings, so `split(';')` is `Split(s, ";")`. */
module Text {

  datatype Option<+T> = None | Some(value: T)

  function GetOr<T>(o: Option<T>, default: T): T {
    if o.Some? then o.value else default
  }

  // ---------------------------------------------------------------- searching and splitting

  /** The index of the first occurrence of `sep`. */
  function Find(s: string, sep: string): (r: Option<nat>)
    requires sep != ""
    ensures r.Some? ==> r.value + |sep| <= |s| && s[r.value..r.value + |sep|] == sep
  {
    if sep <= s then Some(0)
    else if s == "" then None
    else match Find(s[1..], sep)
         case None => None
         case Some(i) => assert s[1..][i..i + |sep|] == s[i + 1..i + 1 + |sep|]; Some(i + 1)
  }

  /** `str::split_once`. */
  function SplitOnce(s: string, sep: string): Option<(string, string)>
    requires sep != ""
  {
    match Find(s, sep)
    case None => None
    case Some(i) => Some((s[..i], s[i + |sep|..]))
  }

  /** `str::split`: always at least one piece. */
  function Split(s: string, sep: string): (pieces: seq<string>)
    requires sep != ""
    ensures |pieces| >= 1
    decreases |s|
  {
    match SplitOnce(s, sep)
    case None => [s]
    case Some((head, tail)) => [head] + Split(tail, sep)
  }

  /** `str::splitn`: at most `n` pieces, the last one unsplit. */
  function SplitN(s: string, sep: string, n: nat): (pieces: seq<string>)
    requires sep != "" && n >= 1
    ensures 1 <= |pieces| <= n
    decreases n
  {
    if n == 1 then [s]
    else match SplitOnce(s, sep)
         case None => [s]
         case Some((head, tail)) => [head] + SplitN(tail, sep, n - 1)
  }

  /** `[String]::join`. */
  function Join(pieces: seq<string>, sep: string): string {
    if |pieces| == 0 then ""
    else if |pieces| == 1 then pieces[0]
    else pieces[0] + sep + Join(pieces[1..], sep)
  }

  predicate OccursAt(s: string, sep: string, i: nat) {
    i + |sep| <= |s| && s[i..i + |sep|] == sep
  }

  lemma OccursInTail(s: string, sep: string, j: nat)
    requires s != "" && j > 0
    ensures OccursAt(s, sep, j) <==> OccursAt(s[1..], sep, j - 1)
  {
    if j + |sep| <= |s| {
      assert s[1..][j - 1..j - 1 + |sep|] == s[j..j + |sep|];
    }
  }

  lemma OccursFirst(s: string, sep: string)
    ensures OccursAt(s, sep, 0) <==> sep <= s
  {
  }

  lemma FindStep(s: string, sep: string)
    requires sep != ""
    ensures sep <= s ==> Find(s, sep) == Some(0)
    ensures !(sep <= s) && s != "" ==>
              Find(s, sep) == match Find(s[1..], sep) { case None => None case Some(i) => Some(i + 1) }
    ensures s == "" ==> Find(s, sep) == None
  {
  }

  /** What is found is the first occurrence, and nothing is found only if there is none. */
  lemma {:induction false} FindMeans(s: string, sep: string)
    requires sep != ""
    ensures Find(s, sep).Some? ==> OccursAt(s, sep, Find(s, sep).value)
    ensures forall j: nat | OccursAt(s, sep, j) :: Find(s, sep).Some? && Find(s, sep).value <= j
    decreases |s|
  {
    hide Find, OccursAt;
    FindStep(s, sep);
    OccursFirst(s, sep);
    if s == "" {
      NoneOccurs(sep);
    } else if !(sep <= s) {
      FindMeans(s[1..], sep);
      if Find(s, sep).Some? {
        OccursInTail(s, sep, Find(s, sep).value);
      }
      forall j: nat | OccursAt(s, sep, j)
        ensures Find(s, sep).Some? && Find(s, sep).value <= j
      {
        if j > 0 {
          OccursInTail(s, sep, j);
        }
      }
    }
  }

  lemma FirstOccurrence(s: string, sep: string, i: nat)
    requires sep != "" && OccursAt(s, sep, i) && forall j: nat | j < i :: !OccursAt(s, sep, j)
    ensures Find(s, sep) == Some(i)
  {
    hide Find, OccursAt;
    FindMeans(s, sep);
  }

  lemma NoOccurrence(s: string, sep: string)
    requires sep != "" && forall j: nat :: !OccursAt(s, sep, j)
    ensures Find(s, sep) == None
  {
    hide Find, OccursAt;
    FindMeans(s, sep);
  }

  lemma OccursInPrefix(s: string, prefix: string, sep: string, j: nat)
    requires prefix <= s && sep != "" && OccursAt(prefix, sep, j)
    ensures OccursAt(s, sep, j) && j < |prefix|
  {
    assert s[j..j + |sep|] == prefix[j..j + |sep|];
  }

  lemma NoneOccurs(sep: string)
    requires sep != ""
    ensures forall j: nat :: !OccursAt("", sep, j)
  {
  }

  lemma {:induction false} FindAfter(a: string, sep: string, b: string)
    requires sep != "" && sep[0] !in a
    ensures Find(a + sep + b, sep) == Some(|a|)
  {
    var s := a + sep + b;
    if a == "" {
      assert s[..|sep|] == sep;
    } else {
      assert s[0] == a[0];
      assert s[1..] == a[1..] + sep + b;
      FindAfter(a[1..], sep, b);
    }
  }

  lemma {:induction false} FindAbsent(s: string, sep: string)
    requires sep != "" && sep[0] !in s
    ensures Find(s, sep) == None
  {
    if s != "" {
      assert s[0] in s;
      FindAbsent(s[1..], sep);
    }
  }

  lemma SplitOnceAfter(a: string, sep: string, b: string)
    requires sep != "" && sep[0] !in a
    ensures SplitOnce(a + sep + b, sep) == Some((a, b))
  {
    FindAfter(a, sep, b);
    assert (a + sep + b)[..|a|] == a;
    assert (a + sep + b)[|a| + |sep|..] == b;
  }

  lemma SplitOnceAbsent(s: string, sep: string)
    requires sep != "" && sep[0] !in s
    ensures SplitOnce(s, sep) == None
  {
    FindAbsent(s, sep);
  }

  lemma {:induction false} SplitOfJoin(pieces: seq<string>, sep: string)
    requires sep != "" && |pieces| >= 1
    requires forall p | p in pieces :: sep[0] !in p
    ensures Split(Join(pieces, sep), sep) == pieces
  {
    assert pieces[0] in pieces;
    if |pieces| == 1 {
      SplitOnceAbsent(pieces[0], sep);
    } else {
      SplitOnceAfter(pieces[0], sep, Join(pieces[1..], sep));
      SplitOfJoin(pieces[1..], sep);
    }
  }

  lemma SplitOnceParts(s: string, sep: string)
    requires sep != "" && SplitOnce(s, sep).Some?
    ensures s == SplitOnce(s, sep).value.0 + sep + SplitOnce(s, sep).value.1
  {
    var i := Find(s, sep).value;
    assert s == s[..i] + s[i..i + |sep|] + s[i + |sep|..];
  }

  lemma JoinOfCons(head: string, tail: seq<string>, sep: string)
    requires |tail| >= 1
    ensures Join([head] + tail, sep) == head + sep + Join(tail, sep)
  {
    assert ([head] + tail)[1..] == tail;
  }

  lemma {:induction false} JoinOfSplit(s: string, sep: string)
    requires sep != ""
    ensures Join(Split(s, sep), sep) == s
    decreases |s|
  {
    match SplitOnce(s, sep)
    case None =>
    case Some((head, tail)) =>
      SplitOnceParts(s, sep);
      JoinOfSplit(tail, sep);
      JoinOfCons(head, Split(tail, sep), sep);
  }

  lemma {:induction false} JoinOfConcat(xs: seq<string>, ys: seq<string>, sep: string)
    requires |xs| >= 1 && |ys| >= 1
    ensures Join(xs + ys, sep) == Join(xs, sep) + sep + Join(ys, sep)
  {
    assert (xs + ys)[1..] == xs[1..] + ys;
    if |xs| > 1 {
      JoinOfConcat(xs[1..], ys, sep);
      assert Join(xs + ys, sep) == xs[0] + sep + Join(xs[1..] + ys, sep);
    }
  }

  /** Splitting at a one-character separator distributes over that separator. */
  lemma {:induction false} SplitOfConcat(a: string, b: string, sep: string)
    requires |sep| == 1
    ensures Split(a + sep + b, sep) == Split(a, sep) + Split(b, sep)
    decreases |a|
  {
    var once := SplitOnce(a, sep);
    if once == None {
      FindNone(a, sep);
      SplitOfCons(a, b, sep);
    } else {
      var (head, tail) := once.value;
      SplitOnceParts(a, sep);
      FindFirst(a, sep);
      SplitOfConcat(tail, b, sep);
      SplitOfConcatStep(head, tail, b, sep);
    }
  }

  lemma SplitOfConcatStep(head: string, tail: string, b: string, sep: string)
    requires sep != "" && sep[0] !in head
    requires Split(tail + sep + b, sep) == Split(tail, sep) + Split(b, sep)
    ensures Split(head + sep + tail + sep + b, sep) == Split(head + sep + tail, sep) + Split(b, sep)
  {
    Assoc(head + sep, tail + sep, b);
    Assoc(head + sep, tail, sep);
    SplitOfCons(head, tail + sep + b, sep);
    SplitOfCons(head, tail, sep);
    Assoc([head], Split(tail, sep), Split(b, sep));
  }

  lemma Assoc<T>(a: seq<T>, b: seq<T>, c: seq<T>)
    ensures a + b + c == a + (b + c)
  {
  }

  lemma SplitOfCons(head: string, rest: string, sep: string)
    requires sep != "" && sep[0] !in head
    ensures Split(head + sep + rest, sep) == [head] + Split(rest, sep)
  {
    SplitOnceAfter(head, sep, rest);
  }

  lemma SplitAtFound(s: string, sep: string, i: nat)
    requires sep != "" && Find(s, sep) == Some(i)
    ensures i + |sep| <= |s| && Split(s, sep) == [s[..i]] + Split(s[i + |sep|..], sep)
  {
    hide Find;
  }

  lemma SplitNotFound(s: string, sep: string)
    requires sep != "" && Find(s, sep) == None
    ensures Split(s, sep) == [s]
  {
    hide Find;
  }

  lemma {:induction false} FindNone(s: string, sep: string)
    requires |sep| == 1 && Find(s, sep) == None
    ensures sep[0] !in s
  {
    if s != "" {
      FindNone(s[1..], sep);
    }
  }

  lemma {:induction false} FindFirst(s: string, sep: string)
    requires |sep| == 1 && Find(s, sep).Some?
    ensures sep[0] !in s[..Find(s, sep).value]
  {
    if !(sep <= s) {
      FindFirst(s[1..], sep);
      var i := Find(s[1..], sep).value;
      assert s[..i + 1] == [s[0]] + s[1..][..i];
    }
  }

  /** The pieces of a split at a one-character separator do not contain it. */
  lemma {:induction false} SplitPieces(s: string, sep: string)
    requires |sep| == 1
    ensures forall p | p in Split(s, sep) :: sep[0] !in p
    decreases |s|
  {
    match SplitOnce(s, sep)
    case None => FindNone(s, sep);
    case Some((head, tail)) => FindFirst(s, sep); SplitPieces(tail, sep);
  }

  // ---------------------------------------------------------------- prefixes and suffixes

  predicate StartsWith(s: string, prefix: string) {
    prefix <= s
  }

  predicate EndsWith(s: string, suffix: string) {
    |suffix| <= |s| && s[|s| - |suffix|..] == suffix
  }

  function StripPrefix(s: string, prefix: string): Option<string> {
    if StartsWith(s, prefix) then Some(s[|prefix|..]) else None
  }

  /** Two texts that agree after a separator the right-hand parts lack agree on both sides of it. */
  lemma LastSeparator(a: string, x: string, b: string, y: string, sep: char)
    requires a + [sep] + x == b + [sep] + y
    requires sep !in x && sep !in y
    ensures a == b && x == y
  {
    var s := a + [sep] + x;
    assert s[|a|] == sep && s[|b|] == sep;
    assert forall i | |a| < i < |s| :: s[i] == x[i - |a| - 1];
    assert forall i | |b| < i < |s| :: s[i] == y[i - |b| - 1];
    assert a == s[..|a|] && b == s[..|b|];
    assert x == s[|a| + 1..] && y == s[|b| + 1..];
  }

  /** The same for a separator the left-hand parts lack. */
  lemma FirstSeparator(a: string, x: string, b: string, y: string, sep: char)
    requires a + [sep] + x == b + [sep] + y
    requires sep !in a && sep !in b
    ensures a == b && x == y
  {
    SplitOnceAfter(a, [sep], x);
    SplitOnceAfter(b, [sep], y);
  }

  // ---------------------------------------------------------------- characters

  /** `str::replace` of one character by another. */
  function ReplaceChar(s: string, old_: char, new_: char): (r: string)
    ensures |r| == |s|
    ensures forall i | 0 <= i < |s| :: r[i] == if s[i] == old_ then new_ else s[i]
  {
    seq(|s|, i requires 0 <= i < |s| => if s[i] == old_ then new_ else s[i])
  }

  /** `str::replace`: every occurrence, from the left. */
  function Replace(s: string, from: string, to: string): string
    requires from != ""
  {
    Join(Split(s, from), to)
  }

  /** `str::to_ascii_lowercase`. */
  function LowerCase(s: string): (r: string)
    ensures |r| == |s| && forall i | 0 <= i < |s| :: r[i] == LowerChar(s[i])
  {
    seq(|s|, i requires 0 <= i < |s| => LowerChar(s[i]))
  }

  function LowerChar(c: char): char {
    if 'A' <= c <= 'Z' then ((c as int) + 32) as char else c
  }

  /** The Unicode White_Space property, which is what `str::trim` removes. */
  predicate IsWhitespace(c: char) {
    var n := c as int;
    || 0x09 <= n <= 0x0D || n == 0x20 || n == 0x85 || n == 0xA0 || n == 0x1680
    || 0x2000 <= n <= 0x200A || n == 0x2028 || n == 0x2029 || n == 0x202F || n == 0x205F
    || n == 0x3000
  }

  /** The 25 white-space characters. */
  lemma WhitespaceIs(c: char)
    ensures IsWhitespace(c) <==> c as int in {
              9, 10, 11, 12, 13, 32, 0x85, 0xA0, 0x1680, 0x2000, 0x2001, 0x2002, 0x2003, 0x2004, 0x2005, 0x2006,
              0x2007, 0x2008, 0x2009, 0x200A, 0x2028, 0x2029, 0x202F, 0x205F, 0x3000}
  {
  }

  function TrimStart(s: string): string {
    if s != "" && IsWhitespace(s[0]) then TrimStart(s[1..]) else s
  }

  function TrimEnd(s: string): string {
    if s != "" && IsWhitespace(s[|s| - 1]) then TrimEnd(s[..|s| - 1]) else s
  }

  function Trim(s: string): string {
    TrimEnd(TrimStart(s))
  }

  /** A text that `trim` returns unchanged. */
  predicate Trimmed(s: string) {
    s != "" ==> !IsWhitespace(s[0]) && !IsWhitespace(s[|s| - 1])
  }

  lemma {:induction false} TrimStartTrims(s: string)
    ensures var t := TrimStart(s);
            && (t != "" ==> !IsWhitespace(t[0])) && |t| <= |s| && s[|s| - |t|..] == t
  {
    if s != "" && IsWhitespace(s[0]) {
      TrimStartTrims(s[1..]);
    }
  }

  lemma {:induction false} TrimEndTrims(s: string)
    ensures var t := TrimEnd(s);
            (t != "" ==> !IsWhitespace(t[|t| - 1])) && t <= s
  {
    if s != "" && IsWhitespace(s[|s| - 1]) {
      TrimEndTrims(s[..|s| - 1]);
    }
  }

  /** Trimming leaves a trimmed part of the text. */
  lemma TrimTrims(s: string)
    ensures Trimmed(Trim(s))
    ensures forall c | c in Trim(s) :: c in s
  {
    TrimStartTrims(s);
    TrimEndTrims(TrimStart(s));
    forall c | c in Trim(s)
      ensures c in s
    {
      var t := TrimStart(s);
      assert c in t && t == s[|s| - |t|..];
    }
  }

  lemma TrimOfTrimmed(s: string)
    requires Trimmed(s)
    ensures Trim(s) == s
  {
  }

  predicate Blank(s: string) {
    forall c | c in s :: IsWhitespace(c)
  }

  lemma {:induction false} TrimStartOfPadded(pre: string, s: string)
    requires Blank(pre) && (s != "" ==> !IsWhitespace(s[0]))
    ensures TrimStart(pre + s) == s
  {
    if pre == "" {
      assert pre + s == s;
    } else {
      assert pre[0] in pre && (pre + s)[1..] == pre[1..] + s;
      TrimStartOfPadded(pre[1..], s);
    }
  }

  lemma {:induction false} TrimEndOfPadded(s: string, post: string)
    requires Blank(post) && (s != "" ==> !IsWhitespace(s[|s| - 1]))
    ensures TrimEnd(s + post) == s
  {
    if post == "" {
      assert s + post == s;
    } else {
      assert post[|post| - 1] in post && (s + post)[..|s + post| - 1] == s + post[..|post| - 1];
      TrimEndOfPadded(s, post[..|post| - 1]);
    }
  }

  /** Trimming removes exactly the white space around a text. */
  lemma TrimOfPadded(pre: string, s: string, post: string)
    requires Blank(pre) && Blank(post) && Trimmed(s)
    ensures Trim(pre + s + post) == s
  {
    if s == "" {
      assert pre + s + post == pre + post && Blank(pre + post);
      TrimStartOfPadded(pre + post, "");
      assert pre + post + "" == pre + post;
    } else {
      Assoc(pre, s, post);
      TrimStartOfPadded(pre, s + post);
      TrimEndOfPadded(s, post);
    }
  }

  function UpperChar(c: char): char {
    if 'a' <= c <= 'z' then ((c as int) - 32) as char else c
  }

  function UpperCase(s: string): (r: string)
    ensures |r| == |s| && forall i | 0 <= i < |s| :: r[i] == UpperChar(s[i])
  {
    seq(|s|, i requires 0 <= i < |s| => UpperChar(s[i]))
  }

  lemma SameCase(c: char, d: char)
    ensures LowerChar(c) == LowerChar(d) <==> UpperChar(c) == UpperChar(d)
  {
  }

  /** Lower case forgets the case of ASCII letters and nothing else. */
  lemma CaseFolds(s: string, t: string)
    ensures LowerCase(s) == LowerCase(t) <==> UpperCase(s) == UpperCase(t)
    ensures (forall c | c in s :: !('A' <= c <= 'Z')) ==> LowerCase(s) == s
  {
    var l, m, u, v := LowerCase(s), LowerCase(t), UpperCase(s), UpperCase(t);
    if |s| == |t| {
      forall i | 0 <= i < |s|
        ensures l[i] == m[i] <==> u[i] == v[i]
      {
        SameCase(s[i], t[i]);
      }
      if l == m {
        assert u == v;
      }
      if u == v {
        assert l == m;
      }
    }
    if forall c | c in s :: !('A' <= c <= 'Z') {
      forall i | 0 <= i < |s|
        ensures l[i] == s[i]
      {
        assert s[i] in s;
      }
    }
  }
}
