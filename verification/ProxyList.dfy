/** Proxy lists: the URI printer, the line parser with its regular expression, and the list parser. */
module ProxyList {
  import opened Sequences
  import opened Text

  /** The five parsed fields of a proxy. */
  datatype Proxy = Proxy(host: string, port: int, proto: string, username: string, password: string)

  function Address(p: Proxy): string {
    p.host + ":" + Decimal(p.port)
  }

  function URI(p: Proxy): string {
    if p.username != ""
    then p.proto + "://" + p.username + ":" + p.password + "@" + p.host + ":" + Decimal(p.port)
    else p.proto + "://" + p.host + ":" + Decimal(p.port)
  }

  /** White space as the regular expression sees it. */
  predicate IsBlank(c: char) {
    c == ' ' || c == '\t' || c == '\n' || c == '\r' || c == '\U{000C}'
  }

  predicate NoBlanks(s: string) {
    forall i :: 0 <= i < |s| ==> !IsBlank(s[i])
  }

  predicate IsHost(s: string) {
    s != "" && NoBlanks(s) && ':' !in s
  }

  predicate IsUser(s: string) {
    s != "" && NoBlanks(s) && ':' !in s && '@' !in s
  }

  predicate IsPassword(s: string) {
    NoBlanks(s) && '@' !in s
  }

  predicate IsNumber(s: string) {
    s != "" && AllDigits(s)
  }

  /** Case-insensitive matching follows Unicode folding: long s folds to s, the Kelvin sign to k. */
  predicate FoldsTo(c: char, lower: char) {
    c == lower || LowerChar(c) == lower || (lower == 's' && c == '\U{017F}')
  }

  predicate IsScheme(s: string) {
    |s| == 6 && FoldsTo(s[0], 's') && FoldsTo(s[1], 'o') && FoldsTo(s[2], 'c') && FoldsTo(s[3], 'k')
    && FoldsTo(s[4], 's') && (s[5] == '4' || s[5] == '5')
  }

  datatype Credentials = Credentials(username: string, password: string)

  /** What follows the scheme: an optional login, a host and the digits of a port. */
  datatype Tail = Tail(login: Option<Credentials>, host: string, digits: string)

  datatype Match = Match(scheme: string, tail: Tail)

  function LoginText(login: Option<Credentials>): string {
    match login
    case None => ""
    case Some(Credentials(u, p)) => u + ":" + p + "@"
  }

  /** The reference: what it means for the part after the scheme to match in a given way. */
  predicate TailMatches(text: string, t: Tail) {
    && IsHost(t.host) && IsNumber(t.digits)
    && (t.login.Some? ==> IsUser(t.login.value.username) && IsPassword(t.login.value.password))
    && text == LoginText(t.login) + (t.host + ":" + t.digits)
  }

  /** The reference: what it means for the expression to match a line in a given way. */
  predicate MatchesAs(line: string, m: Match) {
    && IsScheme(m.scheme)
    && line == m.scheme + "://" + (LoginText(m.tail.login) + (m.tail.host + ":" + m.tail.digits))
    && TailMatches(LoginText(m.tail.login) + (m.tail.host + ":" + m.tail.digits), m.tail)
  }

  /** host:digits to the end of the text. */
  function HostAndPort(s: string): Option<(string, string)> {
    var i := IndexOf(s, ':');
    if i < |s| && IsHost(s[..i]) && IsNumber(s[i + 1..]) then Some((s[..i], s[i + 1..])) else None
  }

  /** user:password@ at the start of the text, and what follows it. */
  function Login(s: string): Option<(Credentials, string)> {
    var i := IndexOf(s, ':');
    if i < |s| && IsUser(s[..i]) then
      var rest := s[i + 1..];
      var j := IndexOf(rest, '@');
      if j < |rest| && IsPassword(rest[..j]) then Some((Credentials(s[..i], rest[..j]), rest[j + 1..])) else None
    else None
  }

  /** The tail the expression finds: the optional group is taken whenever the rest then matches. */
  function FindTail(text: string): Option<Tail> {
    var login := Login(text);
    var after := if login.Some? then HostAndPort(login.value.1) else None;
    if after.Some? then Some(Tail(Some(login.value.0), after.value.0, after.value.1))
    else
      var bare := HostAndPort(text);
      if bare.Some? then Some(Tail(None, bare.value.0, bare.value.1)) else None
  }

  function FindMatch(line: string): Option<Match> {
    if |line| < 9 || !IsScheme(line[..6]) || line[6..9] != "://" then None
    else
      var tail := FindTail(line[9..]);
      if tail.Some? then Some(Match(line[..6], tail.value)) else None
  }

  lemma HostAndPortAt(host: string, digits: string)
    requires IsHost(host) && IsNumber(digits)
    ensures HostAndPort(host + ":" + digits) == Some((host, digits))
  {
    var s := host + [':'] + digits;
    IndexOfAt(host, ':', digits);
    assert s[..|host|] == host && s[|host| + 1..] == digits;
  }

  lemma LoginAt(u: string, p: string, rest: string)
    requires IsUser(u) && IsPassword(p)
    ensures Login(u + ":" + p + "@" + rest) == Some((Credentials(u, p), rest))
  {
    var s := u + ":" + p + "@" + rest;
    assert s == u + [':'] + (p + "@" + rest);
    IndexOfAt(u, ':', p + "@" + rest);
    var tail := p + ['@'] + rest;
    assert s[..|u|] == u && s[|u| + 1..] == tail;
    IndexOfAt(p, '@', rest);
    assert tail[..|p|] == p && tail[|p| + 1..] == rest;
  }

  lemma Regroup(u: string, p: string, rest: string)
    ensures u + [':'] + (p + ['@'] + rest) == LoginText(Some(Credentials(u, p))) + rest
  {
  }

  lemma LoginSplits(s: string)
    ensures Login(s).Some? ==>
              var (c, rest) := Login(s).value;
              s == LoginText(Some(c)) + rest && IsUser(c.username) && IsPassword(c.password)
  {
    if Login(s).Some? {
      var i := IndexOf(s, ':');
      var after := s[i + 1..];
      var j := IndexOf(after, '@');
      CutAt(s, i);
      CutAt(after, j);
      Regroup(s[..i], after[..j], after[j + 1..]);
    }
  }

  lemma HostAndPortSplits(s: string)
    ensures HostAndPort(s).Some? ==>
              var (host, digits) := HostAndPort(s).value;
              s == host + ":" + digits && IsHost(host) && IsNumber(digits)
  {
    var i := IndexOf(s, ':');
    if i < |s| { assert s == s[..i] + ":" + s[i + 1..]; }
  }

  lemma FoundTailMatches(text: string)
    ensures FindTail(text).Some? ==> TailMatches(text, FindTail(text).value)
  {
    LoginSplits(text);
    if Login(text).Some? { HostAndPortSplits(Login(text).value.1); }
    HostAndPortSplits(text);
    assert LoginText(None) + text == text;
  }

  /** A digit string after the first colon leaves no room for a login. */
  lemma NoLogin(host: string, digits: string)
    requires IsHost(host) && IsNumber(digits)
    ensures Login(host + ":" + digits).None?
  {
    var s := host + [':'] + digits;
    IndexOfAt(host, ':', digits);
    assert s[|host| + 1..] == digits;
    assert forall j :: 0 <= j < |digits| ==> IsDigit(digits[j]);
  }

  /** A tail that matches is the one found. */
  lemma MatchingTailIsFound(text: string, t: Tail)
    requires TailMatches(text, t)
    ensures FindTail(text) == Some(t)
  {
    var rest := t.host + ":" + t.digits;
    HostAndPortAt(t.host, t.digits);
    match t.login
    case None =>
      assert text == rest;
      NoLogin(t.host, t.digits);
    case Some(Credentials(u, p)) =>
      assert text == u + ":" + p + "@" + rest;
      LoginAt(u, p, rest);
  }

  lemma SchemeOf(line: string, scheme: string, rest: string)
    requires |scheme| == 6 && line == scheme + "://" + rest
    ensures |line| >= 9 && line[..6] == scheme && line[6..9] == "://" && line[9..] == rest
  {
  }

  lemma CutAtNine(line: string)
    requires |line| >= 9 && line[6..9] == "://"
    ensures line == line[..6] + "://" + line[9..]
  {
    assert line == line[..6] + line[6..9] + line[9..];
  }

  lemma FoundMatches(line: string, m: Match)
    requires FindMatch(line) == Some(m)
    ensures MatchesAs(line, m)
  {
    FoundTailMatches(line[9..]);
    CutAtNine(line);
  }

  lemma MatchIsFound(line: string, m: Match)
    requires MatchesAs(line, m)
    ensures FindMatch(line) == Some(m)
  {
    var text := LoginText(m.tail.login) + (m.tail.host + ":" + m.tail.digits);
    SchemeOf(line, m.scheme, text);
    MatchingTailIsFound(text, m.tail);
  }

  /**
   * The expression matches a line in at most one way, and the search finds it: whether the
   * optional login is there is never ambiguous.
   */
  lemma MatchIsUnambiguous(line: string, m: Match)
    ensures FindMatch(line) == Some(m) <==> MatchesAs(line, m)
  {
    if FindMatch(line) == Some(m) { FoundMatches(line, m); }
    if MatchesAs(line, m) { MatchIsFound(line, m); }
  }

  const SOCKS5 := "socks5"

  /** A port in decimal text, if it is one. */
  function PortIn(s: string): Option<int> {
    var n := Atoi(s);
    if n.Some? && 1 <= n.value <= 65535 then n else None
  }

  /** host:port and host:port:user:password. */
  function ParseColons(line: string): Option<Proxy> {
    var parts := Split(line, ':');
    if |parts| == 4 && PortIn(parts[1]).Some? && parts[0] != ""
    then Some(Proxy(parts[0], PortIn(parts[1]).value, SOCKS5, parts[2], parts[3]))
    else if |parts| == 2 && PortIn(parts[1]).Some? && parts[0] != ""
    then Some(Proxy(parts[0], PortIn(parts[1]).value, SOCKS5, "", ""))
    else None
  }

  /** host and port apart by white space. */
  function ParseSpaced(line: string): Option<Proxy> {
    var fields := Fields(line);
    if |fields| == 2 && PortIn(fields[1]).Some? then Some(Proxy(fields[0], PortIn(fields[1]).value, SOCKS5, "", ""))
    else None
  }

  /** A matched URI; a port out of range ends the line's chances. */
  function FromMatch(m: Match): Option<Proxy>
    requires AllDigits(m.tail.digits)
  {
    var port := DigitsValue(m.tail.digits);
    var (user, password) := match m.tail.login case None => ("", "") case Some(Credentials(u, p)) => (u, p);
    if port < 1 || port > 65535 then None
    else Some(Proxy(m.tail.host, port, ToLower(m.scheme), user, password))
  }

  function ParseTrimmed(line: string): Option<Proxy> {
    if line == "" || line[0] == '#' then None
    else
      var m := FindMatch(line);
      if m.Some? then FromMatch(m.value)
      else
        var p := ParseColons(line);
        if p.Some? then p else ParseSpaced(line)
  }

  function ParseLine(line: string): Option<Proxy> {
    ParseTrimmed(TrimSpace(line))
  }

  /** What identifies a proxy in a list. */
  function Identity(p: Proxy): (string, int, string) {
    (p.host, p.port, p.proto)
  }

  function Key(p: Proxy): string {
    p.host + ":" + Decimal(p.port) + ":" + p.proto
  }

  lemma SuffixCut(a: string, b: string, s: string, t: string, c: char)
    requires c !in s && c !in t && a + [c] + s == b + [c] + t
    ensures a == b && s == t
  {
    var x, y := a + [c] + s, b + [c] + t;
    assert x[|a|] == c && y[|b|] == c;
    assert forall i :: |a| < i < |x| ==> x[i] == s[i - |a| - 1];
    assert forall i :: |b| < i < |y| ==> y[i] == t[i - |b| - 1];
    assert |a| == |b|;
    assert x[..|a|] == a && y[..|b|] == b && x[|a| + 1..] == s && y[|b| + 1..] == t;
  }

  /** Addresses tell hosts and ports apart, even for hosts with colons, but not protocols. */
  lemma AddressIsEndpoint(p: Proxy, q: Proxy)
    ensures Address(p) == Address(q) <==> p.host == q.host && p.port == q.port
  {
    if Address(p) == Address(q) {
      DecimalPlain(p.port);
      DecimalPlain(q.port);
      SuffixCut(p.host, q.host, Decimal(p.port), Decimal(q.port), ':');
      DecimalInjective(p.port, q.port);
    }
  }

  /** The key tells proxies apart exactly as host, port and protocol do, even for hosts with colons. */
  lemma KeyIsIdentity(p: Proxy, q: Proxy)
    requires ':' !in p.proto && ':' !in q.proto
    ensures Key(p) == Key(q) <==> Identity(p) == Identity(q)
  {
    if Key(p) == Key(q) {
      DecimalPlain(p.port);
      DecimalPlain(q.port);
      SuffixCut(p.host + ":" + Decimal(p.port), q.host + ":" + Decimal(q.port), p.proto, q.proto, ':');
      SuffixCut(p.host, q.host, Decimal(p.port), Decimal(q.port), ':');
      DecimalInjective(p.port, q.port);
    }
  }

  lemma SchemeIsPlain(s: string)
    requires IsScheme(s)
    ensures ':' !in ToLower(s) && |ToLower(s)| == 6
    ensures ToLower(s) == "socks4" || ToLower(s) == "socks5" <==> '\U{017F}' !in s
  {
    var t := ToLower(s);
    assert forall i :: 0 <= i < 6 ==> t[i] == LowerChar(s[i]);
    assert t[1] == 'o' && t[2] == 'c' && t[3] == 'k' && t[5] == s[5];
    if '\U{017F}' !in s {
      assert t[0] == 's' && t[4] == 's';
      if s[5] == '4' { assert t == "socks4"; } else { assert t == "socks5"; }
    } else {
      assert s[0] == '\U{017F}' || s[4] == '\U{017F}';
      assert t[0] != 's' || t[4] != 's';
    }
  }

  /**
   * Any accepted line has a host and a port in range, and its protocol is socks4 or socks5 unless
   * the line is a URI whose scheme is spelt with a long s.
   */
  lemma AcceptedLine(line: string)
    requires ParseLine(line).Some?
    ensures var p := ParseLine(line).value;
            && p.host != "" && 1 <= p.port <= 65535 && ':' !in p.proto
            && (p.proto == "socks4" || p.proto == "socks5" <==>
                  (FindMatch(TrimSpace(line)).None? || '\U{017F}' !in FindMatch(TrimSpace(line)).value.scheme))
  {
    var trimmed := TrimSpace(line);
    if FindMatch(trimmed).Some? {
      FoundTailMatches(trimmed[9..]);
      SchemeIsPlain(FindMatch(trimmed).value.scheme);
    }
  }

  function Parsed(lines: seq<string>): seq<Option<Proxy>> {
    seq(|lines|, k requires 0 <= k < |lines| => ParseLine(lines[k]))
  }

  /** The results that are there, in order. */
  function Found(results: seq<Option<Proxy>>): seq<Proxy> {
    if results == [] then []
    else
      var last := results[|results| - 1];
      Found(results[..|results| - 1]) + if last.Some? then [last.value] else []
  }

  /** The proxies of the lines that parse, in order. */
  function ParsedLines(lines: seq<string>): seq<Proxy> {
    Found(Parsed(lines))
  }

  predicate Known(p: Proxy, ps: seq<Proxy>) {
    exists q :: q in ps && Identity(q) == Identity(p)
  }

  /** The first occurrence of each identity. */
  function Firsts(ps: seq<Proxy>): seq<Proxy> {
    if ps == [] then []
    else
      var init, last := ps[..|ps| - 1], ps[|ps| - 1];
      if Known(last, init) then Firsts(init) else Firsts(init) + [last]
  }

  function Keys(ps: seq<Proxy>): set<string> {
    set p | p in ps :: Key(p)
  }

  /** The key test is the identity test, and it is what keeps the list and the key set in step. */
  lemma SeenIsKnown(ps: seq<Proxy>, p: Proxy)
    requires ':' !in p.proto && forall q :: q in ps ==> ':' !in q.proto
    ensures Key(p) in Keys(ps) <==> Known(p, ps)
    ensures Keys(ps + [p]) == Keys(ps) + {Key(p)}
    ensures Firsts(ps + [p]) == if Key(p) in Keys(ps) then Firsts(ps) else Firsts(ps) + [p]
  {
    forall q | q in ps ensures Key(p) == Key(q) <==> Identity(p) == Identity(q) {
      KeyIsIdentity(p, q);
    }
    assert (ps + [p])[..|ps|] == ps;
  }

  lemma FoundMore(results: seq<Option<Proxy>>, k: nat)
    requires k < |results|
    ensures Found(results[..k + 1]) ==
            if results[k].Some? then Found(results[..k]) + [results[k].value] else Found(results[..k])
  {
    assert results[..k + 1][..k] == results[..k];
  }

  method ParseAll(text: string) returns (out: seq<Proxy>)
    ensures out == Firsts(ParsedLines(Split(text, '\n')))
  {
    var lines := Split(text, '\n');
    var seen: set<string> := {};
    ghost var results := Parsed(lines);
    ghost var parsed: seq<Proxy> := [];
    out := [];
    for k := 0 to |lines|
      invariant parsed == Found(results[..k]) && forall q :: q in parsed ==> ':' !in q.proto
      invariant out == Firsts(parsed) && seen == Keys(parsed)
    {
      FoundMore(results, k);
      var p := ParseLine(lines[k]);
      if p.None? {
        continue;
      }
      AcceptedLine(lines[k]);
      SeenIsKnown(parsed, p.value);
      var key := Key(p.value);
      if key !in seen {
        seen := seen + {key};
        out := out + [p.value];
      }
      parsed := parsed + [p.value];
    }
    assert results[..|lines|] == results;
  }

  lemma {:induction false} FirstsKnowAll(ps: seq<Proxy>)
    ensures forall p :: p in ps ==> Known(p, Firsts(ps))
  {
    if ps != [] {
      var init, last := ps[..|ps| - 1], ps[|ps| - 1];
      assert ps == init + [last];
      FirstsKnowAll(init);
      forall p | p in ps ensures Known(p, Firsts(ps)) {
        if p in init || Known(last, init) {
          var r :| r in init && Identity(r) == Identity(p);
          assert Known(r, Firsts(init));
          var q :| q in Firsts(init) && Identity(q) == Identity(r);
          assert q in Firsts(ps);
        } else {
          assert last in Firsts(ps);
        }
      }
    }
  }

  /** The proxy stands somewhere with nobody of its identity before it. */
  predicate IsFirst(p: Proxy, ps: seq<Proxy>) {
    exists i :: 0 <= i < |ps| && ps[i] == p && !Known(p, ps[..i])
  }

  lemma StaysFirst(p: Proxy, ps: seq<Proxy>)
    requires ps != [] && IsFirst(p, ps[..|ps| - 1])
    ensures IsFirst(p, ps) && p in ps[..|ps| - 1]
  {
    var init := ps[..|ps| - 1];
    var i :| 0 <= i < |init| && init[i] == p && !Known(p, init[..i]);
    assert ps[..i] == init[..i] && ps[i] == p;
  }

  /** Each identity is listed once, by its first bearer. */
  lemma {:induction false} FirstsAreFirst(ps: seq<Proxy>)
    ensures forall p :: p in ps ==> Known(p, Firsts(ps))
    ensures forall i, j :: 0 <= i < j < |Firsts(ps)| ==> Identity(Firsts(ps)[i]) != Identity(Firsts(ps)[j])
    ensures forall p :: p in Firsts(ps) ==> IsFirst(p, ps)
  {
    FirstsKnowAll(ps);
    if ps != [] {
      var init, last := ps[..|ps| - 1], ps[|ps| - 1];
      FirstsAreFirst(init);
      var f := Firsts(init);
      forall p | p in f ensures IsFirst(p, ps) && p in init { StaysFirst(p, ps); }
      if !Known(last, init) {
        forall i | 0 <= i < |f| ensures Identity(f[i]) != Identity(last) {
          assert f[i] in f;
        }
      }
    }
  }

  /** Nobody of the identity at k stands before it. */
  ghost predicate FirstAt(ps: seq<Proxy>, k: nat) {
    k < |ps| && !Known(ps[k], ps[..k])
  }

  lemma StillFirstAt(ps: seq<Proxy>, k: nat)
    requires ps != [] && FirstAt(ps[..|ps| - 1], k)
    ensures FirstAt(ps, k) && k < |ps| - 1 && ps[..|ps| - 1][k] == ps[k]
  {
    assert ps[..|ps| - 1][..k] == ps[..k];
  }

  /** The list keeps the order of the lines: its entries stand where an identity first appears. */
  lemma {:induction false} FirstsInOrder(ps: seq<Proxy>) returns (at: seq<nat>)
    ensures Picks(Firsts(ps), ps, at) && forall m :: 0 <= m < |at| ==> FirstAt(ps, at[m])
  {
    at := [];
    if ps != [] {
      var last := |ps| - 1;
      at := FirstsInOrder(ps[..last]);
      forall m | 0 <= m < |at| ensures FirstAt(ps, at[m]) && at[m] < last && ps[..last][at[m]] == ps[at[m]] {
        StillFirstAt(ps, at[m]);
      }
      if !Known(ps[last], ps[..last]) {
        RisesConcat(at, [last], last);
        at := at + [last];
      }
    }
  }

  lemma {:induction false} FoundPlaces(results: seq<Option<Proxy>>) returns (at: seq<nat>)
    ensures Rises(at) && forall k: nat :: k in at <==> k < |results| && results[k].Some?
    ensures |Found(results)| == |at|
    ensures forall m :: 0 <= m < |at| ==> at[m] < |results| && results[at[m]] == Some(Found(results)[m])
  {
    at := [];
    if results != [] {
      var init, last := results[..|results| - 1], |results| - 1;
      at := FoundPlaces(init);
      assert forall k: nat :: k < last ==> init[k] == results[k];
      if results[last].Some? {
        RisesConcat(at, [last], last);
        at := at + [last];
      }
    }
  }

  /** Every line that parses is found, in order. */
  lemma FoundInOrder(lines: seq<string>) returns (at: seq<nat>)
    ensures Rises(at) && forall k: nat :: k in at <==> k < |lines| && ParseLine(lines[k]).Some?
    ensures |ParsedLines(lines)| == |at|
    ensures forall m :: 0 <= m < |at| ==> at[m] < |lines| && ParseLine(lines[at[m]]) == Some(ParsedLines(lines)[m])
  {
    at := FoundPlaces(Parsed(lines));
    assert forall k: nat :: k < |lines| ==> Parsed(lines)[k] == ParseLine(lines[k]);
  }

  /** The fields a URI can carry. */
  predicate WellFormed(p: Proxy) {
    && (p.proto == "socks4" || p.proto == "socks5")
    && IsHost(p.host) && 1 <= p.port <= 65535
    && (if p.username == "" then p.password == "" else IsUser(p.username) && IsPassword(p.password))
  }

  function MatchOf(p: Proxy): Match
    requires WellFormed(p)
  {
    var login := if p.username == "" then None else Some(Credentials(p.username, p.password));
    Match(p.proto, Tail(login, p.host, Decimal(p.port)))
  }

  lemma URIMatches(p: Proxy)
    requires WellFormed(p)
    ensures MatchesAs(URI(p), MatchOf(p))
  {
    var m := MatchOf(p);
    var port := Decimal(p.port);
    if p.username != "" {
      assert URI(p) == p.proto + "://" + ((p.username + ":" + p.password + "@") + (p.host + ":" + port));
    } else {
      assert LoginText(None) + (p.host + ":" + port) == p.host + ":" + port;
      assert URI(p) == p.proto + "://" + (p.host + ":" + port);
    }
  }

  lemma URITrimmed(p: Proxy)
    requires WellFormed(p)
    ensures TrimSpace(URI(p)) == URI(p) && URI(p) != "" && URI(p)[0] != '#'
  {
    var uri, port := URI(p), Decimal(p.port);
    ItoaTight(p.port);
    assert uri[0] == 's' == p.proto[0];
    assert uri[|uri| - 1] == port[|port| - 1];
    TrimTight(uri);
  }

  lemma LowerScheme(s: string)
    requires s == "socks4" || s == "socks5"
    ensures ToLower(s) == s
  {
  }

  lemma MatchGives(p: Proxy)
    requires WellFormed(p)
    ensures AllDigits(MatchOf(p).tail.digits) && FromMatch(MatchOf(p)) == Some(p)
  {
    DigitsValueItoa(p.port);
    LowerScheme(p.proto);
  }

  /** Parsing a printed proxy gives the proxy. */
  lemma ParseURI(p: Proxy)
    requires WellFormed(p)
    ensures ParseLine(URI(p)) == Some(p)
  {
    URIMatches(p);
    MatchIsUnambiguous(URI(p), MatchOf(p));
    URITrimmed(p);
    MatchGives(p);
  }

  lemma URIOneLine(p: Proxy)
    requires WellFormed(p)
    ensures '\n' !in URI(p)
  {
    ItoaTight(p.port);
    forall s | NoBlanks(s) ensures '\n' !in s {}
    assert '\n' !in p.host && '\n' !in p.username && '\n' !in p.password && '\n' !in p.proto;
    assert '\n' !in Decimal(p.port);
  }

  function URIs(ps: seq<Proxy>): seq<string> {
    seq(|ps|, k requires 0 <= k < |ps| => URI(ps[k]))
  }

  lemma {:induction false} FoundAll(results: seq<Option<Proxy>>, ps: seq<Proxy>)
    requires |results| == |ps| && forall k: nat :: k < |ps| ==> results[k] == Some(ps[k])
    ensures Found(results) == ps
  {
    if ps != [] {
      var m := |ps| - 1;
      FoundAll(results[..m], ps[..m]);
      assert ps == ps[..m] + [ps[m]];
    }
  }

  lemma ParsedURIs(ps: seq<Proxy>)
    requires forall k: nat :: k < |ps| ==> WellFormed(ps[k])
    ensures ParsedLines(URIs(ps)) == ps
  {
    forall k: nat | k < |ps| ensures ParseLine(URI(ps[k])) == Some(ps[k]) {
      ParseURI(ps[k]);
    }
    FoundAll(Parsed(URIs(ps)), ps);
  }

  lemma {:induction false} DistinctFirsts(ps: seq<Proxy>)
    requires forall i, j :: 0 <= i < j < |ps| ==> Identity(ps[i]) != Identity(ps[j])
    ensures Firsts(ps) == ps
  {
    if ps != [] {
      var init, last := ps[..|ps| - 1], ps[|ps| - 1];
      DistinctFirsts(init);
      assert !Known(last, init);
    }
  }

  lemma EmptyText()
    ensures ParsedLines(Split("", '\n')) == []
  {
    assert Split("", '\n') == [""];
    assert ParseLine("").None?;
    assert Parsed([""])[..0] == [];
  }

  /** A pool file: well-formed proxies with distinct identities survive printing and parsing. */
  lemma PoolRoundTrip(ps: seq<Proxy>)
    requires forall p :: p in ps ==> WellFormed(p)
    requires forall i, j :: 0 <= i < j < |ps| ==> Identity(ps[i]) != Identity(ps[j])
    ensures Firsts(ParsedLines(Split(Join(URIs(ps), '\n'), '\n'))) == ps
  {
    if ps == [] {
      EmptyText();
    } else {
      forall line | line in URIs(ps) ensures '\n' !in line {
        var k :| 0 <= k < |ps| && URIs(ps)[k] == line;
        assert ps[k] in ps;
        URIOneLine(ps[k]);
      }
      SplitJoin(URIs(ps), '\n');
      ParsedURIs(ps);
      DistinctFirsts(ps);
    }
  }

  lemma LongSMatch(scheme: string)
    requires scheme == "\U{017F}ocks5"
    ensures IsScheme(scheme) && FromMatch(Match(scheme, Tail(None, "h", "1"))) == Some(Proxy("h", 1, scheme, "", ""))
  {
    DigitsValueItoa(1);
    assert Itoa(1) == "1";
    assert ToLower(scheme) == scheme;
  }

  lemma BareTail(host: string, digits: string)
    requires IsHost(host) && IsNumber(digits)
    ensures FindTail(host + ":" + digits) == Some(Tail(None, host, digits))
  {
    HostAndPortAt(host, digits);
    NoLogin(host, digits);
  }

  lemma BareURI(scheme: string, host: string, digits: string)
    requires IsScheme(scheme) && IsHost(host) && IsNumber(digits)
    ensures ParseLine(scheme + "://" + (host + ":" + digits)) == FromMatch(Match(scheme, Tail(None, host, digits)))
  {
    var line := scheme + "://" + (host + ":" + digits);
    assert line[0] == scheme[0] && line[|line| - 1] == digits[|digits| - 1];
    TrimTight(line);
    BareTail(host, digits);
    SchemeOf(scheme + "://" + (host + ":" + digits), scheme, host + ":" + digits);
  }

  /** A line whose scheme is neither socks4 nor socks5 once parsed. */
  lemma LongSIsAccepted()
    ensures var scheme := "\U{017F}ocks5";
            ParseLine(scheme + "://" + ("h" + ":" + "1")) == Some(Proxy("h", 1, scheme, "", ""))
  {
    var scheme := "\U{017F}ocks5";
    LongSMatch(scheme);
    BareURI(scheme, "h", "1");
  }
}
