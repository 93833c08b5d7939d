/** The three notations of a proxy line, said without the parser, and that the parser knows them and no others. */
module ProxyLines {
  import opened Sequences
  import opened Text
  import opened ProxyList

  /** The expression matches in this way, and says these things. */
  predicate Carries(m: Match, p: Proxy) {
    && p.host == m.tail.host && p.proto == ToLower(m.scheme)
    && AllDigits(m.tail.digits) && p.port == DigitsValue(m.tail.digits) && 1 <= p.port <= 65535
    && (match m.tail.login
        case None => p.username == "" && p.password == ""
        case Some(Credentials(u, w)) => p.username == u && p.password == w)
  }

  ghost predicate AsURI(t: string, p: Proxy) {
    exists m :: MatchesAs(t, m) && Carries(m, p)
  }

  predicate Numeral(s: string, port: int) {
    Atoi(s) == Some(port) && 1 <= port <= 65535
  }

  predicate ColonText(t: string, p: Proxy, digits: string) {
    && Numeral(digits, p.port)
    && (|| (p.username == "" && p.password == "" && t == p.host + ":" + digits)
        || (':' !in p.username && ':' !in p.password
            && t == p.host + ":" + (digits + ":" + (p.username + ":" + p.password))))
  }

  /** host:port or host:port:user:password. */
  ghost predicate AsColons(t: string, p: Proxy) {
    p.proto == "socks5" && p.host != "" && ':' !in p.host && exists digits :: ColonText(t, p, digits)
  }

  predicate SpacedText(t: string, p: Proxy, gap: string, digits: string) {
    Numeral(digits, p.port) && AllSpace(gap) && gap != "" && t == p.host + gap + digits
  }

  /** host and port with white space between. */
  ghost predicate AsSpaced(t: string, p: Proxy) {
    && p.proto == "socks5" && p.username == "" && p.password == "" && p.host != "" && NoSpace(p.host)
    && exists gap, digits :: SpacedText(t, p, gap, digits)
  }

  lemma JoinTwo(parts: seq<string>)
    requires |parts| == 2
    ensures Join(parts, ':') == parts[0] + ":" + parts[1]
  {
    assert Join(parts[1..], ':') == parts[1];
  }

  lemma JoinFour(parts: seq<string>)
    requires |parts| == 4
    ensures Join(parts, ':') == parts[0] + ":" + (parts[1] + ":" + (parts[2] + ":" + parts[3]))
  {
    var later := parts[1..];
    assert later[1..] == [parts[2], parts[3]];
    JoinTwo([parts[2], parts[3]]);
    assert Join(later, ':') == parts[1] + [':'] + Join(later[1..], ':');
  }

  lemma NumeralPlain(s: string, port: int)
    requires Numeral(s, port)
    ensures s != "" && s[0] != '/' && ':' !in s && NoSpace(s)
  {
    AtoiPlain(s);
  }

  lemma ColonsRead(t: string, p: Proxy)
    requires ParseColons(t) == Some(p)
    ensures AsColons(t, p)
  {
    var parts := Split(t, ':');
    SplitParts(t, ':');
    if |parts| == 4 { JoinFour(parts); } else { JoinTwo(parts); }
    assert ColonText(t, p, parts[1]);
  }

  lemma TwoColonParts(host: string, digits: string, port: int)
    requires host != "" && ':' !in host && Numeral(digits, port) && ':' !in digits
    ensures ParseColons(host + ":" + digits) == Some(Proxy(host, port, "socks5", "", ""))
  {
    var parts := [host, digits];
    JoinTwo(parts);
    SplitJoin(parts, ':');
  }

  lemma FourColonParts(host: string, digits: string, user: string, password: string, port: int)
    requires host != "" && ':' !in host && Numeral(digits, port) && ':' !in digits
    requires ':' !in user && ':' !in password
    ensures ParseColons(host + ":" + (digits + ":" + (user + ":" + password))) ==
            Some(Proxy(host, port, "socks5", user, password))
  {
    var parts := [host, digits, user, password];
    JoinFour(parts);
    SplitJoin(parts, ':');
  }

  lemma ColonsFound(t: string, p: Proxy)
    requires AsColons(t, p)
    ensures ParseColons(t) == Some(p)
  {
    var digits :| ColonText(t, p, digits);
    NumeralPlain(digits, p.port);
    if p.username == "" && p.password == "" && t == p.host + ":" + digits {
      TwoColonParts(p.host, digits, p.port);
    } else {
      FourColonParts(p.host, digits, p.username, p.password, p.port);
    }
  }

  lemma LastFieldEnds(s: string)
    requires Fields(s) == [] && (s == "" || !IsSpace(s[|s| - 1]))
    ensures s == ""
  {
    var before := TrimLeftCuts(s);
  }

  lemma SpacedRead(t: string, p: Proxy)
    requires Tight(t) && ParseSpaced(t) == Some(p)
    ensures AsSpaced(t, p)
  {
    var before, rest := FieldCut(t);
    assert !IsSpace(t[0]) && t[0] == (before + Fields(t)[0] + rest)[0];
    assert before == "";
    var gap, after := FieldCut(rest);
    assert Fields(rest)[1..] == [];
    assert t[|t| - 1] == rest[|rest| - 1];
    if after != "" { assert rest[|rest| - 1] == after[|after| - 1]; }
    LastFieldEnds(after);
    assert IsSpace(rest[0]) && rest[0] == (gap + Fields(rest)[0] + after)[0];
    assert SpacedText(t, p, gap, Fields(t)[1]);
  }

  lemma SpacedFound(t: string, p: Proxy)
    requires AsSpaced(t, p)
    ensures ParseSpaced(t) == Some(p)
  {
    var gap, digits :| SpacedText(t, p, gap, digits);
    NumeralPlain(digits, p.port);
    TwoFields(p.host, gap, digits);
  }

  lemma SchemePlain(s: string)
    requires IsScheme(s)
    ensures ':' !in s
  {
    assert s[0] != ':' && s[1] != ':' && s[2] != ':' && s[3] != ':' && s[4] != ':' && s[5] != ':';
  }

  /** After the scheme come a colon, the first, and a slash. */
  lemma URIBegins(t: string, m: Match)
    ensures MatchesAs(t, m) ==> |t| > 8 && IndexOf(t, ':') == 6 && t[7] == '/'
  {
    if MatchesAs(t, m) {
      var rest := LoginText(m.tail.login) + (m.tail.host + ":" + m.tail.digits);
      SchemePlain(m.scheme);
      assert t == m.scheme + [':'] + ("//" + rest);
      IndexOfAt(m.scheme, ':', "//" + rest);
      assert t[7] == ("//" + rest)[0];
    }
  }

  /** After the last colon come digits. */
  lemma URIEnds(t: string, m: Match) returns (k: nat)
    ensures MatchesAs(t, m) ==> k < |t| && t[k] == ':' && forall j :: k < j < |t| ==> IsDigit(t[j])
  {
    k := 0;
    if MatchesAs(t, m) {
      var d := m.tail.digits;
      var front := m.scheme + "://" + LoginText(m.tail.login) + m.tail.host;
      assert t == front + [':'] + d;
      k := |front|;
      assert forall j :: k < j < |t| ==> t[j] == d[j - k - 1];
    }
  }

  lemma ColonThen(host: string, rest: string)
    requires ':' !in host && rest != ""
    ensures var t := host + ":" + rest; IndexOf(t, ':') == |host| && t[|host| + 1] == rest[0]
  {
    IndexOfAt(host, ':', rest);
    assert host + ":" + rest == host + [':'] + rest;
  }

  lemma ColonsBegin(t: string, p: Proxy)
    requires AsColons(t, p)
    ensures var n := IndexOf(t, ':'); n + 1 < |t| && t[n + 1] != '/'
  {
    var digits :| ColonText(t, p, digits);
    NumeralPlain(digits, p.port);
    var rest := if t == p.host + ":" + digits then digits else digits + ":" + (p.username + ":" + p.password);
    ColonThen(p.host, rest);
  }

  lemma AfterGap(a: string, gap: string, b: string)
    requires gap != ""
    ensures var t, k := a + gap + b, |a| + |gap| - 1;
            t[k] == gap[|gap| - 1] && forall j :: k < j < |t| ==> t[j] == b[j - k - 1]
  {
  }

  lemma SpacedEnds(t: string, p: Proxy) returns (k: nat)
    requires AsSpaced(t, p)
    ensures k < |t| && IsSpace(t[k]) && forall j :: k < j < |t| ==> t[j] != ':'
  {
    var gap, digits :| SpacedText(t, p, gap, digits);
    NumeralPlain(digits, p.port);
    k := |p.host| + |gap| - 1;
    AfterGap(p.host, gap, digits);
  }

  lemma OthersAreNoURI(t: string, p: Proxy, m: Match)
    requires AsColons(t, p) || AsSpaced(t, p)
    ensures !MatchesAs(t, m)
  {
    if AsColons(t, p) {
      URIBegins(t, m);
      ColonsBegin(t, p);
    } else {
      var colon := URIEnds(t, m);
      var space := SpacedEnds(t, p);
    }
  }

  lemma URIIff(t: string, p: Proxy, m: Match)
    requires MatchesAs(t, m)
    ensures AllDigits(m.tail.digits) && (FromMatch(m) == Some(p) <==> AsURI(t, p))
  {
    MatchIsUnambiguous(t, m);
    forall n | MatchesAs(t, n) ensures n == m {
      MatchIsUnambiguous(t, n);
    }
  }

  lemma TrimmedIff(t: string, p: Proxy)
    requires Tight(t)
    ensures ParseTrimmed(t) == Some(p) <==>
              && t != "" && t[0] != '#'
              && (AsURI(t, p) || AsColons(t, p) || (AsSpaced(t, p) && forall q :: !AsColons(t, q)))
  {
    if FindMatch(t).Some? {
      var m := FindMatch(t).value;
      MatchIsUnambiguous(t, m);
      URIIff(t, p, m);
      forall q ensures !AsColons(t, q) && !AsSpaced(t, q) {
        if AsColons(t, q) || AsSpaced(t, q) { OthersAreNoURI(t, q, m); }
      }
    } else {
      forall m ensures !MatchesAs(t, m) {
        MatchIsUnambiguous(t, m);
      }
      forall q ensures ParseColons(t) == Some(q) <==> AsColons(t, q) {
        if ParseColons(t) == Some(q) { ColonsRead(t, q); }
        if AsColons(t, q) { ColonsFound(t, q); }
      }
      if ParseColons(t).Some? { assert AsColons(t, ParseColons(t).value); }
      if ParseSpaced(t) == Some(p) { SpacedRead(t, p); }
      if AsSpaced(t, p) { SpacedFound(t, p); }
    }
  }

  /**
   * A line is a proxy exactly when, with the space around it gone, it is no comment and one of the
   * three notations: a URI, the fields with colons between, or host and port with space between. Only
   * the last gives way to another.
   */
  lemma ParsedIff(line: string, p: Proxy)
    ensures var t := TrimSpace(line);
            ParseLine(line) == Some(p) <==>
              && t != "" && t[0] != '#'
              && (AsURI(t, p) || AsColons(t, p) || (AsSpaced(t, p) && forall q :: !AsColons(t, q)))
  {
    TrimIsTight(line);
    TrimmedIff(TrimSpace(line), p);
  }

  /** An address that is printed is a line that is read as that host and port. */
  lemma AddressParses(p: Proxy)
    requires p.host != "" && ':' !in p.host && !IsSpace(p.host[0]) && p.host[0] != '#' && 1 <= p.port <= 65535
    ensures ParseLine(Address(p)) == Some(Proxy(p.host, p.port, "socks5", "", ""))
  {
    var q, digits := Proxy(p.host, p.port, "socks5", "", ""), Decimal(p.port);
    AtoiItoa(p.port);
    ItoaTight(p.port);
    assert Address(p)[|Address(p)| - 1] == digits[|digits| - 1] && Address(p)[0] == p.host[0];
    TrimTight(Address(p));
    assert ColonText(Address(p), q, digits);
    ParsedIff(Address(p), q);
  }
}
