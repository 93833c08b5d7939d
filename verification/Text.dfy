/** The string operations of the standard library that the parsers and printers rely on. */
module Text {
  import opened Sequences

  /** White space as the string functions see it. */
  predicate IsSpace(c: char) {
    || '\t' <= c <= '\r' || c == ' ' || c == '\U{0085}' || c == '\U{00A0}' || c == '\U{1680}'
    || '\U{2000}' <= c <= '\U{200A}' || c == '\U{2028}' || c == '\U{2029}' || c == '\U{202F}'
    || c == '\U{205F}' || c == '\U{3000}'
  }

  function TrimLeft(s: string): string {
    if s != "" && IsSpace(s[0]) then TrimLeft(s[1..]) else s
  }

  function TrimRight(s: string): string {
    if s != "" && IsSpace(s[|s| - 1]) then TrimRight(s[..|s| - 1]) else s
  }

  function TrimSpace(s: string): string {
    TrimRight(TrimLeft(s))
  }

  predicate Tight(s: string) {
    s == "" || (!IsSpace(s[0]) && !IsSpace(s[|s| - 1]))
  }

  lemma TrimTight(s: string)
    requires Tight(s)
    ensures TrimSpace(s) == s
  {
  }

  lemma {:induction false} TrimLeftStops(s: string)
    ensures TrimLeft(s) == "" || !IsSpace(TrimLeft(s)[0])
  {
    if s != "" && IsSpace(s[0]) { TrimLeftStops(s[1..]); }
  }

  predicate AllSpace(s: string) {
    forall i :: 0 <= i < |s| ==> IsSpace(s[i])
  }

  lemma {:induction false} TrimLeftStrips(before: string, s: string)
    requires AllSpace(before)
    ensures TrimLeft(before + s) == TrimLeft(s)
  {
    if before == "" {
      assert before + s == s;
    } else {
      assert (before + s)[1..] == before[1..] + s;
      TrimLeftStrips(before[1..], s);
    }
  }

  lemma {:induction false} TrimRightStrips(s: string, after: string)
    requires AllSpace(after)
    ensures TrimRight(s + after) == TrimRight(s)
  {
    if after == "" {
      assert s + after == s;
    } else {
      var m := |after| - 1;
      assert (s + after)[..|s + after| - 1] == s + after[..m];
      TrimRightStrips(s, after[..m]);
    }
  }

  /** Space around a text goes, all of it and nothing else. */
  lemma TrimStrips(before: string, s: string, after: string)
    requires AllSpace(before) && AllSpace(after) && Tight(s)
    ensures TrimSpace(before + s + after) == s
  {
    assert before + s + after == before + (s + after);
    TrimLeftStrips(before, s + after);
    if s == "" {
      assert s + after == after && after + "" == after;
      TrimLeftStrips(after, "");
    } else {
      assert TrimLeft(s + after) == s + after;
      TrimRightStrips(s, after);
    }
  }

  function Split(s: string, c: char): (parts: seq<string>)
    ensures parts != []
  {
    if s == "" then [""]
    else
      var rest := Split(s[1..], c);
      if s[0] == c then [""] + rest else [[s[0]] + rest[0]] + rest[1..]
  }

  function Join(parts: seq<string>, c: char): string {
    if parts == [] then "" else if |parts| == 1 then parts[0] else parts[0] + [c] + Join(parts[1..], c)
  }

  lemma {:induction false} SplitNone(s: string, c: char)
    requires c !in s
    ensures Split(s, c) == [s]
  {
    if s != "" {
      SplitNone(s[1..], c);
      assert [s[0]] + s[1..] == s;
    }
  }

  lemma {:induction false} SplitFirst(a: string, rest: string, c: char)
    requires c !in a
    ensures Split(a + [c] + rest, c) == [a] + Split(rest, c)
  {
    var s := a + [c] + rest;
    if a == "" {
      assert s[1..] == rest;
    } else {
      assert s[1..] == a[1..] + [c] + rest;
      SplitFirst(a[1..], rest, c);
      assert s[0] == a[0] && [a[0]] + a[1..] == a;
    }
  }

  /** Splitting undoes joining when the separator does not occur in the parts. */
  lemma {:induction false} SplitJoin(parts: seq<string>, c: char)
    requires parts != [] && forall p :: p in parts ==> c !in p
    ensures Split(Join(parts, c), c) == parts
  {
    if |parts| == 1 {
      SplitNone(parts[0], c);
    } else {
      SplitFirst(parts[0], Join(parts[1..], c), c);
      SplitJoin(parts[1..], c);
    }
  }

  /** The parts have no separator in them, and joined they are the text again. */
  lemma {:induction false} SplitParts(s: string, c: char)
    ensures Join(Split(s, c), c) == s
    ensures forall k :: 0 <= k < |Split(s, c)| ==> c !in Split(s, c)[k]
  {
    if s != "" {
      SplitParts(s[1..], c);
      var rest := Split(s[1..], c);
      assert s == [s[0]] + s[1..];
      if s[0] == c {
        assert ([""] + rest)[1..] == rest;
      } else {
        var first := [s[0]] + rest[0];
        assert ([first] + rest[1..])[1..] == rest[1..];
      }
    }
  }

  predicate IsDigit(c: char) {
    '0' <= c <= '9'
  }

  predicate AllDigits(s: string) {
    forall i :: 0 <= i < |s| ==> IsDigit(s[i])
  }

  function DigitValue(c: char): (d: nat)
    requires IsDigit(c)
    ensures d < 10
  {
    c as int - '0' as int
  }

  function DigitChar(d: nat): (c: char)
    requires d < 10
    ensures IsDigit(c) && DigitValue(c) == d
  {
    "0123456789"[d]
  }

  /** Decimal notation. */
  function Itoa(n: nat): (s: string)
    ensures s != "" && AllDigits(s)
  {
    if n < 10 then [DigitChar(n)] else Itoa(n / 10) + [DigitChar(n % 10)]
  }

  function DigitsValue(s: string): nat
    requires AllDigits(s)
  {
    if s == "" then 0 else 10 * DigitsValue(s[..|s| - 1]) + DigitValue(s[|s| - 1])
  }

  const INT_LIMIT: int := 0x8000_0000_0000_0000

  /** A decimal integer with an optional sign, within 64 bits; None is the error return. */
  function Atoi(s: string): Option<int> {
    var digits := if s != "" && (s[0] == '-' || s[0] == '+') then s[1..] else s;
    if digits == "" || !AllDigits(digits) then None
    else
      var n: int := DigitsValue(digits);
      var value: int := if s[0] == '-' then -n else n;
      if -INT_LIMIT <= value < INT_LIMIT then Some(value) else None
  }

  lemma AtoiPlain(s: string)
    ensures Atoi(s).Some? ==> s != "" && forall k :: 0 <= k < |s| ==> s[k] == '+' || s[k] == '-' || IsDigit(s[k])
  {
    if Atoi(s).Some? && (s[0] == '-' || s[0] == '+') { assert forall k :: 1 <= k < |s| ==> s[k] == s[1..][k - 1]; }
  }

  /** Decimal notation with a sign where one is needed. */
  function Decimal(n: int): string {
    if n < 0 then "-" + Itoa(-n) else Itoa(n)
  }

  lemma {:induction false} DigitsValueItoa(n: nat)
    ensures DigitsValue(Itoa(n)) == n
  {
    if n >= 10 {
      DigitsValueItoa(n / 10);
      assert Itoa(n)[..|Itoa(n)| - 1] == Itoa(n / 10);
    }
  }

  /** Reading undoes printing. */
  lemma AtoiItoa(n: nat)
    requires n < INT_LIMIT
    ensures Atoi(Itoa(n)) == Some(n)
  {
    DigitsValueItoa(n);
    assert IsDigit(Itoa(n)[0]);
  }

  /** A decimal numeral is a sign, if any, and digits; it is read as their value if that fits 64 bits. */
  lemma AtoiIff(s: string, n: int)
    ensures Atoi(s) == Some(n) <==>
              && -INT_LIMIT <= n < INT_LIMIT
              && exists digits ::
                   && digits != "" && AllDigits(digits)
                   && if s == "-" + digits then n == 0 - DigitsValue(digits)
                      else (s == digits || s == "+" + digits) && n == DigitsValue(digits)
  {
    if s != "" && (s[0] == '-' || s[0] == '+') {
      assert s == [s[0]] + s[1..];
      forall digits | digits != "" && AllDigits(digits) && (s == digits || s == "-" + digits || s == "+" + digits)
        ensures digits == s[1..]
      {
        assert IsDigit(digits[0]);
      }
    }
  }

  /** The digits of a number: no zero in front but for zero itself, the last digit last. */
  lemma {:induction false} ItoaDigits(n: nat)
    ensures Itoa(n) != "" && (n > 0 ==> Itoa(n)[0] != '0')
    ensures Itoa(n)[|Itoa(n)| - 1] == "0123456789"[n % 10]
    ensures n >= 10 ==> Itoa(n)[..|Itoa(n)| - 1] == Itoa(n / 10)
  {
    if n >= 10 { ItoaDigits(n / 10); }
  }

  lemma ItoaInjective(m: nat, n: nat)
    requires Itoa(m) == Itoa(n)
    ensures m == n
  {
    DigitsValueItoa(m);
    DigitsValueItoa(n);
  }

  lemma SignShows(n: int)
    ensures Decimal(n) != "" && (n < 0 <==> Decimal(n)[0] == '-')
  {
    if n >= 0 { assert IsDigit(Itoa(n)[0]); }
  }

  lemma SameTail(s: string, t: string)
    requires "-" + s == "-" + t
    ensures s == t
  {
    assert s == ("-" + s)[1..] && t == ("-" + t)[1..];
  }

  lemma NegativesDiffer(m: nat, n: nat)
    requires "-" + Itoa(m) == "-" + Itoa(n)
    ensures m == n
  {
    SameTail(Itoa(m), Itoa(n));
    ItoaInjective(m, n);
  }

  lemma DecimalInjective(m: int, n: int)
    requires Decimal(m) == Decimal(n)
    ensures m == n
  {
    SignShows(m);
    SignShows(n);
    if m < 0 {
      NegativesDiffer(-m, -n);
    } else {
      assert Decimal(m) == Itoa(m) && Decimal(n) == Itoa(n);
      ItoaInjective(m, n);
    }
  }

  lemma {:induction false} ItoaTight(n: nat)
    ensures Tight(Itoa(n)) && forall c :: c in Itoa(n) ==> IsDigit(c)
  {
  }

  lemma DecimalPlain(n: int)
    ensures ':' !in Decimal(n) && '/' !in Decimal(n)
  {
    ItoaTight(if n < 0 then -n else n);
  }

  /** The position of the first c in s, or |s|. */
  function IndexOf(s: string, c: char): (i: nat)
    ensures i <= |s|
    ensures i < |s| ==> s[i] == c
    ensures forall j :: 0 <= j < i ==> s[j] != c
  {
    if s == "" || s[0] == c then 0 else 1 + IndexOf(s[1..], c)
  }

  lemma IndexOfAt(a: string, c: char, rest: string)
    requires c !in a
    ensures IndexOf(a + [c] + rest, c) == |a|
  {
    var s := a + [c] + rest;
    forall j | 0 <= j < |a| ensures s[j] != c {
      assert s[j] == a[j];
    }
    assert s[|a|] == c;
  }

  lemma CutAt(s: string, i: nat)
    requires i < |s|
    ensures s == s[..i] + [s[i]] + s[i + 1..]
  {
  }

  /** Lower case, as far as ASCII results go: letters that map outside ASCII are left as they are. */
  function LowerChar(c: char): char {
    if 'A' <= c <= 'Z' then c - 'A' + 'a'
    else if c == '\U{212A}' then 'k'
    else if c == '\U{0130}' then 'i'
    else c
  }

  function ToLower(s: string): string {
    seq(|s|, i requires 0 <= i < |s| => LowerChar(s[i]))
  }

  predicate OccursAt(s: string, t: string, i: nat) {
    i + |t| <= |s| && s[i..i + |t|] == t
  }

  /** t occurs in s. */
  predicate Occurs(s: string, t: string) {
    exists i :: 0 <= i <= |s| && OccursAt(s, t, i)
  }

  lemma OccursWithin(s: string, t: string, u: string)
    requires Occurs(s, t) && Occurs(t, u)
    ensures Occurs(s, u)
  {
    var i :| 0 <= i <= |s| && OccursAt(s, t, i);
    var j :| 0 <= j <= |t| && OccursAt(t, u, j);
    forall x | 0 <= x < |u| ensures s[i + j + x] == u[x] {
      assert u[x] == t[j..j + |u|][x] == t[j + x] == s[i..i + |t|][j + x];
    }
    assert s[i + j..i + j + |u|] == u;
    assert OccursAt(s, u, i + j);
  }

  /** Letter case set aside for a lower-case d; the Kelvin sign counts as a k, a dotted capital I as an i. */
  predicate SameLetter(c: char, d: char) {
    || c == d
    || ('a' <= d <= 'z' && c as int == d as int - 32)
    || (d == 'k' && c == '\U{212A}')
    || (d == 'i' && c == '\U{0130}')
  }

  predicate MentionedAt(s: string, t: string, i: nat) {
    i + |t| <= |s| && forall j :: 0 <= j < |t| ==> SameLetter(s[i + j], t[j])
  }

  /** The lower-case text t occurs in s in some letter case. */
  predicate Mentioned(s: string, t: string) {
    exists i :: 0 <= i <= |s| && MentionedAt(s, t, i)
  }

  /** A text that is mentioned lends every letter. */
  lemma LetterShows(s: string, t: string, j: nat)
    requires j < |t|
    ensures Mentioned(s, t) ==> exists i :: 0 <= i < |s| && SameLetter(s[i], t[j])
  {
    if i :| 0 <= i <= |s| && MentionedAt(s, t, i) { assert SameLetter(s[i + j], t[j]); }
  }

  lemma LettersShow(s: string, t: string, j: nat)
    requires j + 1 < |t|
    ensures Mentioned(s, t) ==> exists i :: 0 <= i < |s| - 1 && SameLetter(s[i], t[j]) && SameLetter(s[i + 1], t[j + 1])
  {
    if i :| 0 <= i <= |s| && MentionedAt(s, t, i) {
      assert SameLetter(s[i + j], t[j]) && SameLetter(s[i + j + 1], t[j + 1]);
    }
  }

  lemma LowerIff(c: char, d: char)
    requires !('A' <= d <= 'Z') && d != '\U{212A}' && d != '\U{0130}'
    ensures LowerChar(c) == d <==> SameLetter(c, d)
  {
  }

  /** Searching the lower-case form for a lower-case text is searching in any letter case. */
  lemma OccursLowered(s: string, t: string)
    requires forall j :: 0 <= j < |t| ==> ' ' <= t[j] <= '~' && !('A' <= t[j] <= 'Z')
    ensures Occurs(ToLower(s), t) <==> Mentioned(s, t)
  {
    forall i: nat | i <= |s| ensures OccursAt(ToLower(s), t, i) <==> MentionedAt(s, t, i) {
      if i + |t| <= |s| {
        var found := ToLower(s)[i..i + |t|];
        forall j | 0 <= j < |t| ensures found[j] == t[j] <==> SameLetter(s[i + j], t[j]) {
          LowerIff(s[i + j], t[j]);
        }
      }
    }
  }

  /** Something, the text, something. */
  lemma OccursIff(s: string, t: string)
    ensures Occurs(s, t) <==> exists before, after :: s == before + t + after
  {
    if Occurs(s, t) {
      var i :| 0 <= i <= |s| && OccursAt(s, t, i);
      assert s == s[..i] + t + s[i + |t|..];
    }
    if before, after :| s == before + t + after { assert OccursAt(s, t, |before|); }
  }

  /** The position of the first white space in s, or |s|. */
  function SpaceAt(s: string): (i: nat)
    ensures i <= |s|
    ensures s != "" && !IsSpace(s[0]) ==> i > 0
  {
    if s == "" || IsSpace(s[0]) then 0 else 1 + SpaceAt(s[1..])
  }

  lemma {:induction false} TrimLeftShortens(s: string)
    ensures |TrimLeft(s)| <= |s|
  {
    if s != "" && IsSpace(s[0]) { TrimLeftShortens(s[1..]); }
  }

  /** The maximal stretches without white space. */
  function Fields(s: string): (r: seq<string>)
    ensures forall k :: 0 <= k < |r| ==> r[k] != ""
    decreases |s|
  {
    TrimLeftShortens(s);
    TrimLeftStops(s);
    var t := TrimLeft(s);
    if t == "" then [] else [t[..SpaceAt(t)]] + Fields(t[SpaceAt(t)..])
  }

  predicate NoSpace(s: string) {
    forall i :: 0 <= i < |s| ==> !IsSpace(s[i])
  }

  lemma {:induction false} SpaceAtFirst(s: string)
    ensures NoSpace(s[..SpaceAt(s)]) && (SpaceAt(s) < |s| ==> IsSpace(s[SpaceAt(s)]))
  {
    if s != "" && !IsSpace(s[0]) {
      SpaceAtFirst(s[1..]);
      assert s[..SpaceAt(s)] == [s[0]] + s[1..][..SpaceAt(s[1..])];
    }
  }

  lemma {:induction false} SpaceAtEnd(a: string, rest: string)
    requires NoSpace(a) && (rest == "" || IsSpace(rest[0]))
    ensures SpaceAt(a + rest) == |a|
  {
    if a == "" {
      assert a + rest == rest;
    } else {
      assert (a + rest)[1..] == a[1..] + rest;
      SpaceAtEnd(a[1..], rest);
    }
  }

  lemma Regrouped(a: string, b: string, c: string)
    ensures (a + b) + c == a + (b + c)
  {
  }

  /** What comes off the front is space. */
  lemma {:induction false} TrimLeftCuts(s: string) returns (before: string)
    ensures AllSpace(before) && s == before + TrimLeft(s)
  {
    before := "";
    if s != "" && IsSpace(s[0]) {
      var rest := TrimLeftCuts(s[1..]);
      before := [s[0]] + rest;
      Regrouped([s[0]], rest, TrimLeft(s));
      assert s == [s[0]] + s[1..];
    } else {
      assert s == "" + s;
    }
  }

  lemma NoFields(after: string)
    requires AllSpace(after)
    ensures Fields(after) == []
  {
    assert after + "" == after;
    TrimLeftStrips(after, "");
  }

  /** The first field of a text that has one. */
  lemma FieldFirst(before: string, a: string, rest: string)
    requires AllSpace(before) && NoSpace(a) && a != "" && (rest == "" || IsSpace(rest[0]))
    ensures Fields(before + a + rest) == [a] + Fields(rest)
  {
    var s, t := before + a + rest, a + rest;
    assert s == before + t;
    TrimLeftStrips(before, t);
    assert t[0] == a[0] && TrimLeft(t) == t;
    SpaceAtEnd(a, rest);
    assert t[..|a|] == a && t[|a|..] == rest;
  }

  /** Two stretches with space between. */
  lemma TwoFields(a: string, gap: string, b: string)
    requires NoSpace(a) && NoSpace(b) && a != "" && b != "" && AllSpace(gap) && gap != ""
    ensures Fields(a + gap + b) == [a, b]
  {
    assert a + gap + b == "" + a + (gap + b) && gap + b == gap + b + "";
    FieldFirst("", a, gap + b);
    FieldFirst(gap, b, "");
    NoFields("");
  }

  lemma CutWithin(a: string, s: string, k: nat)
    requires k <= |s|
    ensures a + s == a + s[..k] + s[k..]
  {
    assert s == s[..k] + s[k..];
  }

  /** The first field, and what is ahead of it and after it. */
  lemma FieldCut(s: string) returns (before: string, rest: string)
    requires Fields(s) != []
    ensures var a := Fields(s)[0];
            && AllSpace(before) && NoSpace(a) && a != "" && (rest == "" || IsSpace(rest[0]))
            && s == before + a + rest && Fields(rest) == Fields(s)[1..]
  {
    before := TrimLeftCuts(s);
    var t := TrimLeft(s);
    TrimLeftStops(s);
    rest := t[SpaceAt(t)..];
    SpaceAtFirst(t);
    CutWithin(before, t, SpaceAt(t));
  }

  lemma {:induction false} TrimRightCuts(s: string) returns (after: string)
    ensures AllSpace(after) && s == TrimRight(s) + after
    ensures TrimRight(s) == "" || !IsSpace(TrimRight(s)[|TrimRight(s)| - 1])
  {
    after := "";
    if s != "" && IsSpace(s[|s| - 1]) {
      var init := TrimRightCuts(s[..|s| - 1]);
      after := init + [s[|s| - 1]];
      Regrouped(TrimRight(s), init, [s[|s| - 1]]);
      assert s == s[..|s| - 1] + [s[|s| - 1]];
    } else {
      assert s == s + "";
    }
  }

  lemma TrimIsTight(s: string)
    ensures Tight(TrimSpace(s))
  {
    TrimLeftStops(s);
    var after := TrimRightCuts(TrimLeft(s));
    if TrimSpace(s) != "" { assert TrimSpace(s)[0] == TrimLeft(s)[0]; }
  }
}
