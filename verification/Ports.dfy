/** Port specifications: parsing, compressing and merging, on the text itself. */
module Ports {
  import opened Sequences
  import opened Text

  const MAX_PARSED_PORTS := 0x10_0000
  const MAX_PORT := 65535

  datatype Error = InvalidRange(part: string) | InvalidPort(part: string) | TooManyPorts
  datatype Result<+T> = Ok(value: T) | Err(error: Error)

  function Range(a: int, b: int): (r: seq<int>)
    ensures |r| == if a <= b then b - a + 1 else 0
    ensures forall j :: 0 <= j < |r| ==> r[j] == a + j
    decreases b - a
  {
    if a > b then [] else [a] + Range(a + 1, b)
  }

  /** One comma-separated part: a port, or the two ends of a range. */
  function ParsePart(text: string): (r: Result<(int, int)>)
    ensures r.Ok? ==> 1 <= r.value.0 <= r.value.1 <= MAX_PORT
  {
    var part := TrimSpace(text);
    if '-' in part then
      var dash := IndexOf(part, '-');
      var low := Atoi(TrimSpace(part[..dash]));
      var high := if dash < |part| then Atoi(TrimSpace(part[dash + 1..])) else None;
      if low.None? || high.None? || low.value < 1 || high.value > MAX_PORT || low.value > high.value
      then Err(InvalidRange(part))
      else Ok((low.value, high.value))
    else
      var n := Atoi(part);
      if n.None? || n.value < 1 || n.value > MAX_PORT then Err(InvalidPort(part)) else Ok((n.value, n.value))
  }

  predicate RunOk(run: (int, int)) {
    1 <= run.0 <= run.1 <= MAX_PORT
  }

  function ParseEach(parts: seq<string>): (r: seq<Result<(int, int)>>)
    ensures |r| == |parts|
    ensures forall k :: 0 <= k < |r| && r[k].Ok? ==> RunOk(r[k].value)
  {
    seq(|parts|, k requires 0 <= k < |parts| => ParsePart(parts[k]))
  }

  /** Append the parsed parts in turn; the first bad one, or one too many ports, ends it. */
  function Append(parsed: seq<Result<(int, int)>>, ports: seq<int>): Result<seq<int>> {
    if parsed == [] then Ok(ports)
    else
      match parsed[0]
      case Err(e) => Err(e)
      case Ok((a, b)) =>
        if |ports| + (b - a + 1) > MAX_PARSED_PORTS then Err(TooManyPorts)
        else Append(parsed[1..], ports + Range(a, b))
  }

  function ParseSpec(spec: string): Result<seq<int>> {
    Append(ParseEach(Split(spec, ',')), [])
  }

  method AppendRange(before: seq<int>, start: int, end: int) returns (ports: seq<int>)
    requires start <= end
    ensures ports == before + Range(start, end)
  {
    ports := before;
    for p := start to end + 1
      invariant ports == before + Range(start, end)[..p - start]
    {
      ports := ports + [p];
    }
    assert Range(start, end)[..end + 1 - start] == Range(start, end);
  }

  method ParsePorts(spec: string) returns (r: Result<seq<int>>)
    ensures r == ParseSpec(spec)
  {
    var parts := Split(spec, ',');
    ghost var parsed := ParseEach(parts);
    var ports: seq<int> := [];
    assert parsed[0..] == parsed;
    for k := 0 to |parts|
      invariant ParseSpec(spec) == Append(parsed[k..], ports)
    {
      assert parsed[k..][0] == parsed[k] && parsed[k..][1..] == parsed[k + 1..];
      var part := ParsePart(parts[k]);
      assert part == parsed[k];
      if part.Err? {
        return Err(part.error);
      }
      var start, end := part.value.0, part.value.1;
      if |ports| + (end - start + 1) > MAX_PARSED_PORTS {
        return Err(TooManyPorts);
      }
      ports := AppendRange(ports, start, end);
    }
    assert parsed[|parts|..] == [];
    r := Ok(ports);
  }

  /** What the parts denote when every one of them parses. */
  function Denoted(parsed: seq<Result<(int, int)>>): Option<seq<int>> {
    if parsed == [] then Some([])
    else
      var rest := Denoted(parsed[1..]);
      if parsed[0].Ok? && rest.Some? then Some(Range(parsed[0].value.0, parsed[0].value.1) + rest.value) else None
  }

  ghost predicate InRange(ports: seq<int>) {
    forall p :: p in ports ==> 1 <= p <= MAX_PORT
  }

  /** The parts are accepted exactly when each parses and the ports fit the limit. */
  lemma {:induction false} AppendIff(parsed: seq<Result<(int, int)>>, ports: seq<int>)
    requires forall k :: 0 <= k < |parsed| && parsed[k].Ok? ==> RunOk(parsed[k].value)
    requires |ports| <= MAX_PARSED_PORTS
    ensures Append(parsed, ports).Ok? <==>
              Denoted(parsed).Some? && |ports| + |Denoted(parsed).value| <= MAX_PARSED_PORTS
    ensures Append(parsed, ports).Ok? ==> Append(parsed, ports).value == ports + Denoted(parsed).value
    decreases |parsed|
  {
    if parsed != [] && parsed[0].Ok? {
      var first := Range(parsed[0].value.0, parsed[0].value.1);
      if |ports + first| <= MAX_PARSED_PORTS {
        AppendIff(parsed[1..], ports + first);
      }
      if Denoted(parsed[1..]).Some? {
        assert (ports + first) + Denoted(parsed[1..]).value == ports + (first + Denoted(parsed[1..]).value);
      }
    }
  }

  lemma {:induction false} DenotedInRange(parsed: seq<Result<(int, int)>>)
    requires forall k :: 0 <= k < |parsed| && parsed[k].Ok? ==> RunOk(parsed[k].value)
    ensures Denoted(parsed).Some? ==> InRange(Denoted(parsed).value)
  {
    if parsed != [] { DenotedInRange(parsed[1..]); }
  }

  /**
   * A specification is accepted exactly when each part parses and the ports fit the limit; what is
   * accepted is in range and within the limit, and lists the parts in order.
   */
  lemma AcceptedIff(spec: string)
    ensures var denoted := Denoted(ParseEach(Split(spec, ',')));
            && (ParseSpec(spec).Ok? <==> denoted.Some? && |denoted.value| <= MAX_PARSED_PORTS)
            && (ParseSpec(spec).Ok? ==>
                  && ParseSpec(spec).value == denoted.value
                  && InRange(ParseSpec(spec).value) && |ParseSpec(spec).value| <= MAX_PARSED_PORTS)
  {
    var parsed := ParseEach(Split(spec, ','));
    AppendIff(parsed, []);
    DenotedInRange(parsed);
    if Denoted(parsed).Some? { assert [] + Denoted(parsed).value == Denoted(parsed).value; }
  }

  /** How many ports the first k parts stand for. */
  function Count(parsed: seq<Result<(int, int)>>, k: nat): int
    requires k <= |parsed| && forall j :: 0 <= j < k ==> parsed[j].Ok?
  {
    if k == 0 then 0 else Count(parsed, k - 1) + parsed[k - 1].value.1 - parsed[k - 1].value.0 + 1
  }

  /** Part k is the first that does not parse or does not fit. */
  ghost predicate StopsAt(parsed: seq<Result<(int, int)>>, before: nat, k: nat, e: Error) {
    && k < |parsed| && (forall j :: 0 <= j < k ==> parsed[j].Ok?)
    && before + Count(parsed, k) <= MAX_PARSED_PORTS
    && (match parsed[k]
        case Err(error) => e == error
        case Ok(_) => e == TooManyPorts && before + Count(parsed, k + 1) > MAX_PARSED_PORTS)
  }

  lemma {:induction false} CountMore(parsed: seq<Result<(int, int)>>, k: nat)
    requires 0 < k <= |parsed| && forall j :: 0 <= j < k ==> parsed[j].Ok?
    ensures forall j :: 0 <= j < k - 1 ==> parsed[1..][j].Ok?
    ensures Count(parsed, k) == parsed[0].value.1 - parsed[0].value.0 + 1 + Count(parsed[1..], k - 1)
    decreases k
  {
    if k > 1 { CountMore(parsed, k - 1); }
  }

  lemma {:induction false} AppendStops(parsed: seq<Result<(int, int)>>, ports: seq<int>) returns (k: nat)
    requires forall k :: 0 <= k < |parsed| && parsed[k].Ok? ==> RunOk(parsed[k].value)
    requires |ports| <= MAX_PARSED_PORTS && Append(parsed, ports).Err?
    ensures StopsAt(parsed, |ports|, k, Append(parsed, ports).error)
    decreases |parsed|
  {
    k := 0;
    if parsed[0].Ok? {
      var first := Range(parsed[0].value.0, parsed[0].value.1);
      assert Count(parsed, 1) == Count(parsed, 0) + |first|;
      if |ports| + |first| <= MAX_PARSED_PORTS {
        var j := AppendStops(parsed[1..], ports + first);
        k := j + 1;
        CountMore(parsed, k);
        if parsed[k].Ok? { CountMore(parsed, k + 1); }
      }
    }
  }

  /** A specification is rejected for its first part that does not parse or does not fit. */
  lemma RejectedAt(spec: string) returns (k: nat)
    requires ParseSpec(spec).Err?
    ensures StopsAt(ParseEach(Split(spec, ',')), 0, k, ParseSpec(spec).error)
  {
    k := AppendStops(ParseEach(Split(spec, ',')), []);
  }

  /** These two texts with the first dash between them. */
  predicate IsCut(part: string, low: string, high: string) {
    part == low + ['-'] + high && '-' !in low
  }

  /** What a part without a range, or with one, must read as. */
  ghost predicate PartReads(part: string, a: int, b: int) {
    || ('-' !in part && a == b && Atoi(part) == Some(a))
    || exists low, high :: IsCut(part, low, high) && Atoi(TrimSpace(low)) == Some(a) && Atoi(TrimSpace(high)) == Some(b)
  }

  lemma CutIff(part: string, low: string, high: string)
    requires '-' in part
    ensures var dash := IndexOf(part, '-');
            dash < |part| && (IsCut(part, low, high) <==> low == part[..dash] && high == part[dash + 1..])
  {
    var dash := IndexOf(part, '-');
    assert forall j :: 0 <= j < dash ==> part[j] != '-';
    if dash < |part| { CutAt(part, dash); }
    if IsCut(part, low, high) { IndexOfAt(low, '-', high); }
  }

  lemma RangeReads(part: string, low: string, high: string, a: int, b: int)
    requires '-' in part && forall l, h :: IsCut(part, l, h) <==> l == low && h == high
    ensures PartReads(part, a, b) <==> Atoi(TrimSpace(low)) == Some(a) && Atoi(TrimSpace(high)) == Some(b)
  {
    assert IsCut(part, low, high);
  }

  lemma PlainReads(part: string, a: int, b: int)
    requires '-' !in part
    ensures PartReads(part, a, b) <==> a == b && Atoi(part) == Some(a)
  {
    forall low: string, high: string ensures '-' in low + ['-'] + high {
      assert (low + ['-'] + high)[|low|] == '-';
    }
  }

  /** A part is accepted exactly when it reads as a port or a range within bounds, space aside. */
  lemma PartAcceptedIff(text: string, a: int, b: int)
    ensures ParsePart(text) == Ok((a, b)) <==> 1 <= a <= b <= 65535 && PartReads(TrimSpace(text), a, b)
    ensures ParsePart(text).Err? ==>
              ParsePart(text).error ==
              if '-' in TrimSpace(text) then InvalidRange(TrimSpace(text)) else InvalidPort(TrimSpace(text))
  {
    var part := TrimSpace(text);
    if '-' in part {
      var dash := IndexOf(part, '-');
      forall low, high
        ensures dash < |part| && (IsCut(part, low, high) <==> low == part[..dash] && high == part[dash + 1..])
      {
        CutIff(part, low, high);
      }
      RangeReads(part, part[..dash], part[dash + 1..], a, b);
    } else {
      PlainReads(part, a, b);
    }
  }

  ghost predicate Ascends(s: seq<int>) {
    forall i, j :: 0 <= i < j < |s| ==> s[i] <= s[j]
  }

  function Insert(x: int, s: seq<int>): seq<int> {
    if s == [] || x <= s[0] then [x] + s else [s[0]] + Insert(x, s[1..])
  }

  /** The library sort. */
  function Sort(s: seq<int>): seq<int> {
    if s == [] then [] else Insert(s[0], Sort(s[1..]))
  }

  lemma HeadCounted(s: seq<int>)
    requires s != []
    ensures multiset(s) == multiset(s[1..]) + multiset{s[0]}
  {
    assert s == [s[0]] + s[1..];
  }

  lemma {:induction false} InsertHolds(x: int, s: seq<int>)
    ensures multiset(Insert(x, s)) == multiset(s) + multiset{x} && |Insert(x, s)| == |s| + 1
    ensures forall y :: y in Insert(x, s) ==> y == x || y in s
  {
    if s != [] && x > s[0] {
      InsertHolds(x, s[1..]);
      HeadCounted(s);
    }
  }

  lemma {:induction false} InsertAscends(x: int, s: seq<int>)
    requires Ascends(s)
    ensures Ascends(Insert(x, s))
  {
    if s != [] && x > s[0] {
      InsertAscends(x, s[1..]);
      InsertHolds(x, s[1..]);
      var rest := Insert(x, s[1..]);
      forall k | 0 <= k < |rest| ensures s[0] <= rest[k] {
        assert rest[k] in rest;
      }
    }
  }

  lemma {:induction false} SortSorts(s: seq<int>)
    ensures Ascends(Sort(s)) && multiset(Sort(s)) == multiset(s) && |Sort(s)| == |s|
  {
    if s != [] {
      SortSorts(s[1..]);
      InsertHolds(s[0], Sort(s[1..]));
      InsertAscends(s[0], Sort(s[1..]));
      HeadCounted(s);
    }
  }

  lemma FirstIsLeast(s: seq<int>, t: seq<int>)
    requires Ascends(s) && Ascends(t) && multiset(s) == multiset(t) && s != [] && t != []
    ensures s[0] <= t[0]
  {
    assert t[0] in multiset(s);
    var k :| 0 <= k < |s| && s[k] == t[0];
  }

  lemma SameRest(a: multiset<int>, b: multiset<int>, x: int)
    requires a + multiset{x} == b + multiset{x}
    ensures a == b
  {
    assert a == (a + multiset{x}) - multiset{x} && b == (b + multiset{x}) - multiset{x};
  }

  /** A sorted sequence is determined by its contents. */
  lemma {:induction false} SortedUnique(s: seq<int>, t: seq<int>)
    requires Ascends(s) && Ascends(t) && multiset(s) == multiset(t)
    ensures s == t
  {
    assert |multiset(s)| == |s| && |multiset(t)| == |t|;
    if s != [] && t != [] {
      FirstIsLeast(s, t);
      FirstIsLeast(t, s);
      HeadCounted(s);
      HeadCounted(t);
      SameRest(multiset(s[1..]), multiset(t[1..]), s[0]);
      SortedUnique(s[1..], t[1..]);
      assert s == [s[0]] + s[1..] && t == [t[0]] + t[1..];
    }
  }

  /** Maximal runs of consecutive ports, the run in hand being start..end. */
  function Runs(start: int, end: int, rest: seq<int>): (runs: seq<(int, int)>)
    ensures runs != []
    decreases |rest|
  {
    if rest == [] then [(start, end)]
    else if rest[0] == end + 1 then Runs(start, rest[0], rest[1..])
    else [(start, end)] + Runs(rest[0], rest[0], rest[1..])
  }

  function Show(run: (int, int)): string {
    if run.0 == run.1 then Decimal(run.0) else Decimal(run.0) + "-" + Decimal(run.1)
  }

  ghost predicate RunsOk(runs: seq<(int, int)>) {
    forall r :: r in runs ==> RunOk(r)
  }

  function ShowAll(runs: seq<(int, int)>): (parts: seq<string>)
    ensures |parts| == |runs|
  {
    seq(|runs|, k requires 0 <= k < |runs| => Show(runs[k]))
  }

  function Expand(runs: seq<(int, int)>): seq<int> {
    if runs == [] then [] else Range(runs[0].0, runs[0].1) + Expand(runs[1..])
  }

  lemma RangeMore(a: int, b: int)
    requires a <= b
    ensures Range(a, b + 1) == Range(a, b) + [b + 1]
  {
  }

  /** The runs of a sequence of ports are the sequence, cut up. */
  lemma {:induction false} RunsExpand(start: int, end: int, rest: seq<int>)
    requires start <= end
    ensures Expand(Runs(start, end, rest)) == Range(start, end) + rest
    decreases |rest|
  {
    if rest != [] {
      assert rest == [rest[0]] + rest[1..];
      if rest[0] == end + 1 {
        RunsExpand(start, rest[0], rest[1..]);
        RangeMore(start, end);
      } else {
        RunsExpand(rest[0], rest[0], rest[1..]);
        var runs := Runs(rest[0], rest[0], rest[1..]);
        assert ([(start, end)] + runs)[1..] == runs;
        assert Range(rest[0], rest[0]) == [rest[0]];
      }
    }
  }

  /** Runs that cannot be joined to their neighbours. */
  ghost predicate Maximal(runs: seq<(int, int)>) {
    && (forall k :: 0 <= k < |runs| ==> runs[k].0 <= runs[k].1)
    && (forall k :: 0 <= k < |runs| - 1 ==> runs[k + 1].0 != runs[k].1 + 1)
  }

  /** No two neighbouring runs could have been one. */
  lemma {:induction false} RunsMaximal(start: int, end: int, rest: seq<int>)
    requires start <= end
    ensures Maximal(Runs(start, end, rest)) && Runs(start, end, rest)[0].0 == start
    decreases |rest|
  {
    if rest != [] {
      if rest[0] == end + 1 {
        RunsMaximal(start, rest[0], rest[1..]);
      } else {
        RunsMaximal(rest[0], rest[0], rest[1..]);
      }
    }
  }

  lemma RangeAhead(a: int, b: int, rest: seq<int>)
    requires a <= b
    ensures var all := Range(a, b) + rest; all != [] && all[0] == a && all[1..] == Range(a + 1, b) + rest
  {
    assert Range(a, b)[1..] == Range(a + 1, b);
  }

  lemma {:induction false} RunTaken(start: int, end: int, last: int, rest: seq<int>)
    requires end <= last && (rest != [] ==> rest[0] != last + 1)
    ensures Runs(start, end, Range(end + 1, last) + rest) == Runs(start, last, rest)
    decreases last - end
  {
    if end < last {
      RangeAhead(end + 1, last, rest);
      RunTaken(start, end + 1, last, rest);
    } else {
      assert Range(end + 1, last) + rest == rest;
    }
  }

  lemma RunAhead(a: int, b: int, later: seq<(int, int)>)
    requires a <= b
    ensures var all := Expand([(a, b)] + later);
            all != [] && all[0] == a && all[1..] == Range(a + 1, b) + Expand(later)
  {
    assert ([(a, b)] + later)[1..] == later;
    RangeAhead(a, b, Expand(later));
  }

  /** Cut at any places where it cannot be joined again, a sequence falls into its runs and no others. */
  lemma {:induction false} RunsUnique(runs: seq<(int, int)>)
    requires Maximal(runs) && runs != []
    ensures Expand(runs) != [] && Expand(runs)[0] == runs[0].0
    ensures Runs(runs[0].0, runs[0].0, Expand(runs)[1..]) == runs
  {
    var (a, b) := runs[0];
    var later := runs[1..];
    assert runs == [(a, b)] + later;
    RunAhead(a, b, later);
    if later != [] { RunsUnique(later); }
    RunTaken(a, a, b, Expand(later));
  }

  lemma InRangeParts(ports: seq<int>)
    requires InRange(ports) && ports != []
    ensures RunOk((ports[0], ports[0])) && InRange(ports[1..])
  {
    assert ports[0] in ports;
    assert forall p :: p in ports[1..] ==> p in ports;
  }

  lemma {:induction false} RunsInRange(start: int, end: int, rest: seq<int>)
    requires RunOk((start, end)) && InRange(rest)
    ensures RunsOk(Runs(start, end, rest))
    decreases |rest|
  {
    if rest != [] {
      InRangeParts(rest);
      if rest[0] == end + 1 {
        RunsInRange(start, rest[0], rest[1..]);
      } else {
        RunsInRange(rest[0], rest[0], rest[1..]);
      }
    }
  }

  /** The compact text of a sorted sequence of ports. */
  function CompressSorted(sorted: seq<int>): string {
    if sorted == [] then "" else Join(ShowAll(Runs(sorted[0], sorted[0], sorted[1..])), ',')
  }

  lemma SortInRange(ports: seq<int>)
    requires InRange(ports)
    ensures InRange(Sort(ports))
  {
    SortSorts(ports);
    forall p | p in Sort(ports) ensures p in ports {
      assert p in multiset(Sort(ports));
    }
  }

  lemma ShowAllAppend(runs: seq<(int, int)>, run: (int, int))
    ensures ShowAll(runs + [run]) == ShowAll(runs) + [Show(run)]
  {
  }

  /** The run-building loop of CompressPorts. */
  method ShowRuns(sorted: seq<int>) returns (parts: seq<string>)
    requires sorted != []
    ensures parts == ShowAll(Runs(sorted[0], sorted[0], sorted[1..]))
  {
    parts := [];
    var start, end := sorted[0], sorted[0];
    ghost var closed: seq<(int, int)> := [];
    for k := 1 to |sorted|
      invariant parts == ShowAll(closed)
      invariant Runs(sorted[0], sorted[0], sorted[1..]) == closed + Runs(start, end, sorted[k..])
    {
      var p := sorted[k];
      assert sorted[k..][0] == p && sorted[k..][1..] == sorted[k + 1..];
      if p == end + 1 {
        end := p;
      } else {
        ShowAllAppend(closed, (start, end));
        parts := parts + [if start == end then Decimal(start) else Decimal(start) + "-" + Decimal(end)];
        assert closed + ([(start, end)] + Runs(p, p, sorted[k + 1..]))
            == (closed + [(start, end)]) + Runs(p, p, sorted[k + 1..]);
        closed := closed + [(start, end)];
        start, end := p, p;
      }
    }
    ShowAllAppend(closed, (start, end));
    parts := parts + [if start == end then Decimal(start) else Decimal(start) + "-" + Decimal(end)];
  }

  method CompressPorts(ports: seq<int>) returns (spec: string)
    ensures spec == CompressSorted(Sort(ports))
  {
    SortSorts(ports);
    if |ports| == 0 {
      return "";
    }
    var parts := ShowRuns(Sort(ports));
    spec := Join(parts, ',');
  }

  /** Ports that make up these runs, in whatever order they come, are written as exactly these runs. */
  lemma CompactText(ports: seq<int>, runs: seq<(int, int)>)
    requires Maximal(runs) && runs != []
    requires Ascends(Expand(runs)) && multiset(ports) == multiset(Expand(runs))
    ensures CompressSorted(Sort(ports)) == Join(ShowAll(runs), ',')
  {
    SortSorts(ports);
    SortedUnique(Sort(ports), Expand(runs));
    RunsUnique(runs);
  }

  /** The ports from a to b, in whatever order they come, are written "a-b"; a port by itself as its number. */
  lemma WholeRange(ports: seq<int>, a: int, b: int)
    requires a <= b && multiset(ports) == multiset(Range(a, b))
    ensures CompressSorted(Sort(ports)) == if a == b then Decimal(a) else Decimal(a) + "-" + Decimal(b)
  {
    var runs := [(a, b)];
    assert runs[1..] == [] && Expand(runs) == Range(a, b);
    assert ShowAll(runs) == [Show((a, b))];
    CompactText(ports, runs);
  }

  lemma ShowPlain(run: (int, int))
    requires RunOk(run)
    ensures ',' !in Show(run) && Tight(Show(run)) && Show(run) != ""
    ensures '-' in Show(run) <==> run.0 != run.1
  {
    ItoaTight(run.0);
    ItoaTight(run.1);
    if run.0 != run.1 {
      assert Show(run)[|Itoa(run.0)|] == '-';
      assert Show(run)[|Show(run)| - 1] == Itoa(run.1)[|Itoa(run.1)| - 1];
    }
  }

  lemma ParseOne(n: int)
    requires 1 <= n <= MAX_PORT
    ensures ParsePart(Itoa(n)) == Ok((n, n))
  {
    ItoaTight(n);
    TrimTight(Itoa(n));
    AtoiItoa(n);
  }

  lemma CutAtDash(low: string, high: string)
    requires '-' !in low && '-' !in high && Tight(low) && Tight(high) && low != "" && high != ""
    ensures var part := low + "-" + high;
            && TrimSpace(part) == part && '-' in part
            && IndexOf(part, '-') == |low| && |low| < |part|
            && TrimSpace(part[..|low|]) == low && TrimSpace(part[|low| + 1..]) == high
  {
    var part := low + "-" + high;
    assert part == low + ['-'] + high;
    IndexOfAt(low, '-', high);
    TrimTight(low);
    TrimTight(high);
    assert part[..|low|] == low && part[|low| + 1..] == high && part[|low|] == '-';
    assert part[|part| - 1] == high[|high| - 1];
    TrimTight(part);
  }

  lemma EndsOf(part: string, dash: nat, a: int, b: int)
    requires TrimSpace(part) == part && '-' in part && IndexOf(part, '-') == dash < |part|
    requires Atoi(TrimSpace(part[..dash])) == Some(a) && Atoi(TrimSpace(part[dash + 1..])) == Some(b)
    ensures ParsePart(part) == if 1 <= a <= b <= MAX_PORT then Ok((a, b)) else Err(InvalidRange(part))
  {
  }

  lemma ParseEnds(low: string, high: string, a: int, b: int)
    requires '-' !in low && '-' !in high && Tight(low) && Tight(high) && low != "" && high != ""
    requires Atoi(low) == Some(a) && Atoi(high) == Some(b)
    ensures var part := low + "-" + high;
            ParsePart(part) == if 1 <= a <= b <= MAX_PORT then Ok((a, b)) else Err(InvalidRange(part))
  {
    CutAtDash(low, high);
    EndsOf(low + "-" + high, |low|, a, b);
  }

  lemma ParseRange(a: int, b: int)
    requires 1 <= a <= b <= MAX_PORT
    ensures ParsePart(Itoa(a) + "-" + Itoa(b)) == Ok((a, b))
  {
    ItoaTight(a);
    ItoaTight(b);
    AtoiItoa(a);
    AtoiItoa(b);
    ParseEnds(Itoa(a), Itoa(b), a, b);
  }

  /** Parsing a printed run gives the run. */
  lemma ParseShow(run: (int, int))
    requires RunOk(run)
    ensures ParsePart(Show(run)) == Ok(run)
  {
    if run.0 == run.1 { ParseOne(run.0); } else { ParseRange(run.0, run.1); }
  }

  lemma ParseShown(runs: seq<(int, int)>)
    requires RunsOk(runs)
    ensures ParseEach(ShowAll(runs)) == seq(|runs|, k requires 0 <= k < |runs| => Ok(runs[k]))
  {
    forall k | 0 <= k < |runs| ensures ParsePart(ShowAll(runs)[k]) == Ok(runs[k]) {
      assert runs[k] in runs;
      ParseShow(runs[k]);
    }
  }

  lemma {:induction false} DenotedRuns(runs: seq<(int, int)>)
    ensures Denoted(seq(|runs|, k requires 0 <= k < |runs| => Ok(runs[k]))) == Some(Expand(runs))
  {
    if runs != [] {
      DenotedRuns(runs[1..]);
      var oks: seq<Result<(int, int)>> := seq(|runs|, k requires 0 <= k < |runs| => Ok(runs[k]));
      assert oks[1..] == seq(|runs[1..]|, k requires 0 <= k < |runs[1..]| => Ok(runs[1..][k]));
    }
  }

  /** Printed runs parse to their expansion, up to the limit. */
  lemma RunsParse(runs: seq<(int, int)>)
    requires RunsOk(runs) && runs != [] && |Expand(runs)| <= MAX_PARSED_PORTS
    ensures ParseSpec(Join(ShowAll(runs), ',')) == Ok(Expand(runs))
  {
    var parts := ShowAll(runs);
    forall p | p in parts ensures ',' !in p {
      var k :| 0 <= k < |parts| && parts[k] == p;
      assert runs[k] in runs;
      ShowPlain(runs[k]);
    }
    SplitJoin(parts, ',');
    ParseShown(runs);
    DenotedRuns(runs);
    AcceptedIff(Join(parts, ','));
  }

  /** Parsing the compact text gives back the sorted ports, duplicates included. */
  lemma CompressedParses(sorted: seq<int>)
    requires 1 <= |sorted| <= MAX_PARSED_PORTS && InRange(sorted)
    ensures ParseSpec(CompressSorted(sorted)) == Ok(sorted)
  {
    InRangeParts(sorted);
    RunsExpand(sorted[0], sorted[0], sorted[1..]);
    RunsInRange(sorted[0], sorted[0], sorted[1..]);
    assert Range(sorted[0], sorted[0]) + sorted[1..] == sorted;
    RunsParse(Runs(sorted[0], sorted[0], sorted[1..]));
  }

  /** The round trip: what ports denote survives compression and parsing. */
  lemma PortRoundTrip(ports: seq<int>)
    requires 1 <= |ports| <= MAX_PARSED_PORTS && InRange(ports)
    ensures ParseSpec(CompressSorted(Sort(ports))) == Ok(Sort(ports))
    ensures Ascends(Sort(ports)) && multiset(Sort(ports)) == multiset(ports)
  {
    SortInRange(ports);
    SortSorts(ports);
    CompressedParses(Sort(ports));
  }

  /** The members of a set of ports in ascending order. */
  function Ascending(s: set<int>, from: int): seq<int>
    decreases MAX_PORT - from
  {
    if from > MAX_PORT then [] else (if from in s then [from] else []) + Ascending(s, from + 1)
  }

  ghost predicate Ports(s: set<int>) {
    forall p :: p in s ==> 1 <= p <= MAX_PORT
  }

  lemma {:induction false} AscendingHolds(s: set<int>, from: int)
    ensures forall p :: p in Ascending(s, from) <==> p in s && from <= p <= MAX_PORT
    ensures forall i, j :: 0 <= i < j < |Ascending(s, from)| ==> Ascending(s, from)[i] < Ascending(s, from)[j]
    ensures |Ascending(s, from)| <= if from > MAX_PORT then 0 else MAX_PORT - from + 1
    decreases MAX_PORT - from
  {
    if from <= MAX_PORT {
      AscendingHolds(s, from + 1);
      var rest := Ascending(s, from + 1);
      assert forall k :: 0 <= k < |rest| ==> rest[k] in rest;
    }
  }

  lemma {:induction false} NoDupMultiset(s: seq<int>, x: int)
    requires NoDup(s)
    ensures multiset(s)[x] == if x in s then 1 else 0
  {
    if s != [] {
      var init, last := s[..|s| - 1], s[|s| - 1];
      assert s == init + [last];
      NoDupMultiset(init, x);
      assert last !in init;
    }
  }

  lemma SameMembers(s: seq<int>, t: seq<int>)
    requires NoDup(s) && NoDup(t) && forall x :: x in s <==> x in t
    ensures multiset(s) == multiset(t)
  {
    forall x ensures multiset(s)[x] == multiset(t)[x] {
      NoDupMultiset(s, x);
      NoDupMultiset(t, x);
    }
  }

  /** However a set of ports is enumerated, sorting the enumeration gives its ascending order. */
  lemma SortEnumeration(listed: seq<int>, s: set<int>)
    requires NoDup(listed) && Elems(listed) == s && Ports(s)
    ensures Sort(listed) == Ascending(s, 1)
  {
    SortSorts(listed);
    AscendingHolds(s, 1);
    SameMembers(listed, Ascending(s, 1));
    SortedUnique(Sort(listed), Ascending(s, 1));
  }

  const FULL := "1-65535"
  const FULL_FROM_ZERO := "0-65535"

  predicate IsFull(spec: string) {
    spec == FULL || spec == FULL_FROM_ZERO
  }

  /** The ports one trimmed specification adds to a merge; one that does not parse adds none. */
  function PortsOf(spec: string): (s: set<int>)
    ensures Ports(s)
  {
    AcceptedIff(spec);
    match ParseSpec(spec)
    case Ok(ports) => Elems(ports)
    case Err(_) => {}
  }

  /** The compact text of a set of ports. */
  function CompressSet(s: set<int>): string {
    CompressSorted(Ascending(s, 1))
  }

  function Merged(a: string, b: string): string {
    if IsFull(TrimSpace(a)) || IsFull(TrimSpace(b)) then FULL
    else
      CompressSet(PortsOf(TrimSpace(a)) + PortsOf(TrimSpace(b)))
  }

  method MergePortSpecs(a0: string, b0: string) returns (spec: string)
    ensures spec == Merged(a0, b0)
  {
    var a, b := TrimSpace(a0), TrimSpace(b0);
    if a == FULL || b == FULL || a == FULL_FROM_ZERO || b == FULL_FROM_ZERO {
      return FULL;
    }
    var s: set<int> := {};
    var first := ParsePorts(a);
    AcceptedIff(a);
    if first.Ok? { s := s + Elems(first.value); }
    var second := ParsePorts(b);
    AcceptedIff(b);
    if second.Ok? { s := s + Elems(second.value); }
    assert s == PortsOf(a) + PortsOf(b);
    var merged := Enumerate(s);
    forall p | p in merged ensures p in s { assert p in Elems(merged); }
    SortEnumeration(merged, s);
    spec := CompressPorts(merged);
  }

  /** What a specification denotes in a merge: "0-65535" counts as the full range. */
  function Meaning(spec: string): set<int> {
    if IsFull(TrimSpace(spec)) then Elems(Range(1, MAX_PORT)) else PortsOf(TrimSpace(spec))
  }

  lemma {:induction false} AscendingAll(s: set<int>, from: int)
    requires forall p :: from <= p <= MAX_PORT ==> p in s
    ensures Ascending(s, from) == Range(from, MAX_PORT)
    decreases MAX_PORT - from
  {
    if from <= MAX_PORT { AscendingAll(s, from + 1); }
  }

  lemma ItoaMore(n: nat, d: nat)
    requires n > 0 && d < 10
    ensures Itoa(10 * n + d) == Itoa(n) + [DigitChar(d)]
  {
  }

  lemma FullShown()
    ensures Show((1, MAX_PORT)) == FULL && Itoa(MAX_PORT) == "65535"
  {
    assert Itoa(6) == "6" && Itoa(1) == "1";
    ItoaMore(6, 5);
    assert "6" + ['5'] == "65";
    ItoaMore(65, 5);
    assert "65" + ['5'] == "655";
    ItoaMore(655, 3);
    assert "655" + ['3'] == "6553";
    ItoaMore(6553, 5);
    assert "6553" + ['5'] == "65535";
  }

  lemma OneRunParses(a: int, b: int)
    requires RunOk((a, b))
    ensures ParseSpec(Show((a, b))) == Ok(Range(a, b))
  {
    RunsParse([(a, b)]);
    assert ShowAll([(a, b)]) == [Show((a, b))];
    assert [(a, b)][1..] == [] && Range(a, b) + [] == Range(a, b);
  }

  lemma FullParses()
    ensures ParseSpec(FULL) == Ok(Range(1, MAX_PORT))
  {
    FullShown();
    OneRunParses(1, MAX_PORT);
  }

  lemma FullAscending(s: set<int>)
    requires Elems(Range(1, MAX_PORT)) <= s
    ensures Ascending(s, 1) == Range(1, MAX_PORT)
  {
    forall p | 1 <= p <= MAX_PORT ensures p in s {
      assert Range(1, MAX_PORT)[p - 1] == p;
      assert p in Elems(Range(1, MAX_PORT));
    }
    AscendingAll(s, 1);
  }

  lemma UnionIsPorts(a: string, b: string)
    ensures Ports(Meaning(a) + Meaning(b))
  {
  }

  lemma AscendingSome(s: set<int>)
    requires Ports(s) && s != {}
    ensures Ascending(s, 1) != []
  {
    AscendingHolds(s, 1);
    var p := Member(s);
    assert p in Ascending(s, 1);
  }

  lemma {:induction false} NothingAscends(from: int)
    ensures Ascending({}, from) == []
    decreases MAX_PORT - from
  {
    if from <= MAX_PORT { NothingAscends(from + 1); }
  }

  lemma SetParses(s: set<int>)
    requires Ports(s)
    ensures if s == {} then CompressSet(s) == "" else ParseSpec(CompressSet(s)) == Ok(Ascending(s, 1))
  {
    AscendingHolds(s, 1);
    if s == {} {
      NothingAscends(1);
    } else {
      AscendingSome(s);
      CompressedParses(Ascending(s, 1));
    }
  }

  lemma FullMeans(s: set<int>)
    requires Elems(Range(1, MAX_PORT)) <= s
    ensures s != {} && ParseSpec(FULL) == Ok(Ascending(s, 1))
  {
    FullAscending(s);
    FullParses();
    assert Range(1, MAX_PORT)[0] in Elems(Range(1, MAX_PORT));
  }

  /** A merge re-parses to the union of what the two specifications mean, unless that is empty. */
  lemma MergeIsUnion(a: string, b: string)
    ensures var all := Meaning(a) + Meaning(b);
            if all == {} then Merged(a, b) == "" else ParseSpec(Merged(a, b)) == Ok(Ascending(all, 1))
  {
    var all := Meaning(a) + Meaning(b);
    UnionIsPorts(a, b);
    if IsFull(TrimSpace(a)) || IsFull(TrimSpace(b)) {
      FullMeans(all);
    } else {
      SetParses(all);
      assert Merged(a, b) == CompressSet(all);
    }
  }

  /** What a specification stands for in a merge. */
  predicate Denotes(spec: string, p: int) {
    var s := TrimSpace(spec);
    if s == "1-65535" || s == "0-65535" then 1 <= p <= 65535 else ParseSpec(s).Ok? && p in ParseSpec(s).value
  }

  function SpecPorts(spec: string): seq<int> {
    if ParseSpec(spec).Ok? then ParseSpec(spec).value else []
  }

  lemma MeaningIsDenoted(spec: string, p: int)
    ensures p in Meaning(spec) <==> Denotes(spec, p)
    ensures p in Meaning(spec) ==> 1 <= p <= MAX_PORT
  {
    if IsFull(TrimSpace(spec)) {
      assert p in Elems(Range(1, MAX_PORT)) <==> p in Range(1, MAX_PORT);
      if 1 <= p <= MAX_PORT { assert Range(1, MAX_PORT)[p - 1] == p; }
    }
  }

  lemma EmptyDoesNotParse()
    ensures ParseSpec("").Err?
  {
    assert Split("", ',') == [""];
    assert ParsePart("").Err?;
    assert ParseEach([""])[0].Err?;
  }

  /** Port by port: a merge stands for what either specification stands for. */
  lemma MergeHolds(a: string, b: string, p: int)
    ensures ParseSpec(Merged(a, b)).Ok? && p in ParseSpec(Merged(a, b)).value <==> Denotes(a, p) || Denotes(b, p)
    ensures Ascends(SpecPorts(Merged(a, b))) && NoDup(SpecPorts(Merged(a, b)))
  {
    MergeIsUnion(a, b);
    EmptyDoesNotParse();
    AscendingHolds(Meaning(a) + Meaning(b), 1);
    MeaningIsDenoted(a, p);
    MeaningIsDenoted(b, p);
  }

  lemma MergeCommutes(a: string, b: string)
    ensures Merged(a, b) == Merged(b, a)
  {
    assert PortsOf(TrimSpace(a)) + PortsOf(TrimSpace(b)) == PortsOf(TrimSpace(b)) + PortsOf(TrimSpace(a));
  }

  lemma {:induction false} JoinTight(parts: seq<string>)
    requires forall p :: p in parts ==> p != "" && Tight(p)
    ensures Tight(Join(parts, ',')) && (parts != [] ==> Join(parts, ',') != "")
  {
    if |parts| > 1 {
      assert forall p :: p in parts[1..] ==> p in parts;
      JoinTight(parts[1..]);
      assert parts[0] in parts;
    } else if |parts| == 1 {
      assert parts[0] in parts;
    }
  }

  lemma CompressedIsTight(sorted: seq<int>)
    requires InRange(sorted)
    ensures Tight(CompressSorted(sorted))
  {
    if sorted != [] {
      InRangeParts(sorted);
      RunsInRange(sorted[0], sorted[0], sorted[1..]);
      var runs := Runs(sorted[0], sorted[0], sorted[1..]);
      forall p | p in ShowAll(runs) ensures p != "" && Tight(p) {
        var k :| 0 <= k < |runs| && ShowAll(runs)[k] == p;
        assert runs[k] in runs;
        ShowPlain(runs[k]);
      }
      JoinTight(ShowAll(runs));
    }
  }

  lemma LowEndDoesNotParse(low: string, high: string, b: int)
    requires ',' !in low && ',' !in high && '-' !in low && '-' !in high
    requires Tight(low) && Tight(high) && low != "" && high != "" && Atoi(low) == Some(0) && Atoi(high) == Some(b)
    ensures ParseSpec(low + "-" + high).Err?
  {
    var spec := low + "-" + high;
    ParseEnds(low, high, 0, b);
    SplitNone(spec, ',');
    AcceptedIff(spec);
    assert ParseEach([spec])[0].Err?;
  }

  lemma LowZeroDoesNotParse(low: string, high: string)
    requires low == Itoa(0) && high == Itoa(MAX_PORT)
    ensures ParseSpec(low + "-" + high).Err?
  {
    ItoaTight(0);
    ItoaTight(MAX_PORT);
    AtoiItoa(0);
    AtoiItoa(MAX_PORT);
    LowEndDoesNotParse(low, high, MAX_PORT);
  }

  lemma ZeroDoesNotParse(spec: string)
    requires spec == FULL_FROM_ZERO
    ensures ParseSpec(spec).Err?
  {
    FullShown();
    assert Itoa(0) == "0" && spec == Itoa(0) + "-" + Itoa(MAX_PORT);
    LowZeroDoesNotParse(Itoa(0), Itoa(MAX_PORT));
  }

  lemma AscendingElems(s: set<int>)
    requires Ports(s)
    ensures Elems(Ascending(s, 1)) == s
  {
    AscendingHolds(s, 1);
    forall p ensures p in Elems(Ascending(s, 1)) <==> p in s {
      assert p in Elems(Ascending(s, 1)) <==> p in Ascending(s, 1);
    }
  }

  /** Re-reading the compact text of a set gives the set. */
  lemma PortsOfCompressed(s: set<int>)
    requires Ports(s)
    ensures PortsOf(CompressSet(s)) == s
  {
    SetParses(s);
    if s == {} {
      EmptyDoesNotParse();
    } else {
      AscendingElems(s);
    }
  }

  lemma CompressedIsTrimmed(s: set<int>)
    requires Ports(s)
    ensures TrimSpace(CompressSet(s)) == CompressSet(s) && CompressSet(s) != FULL_FROM_ZERO
  {
    AscendingHolds(s, 1);
    CompressedIsTight(Ascending(s, 1));
    TrimTight(CompressSet(s));
    SetParses(s);
    ZeroDoesNotParse(FULL_FROM_ZERO);
  }

  lemma CompressedAgain(text: string, all: set<int>, more: set<int>, b: string)
    requires text == CompressSet(all) && PortsOf(text) == all && TrimSpace(text) == text && text != FULL_FROM_ZERO
    requires more <= all && more == PortsOf(TrimSpace(b)) && !IsFull(TrimSpace(b))
    ensures Merged(text, b) == text
  {
    assert all + more == all;
    if text == FULL { assert IsFull(TrimSpace(text)); }
  }

  /** Merging a specification in a second time changes nothing. */
  lemma MergeAbsorbs(a: string, b: string)
    ensures Merged(Merged(a, b), b) == Merged(a, b)
  {
    if IsFull(TrimSpace(a)) || IsFull(TrimSpace(b)) {
      TrimTight(FULL);
    } else {
      var all := PortsOf(TrimSpace(a)) + PortsOf(TrimSpace(b));
      CompressedIsTrimmed(all);
      PortsOfCompressed(all);
      CompressedAgain(Merged(a, b), all, PortsOf(TrimSpace(b)), b);
    }
  }
}
