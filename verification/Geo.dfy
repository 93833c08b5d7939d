/** The range table that maps IPv4 addresses to country codes: parse, sort and search. */
module Geo {
  import opened Sequences
  import opened Text

  const UINT32_LIMIT := 0x1_0000_0000

  datatype Entry = Entry(start: nat, end: nat, cc: string)

  /** An unsigned 32-bit decimal number. */
  function ParseUint32(s: string): Option<nat> {
    if s == "" || !AllDigits(s) || DigitsValue(s) >= UINT32_LIMIT then None else Some(DigitsValue(s))
  }

  /** "start,end,CC": only the first two characters of what follows the second comma are kept. */
  function ParseEntry(line: string): Option<Entry> {
    var a := IndexOf(line, ',');
    if a == |line| then None
    else
      var rest := line[a + 1..];
      var b := IndexOf(rest, ',');
      if b == |rest| || |rest[b + 1..]| < 2 then None
      else
        var start, end := ParseUint32(line[..a]), ParseUint32(rest[..b]);
        if start.None? || end.None? then None else Some(Entry(start.value, end.value, rest[b + 1..b + 3]))
  }

  /** The buffer of the line scanner; a line that fills it stops the scanner with an error. */
  const LINE_LIMIT := 0x10_0000

  /** The stretches between line ends; there is none after the last line end. */
  function Stretches(text: string): seq<string> {
    var parts := Split(text, '\n');
    if parts[|parts| - 1] == "" then parts[..|parts| - 1] else parts
  }

  /** How many lines come before the first that is too long. */
  function Readable(parts: seq<string>): (n: nat)
    ensures n <= |parts|
  {
    if parts == [] || |parts[0]| >= LINE_LIMIT then 0 else 1 + Readable(parts[1..])
  }

  /** They are counted up to the first that fills the buffer. */
  lemma {:induction false} ReadableStops(parts: seq<string>)
    ensures forall k :: 0 <= k < Readable(parts) ==> |parts[k]| < 0x10_0000
    ensures Readable(parts) < |parts| ==> |parts[Readable(parts)]| >= 0x10_0000
  {
    if parts != [] && |parts[0]| < LINE_LIMIT { ReadableStops(parts[1..]); }
  }

  predicate Overlong(text: string) {
    Readable(Stretches(text)) < |Stretches(text)|
  }

  function DropReturn(line: string): string {
    if line != "" && line[|line| - 1] == '\r' then line[..|line| - 1] else line
  }

  /** The lines of a text as the scanner delivers them, up to one that is too long. */
  function Lines(text: string): seq<string> {
    var kept := Stretches(text);
    seq(Readable(kept), k requires 0 <= k < Readable(kept) => DropReturn(kept[k]))
  }

  /** Lines with their ends: each with or without a carriage return. */
  function Ended(lines: seq<string>, marks: seq<bool>): seq<string>
    requires |marks| == |lines|
  {
    seq(|lines|, k requires 0 <= k < |lines| => lines[k] + if marks[k] then "\r" else "")
  }

  lemma DropsReturn(line: string, ended: bool)
    requires '\r' !in line
    ensures DropReturn(line + if ended then "\r" else "") == line
  {
    if ended { assert (line + "\r")[..|line|] == line; }
  }

  lemma EndedApart(lines: seq<string>, marks: seq<bool>)
    requires |marks| == |lines| && forall line :: line in lines ==> '\n' !in line
    ensures forall p :: p in Ended(lines, marks) ==> '\n' !in p
  {
    forall p | p in Ended(lines, marks) ensures '\n' !in p {
      var k :| 0 <= k < |lines| && Ended(lines, marks)[k] == p;
      assert lines[k] in lines;
    }
  }

  lemma StretchesOf(parts: seq<string>, closed: bool)
    requires parts != [] && (forall p :: p in parts ==> '\n' !in p) && (!closed ==> parts[|parts| - 1] != "")
    ensures Stretches(Join(if closed then parts + [""] else parts, '\n')) == parts
  {
    SplitJoin(if closed then parts + [""] else parts, '\n');
    assert (parts + [""])[..|parts|] == parts;
  }

  lemma {:induction false} AllReadable(parts: seq<string>)
    requires forall p :: p in parts ==> |p| < LINE_LIMIT
    ensures Readable(parts) == |parts|
  {
    if parts != [] {
      assert parts[0] in parts;
      assert forall p :: p in parts[1..] ==> p in parts;
      AllReadable(parts[1..]);
    }
  }

  /** A text of lines is read as these lines, whatever their ends and whether or not the last is ended. */
  lemma LinesOfText(lines: seq<string>, marks: seq<bool>, closed: bool)
    requires |marks| == |lines| > 0 && (!closed ==> lines[|lines| - 1] != "")
    requires forall line :: line in lines ==> '\n' !in line && '\r' !in line && |line| < 0x10_0000 - 1
    ensures var parts := Ended(lines, marks);
            var text := Join(if closed then parts + [""] else parts, '\n');
            Lines(text) == lines && !Overlong(text)
  {
    var parts := Ended(lines, marks);
    var text := Join(if closed then parts + [""] else parts, '\n');
    EndedApart(lines, marks);
    StretchesOf(parts, closed);
    forall p | p in parts ensures |p| < LINE_LIMIT {
      var k :| 0 <= k < |lines| && parts[k] == p;
      assert lines[k] in lines;
    }
    AllReadable(parts);
    forall k | 0 <= k < |lines| ensures Lines(text)[k] == lines[k] {
      assert lines[k] in lines;
      DropsReturn(lines[k], marks[k]);
    }
  }

  /** Digits that stand for a 32-bit number. */
  predicate NumberText(s: string, n: nat) {
    s != "" && AllDigits(s) && DigitsValue(s) == n < 0x1_0000_0000
  }

  lemma NumberIff(s: string, n: nat)
    ensures ParseUint32(s) == Some(n) <==> NumberText(s, n)
    ensures NumberText(s, n) ==> ',' !in s
  {
  }

  /** The three fields of a line, and what is cut off after the two letters. */
  predicate EntryText(line: string, e: Entry, start: string, end: string, rest: string) {
    && line == start + [','] + (end + [','] + (e.cc + rest)) && |e.cc| == 2
    && NumberText(start, e.start) && NumberText(end, e.end)
  }

  lemma TwoAndRest(s: string, k: nat)
    requires k + 2 <= |s|
    ensures s[k..] == s[k..k + 2] + s[k + 2..]
  {
  }

  lemma FieldsJoined(line: string, a: string, after: string, b: string, tail: string, cc: string, rest: string)
    requires line == a + [','] + after && after == b + [','] + tail && tail == cc + rest
    ensures line == a + [','] + (b + [','] + (cc + rest))
  {
  }

  lemma EntryTextAt(line: string, a: nat, after: string, b: nat, e: Entry)
    requires a < |line| && line[a] == ',' && after == line[a + 1..]
    requires b + 3 <= |after| && after[b] == ',' && e.cc == after[b + 1..b + 3]
    requires NumberText(line[..a], e.start) && NumberText(after[..b], e.end)
    ensures EntryText(line, e, line[..a], after[..b], after[b + 3..])
  {
    CutAt(line, a);
    CutAt(after, b);
    TwoAndRest(after, b + 1);
    FieldsJoined(line, line[..a], after, after[..b], after[b + 1..], e.cc, after[b + 3..]);
  }

  lemma EntryWritten(line: string, e: Entry)
    requires ParseEntry(line) == Some(e)
    ensures exists start, end, rest :: EntryText(line, e, start, end, rest)
  {
    var a := IndexOf(line, ',');
    var after := line[a + 1..];
    var b := IndexOf(after, ',');
    NumberIff(line[..a], e.start);
    NumberIff(after[..b], e.end);
    EntryTextAt(line, a, after, b, e);
  }

  lemma EntryRead(line: string, e: Entry, start: string, end: string, rest: string)
    requires EntryText(line, e, start, end, rest)
    ensures ParseEntry(line) == Some(e)
  {
    var after := end + [','] + (e.cc + rest);
    NumberIff(start, e.start);
    NumberIff(end, e.end);
    IndexOfAt(start, ',', after);
    IndexOfAt(end, ',', e.cc + rest);
    assert line[..|start|] == start && line[|start| + 1..] == after;
    assert after[..|end|] == end && after[|end| + 1..] == e.cc + rest;
    assert after[|end| + 1..|end| + 3] == e.cc;
  }

  /** A line is an entry exactly when it is two 32-bit numbers and at least two letters, with commas between. */
  lemma EntryIff(line: string, e: Entry)
    ensures ParseEntry(line) == Some(e) <==> exists start, end, rest :: EntryText(line, e, start, end, rest)
  {
    if ParseEntry(line) == Some(e) { EntryWritten(line, e); }
    if start, end, rest :| EntryText(line, e, start, end, rest) { EntryRead(line, e, start, end, rest); }
  }

  /** The entries of the well-formed lines, in file order. */
  function Entries(lines: seq<string>): seq<Entry> {
    if lines == [] then []
    else
      var e := ParseEntry(lines[|lines| - 1]);
      Entries(lines[..|lines| - 1]) + if e.Some? then [e.value] else []
  }

  lemma EntriesMore(lines: seq<string>, k: nat)
    requires k < |lines|
    ensures Entries(lines[..k + 1]) ==
            Entries(lines[..k]) + if ParseEntry(lines[k]).Some? then [ParseEntry(lines[k]).value] else []
  {
    assert lines[..k + 1][..k] == lines[..k];
  }

  predicate SortedByStart(t: seq<Entry>) {
    forall i :: 0 < i < |t| ==> t[i - 1].start <= t[i].start
  }

  function Insert(e: Entry, t: seq<Entry>): seq<Entry> {
    if t == [] || e.start <= t[0].start then [e] + t else [t[0]] + Insert(e, t[1..])
  }

  /** The library sort by start. */
  function SortByStart(t: seq<Entry>): seq<Entry> {
    if t == [] then [] else Insert(t[0], SortByStart(t[1..]))
  }

  /** What the parser leaves behind; it does not get to sorting when the scanner fails. */
  function Table(text: string): seq<Entry> {
    var entries := Entries(Lines(text));
    if Overlong(text) || SortedByStart(entries) then entries else SortByStart(entries)
  }

  /** One line of the parser's loop: a line that is not well formed is skipped. */
  method ReadEntry(line: string) returns (e: Option<Entry>)
    ensures e == ParseEntry(line)
  {
    var a := IndexOf(line, ',');
    if a == |line| {
      return None;
    }
    var rest := line[a + 1..];
    var b := IndexOf(rest, ',');
    if b == |rest| {
      return None;
    }
    var cc := rest[b + 1..];
    if |cc| < 2 {
      return None;
    }
    var start, end := ParseUint32(line[..a]), ParseUint32(rest[..b]);
    if start.None? || end.None? {
      return None;
    }
    assert rest[b + 1..b + 3] == cc[..2];
    e := Some(Entry(start.value, end.value, cc[..2]));
  }

  /** The table, and whether the scanner read to the end; a caller may use the table either way. */
  method ParseTable(text: string) returns (t: seq<Entry>, ok: bool)
    ensures t == Table(text) && ok == !Overlong(text)
  {
    var lines := Lines(text);
    t := [];
    for k := 0 to |lines|
      invariant t == Entries(lines[..k])
    {
      EntriesMore(lines, k);
      var e := ReadEntry(lines[k]);
      if e.Some? {
        t := t + [e.value];
      }
    }
    assert lines[..|lines|] == lines;
    if Overlong(text) {
      return t, false;
    }
    if !SortedByStart(t) {
      t := SortByStart(t);
    }
    ok := true;
  }

  /** Halving search for an entry that ends at or after ip. */
  function Bisect(t: seq<Entry>, ip: nat, i: nat, j: nat): (b: nat)
    requires i <= j <= |t|
    ensures i <= b <= j
    decreases j - i
  {
    if i == j then i
    else
      var h := (i + j) / 2;
      if t[h].end >= ip then Bisect(t, ip, i, h) else Bisect(t, ip, h + 1, j)
  }

  predicate Covers(e: Entry, ip: nat) {
    e.start <= ip <= e.end
  }

  function Found(t: seq<Entry>, ip: nat): Option<string> {
    var i := Bisect(t, ip, 0, |t|);
    if i < |t| && Covers(t[i], ip) then Some(t[i].cc) else None
  }

  method Lookup(t: seq<Entry>, ip: nat) returns (cc: Option<string>)
    ensures cc == Found(t, ip)
  {
    var i, j := 0, |t|;
    while i < j
      invariant 0 <= i <= j <= |t|
      invariant Bisect(t, ip, 0, |t|) == Bisect(t, ip, i, j)
    {
      var h := (i + j) / 2;
      if t[h].end >= ip {
        j := h;
      } else {
        i := h + 1;
      }
    }
    if i < |t| && t[i].start <= ip && ip <= t[i].end {
      return Some(t[i].cc);
    }
    cc := None;
  }

  /** The reference: the first entry, in file order, that covers the address. */
  function Scan(entries: seq<Entry>, ip: nat): Option<string> {
    if entries == [] then None
    else if Covers(entries[0], ip) then Some(entries[0].cc)
    else Scan(entries[1..], ip)
  }

  ghost predicate Apart(a: Entry, b: Entry) {
    a.end < b.start || b.end < a.start
  }

  /** Proper ranges, no two of which share an address. */
  ghost predicate Disjoint(entries: seq<Entry>) {
    && (forall i :: 0 <= i < |entries| ==> entries[i].start <= entries[i].end)
    && (forall i, j :: 0 <= i < j < |entries| ==> Apart(entries[i], entries[j]))
  }

  lemma {:induction false} InsertHolds(e: Entry, t: seq<Entry>)
    ensures forall x :: x in Insert(e, t) <==> x == e || x in t
    ensures |Insert(e, t)| == |t| + 1
  {
    if t != [] && e.start > t[0].start { InsertHolds(e, t[1..]); }
  }

  ghost predicate Ordered(t: seq<Entry>) {
    forall i, j :: 0 <= i < j < |t| ==> t[i].start <= t[j].start
  }

  lemma LaterEntries(t: seq<Entry>)
    requires t != [] && Ordered(t) && Disjoint(t)
    ensures Ordered(t[1..]) && Disjoint(t[1..])
    ensures forall x :: x in t[1..] ==> t[0].start <= x.start && Apart(t[0], x)
    ensures forall x :: x in t ==> t[0].start <= x.start
  {
    forall x | x in t[1..] ensures t[0].start <= x.start && Apart(t[0], x) {
      var m :| 0 <= m < |t[1..]| && t[1..][m] == x;
      assert t[m + 1] == x;
    }
    assert t == [t[0]] + t[1..];
  }

  lemma FirstOrdered(e: Entry, t: seq<Entry>)
    requires Ordered(t) && Disjoint(t) && e.start <= e.end
    requires forall x :: x in t ==> e.start <= x.start && Apart(e, x)
    ensures Ordered([e] + t) && Disjoint([e] + t)
  {
    var all := [e] + t;
    forall i, j | 0 <= i < j < |all| ensures all[i].start <= all[j].start && Apart(all[i], all[j]) {
      assert all[j] in t;
    }
  }

  lemma {:induction false} InsertOrdered(e: Entry, t: seq<Entry>)
    requires Ordered(t) && Disjoint(t)
    requires e.start <= e.end && forall x :: x in t ==> Apart(e, x)
    ensures Ordered(Insert(e, t)) && Disjoint(Insert(e, t))
  {
    if t != [] && e.start > t[0].start {
      var rest := Insert(e, t[1..]);
      forall x | x in t[1..] ensures x in t {}
      InsertOrdered(e, t[1..]);
      InsertHolds(e, t[1..]);
      assert t[0] in t;
      LaterEntries(t);
      FirstOrdered(t[0], rest);
    } else {
      if t != [] { LaterEntries(t); }
      FirstOrdered(e, t);
    }
  }

  lemma {:induction false} SortOrders(t: seq<Entry>)
    requires Disjoint(t)
    ensures Ordered(SortByStart(t)) && Disjoint(SortByStart(t))
    ensures forall x :: x in SortByStart(t) <==> x in t
  {
    if t != [] {
      SortOrders(t[1..]);
      InsertHolds(t[0], SortByStart(t[1..]));
      forall x | x in t[1..] ensures Apart(t[0], x) {
        var m :| 0 <= m < |t[1..]| && t[1..][m] == x;
        assert t[m + 1] == x;
      }
      InsertOrdered(t[0], SortByStart(t[1..]));
      assert t == [t[0]] + t[1..];
    }
  }

  lemma {:induction false} AdjacentIsOrdered(t: seq<Entry>, i: nat, j: nat)
    requires SortedByStart(t) && i <= j < |t|
    ensures t[i].start <= t[j].start
    decreases j
  {
    if i < j { AdjacentIsOrdered(t, i, j - 1); }
  }

  /** The table is the well-formed lines' entries, ordered and still disjoint. */
  lemma TableIsOrdered(entries: seq<Entry>)
    requires Disjoint(entries)
    ensures var t := if SortedByStart(entries) then entries else SortByStart(entries);
            Ordered(t) && Disjoint(t) && forall x :: x in t <==> x in entries
  {
    if SortedByStart(entries) {
      forall i, j | 0 <= i < j < |entries| ensures entries[i].start <= entries[j].start {
        AdjacentIsOrdered(entries, i, j);
      }
    } else {
      SortOrders(entries);
    }
  }

  /** In an ordered disjoint table the search stops at the first entry ending at or after ip. */
  lemma {:induction false} BisectIsFirst(t: seq<Entry>, ip: nat, i: nat, j: nat)
    requires Ordered(t) && Disjoint(t) && i <= j <= |t|
    requires forall k :: 0 <= k < i ==> t[k].end < ip
    requires forall k :: j <= k < |t| ==> t[k].end >= ip
    ensures var b := Bisect(t, ip, i, j);
            b <= |t| && (forall k :: 0 <= k < b ==> t[k].end < ip) && (forall k :: b <= k < |t| ==> t[k].end >= ip)
    decreases j - i
  {
    if i < j {
      var h := (i + j) / 2;
      forall k, l | 0 <= k < l < |t| ensures t[k].end <= t[l].end {
        assert Apart(t[k], t[l]);
      }
      if t[h].end >= ip { BisectIsFirst(t, ip, i, h); } else { BisectIsFirst(t, ip, h + 1, j); }
    }
  }

  /** Among disjoint entries the scan finds a code exactly when some entry covers with that code. */
  lemma {:induction false} ScanFinds(entries: seq<Entry>, ip: nat)
    requires Disjoint(entries)
    ensures forall cc :: Scan(entries, ip) == Some(cc) <==> exists e :: e in entries && Covers(e, ip) && e.cc == cc
  {
    if entries != [] {
      ScanFinds(entries[1..], ip);
      assert entries == [entries[0]] + entries[1..];
      if Covers(entries[0], ip) {
        forall e | e in entries[1..] ensures !Covers(e, ip) {
          var m :| 0 <= m < |entries[1..]| && entries[1..][m] == e;
          assert Apart(entries[0], entries[m + 1]);
        }
      }
    }
  }

  lemma FoundFinds(t: seq<Entry>, ip: nat)
    requires Ordered(t) && Disjoint(t)
    ensures forall cc :: Found(t, ip) == Some(cc) <==> exists e :: e in t && Covers(e, ip) && e.cc == cc
  {
    BisectIsFirst(t, ip, 0, |t|);
    var b := Bisect(t, ip, 0, |t|);
    assert forall k :: b < k < |t| ==> Apart(t[b], t[k]);
    assert forall k :: 0 <= k < |t| && Covers(t[k], ip) ==> k == b;
    forall e | e in t && Covers(e, ip) ensures b < |t| && e == t[b] {
      var k :| 0 <= k < |t| && t[k] == e;
    }
  }

  lemma SearchAgrees(t: seq<Entry>, entries: seq<Entry>, ip: nat)
    requires Ordered(t) && Disjoint(t) && Disjoint(entries)
    requires forall x :: x in t <==> x in entries
    ensures Found(t, ip) == Scan(entries, ip)
  {
    ScanFinds(entries, ip);
    FoundFinds(t, ip);
    var found, scanned := Found(t, ip), Scan(entries, ip);
    if found.Some? { assert Found(t, ip) == Some(found.value); }
    if scanned.Some? { assert Scan(entries, ip) == Some(scanned.value); }
  }

  /** The search moves up with the address, whatever the table. */
  lemma {:induction false} BisectMonotone(t: seq<Entry>, a: nat, b: nat, i: nat, j: nat)
    requires a <= b && i <= j <= |t|
    ensures Bisect(t, a, i, j) <= Bisect(t, b, i, j)
    decreases j - i
  {
    if i < j {
      var h := (i + j) / 2;
      if t[h].end >= b {
        BisectMonotone(t, a, b, i, h);
      } else if t[h].end < a {
        BisectMonotone(t, a, b, h + 1, j);
      }
    }
  }

  /** If the end of an entry is looked up rightly, the search stops at that entry. */
  lemma RightSearchStops(t: seq<Entry>, k: nat)
    requires Disjoint(t) && k < |t| && Found(t, t[k].end) == Scan(t, t[k].end)
    ensures Bisect(t, t[k].end, 0, |t|) == k
  {
    ScanFinds(t, t[k].end);
    assert t[k] in t && Covers(t[k], t[k].end) && Scan(t, t[k].end) == Some(t[k].cc);
    var b := Bisect(t, t[k].end, 0, |t|);
    assert b < |t| && Covers(t[b], t[k].end);
  }

  /** In a table out of order the end of some entry is looked up wrongly. */
  lemma UnsortedMisleads(t: seq<Entry>) returns (ip: nat)
    requires Disjoint(t) && !SortedByStart(t)
    ensures Found(t, ip) != Scan(t, ip)
  {
    var k :| 0 < k < |t| && t[k - 1].start > t[k].start;
    assert Apart(t[k - 1], t[k]);
    BisectMonotone(t, t[k].end, t[k - 1].end, 0, |t|);
    ip := t[k].end;
    if Found(t, ip) == Scan(t, ip) {
      RightSearchStops(t, k);
      ip := t[k - 1].end;
      if Found(t, ip) == Scan(t, ip) { RightSearchStops(t, k - 1); }
    }
  }

  /**
   * For any text whose well-formed lines are proper, pairwise disjoint ranges, in any order and mixed
   * with malformed lines, the search in the table answers every address as a scan of the lines read
   * would, if and only if no line is too long or the lines read were in order.
   */
  lemma LookupAgreesWithScan(text: string)
    requires Disjoint(Entries(Lines(text)))
    ensures (forall ip: nat :: Found(Table(text), ip) == Scan(Entries(Lines(text)), ip)) <==>
              !Overlong(text) || SortedByStart(Entries(Lines(text)))
  {
    var entries := Entries(Lines(text));
    if !Overlong(text) || SortedByStart(entries) {
      TableIsOrdered(entries);
      forall ip: nat ensures Found(Table(text), ip) == Scan(entries, ip) {
        SearchAgrees(Table(text), entries, ip);
      }
    } else {
      var ip := UnsortedMisleads(entries);
    }
  }
}
