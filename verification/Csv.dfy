/** The CSV report and a reader that recovers its records. */
module Csv {
  import opened Sequences
  import opened Text

  datatype ScanResult = ScanResult(
    host: string, port: int, proto: string, service: string, version: string, banner: string, proxy: string)

  const HEADER :=
    "host" + "," + "port" + "," + "proto" + "," + "service" + "," + "version" + "," + "banner" + "," + "proxy"

  /** Every double quote doubled. */
  function Doubled(s: string): string {
    if s == "" then "" else (if s[0] == '"' then "\"\"" else [s[0]]) + Doubled(s[1..])
  }

  function Escape(s: string): string {
    if ',' in s || '"' in s then "\"" + Doubled(s) + "\"" else s
  }

  /** The printed fields of a record: the port and the protocol are written as they are. */
  function Cells(r: ScanResult): seq<string> {
    [Escape(r.host), Decimal(r.port), r.proto, Escape(r.service), Escape(r.version), Escape(r.banner), Escape(r.proxy)]
  }

  function RowText(r: ScanResult): string {
    Join(Cells(r), ',') + "\n"
  }

  function Report(results: seq<ScanResult>): string {
    if results == [] then HEADER + "\n" else Report(results[..|results| - 1]) + RowText(results[|results| - 1])
  }

  /** The beginning of a text that a failing write still gets out. */
  function Begun(s: string, partial: nat): string {
    if |s| <= partial then s else s[..partial]
  }

  /** What reaches a writer that fails after `writes` writes, getting `partial` characters of the next out. */
  function Written(results: seq<ScanResult>, writes: nat, partial: nat): string {
    if writes > |results| then Report(results)
    else if writes == 0 then Begun(HEADER + "\n", partial)
    else Report(results[..writes - 1]) + Begun(RowText(results[writes - 1]), partial)
  }

  /** A report that fails is a beginning of the whole one. */
  lemma {:induction false} WrittenIsBeginning(results: seq<ScanResult>, writes: nat, partial: nat)
    ensures Written(results, writes, partial) <= Report(results)
  {
    if writes <= |results| && results != [] {
      var init := results[..|results| - 1];
      assert results == init + [results[|results| - 1]];
      if writes < |results| {
        WrittenIsBeginning(init, writes, partial);
        assert writes > 0 ==> init[..writes - 1] == results[..writes - 1] && init[writes - 1] == results[writes - 1];
      }
    }
  }

  lemma SevenJoined(a: string, b: string, c: string, d: string, e: string, f: string, g: string)
    ensures Join([a, b, c, d, e, f, g], ',') == a + "," + b + "," + c + "," + d + "," + e + "," + f + "," + g
  {
    assert Join([g], ',') == g;
    assert Join([f, g], ',') == f + [','] + g by { assert [f, g][1..] == [g]; }
    assert Join([e, f, g], ',') == e + [','] + Join([f, g], ',') by { assert [e, f, g][1..] == [f, g]; }
    assert Join([d, e, f, g], ',') == d + [','] + Join([e, f, g], ',') by { assert [d, e, f, g][1..] == [e, f, g]; }
    assert Join([c, d, e, f, g], ',') == c + [','] + Join([d, e, f, g], ',') by {
      assert [c, d, e, f, g][1..] == [d, e, f, g];
    }
    assert Join([b, c, d, e, f, g], ',') == b + [','] + Join([c, d, e, f, g], ',') by {
      assert [b, c, d, e, f, g][1..] == [c, d, e, f, g];
    }
    assert [a, b, c, d, e, f, g][1..] == [b, c, d, e, f, g];
  }

  method WriteCSV(results: seq<ScanResult>, writes: nat, partial: nat) returns (out: string, ok: bool)
    ensures out == Written(results, writes, partial)
    ensures ok <==> writes > |results|
  {
    if writes == 0 {
      return Begun(HEADER + "\n", partial), false;
    }
    out := HEADER + "\n";
    for k := 0 to |results|
      invariant k < writes && out == Report(results[..k])
    {
      var r := results[k];
      assert results[..k + 1][..k] == results[..k];
      var line := Escape(r.host) + "," + Decimal(r.port) + "," + r.proto + ","
        + Escape(r.service) + "," + Escape(r.version) + "," + Escape(r.banner) + "," + Escape(r.proxy) + "\n";
      SevenJoined(
        Escape(r.host), Decimal(r.port), r.proto,
        Escape(r.service), Escape(r.version), Escape(r.banner), Escape(r.proxy));
      if k + 1 == writes {
        return out + Begun(line, partial), false;
      }
      out := out + line;
    }
    assert results[..|results|] == results;
    ok := true;
  }

  /** Where a reader stands: in a plain field, in a quoted one, or just past a quote inside one. */
  datatype Mode = Fresh | Plain | Quoted | Closing

  /** A reader's result: the finished records, the fields of the current one, the current field. */
  datatype Reading = Reading(mode: Mode, records: seq<seq<string>>, fields: seq<string>, field: string) | Bad

  /**
   * One character, by section 2 of RFC 4180: commas separate fields and line feeds records, quotes
   * enclose a field that starts with one, and inside it two quotes stand for one. A bare carriage
   * return is not text; line ends are line feeds.
   */
  function Read(r: Reading, c: char): Reading {
    match r
    case Bad => Bad
    case Reading(mode, records, fields, field) =>
      if mode == Quoted then
        if c == '"' then r.(mode := Closing) else r.(field := field + [c])
      else if mode == Closing && c == '"' then r.(mode := Quoted, field := field + ['"'])
      else if c == ',' then Reading(Fresh, records, fields + [field], "")
      else if c == '\n' then Reading(Fresh, records + [fields + [field]], [], "")
      else if mode == Fresh && c == '"' then r.(mode := Quoted)
      else if mode == Closing || c == '"' || c == '\r' then Bad
      else r.(mode := Plain, field := field + [c])
  }

  function ReadAll(r: Reading, s: string): Reading
    decreases |s|
  {
    if s == "" then r else ReadAll(Read(r, s[0]), s[1..])
  }

  /** The records of a text, if it is well formed and ends with a record end. */
  function Records(s: string): Option<seq<seq<string>>> {
    var r := ReadAll(Reading(Fresh, [], [], ""), s);
    if r.Reading? && r == Reading(Fresh, r.records, [], "") then Some(r.records) else None
  }

  lemma {:induction false} ReadConcat(r: Reading, a: string, b: string)
    ensures ReadAll(r, a + b) == ReadAll(ReadAll(r, a), b)
    decreases |a|
  {
    if a == "" {
      assert a + b == b;
    } else {
      assert (a + b)[0] == a[0] && (a + b)[1..] == a[1..] + b;
      ReadConcat(Read(r, a[0]), a[1..], b);
    }
  }

  predicate OneLine(s: string) {
    '\n' !in s && '\r' !in s
  }

  predicate Unquoted(s: string) {
    ',' !in s && '"' !in s && OneLine(s)
  }

  /** Characters that need no quoting are read as they stand. */
  lemma {:induction false} ReadUnquoted(
      records: seq<seq<string>>, fields: seq<string>, field: string, s: string, mode: Mode)
    requires Unquoted(s) && (mode == Fresh || mode == Plain)
    ensures ReadAll(Reading(mode, records, fields, field), s) ==
            Reading(if s == "" then mode else Plain, records, fields, field + s)
    decreases |s|
  {
    if s == "" {
      assert field + s == field;
    } else {
      assert s == [s[0]] + s[1..] && field + s == (field + [s[0]]) + s[1..];
      ReadUnquoted(records, fields, field + [s[0]], s[1..], Plain);
    }
  }

  /** Inside quotes a doubled text is read as the text. */
  lemma {:induction false} ReadDoubled(records: seq<seq<string>>, fields: seq<string>, field: string, s: string)
    ensures ReadAll(Reading(Quoted, records, fields, field), Doubled(s)) == Reading(Quoted, records, fields, field + s)
    decreases |s|
  {
    if s == "" {
      assert field + s == field;
    } else {
      var r := Reading(Quoted, records, fields, field);
      assert field + s == (field + [s[0]]) + s[1..];
      ReadDoubled(records, fields, field + [s[0]], s[1..]);
      if s[0] == '"' {
        ReadConcat(r, "\"\"", Doubled(s[1..]));
        assert "\"\""[1..] == "\"" && "\"\""[0] == '"' && "\""[0] == '"';
        assert "\""[1..] == "";
        var closing := Reading(Closing, records, fields, field);
        assert ReadAll(r, "\"\"") == ReadAll(closing, "\"");
        assert ReadAll(closing, "\"") == ReadAll(Read(closing, '"'), "");
      } else {
        ReadConcat(r, [s[0]], Doubled(s[1..]));
      }
    }
  }

  /** From the start of a field, the text is read as this field, ready for a comma or a line feed. */
  ghost predicate ReadAs(text: string, raw: string) {
    forall records, fields ::
      var r := ReadAll(Reading(Fresh, records, fields, ""), text);
      r.Reading? && r.mode != Quoted && r == Reading(r.mode, records, fields, raw)
  }

  /** Broken, or with something else than raw after these records and fields. */
  ghost predicate Astray(r: Reading, records: seq<seq<string>>, fields: seq<string>, raw: string) {
    r.Bad? || (records <= r.records &&
      if |r.records| > |records| then
        |r.records[|records|]| > |fields| && r.records[|records|][|fields|] != raw
      else if |r.fields| > |fields| then r.fields[|fields|] != raw
      else r.fields == fields && !(r.field <= raw))
  }

  /** From the start of a field, the text and a separator make a reading that can no longer yield this field. */
  ghost predicate ReadAmiss(text: string, raw: string) {
    forall records, fields ::
      && Astray(ReadAll(Reading(Fresh, records, fields, ""), text + ","), records, fields, raw)
      && Astray(ReadAll(Reading(Fresh, records, fields, ""), text + "\n"), records, fields, raw)
  }

  lemma AstrayStep(r: Reading, c: char, records: seq<seq<string>>, fields: seq<string>, raw: string)
    requires Astray(r, records, fields, raw)
    ensures Astray(Read(r, c), records, fields, raw)
  {
    if r.Reading? && Read(r, c).Reading? && |r.records| == |records| && |r.fields| == |fields| {
      assert !(r.field + ['"'] <= raw) && !(r.field + [c] <= raw) && r.field != raw;
    }
  }

  /** A reading once astray stays astray. */
  lemma {:induction false} AstrayStays(
      r: Reading, s: string, records: seq<seq<string>>, fields: seq<string>, raw: string)
    requires Astray(r, records, fields, raw)
    ensures Astray(ReadAll(r, s), records, fields, raw)
    decreases |s|
  {
    if s != "" {
      AstrayStep(r, s[0], records, fields, raw);
      AstrayStays(Read(r, s[0]), s[1..], records, fields, raw);
    }
  }

  /** What the escaper can carry: anything it quotes, and anything on one line. */
  predicate Carried(s: string) {
    ',' in s || '"' in s || ('\n' !in s && '\r' !in s)
  }

  lemma UnquotedIsRead(s: string)
    requires Unquoted(s)
    ensures ReadAs(s, s)
  {
    forall records: seq<seq<string>>, fields: seq<string>
      ensures var r := ReadAll(Reading(Fresh, records, fields, ""), s);
              r.Reading? && r.mode != Quoted && r == Reading(r.mode, records, fields, s)
    {
      ReadUnquoted(records, fields, "", s, Fresh);
      assert "" + s == s;
    }
  }

  lemma CarriedIsRead(s: string)
    requires Carried(s)
    ensures ReadAs(Escape(s), s)
  {
    if ',' in s || '"' in s {
      forall records: seq<seq<string>>, fields: seq<string>
        ensures ReadAll(Reading(Fresh, records, fields, ""), Escape(s)) == Reading(Closing, records, fields, s)
      {
        var start := Reading(Fresh, records, fields, "");
        var inside := Reading(Quoted, records, fields, "");
        assert "" + s == s;
        assert "\""[1..] == "";
        assert Escape(s) == "\"" + (Doubled(s) + "\"");
        ReadConcat(start, "\"", Doubled(s) + "\"");
        assert ReadAll(start, "\"") == inside;
        ReadConcat(inside, Doubled(s), "\"");
        ReadDoubled(records, fields, "", s);
        assert ReadAll(Reading(Quoted, records, fields, s), "\"") == Reading(Closing, records, fields, s);
      }
    } else {
      UnquotedIsRead(s);
    }
  }

  /** The position of the first character that would need quoting, or |s|. */
  function SpecialAt(s: string): (i: nat)
    ensures i <= |s| && (i < |s| ==> s[i] == ',' || s[i] == '"' || s[i] == '\n' || s[i] == '\r')
    ensures Unquoted(s[..i])
  {
    if s == "" || s[0] == ',' || s[0] == '"' || s[0] == '\n' || s[0] == '\r' then 0
    else
      var i := SpecialAt(s[1..]);
      assert s[..i + 1] == [s[0]] + s[1..][..i];
      i + 1
  }

  ghost predicate StartsWithQuotes(s: string, n: nat) {
    n <= |s| && forall i: nat :: i < n ==> s[i] == '"'
  }

  /**
   * A text that opens with a quote but was not escaped: its leading quotes are halved, so whatever the
   * field becomes it is not the text.
   */
  lemma {:induction false} QuotesGoAstray(
      records: seq<seq<string>>, fields: seq<string>, raw: string, n: nat, sep: char)
    requires (sep == ',' || sep == '\n') && StartsWithQuotes(raw, 2 * n + 1)
    ensures Astray(ReadAll(Reading(Quoted, records, fields, raw[..n]), raw[2 * n + 1..] + [sep]), records, fields, raw)
    decreases |raw| - n
  {
    var r := Reading(Quoted, records, fields, raw[..n]);
    var t := raw[2 * n + 1..] + [sep];
    var next := Read(r, t[0]);
    if t[0] != '"' {
      assert raw[n] == '"' && (raw[..n] + [t[0]])[n] != raw[n];
      AstrayStays(next, t[1..], records, fields, raw);
    } else {
      assert |t| >= 2 && t[1..][0] == t[1] && t[1..][1..] == t[2..];
      assert ReadAll(r, t) == ReadAll(Read(next, t[1]), t[2..]);
      if t[1] == '"' {
        assert raw[..n] + ['"'] == raw[..n + 1];
        assert t[2..] == raw[2 * (n + 1) + 1..] + [sep];
        QuotesGoAstray(records, fields, raw, n + 1, sep);
      } else {
        AstrayStays(Read(next, t[1]), t[2..], records, fields, raw);
      }
    }
  }

  lemma SpecialGoesAstray(records: seq<seq<string>>, fields: seq<string>, s: string, sep: char)
    requires (sep == ',' || sep == '\n') && !Unquoted(s)
    ensures Astray(ReadAll(Reading(Fresh, records, fields, ""), s + [sep]), records, fields, s)
  {
    var j := SpecialAt(s);
    assert s[..|s|] == s;
    var start := Reading(Fresh, records, fields, "");
    assert s + [sep] == s[..j] + (s[j..] + [sep]);
    ReadConcat(start, s[..j], s[j..] + [sep]);
    ReadUnquoted(records, fields, "", s[..j], Fresh);
    assert "" + s[..j] == s[..j];
    var before := Reading(if j == 0 then Fresh else Plain, records, fields, s[..j]);
    assert (s[j..] + [sep])[1..] == s[j + 1..] + [sep];
    assert ReadAll(start, s + [sep]) == ReadAll(Read(before, s[j]), s[j + 1..] + [sep]);
    if s[0] == '"' {
      assert StartsWithQuotes(s, 1) && s[..0] == "" && s[2 * 0 + 1..] == s[1..];
      QuotesGoAstray(records, fields, s, 0, sep);
    } else {
      AstrayStays(Read(before, s[j]), s[j + 1..] + [sep], records, fields, s);
    }
  }

  lemma SpecialIsAmiss(s: string)
    requires !Unquoted(s)
    ensures ReadAmiss(s, s)
  {
    forall records: seq<seq<string>>, fields: seq<string>
      ensures Astray(ReadAll(Reading(Fresh, records, fields, ""), s + ","), records, fields, s)
      ensures Astray(ReadAll(Reading(Fresh, records, fields, ""), s + "\n"), records, fields, s)
    {
      SpecialGoesAstray(records, fields, s, ',');
      SpecialGoesAstray(records, fields, s, '\n');
    }
  }

  /** A row of cells that are read as these fields up to cell k. */
  ghost predicate ReadUpTo(texts: seq<string>, raws: seq<string>, k: nat) {
    |texts| == |raws| && k <= |texts| && forall i: nat :: i < k ==> ReadAs(texts[i], raws[i])
  }

  /** The text from cell k on. */
  function From(texts: seq<string>, k: nat): string
    requires k < |texts|
  {
    Join(texts[k..], ',') + "\n"
  }

  /** The separator after cell k, and what follows it. */
  function Sep(texts: seq<string>, k: nat): char {
    if k + 1 == |texts| then '\n' else ','
  }

  function Beyond(texts: seq<string>, k: nat): string {
    if k + 1 < |texts| then From(texts, k + 1) else ""
  }

  lemma FromUnfolds(texts: seq<string>, k: nat)
    requires k < |texts|
    ensures From(texts, k) == texts[k] + ([Sep(texts, k)] + Beyond(texts, k))
  {
    assert texts[k..][1..] == texts[k + 1..];
  }

  /** A cell that is read as its field brings the reader to the next one, or to the next record. */
  lemma CellRead(records: seq<seq<string>>, fields: seq<string>, texts: seq<string>, raw: string, k: nat)
    requires k < |texts| && ReadAs(texts[k], raw)
    ensures ReadAll(Reading(Fresh, records, fields, ""), From(texts, k)) ==
            if k + 1 == |texts| then Reading(Fresh, records + [fields + [raw]], [], "")
            else ReadAll(Reading(Fresh, records, fields + [raw], ""), From(texts, k + 1))
  {
    FromUnfolds(texts, k);
    var sep, rest := Sep(texts, k), Beyond(texts, k);
    ReadConcat(Reading(Fresh, records, fields, ""), texts[k], [sep] + rest);
    assert ([sep] + rest)[1..] == rest;
  }

  /** Cells that are read as their fields bring the reader to the next one. */
  lemma {:induction false} CellsRead(records: seq<seq<string>>, texts: seq<string>, raws: seq<string>, k: nat)
    requires ReadUpTo(texts, raws, k) && texts != []
    ensures ReadAll(Reading(Fresh, records, [], ""), From(texts, 0)) ==
            if k == |texts| then Reading(Fresh, records + [raws], [], "")
            else ReadAll(Reading(Fresh, records, raws[..k], ""), From(texts, k))
  {
    if k > 0 {
      CellsRead(records, texts, raws, k - 1);
      CellRead(records, raws[..k - 1], texts, raws[k - 1], k - 1);
      assert raws[..k - 1] + [raws[k - 1]] == raws[..k];
      if k == |texts| { assert raws[..k] == raws; }
    }
  }

  /** A cell that is read amiss spoils its record. */
  lemma CellStrays(records: seq<seq<string>>, texts: seq<string>, raws: seq<string>, k: nat)
    requires ReadUpTo(texts, raws, k) && k < |texts| && ReadAmiss(texts[k], raws[k])
    ensures Astray(ReadAll(Reading(Fresh, records, [], ""), From(texts, 0)), records, raws[..k], raws[k])
  {
    CellsRead(records, texts, raws, k);
    FromUnfolds(texts, k);
    var start := Reading(Fresh, records, raws[..k], "");
    var sep, rest := Sep(texts, k), Beyond(texts, k);
    assert texts[k] + ([sep] + rest) == (texts[k] + [sep]) + rest;
    ReadConcat(start, texts[k] + [sep], rest);
    assert Astray(ReadAll(start, texts[k] + [sep]), records, raws[..k], raws[k]) by {
      assert texts[k] + [sep] == texts[k] + (if sep == ',' then "," else "\n");
    }
    AstrayStays(ReadAll(start, texts[k] + [sep]), rest, records, raws[..k], raws[k]);
  }

  /** The seven fields of a record. */
  function Columns(r: ScanResult): seq<string> {
    [r.host, Decimal(r.port), r.proto, r.service, r.version, r.banner, r.proxy]
  }

  const HEADINGS := ["host", "port", "proto", "service", "version", "banner", "proxy"]

  function Wanted(results: seq<ScanResult>): seq<seq<string>> {
    [HEADINGS] + seq(|results|, i requires 0 <= i < |results| => Columns(results[i]))
  }

  /** A record the report can carry: its protocol must need no quoting, since it is never quoted. */
  predicate CarriedResult(r: ScanResult) {
    && Carried(r.host) && Unquoted(r.proto) && Carried(r.service) && Carried(r.version)
    && Carried(r.banner) && Carried(r.proxy)
  }

  predicate CarriedCell(r: ScanResult, k: nat) {
    if k == 1 then true
    else if k == 2 then Unquoted(r.proto)
    else k < 7 ==> Carried(Columns(r)[k])
  }

  lemma CarriedCells(r: ScanResult)
    ensures CarriedResult(r) <==> forall k: nat :: k < 7 ==> CarriedCell(r, k)
  {
    if forall k: nat :: k < 7 ==> CarriedCell(r, k) {
      assert CarriedCell(r, 0) && CarriedCell(r, 2) && CarriedCell(r, 3);
      assert CarriedCell(r, 4) && CarriedCell(r, 5) && CarriedCell(r, 6);
    }
  }

  lemma DecimalUnquoted(n: int)
    ensures Unquoted(Decimal(n))
  {
    forall i | 0 <= i < |Decimal(n)| ensures Decimal(n)[i] == '-' || IsDigit(Decimal(n)[i]) {
      if n < 0 && i > 0 { assert Decimal(n)[i] == Itoa(-n)[i - 1]; }
    }
  }

  lemma CellJudged(r: ScanResult, k: nat)
    requires k < 7
    ensures if CarriedCell(r, k) then ReadAs(Cells(r)[k], Columns(r)[k]) else ReadAmiss(Cells(r)[k], Columns(r)[k])
  {
    if k == 1 {
      DecimalUnquoted(r.port);
      UnquotedIsRead(Decimal(r.port));
    } else if k == 2 {
      if Unquoted(r.proto) { UnquotedIsRead(r.proto); } else { SpecialIsAmiss(r.proto); }
    } else if Carried(Columns(r)[k]) {
      CarriedIsRead(Columns(r)[k]);
    } else {
      SpecialIsAmiss(Columns(r)[k]);
    }
  }

  /** The first cell from k on that the report cannot carry, or 7. */
  function FirstLost(r: ScanResult, k: nat): (j: nat)
    requires k <= 7
    ensures k <= j <= 7 && (j < 7 ==> !CarriedCell(r, j))
    ensures forall i :: k <= i < j ==> CarriedCell(r, i)
    decreases 7 - k
  {
    if k == 7 || !CarriedCell(r, k) then k else FirstLost(r, k + 1)
  }

  /** The reading cannot come to have this record after these ones. */
  ghost predicate Off(r: Reading, records: seq<seq<string>>, want: seq<string>) {
    exists k: nat :: k < |want| && Astray(r, records, want[..k], want[k])
  }

  lemma RowReads(records: seq<seq<string>>, r: ScanResult)
    ensures var after := ReadAll(Reading(Fresh, records, [], ""), RowText(r));
            if CarriedResult(r) then after == Reading(Fresh, records + [Columns(r)], [], "")
            else Off(after, records, Columns(r))
  {
    var j := FirstLost(r, 0);
    CarriedCells(r);
    forall i: nat | i < 7
      ensures if CarriedCell(r, i) then ReadAs(Cells(r)[i], Columns(r)[i]) else ReadAmiss(Cells(r)[i], Columns(r)[i])
    {
      CellJudged(r, i);
    }
    assert Cells(r)[0..] == Cells(r);
    assert ReadUpTo(Cells(r), Columns(r), j);
    if j == 7 {
      CellsRead(records, Cells(r), Columns(r), 7);
    } else {
      CellStrays(records, Cells(r), Columns(r), j);
    }
  }

  lemma PlainRowReads(texts: seq<string>)
    requires texts != [] && forall i: nat :: i < |texts| ==> Unquoted(texts[i])
    ensures ReadAll(Reading(Fresh, [], [], ""), Join(texts, ',') + "\n") == Reading(Fresh, [texts], [], "")
  {
    forall i: nat | i < |texts| ensures ReadAs(texts[i], texts[i]) {
      UnquotedIsRead(texts[i]);
    }
    assert texts[0..] == texts;
    CellsRead([], texts, texts, |texts|);
    assert [] + [texts] == [texts];
  }

  lemma HeaderJoined(texts: seq<string>)
    requires texts == HEADINGS
    ensures HEADER == Join(texts, ',')
  {
    SevenJoined(texts[0], texts[1], texts[2], texts[3], texts[4], texts[5], texts[6]);
    assert [texts[0], texts[1], texts[2], texts[3], texts[4], texts[5], texts[6]] == texts;
  }

  /** What a heading names. */
  function Named(r: ScanResult, heading: string): string {
    if heading == "host" then r.host
    else if heading == "port" then Decimal(r.port)
    else if heading == "proto" then r.proto
    else if heading == "service" then r.service
    else if heading == "version" then r.version
    else if heading == "banner" then r.banner
    else if heading == "proxy" then r.proxy
    else ""
  }

  /** Under each heading stands what it names. */
  lemma ColumnsAreNamed(results: seq<ScanResult>, i: nat, k: nat)
    requires i < |results| && k < 7
    ensures |Wanted(results)| == |results| + 1 && |Wanted(results)[0]| == |Wanted(results)[i + 1]| == 7
    ensures Wanted(results)[i + 1][k] == Named(results[i], Wanted(results)[0][k])
  {
  }

  /** What a reader makes of the report. */
  ghost function Outcome(results: seq<ScanResult>): Reading {
    ReadAll(Reading(Fresh, [], [], ""), Report(results))
  }

  lemma ReportUnfolds(results: seq<ScanResult>)
    requires results != []
    ensures var m := |results| - 1;
            Outcome(results) == ReadAll(Outcome(results[..m]), RowText(results[m]))
  {
    ReadConcat(Reading(Fresh, [], [], ""), Report(results[..|results| - 1]), RowText(results[|results| - 1]));
  }

  lemma HeadingsPlain(texts: seq<string>)
    requires texts == HEADINGS
    ensures texts != [] && forall i: nat :: i < |texts| ==> Unquoted(texts[i])
  {
  }

  lemma HeadingsRead(texts: seq<string>)
    requires texts == HEADINGS
    ensures Outcome([]) == Reading(Fresh, [texts], [], "")
  {
    HeaderJoined(texts);
    HeadingsPlain(texts);
    PlainRowReads(texts);
  }

  /** The first n records are read in order. */
  lemma {:induction false} ReportReads(results: seq<ScanResult>, n: nat)
    requires n <= |results| && forall i :: 0 <= i < n ==> CarriedResult(results[i])
    ensures Outcome(results[..n]) == Reading(Fresh, Wanted(results[..n]), [], "")
  {
    var some := results[..n];
    if n == 0 {
      HeadingsRead(HEADINGS);
      assert Wanted(some) == [HEADINGS];
    } else {
      var init := results[..n - 1];
      assert some[..|some| - 1] == init;
      ReportReads(results, n - 1);
      ReportUnfolds(some);
      RowReads(Wanted(init), results[n - 1]);
      assert Wanted(init) + [Columns(results[n - 1])] == Wanted(some);
    }
  }

  lemma OffStays(r: Reading, s: string, records: seq<seq<string>>, want: seq<string>)
    requires Off(r, records, want)
    ensures Off(ReadAll(r, s), records, want)
  {
    var k: nat :| k < |want| && Astray(r, records, want[..k], want[k]);
    AstrayStays(r, s, records, want[..k], want[k]);
  }

  /** Past a record that is read amiss, the reading never comes to have it. */
  lemma {:induction false} ReportStrays(results: seq<ScanResult>, n: nat, m: nat)
    requires n < m <= |results| && !CarriedResult(results[n])
    requires forall i :: 0 <= i < n ==> CarriedResult(results[i])
    ensures Off(Outcome(results[..m]), Wanted(results[..n]), Columns(results[n]))
    decreases m
  {
    var some, init := results[..m], results[..m - 1];
    var before, want := Wanted(results[..n]), Columns(results[n]);
    assert some[..|some| - 1] == init;
    ReportUnfolds(some);
    if m == n + 1 {
      ReportReads(results, n);
      RowReads(before, results[n]);
    } else {
      ReportStrays(results, n, m - 1);
      OffStays(Outcome(init), RowText(results[m - 1]), before, want);
    }
  }

  /** The first record from n on that the report cannot carry, or |results|. */
  function FirstUncarried(results: seq<ScanResult>, n: nat): (k: nat)
    requires n <= |results|
    ensures n <= k <= |results| && (k < |results| ==> !CarriedResult(results[k]))
    ensures forall i :: n <= i < k ==> CarriedResult(results[i])
    decreases |results| - n
  {
    if n == |results| || !CarriedResult(results[n]) then n else FirstUncarried(results, n + 1)
  }

  lemma NotWanted(r: Reading, wanted: seq<seq<string>>, n: nat, records: seq<seq<string>>, want: seq<string>)
    requires n < |wanted| && |records| == n && wanted[n] == want && Off(r, records, want)
    ensures r != Reading(Fresh, wanted, [], "")
  {
  }

  /**
   * A reader recovers exactly the seven fields of every record if and only if no record has a line
   * break in a field that is written bare, nor a protocol that would need quoting.
   */
  lemma ReportRoundTrip(results: seq<ScanResult>)
    ensures Records(Report(results)) == Some(Wanted(results)) <==> forall r :: r in results ==> CarriedResult(r)
  {
    var n := FirstUncarried(results, 0);
    assert results[..|results|] == results;
    if n == |results| {
      ReportReads(results, n);
    } else {
      assert results[n] in results;
      ReportStrays(results, n, |results|);
      NotWanted(Outcome(results), Wanted(results), n + 1, Wanted(results[..n]), Columns(results[n]));
    }
  }
}
