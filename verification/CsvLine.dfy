/** parse_csv_line of include/ids_ingest.hpp:58-74 against the quoting of section 2 of RFC
    4180. */
module CsvLine {

  /** The loop's variables. */
  datatype Parser = Parser(cols: seq<string>, cell: string, inQuotes: bool)

  function Step(p: Parser, c: char): Parser {
    if c == '"' then p.(inQuotes := !p.inQuotes)
    else if c == ',' && !p.inQuotes then Parser(p.cols + [p.cell], "", p.inQuotes)
    else p.(cell := p.cell + [c])
  }

  function Run(p: Parser, line: string): Parser
    decreases |line|
  {
    if line == "" then p else Run(Step(p, line[0]), line[1..])
  }

  function Parsed(line: string): seq<string> {
    var p := Run(Parser([], "", false), line);
    p.cols + [p.cell]
  }

  method ParseCsvLine(line: string) returns (cols: seq<string>)
    ensures cols == Parsed(line)
  {
    cols := [];
    var cell, inQuotes := "", false;
    for i := 0 to |line|
      invariant Run(Parser([], "", false), line) == Run(Parser(cols, cell, inQuotes), line[i..])
    {
      var c := line[i];
      assert line[i..][1..] == line[i + 1..];
      if c == '"' {
        inQuotes := !inQuotes;
      } else if c == ',' && !inQuotes {
        cols := cols + [cell];
        cell := "";
      } else {
        cell := cell + [c];
      }
    }
    cols := cols + [cell];
  }

  // ---- Writing a line ----

  function Doubled(field: string): string {
    if field == "" then ""
    else (if field[0] == '"' then "\"\"" else [field[0]]) + Doubled(field[1..])
  }

  function Quoted(field: string): string {
    "\"" + Doubled(field) + "\""
  }

  /** A record in the form of RFC 4180: every field quoted, quotes inside doubled. */
  function Line(fields: seq<string>): string {
    if fields == [] then ""
    else if |fields| == 1 then Quoted(fields[0])
    else Quoted(fields[0]) + "," + Line(fields[1..])
  }

  predicate QuoteFree(field: string) {
    '"' !in field
  }

  /** In the quoted form exactly the quotes are doubled. */
  lemma {:induction false} QuotesAreDoubled(a: string, c: char, b: string)
    ensures Doubled(a + [c] + b) == Doubled(a) + (if c == '"' then ['"', '"'] else [c]) + Doubled(b)
    decreases |a|
  {
    var s := a + [c] + b;
    if a == "" {
      assert s[1..] == b;
    } else {
      assert s[1..] == a[1..] + [c] + b;
      QuotesAreDoubled(a[1..], c, b);
    }
  }

  // ---- Plain lines ----

  /** Fields joined by commas, as they are. */
  function Joined(fields: seq<string>): string {
    if fields == [] then ""
    else if |fields| == 1 then fields[0]
    else fields[0] + "," + Joined(fields[1..])
  }

  predicate Plain(field: string) {
    '"' !in field && ',' !in field
  }

  lemma {:induction false} RunPlain(cols: seq<string>, cell: string, field: string)
    requires Plain(field)
    ensures Run(Parser(cols, cell, false), field) == Parser(cols, cell + field, false)
    decreases |field|
  {
    if field == "" {
      assert cell + field == cell;
    } else {
      RunPlain(cols, cell + [field[0]], field[1..]);
      assert (cell + [field[0]]) + field[1..] == cell + field;
    }
  }

  lemma {:induction false} RunJoined(cols: seq<string>, fields: seq<string>)
    requires fields != [] && forall k :: 0 <= k < |fields| ==> Plain(fields[k])
    ensures var p := Run(Parser(cols, "", false), Joined(fields)); p.cols + [p.cell] == cols + fields
    decreases |fields|
  {
    RunPlain(cols, "", fields[0]);
    assert "" + fields[0] == fields[0];
    if |fields| > 1 {
      RunConcat(Parser(cols, "", false), fields[0] + ",", Joined(fields[1..]));
      RunConcat(Parser(cols, "", false), fields[0], ",");
      RunOne(Parser(cols, fields[0], false), ',');
      RunJoined(cols + [fields[0]], fields[1..]);
      assert cols + [fields[0]] + fields[1..] == cols + fields;
    } else {
      assert fields == [fields[0]];
    }
  }

  /** A line without quotes is split at its commas. */
  lemma SplitsPlainLines(fields: seq<string>)
    requires fields != [] && forall k :: 0 <= k < |fields| ==> Plain(fields[k])
    ensures Parsed(Joined(fields)) == fields
  {
    RunJoined([], fields);
  }

  // ---- Round trip ----

  lemma {:induction false} RunConcat(p: Parser, a: string, b: string)
    ensures Run(p, a + b) == Run(Run(p, a), b)
    decreases |a|
  {
    if a == "" {
      assert a + b == b;
    } else {
      assert (a + b)[1..] == a[1..] + b;
      RunConcat(Step(p, a[0]), a[1..], b);
    }
  }

  lemma {:induction false} RunInside(cols: seq<string>, cell: string, field: string)
    requires QuoteFree(field)
    ensures Run(Parser(cols, cell, true), Doubled(field)) == Parser(cols, cell + field, true)
    decreases |field|
  {
    if field == "" {
      assert cell + field == cell;
    } else {
      RunInside(cols, cell + [field[0]], field[1..]);
      assert (cell + [field[0]]) + field[1..] == cell + field;
      assert Doubled(field)[1..] == Doubled(field[1..]);
    }
  }

  lemma RunQuoted(cols: seq<string>, field: string)
    requires QuoteFree(field)
    ensures Run(Parser(cols, "", false), Quoted(field)) == Parser(cols, field, false)
  {
    hide Doubled;
    RunOne(Parser(cols, "", false), '"');
    RunConcat(Parser(cols, "", false), "\"", Doubled(field));
    RunInside(cols, "", field);
    RunConcat(Parser(cols, "", false), "\"" + Doubled(field), "\"");
    RunOne(Parser(cols, field, true), '"');
    assert "" + field == field;
  }

  lemma RunOne(p: Parser, c: char)
    ensures Run(p, [c]) == Step(p, c)
  {
    assert [c][1..] == "";
  }

  lemma {:induction false} RunLine(cols: seq<string>, fields: seq<string>)
    requires fields != [] && forall k :: 0 <= k < |fields| ==> QuoteFree(fields[k])
    ensures var p := Run(Parser(cols, "", false), Line(fields));
      p.cols + [p.cell] == cols + fields
    decreases |fields|
  {
    hide Quoted, QuoteFree, Run;
    RunQuoted(cols, fields[0]);
    if |fields| > 1 {
      RunConcat(Parser(cols, "", false), Quoted(fields[0]) + ",", Line(fields[1..]));
      RunConcat(Parser(cols, "", false), Quoted(fields[0]), ",");
      RunOne(Parser(cols, fields[0], false), ',');
      RunLine(cols + [fields[0]], fields[1..]);
      assert cols + [fields[0]] + fields[1..] == cols + fields;
    } else {
      assert fields == [fields[0]];
    }
  }

  /** No quote ever survives parsing. */
  lemma {:induction false} RunDropsQuotes(p: Parser, line: string)
    requires QuoteFree(p.cell) && forall k :: 0 <= k < |p.cols| ==> QuoteFree(p.cols[k])
    ensures var r := Run(p, line); QuoteFree(r.cell) && forall k :: 0 <= k < |r.cols| ==> QuoteFree(r.cols[k])
    decreases |line|
  {
    if line != "" {
      RunDropsQuotes(Step(p, line[0]), line[1..]);
    }
  }

  /** The parser inverts the RFC 4180 form of exactly the nonempty lists of quote-free fields:
      it does not know the doubled quote. */
  lemma InvertsQuoteFree(fields: seq<string>)
    ensures Parsed(Line(fields)) == fields <==> fields != [] && forall k :: 0 <= k < |fields| ==> QuoteFree(fields[k])
  {
    hide Line, Run, QuoteFree;
    ParsedIsQuoteFree(Line(fields));
    if fields != [] && forall k :: 0 <= k < |fields| ==> QuoteFree(fields[k]) {
      RunLine([], fields);
      assert [] + fields == fields;
    }
  }

  lemma ParsedIsQuoteFree(line: string)
    ensures Parsed(line) != [] && forall k :: 0 <= k < |Parsed(line)| ==> QuoteFree(Parsed(line)[k])
  {
    hide Run, QuoteFree;
    EmptyIsQuoteFree();
    RunDropsQuotes(Parser([], "", false), line);
  }

  lemma EmptyIsQuoteFree()
    ensures QuoteFree("")
  {}
}
