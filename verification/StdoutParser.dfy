/**
  `parseResults` of `src/stdout_parser.c` as a whole (lines 300-529): read the template, then
  the results file. Printing a template and any number of tables and parsing both sends the
  values that were printed.
 */
module StdoutParser {
  import opened CStrings
  import opened Tables
  import opened FileLines
  import opened TableTemplate
  import opened TableTemplateParser
  import opened TableRows
  import opened KeyMatches
  import opened ResultsScan
  import opened ResultsParser
  import opened ResultsDocument
  import opened ResultsLines

  function TrimAll(raws: seq<string>): (r: seq<string>)
    ensures |r| == |raws| && forall i | 0 <= i < |raws| :: r[i] == Trim(raws[i])
  {
    if raws == [] then [] else TrimAll(raws[..|raws| - 1]) + [Trim(raws[|raws| - 1])]
  }

  /** Lines 359-362, for all lines. */
  method TrimLines(raws: seq<string>) returns (lines: seq<string>)
    ensures lines == TrimAll(raws)
  {
    lines := [];
    for i := 0 to |raws|
      invariant lines == TrimAll(raws[..i])
    {
      assert raws[..i + 1][..i] == raws[..i];
      var line := TrimLine(raws[i]);
      lines := lines + [line];
    }
    assert raws[..|raws|] == raws;
  }

  /** The tables a template file describes. */
  function TablesIn(template: string): seq<TableDef> {
    ReadAll(FRESH, Gets(template, 0)).tables
  }

  /** The lines of a results file, as they are compared. */
  function LinesIn(results: string): seq<string> {
    TrimAll(Gets(results, 0))
  }

  /** The template describes at most 10 tables, each with 1 to 10 headers. */
  predicate TemplateFits(template: string) {
    |TablesIn(template)| <= MAX_TABLES && WellFormed(TablesIn(template))
  }

  /** Whatever the column buffers hold at the start, every line stays inside the C arrays. */
  ghost predicate ResultsFit(defs: seq<TableDef>, exec: Matcher, results: string)
    requires WellFormed(defs)
  {
    forall slots: seq<string> | |slots| == MAX_COLS :: LinesFit(defs, exec, Start(defs, slots), LinesIn(results))
  }

  /** What the two files send, with the column buffers holding `slots` at first. */
  ghost function FilesSend(template: string, results: string, exec: Matcher, slots: seq<string>): seq<string>
    requires TemplateFits(template) && ResultsFit(TablesIn(template), exec, results) && |slots| == MAX_COLS
  {
    var defs := TablesIn(template);
    Trace(defs, exec, Start(defs, slots), LinesIn(results), |LinesIn(results)|)
  }

  /** From the texts of the two files to the messages sent. */
  method ParseResults(template: string, results: string, exec: Matcher) returns (sent: seq<string>)
    requires TemplateFits(template) && ResultsFit(TablesIn(template), exec, results)
    ensures exists slots: seq<string> | |slots| == MAX_COLS :: sent == FilesSend(template, results, exec, slots)
  {
    var templateLines := ReadLines(template);
    var tables := ParseTableTemplate(templateLines);
    ghost var defs := TablesIn(template);
    var resultsLines := ReadLines(results);
    var lines := TrimLines(resultsLines);
    var parser := new Parser(tables, exec, defs);
    ghost var slots := parser.scan.slots;
    parser.ParseLines(lines, parser.scan, []);
    sent := parser.sender.sent;
    assert sent == FilesSend(template, results, exec, slots);
  }

  // -- Files one behind the other

  lemma Next(ts: seq<TableDef>, s: Scan, lines: seq<string>, n: nat)
    requires Inv(ts, s) && 0 < n <= |lines|
    ensures After(ts, s, lines, n) == Step(ts, After(ts, s, lines, n - 1), lines[n - 1])
  {
  }

  lemma {:induction false} AfterPrefix(ts: seq<TableDef>, s: Scan, a: seq<string>, b: seq<string>, n: nat)
    requires Inv(ts, s) && n <= |a|
    ensures After(ts, s, a + b, n) == After(ts, s, a, n)
  {
    hide Step;
    if n > 0 {
      AfterPrefix(ts, s, a, b, n - 1);
      Next(ts, s, a + b, n);
      Next(ts, s, a, n);
      assert (a + b)[n - 1] == a[n - 1];
    }
  }

  lemma {:induction false} AfterAppend(ts: seq<TableDef>, s: Scan, a: seq<string>, b: seq<string>, n: nat)
    requires Inv(ts, s) && n <= |b|
    ensures After(ts, s, a + b, |a| + n) == After(ts, After(ts, s, a, |a|), b, n)
    decreases n
  {
    hide Step;
    if n == 0 {
      AfterPrefix(ts, s, a, b, |a|);
    } else {
      AfterAppend(ts, s, a, b, n - 1);
      Next(ts, s, a + b, |a| + n);
      Next(ts, After(ts, s, a, |a|), b, n);
      assert (a + b)[|a| + n - 1] == b[n - 1];
    }
  }

  lemma {:induction false} FitAt(ts: seq<TableDef>, exec: Matcher, s: Scan, a: seq<string>, b: seq<string>, n: nat)
    requires Inv(ts, s) && LinesFit(ts, exec, s, a) && LinesFit(ts, exec, After(ts, s, a, |a|), b) && n < |a + b|
    ensures LineFits(ts, exec, After(ts, s, a + b, n), (a + b)[n])
  {
    hide Step, LineFits;
    var r := After(ts, s, a, |a|);
    if n < |a| {
      AfterPrefix(ts, s, a, b, n);
      assert LineFits(ts, exec, After(ts, s, a, n), a[n]);
    } else {
      AfterAppend(ts, s, a, b, n - |a|);
      assert LineFits(ts, exec, After(ts, r, b, n - |a|), b[n - |a|]);
    }
  }

  lemma {:induction false} FitAppend(ts: seq<TableDef>, exec: Matcher, s: Scan, a: seq<string>, b: seq<string>)
    requires Inv(ts, s) && LinesFit(ts, exec, s, a) && LinesFit(ts, exec, After(ts, s, a, |a|), b)
    ensures LinesFit(ts, exec, s, a + b)
  {
    var ab := a + b;
    forall n | 0 <= n < |ab| ensures LineFits(ts, exec, After(ts, s, ab, n), ab[n]) {
      FitAt(ts, exec, s, a, b, n);
    }
  }

  lemma NextSent(ts: seq<TableDef>, exec: Matcher, s: Scan, lines: seq<string>, n: nat)
    requires Inv(ts, s) && 0 < n <= |lines| && LinesFit(ts, exec, s, lines)
    ensures LineFits(ts, exec, After(ts, s, lines, n - 1), lines[n - 1])
    ensures Trace(ts, exec, s, lines, n) ==
      Trace(ts, exec, s, lines, n - 1) + Output(ts, exec, After(ts, s, lines, n - 1), lines[n - 1])
  {
  }

  lemma {:induction false} TracePrefix(ts: seq<TableDef>, exec: Matcher, s: Scan, a: seq<string>, b: seq<string>, n: nat)
    requires Inv(ts, s) && n <= |a| && LinesFit(ts, exec, s, a) && LinesFit(ts, exec, s, a + b)
    ensures Trace(ts, exec, s, a + b, n) == Trace(ts, exec, s, a, n)
  {
    hide Step, LineFits, Output;
    if n > 0 {
      TracePrefix(ts, exec, s, a, b, n - 1);
      AfterPrefix(ts, s, a, b, n - 1);
      NextSent(ts, exec, s, a + b, n);
      NextSent(ts, exec, s, a, n);
      assert (a + b)[n - 1] == a[n - 1];
    }
  }

  lemma Grow(t: seq<string>, u: seq<string>, v: seq<string>, w: seq<string>)
    requires t == u + v
    ensures t + w == u + (v + w)
  {
  }

  /** Two texts one behind the other send what the first sends and then what the second sends from where the first ends. */
  lemma {:induction false} TraceAppend(ts: seq<TableDef>, exec: Matcher, s: Scan, a: seq<string>, b: seq<string>, n: nat)
    requires Inv(ts, s) && n <= |b|
    requires LinesFit(ts, exec, s, a) && LinesFit(ts, exec, After(ts, s, a, |a|), b) && LinesFit(ts, exec, s, a + b)
    ensures Trace(ts, exec, s, a + b, |a| + n) ==
      Trace(ts, exec, s, a, |a|) + Trace(ts, exec, After(ts, s, a, |a|), b, n)
    decreases n
  {
    hide Step, LineFits, Output;
    if n == 0 {
      TracePrefix(ts, exec, s, a, b, |a|);
    } else {
      var r := After(ts, s, a, |a|);
      TraceAppend(ts, exec, s, a, b, n - 1);
      AfterAppend(ts, s, a, b, n - 1);
      NextSent(ts, exec, s, a + b, |a| + n);
      NextSent(ts, exec, r, b, n);
      assert (a + b)[|a| + n - 1] == b[n - 1];
      Grow(Trace(ts, exec, s, a + b, |a| + n - 1), Trace(ts, exec, s, a, |a|), Trace(ts, exec, r, b, n - 1),
           Output(ts, exec, After(ts, r, b, n - 1), b[n - 1]));
    }
  }

  // -- Printed templates and printed tables

  /** What a results file is made of: printed tables, and lines outside tables. */
  datatype Part = Printed(d: Document) | Others(lines: seq<string>)

  /** A table of the template, or lines none of which starts a table. */
  ghost predicate PartFits(ts: seq<TableDef>, p: Part, exec: Matcher)
    requires WellFormed(ts)
  {
    match p
    case Printed(d) => Belongs(d, ts) && DocumentFits(d, exec)
    case Others(lines) => FreeLines(ts, exec, lines)
  }

  ghost predicate AllFit(ts: seq<TableDef>, ps: seq<Part>, exec: Matcher) {
    WellFormed(ts) && forall i | 0 <= i < |ps| :: PartFits(ts, ps[i], exec)
  }

  function PartLines(p: Part): seq<string> {
    match p
    case Printed(d) => Lines(d)
    case Others(lines) => lines
  }

  function AllPartLines(ps: seq<Part>): seq<string> {
    if ps == [] then [] else PartLines(ps[0]) + AllPartLines(ps[1..])
  }

  /** Of a table the values of its rows and what is found in the line behind it; of other lines what is found in them. */
  ghost function PartSent(ts: seq<TableDef>, p: Part, exec: Matcher): seq<string>
    requires WellFormed(ts) && PartFits(ts, p, exec)
  {
    match p
    case Printed(d) => RowsSent(d, |d.rows|) + LineKeys(exec, d.closing)
    case Others(lines) => AllKeys(exec, lines, |lines|)
  }

  /** All parts in order. */
  ghost function AllSent(ts: seq<TableDef>, ps: seq<Part>, exec: Matcher): seq<string>
    requires AllFit(ts, ps, exec)
  {
    if ps == [] then [] else PartSent(ts, ps[0], exec) + AllSent(ts, ps[1..], exec)
  }

  lemma {:induction false} PartBack(p: Part, exec: Matcher, ts: seq<TableDef>, s: Scan)
    requires Inv(ts, s) && PartFits(ts, p, exec) && Idle(s)
    ensures LinesFit(ts, exec, s, PartLines(p))
    ensures Trace(ts, exec, s, PartLines(p), |PartLines(p)|) == PartSent(ts, p, exec)
    ensures Idle(After(ts, s, PartLines(p), |PartLines(p)|))
  {
    hide Belongs, DocumentFits, FreeLines, LinesFit, Lines, Trace, After, Idle, RowsSent, AllKeys;
    match p
    case Printed(d) => DocumentBack(d, exec, ts, s);
    case Others(lines) => FreeLinesSent(ts, exec, s, lines);
  }

  /** A part in front of other lines. */
  lemma {:induction false} PartThen(p: Part, exec: Matcher, ts: seq<TableDef>, s: Scan, rest: seq<string>)
    requires Inv(ts, s) && PartFits(ts, p, exec) && Idle(s)
    requires LinesFit(ts, exec, After(ts, s, PartLines(p), |PartLines(p)|), rest)
    ensures LinesFit(ts, exec, s, PartLines(p) + rest)
    ensures Trace(ts, exec, s, PartLines(p) + rest, |PartLines(p) + rest|) ==
      PartSent(ts, p, exec) + Trace(ts, exec, After(ts, s, PartLines(p), |PartLines(p)|), rest, |rest|)
  {
    hide *;
    PartBack(p, exec, ts, s);
    FitAppend(ts, exec, s, PartLines(p), rest);
    TraceAppend(ts, exec, s, PartLines(p), rest, |rest|);
  }

  /** Printed tables of any number and kinds in any order, with other lines before, between and behind them. */
  lemma {:induction false} PartsBack(ts: seq<TableDef>, ps: seq<Part>, exec: Matcher, s: Scan)
    requires Inv(ts, s) && AllFit(ts, ps, exec) && Idle(s)
    ensures LinesFit(ts, exec, s, AllPartLines(ps))
    ensures Trace(ts, exec, s, AllPartLines(ps), |AllPartLines(ps)|) == AllSent(ts, ps, exec)
    decreases |ps|
  {
    hide Step, LineFits, Output, PartFits, PartLines, PartSent;
    if ps != [] {
      PartBack(ps[0], exec, ts, s);
      PartsBack(ts, ps[1..], exec, After(ts, s, PartLines(ps[0]), |PartLines(ps[0])|));
      PartThen(ps[0], exec, ts, s, AllPartLines(ps[1..]));
    }
  }

  /** The lines as a file has them. */
  function Ended(lines: seq<string>): (r: seq<string>)
    ensures |r| == |lines| && forall i | 0 <= i < |lines| :: r[i] == lines[i] + "\n"
  {
    if lines == [] then [] else Ended(lines[..|lines| - 1]) + [lines[|lines| - 1] + "\n"]
  }

  /** Each is a line of a file, once it has its line feed, and does not end in a carriage return, which would be cut. */
  predicate Writable(lines: seq<string>) {
    forall i | 0 <= i < |lines| :: IsLine(lines[i] + "\n") && (lines[i] != "" ==> lines[i][|lines[i]| - 1] != '\r')
  }

  lemma {:induction false} WritableEnd(line: string)
    requires IsLine(line + "\n") && (line != "" ==> line[|line| - 1] != '\r')
    ensures Trim(line + "\n") == line
  {
    var raw := line + "\n";
    assert forall k | 0 <= k < |line| :: raw[k] == line[k];
    TrimsTo(line);
  }

  lemma {:induction false} TrimEnded(lines: seq<string>)
    requires Writable(lines)
    ensures TrimAll(Ended(lines)) == lines
  {
    hide Trim, TrimAll, Ended, IsLine;
    var trimmed := TrimAll(Ended(lines));
    forall i | 0 <= i < |lines| ensures trimmed[i] == lines[i] {
      WritableEnd(lines[i]);
    }
  }

  lemma {:induction false} EndedAreLines(lines: seq<string>)
    requires Writable(lines)
    ensures AllLines(Ended(lines)) && AllEnded(Ended(lines))
  {
  }

  /** The text of printed results is read as the lines it was made of. */
  lemma {:induction false} ResultsAreLines(lines: seq<string>)
    requires Writable(lines)
    ensures LinesIn(Text(Ended(lines))) == lines
  {
    hide Writable, IsLine, Text, Gets, Ended, IsEnded;
    EndedAreLines(lines);
    ReadBackIff(Ended(lines));
    TrimEnded(lines);
  }

  /** A document of a printed template has the names of its block, behind those of all earlier blocks. */
  predicate UnderNames(bs: seq<Block>, d: Document) {
    d.k < |bs| && d.t == TableOf(bs[d.k], Min(NamesBefore(bs, d.k), MAX_VALS))
  }

  lemma {:induction false} TemplateBack(bs: seq<Block>, ps: seq<Part>, exec: Matcher)
    requires PlainBlocks(bs) && |bs| <= MAX_TABLES && AllFit(TablesOf(bs, 0), ps, exec)
    ensures TablesIn(Text(PrintAll(bs))) == TablesOf(bs, 0) && TemplateFits(Text(PrintAll(bs)))
  {
    hide ReadAll, PrintAll, PlainBlocks, PartFits, Gets, Text;
    TemplateIsLines(bs);
    ReadTemplate(bs, FRESH);
    assert [] + TablesOf(bs, 0) == TablesOf(bs, 0);
  }

  lemma {:induction false} ResultsBack(ts: seq<TableDef>, ps: seq<Part>, exec: Matcher, results: string)
    requires AllFit(ts, ps, exec) && LinesIn(results) == AllPartLines(ps)
    ensures ResultsFit(ts, exec, results)
    ensures forall slots: seq<string> | |slots| == MAX_COLS ::
      Trace(ts, exec, Start(ts, slots), AllPartLines(ps), |AllPartLines(ps)|) == AllSent(ts, ps, exec)
  {
    hide LineFits, Output, PartFits, Step, AllPartLines, AllSent, Trace, LinesFit;
    forall slots: seq<string> | |slots| == MAX_COLS
      ensures LinesFit(ts, exec, Start(ts, slots), AllPartLines(ps))
      ensures Trace(ts, exec, Start(ts, slots), AllPartLines(ps), |AllPartLines(ps)|) == AllSent(ts, ps, exec)
    {
      PartsBack(ts, ps, exec, Start(ts, slots));
    }
  }

  lemma {:induction false} TheirNames(bs: seq<Block>, ps: seq<Part>, exec: Matcher, i: nat)
    requires AllFit(TablesOf(bs, 0), ps, exec) && i < |ps| && ps[i].Printed?
    ensures UnderNames(bs, ps[i].d)
  {
    TableAt(bs, 0, ps[i].d.k);
  }

  /**
    Printing a template of any number of tables and, made after it, any number of tables in any
    order with other lines between them, and parsing the texts of the two files: they fit, and
    whatever the column buffers hold at first, what is sent is exactly the values of the rows
    and the pairs found in the other lines, in the order of the file.
   */
  lemma {:induction false} PrintedAndParsed(bs: seq<Block>, ps: seq<Part>, exec: Matcher)
    requires PlainBlocks(bs) && |bs| <= 10
    requires AllFit(TablesOf(bs, 0), ps, exec) && Writable(AllPartLines(ps))
    ensures var template, results := Text(PrintAll(bs)), Text(Ended(AllPartLines(ps)));
      && TablesIn(template) == TablesOf(bs, 0)
      && TemplateFits(template) && ResultsFit(TablesIn(template), exec, results)
      && (forall slots: seq<string> | |slots| == MAX_COLS ::
            FilesSend(template, results, exec, slots) == AllSent(TablesOf(bs, 0), ps, exec))
    ensures forall i | 0 <= i < |ps| && ps[i].Printed? :: UnderNames(bs, ps[i].d)
  {
    var template, results, defs := Text(PrintAll(bs)), Text(Ended(AllPartLines(ps))), TablesOf(bs, 0);
    BothBack(bs, ps, exec, template, results);
    forall slots: seq<string> | |slots| == MAX_COLS
      ensures FilesSend(template, results, exec, slots) == AllSent(defs, ps, exec)
    {
      Sending(template, results, exec, slots, ps, defs);
    }
    forall i | 0 <= i < |ps| && ps[i].Printed? ensures UnderNames(bs, ps[i].d) {
      TheirNames(bs, ps, exec, i);
    }
  }

  lemma {:induction false} BothBack(bs: seq<Block>, ps: seq<Part>, exec: Matcher, template: string, results: string)
    requires PlainBlocks(bs) && |bs| <= MAX_TABLES
    requires AllFit(TablesOf(bs, 0), ps, exec) && Writable(AllPartLines(ps))
    requires template == Text(PrintAll(bs)) && results == Text(Ended(AllPartLines(ps)))
    ensures TablesIn(template) == TablesOf(bs, 0) && TemplateFits(template)
    ensures LinesIn(results) == AllPartLines(ps) && ResultsFit(TablesIn(template), exec, results)
    ensures forall slots: seq<string> | |slots| == MAX_COLS ::
      Trace(TablesOf(bs, 0), exec, Start(TablesOf(bs, 0), slots), AllPartLines(ps), |AllPartLines(ps)|) ==
        AllSent(TablesOf(bs, 0), ps, exec)
  {
    hide *;
    TemplateBack(bs, ps, exec);
    ResultsAreLines(AllPartLines(ps));
    ResultsBack(TablesOf(bs, 0), ps, exec, results);
  }

  lemma {:induction false} Sending(template: string, results: string, exec: Matcher, slots: seq<string>, ps: seq<Part>, defs: seq<TableDef>)
    requires TemplateFits(template) && ResultsFit(TablesIn(template), exec, results) && |slots| == MAX_COLS
    requires defs == TablesIn(template) && LinesIn(results) == AllPartLines(ps)
    requires AllFit(defs, ps, exec)
    requires Trace(defs, exec, Start(defs, slots), AllPartLines(ps), |AllPartLines(ps)|) == AllSent(defs, ps, exec)
    ensures FilesSend(template, results, exec, slots) == AllSent(defs, ps, exec)
  {
    hide Trace, AllSent, AllPartLines, TablesIn, LinesIn;
  }

  // -- Under which names a block's values go out

  lemma {:induction false} SentPrefix(a: seq<string>, b: seq<string>, values: seq<string>)
    requires |values| <= |b| <= |a| && a[..|b|] == b
    ensures Sent(a, values) == Sent(b, values)
    decreases |values|
  {
    if values != [] {
      SentPrefix(a, b, values[..|values| - 1]);
      assert a[|values| - 1] == a[..|b|][|values| - 1];
    }
  }

  lemma {:induction false} FirstName(names: seq<string>, values: seq<string>)
    requires names != [] && |values| == 1
    ensures Sent(names, values) == if Skipped(names[0]) then [] else [Message(names[0], values[0])]
    ensures names[0] == "" ==> !Skipped(names[0])
  {
    assert values[..0] == [];
  }

  /** Every printed row of the table goes out under the names. */
  ghost predicate RowsUnder(t: TableDef, names: seq<string>) {
    forall cells: seq<seq<string>>, pad: char, slots: seq<string>
      | RowPrints(t, cells, pad) && |Flat(cells, |cells|)| <= |names| && |slots| == MAX_COLS ::
      RowGoesUnder(t, names, cells, pad, slots)
  }

  predicate RowGoesUnder(t: TableDef, names: seq<string>, cells: seq<seq<string>>, pad: char, slots: seq<string>)
    requires RowPrints(t, cells, pad) && |Flat(cells, |cells|)| <= |names|
  {
    RowFits(t, slots, RowText(t, cells, pad)) &&
    RowMessages(t, slots, RowText(t, cells, pad)) == Sent(names, Flat(cells, |cells|))
  }

  lemma {:induction false} RowSent(t: TableDef, names: seq<string>, cells: seq<seq<string>>, pad: char, slots: seq<string>)
    requires RowPrints(t, cells, pad) && |Flat(cells, |cells|)| <= |names| && |slots| == MAX_COLS
    ensures RowGoesUnder(t, names, cells, pad, slots) <==> Sent(t.valNames, Flat(cells, |cells|)) == Sent(names, Flat(cells, |cells|))
  {
    hide RowMessages, RowText, RowFits, Sent, Flat;
    RowBack(t, cells, pad, slots);
  }

  /**
    Block `k` of a template file: every row that can be printed for its table goes out under
    the block's own names, if and only if no value name comes before the block in the file.
    (`cells` and `pad` make a row with one value that can be printed for it.)
   */
  lemma {:induction false} OwnNamesSentIffFirst(bs: seq<Block>, k: nat, cells: seq<seq<string>>, pad: char)
    requires k < |bs| && 0 < |bs[k].names| <= MAX_VALS && bs[k].names[0] != ""
    requires RowPrints(TablesOf(bs, 0)[k], cells, pad) && |Flat(cells, |cells|)| == 1
    ensures RowsUnder(TablesOf(bs, 0)[k], bs[k].names) <==> NamesBefore(bs, k) == 0
  {
    hide RowPrints, RowGoesUnder, Sent, Flat, TablesOf;
    var t, b, found := TablesOf(bs, 0)[k], bs[k], Min(NamesBefore(bs, k), MAX_VALS);
    TableAt(bs, 0, k);
    if found == 0 {
      OwnNamesIffFirst(b, found);
      forall c: seq<seq<string>>, q: char, slots: seq<string>
        | RowPrints(t, c, q) && |Flat(c, |c|)| <= |b.names| && |slots| == MAX_COLS
        ensures RowGoesUnder(t, b.names, c, q, slots)
      {
        SentPrefix(t.valNames, b.names, Flat(c, |c|));
        RowSent(t, b.names, c, q, slots);
      }
    } else {
      var slots := seq(MAX_COLS, _ => "");
      OtherFirstName(t.valNames, b, found, Flat(cells, |cells|));
      RowSent(t, b.names, cells, pad, slots);
      assert !RowGoesUnder(t, b.names, cells, pad, slots);
    }
  }

  /** With a name before it, the first slot of a block's table is empty. */
  lemma {:induction false} OtherFirstName(names: seq<string>, b: Block, found: nat, values: seq<string>)
    requires found > 0 && names == Place(NoNames(), found, b.names) && b.names != [] && b.names[0] != "" && |values| == 1
    ensures Sent(names, values) != Sent(b.names, values)
  {
    PlaceAt(NoNames(), found, b.names, 0);
    FirstName(names, values);
    FirstName(b.names, values);
    assert |Message(names[0], values[0])| < |Message(b.names[0], values[0])|;
  }
}
