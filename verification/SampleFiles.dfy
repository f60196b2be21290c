/**
  One pair of files, letter by letter: a template with one table, and a results file with a
  line outside the table, the table with one row, and a line behind it
  (`src/stdout_parser.c`, lines 191-529).
 */
module SampleFiles {
  import opened CStrings
  import opened Numbers
  import opened Tables
  import opened FileLines
  import opened TableTemplate
  import opened TableRows
  import opened KeyMatches
  import opened ResultsScan
  import opened ResultsDocument
  import opened ResultsLines
  import opened StdoutParser

  const BLOCK := Block("|", ";", ["Cycle"], 2, ["time", "tag_skip", "speed"], 3)

  const TEMPLATE := [
    "===table===\n", "table_sep=|\n", "header=Cycle\n", "cols=2\n", "val_sep=;\n", "num_vals=3\n",
    "val_name=time\n", "val_name=tag_skip\n", "val_name=speed\n", "===end_table===\n"]

  lemma Spelled(s: string)
    requires forall i | 0 <= i < |s| :: s[i] !in {'=', '\n', '\r', NUL}
    requires |s| <= 20
    ensures Prints(SEP, s) && Prints(VAL_SEP, s) && Prints(HEADER, s) && Prints(VAL_NAME, s)
  {
    hide Plain;
    WithoutEquals(s);
  }

  lemma BlockIsPlain()
    ensures PlainBlock(BLOCK)
  {
    hide Prints;
    Spelled("|");
    Spelled(";");
    Spelled("Cycle");
    Spelled("time");
    Spelled("tag_skip");
    Spelled("speed");
  }

  lemma NumbersSpelled()
    ensures Signed(2) == "2" && Signed(3) == "3"
  {
  }

  lemma LinesSpelled()
    ensures OPEN + "\n" == "===table===\n" && SEP + "|" + "\n" == "table_sep=|\n" && HEADER + "Cycle" + "\n" == "header=Cycle\n"
    ensures COLS + "2" + "\n" == "cols=2\n" && VAL_SEP + ";" + "\n" == "val_sep=;\n" && NUM_VALS + "3" + "\n" == "num_vals=3\n"
    ensures VAL_NAME + "time" + "\n" == "val_name=time\n" && VAL_NAME + "tag_skip" + "\n" == "val_name=tag_skip\n"
    ensures VAL_NAME + "speed" + "\n" == "val_name=speed\n" && CLOSE + "\n" == "===end_table===\n"
  {
  }

  lemma {:induction false} OneKeyLine(key: string, text: string, more: seq<string>)
    ensures KeyLines(key, [text] + more) == [key + text + "\n"] + KeyLines(key, more)
  {
    assert ([text] + more)[1..] == more;
  }

  lemma {:induction false} NamesSpelled()
    ensures KeyLines(VAL_NAME, ["time", "tag_skip", "speed"]) == ["val_name=time\n", "val_name=tag_skip\n", "val_name=speed\n"]
    ensures KeyLines(HEADER, ["Cycle"]) == ["header=Cycle\n"]
  {
    LinesSpelled();
    OneKeyLine(VAL_NAME, "time", ["tag_skip", "speed"]);
    OneKeyLine(VAL_NAME, "tag_skip", ["speed"]);
    OneKeyLine(VAL_NAME, "speed", []);
    OneKeyLine(HEADER, "Cycle", []);
    assert ["time"] + ["tag_skip", "speed"] == BLOCK.names;
  }

  lemma {:induction false} TemplateSpelled()
    ensures PrintAll([BLOCK]) == TEMPLATE
  {
    hide KeyLines, Signed;
    LinesSpelled();
    NumbersSpelled();
    NamesSpelled();
    assert [BLOCK][1..] == [];
  }

  /** The table the template means. */
  function SampleTable(): TableDef {
    TableDef("|", ";", ["Cycle"], 2, ["time", "tag_skip", "speed"] + seq(17, _ => ""), 3)
  }

  lemma {:induction false} TableIs()
    ensures TablesOf([BLOCK], 0) == [SampleTable()]
  {
    assert [BLOCK][1..] == [];
    var names := TableOf(BLOCK, 0).valNames;
    forall i: nat | i < 20 ensures names[i] == SampleTable().valNames[i] {
      PlaceAt(NoNames(), 0, BLOCK.names, i);
    }
    assert names == SampleTable().valNames;
    assert ["Cycle"][..1] == ["Cycle"];
  }

  // -- The results file

  const RESULTS := ["elapsed 5", "Cycle", ";1.|;x;2.|", "done"]

  /** One expression, that finds a word and a number in the first line. */
  function SampleMatches(line: string): seq<Match> {
    if line == "elapsed 5" then [Match(3, [(0, 9), (0, 7), (8, 9)])] else []
  }

  function SampleDocument(): Document {
    Document(0, SampleTable(), [[["1"], ["x", "2"]]], '.', "done")
  }

  function SampleParts(): seq<Part> {
    [Others(["elapsed 5"]), Printed(SampleDocument())]
  }

  lemma {:induction false} RowSpelled()
    ensures RowText(SampleTable(), [["1"], ["x", "2"]], '.') == ";1.|;x;2.|"
    ensures Flat([["1"], ["x", "2"]], 2) == ["1", "x", "2"]
  {
    var cells: seq<seq<string>> := [["1"], ["x", "2"]];
    ColumnsSpelled();
    assert ColumnTexts(cells, ";", '.') == [";1.", ";x;2."];
    assert [""] + seq(2, _ => "|") == ["", "|", "|"];
    assert ["", "|", "|"][1..] == ["|", "|"] && ["|", "|"][1..] == ["|"];
    assert [";1.", ";x;2."][1..] == [";x;2."] && [";x;2."][1..] == [];
    assert Weave(["|"], []) == "|";
    assert Weave(["|", "|"], [";x;2."]) == "|" + ";x;2." + "|";
    assert Flat(cells, 1) == ["1"];
  }

  lemma {:induction false} ColumnsSpelled()
    ensures ColumnBody(["1"], ";") + ['.'] == ";1." && ColumnBody(["x", "2"], ";") + ['.'] == ";x;2."
  {
    assert seq(1, _ => ";") + [""] == [";", ""] && seq(2, _ => ";") + [""] == [";", ";", ""];
    assert [";", ""][1..] == [""] && [";", ";", ""][1..] == [";", ""];
    assert ["1"][1..] == [] && ["x", "2"][1..] == ["2"] && ["2"][1..] == [];
    assert Weave([""], []) == "";
    assert Weave([";", ""], ["1"]) == ";1" && Weave([";", ""], ["2"]) == ";2";
    assert Weave([";", ";", ""], ["x", "2"]) == ";x;2";
  }

  lemma CharNotIn(s: string, pat: string, c: char)
    requires c in pat && c !in s
    ensures !Contains(s, pat)
  {
    var k: nat :| k < |pat| && pat[k] == c;
    forall i: nat | i <= |s| ensures !ContainsAt(s, pat, i) {
      assert i + |pat| <= |s| ==> s[i..i + |pat|][k] == s[i + k] != c;
    }
  }

  lemma NamesMarked()
    ensures !Skipped("time") && Skipped("tag_skip") && !Skipped("speed")
  {
    CharNotIn("time", "_skip", '_');
    CharNotIn("speed", "_skip", '_');
    assert "tag" + "_skip" + "" == "tag_skip";
    ContainsMiddle("tag", "_skip", "");
  }

  /** What the row sends: three values, of which one has a marked name. */
  lemma {:induction false} RowSpeaks()
    ensures Sent(SampleTable().valNames, ["1", "x", "2"]) == ["time=1", "speed=2"]
  {
    hide Skipped;
    var names := SampleTable().valNames;
    NamesMarked();
    assert names[0] == "time" && names[1] == "tag_skip" && names[2] == "speed";
    assert ["1", "x", "2"][..2] == ["1", "x"] && ["1", "x"][..1] == ["1"] && ["1"][..0] == [];
    assert Sent(names, ["1"]) == [Message("time", "1")];
    assert Sent(names, ["1", "x"]) == [Message("time", "1")];
    assert Message("time", "1") == "time=1" && Message("speed", "2") == "speed=2";
  }

  lemma {:induction false} LineSpeaks()
    ensures MatchesFit("elapsed 5", SampleMatches("elapsed 5")) && LineKeys(SampleMatches, "elapsed 5") == ["elapsed=5"]
  {
    var line := "elapsed 5";
    var m := Match(3, [(0, 9), (0, 7), (8, 9)]);
    assert SampleMatches(line) == [m] && MatchFits(line, m);
    assert line[0..7] == "elapsed" && line[8..9] == "5";
    assert "elapsed" + "=" + "5" == "elapsed=5";
    PairAt(line, m, 0);
    KeysInOrder(line, [], m);
    assert [] + [m] == [m];
  }

  lemma NothingElse(line: string)
    requires line != "elapsed 5"
    ensures MatchesFit(line, SampleMatches(line)) && LineKeys(SampleMatches, line) == []
  {
  }

  lemma RowIsPrintable()
    ensures RowPrints(SampleTable(), [["1"], ["x", "2"]], '.')
  {
    var cells: seq<seq<string>> := [["1"], ["x", "2"]];
    RowSpelled();
    assert cells[0][0] == "1" && cells[1][0] == "x" && cells[1][1] == "2";
    assert Chars("|") == {'|'} && Chars(";") == {';'} by {
      CharsOfOne();
    }
  }

  lemma CharsOfOne()
    ensures Chars("|") == {'|'} && Chars(";") == {';'}
  {
    assert "|"[0] == '|' && ";"[0] == ';';
  }

  lemma {:induction false} DocumentSpelled()
    ensures Lines(SampleDocument()) == ["Cycle", ";1.|;x;2.|", "done"]
  {
    hide RowText;
    RowSpelled();
  }

  lemma {:induction false} DocumentIsFit()
    ensures DocumentFits(SampleDocument(), SampleMatches)
  {
    hide RowText, RowPrints, LineKeys, Contains, SampleMatches;
    var d := SampleDocument();
    RowSpelled();
    RowIsPrintable();
    DocumentSpelled();
    CharNotIn("done", "|", '|');
    NothingElse("Cycle");
    NothingElse(";1.|;x;2.|");
    NothingElse("done");
    forall n: nat | n <= 2
      ensures |LineAt(d, n)| < LINE_LEN && NUL !in LineAt(d, n) && MatchesFit(LineAt(d, n), SampleMatches(LineAt(d, n)))
    {
      assert LineAt(d, n) == Lines(d)[n];
    }
  }

  lemma {:induction false} PartsAreFit()
    ensures AllFit([SampleTable()], SampleParts(), SampleMatches)
  {
    hide DocumentFits, Contains, LineKeys, SampleMatches;
    DocumentIsFit();
    LineSpeaks();
    CharNotIn("elapsed 5", "Cycle", 'C');
    assert "Cycle"[0] == 'C';
    assert FreeLine([SampleTable()], SampleMatches, "elapsed 5");
  }

  lemma Line(line: string)
    requires forall i | 0 <= i < |line| :: line[i] !in {'\n', '\r', NUL}
    requires |line| <= 20
    ensures IsLine(line + "\n") && (line != "" ==> line[|line| - 1] != '\r')
  {
    var raw := line + "\n";
    assert forall i | 0 <= i < |line| :: raw[i] == line[i];
  }

  lemma ResultsAreWritable()
    ensures Writable(RESULTS)
  {
    hide IsLine;
    Line("elapsed 5");
    Line("Cycle");
    Line(";1.|;x;2.|");
    Line("done");
  }

  lemma ResultsSpelled()
    ensures Ended(RESULTS) == ["elapsed 5\n", "Cycle\n", ";1.|;x;2.|\n", "done\n"]
  {
    hide Ended;
    assert "elapsed 5" + "\n" == "elapsed 5\n" && "Cycle" + "\n" == "Cycle\n";
    assert ";1.|;x;2.|" + "\n" == ";1.|;x;2.|\n" && "done" + "\n" == "done\n";
    assert Ended(RESULTS)[0] == "elapsed 5\n" && Ended(RESULTS)[1] == "Cycle\n";
    assert Ended(RESULTS)[2] == ";1.|;x;2.|\n" && Ended(RESULTS)[3] == "done\n";
  }

  lemma {:induction false} PartsSpelled()
    ensures AllPartLines(SampleParts()) == RESULTS
  {
    hide Lines;
    DocumentSpelled();
    var ps := SampleParts();
    assert ps[1..] == [ps[1]] && ps[1..][1..] == [];
    assert AllPartLines([ps[1]]) == Lines(SampleDocument()) + AllPartLines([]);
  }

  lemma {:induction false} PartsSpeak()
    requires AllFit([SampleTable()], SampleParts(), SampleMatches)
    ensures AllSent([SampleTable()], SampleParts(), SampleMatches) == ["elapsed=5", "time=1", "speed=2"]
  {
    hide LineKeys, DocumentFits, FreeLines, SampleMatches;
    var ps, ts, d := SampleParts(), [SampleTable()], SampleDocument();
    LineSpeaks();
    NothingElse("done");
    RowSpelled();
    RowSpeaks();
    assert ps[1..] == [ps[1]] && ps[1..][1..] == [];
    assert RowsSent(d, 0) == [];
    assert RowsSent(d, 1) == Sent(d.t.valNames, Flat(d.rows[0], 2));
    assert AllKeys(SampleMatches, ["elapsed 5"], 0) == [];
    assert PartSent(ts, ps[1], SampleMatches) == ["time=1", "speed=2"];
    assert PartSent(ts, ps[0], SampleMatches) == ["elapsed=5"];
  }

  /**
    The template file and the results file as they are: the line outside the table and the row
    of the table send three messages, whatever the column buffers hold.
   */
  lemma {:induction false} SampleSends(slots: seq<string>)
    requires |slots| == MAX_COLS
    ensures var template, results := Text(TEMPLATE), Text(["elapsed 5\n", "Cycle\n", ";1.|;x;2.|\n", "done\n"]);
      && TemplateFits(template) && TablesIn(template) == [SampleTable()]
      && ResultsFit(TablesIn(template), SampleMatches, results)
      && FilesSend(template, results, SampleMatches, slots) == ["elapsed=5", "time=1", "speed=2"]
  {
    hide *;
    SampleParsed();
    PartsSpeak();
  }

  lemma {:induction false} SampleParsed()
    ensures AllFit([SampleTable()], SampleParts(), SampleMatches)
    ensures var template, results := Text(TEMPLATE), Text(["elapsed 5\n", "Cycle\n", ";1.|;x;2.|\n", "done\n"]);
      && TablesIn(template) == [SampleTable()]
      && TemplateFits(template) && ResultsFit(TablesIn(template), SampleMatches, results)
      && (forall slots: seq<string> | |slots| == MAX_COLS ::
            FilesSend(template, results, SampleMatches, slots) == AllSent([SampleTable()], SampleParts(), SampleMatches))
  {
    hide PlainBlock, PrintAll, TablesOf, AllFit, AllPartLines, Writable, Text, Ended, TablesIn, TemplateFits, ResultsFit,
      FilesSend, AllSent, SampleTable, SampleParts, SampleMatches;
    BlockIsPlain();
    TemplateSpelled();
    TableIs();
    PartsAreFit();
    PartsSpelled();
    ResultsAreWritable();
    ResultsSpelled();
    PrintedAndParsed([BLOCK], SampleParts(), SampleMatches);
  }
}
