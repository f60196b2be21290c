/**
  Reading back what was printed: a table written out with its headers, its rows and a line
  behind them is read as exactly the values it was written from, whatever the column
  buffers held before (`src/stdout_parser.c`, lines 352-514).
 */
module ResultsDocument {
  import opened CStrings
  import opened Tables
  import opened TableRows
  import opened KeyMatches
  import opened ResultsScan

  // -- Printing

  /** Values, each behind a value separator. */
  function ColumnBody(values: seq<string>, valSep: string): string {
    Weave(seq(|values|, _ => valSep) + [""], values)
  }

  function ColumnTexts(cells: seq<seq<string>>, valSep: string, pad: char): (r: seq<string>)
    ensures |r| == |cells|
  {
    seq(|cells|, i requires 0 <= i < |cells| => ColumnBody(cells[i], valSep) + [pad])
  }

  /** Columns, each ended by a pad character and a column separator. */
  function RowText(t: TableDef, cells: seq<seq<string>>, pad: char): string {
    Weave([""] + seq(|cells|, _ => t.sep), ColumnTexts(cells, t.valSep, pad))
  }

  function Flat(cells: seq<seq<string>>, n: nat): seq<string>
    requires n <= |cells|
  {
    if n == 0 then [] else Flat(cells, n - 1) + cells[n - 1]
  }

  /** Separators are there and do not mix, and values hold none of their characters. */
  predicate Printable(t: TableDef, cells: seq<seq<string>>, pad: char) {
    && t.sep != "" && t.valSep != "" && NUL !in t.sep
    && NoneIn(t.valSep, Chars(t.sep)) && pad !in t.sep
    && (forall i, k | 0 <= i < |cells| && 0 <= k < |cells[i]| :: IsToken(cells[i][k], Chars(t.valSep)))
    && (forall i, k | 0 <= i < |cells| && 0 <= k < |cells[i]| :: NoneIn(cells[i][k], Chars(t.sep)))
    && 0 < |cells| == t.cols
  }

  predicate RowPrints(t: TableDef, cells: seq<seq<string>>, pad: char) {
    && Printable(t, cells, pad)
    && |RowText(t, cells, pad)| < LINE_LEN && NUL !in RowText(t, cells, pad)
    && |cells| <= 10 && |Flat(cells, |cells|)| <= |t.valNames|
  }

  // -- Reading a row back

  lemma {:induction false} WeaveNoneIn(gaps: seq<string>, toks: seq<string>, d: set<char>)
    requires |gaps| == |toks| + 1
    requires forall i | 0 <= i < |gaps| :: NoneIn(gaps[i], d)
    requires forall i | 0 <= i < |toks| :: NoneIn(toks[i], d)
    ensures NoneIn(Weave(gaps, toks), d)
    decreases |toks|
  {
    if toks != [] {
      WeaveNoneIn(gaps[1..], toks[1..], d);
    }
  }

  lemma ColumnBack(values: seq<string>, valSep: string)
    requires valSep != "" && forall k | 0 <= k < |values| :: IsToken(values[k], Chars(valSep))
    ensures ColumnValues(ColumnBody(values, valSep), valSep) == values
  {
    var gaps := seq(|values|, _ => valSep) + [""];
    TokensOfWeave(gaps, values, Chars(valSep));
    if values != [] {
      var rest := values[0] + Weave(gaps[1..], values[1..]);
      assert ColumnBody(values, valSep) == "" + valSep + rest;
      ContainsMiddle("", valSep, rest);
    }
  }

  lemma TextsAreTokens(t: TableDef, cells: seq<seq<string>>, pad: char)
    requires Printable(t, cells, pad)
    ensures forall i | 0 <= i < |cells| :: IsToken(ColumnTexts(cells, t.valSep, pad)[i], Chars(t.sep))
  {
    forall i | 0 <= i < |cells| ensures IsToken(ColumnTexts(cells, t.valSep, pad)[i], Chars(t.sep)) {
      WeaveNoneIn(seq(|cells[i]|, _ => t.valSep) + [""], cells[i], Chars(t.sep));
    }
  }

  lemma RowTokens(t: TableDef, cells: seq<seq<string>>, pad: char)
    requires Printable(t, cells, pad)
    ensures Tokens(RowText(t, cells, pad), Chars(t.sep)) == ColumnTexts(cells, t.valSep, pad)
    ensures Contains(RowText(t, cells, pad), t.sep)
  {
    var texts, gaps, d := ColumnTexts(cells, t.valSep, pad), [""] + seq(|cells|, _ => t.sep), Chars(t.sep);
    TextsAreTokens(t, cells, pad);
    TokensOfWeave(gaps, texts, d);
    WeaveContains(gaps, texts);
  }

  lemma {:induction false} ValuesBack(cells: seq<seq<string>>, slots: seq<string>, valSep: string, n: nat)
    requires n <= |cells| <= |slots|
    requires forall i | 0 <= i < |cells| :: ColumnValues(slots[i], valSep) == cells[i]
    ensures RowValues(slots, n, valSep) == Flat(cells, n)
  {
    if n > 0 {
      ValuesBack(cells, slots, valSep, n - 1);
    }
  }

  lemma ColumnsBack(t: TableDef, cells: seq<seq<string>>, pad: char, slots: seq<string>)
    requires Printable(t, cells, pad) && |cells| <= |slots|
    ensures forall i | 0 <= i < |cells| ::
      ColumnValues(Overlay(slots, ColumnTexts(cells, t.valSep, pad), |cells|)[i], t.valSep) == cells[i]
  {
    var cols := Overlay(slots, ColumnTexts(cells, t.valSep, pad), |cells|);
    forall i | 0 <= i < |cells| ensures ColumnValues(cols[i], t.valSep) == cells[i] {
      var body := ColumnBody(cells[i], t.valSep);
      assert (body + [pad])[..|body|] == body;
      ColumnBack(cells[i], t.valSep);
    }
  }

  /** A printed row is read as its own values, whatever earlier rows left in the column buffers. */
  lemma {:induction false} RowBack(t: TableDef, cells: seq<seq<string>>, pad: char, slots: seq<string>)
    requires RowPrints(t, cells, pad) && |slots| == MAX_COLS
    ensures RowFits(t, slots, RowText(t, cells, pad)) && Contains(RowText(t, cells, pad), t.sep)
    ensures RowMessages(t, slots, RowText(t, cells, pad)) == Sent(t.valNames, Flat(cells, |cells|))
  {
    RowTokens(t, cells, pad);
    ColumnsBack(t, cells, pad, slots);
    ValuesBack(cells, RowColumns(t, slots, RowText(t, cells, pad)), t.valSep, |cells|);
  }

  // -- Reading a whole table back

  /** A table written out: `k` is its number among the tables of a template, `t` its description. */
  datatype Document = Document(k: nat, t: TableDef, rows: seq<seq<seq<string>>>, pad: char, closing: string)

  /** Line `n`: the headers, then the rows, then a line that is not part of the table. */
  function LineAt(d: Document, n: nat): string {
    var h := |d.t.headers|;
    if n < h then d.t.headers[n] else if n < h + |d.rows| then RowText(d.t, d.rows[n - h], d.pad) else d.closing
  }

  function Lines(d: Document): seq<string> {
    seq(|d.t.headers| + |d.rows| + 1, n requires 0 <= n => LineAt(d, n))
  }

  /** No header of table `k` holds the first header of an earlier table, which would take the line. */
  predicate Unclaimed(ts: seq<TableDef>, k: nat)
    requires WellFormed(ts) && k < |ts|
  {
    forall j, n | 0 <= j < k && 0 <= n < |ts[k].headers| :: !Contains(ts[k].headers[n], ts[j].headers[0])
  }

  predicate Belongs(d: Document, ts: seq<TableDef>)
    requires WellFormed(ts)
  {
    d.k < |ts| && ts[d.k] == d.t && Unclaimed(ts, d.k)
  }

  /** The values of each row have names. */
  predicate Named(d: Document) {
    forall i | 0 <= i < |d.rows| :: |Flat(d.rows[i], |d.rows[i]|)| <= |d.t.valNames|
  }

  ghost predicate DocumentFits(d: Document, exec: Matcher) {
    && Named(d) && (forall i | 0 <= i < |d.rows| :: RowPrints(d.t, d.rows[i], d.pad))
    && !Contains(d.closing, d.t.sep) && MatchesFit(d.closing, exec(d.closing))
    && forall n: nat | n <= |d.t.headers| + |d.rows| ::
         |LineAt(d, n)| < LINE_LEN && NUL !in LineAt(d, n) && MatchesFit(LineAt(d, n), exec(LineAt(d, n)))
  }

  /** The messages of the first `n` rows. */
  function RowsSent(d: Document, n: nat): seq<string>
    requires n <= |d.rows| && Named(d)
  {
    if n == 0 then [] else RowsSent(d, n - 1) + Sent(d.t.valNames, Flat(d.rows[n - 1], |d.rows[n - 1]|))
  }

  /** No table but, perhaps, table `k` has any of its headers. */
  predicate OthersIdle(found: seq<nat>, k: nat) {
    forall j | 0 <= j < |found| && j != k :: found[j] == 0
  }

  /** No table has any of its headers, and none is being read. */
  predicate Idle(s: Scan) {
    !s.inTable && forall j | 0 <= j < |s.found| :: s.found[j] == 0
  }

  /** Where the parser is in the document. */
  predicate At(d: Document, s: Scan, n: nat) {
    var h := |d.t.headers|;
    && d.k < |s.found| && OthersIdle(s.found, d.k)
    && if n < h then s.found[d.k] == n && !s.inTable
       else if n <= h + |d.rows| then s.found[d.k] == h && s.inTable && s.cur == d.k
       else s.found[d.k] == 0 && !s.inTable
  }

  /** What the first `n` lines of the document have to send. */
  function Due(d: Document, exec: Matcher, n: nat): seq<string>
    requires Named(d) && MatchesFit(d.closing, exec(d.closing))
  {
    var h := |d.t.headers|;
    if n <= h then []
    else if n <= h + |d.rows| then RowsSent(d, n - h)
    else RowsSent(d, |d.rows|) + LineKeys(exec, d.closing)
  }

  /** With all other tables idle, a line is taken by table `k` if it wants it and no earlier table does. */
  lemma {:induction false} ClaimedBy(ts: seq<TableDef>, found: seq<nat>, line: string, k: nat)
    requires WellFormed(ts) && |found| == |ts| && k < |ts| && OthersIdle(found, k)
    requires forall j | 0 <= j < k :: !Contains(line, ts[j].headers[0])
    requires Wanted(ts[k], found[k], line)
    ensures Claim(ts, found, line, 0) == k
  {
  }

  lemma HeaderStep(d: Document, exec: Matcher, ts: seq<TableDef>, s: Scan, n: nat)
    requires Inv(ts, s) && Belongs(d, ts) && DocumentFits(d, exec) && n < |d.t.headers| && At(d, s, n)
    ensures LineFits(ts, exec, s, LineAt(d, n)) && At(d, Step(ts, s, LineAt(d, n)), n + 1)
    ensures Due(d, exec, n + 1) == Due(d, exec, n) + Output(ts, exec, s, LineAt(d, n))
  {
    hide Contains;
    var line := LineAt(d, n);
    ContainsSelf(line);
    ClaimedBy(ts, s.found, line, d.k);
    assert KindOf(ts, s, line) == Header(d.k);
  }

  lemma DueRow(d: Document, exec: Matcher, n: nat)
    requires DocumentFits(d, exec) && n < |d.rows|
    ensures Due(d, exec, |d.t.headers| + n + 1) ==
      Due(d, exec, |d.t.headers| + n) + Sent(d.t.valNames, Flat(d.rows[n], |d.rows[n]|))
  {
    assert RowsSent(d, 0) == [];
  }

  lemma RowKind(d: Document, exec: Matcher, ts: seq<TableDef>, s: Scan, n: nat)
    requires Inv(ts, s) && Belongs(d, ts) && DocumentFits(d, exec)
    requires n < |d.rows| && s.inTable && s.cur == d.k
    ensures var line := LineAt(d, |d.t.headers| + n);
      && KindOf(ts, s, line) == Row && LineFits(ts, exec, s, line)
      && Output(ts, exec, s, line) == Sent(d.t.valNames, Flat(d.rows[n], |d.rows[n]|))
  {
    hide RowMessages, RowText, RowPrints, Contains, Claim;
    RowBack(d.t, d.rows[n], d.pad, s.slots);
    assert LineAt(d, |d.t.headers| + n) == RowText(d.t, d.rows[n], d.pad);
  }

  lemma RowStep(d: Document, exec: Matcher, ts: seq<TableDef>, s: Scan, n: nat)
    requires Inv(ts, s) && Belongs(d, ts) && DocumentFits(d, exec)
    requires |d.t.headers| <= n < |d.t.headers| + |d.rows| && At(d, s, n)
    ensures LineFits(ts, exec, s, LineAt(d, n)) && At(d, Step(ts, s, LineAt(d, n)), n + 1)
    ensures Due(d, exec, n + 1) == Due(d, exec, n) + Output(ts, exec, s, LineAt(d, n))
  {
    hide LineAt, LineFits, Output, KindOf, Due, RowSlots, Sent, Flat, RowsSent;
    RowKind(d, exec, ts, s, n - |d.t.headers|);
    DueRow(d, exec, n - |d.t.headers|);
  }

  lemma ClosingStep(d: Document, exec: Matcher, ts: seq<TableDef>, s: Scan, n: nat)
    requires Inv(ts, s) && Belongs(d, ts) && DocumentFits(d, exec)
    requires n == |d.t.headers| + |d.rows| && At(d, s, n) && s.inTable
    ensures LineFits(ts, exec, s, LineAt(d, n)) && At(d, Step(ts, s, LineAt(d, n)), n + 1)
    ensures Due(d, exec, n + 1) == Due(d, exec, n) + Output(ts, exec, s, LineAt(d, n))
  {
    hide Contains, Claim;
    assert KindOf(ts, s, d.closing) == TableEnd;
  }

  lemma DocumentStep(d: Document, exec: Matcher, ts: seq<TableDef>, s: Scan, n: nat)
    requires Inv(ts, s) && Belongs(d, ts) && DocumentFits(d, exec)
    requires n <= |d.t.headers| + |d.rows| && At(d, s, n)
    ensures LineFits(ts, exec, s, LineAt(d, n)) && At(d, Step(ts, s, LineAt(d, n)), n + 1)
    ensures Due(d, exec, n + 1) == Due(d, exec, n) + Output(ts, exec, s, LineAt(d, n))
  {
    hide DocumentFits, Belongs, LineAt, LineFits, Output, Due, Step;
    if n < |d.t.headers| {
      HeaderStep(d, exec, ts, s, n);
    } else if n < |d.t.headers| + |d.rows| {
      RowStep(d, exec, ts, s, n);
    } else {
      ClosingStep(d, exec, ts, s, n);
    }
  }

  lemma {:induction false} DocumentStays(d: Document, exec: Matcher, ts: seq<TableDef>, s: Scan, n: nat)
    requires Inv(ts, s) && Belongs(d, ts) && DocumentFits(d, exec) && n <= |Lines(d)| && At(d, s, 0)
    ensures At(d, After(ts, s, Lines(d), n), n)
  {
    hide Step, LineFits, Output, At, DocumentFits, Belongs, LineAt, Due;
    if n > 0 {
      DocumentStays(d, exec, ts, s, n - 1);
      DocumentStep(d, exec, ts, After(ts, s, Lines(d), n - 1), n - 1);
    }
  }

  lemma NothingDue(d: Document, exec: Matcher)
    requires DocumentFits(d, exec)
    ensures Due(d, exec, 0) == []
  {
  }

  lemma {:induction false} DocumentTrace(d: Document, exec: Matcher, ts: seq<TableDef>, s: Scan, n: nat)
    requires Inv(ts, s) && Belongs(d, ts) && DocumentFits(d, exec) && n <= |Lines(d)| && At(d, s, 0)
    requires LinesFit(ts, exec, s, Lines(d))
    ensures Trace(ts, exec, s, Lines(d), n) == Due(d, exec, n)
  {
    hide Step, LineFits, Output, At, DocumentFits, Belongs, LineAt, Due;
    if n == 0 {
      NothingDue(d, exec);
    } else {
      DocumentTrace(d, exec, ts, s, n - 1);
      DocumentStays(d, exec, ts, s, n - 1);
      DocumentStep(d, exec, ts, After(ts, s, Lines(d), n - 1), n - 1);
    }
  }

  lemma DocumentLineFits(d: Document, exec: Matcher, ts: seq<TableDef>, s: Scan)
    requires Inv(ts, s) && Belongs(d, ts) && DocumentFits(d, exec) && At(d, s, 0)
    ensures LinesFit(ts, exec, s, Lines(d))
  {
    hide Step, LineFits, Output, At, DocumentFits, Belongs, LineAt, Due;
    var lines := Lines(d);
    forall n | 0 <= n < |lines| ensures LineFits(ts, exec, After(ts, s, lines, n), lines[n]) {
      DocumentStays(d, exec, ts, s, n);
      DocumentStep(d, exec, ts, After(ts, s, lines, n), n);
    }
  }

  /**
    Reading a printed table of a template, from any state in which no table has any of its
    headers, sends the values of its rows in order, then what the line behind it matches, and
    leads back to such a state: tables can follow each other.
   */
  lemma {:induction false} DocumentBack(d: Document, exec: Matcher, ts: seq<TableDef>, s: Scan)
    requires Inv(ts, s) && Belongs(d, ts) && DocumentFits(d, exec) && Idle(s)
    ensures LinesFit(ts, exec, s, Lines(d))
    ensures Trace(ts, exec, s, Lines(d), |Lines(d)|) == RowsSent(d, |d.rows|) + LineKeys(exec, d.closing)
    ensures Idle(After(ts, s, Lines(d), |Lines(d)|))
  {
    hide Step, LineFits, Output, DocumentFits, LineAt;
    var lines := Lines(d);
    assert |ts[d.k].headers| > 0;
    DocumentLineFits(d, exec, ts, s);
    DocumentStays(d, exec, ts, s, |lines|);
    DocumentTrace(d, exec, ts, s, |lines|);
  }

  // -- When the headers of a table lead into it

  /** A line moves the counter of table `k` by one at most, and by one only if the table takes it. */
  lemma CounterGrows(ts: seq<TableDef>, s: Scan, line: string, k: nat)
    requires Inv(ts, s) && k < |ts|
    ensures Step(ts, s, line).found[k] <= s.found[k] + 1
    ensures Step(ts, s, line).found[k] == s.found[k] + 1 ==> KindOf(ts, s, line) == Header(k)
    ensures KindOf(ts, s, line) == Header(k) && OthersIdle(s.found, k) ==> OthersIdle(Step(ts, s, line).found, k)
    ensures KindOf(ts, s, line) == Header(k) && OthersIdle(s.found, k) ==>
      forall j | 0 <= j < k :: !Contains(line, ts[j].headers[0])
  {
    hide Contains;
    if KindOf(ts, s, line) == Header(k) && OthersIdle(s.found, k) {
      forall j | 0 <= j < k ensures !Contains(line, ts[j].headers[0]) {
        assert !Wanted(ts[j], s.found[j], line);
      }
    }
  }

  /** If all of the first `n` headers count for table `k`, no earlier table could have taken one of them. */
  lemma {:induction false} CountedMeansUnclaimed(ts: seq<TableDef>, s: Scan, k: nat, n: nat)
    requires Inv(ts, s) && Idle(s) && k < |ts| && n <= |ts[k].headers|
    ensures var r := After(ts, s, ts[k].headers, n);
      && r.found[k] <= n
      && (r.found[k] == n ==> OthersIdle(r.found, k))
      && (r.found[k] == n ==> forall j, m | 0 <= j < k && 0 <= m < n :: !Contains(ts[k].headers[m], ts[j].headers[0]))
  {
    hide Step, KindOf, Contains;
    if n > 0 {
      CountedMeansUnclaimed(ts, s, k, n - 1);
      CounterGrows(ts, After(ts, s, ts[k].headers, n - 1), ts[k].headers[n - 1], k);
    }
  }

  /** How far `n` header lines of table `k` lead. */
  predicate Counted(ts: seq<TableDef>, k: nat, r: Scan, n: nat)
    requires k < |ts|
  {
    && k < |r.found| && r.found[k] == n && OthersIdle(r.found, k)
    && (r.inTable <==> n == |ts[k].headers|) && (r.inTable ==> r.cur == k)
  }

  lemma CountOne(ts: seq<TableDef>, r: Scan, k: nat, n: nat)
    requires Inv(ts, r) && k < |ts| && n < |ts[k].headers| && Unclaimed(ts, k) && Counted(ts, k, r, n)
    ensures Counted(ts, k, Step(ts, r, ts[k].headers[n]), n + 1)
  {
    hide Contains;
    ContainsSelf(ts[k].headers[n]);
    ClaimedBy(ts, r.found, ts[k].headers[n], k);
  }

  /** While none is taken, the headers count for table `k`. */
  lemma {:induction false} UnclaimedMeansCounted(ts: seq<TableDef>, s: Scan, k: nat, n: nat)
    requires Inv(ts, s) && Idle(s) && k < |ts| && n <= |ts[k].headers| && Unclaimed(ts, k)
    ensures Counted(ts, k, After(ts, s, ts[k].headers, n), n)
  {
    hide Step, Unclaimed;
    if n > 0 {
      UnclaimedMeansCounted(ts, s, k, n - 1);
      CountOne(ts, After(ts, s, ts[k].headers, n - 1), k, n - 1);
    }
  }

  /** Its headers, one line each, lead into table `k` if and only if none of them holds the first header of an earlier table. */
  lemma {:induction false} EnteredIffUnclaimed(ts: seq<TableDef>, s: Scan, k: nat)
    requires Inv(ts, s) && Idle(s) && k < |ts|
    ensures var r := After(ts, s, ts[k].headers, |ts[k].headers|);
      r.inTable && r.cur == k <==> Unclaimed(ts, k)
  {
    hide Contains, Step;
    CountedMeansUnclaimed(ts, s, k, |ts[k].headers|);
    if Unclaimed(ts, k) {
      UnclaimedMeansCounted(ts, s, k, |ts[k].headers|);
    }
  }

  /** Two tables; the header of the second one holds that of the first. */
  function TimeTables(): seq<TableDef> {
    [TableDef("|", " ", ["Cycle"], 1, NoNames(), 1), TableDef("|", " ", ["Cycle time"], 1, NoNames(), 1)]
  }

  /** Then the line with the second header leads into the first table. */
  lemma HeaderTaken()
    ensures WellFormed(TimeTables()) && !Unclaimed(TimeTables(), 1)
    ensures forall slots: seq<string> | |slots| == MAX_COLS ::
      var s := Start(TimeTables(), slots);
      Inv(TimeTables(), s) && Step(TimeTables(), s, "Cycle time").inTable && Step(TimeTables(), s, "Cycle time").cur == 0
  {
    var ts, line := TimeTables(), "Cycle time";
    ContainsMiddle("", "Cycle", " time");
    assert "" + "Cycle" + " time" == line;
    assert ts[0].headers[0] == "Cycle" && ts[1].headers[0] == line;
    forall slots: seq<string> | |slots| == MAX_COLS
      ensures var s := Start(ts, slots); Inv(ts, s) && Step(ts, s, line).inTable && Step(ts, s, line).cur == 0
    {
      var s := Start(ts, slots);
      assert Wanted(ts[0], s.found[0], line);
      assert KindOf(ts, s, line) == Header(0);
    }
  }
}
