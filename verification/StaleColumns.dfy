/**
  The column buffers are not cleared between rows (`src/stdout_parser.c`, lines 316 and
  409-447): exactly when that shows, and what then shows.
 */
module StaleColumns {
  import opened CStrings
  import opened Tables
  import opened TableRows
  import opened ResultsDocument

  /** The values of a row, as read with the buffers holding `slots`. */
  function ValuesRead(t: TableDef, slots: seq<string>, line: string): seq<string>
    requires t.cols <= |slots|
  {
    RowValues(RowColumns(t, slots, line), ReadCols(t), t.valSep)
  }

  lemma {:induction false} SameValues(a: seq<string>, b: seq<string>, valSep: string, n: nat)
    requires n <= |a| == |b| && forall i | 0 <= i < n :: a[i] == b[i]
    ensures RowValues(a, n, valSep) == RowValues(b, n, valSep)
  {
    if n > 0 {
      SameValues(a, b, valSep, n - 1);
    }
  }

  lemma {:induction false} LastColumn(a: seq<string>, b: seq<string>, valSep: string, n: nat, v: seq<string>)
    requires 0 < n <= |a| == |b| && forall i | 0 <= i < n - 1 :: a[i] == b[i]
    requires ColumnValues(a[n - 1], valSep) == [] && ColumnValues(b[n - 1], valSep) == v != []
    ensures RowValues(a, n, valSep) != RowValues(b, n, valSep)
  {
    SameValues(a, b, valSep, n - 1);
    var first := RowValues(a, n - 1, valSep);
    assert |first + []| < |first + v|;
  }

  lemma OneValue(valSep: string, c: char)
    requires c !in valSep
    ensures ColumnValues(valSep + [c], valSep) == [[c]] && ColumnValues("", valSep) == []
  {
    var s := valSep + [c];
    assert s == "" + valSep + [c];
    ContainsMiddle("", valSep, [c]);
    TokensOfWeave([valSep, ""], [[c]], Chars(valSep));
    assert Weave([""], []) == "" && [valSep, ""][1..] == [""] && [[c]][1..] == [];
    assert Weave([valSep, ""], [[c]]) == s;
    TokensNone("", 0, Chars(valSep));
  }

  lemma ShortRowDepends(t: TableDef, line: string, c: char)
    requires |Tokens(line, Chars(t.sep))| < t.cols <= MAX_COLS && c !in t.valSep
    ensures exists a: seq<string>, b: seq<string> ::
      |a| == |b| == MAX_COLS && ValuesRead(t, a, line) != ValuesRead(t, b, line)
  {
    var a := seq(MAX_COLS, _ => "");
    var b := a[t.cols - 1 := t.valSep + [c]];
    OneValue(t.valSep, c);
    LastColumn(RowColumns(t, a, line), RowColumns(t, b, line), t.valSep, t.cols, [[c]]);
    assert |a| == |b| == MAX_COLS && ValuesRead(t, a, line) != ValuesRead(t, b, line);
  }

  /**
    What a row is read as does not depend on what earlier rows left behind, if and only if
    the line has as many column tokens as the table has columns. (`c` is any character that
    is not in the value separator.)
   */
  lemma IndependentIffFullRow(t: TableDef, line: string, c: char)
    requires t.cols <= MAX_COLS && c !in t.valSep
    ensures |Tokens(line, Chars(t.sep))| >= t.cols <==>
      forall a: seq<string>, b: seq<string> | |a| == |b| == MAX_COLS :: ValuesRead(t, a, line) == ValuesRead(t, b, line)
  {
    if |Tokens(line, Chars(t.sep))| < t.cols {
      ShortRowDepends(t, line, c);
    } else {
      forall a: seq<string>, b: seq<string> | |a| == |b| == MAX_COLS
        ensures ValuesRead(t, a, line) == ValuesRead(t, b, line)
      {
        SameValues(RowColumns(t, a, line), RowColumns(t, b, line), t.valSep, ReadCols(t));
      }
    }
  }

  /** Once split, a column holds its first value only. */
  lemma WornKeepsFirst(s: string, valSep: string)
    ensures ColumnValues(Worn(s, valSep), valSep) ==
      if Contains(Worn(s, valSep), valSep) && Tokens(s, Chars(valSep)) != [] then [Tokens(s, Chars(valSep))[0]] else []
  {
    var d, w := Chars(valSep), Worn(s, valSep);
    var lo, hi := Span(s, 0, d, true), TokenEnd(s, 0, d);
    if Contains(w, valSep) && Contains(s, valSep) {
      assert w == s[..hi];
      SpanIs(w, 0, d, true, lo);
      if lo < |s| {
        SpanIs(w, lo, d, false, hi);
        assert w[lo..hi] == s[lo..hi];
        TokensNone(w, hi, d);
      }
    }
  }

  /**
    A row that is too short, behind a full one, is read with each missing column replaced by
    the first value of that column in the full row, where the value separator comes before that
    value, and by nothing where it does not.
   */
  lemma ShortRowRepeats(t: TableDef, slots: seq<string>, full: string, short: string, i: nat)
    requires |slots| == MAX_COLS && t.cols <= MAX_COLS
    requires |Tokens(short, Chars(t.sep))| <= i < t.cols <= |Tokens(full, Chars(t.sep))|
    ensures var text := DropLast(Tokens(full, Chars(t.sep))[i]);
      var before := Tokens(text, Chars(t.valSep));
      ColumnValues(RowColumns(t, RowSlots(t, slots, full), short)[i], t.valSep) ==
        if Contains(Worn(text, t.valSep), t.valSep) && before != [] then [before[0]] else []
  {
    StaleColumn(t, slots, full, short, i);
    WornKeepsFirst(DropLast(Tokens(full, Chars(t.sep))[i]), t.valSep);
  }

  lemma StaleColumn(t: TableDef, slots: seq<string>, full: string, short: string, i: nat)
    requires |slots| == MAX_COLS && t.cols <= MAX_COLS
    requires |Tokens(short, Chars(t.sep))| <= i < t.cols <= |Tokens(full, Chars(t.sep))|
    ensures RowColumns(t, RowSlots(t, slots, full), short)[i] == Worn(DropLast(Tokens(full, Chars(t.sep))[i]), t.valSep)
  {
  }

  // -- Behind rows that were read before

  /** The line has as many columns as the table. */
  predicate IsFull(t: TableDef, line: string) {
    |Tokens(line, Chars(t.sep))| >= t.cols
  }

  /** A row with the same single value in each column. */
  function Uniform(t: TableDef, value: char): seq<seq<string>>
    requires t.cols >= 0
  {
    seq(t.cols, _ => [[value]])
  }

  lemma {:induction false} LastValue(slots: seq<string>, n: nat, valSep: string, v: string)
    requires 0 < n <= |slots| && ColumnValues(slots[n - 1], valSep) == [v]
    ensures RowValues(slots, n, valSep) != [] && RowValues(slots, n, valSep)[|RowValues(slots, n, valSep)| - 1] == v
  {
  }

  lemma UniformTokens(t: TableDef, value: char, pad: char)
    requires 0 < t.cols && Printable(t, Uniform(t, value), pad)
    ensures var tokens := Tokens(RowText(t, Uniform(t, value), pad), Chars(t.sep));
      |tokens| == t.cols && DropLast(tokens[t.cols - 1]) == t.valSep + [value]
  {
    hide Printable, Tokens, RowText, Weave;
    var cells, i := Uniform(t, value), t.cols - 1;
    RowTokens(t, cells, pad);
    BodyOfOne(t.valSep, value);
    var body := ColumnBody(cells[i], t.valSep);
    assert DropLast(body + [pad]) == body;
  }

  lemma NotInSeparator(t: TableDef, value: char, pad: char)
    requires 0 < t.cols && Printable(t, Uniform(t, value), pad)
    ensures value !in t.valSep
  {
    var cells := Uniform(t, value);
    assert IsToken(cells[0][0], Chars(t.valSep));
    assert [value][0] !in Chars(t.valSep);
  }

  /** What a uniform row leaves in the last column. */
  lemma UniformLeaves(t: TableDef, slots: seq<string>, short: string, value: char, pad: char)
    requires 0 < t.cols <= MAX_COLS == |slots| && !IsFull(t, short) && Printable(t, Uniform(t, value), pad)
    ensures IsFull(t, RowText(t, Uniform(t, value), pad))
    ensures ColumnValues(RowColumns(t, RowSlots(t, slots, RowText(t, Uniform(t, value), pad)), short)[t.cols - 1], t.valSep) == [[value]]
  {
    hide Printable, RowText, RowSlots, RowColumns, Tokens, ColumnValues, Worn, DropLast, Uniform;
    var row := RowText(t, Uniform(t, value), pad);
    UniformTokens(t, value, pad);
    NotInSeparator(t, value, pad);
    StaleColumn(t, slots, row, short, t.cols - 1);
    WornWhole(t.valSep, value);
    OneValue(t.valSep, value);
  }

  lemma BodyOfOne(valSep: string, value: char)
    ensures ColumnBody([[value]], valSep) == valSep + [value]
  {
    var gaps := seq(1, _ => valSep) + [""];
    assert gaps == [valSep, ""];
    assert gaps[1..] == [""] && [[value]][1..] == [];
    assert Weave([""], []) == "";
  }

  lemma WornWhole(valSep: string, value: char)
    requires value !in valSep
    ensures Worn(valSep + [value], valSep) == valSep + [value] && Contains(valSep + [value], valSep)
  {
    var s, d := valSep + [value], Chars(valSep);
    ContainsMiddle("", valSep, [value]);
    assert "" + valSep + [value] == s;
    SpanIs(s, 0, d, true, |valSep|);
    SpanIs(s, |valSep|, d, false, |s|);
    assert s[..|s|] == s;
  }

  /** Two full rows with different values make the same short row read differently. */
  lemma ShortRowDiffers(t: TableDef, slots: seq<string>, short: string, x: char, y: char, pad: char)
    requires 0 < t.cols <= MAX_COLS == |slots| && !IsFull(t, short) && x != y
    requires Printable(t, Uniform(t, x), pad) && Printable(t, Uniform(t, y), pad)
    ensures var a, b := RowText(t, Uniform(t, x), pad), RowText(t, Uniform(t, y), pad);
      && IsFull(t, a) && IsFull(t, b)
      && ValuesRead(t, RowSlots(t, slots, a), short) != ValuesRead(t, RowSlots(t, slots, b), short)
  {
    var a, b := RowText(t, Uniform(t, x), pad), RowText(t, Uniform(t, y), pad);
    UniformLeaves(t, slots, short, x, pad);
    UniformLeaves(t, slots, short, y, pad);
    LastValue(RowColumns(t, RowSlots(t, slots, a), short), t.cols, t.valSep, [x]);
    LastValue(RowColumns(t, RowSlots(t, slots, b), short), t.cols, t.valSep, [y]);
  }

  /**
    Behind full rows of a table whose separators do not mix, a row is read the same whatever
    these rows were, if and only if it is full itself. (`x` and `y` are any two different
    characters, and `pad` any one, that can stand in the table.)
   */
  lemma SameBehindAllRowsIff(t: TableDef, slots: seq<string>, line: string, x: char, y: char, pad: char)
    requires 0 < t.cols <= MAX_COLS == |slots| && x != y
    requires Printable(t, Uniform(t, x), pad) && Printable(t, Uniform(t, y), pad)
    ensures IsFull(t, line) <==> forall a: string, b: string | IsFull(t, a) && IsFull(t, b) ::
      ValuesRead(t, RowSlots(t, slots, a), line) == ValuesRead(t, RowSlots(t, slots, b), line)
  {
    hide Printable, ValuesRead, RowSlots, RowText, Uniform;
    if IsFull(t, line) {
      forall a: string, b: string | IsFull(t, a) && IsFull(t, b)
        ensures ValuesRead(t, RowSlots(t, slots, a), line) == ValuesRead(t, RowSlots(t, slots, b), line)
      {
        FullRowIndependent(t, RowSlots(t, slots, a), RowSlots(t, slots, b), line);
      }
    } else {
      ShortRowDiffers(t, slots, line, x, y, pad);
    }
  }

  lemma FullRowIndependent(t: TableDef, a: seq<string>, b: seq<string>, line: string)
    requires |a| == |b| == MAX_COLS && t.cols <= MAX_COLS && IsFull(t, line)
    ensures ValuesRead(t, a, line) == ValuesRead(t, b, line)
  {
    SameValues(RowColumns(t, a, line), RowColumns(t, b, line), t.valSep, ReadCols(t));
  }
}
