/**
  Which message each value of a row becomes (`src/stdout_parser.c`, lines 421-448): counted by
  position, with the texts written out.
 */
module SentValues {
  import opened CStrings
  import opened Tables
  import opened TableRows
  import opened ResultsDocument

  /** How many of the first `n` names are not marked to be skipped. */
  function Unskipped(names: seq<string>, n: nat): (k: nat)
    requires n <= |names|
    ensures k <= n
  {
    if n == 0 then 0 else Unskipped(names, n - 1) + if Contains(names[n - 1], "_skip") then 0 else 1
  }

  /** As many messages as values whose names are not marked. */
  lemma {:induction false} SentCount(names: seq<string>, values: seq<string>)
    requires |values| <= |names|
    ensures |Sent(names, values)| == Unskipped(names, |values|)
    decreases |values|
  {
    hide Contains;
    if values != [] {
      SentCount(names, values[..|values| - 1]);
    }
  }

  /**
    Value `i`, if its name is not marked, is the message behind those of the earlier names that
    are not marked: its own name, an equals sign, and its own text.
   */
  lemma {:induction false} SentAt(names: seq<string>, values: seq<string>, i: nat)
    requires i < |values| <= |names| && !Contains(names[i], "_skip")
    ensures |Sent(names, values)| == Unskipped(names, |values|)
    ensures Unskipped(names, i) < |Sent(names, values)|
    ensures Sent(names, values)[Unskipped(names, i)] == names[i] + "=" + values[i]
    decreases |values|
  {
    hide Contains;
    var n := |values| - 1;
    SentCount(names, values[..n]);
    if i < n {
      SentAt(names, values[..n], i);
    }
  }

  /** How many values come before column `c`. */
  function Before(cells: seq<seq<string>>, c: nat): nat
    requires c <= |cells|
  {
    if c == 0 then 0 else Before(cells, c - 1) + |cells[c - 1]|
  }

  lemma {:induction false} FlatCount(cells: seq<seq<string>>, n: nat)
    requires n <= |cells|
    ensures |Flat(cells, n)| == Before(cells, n)
  {
    if n > 0 {
      FlatCount(cells, n - 1);
    }
  }

  /** The values of a row are numbered column by column. */
  lemma {:induction false} FlatAt(cells: seq<seq<string>>, n: nat, c: nat, j: nat)
    requires c < n <= |cells| && j < |cells[c]|
    ensures Before(cells, c) + j < |Flat(cells, n)| && Flat(cells, n)[Before(cells, c) + j] == cells[c][j]
  {
    FlatCount(cells, n - 1);
    if c < n - 1 {
      FlatAt(cells, n - 1, c, j);
    }
  }

  /** The number of value `j` of column `c`, which is the number of its name. */
  function Number(t: TableDef, cells: seq<seq<string>>, pad: char, c: nat, j: nat): (i: nat)
    requires RowPrints(t, cells, pad) && c < |cells| && j < |cells[c]|
    ensures i < |t.valNames| && Before(cells, |cells|) <= |t.valNames|
  {
    FlatCount(cells, |cells|);
    FlatAt(cells, |cells|, c, j);
    Before(cells, c) + j
  }

  /** Value `j` of column `c` of a printed row is the message of its name, unless that is marked, whatever the buffers hold. */
  lemma {:induction false} RowSends(t: TableDef, cells: seq<seq<string>>, pad: char, slots: seq<string>, c: nat, j: nat)
    requires RowPrints(t, cells, pad) && |slots| == MAX_COLS && c < |cells| && j < |cells[c]|
    requires !Contains(t.valNames[Number(t, cells, pad, c, j)], "_skip")
    ensures RowFits(t, slots, RowText(t, cells, pad))
    ensures var sent, i := RowMessages(t, slots, RowText(t, cells, pad)), Number(t, cells, pad, c, j);
      && |sent| == Unskipped(t.valNames, Before(cells, |cells|)) && Unskipped(t.valNames, i) < |sent|
      && sent[Unskipped(t.valNames, i)] == t.valNames[i] + "=" + cells[c][j]
  {
    hide RowMessages, RowText, Sent, Contains;
    RowBack(t, cells, pad, slots);
    FlatCount(cells, |cells|);
    FlatAt(cells, |cells|, c, j);
    SentAt(t.valNames, Flat(cells, |cells|), Number(t, cells, pad, c, j));
  }

  /** A column with the value separator in it gives its tokens, any other gives nothing. */
  lemma {:induction false} ColumnGives(gaps: seq<string>, toks: seq<string>, valSep: string)
    requires Separated(gaps, toks, Chars(valSep))
    ensures ColumnValues(Weave(gaps, toks), valSep) == if Contains(Weave(gaps, toks), valSep) then toks else []
  {
    hide Contains, Weave, Separated, Chars;
    TokensOfWeave(gaps, toks, Chars(valSep));
  }
}
