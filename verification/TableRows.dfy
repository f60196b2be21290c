/**
  Splitting one table row of a results file (`src/stdout_parser.c`, lines 400-448):
  the line into columns, each column into values, each value sent under its name.
  The C code works in place, with two rounds of `strtok`, and keeps its column
  buffers from one row to the next; so do the methods here.
 */
module TableRows {
  import opened CStrings
  import opened Tables

  /** What `sendResult` hands to the transport. */
  function Message(key: string, val: string): string {
    key + "=" + val
  }

  function DropLast(s: string): string {
    if s == "" then "" else s[..|s| - 1]
  }

  /** The column buffers once the first `n` columns of a line are copied over what earlier rows left there. */
  function Overlay(slots: seq<string>, toks: seq<string>, n: nat): (r: seq<string>)
    requires n <= |toks|
    ensures |r| == |slots|
  {
    seq(|slots|, i requires 0 <= i < |slots| => if i < n then DropLast(toks[i]) else slots[i])
  }

  /** A column counts only if the whole value separator occurs in it; its characters then split it. */
  function ColumnValues(slot: string, valSep: string): seq<string> {
    if Contains(slot, valSep) then Tokens(slot, Chars(valSep)) else []
  }

  function RowValues(slots: seq<string>, n: nat, valSep: string): seq<string>
    requires n <= |slots|
  {
    if n == 0 then [] else RowValues(slots, n - 1, valSep) + ColumnValues(slots[n - 1], valSep)
  }

  predicate Skipped(name: string) {
    Contains(name, "_skip")
  }

  /** One message per value and name, in order, but for the names marked to be skipped. */
  function Sent(names: seq<string>, values: seq<string>): seq<string>
    requires |values| <= |names|
  {
    if values == [] then [] else
      var n := |values| - 1;
      Sent(names, values[..n]) + if Skipped(names[n]) then [] else [Message(names[n], values[n])]
  }

  /** What `strtok` leaves of a column: its text up to the end of the first value. */
  function Worn(slot: string, valSep: string): string {
    if !Contains(slot, valSep) then slot else
      var d := Chars(valSep);
      slot[..Span(slot, Span(slot, 0, d, true), d, false)]
  }

  function WornSlots(slots: seq<string>, n: nat, valSep: string): (r: seq<string>)
    ensures |r| == |slots|
  {
    seq(|slots|, i requires 0 <= i < |slots| => if i < n then Worn(slots[i], valSep) else slots[i])
  }

  /** How many columns the loop of line 423 goes over. */
  function ReadCols(t: TableDef): nat {
    if t.cols < 0 then 0 else t.cols
  }

  function RowColumns(t: TableDef, slots: seq<string>, line: string): (r: seq<string>)
    ensures |r| == |slots|
  {
    Overlay(slots, Tokens(line, Chars(t.sep)), |Tokens(line, Chars(t.sep))|)
  }

  /** The row stays inside the fixed C arrays. */
  predicate RowFits(t: TableDef, slots: seq<string>, line: string) {
    && |line| < LINE_LEN && NUL !in line
    && |Tokens(line, Chars(t.sep))| <= MAX_COLS && t.cols <= |slots|
    && |RowValues(RowColumns(t, slots, line), ReadCols(t), t.valSep)| <= |t.valNames|
  }

  function RowMessages(t: TableDef, slots: seq<string>, line: string): seq<string>
    requires RowFits(t, slots, line)
  {
    Sent(t.valNames, RowValues(RowColumns(t, slots, line), ReadCols(t), t.valSep))
  }

  function RowSlots(t: TableDef, slots: seq<string>, line: string): (r: seq<string>)
    ensures |r| == |slots|
  {
    WornSlots(RowColumns(t, slots, line), ReadCols(t), t.valSep)
  }

  /** Where column `i` starts in the buffer `char columns[MAX_COLS][LINE_LEN]`. */
  function Slot(i: nat): nat {
    512 * i
  }

  ghost predicate SlotsAt(b: seq<char>, slots: seq<string>) {
    && |b| == MAX_COLS * LINE_LEN && |slots| == MAX_COLS
    && forall i | 0 <= i < MAX_COLS :: |slots[i]| < LINE_LEN && StringAt(b, Slot(i), slots[i])
  }

  /** `c` is `b` but for changes inside slot `i`. */
  ghost predicate SameOutside(b: seq<char>, c: seq<char>, i: nat) {
    |c| == |b| && forall j | 0 <= j < |b| && !(Slot(i) <= j < Slot(i + 1)) :: c[j] == b[j]
  }

  lemma StringAtFrame(b: seq<char>, c: seq<char>, at: nat, s: string)
    requires StringAt(b, at, s) && |c| == |b|
    requires forall j | at <= j <= at + |s| :: c[j] == b[j]
    ensures StringAt(c, at, s)
  {
  }

  /** Changing the buffer inside one slot changes that slot only. */
  lemma SlotsAtUpdate(b: seq<char>, slots: seq<string>, c: seq<char>, i: nat, s: string)
    requires SlotsAt(b, slots) && i < MAX_COLS && SameOutside(b, c, i)
    requires |s| < LINE_LEN && StringAt(c, Slot(i), s)
    ensures SlotsAt(c, slots[i := s])
  {
    forall k | 0 <= k < MAX_COLS && k != i
      ensures StringAt(c, Slot(k), slots[k])
    {
      StringAtFrame(b, c, Slot(k), slots[k]);
    }
  }

  /** Ending the string of slot `i` once more, not before its character `end`. */
  lemma CutLater(b: seq<char>, c: seq<char>, i: nat, s: string, end: nat, p: nat)
    requires |b| == MAX_COLS * LINE_LEN && i < MAX_COLS && SameOutside(b, c, i)
    requires end <= p <= |s| < LINE_LEN && StringAt(c, Slot(i), s[..end])
    ensures SameOutside(b, c[Slot(i) + p := NUL], i)
    ensures StringAt(c[Slot(i) + p := NUL], Slot(i), s[..end])
  {
  }

  /**
    Column `i` of buffer `c`, which held `s`, is being split: the other columns of `b` are
    as they were, its first value ends at `end`, and `strtok` returned `tok` and saved `save`.
   */
  ghost predicate Splitting(b: seq<char>, c: seq<char>, i: nat, s: string, end: nat,
                            from: nat, d: set<char>, tok: Pointer, save: nat)
  {
    && i < MAX_COLS && |b| == MAX_COLS * LINE_LEN && |s| < LINE_LEN
    && SameOutside(b, c, i)
    && Cursor(c, Slot(i), s, from, d, tok, save)
    && end <= save && end <= |s| && StringAt(c, Slot(i), s[..end])
  }

  lemma OverlayNone(slots: seq<string>, toks: seq<string>)
    ensures Overlay(slots, toks, 0) == slots
  {
  }

  lemma OverlayStep(slots: seq<string>, toks: seq<string>, i: nat)
    requires i < |toks| && i < |slots|
    ensures Overlay(slots, toks, i)[i := DropLast(toks[i])] == Overlay(slots, toks, i + 1)
  {
  }

  lemma Shift(done: seq<string>, left: seq<string>)
    requires left != []
    ensures (done + [left[0]]) + left[1..] == done + left
  {
  }

  lemma WornNone(slots: seq<string>, valSep: string)
    ensures WornSlots(slots, 0, valSep) == slots
  {
  }

  lemma WornStep(slots: seq<string>, i: nat, valSep: string)
    requires i < |slots|
    ensures WornSlots(slots, i, valSep)[i] == slots[i]
    ensures WornSlots(slots, i, valSep)[i := Worn(slots[i], valSep)] == WornSlots(slots, i + 1, valSep)
    ensures Worn(slots[i], valSep) == slots[i] ==> WornSlots(slots, i, valSep) == WornSlots(slots, i + 1, valSep)
  {
  }

  lemma {:induction false} RowValuesGrow(slots: seq<string>, i: nat, n: nat, valSep: string)
    requires i <= n <= |slots|
    ensures |RowValues(slots, i, valSep)| <= |RowValues(slots, n, valSep)|
    decreases n - i
  {
    hide Tokens;
    if i < n {
      RowValuesGrow(slots, i, n - 1, valSep);
    }
  }

  class RowSender {
    const columns: array<char>
    var sent: seq<string>

    constructor ()
      ensures fresh(columns) && columns.Length == MAX_COLS * LINE_LEN && sent == []
      ensures SlotsAt(columns[..], seq(MAX_COLS, _ => ""))
    {
      columns := new char[MAX_COLS * LINE_LEN](_ => NUL);
      sent := [];
    }

    /** `columns[i] = token` without its last character (lines 415-416). */
    method CopyColumn(i: nat, line: array<char>, tok: nat, ghost t: string, ghost slots: seq<string>)
      requires SlotsAt(columns[..], slots) && line != columns
      requires i < MAX_COLS && t != "" && |t| < LINE_LEN && StringAt(line[..], tok, t)
      modifies columns
      ensures SlotsAt(columns[..], slots[i := DropLast(t)])
    {
      ghost var before := columns[..];
      Strcpy(columns, Slot(i), line, tok, t);
      var n := Strlen(line, tok, t);
      columns[Slot(i) + n - 1] := NUL;
      StringAtSlice(columns[..], Slot(i), t, 0, n - 1);
      SlotsAtUpdate(before, slots, columns[..], i, DropLast(t));
    }

    /** Lines 409-419: the columns of `line`, which holds the text `s`, go to the column buffers. */
    method SplitColumns(line: array<char>, sep: string, ghost s: string, ghost slots: seq<string>)
      requires SlotsAt(columns[..], slots) && line != columns
      requires StringAt(line[..], 0, s) && |s| < LINE_LEN
      requires |Tokens(s, Chars(sep))| <= MAX_COLS
      modifies columns, line
      ensures SlotsAt(columns[..], Overlay(slots, Tokens(s, Chars(sep)), |Tokens(s, Chars(sep))|))
    {
      ghost var d, all := Chars(sep), Tokens(s, Chars(sep));
      ghost var from: nat, left := 0, all;
      var tok, save := Strtok(line, 0, 0, sep, s);
      CursorToken(line[..], 0, s, 0, d, tok, save, left);
      OverlayNone(slots, all);
      var i := 0;
      while tok != -1
        invariant 0 <= i <= |all| && left == all[i..] && (tok == -1 <==> left == [])
        invariant Cursor(line[..], 0, s, from, d, tok, save) && left == TokensFrom(s, from, d)
        invariant SlotsAt(columns[..], Overlay(slots, all, i))
        decreases |all| - i
      {
        CursorToken(line[..], 0, s, from, d, tok, save, left);
        OverlayStep(slots, all, i);
        CopyColumn(i, line, tok, left[0], Overlay(slots, all, i));
        i, from, left := i + 1, save, left[1..];
        tok, save := Strtok(line, 0, save, sep, s);
        CursorToken(line[..], 0, s, from, d, tok, save, left);
      }
    }

    /** Lines 433-446: the name for the next value is skipped, or the value is sent under it. */
    method SendValue(tok: nat, ghost v: string, names: seq<string>, found: nat, ghost values: seq<string>, ghost before: seq<string>)
      requires StringAt(columns[..], tok, v)
      requires found == |values| < |names| && sent == before + Sent(names, values)
      modifies `sent
      ensures sent == before + Sent(names, values + [v])
    {
      assert (values + [v])[..found] == values;
      if !Skipped(names[found]) {
        var n := Strlen(columns, tok, v);
        assert columns[tok..tok + n] == v;
        sent := sent + [Message(names[found], columns[tok..tok + n])];
      }
    }

    /** Lines 431: the first call of `strtok` on column `i`. */
    method FirstValue(i: nat, valSep: string, ghost s: string) returns (tok: Pointer, save: nat)
      requires columns.Length == MAX_COLS * LINE_LEN && i < MAX_COLS
      requires |s| < LINE_LEN && StringAt(columns[..], Slot(i), s)
      modifies columns
      ensures Splitting(old(columns[..]), columns[..], i, s, TokenEnd(s, 0, Chars(valSep)), 0, Chars(valSep), tok, save)
    {
      tok, save := Strtok(columns, Slot(i), 0, valSep, s);
      StringAtSlice(columns[..], Slot(i), s, 0, TokenEnd(s, 0, Chars(valSep)));
    }

    /** Lines 439 and 446: the next call of `strtok` on column `i`. */
    method NextValue(i: nat, valSep: string, save: nat, ghost b: seq<char>, ghost s: string, ghost end: nat, ghost from: nat, ghost tok: Pointer)
      returns (tok': Pointer, save': nat)
      requires Splitting(b, columns[..], i, s, end, from, Chars(valSep), tok, save)
      modifies columns
      ensures Splitting(b, columns[..], i, s, end, save, Chars(valSep), tok', save')
    {
      ghost var c := columns[..];
      CutLater(b, c, i, s, end, TokenEnd(s, save, Chars(valSep)));
      tok', save' := Strtok(columns, Slot(i), save, valSep, s);
      assert columns[..] == c[Slot(i) + TokenEnd(s, save, Chars(valSep)) := NUL];
    }

    /** Lines 430-447: split column `i`, which holds `s`, and send its values; `found` is `val_found`. */
    method SendColumn(i: nat, valSep: string, names: seq<string>, found: nat,
                      ghost s: string, ghost slots: seq<string>, ghost values: seq<string>, ghost before: seq<string>)
      returns (found': nat)
      requires SlotsAt(columns[..], slots) && i < MAX_COLS && slots[i] == s && Contains(s, valSep)
      requires found == |values| && found + |Tokens(s, Chars(valSep))| <= |names|
      requires sent == before + Sent(names, values)
      modifies columns, `sent
      ensures SlotsAt(columns[..], slots[i := Worn(s, valSep)])
      ensures found' == found + |Tokens(s, Chars(valSep))|
      ensures sent == before + Sent(names, values + Tokens(s, Chars(valSep)))
    {
      ghost var d, all := Chars(valSep), Tokens(s, Chars(valSep));
      ghost var from: nat, done, left := 0, values, all;
      ghost var b, end := columns[..], TokenEnd(s, 0, d);
      var tok, save := FirstValue(i, valSep, s);
      CursorToken(columns[..], Slot(i), s, from, d, tok, save, left);
      found' := found;
      while tok != -1
        invariant Splitting(b, columns[..], i, s, end, from, d, tok, save)
        invariant left == TokensFrom(s, from, d) && (tok == -1 <==> left == [])
        invariant done + left == values + all && found' == |done|
        invariant sent == before + Sent(names, done)
        decreases |left|
      {
        CursorToken(columns[..], Slot(i), s, from, d, tok, save, left);
        SendValue(tok, left[0], names, found', done, before);
        Shift(done, left);
        found' := found' + 1;
        ghost var last, tok' := from, tok;
        from, done, left := save, done + [left[0]], left[1..];
        tok, save := NextValue(i, valSep, save, b, s, end, last, tok');
        CursorToken(columns[..], Slot(i), s, from, d, tok, save, left);
      }
      assert done == values + all;
      SlotsAtUpdate(b, slots, columns[..], i, s[..end]);
    }

    /** The body of the loop of lines 423-448, for column `i`. */
    method ReadColumn(i: nat, valSep: string, names: seq<string>, found: nat,
                      ghost s: string, ghost slots: seq<string>, ghost values: seq<string>, ghost before: seq<string>)
      returns (found': nat)
      requires SlotsAt(columns[..], slots) && i < MAX_COLS && slots[i] == s
      requires found == |values| && found + |ColumnValues(s, valSep)| <= |names|
      requires sent == before + Sent(names, values)
      modifies columns, `sent
      ensures SlotsAt(columns[..], slots[i := Worn(s, valSep)])
      ensures found' == found + |ColumnValues(s, valSep)|
      ensures sent == before + Sent(names, values + ColumnValues(s, valSep))
    {
      var at := Slot(i);
      var len := Strlen(columns, at, s);
      assert columns[at..at + len] == s;
      if Contains(columns[at..at + len], valSep) {
        found' := SendColumn(i, valSep, names, found, s, slots, values, before);
      } else {
        found' := found;
        assert slots[i := s] == slots && values + [] == values;
      }
    }

    /** Lines 421-448: the values of the columns of a row. */
    method SendValues(valSep: string, cols: int, names: seq<string>,
                      ghost n: nat, ghost slots: seq<string>, ghost before: seq<string>)
      requires n == (if cols < 0 then 0 else cols) <= MAX_COLS
      requires SlotsAt(columns[..], slots)
      requires |RowValues(slots, n, valSep)| <= |names| && sent == before
      modifies columns, `sent
      ensures SlotsAt(columns[..], WornSlots(slots, n, valSep))
      ensures sent == before + Sent(names, RowValues(slots, n, valSep))
    {
      WornNone(slots, valSep);
      var i, found: nat := 0, 0;
      while i < cols
        invariant 0 <= i <= n
        invariant SlotsAt(columns[..], WornSlots(slots, i, valSep))
        invariant found == |RowValues(slots, i, valSep)| <= |names|
        invariant sent == before + Sent(names, RowValues(slots, i, valSep))
      {
        RowValuesGrow(slots, i + 1, n, valSep);
        WornStep(slots, i, valSep);
        found := ReadColumn(i, valSep, names, found, slots[i], WornSlots(slots, i, valSep), RowValues(slots, i, valSep), before);
        i := i + 1;
      }
      assert i == n;
    }

    /** Lines 409-448: one table row, in the line buffer `line`, of the table described by `t`. */
    method SendRow(line: array<char>, t: TableDef, ghost text: string, ghost slots: seq<string>, ghost before: seq<string>)
      requires SlotsAt(columns[..], slots) && line != columns && StringAt(line[..], 0, text)
      requires RowFits(t, slots, text) && sent == before
      modifies columns, line, `sent
      ensures SlotsAt(columns[..], RowSlots(t, slots, text))
      ensures sent == before + RowMessages(t, slots, text)
    {
      SplitColumns(line, t.sep, text, slots);
      SendValues(t.valSep, t.cols, t.valNames, ReadCols(t), RowColumns(t, slots, text), before);
    }
  }
}
