/**
  The loop over the lines of a results file (`parseResults` of `src/stdout_parser.c`,
  lines 352-514), proved against the function of module ResultsScan. The local
  variables of the C function that live from line to line are fields here.
 */
module ResultsParser {
  import opened CStrings
  import opened Tables
  import opened TableRows
  import opened KeyMatches
  import opened ResultsScan

  class Parser {
    const sender: RowSender
    const line: array<char>
    const tables: seq<Table>
    const exec: Matcher
    var inTable: bool
    var table: int  // index of the current table, -1 for the null pointer

    ghost const defs: seq<TableDef>
    ghost var scan: Scan

    /** The objects are the tables of the template. */
    ghost predicate HoldsDefs()
      reads tables
    {
      && |defs| == |tables|
      && (forall i, j | 0 <= i < j < |tables| :: tables[i] != tables[j])
      && forall i | 0 <= i < |tables| :: tables[i].Valid() && tables[i].Def() == defs[i]
    }

    /** The objects and buffers hold the abstract state `scan`. */
    ghost predicate Valid()
      reads this, tables, sender, sender.columns
    {
      && line != sender.columns && line.Length == LINE_LEN
      && HoldsDefs() && Inv(defs, scan)
      && (forall i | 0 <= i < |tables| :: tables[i].headersFound == scan.found[i])
      && scan.inTable == inTable && scan.cur == table
      && SlotsAt(sender.columns[..], scan.slots)
    }

    constructor (tables: seq<Table>, exec: Matcher, ghost defs: seq<TableDef>)
      requires |defs| == |tables| && WellFormed(defs)
      requires forall i, j | 0 <= i < j < |tables| :: tables[i] != tables[j]
      requires forall i | 0 <= i < |tables| ::
                 tables[i].Valid() && tables[i].Def() == defs[i] && tables[i].headersFound == 0
      ensures Valid() && fresh(sender) && fresh(sender.columns) && fresh(line)
      ensures this.tables == tables && this.exec == exec && this.defs == defs
      ensures scan == Start(defs, scan.slots) && sender.sent == []
    {
      this.tables, this.exec, this.defs := tables, exec, defs;
      inTable, table := false, -1;
      sender := new RowSender();
      line := new char[LINE_LEN];
      scan := Start(defs, seq(MAX_COLS, _ => ""));
    }

    /** The header table `i` waits for. */
    method NextHeader(i: nat) returns (header: string)
      requires HoldsDefs() && i < |tables| && tables[i].headersFound < |defs[i].headers|
      ensures header == defs[i].headers[tables[i].headersFound]
    {
      var t := tables[i];
      assert t.Def() == defs[i];
      header := t.headerNames[t.headersFound];
    }

    method Advance(t: Table)
      requires HoldsDefs() && t in tables
      modifies t`headersFound
      ensures HoldsDefs() && t.headersFound == old(t.headersFound) + 1
    {
      t.headersFound := t.headersFound + 1;
    }

    /** Lines 364-376: compare the line with the next header of each table. */
    method MatchHeaders(text: string)
      requires Valid() && !inTable
      modifies tables`headersFound, `table, `scan
      ensures scan == old(scan).(found := FoundAfter(defs, old(scan), text), cur := LookedAt(defs, old(scan), text))
      ensures table == scan.cur && HoldsDefs()
      ensures forall i | 0 <= i < |tables| :: tables[i].headersFound == scan.found[i]
    {
      hide Contains, Step, KindOf, Claim, Output, SlotsAt;
      ghost var found := scan.found;
      var i := 0;
      while i < |tables| && (table == -1 || !inTable)
        invariant 0 <= i <= |tables| && scan == old(scan) && HoldsDefs()
        invariant forall j | 0 <= j < i :: !Wanted(defs[j], found[j], text)
        invariant forall j | 0 <= j < |tables| :: tables[j].headersFound == found[j]
        invariant table == if i == 0 then old(table) else i - 1
      {
        table := i;
        var header := NextHeader(i);
        if Contains(text, header) {
          Advance(tables[i]);
          break;
        }
        i := i + 1;
      }
      ClaimIs(defs, found, text, 0, i);
      scan := scan.(found := if i < |tables| then found[i := found[i] + 1] else found, cur := table);
    }

    /** `fgets`: the text of the line, and a terminating NUL, in the line buffer. */
    method Fill(text: string)
      requires |text| < line.Length && NUL !in text
      modifies line
      ensures StringAt(line[..], 0, text)
    {
      forall i | 0 <= i < |text| {
        line[i] := text[i];
      }
      line[|text|] := NUL;
    }

    /** Lines 398-449, when the line holds the column separator: one row of the current table. */
    method ReadRow(text: string, ghost before: seq<string>)
      requires Valid() && LineFits(defs, exec, scan, text) && KindOf(defs, scan, text).Row?
      requires sender.sent == before
      modifies sender`sent, sender.columns, line, `scan
      ensures Valid() && scan == Step(defs, old(scan), text)
      ensures sender.sent == before + Output(defs, exec, old(scan), text)
    {
      hide Contains, Claim, KeyMessages;
      Fill(text);
      sender.SendRow(line, tables[table].Def(), text, scan.slots, before);
      scan := Step(defs, scan, text);
    }

    /** Lines 402-407: the first line behind a table. */
    method LeaveTable(text: string)
      requires Valid() && KindOf(defs, scan, text).TableEnd?
      modifies this, tables`headersFound
      ensures Valid() && scan == Step(defs, old(scan), text)
    {
      hide Contains, Claim, Output;
      inTable := false;
      tables[table].headersFound := 0;
      scan := Step(defs, scan, text);
      table := -1;
    }

    /** Lines 378-387: a table that has none of its headers is dropped, one that has all is entered. */
    method EnterTable()
      requires -1 <= table < |tables| && !inTable
      modifies `table, `inTable
      ensures table == if old(table) == -1 || tables[old(table)].headersFound == 0 then -1 else old(table)
      ensures inTable <==> table != -1 && tables[table].headersFound == tables[table].numHeaders
    {
      if table != -1 && tables[table].headersFound == 0 {
        table := -1;
      }
      if table != -1 && tables[table].headersFound == tables[table].numHeaders {
        inTable := true;
      }
    }

    /** Lines 366-393: outside a table, look for headers; `done` if the line goes no further. */
    method LookForTable(text: string) returns (done: bool)
      requires Valid() && !inTable
      modifies this, tables`headersFound
      ensures Valid() && scan == Step(defs, old(scan), text)
      ensures done <==> !KindOf(defs, old(scan), text).Keys?
    {
      hide Step, KindOf, Contains;
      StepOutside(defs, scan, text);
      ghost var next := Step(defs, scan, text);
      MatchHeaders(text);
      EnterTable();
      done := table != -1;
      scan := next;
    }

    /** The body of the loop over the lines, once the end of line is cut off. */
    method ParseLine(text: string, ghost before: seq<string>)
      requires Valid() && LineFits(defs, exec, scan, text) && sender.sent == before
      modifies this, tables`headersFound, sender`sent, sender.columns, line
      ensures Valid() && scan == Step(defs, old(scan), text)
      ensures sender.sent == before + Output(defs, exec, old(scan), text)
    {
      hide Contains, RowMessages, RowSlots, RowFits, Claim, KeyMessages;
      if !inTable {
        var done := LookForTable(text);
        if done {
          return;
        }
      } else {
        if Contains(text, tables[table].sep) {
          ReadRow(text, before);
          return;
        }
        LeaveTable(text);
      }
      SendKeys(sender, text, exec(text), before);
    }

    /** The loop over the lines. */
    method ParseLines(lines: seq<string>, ghost start: Scan, ghost before: seq<string>)
      requires Valid() && scan == start && sender.sent == before
      requires LinesFit(defs, exec, start, lines)
      modifies this, tables`headersFound, sender`sent, sender.columns, line
      ensures Valid() && scan == After(defs, start, lines, |lines|)
      ensures sender.sent == before + Trace(defs, exec, start, lines, |lines|)
    {
      for i := 0 to |lines|
        invariant Valid() && scan == After(defs, start, lines, i)
        invariant sender.sent == before + Trace(defs, exec, start, lines, i)
      {
        TraceStep(defs, exec, start, lines, i, before);
        ParseLine(lines[i], before + Trace(defs, exec, start, lines, i));
      }
    }
  }

  lemma {:induction false} ClaimIs(ts: seq<TableDef>, found: seq<nat>, line: string, i: nat, k: nat)
    requires |found| == |ts| && i <= k <= |ts|
    requires k < |ts| ==> Wanted(ts[k], found[k], line)
    requires forall j | i <= j < k :: !Wanted(ts[j], found[j], line)
    ensures Claim(ts, found, line, i) == k
  {
    var c := Claim(ts, found, line, i);
    assert !(c < k);
  }
}
