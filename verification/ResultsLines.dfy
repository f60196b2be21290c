/**
  Lines of a results file outside its tables (`src/stdout_parser.c`, lines 455-513): each is
  given to the key matcher, and sends all pairs found in it.
 */
module ResultsLines {
  import opened CStrings
  import opened Tables
  import opened TableRows
  import opened KeyMatches
  import opened ResultsScan
  import opened ResultsDocument

  /** No table starts with the line. */
  predicate Free(ts: seq<TableDef>, line: string)
    requires WellFormed(ts)
  {
    forall j | 0 <= j < |ts| :: !Contains(line, ts[j].headers[0])
  }

  ghost predicate FreeLine(ts: seq<TableDef>, exec: Matcher, line: string)
    requires WellFormed(ts)
  {
    |line| < LINE_LEN && NUL !in line && MatchesFit(line, exec(line)) && Free(ts, line)
  }

  ghost predicate FreeLines(ts: seq<TableDef>, exec: Matcher, lines: seq<string>)
    requires WellFormed(ts)
  {
    forall i | 0 <= i < |lines| :: FreeLine(ts, exec, lines[i])
  }

  /** The pairs found in the first `n` lines, line by line. */
  function AllKeys(exec: Matcher, lines: seq<string>, n: nat): seq<string>
    requires n <= |lines| && forall i | 0 <= i < |lines| :: MatchesFit(lines[i], exec(lines[i]))
  {
    if n == 0 then [] else AllKeys(exec, lines, n - 1) + LineKeys(exec, lines[n - 1])
  }

  lemma FreeStep(ts: seq<TableDef>, exec: Matcher, s: Scan, line: string)
    requires Inv(ts, s) && Idle(s) && FreeLine(ts, exec, line)
    ensures LineFits(ts, exec, s, line) && Output(ts, exec, s, line) == LineKeys(exec, line)
    ensures Idle(Step(ts, s, line)) && Step(ts, s, line).slots == s.slots
  {
    hide Contains, KeyMessages, RowMessages;
    assert KindOf(ts, s, line) == Keys;
  }

  lemma {:induction false} StillIdle(ts: seq<TableDef>, exec: Matcher, s: Scan, lines: seq<string>, n: nat)
    requires Inv(ts, s) && Idle(s) && FreeLines(ts, exec, lines) && n <= |lines|
    ensures Idle(After(ts, s, lines, n)) && After(ts, s, lines, n).slots == s.slots
  {
    hide Step, LineFits, Output, FreeLine;
    if n > 0 {
      StillIdle(ts, exec, s, lines, n - 1);
      FreeStep(ts, exec, After(ts, s, lines, n - 1), lines[n - 1]);
    }
  }

  lemma FreeLinesFit(ts: seq<TableDef>, exec: Matcher, s: Scan, lines: seq<string>)
    requires Inv(ts, s) && Idle(s) && FreeLines(ts, exec, lines)
    ensures LinesFit(ts, exec, s, lines)
  {
    hide Step, LineFits, Output, FreeLine;
    forall n | 0 <= n < |lines| ensures LineFits(ts, exec, After(ts, s, lines, n), lines[n]) {
      StillIdle(ts, exec, s, lines, n);
      FreeStep(ts, exec, After(ts, s, lines, n), lines[n]);
    }
  }

  lemma {:induction false} FreeTrace(ts: seq<TableDef>, exec: Matcher, s: Scan, lines: seq<string>, n: nat)
    requires Inv(ts, s) && Idle(s) && FreeLines(ts, exec, lines) && LinesFit(ts, exec, s, lines) && n <= |lines|
    ensures Trace(ts, exec, s, lines, n) == AllKeys(exec, lines, n)
  {
    hide Step, LineFits, Output, LineKeys, Free;
    if n > 0 {
      FreeTrace(ts, exec, s, lines, n - 1);
      StillIdle(ts, exec, s, lines, n - 1);
      FreeStep(ts, exec, After(ts, s, lines, n - 1), lines[n - 1]);
    }
  }

  /**
    Lines outside tables, none of which starts a table: what is sent is all pairs found in
    them, line by line, the column buffers stay as they are, and a table can follow.
   */
  lemma {:induction false} FreeLinesSent(ts: seq<TableDef>, exec: Matcher, s: Scan, lines: seq<string>)
    requires Inv(ts, s) && Idle(s) && FreeLines(ts, exec, lines)
    ensures LinesFit(ts, exec, s, lines) && Trace(ts, exec, s, lines, |lines|) == AllKeys(exec, lines, |lines|)
    ensures Idle(After(ts, s, lines, |lines|)) && After(ts, s, lines, |lines|).slots == s.slots
  {
    hide LinesFit, FreeLine, Trace, After, AllKeys;
    FreeLinesFit(ts, exec, s, lines);
    FreeTrace(ts, exec, s, lines, |lines|);
    StillIdle(ts, exec, s, lines, |lines|);
  }
}
