/**
  What one pass over a results file does (`src/stdout_parser.c`, lines 352-514), as a
  function of the lines read: the header counters of all tables, whether a table is being
  read and which, the column buffers, and the messages sent.
 */
module ResultsScan {
  import opened CStrings
  import opened Tables
  import opened TableRows
  import opened KeyMatches

  /** The regular expressions: what matching them with a line gives, expression by expression. */
  type Matcher = string -> seq<Match>

  /** `cur` is the index of the current table, -1 for the null pointer. */
  datatype Scan = Scan(found: seq<nat>, inTable: bool, cur: int, slots: seq<string>)

  /** The tables a template can give: 1 to 10 headers, and the fixed array of value names. */
  predicate WellFormed(ts: seq<TableDef>) {
    forall i | 0 <= i < |ts| :: 1 <= |ts[i].headers| <= MAX_HEADERS && |ts[i].valNames| == MAX_VALS
  }

  function Start(ts: seq<TableDef>, slots: seq<string>): Scan {
    Scan(seq(|ts|, _ => 0), false, -1, slots)
  }

  /**
    What holds between any two lines. Outside a table every table still misses a header;
    inside, only the current one has them all, so no index into the headers is out of range.
   */
  ghost predicate Inv(ts: seq<TableDef>, s: Scan) {
    && WellFormed(ts) && |s.found| == |ts| && |s.slots| == MAX_COLS && -1 <= s.cur < |ts|
    && (s.inTable ==> 0 <= s.cur && s.found[s.cur] == |ts[s.cur].headers|)
    && forall i | 0 <= i < |ts| && !(s.inTable && i == s.cur) :: s.found[i] < |ts[i].headers|
  }

  /** The line holds the next header table `t` waits for. */
  predicate Wanted(t: TableDef, found: nat, line: string) {
    found < |t.headers| && Contains(line, t.headers[found])
  }

  /** The first table, from `i` on, that takes the line as its next header; `|ts|` if none does. */
  function Claim(ts: seq<TableDef>, found: seq<nat>, line: string, i: nat): (k: nat)
    requires |found| == |ts| && i <= |ts|
    ensures i <= k <= |ts|
    ensures k < |ts| ==> Wanted(ts[k], found[k], line)
    ensures forall j | i <= j < k :: !Wanted(ts[j], found[j], line)
    decreases |ts| - i
  {
    if i == |ts| || Wanted(ts[i], found[i], line) then i else Claim(ts, found, line, i + 1)
  }

  /** What becomes of a line. */
  datatype Kind =
    | Header(t: nat)      // it is the next header of table `t`
    | Swallowed           // dropped: the last table has some of its headers, but not all
    | Row                 // a row of the current table
    | TableEnd            // the first line behind a table, given to the key matcher
    | Keys                // given to the key matcher

  function KindOf(ts: seq<TableDef>, s: Scan, line: string): Kind
    requires Inv(ts, s)
  {
    if s.inTable then
      if Contains(line, ts[s.cur].sep) then Row else TableEnd
    else
      var k := Claim(ts, s.found, line, 0);
      if k < |ts| then Header(k)
      else if |ts| > 0 && s.found[|ts| - 1] > 0 then Swallowed
      else Keys
  }

  /** The line stays inside the fixed C arrays. */
  ghost predicate LineFits(ts: seq<TableDef>, exec: Matcher, s: Scan, line: string)
    requires Inv(ts, s)
  {
    && |line| < LINE_LEN && NUL !in line && MatchesFit(line, exec(line))
    && (KindOf(ts, s, line).Row? ==> RowFits(ts[s.cur], s.slots, line))
  }

  function Step(ts: seq<TableDef>, s: Scan, line: string): (r: Scan)
    requires Inv(ts, s)
    ensures Inv(ts, r)
  {
    match KindOf(ts, s, line)
    case Header(k) =>
      s.(found := s.found[k := s.found[k] + 1], inTable := s.found[k] + 1 == |ts[k].headers|, cur := k)
    case Swallowed => s.(cur := |ts| - 1)
    case Row => s.(slots := RowSlots(ts[s.cur], s.slots, line))
    case TableEnd => s.(found := s.found[s.cur := 0], inTable := false, cur := -1)
    case Keys => s.(cur := -1)
  }

  function Output(ts: seq<TableDef>, exec: Matcher, s: Scan, line: string): seq<string>
    requires Inv(ts, s) && LineFits(ts, exec, s, line)
  {
    match KindOf(ts, s, line)
    case Header(_) => []
    case Swallowed => []
    case Row => RowMessages(ts[s.cur], s.slots, line)
    case TableEnd => KeyMessages(line, exec(line), |exec(line)|)
    case Keys => KeyMessages(line, exec(line), |exec(line)|)
  }

  /** All pairs the expressions find in a line. */
  function LineKeys(exec: Matcher, line: string): seq<string>
    requires MatchesFit(line, exec(line))
  {
    KeyMessages(line, exec(line), |exec(line)|)
  }

  /**
    What a line sends. Outside a table: nothing if it holds the header some table waits for, or
    if the last table of the template has some of its headers; otherwise all pairs found in it.
    In a table: a row, or without the column separator all pairs found in it.
   */
  lemma LineSent(ts: seq<TableDef>, exec: Matcher, s: Scan, line: string)
    requires Inv(ts, s) && LineFits(ts, exec, s, line)
    ensures !s.inTable && (exists k | 0 <= k < |ts| :: Contains(line, ts[k].headers[s.found[k]])) ==>
      Output(ts, exec, s, line) == []
    ensures !s.inTable && (forall k | 0 <= k < |ts| :: !Contains(line, ts[k].headers[s.found[k]])) ==>
      Output(ts, exec, s, line) == if ts != [] && s.found[|ts| - 1] > 0 then [] else LineKeys(exec, line)
    ensures s.inTable && Contains(line, ts[s.cur].sep) ==> Output(ts, exec, s, line) == RowMessages(ts[s.cur], s.slots, line)
    ensures s.inTable && !Contains(line, ts[s.cur].sep) ==> Output(ts, exec, s, line) == LineKeys(exec, line)
  {
    hide Contains, RowMessages, KeyMessages;
    if !s.inTable {
      var k := Claim(ts, s.found, line, 0);
      assert forall j | 0 <= j < k :: !Wanted(ts[j], s.found[j], line);
    }
  }

  /** The header counters once the loop of lines 366-376 is over. */
  function FoundAfter(ts: seq<TableDef>, s: Scan, line: string): (r: seq<nat>)
    requires |s.found| == |ts|
    ensures |r| == |ts|
  {
    var k := Claim(ts, s.found, line, 0);
    if k < |ts| then s.found[k := s.found[k] + 1] else s.found
  }

  /** The table that loop looked at last. */
  function LookedAt(ts: seq<TableDef>, s: Scan, line: string): (r: int)
    requires |s.found| == |ts|
    ensures -1 <= r < |ts|
  {
    var k := Claim(ts, s.found, line, 0);
    if k < |ts| then k else |ts| - 1
  }

  /** Outside a table, a step is decided by the counter of the table looked at last. */
  lemma StepOutside(ts: seq<TableDef>, s: Scan, line: string)
    requires Inv(ts, s) && !s.inTable
    ensures var found, cur := FoundAfter(ts, s, line), LookedAt(ts, s, line);
      && (KindOf(ts, s, line).Keys? <==> cur == -1 || found[cur] == 0)
      && Step(ts, s, line) ==
           if cur == -1 || found[cur] == 0 then Scan(found, false, -1, s.slots)
           else Scan(found, found[cur] == |ts[cur].headers|, cur, s.slots)
  {
  }

  /** The state behind the first `n` lines. */
  function After(ts: seq<TableDef>, s: Scan, lines: seq<string>, n: nat): (r: Scan)
    requires Inv(ts, s) && n <= |lines|
    ensures Inv(ts, r)
  {
    if n == 0 then s else Step(ts, After(ts, s, lines, n - 1), lines[n - 1])
  }

  ghost predicate LinesFit(ts: seq<TableDef>, exec: Matcher, s: Scan, lines: seq<string>)
    requires Inv(ts, s)
  {
    forall n {:trigger LineFits(ts, exec, After(ts, s, lines, n), lines[n])} | 0 <= n < |lines| ::
      LineFits(ts, exec, After(ts, s, lines, n), lines[n])
  }

  /** The messages sent over the first `n` lines. */
  ghost function Trace(ts: seq<TableDef>, exec: Matcher, s: Scan, lines: seq<string>, n: nat): seq<string>
    requires Inv(ts, s) && n <= |lines| && LinesFit(ts, exec, s, lines)
  {
    if n == 0 then [] else
      Trace(ts, exec, s, lines, n - 1) + Output(ts, exec, After(ts, s, lines, n - 1), lines[n - 1])
  }

  lemma TraceStep(ts: seq<TableDef>, exec: Matcher, s: Scan, lines: seq<string>, i: nat, before: seq<string>)
    requires Inv(ts, s) && i < |lines| && LinesFit(ts, exec, s, lines)
    ensures After(ts, s, lines, i + 1) == Step(ts, After(ts, s, lines, i), lines[i])
    ensures LineFits(ts, exec, After(ts, s, lines, i), lines[i])
    ensures before + Trace(ts, exec, s, lines, i + 1)
         == before + Trace(ts, exec, s, lines, i) + Output(ts, exec, After(ts, s, lines, i), lines[i])
  {
  }
}
