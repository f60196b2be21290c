/**
  Sending the key/value pairs a line matches (`src/stdout_parser.c`, lines 459-513).
  The regular expression engine is a parameter: for each expression, the return value
  of `pcre_exec` and the offsets it stored.
 */
module KeyMatches {
  import opened CStrings
  import opened TableRows

  /** The outcome of one `pcre_exec`: its return value and, for each group, where it starts and ends. */
  datatype Match = Match(ret: int, groups: seq<(int, int)>)

  /** Offsets lie in the line; a group that took no part has offsets -1, -1. */
  predicate MatchFits(line: string, m: Match) {
    && m.ret <= |m.groups|
    && forall j | 0 <= j < m.ret :: m.groups[j] == (-1, -1) || 0 <= m.groups[j].0 <= m.groups[j].1 <= |line|
  }

  /** The text of group `j`, empty for a group that took no part. */
  function Group(line: string, m: Match, j: nat): string
    requires MatchFits(line, m) && j < m.ret
  {
    var (from, to) := m.groups[j];
    if from < 0 then "" else line[from..to]
  }

  /** Groups 1 and 2, 3 and 4, and so on; group 0 and an odd last group are left out. */
  function PairMessages(line: string, m: Match): seq<string>
    requires MatchFits(line, m)
  {
    if m.ret <= 0 then [] else
      seq((m.ret - 1) / 2, i requires 0 <= i < (m.ret - 1) / 2 => Message(Group(line, m, 2 * i + 1), Group(line, m, 2 * i + 2)))
  }

  predicate MatchesFit(line: string, ms: seq<Match>) {
    forall i | 0 <= i < |ms| :: MatchFits(line, ms[i])
  }

  /** The pairs of the first `n` expressions, in the order of the expressions. */
  function KeyMessages(line: string, ms: seq<Match>, n: nat): seq<string>
    requires n <= |ms| && MatchesFit(line, ms)
  {
    if n == 0 then [] else KeyMessages(line, ms, n - 1) + PairMessages(line, ms[n - 1])
  }

  lemma KeyStep(line: string, ms: seq<Match>, i: nat, before: seq<string>)
    requires i < |ms| && MatchesFit(line, ms)
    ensures MatchFits(line, ms[i])
    ensures before + KeyMessages(line, ms, i + 1) == before + KeyMessages(line, ms, i) + PairMessages(line, ms[i])
  {
  }

  /**
    Message `i` of a match has group `2i + 1` as its key and group `2i + 2` as its value, cut out
    of the line by their offsets; a group that took no part is empty.
   */
  lemma PairAt(line: string, m: Match, i: nat)
    requires MatchFits(line, m) && 2 * i + 2 < m.ret
    ensures 2 * |PairMessages(line, m)| <= m.ret - 1 < 2 * |PairMessages(line, m)| + 2 && i < |PairMessages(line, m)|
    ensures var (k, k'), (v, v') := m.groups[2 * i + 1], m.groups[2 * i + 2];
      PairMessages(line, m)[i] == (if k == -1 then "" else line[k..k']) + "=" + (if v == -1 then "" else line[v..v'])
  {
  }

  lemma PairsNone(line: string, m: Match)
    requires MatchFits(line, m) && m.ret <= 2
    ensures PairMessages(line, m) == []
  {
  }

  lemma {:induction false} KeysPrefix(line: string, a: seq<Match>, b: seq<Match>, n: nat)
    requires MatchesFit(line, a) && MatchesFit(line, b) && n <= |a|
    ensures MatchesFit(line, a + b) && KeyMessages(line, a + b, n) == KeyMessages(line, a, n)
  {
    if n > 0 {
      KeysPrefix(line, a, b, n - 1);
    }
  }

  /** More expressions send their pairs behind those of the ones before; a single one sends its own. */
  lemma {:induction false} KeysInOrder(line: string, a: seq<Match>, m: Match)
    requires MatchesFit(line, a) && MatchFits(line, m)
    ensures MatchesFit(line, a + [m])
    ensures KeyMessages(line, a + [m], |a| + 1) == KeyMessages(line, a, |a|) + PairMessages(line, m)
    ensures KeyMessages(line, [], 0) == []
  {
    assert MatchesFit(line, [m]);
    KeysPrefix(line, a, [m], |a|);
  }

  /** The characters `strncpy` copies from `line + offset`; nothing for a length of 0. */
  function Copied(line: string, m: Match, j: nat): (s: string)
    requires MatchFits(line, m) && j < m.ret
    ensures s == Group(line, m, j)
  {
    var length := m.groups[j].1 - m.groups[j].0;
    if length == 0 then "" else line[m.groups[j].0..m.groups[j].0 + length]
  }

  /** Lines 484-512, with the index skipping of the C loop. */
  method SendPairs(sender: RowSender, line: string, m: Match, ghost before: seq<string>)
    requires MatchFits(line, m) && sender.sent == before
    modifies sender`sent
    ensures sender.sent == before + PairMessages(line, m)
  {
    hide Group;
    ghost var pairs, all := 0, PairMessages(line, m);
    var j := 0;
    while j < m.ret
      invariant 0 <= pairs <= |all|
      invariant j == 0 == pairs || j == 2 * pairs + 1 || (j >= m.ret && pairs == |all|)
      invariant sender.sent == before + all[..pairs]
    {
      if j != 0 && j + 1 < m.ret {
        var key := Copied(line, m, j);
        j := j + 1;
        var val := Copied(line, m, j);
        assert Message(key, val) == all[pairs];
        sender.sent := sender.sent + [Message(key, val)];
        pairs := pairs + 1;
      }
      j := j + 1;
    }
  }

  /** Lines 459-513: the matches of all expressions with the line. */
  method SendKeys(sender: RowSender, line: string, ms: seq<Match>, ghost before: seq<string>)
    requires MatchesFit(line, ms) && sender.sent == before
    modifies sender`sent
    ensures sender.sent == before + KeyMessages(line, ms, |ms|)
  {
    for i := 0 to |ms|
      invariant sender.sent == before + KeyMessages(line, ms, i)
    {
      KeyStep(line, ms, i, before);
      SendPairs(sender, line, ms[i], before + KeyMessages(line, ms, i));
    }
  }
}
