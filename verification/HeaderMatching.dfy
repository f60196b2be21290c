/**
  The header counters are the best possible ones: matching headers greedily, line by line,
  finds as many of them, in order, as any choice of lines could (`src/stdout_parser.c`,
  lines 366-387 and 402-406).
 */
module HeaderMatching {
  import opened CStrings
  import opened Tables
  import opened ResultsScan

  // -- Reference definition: headers found in order in some of the lines

  /** Line `idx[m]` holds header `m`, and the lines come in order. */
  ghost predicate IsEmbedding(headers: seq<string>, lines: seq<string>, idx: seq<nat>) {
    && |idx| == |headers|
    && (forall m | 0 <= m < |idx| :: idx[m] < |lines| && Contains(lines[idx[m]], headers[m]))
    && (forall m, n | 0 <= m < n < |idx| :: idx[m] < idx[n])
  }

  ghost predicate Embeds(headers: seq<string>, lines: seq<string>) {
    exists idx: seq<nat> :: IsEmbedding(headers, lines, idx)
  }

  /** `k` is the largest number of headers that embed, in order, in the lines. */
  ghost predicate IsLongest(headers: seq<string>, lines: seq<string>, k: nat) {
    && k <= |headers| && Embeds(headers[..k], lines)
    && forall n | 0 <= n <= |headers| && Embeds(headers[..n], lines) :: n <= k
  }

  // -- One table

  lemma EmbedsMore(headers: seq<string>, lines: seq<string>, line: string)
    requires Embeds(headers, lines)
    ensures Embeds(headers, lines + [line])
  {
    var idx: seq<nat> :| IsEmbedding(headers, lines, idx);
    assert IsEmbedding(headers, lines + [line], idx);
  }

  lemma EmbedsNext(headers: seq<string>, lines: seq<string>, line: string, k: nat)
    requires k < |headers| && Embeds(headers[..k], lines) && Contains(line, headers[k])
    ensures Embeds(headers[..k + 1], lines + [line])
  {
    var idx: seq<nat> :| IsEmbedding(headers[..k], lines, idx);
    var idx' := idx + [|lines|];
    var hs, ls := headers[..k + 1], lines + [line];
    forall m | 0 <= m < |idx'| ensures idx'[m] < |ls| && Contains(ls[idx'[m]], hs[m]) {
      assert m < k ==> hs[m] == headers[..k][m];
    }
    assert IsEmbedding(hs, ls, idx');
  }

  /** An embedding in one more line uses that line for its last header, or not at all. */
  lemma EmbedsLess(headers: seq<string>, lines: seq<string>, line: string, n: nat)
    requires n <= |headers| && Embeds(headers[..n], lines + [line])
    ensures Embeds(headers[..n], lines)
         || (n > 0 && Embeds(headers[..n - 1], lines) && Contains(line, headers[n - 1]))
  {
    var hs, ls := headers[..n], lines + [line];
    var idx: seq<nat> :| IsEmbedding(hs, ls, idx);
    if n == 0 || idx[n - 1] < |lines| {
      forall m | 0 <= m < n ensures idx[m] < |lines| && Contains(lines[idx[m]], hs[m]) {
        assert m < n - 1 ==> idx[m] < idx[n - 1];
      }
      assert IsEmbedding(hs, lines, idx);
    } else {
      var idx' := idx[..n - 1];
      forall m | 0 <= m < n - 1 ensures idx'[m] < |lines| && Contains(lines[idx'[m]], headers[..n - 1][m]) {
        assert idx[m] < idx[n - 1] && headers[..n - 1][m] == hs[m];
      }
      assert IsEmbedding(headers[..n - 1], lines, idx');
    }
  }

  lemma EmbedsSomewhere(headers: seq<string>, lines: seq<string>)
    requires Embeds(headers, lines)
    ensures headers != [] ==> lines != []
  {
    var idx: seq<nat> :| IsEmbedding(headers, lines, idx);
    if headers != [] {
      assert idx[0] < |lines|;
    }
  }

  lemma LongestStart(headers: seq<string>)
    ensures IsLongest(headers, [], 0)
  {
    assert IsEmbedding(headers[..0], [], []);
    forall n | 0 <= n <= |headers| && Embeds(headers[..n], []) ensures n <= 0 {
      EmbedsSomewhere(headers[..n], []);
    }
  }

  /** Taking the next header whenever a line holds it keeps the count the largest possible. */
  lemma LongestStep(headers: seq<string>, lines: seq<string>, line: string, k: nat)
    requires IsLongest(headers, lines, k)
    ensures IsLongest(headers, lines + [line], if k < |headers| && Contains(line, headers[k]) then k + 1 else k)
  {
    var k' := if k < |headers| && Contains(line, headers[k]) then k + 1 else k;
    if k' == k {
      EmbedsMore(headers[..k], lines, line);
    } else {
      EmbedsNext(headers, lines, line, k);
    }
    forall n | 0 <= n <= |headers| && Embeds(headers[..n], lines + [line]) ensures n <= k' {
      EmbedsLess(headers, lines, line, n);
    }
  }

  // -- All tables

  /** Table `i` is compared with the line: no table is being read and none before it takes the line. */
  predicate IsOffered(ts: seq<TableDef>, s: Scan, line: string, i: nat)
    requires Inv(ts, s)
  {
    !s.inTable && i <= Claim(ts, s.found, line, 0)
  }

  function OfferedNext(ts: seq<TableDef>, s: Scan, line: string, i: nat, sofar: seq<string>): seq<string>
    requires Inv(ts, s)
  {
    if IsOffered(ts, s, line, i) then sofar + [line]
    else if KindOf(ts, s, line).TableEnd? && s.cur == i then []
    else sofar
  }

  /** The lines table `i` was compared with since it was last left, among the first `n` lines. */
  function Offered(ts: seq<TableDef>, s: Scan, lines: seq<string>, n: nat, i: nat): seq<string>
    requires Inv(ts, s) && n <= |lines| && i < |ts|
  {
    if n == 0 then [] else
      OfferedNext(ts, After(ts, s, lines, n - 1), lines[n - 1], i, Offered(ts, s, lines, n - 1, i))
  }

  /** What one line does to the counter of table `i`. */
  lemma CounterStep(ts: seq<TableDef>, s: Scan, line: string, i: nat)
    requires Inv(ts, s) && i < |ts|
    ensures Step(ts, s, line).found[i] ==
      if IsOffered(ts, s, line, i) then s.found[i] + (if Wanted(ts[i], s.found[i], line) then 1 else 0)
      else if KindOf(ts, s, line).TableEnd? && s.cur == i then 0
      else s.found[i]
  {
  }

  lemma StaysLongest(ts: seq<TableDef>, s: Scan, line: string, i: nat, sofar: seq<string>)
    requires Inv(ts, s) && i < |ts| && IsLongest(ts[i].headers, sofar, s.found[i])
    ensures IsLongest(ts[i].headers, OfferedNext(ts, s, line, i, sofar), Step(ts, s, line).found[i])
  {
    CounterStep(ts, s, line, i);
    if IsOffered(ts, s, line, i) {
      LongestStep(ts[i].headers, sofar, line, s.found[i]);
    } else if KindOf(ts, s, line).TableEnd? && s.cur == i {
      LongestStart(ts[i].headers);
    }
  }

  /**
    In every reachable state, the counter of every table is the length of the longest run of
    its headers embedded in the lines offered to it.
   */
  lemma {:induction false} CountersAreLongest(ts: seq<TableDef>, s: Scan, lines: seq<string>, n: nat, i: nat)
    requires Inv(ts, s) && s == Start(ts, s.slots) && n <= |lines| && i < |ts|
    ensures IsLongest(ts[i].headers, Offered(ts, s, lines, n, i), After(ts, s, lines, n).found[i])
  {
    hide Step, IsLongest, OfferedNext;
    if n == 0 {
      LongestStart(ts[i].headers);
    } else {
      CountersAreLongest(ts, s, lines, n - 1, i);
      StaysLongest(ts, After(ts, s, lines, n - 1), lines[n - 1], i, Offered(ts, s, lines, n - 1, i));
    }
  }

  /**
    A table is being read exactly when all its headers can be found, in order, in the lines
    offered to it: it is entered at the first line that makes this possible, not later.
   */
  lemma {:induction false} InTableIffHeadersEmbed(ts: seq<TableDef>, s: Scan, lines: seq<string>, n: nat, i: nat)
    requires Inv(ts, s) && s == Start(ts, s.slots) && n <= |lines| && i < |ts|
    ensures var now := After(ts, s, lines, n);
      now.inTable && now.cur == i <==> Embeds(ts[i].headers, Offered(ts, s, lines, n, i))
  {
    CountersAreLongest(ts, s, lines, n, i);
    assert ts[i].headers[..|ts[i].headers|] == ts[i].headers;
  }

  /** With one table, every line outside it is offered to it. */
  lemma OfferedToOnlyTable(t: TableDef, s: Scan, lines: seq<string>, n: nat)
    requires Inv([t], s) && 0 < n <= |lines|
    ensures var pre := After([t], s, lines, n - 1);
      Offered([t], s, lines, n, 0) ==
        if !pre.inTable then Offered([t], s, lines, n - 1, 0) + [lines[n - 1]]
        else if Contains(lines[n - 1], t.sep) then Offered([t], s, lines, n - 1, 0)
        else []
  {
  }
}
