/**
  The loop that writes one message to a TLS connection (`daapTCPLogWrite` of
  `src/daap_tcp.c`, lines 114-145). `SSL_write` is a parameter: the list of its results.
  The loop advances in the buffer by the last result, not by the total; the lemmas say
  exactly when that is right.
 */
module WriteLoop {

  /** Bytes sent by the first `k` writes. */
  function Total(counts: seq<nat>, k: nat): nat
    requires k <= |counts|
  {
    if k == 0 then 0 else Total(counts, k - 1) + counts[k - 1]
  }

  /** Where in the buffer write `k` starts: behind the result of the write before, as in line 127. */
  function Offset(counts: seq<nat>, k: nat): nat
    requires k <= |counts|
  {
    if k == 0 then 0 else counts[k - 1]
  }

  /** Each write is given the rest of the buffer from its offset on and takes some of it, or nothing. */
  predicate Possible(n: nat, counts: seq<nat>) {
    forall k | 0 <= k < |counts| :: Offset(counts, k) + counts[k] <= n
  }

  /** The loop was still running at each of the writes. */
  predicate Ran(n: nat, counts: seq<nat>) {
    forall k | 0 <= k < |counts| :: Total(counts, k) != n
  }

  /** What the peer receives from the first `k` writes. */
  function Wire(buf: string, counts: seq<nat>, k: nat): (w: string)
    requires k <= |counts| && Possible(|buf|, counts)
    ensures |w| == Total(counts, k)
  {
    if k == 0 then "" else
      Wire(buf, counts, k - 1) + buf[Offset(counts, k - 1)..Offset(counts, k - 1) + counts[k - 1]]
  }

  /** The offset of a write is the number of bytes sent so far exactly if nothing was sent before the previous write. */
  lemma OffsetIsTotalIff(counts: seq<nat>, k: nat)
    requires k <= |counts|
    ensures Offset(counts, k) == Total(counts, k) <==> k == 0 || Total(counts, k - 1) == 0
  {
  }

  lemma {:induction false} TotalGrows(counts: seq<nat>, j: nat, k: nat)
    requires j <= k <= |counts|
    ensures Total(counts, j) <= Total(counts, k)
  {
    if j < k {
      TotalGrows(counts, j, k - 1);
    }
  }

  /** All writes that send something start where they should. */
  predicate InPlace(counts: seq<nat>) {
    forall k | 0 < k < |counts| && counts[k] > 0 :: Total(counts, k - 1) == 0
  }

  lemma {:induction false} InPlaceSends(buf: string, counts: seq<nat>, k: nat)
    requires Possible(|buf|, counts) && InPlace(counts) && k <= |counts|
    ensures Total(counts, k) <= |buf| && Wire(buf, counts, k) == buf[..Total(counts, k)]
  {
    if k > 0 {
      InPlaceSends(buf, counts, k - 1);
      OffsetIsTotalIff(counts, k - 1);
      if counts[k - 1] == 0 {
        assert buf[Offset(counts, k - 1)..Offset(counts, k - 1) + 0] == "";
      } else {
        Extend(buf, Total(counts, k - 1), counts[k - 1]);
      }
    }
  }

  lemma Extend(buf: string, from: nat, count: nat)
    requires from + count <= |buf|
    ensures buf[..from] + buf[from..from + count] == buf[..from + count]
  {
  }

  lemma WireStep(buf: string, counts: seq<nat>, k: nat)
    requires Possible(|buf|, counts) && k < |counts|
    ensures Offset(counts, k) + counts[k] <= |buf|
    ensures Wire(buf, counts, k + 1) == Wire(buf, counts, k) + buf[Offset(counts, k)..Offset(counts, k) + counts[k]]
    ensures Offset(counts, k + 1) == counts[k] && Total(counts, k + 1) == Total(counts, k) + counts[k]
  {
  }

  /** Two letters that tell byte `at` of a buffer from the bytes before it. */
  function Marked(n: nat, at: nat): string {
    seq(n, i => if i < at then 'a' else 'b')
  }

  lemma {:induction false} WireAt(buf: string, counts: seq<nat>, j: nat, k: nat)
    requires Possible(|buf|, counts) && j < k <= |counts| && counts[j] > 0
    ensures Total(counts, j) < Total(counts, k)
    ensures Wire(buf, counts, k)[Total(counts, j)] == buf[Offset(counts, j)]
  {
    if j < k - 1 {
      WireAt(buf, counts, j, k - 1);
    }
  }

  /**
    A loop that ends by itself has sent every buffer of its length faithfully, if and only
    if no write that sends something comes two or more writes behind another such write.
   */
  lemma {:induction false} FaithfulIffInPlace(n: nat, counts: seq<nat>)
    requires Possible(n, counts) && Total(counts, |counts|) == n
    ensures (forall buf: string | |buf| == n :: Wire(buf, counts, |counts|) == buf) <==> InPlace(counts)
  {
    if InPlace(counts) {
      forall buf: string | |buf| == n ensures Wire(buf, counts, |counts|) == buf {
        InPlaceSends(buf, counts, |counts|);
      }
    } else {
      var k :| 0 < k < |counts| && counts[k] > 0 && Total(counts, k - 1) != 0;
      var at := Total(counts, k);
      var buf := Marked(n, at);
      WireAt(buf, counts, k, |counts|);
      assert Wire(buf, counts, |counts|)[at] == 'a' && buf[at] == 'b';
    }
  }

  /** Such writes are at most two, and directly one behind the other. */
  lemma InPlaceIsTwoWrites(counts: seq<nat>, j: nat, k: nat)
    requires InPlace(counts) && j < k < |counts| && counts[j] > 0 && counts[k] > 0
    ensures k == j + 1
  {
    if j + 1 < k {
      TotalGrows(counts, j + 1, k - 1);
    }
  }

  /** Writes that send something come directly one behind the other. */
  predicate Adjacent(counts: seq<nat>) {
    forall j, k | 0 <= j < k < |counts| && counts[j] > 0 && counts[k] > 0 :: k == j + 1
  }

  lemma {:induction false} NothingSent(counts: seq<nat>, k: nat)
    requires k <= |counts| && forall j | 0 <= j < k :: counts[j] == 0
    ensures Total(counts, k) == 0
  {
    if k > 0 {
      NothingSent(counts, k - 1);
    }
  }

  /** All writes that send something are in place, if and only if they are adjacent: at most two, one behind the other. */
  lemma InPlaceIffAdjacent(counts: seq<nat>)
    ensures InPlace(counts) <==> Adjacent(counts)
    ensures Adjacent(counts) ==> forall i, j, k | 0 <= i < j < k < |counts| :: counts[i] == 0 || counts[j] == 0 || counts[k] == 0
  {
    if InPlace(counts) {
      forall j, k | 0 <= j < k < |counts| && counts[j] > 0 && counts[k] > 0 ensures k == j + 1 {
        InPlaceIsTwoWrites(counts, j, k);
      }
    }
    if Adjacent(counts) {
      forall k | 0 < k < |counts| && counts[k] > 0 ensures Total(counts, k - 1) == 0 {
        NothingSent(counts, k - 1);
      }
    }
  }

  /** A loop can end with the right number of bytes and the wrong ones: 4, 3 and 3 for a message of 10. */
  lemma {:induction false} EndsWithWrongBytes(buf: string)
    requires |buf| == 10 && buf[7] != buf[3]
    ensures Possible(10, [4, 3, 3]) && Ran(10, [4, 3, 3]) && Total([4, 3, 3], 3) == 10
    ensures Wire(buf, [4, 3, 3], 3) != buf
  {
    var c: seq<nat> := [4, 3, 3];
    assert Total(c, 1) == 4 && Total(c, 2) == 7 && Total(c, 3) == 10;
    forall k | 0 <= k < |c| ensures Total(c, k) != 10 {
      assert k == 0 || k == 1 || k == 2;
    }
    WireAt(buf, c, 2, 3);
  }

  /** Once more than the buffer has been sent, the loop cannot end by itself any more. */
  lemma {:induction false} OvershootNeverEnds(n: nat, counts: seq<nat>, j: nat, k: nat)
    requires j <= k <= |counts| && Total(counts, j) > n
    ensures Total(counts, k) != n
  {
    TotalGrows(counts, j, k);
  }

  /** That can happen: 4, 3 and 7 bytes are possible results for a message of 10 bytes. */
  lemma OvershootHappens()
    ensures Possible(10, [4, 3, 7]) && Ran(10, [4, 3, 7]) && Total([4, 3, 7], 3) > 10
  {
    var c: seq<nat> := [4, 3, 7];
    assert Total(c, 1) == 4 && Total(c, 2) == 7 && Total(c, 3) == 14;
    forall k | 0 <= k < |c| ensures Total(c, k) != 10 {
      assert k == 0 || k == 1 || k == 2;
    }
  }

  datatype Outcome =
    | Finished      // as many bytes written as the buffer has
    | Exited        // a result of -1 ends the process
    | Failed        // another negative result ends the loop
    | Unfinished    // the list of results is used up before the loop ends

  /** The results before the first negative one. */
  function Good(results: seq<int>): (g: seq<nat>)
    ensures |g| <= |results| && forall k | 0 <= k < |g| :: g[k] == results[k]
  {
    if results == [] || results[0] < 0 then [] else [results[0]] + Good(results[1..])
  }

  /** How many of the good results are used: those before the total reaches `n`. */
  function Used(n: nat, counts: seq<nat>, k: nat): (u: nat)
    requires k <= |counts|
    ensures k <= u <= |counts|
    ensures u < |counts| ==> Total(counts, u) == n
    ensures forall j | k <= j < u :: Total(counts, j) != n
    decreases |counts| - k
  {
    if k == |counts| || Total(counts, k) == n then k else Used(n, counts, k + 1)
  }

  /** The loop of lines 126-140 over the results of `SSL_write`; `wire` is what the peer receives. */
  method Write(buf: string, results: seq<int>) returns (count: int, outcome: Outcome, wire: string)
    requires Possible(|buf|, Good(results))
    ensures var good := Good(results);
      var u := Used(|buf|, good, 0);
      && wire == Wire(buf, good, u)
      && outcome == (if Total(good, u) == |buf| then Finished
                     else if u == |results| then Unfinished
                     else if results[u] == -1 then Exited else Failed)
      && count == (if outcome == Failed || outcome == Exited then -1 else Offset(good, u))
  {
    hide Good, Wire, Possible;
    ghost var good := Good(results);
    GoodEnds(results);
    count, wire := 0, "";
    var total, k := 0, 0;
    while total != |buf| && k < |results|
      invariant 0 <= k <= |good| && total == Total(good, k) && count == Offset(good, k)
      invariant forall j | 0 <= j < k :: Total(good, j) != |buf|
      invariant wire == Wire(buf, good, k)
      decreases |results| - k
    {
      var result := results[k];
      if result < 0 {
        UsedIs(|buf|, good, 0, k);
        count := -1;
        outcome := if result == -1 then Exited else Failed;
        return;
      }
      WireStep(buf, good, k);
      wire := wire + buf[count..count + result];
      count := result;
      total := total + count;
      k := k + 1;
    }
    UsedIs(|buf|, good, 0, k);
    outcome := if total == |buf| then Finished else Unfinished;
  }

  lemma {:induction false} GoodEnds(results: seq<int>)
    ensures var n := |Good(results)|; n == |results| || results[n] < 0
  {
    if results != [] && results[0] >= 0 {
      GoodEnds(results[1..]);
    }
  }

  lemma {:induction false} UsedIs(n: nat, counts: seq<nat>, i: nat, k: nat)
    requires i <= k <= |counts|
    requires forall j | i <= j < k :: Total(counts, j) != n
    requires k == |counts| || Total(counts, k) == n
    ensures Used(n, counts, i) == k
  {
    var u := Used(n, counts, i);
    assert !(u < k);
  }
}
