/**
  The line that `src/daap_log.c` sends: `daapLogWrite` (lines 64-140) cuts the message to
  8096 characters and `daapBuildInflux` (lines 275-290) prints the line into 2048 bytes.
 */
module Influx {
  import opened CStrings
  import opened Numbers
  import opened Options

  const MAX_MSG_LEN := 8096
  const MAX_SIZE := 2048
  const LONG_MAX := 0x7FFF_FFFF_FFFF_FFFF

  /** What goes into a line; `ms` is the time in milliseconds. */
  datatype Fields = Fields(app: string, host: string, cluster: string, rank: int, message: string, ms: int)

  /** The nanoseconds fit in a `long`. */
  predicate InRange(ms: int) {
    -LONG_MAX - 1 <= ms * 1_000_000 <= LONG_MAX
  }

  function Stamp(ms: int): string {
    Signed(ms * 1_000_000)
  }

  function Head(f: Fields): string {
    "daap,appname=" + f.app + ",hostname=" + f.host + ",cluster=" + f.cluster + ",mpirank=" + Signed(f.rank)
  }

  /** The line without any limit. */
  function Line(f: Fields): string {
    Head(f) + (" message=\"" + f.message + "\" " + Stamp(f.ms))
  }

  lemma {:induction false} TimesTen(n: nat)
    requires n > 0
    ensures Decimal(10 * n) == Decimal(n) + "0"
  {
    assert Digit(0) == '0';
  }

  lemma {:induction false} TimesMillion(n: nat)
    requires n > 0
    ensures Decimal(1_000_000 * n) == Decimal(n) + "000000"
  {
    hide Decimal;
    TimesTen(n);
    TimesTen(10 * n);
    TimesTen(100 * n);
    TimesTen(1000 * n);
    TimesTen(10_000 * n);
    TimesTen(100_000 * n);
  }

  /** Milliseconds are printed with six zeros behind them. */
  lemma StampHasZeros(ms: int)
    requires ms != 0
    ensures Stamp(ms) == Signed(ms) + "000000"
  {
    hide Decimal;
    TimesMillion(if ms < 0 then -ms else ms);
  }

  const SAMPLE := Fields("a", "h", "c", -12, "m", 7)

  lemma SampleNumbers()
    ensures Signed(-12) == "-12" && Stamp(7) == "7000000"
  {
    assert Decimal(12) == "12" && Signed(7) == "7";
    StampHasZeros(7);
  }

  lemma SampleHead()
    ensures Head(SAMPLE) == "daap,appname=a,hostname=h,cluster=c,mpirank=-12"
  {
    hide Signed, Stamp;
    SampleNumbers();
  }

  lemma SampleTail()
    ensures " message=\"" + "m" + "\" " + Stamp(7) == " message=\"m\" 7000000"
  {
    hide Signed, Stamp;
    SampleNumbers();
  }

  /** One whole line. */
  lemma LineSample()
    ensures Line(SAMPLE) == "daap,appname=a,hostname=h,cluster=c,mpirank=-12" + " message=\"m\" 7000000"
  {
    hide Head, Stamp;
    SampleHead();
    SampleTail();
  }

  function Cut(s: string, n: nat): (r: string)
    ensures |r| == if |s| < n then |s| else n
    ensures r <= s
  {
    if |s| < n then s else s[..n]
  }

  /** The line that is sent. */
  function Emitted(f: Fields): string {
    Cut(Line(f), MAX_SIZE - 1)
  }

  // -- The code

  /** `snprintf(buf, size, "%s", text)`. */
  method Snprintf(buf: array<char>, size: nat, text: string) returns (n: nat)
    requires 0 < size <= buf.Length && NUL !in text
    modifies buf
    ensures n == |text| && StringAt(buf[..], 0, Cut(text, size - 1))
    ensures forall i | size <= i < buf.Length :: buf[i] == old(buf[i])
  {
    n := |text|;
    var last := if |text| < size - 1 then |text| else size - 1;
    for i := 0 to last
      invariant forall j | 0 <= j < i :: buf[j] == text[j]
      invariant forall j | i <= j < buf.Length :: buf[j] == old(buf[j])
    {
      buf[i] := text[i];
    }
    buf[last] := NUL;
  }

  predicate NoNul(f: Fields) {
    NUL !in f.app && NUL !in f.host && NUL !in f.cluster && NUL !in f.message
  }

  lemma LineNoNul(f: Fields)
    requires NoNul(f)
    ensures NUL !in Line(f)
  {
    assert !IsDigit(NUL);
    assert NUL !in Signed(f.rank) && NUL !in Stamp(f.ms);
    assert NUL !in Head(f);
  }

  method BuildInflux(f: Fields) returns (influx: array<char>)
    requires NoNul(f) && InRange(f.ms)
    ensures fresh(influx) && StringAt(influx[..], 0, Emitted(f))
  {
    influx := new char[MAX_SIZE];
    LineNoNul(f);
    var _ := Snprintf(influx, MAX_SIZE, Line(f));
  }

  /** `daapLogWrite`: `text` is the formatted message, `sent` what is handed to the transport. */
  method LogWrite(called: bool, text: string, f: Fields) returns (ok: bool, sent: Option<string>)
    requires NoNul(f) && NUL !in text && InRange(f.ms)
    ensures ok == called
    ensures sent == if called then Some(Cut(Line(f.(message := Cut(text, 8096))), 2047)) else None
  {
    if !called {
      return false, None;
    }
    var msgLen := |text|;
    if msgLen > MAX_MSG_LEN {
      msgLen := MAX_MSG_LEN;
    }
    var full := new char[MAX_MSG_LEN + 1];
    var _ := Snprintf(full, msgLen + 1, text);
    ghost var message := Cut(text, MAX_MSG_LEN);
    assert message == Cut(text, msgLen);
    var n := Strlen(full, 0, message);
    assert full[..n] == message;
    var g := f.(message := full[..n]);
    var influx := BuildInflux(g);
    var length := Strlen(influx, 0, Emitted(g));
    assert influx[..length] == Emitted(g);
    return true, Some(influx[..length]);
  }

  // -- Reading a line back

  /** What comes before the first `c`. */
  lemma FirstOf(a: string, x: string, b: string, y: string, c: char)
    requires c !in a && c !in b && a + [c] + x == b + [c] + y
    ensures a == b && x == y
  {
    var s := a + [c] + x;
    SpanIs(s, 0, {c}, false, |a|);
    SpanIs(s, 0, {c}, false, |b|);
    assert a == s[..|a|] && b == s[..|b|];
    assert x == s[|a| + 1..] && y == s[|b| + 1..];
  }

  function LastAt(s: string, c: char): int {
    if s == "" || s[|s| - 1] == c then |s| - 1 else LastAt(s[..|s| - 1], c)
  }

  lemma {:induction false} LastIs(a: string, x: string, c: char)
    requires c !in x
    ensures LastAt(a + [c] + x, c) == |a|
    decreases |x|
  {
    var s := a + [c] + x;
    if x != "" {
      var front := x[..|x| - 1];
      assert s[..|s| - 1] == a + [c] + front;
      LastIs(a, front, c);
    }
  }

  /** What comes behind the last `c`. */
  lemma LastOf(a: string, x: string, b: string, y: string, c: char)
    requires c !in x && c !in y && a + [c] + x == b + [c] + y
    ensures a == b && x == y
  {
    var s := a + [c] + x;
    LastIs(a, x, c);
    LastIs(b, y, c);
    assert a == s[..|a|] && b == s[..|b|];
    assert x == s[|a| + 1..] && y == s[|b| + 1..];
  }

  /** The tags have no comma. */
  predicate Separable(f: Fields) {
    ',' !in f.app && ',' !in f.host && ',' !in f.cluster
  }

  /** Dropping the same front from two equal texts. */
  lemma Drop(front: string, x: string, y: string)
    requires front + x == front + y
    ensures x == y
  {
    assert x == (front + x)[|front|..] && y == (front + y)[|front|..];
  }

  function AfterRank(f: Fields): string {
    "message=\"" + (f.message + ['\"'] + (" " + Stamp(f.ms)))
  }

  function AfterCluster(f: Fields): string {
    "mpirank=" + (Signed(f.rank) + [' '] + AfterRank(f))
  }

  function AfterHost(f: Fields): string {
    "cluster=" + (f.cluster + [','] + AfterCluster(f))
  }

  function AfterApp(f: Fields): string {
    "hostname=" + (f.host + [','] + AfterHost(f))
  }

  lemma Comma(front: string, name: string, value: string, c: char, rest: string)
    ensures front + ([','] + name) + value + ([c] + rest) == front + ([','] + (name + (value + [c] + rest)))
  {
  }

  lemma Names()
    ensures ",hostname=" == [','] + "hostname=" && ",cluster=" == [','] + "cluster=" && ",mpirank=" == [','] + "mpirank="
  {
  }

  function UpToHost(f: Fields): string {
    "daap,appname=" + f.app + ",hostname=" + f.host
  }

  lemma HeadInParts(f: Fields)
    ensures Head(f) + ([' '] + AfterRank(f)) == UpToHost(f) + ([','] + AfterHost(f))
  {
    var front := UpToHost(f) + ",cluster=" + f.cluster;
    Names();
    Comma(front, "mpirank=", Signed(f.rank), ' ', AfterRank(f));
    Comma(UpToHost(f), "cluster=", f.cluster, ',', AfterCluster(f));
  }

  lemma LineInParts(f: Fields)
    ensures Line(f) == "daap,appname=" + (f.app + [','] + AfterApp(f))
  {
    assert " message=\"" + f.message + "\" " + Stamp(f.ms) == [' '] + AfterRank(f);
    HeadInParts(f);
    Names();
    Comma("daap,appname=" + f.app, "hostname=", f.host, ',', AfterHost(f));
    assert "daap,appname=" + f.app + ([','] + AfterApp(f)) == "daap,appname=" + (f.app + [','] + AfterApp(f));
  }

  lemma SignedPlain(n: int)
    ensures ' ' !in Signed(n) && '\"' !in Signed(n)
  {
    assert !IsDigit(' ') && !IsDigit('\"');
  }

  lemma AfterRankInjective(f: Fields, g: Fields)
    requires AfterRank(f) == AfterRank(g)
    ensures f.message == g.message && f.ms == g.ms
  {
    SignedPlain(f.ms * 1_000_000);
    SignedPlain(g.ms * 1_000_000);
    Drop("message=\"", f.message + ['\"'] + (" " + Stamp(f.ms)), g.message + ['\"'] + (" " + Stamp(g.ms)));
    LastOf(f.message, " " + Stamp(f.ms), g.message, " " + Stamp(g.ms), '\"');
    Drop(" ", Stamp(f.ms), Stamp(g.ms));
    SignedInjective(f.ms * 1_000_000, g.ms * 1_000_000);
  }

  lemma AfterClusterInjective(f: Fields, g: Fields)
    requires AfterCluster(f) == AfterCluster(g)
    ensures f.rank == g.rank && AfterRank(f) == AfterRank(g)
  {
    SignedPlain(f.rank);
    SignedPlain(g.rank);
    Drop("mpirank=", Signed(f.rank) + [' '] + AfterRank(f), Signed(g.rank) + [' '] + AfterRank(g));
    FirstOf(Signed(f.rank), AfterRank(f), Signed(g.rank), AfterRank(g), ' ');
    SignedInjective(f.rank, g.rank);
  }

  /** The whole line tells all fields, whatever quotes and spaces the message has. */
  lemma LineInjective(f: Fields, g: Fields)
    requires Separable(f) && Separable(g) && Line(f) == Line(g)
    ensures f == g
  {
    LineInParts(f);
    LineInParts(g);
    Drop("daap,appname=", f.app + [','] + AfterApp(f), g.app + [','] + AfterApp(g));
    FirstOf(f.app, AfterApp(f), g.app, AfterApp(g), ',');
    Drop("hostname=", f.host + [','] + AfterHost(f), g.host + [','] + AfterHost(g));
    FirstOf(f.host, AfterHost(f), g.host, AfterHost(g), ',');
    Drop("cluster=", f.cluster + [','] + AfterCluster(f), g.cluster + [','] + AfterCluster(g));
    FirstOf(f.cluster, AfterCluster(f), g.cluster, AfterCluster(g), ',');
    AfterClusterInjective(f, g);
    AfterRankInjective(f, g);
  }

  /** With a comma in a tag two different callers can send the same line. */
  lemma CommaConfuses()
    ensures var f := Fields("a", "b,hostname=c", "", 0, "", 0);
      var g := Fields("a,hostname=b", "c", "", 0, "", 0);
      f != g && Line(f) == Line(g)
  {
    var f := Fields("a", "b,hostname=c", "", 0, "", 0);
    var g := Fields("a,hostname=b", "c", "", 0, "", 0);
    assert Head(f) == Head(g);
  }

  /** Fields that `daapLogWrite` can have. */
  predicate Possible(f: Fields) {
    NoNul(f) && |f.message| <= MAX_MSG_LEN && InRange(f.ms)
  }

  predicate Sendable(f: Fields) {
    Separable(f) && Possible(f)
  }

  /** A longer message whose line goes on where the line of `f` ends. */
  lemma Longer(f: Fields, g: Fields)
    requires g == f.(message := f.message + "\" " + Stamp(f.ms) + "x")
    ensures Line(g) == Line(f) + ("x" + "\" " + Stamp(f.ms))
  {
  }

  /** Another last character of the message. */
  lemma LastChanged(f: Fields, g: Fields, c: char)
    requires f.message != "" && |f.message| >= MAX_SIZE
    requires g == f.(message := f.message[..|f.message| - 1] + [c])
    ensures Emitted(g) == Emitted(f)
  {
    var n := |f.message| - 1;
    var start := Head(f) + " message=\"" + f.message[..n];
    LineStarts(f, f.message[..n], f.message[n]);
    LineStarts(g, f.message[..n], c);
    assert Head(g) == Head(f);
    assert Emitted(f) == start[..MAX_SIZE - 1];
    assert Emitted(g) == start[..MAX_SIZE - 1];
  }

  lemma LineStarts(f: Fields, m: string, c: char)
    requires f.message == m + [c]
    ensures Line(f) == (Head(f) + " message=\"" + m) + ([c] + "\" " + Stamp(f.ms))
  {
  }

  /** Other fields with the same line. */
  lemma Lookalike(f: Fields) returns (g: Fields)
    requires Possible(f) && |Line(f)| >= MAX_SIZE - 1
    ensures Possible(g) && g != f && Emitted(g) == Emitted(f)
    ensures g.app == f.app && g.host == f.host && g.cluster == f.cluster
  {
    var more := f.message + "\" " + Stamp(f.ms);
    if |more| < MAX_MSG_LEN {
      g := f.(message := more + "x");
      assert !IsDigit(NUL) && NUL !in Stamp(f.ms);
      Longer(f, g);
      assert |g.message| > |f.message|;
    } else {
      StampShort(f.ms);
      var n := |f.message| - 1;
      var c := if f.message[n] == 'x' then 'y' else 'x';
      g := f.(message := f.message[..n] + [c]);
      assert g.message[n] == c;
      LastChanged(f, g, c);
    }
  }

  lemma StampShort(ms: int)
    requires InRange(ms)
    ensures |Stamp(ms)| <= 21
  {
    var n: nat := if ms < 0 then -(ms * 1_000_000) else ms * 1_000_000;
    assert Power(5) == 100_000 && Power(10) == 10_000_000_000 && Power(15) == 1_000_000_000_000_000;
    assert Power(20) == 100_000_000_000_000_000_000;
    DecimalShort(n, Power(20), 20);
  }

  /** No other sender could have sent the line of `f`. */
  ghost predicate Tells(f: Fields) {
    forall g | Sendable(g) && Emitted(g) == Emitted(f) :: g == f
  }

  /** The line that is sent tells all fields if and only if it is shorter than the buffer allows. */
  lemma TellsIffShort(f: Fields)
    requires Sendable(f)
    ensures Tells(f) <==> |Line(f)| < 2047
  {
    if |Line(f)| < MAX_SIZE - 1 {
      forall g | Sendable(g) && Emitted(g) == Emitted(f) ensures g == f {
        LineInjective(f, g);
      }
    } else {
      var g := Lookalike(f);
    }
  }

  // -- Tags with commas

  const HOST_MARK := ",hostname="
  const CLUSTER_MARK := ",cluster="

  /** The part of the line with the tags. */
  function Tags(app: string, host: string, cluster: string): string {
    app + HOST_MARK + host + CLUSTER_MARK + cluster
  }

  /** No tag has a space: the tags end where the first space is. */
  predicate Spaceless(f: Fields) {
    ' ' !in f.app && ' ' !in f.host && ' ' !in f.cluster
  }

  lemma HeadHasTags(f: Fields)
    ensures Head(f) == ("daap,appname=" + Tags(f.app, f.host, f.cluster)) + [','] + ("mpirank=" + Signed(f.rank))
  {
    Names();
    assert "daap,appname=" + Tags(f.app, f.host, f.cluster) ==
      "daap,appname=" + f.app + ",hostname=" + f.host + ",cluster=" + f.cluster;
  }

  lemma SignedNoComma(n: int)
    ensures ',' !in Signed(n)
  {
    assert !IsDigit(',');
  }

  lemma HeadSpaceless(f: Fields)
    requires Spaceless(f)
    ensures ' ' !in Head(f)
  {
    SignedPlain(f.rank);
  }

  lemma LineHasHead(f: Fields)
    ensures Line(f) == Head(f) + [' '] + AfterRank(f)
  {
    assert " message=\"" + f.message + "\" " + Stamp(f.ms) == [' '] + AfterRank(f);
  }

  /** A line with spaceless tags tells everything but how the tags are divided. */
  lemma LineTellsTags(f: Fields, g: Fields)
    requires Spaceless(f) && Spaceless(g)
    ensures Line(f) == Line(g) <==>
      Tags(f.app, f.host, f.cluster) == Tags(g.app, g.host, g.cluster) && f.rank == g.rank && f.message == g.message && f.ms == g.ms
  {
    hide Tags, Head, Line, AfterRank, Signed;
    LineHasHead(f);
    LineHasHead(g);
    HeadHasTags(f);
    HeadHasTags(g);
    if Line(f) == Line(g) {
      HeadSpaceless(f);
      HeadSpaceless(g);
      FirstOf(Head(f), AfterRank(f), Head(g), AfterRank(g), ' ');
      AfterRankInjective(f, g);
      HeadTells(f, g);
    }
    if f.message == g.message && f.ms == g.ms {
      SameAfterRank(f, g);
    }
  }

  lemma SameAfterRank(f: Fields, g: Fields)
    requires f.message == g.message && f.ms == g.ms
    ensures AfterRank(f) == AfterRank(g)
  {
  }

  lemma HeadTells(f: Fields, g: Fields)
    requires Head(f) == Head(g)
    ensures Tags(f.app, f.host, f.cluster) == Tags(g.app, g.host, g.cluster) && f.rank == g.rank
  {
    hide Tags, Head, Signed;
    HeadHasTags(f);
    HeadHasTags(g);
    SignedNoComma(f.rank);
    SignedNoComma(g.rank);
    var front, back := "daap,appname=", "mpirank=";
    assert ',' !in back + Signed(f.rank) && ',' !in back + Signed(g.rank);
    LastOf(front + Tags(f.app, f.host, f.cluster), back + Signed(f.rank), front + Tags(g.app, g.host, g.cluster), back + Signed(g.rank), ',');
    Drop(front, Tags(f.app, f.host, f.cluster), Tags(g.app, g.host, g.cluster));
    Drop(back, Signed(f.rank), Signed(g.rank));
    SignedInjective(f.rank, g.rank);
  }

  /** One of the tags holds a mark that could be taken for the one behind it or before it. */
  predicate Confusable(app: string, host: string, cluster: string) {
    Contains(app, HOST_MARK) || Contains(host, HOST_MARK) || Contains(host, CLUSTER_MARK) || Contains(cluster, CLUSTER_MARK)
  }

  /** A mark starts with a comma and has no other. */
  predicate IsMark(m: string) {
    m != "" && m[0] == ',' && forall k | 0 < k < |m| :: m[k] != ','
  }

  lemma MarksAre()
    ensures IsMark(HOST_MARK) && IsMark(CLUSTER_MARK) && |HOST_MARK| == 10 && |CLUSTER_MARK| == 9
    ensures HOST_MARK[1] != CLUSTER_MARK[1]
  {
  }

  lemma CharAt(s: string, m: string, i: nat, k: nat)
    requires ContainsAt(s, m, i)
    ensures k < |m| ==> s[i + k] == m[k]
  {
    assert k < |m| ==> s[i..i + |m|][k] == s[i + k];
  }

  /** Marks do not overlap. */
  lemma MarksApart(s: string, m: string, n: string, i: nat, j: nat)
    requires IsMark(m) && IsMark(n) && ContainsAt(s, m, i) && ContainsAt(s, n, j) && i < j
    ensures i + |m| <= j
  {
    hide ContainsAt;
    CharAt(s, m, i, j - i);
    CharAt(s, n, j, 0);
  }

  /** A mark inside a part of a text. */
  lemma MarkInside(s: string, m: string, i: nat, from: nat, to: nat)
    requires ContainsAt(s, m, i) && from <= i && i + |m| <= to <= |s|
    ensures Contains(s[from..to], m)
  {
    var part, at := s[from..to], i - from;
    forall k | 0 <= k < |m| ensures part[at + k] == m[k] {
      CharAt(s, m, i, k);
    }
    assert part[at..at + |m|] == m;
    assert ContainsAt(part, m, at);
  }

  /** Where the marks and the tags are. */
  lemma TagsAt(app: string, host: string, cluster: string)
    ensures var s := Tags(app, host, cluster);
      var p, q := |app|, |app| + 10 + |host|;
      && |s| == q + 9 + |cluster| && ContainsAt(s, HOST_MARK, p) && ContainsAt(s, CLUSTER_MARK, q)
      && s[..p] == app && s[p + 10..q] == host && s[q + 9..] == cluster
  {
  }

  /** Another place for the host mark. */
  lemma OtherHostMark(app: string, host: string, cluster: string, p: nat, q: nat)
    requires var s := Tags(app, host, cluster);
      p != |app| && ContainsAt(s, HOST_MARK, p) && p + 10 <= q && ContainsAt(s, CLUSTER_MARK, q)
    ensures Confusable(app, host, cluster)
  {
    hide Tags, Contains, ContainsAt;
    var s := Tags(app, host, cluster);
    var p0, q0 := |app|, |app| + 10 + |host|;
    TagsAt(app, host, cluster);
    MarksAre();
    if p < p0 {
      MarksApart(s, HOST_MARK, HOST_MARK, p, p0);
      MarkInside(s, HOST_MARK, p, 0, p0);
    } else {
      MarksApart(s, HOST_MARK, HOST_MARK, p0, p);
      if p < q0 {
        MarksApart(s, HOST_MARK, CLUSTER_MARK, p, q0);
        MarkInside(s, HOST_MARK, p, p0 + 10, q0);
      } else {
        MarksApart(s, CLUSTER_MARK, CLUSTER_MARK, q0, q);
        Bounds(s, CLUSTER_MARK, q);
        MarkInside(s, CLUSTER_MARK, q, q0 + 9, |s|);
        assert s[q0 + 9..|s|] == s[q0 + 9..];
      }
    }
  }

  lemma Bounds(s: string, m: string, i: nat)
    requires ContainsAt(s, m, i)
    ensures i + |m| <= |s|
  {
  }

  /** Another place for the cluster mark. */
  lemma OtherClusterMark(app: string, host: string, cluster: string, q: nat)
    requires var s := Tags(app, host, cluster);
      |app| + 10 <= q != |app| + 10 + |host| && ContainsAt(s, CLUSTER_MARK, q)
    ensures Confusable(app, host, cluster)
  {
    hide Tags, Contains, ContainsAt;
    var s, q0 := Tags(app, host, cluster), |app| + 10 + |host|;
    TagsAt(app, host, cluster);
    MarksAre();
    if q < q0 {
      MarksApart(s, CLUSTER_MARK, CLUSTER_MARK, q, q0);
      MarkInside(s, CLUSTER_MARK, q, |app| + 10, q0);
    } else {
      MarksApart(s, CLUSTER_MARK, CLUSTER_MARK, q0, q);
      Bounds(s, CLUSTER_MARK, q);
      MarkInside(s, CLUSTER_MARK, q, q0 + 9, |s|);
      assert s[q0 + 9..|s|] == s[q0 + 9..];
    }
  }

  /** Tags that can be divided in two ways are confusable. */
  lemma TwoWays(a: string, h: string, c: string, a': string, h': string, c': string)
    requires Tags(a, h, c) == Tags(a', h', c') && !(a == a' && h == h' && c == c')
    ensures Confusable(a, h, c)
  {
    hide Tags, Contains, ContainsAt, Confusable;
    TagsAt(a, h, c);
    TagsAt(a', h', c');
    if |a| != |a'| {
      OtherHostMark(a, h, c, |a'|, |a'| + 10 + |h'|);
    } else if |h| != |h'| {
      OtherClusterMark(a, h, c, |a'| + 10 + |h'|);
    }
  }

  lemma PartsOf(s: string, m: string) returns (front: string, back: string)
    requires Contains(s, m)
    ensures s == front + m + back
    ensures forall c | c in front || c in back :: c in s
  {
    var i: nat :| i <= |s| && ContainsAt(s, m, i);
    front, back := s[..i], s[i + |m|..];
    assert s == s[..i] + s[i..i + |m|] + s[i + |m|..];
  }

  /** Confusable tags can be divided in another way, into tags with no new characters. */
  lemma AnotherWay(a: string, h: string, c: string) returns (a': string, h': string, c': string)
    requires Confusable(a, h, c)
    ensures Tags(a', h', c') == Tags(a, h, c) && !(a == a' && h == h' && c == c')
    ensures forall x | x in a' || x in h' || x in c' :: x in a || x in h || x in c || x in HOST_MARK || x in CLUSTER_MARK
  {
    hide Contains;
    if Contains(a, HOST_MARK) {
      var x, y := PartsOf(a, HOST_MARK);
      a', h', c' := x, y + HOST_MARK + h, c;
      assert a' + HOST_MARK + h' == a + HOST_MARK + h;
    } else if Contains(h, HOST_MARK) {
      var x, y := PartsOf(h, HOST_MARK);
      a', h', c' := a + HOST_MARK + x, y, c;
      assert a' + HOST_MARK + h' == a + HOST_MARK + h;
    } else if Contains(h, CLUSTER_MARK) {
      var x, y := PartsOf(h, CLUSTER_MARK);
      a', h', c' := a, x, y + CLUSTER_MARK + c;
      assert h' + CLUSTER_MARK + c' == h + CLUSTER_MARK + c;
      SameBehind(a, h, c, h', c');
    } else {
      var x, y := PartsOf(c, CLUSTER_MARK);
      a', h', c' := a, h + CLUSTER_MARK + x, y;
      assert h' + CLUSTER_MARK + c' == h + CLUSTER_MARK + c;
      SameBehind(a, h, c, h', c');
    }
  }

  lemma SameBehind(a: string, h: string, c: string, h': string, c': string)
    requires h' + CLUSTER_MARK + c' == h + CLUSTER_MARK + c
    ensures Tags(a, h', c') == Tags(a, h, c)
  {
    assert Tags(a, h, c) == a + HOST_MARK + (h + CLUSTER_MARK + c);
    assert Tags(a, h', c') == a + HOST_MARK + (h' + CLUSTER_MARK + c');
  }

  predicate Sender(f: Fields) {
    Spaceless(f) && Possible(f)
  }

  /**
    Among senders whose tags have no spaces, somebody else has the same line, if and only if
    ",hostname=" occurs in the application or the host, or ",cluster=" in the host or the cluster.
   */
  lemma ConfusedIff(f: Fields)
    requires Sender(f)
    ensures (exists g :: Sender(g) && g != f && Line(g) == Line(f)) <==> Confusable(f.app, f.host, f.cluster)
  {
    hide Line, Tags, Confusable;
    if Confusable(f.app, f.host, f.cluster) {
      var a, h, c := AnotherWay(f.app, f.host, f.cluster);
      var g := f.(app := a, host := h, cluster := c);
      MarkCharacters();
      assert Sender(g);
      LineTellsTags(f, g);
      assert Sender(g) && g != f && Line(g) == Line(f);
    } else {
      forall g | Sender(g) && Line(g) == Line(f) ensures g == f {
        LineTellsTags(f, g);
        if g != f {
          TwoWays(f.app, f.host, f.cluster, g.app, g.host, g.cluster);
        }
      }
    }
  }

  lemma MarkCharacters()
    ensures ' ' !in HOST_MARK && ' ' !in CLUSTER_MARK && NUL !in HOST_MARK && NUL !in CLUSTER_MARK
  {
  }

  /** The line that is sent tells all fields, among such senders, if and only if it is short enough and its tags are not confusable. */
  lemma TellsExactly(f: Fields)
    requires Sender(f)
    ensures (forall g | Sender(g) && Emitted(g) == Emitted(f) :: g == f) <==>
      |Line(f)| < 2047 && !Confusable(f.app, f.host, f.cluster)
  {
    hide Line, Confusable;
    ConfusedIff(f);
    if |Line(f)| >= MAX_SIZE - 1 {
      var g := Lookalike(f);
      assert Sender(g) && Emitted(g) == Emitted(f) && g != f;
    } else if Confusable(f.app, f.host, f.cluster) {
      var g :| Sender(g) && g != f && Line(g) == Line(f);
      assert Emitted(g) == Emitted(f);
    } else {
      forall g | Sender(g) && Emitted(g) == Emitted(f) ensures g == f {
        assert Line(g) == Line(f);
      }
    }
  }
}
