/**
  The text records of the fluentd plugin (`out_daap.rb`): `common_clean` (lines 39-56), the
  splitting into keys and values (lines 258-267 and their copies), and the choice of the code
  a message comes from. The `gsub!` calls are functions on strings here.
 */
module PluginText {
  import opened CStrings
  import opened Numbers
  import opened Options

  // -- gsub!

  /** `gsub(/pat/, '')` for a literal pattern. */
  function RemoveAll(s: string, pat: string): string
    requires pat != ""
  {
    if s == "" then ""
    else if pat <= s then RemoveAll(s[|pat|..], pat)
    else [s[0]] + RemoveAll(s[1..], pat)
  }

  predicate PatternAt(s: string, pat: string, i: nat) {
    i <= |s| && pat <= s[i..]
  }

  lemma PatternAtTail(s: string, pat: string, i: nat)
    requires s != ""
    ensures PatternAt(s[1..], pat, i) ==> PatternAt(s, pat, i + 1)
  {
    assert i < |s| ==> s[1..][i..] == s[i + 1..];
  }

  /** The first occurrence goes, and the same with what is behind it. */
  lemma {:induction false} RemoveFirst(a: string, pat: string, b: string)
    requires pat != "" && forall i | 0 <= i < |a| :: !PatternAt(a + (pat + b), pat, i)
    ensures RemoveAll(a + (pat + b), pat) == a + RemoveAll(b, pat)
    decreases |a|
  {
    var s := a + (pat + b);
    if a == "" {
      assert s == pat + b && pat <= s && s[|pat|..] == b;
      assert "" + RemoveAll(b, pat) == RemoveAll(b, pat);
    } else {
      assert s[0..] == s && !PatternAt(s, pat, 0);
      assert s[1..] == a[1..] + (pat + b);
      forall i: nat | i < |a| - 1 ensures !PatternAt(a[1..] + (pat + b), pat, i) {
        PatternAtTail(s, pat, i);
      }
      RemoveFirst(a[1..], pat, b);
      assert [a[0]] + (a[1..] + RemoveAll(b, pat)) == a + RemoveAll(b, pat);
    }
  }

  /** `gsub(/^pat/, '')`: at the start of each line; `start` says whether `s` is at one. */
  function RemovePrefix(s: string, pat: string, start: bool): string
    requires pat != ""
  {
    if s == "" then ""
    else if start && pat <= s then RemovePrefix(s[|pat|..], pat, false)
    else [s[0]] + RemovePrefix(s[1..], pat, s[0] == '\n')
  }

  /** At the start of every line, but not elsewhere. */
  lemma {:induction false} PrefixByLine(a: string, b: string, pat: string, start: bool)
    requires pat != "" && '\n' !in pat && '\n' !in a
    ensures RemovePrefix(a + ['\n'] + b, pat, start) == RemovePrefix(a, pat, start) + ['\n'] + RemovePrefix(b, pat, true)
    decreases |a|
  {
    var s := a + ['\n'] + b;
    if a == "" {
      assert s == ['\n'] + b && s[1..] == b;
      assert !(pat <= s) by {
        assert pat[0] in pat && s[0] == '\n';
      }
    } else if start && pat <= s {
      PrefixWithin(a, b, pat);
      assert s[|pat|..] == a[|pat|..] + ['\n'] + b;
      PrefixByLine(a[|pat|..], b, pat, false);
    } else {
      assert !(start && pat <= a) by {
        assert pat <= a ==> pat <= s;
      }
      assert s[1..] == a[1..] + ['\n'] + b && s[0] == a[0] && a[0] in a;
      PrefixByLine(a[1..], b, pat, false);
    }
  }

  lemma PrefixWithin(a: string, b: string, pat: string)
    requires '\n' !in pat && pat <= a + ['\n'] + b
    ensures pat <= a
  {
    var s := a + ['\n'] + b;
    assert s[|a|] == '\n';
    assert forall k | 0 <= k < |pat| :: pat[k] == s[k] && pat[k] in pat;
    assert |pat| <= |a|;
    assert pat == s[..|pat|] == a[..|pat|];
  }

  function SkipSpaces(s: string): (r: string)
    ensures |r| <= |s| && (r != "" ==> !IsSpace(r[0]))
    ensures s != "" && IsSpace(s[0]) ==> |r| < |s|
  {
    if s == "" || !IsSpace(s[0]) then s else SkipSpaces(s[1..])
  }

  /** `gsub(/\s+(pat)/, ',\1')`. */
  function Join(s: string, pat: string): string
    requires pat != ""
    decreases |s|
  {
    if s == "" then ""
    else if IsSpace(s[0]) && pat <= SkipSpaces(s) then "," + pat + Join(SkipSpaces(s)[|pat|..], pat)
    else [s[0]] + Join(s[1..], pat)
  }

  /** The last place in a line where a space is followed by a digit, or -1. */
  function LastStamp(line: string, from: nat): (i: int)
    requires from <= |line|
    ensures -1 <= i < |line|
    ensures i != -1 ==> from <= i < |line| - 1 && line[i] == ' ' && IsDigit(line[i + 1])
    ensures forall j | from <= j < |line| - 1 && i < j :: !(line[j] == ' ' && IsDigit(line[j + 1]))
    decreases |line| - from
  {
    if from + 1 >= |line| then -1 else
      var later := LastStamp(line, from + 1);
      if later != -1 then later
      else if line[from] == ' ' && IsDigit(line[from + 1]) then from else -1
  }

  /** On one line, the last space before digits and all from there on become the time stamp: `.*` is greedy. */
  function StampLine(line: string): string {
    var i := LastStamp(line, 0);
    if i == -1 then line else
      var rest := line[i + 1..];
      line[..i] + ",timestamp=" + rest[..LeadingDigits(rest)]
  }

  /** The same with `gsub`: on every line. */
  function StampLines(s: string): string {
    var n := Span(s, 0, {'\n'}, false);
    if n == |s| then StampLine(s) else StampLine(s[..n]) + "\n" + StampLines(s[n + 1..])
  }

  // -- common_clean

  /** Domains, backslashes and quotes go, in this order. */
  function Scrub(s: string): string {
    RemoveAll(RemoveAll(RemoveAll(RemoveAll(s, ".localdomain"), ".lanl.gov"), "\\"), "\"")
  }

  /** Codes whose messages have no field list of their own. */
  predicate Plain(code: string) {
    code == "mcatk" || code == "poisson-metrics"
  }

  function Prefix(code: string): string {
    code + if Plain(code) then " " else ","
  }

  function Cleaned(s: string, code: string, firstField: string): string {
    var scrubbed := Scrub(RemovePrefix(s, Prefix(code), true));
    StampLines(if Plain(code) then scrubbed else Join(scrubbed, firstField + "="))
  }

  /** A message that is cleaned in place. */
  class Message {
    var text: string

    constructor (text: string)
      ensures this.text == text
    {
      this.text := text;
    }

    /** `common_clean`. */
    method CommonClean(code: string, firstField: string)
      modifies this
      ensures text == Cleaned(old(text), code, firstField)
    {
      if code == "mcatk" || code == "poisson-metrics" {
        text := RemovePrefix(text, code + " ", true);
      } else {
        text := RemovePrefix(text, code + ",", true);
      }
      text := RemoveAll(text, ".localdomain");
      text := RemoveAll(text, ".lanl.gov");
      text := RemoveAll(text, "\\");
      text := RemoveAll(text, "\"");
      if code != "mcatk" && code != "poisson-metrics" {
        text := Join(text, firstField + "=");
      }
      text := StampLines(text);
    }
  }

  // -- split and strip!

  function SplitOn(s: string, c: char): (parts: seq<string>)
    ensures parts != []
  {
    var n := Span(s, 0, {c}, false);
    if n == |s| then [s] else [s[..n]] + SplitOn(s[n + 1..], c)
  }

  function DropEmpty(parts: seq<string>): (r: seq<string>)
    ensures r <= parts && (r != [] ==> r[|r| - 1] != "")
  {
    if parts == [] || parts[|parts| - 1] != "" then parts else DropEmpty(parts[..|parts| - 1])
  }

  /** `split`: empty parts at the end are dropped. */
  function Split(s: string, c: char): seq<string> {
    DropEmpty(SplitOn(s, c))
  }

  function StripEnd(s: string): string {
    if s == "" || !IsSpace(s[|s| - 1]) then s else StripEnd(s[..|s| - 1])
  }

  function Strip(s: string): string {
    StripEnd(SkipSpaces(s))
  }

  /** What is cut is white space on both sides, and what is left has none at its ends. */
  lemma {:induction false} StripIs(s: string) returns (front: string, back: string)
    ensures s == front + Strip(s) + back
    ensures (forall i | 0 <= i < |front| :: IsSpace(front[i])) && forall i | 0 <= i < |back| :: IsSpace(back[i])
    ensures var t := Strip(s); t != "" ==> !IsSpace(t[0]) && !IsSpace(t[|t| - 1])
  {
    hide IsSpace, SkipSpaces, StripEnd;
    front := SkippedFront(s);
    back := CutEnd(SkipSpaces(s));
    var rest := SkipSpaces(s);
    assert front + Strip(s) + back == front + (Strip(s) + back);
    assert Strip(s) != "" ==> Strip(s)[0] == rest[0];
  }

  lemma {:induction false} SkippedFront(s: string) returns (front: string)
    ensures s == front + SkipSpaces(s) && forall i | 0 <= i < |front| :: IsSpace(front[i])
  {
    hide IsSpace;
    if s == "" || !IsSpace(s[0]) {
      front := "";
    } else {
      var more := SkippedFront(s[1..]);
      front := [s[0]] + more;
    }
  }

  lemma {:induction false} CutEnd(s: string) returns (back: string)
    ensures s == StripEnd(s) + back && (forall i | 0 <= i < |back| :: IsSpace(back[i]))
    ensures StripEnd(s) != "" ==> !IsSpace(StripEnd(s)[|StripEnd(s)| - 1])
    decreases |s|
  {
    hide IsSpace;
    if s == "" || !IsSpace(s[|s| - 1]) {
      back := "";
    } else {
      var less := CutEnd(s[..|s| - 1]);
      back := less + [s[|s| - 1]];
    }
  }

  // -- Keys and values

  type Rec = map<string, string>

  /** The key and the value of an item; without a value the call of `strip!` raises an exception. */
  function Pair(item: string): Option<(string, string)> {
    var parts := Split(item, '=');
    if |parts| < 2 then None else Some((parts[0], Strip(parts[1])))
  }

  /** All pairs of the items, a later one over an earlier one; None for an exception. */
  function Pairs(rec: Rec, items: seq<string>): Option<Rec>
    decreases |items|
  {
    if items == [] then Some(rec) else
      match Pair(items[0])
      case None => None
      case Some(p) => Pairs(rec[p.0 := p.1], items[1..])
  }

  lemma {:induction false} PairsStep(rec: Rec, items: seq<string>, k: nat)
    requires k < |items|
    ensures Pairs(rec, items[..k + 1]) ==
      match Pairs(rec, items[..k])
      case None => None
      case Some(r) => match Pair(items[k]) case None => None case Some(p) => Some(r[p.0 := p.1])
    decreases k
  {
    var front, more := items[..k], items[..k + 1];
    if k == 0 {
      assert more[1..] == [];
    } else {
      match Pair(items[0])
      case None =>
      case Some(p) =>
        PairsStep(rec[p.0 := p.1], items[1..], k - 1);
        assert more[1..] == items[1..][..k] && front[1..] == items[1..][..k - 1];
    }
  }

  lemma {:induction false} PairsFail(rec: Rec, items: seq<string>, k: nat)
    requires k <= |items| && Pairs(rec, items[..k]) == None
    ensures Pairs(rec, items) == None
    decreases |items| - k
  {
    if k == |items| {
      assert items[..k] == items;
    } else {
      PairsStep(rec, items, k);
      PairsFail(rec, items, k + 1);
    }
  }

  /** The loop over the items that fills the new record. */
  method FillPairs(start: Rec, items: seq<string>) returns (rec: Option<Rec>)
    ensures rec == Pairs(start, items)
  {
    var r := start;
    for i := 0 to |items|
      invariant Pairs(start, items[..i]) == Some(r)
    {
      PairsStep(start, items, i);
      var parts := Split(items[i], '=');
      if |parts| < 2 {
        PairsFail(start, items, i + 1);
        return None;
      }
      r := r[parts[0] := Strip(parts[1])];
    }
    assert items[..|items|] == items;
    return Some(r);
  }

  /** A message raises an exception if and only if one of its items has no value. */
  lemma {:induction false} RaisesIff(rec: Rec, items: seq<string>)
    ensures Pairs(rec, items) == None <==> exists i | 0 <= i < |items| :: Pair(items[i]) == None
    decreases |items|
  {
    if items != [] {
      match Pair(items[0])
      case None =>
      case Some(p) =>
        RaisesIff(rec[p.0 := p.1], items[1..]);
        assert forall i | 0 < i < |items| :: items[i] == items[1..][i - 1];
        assert forall i | 0 <= i < |items| - 1 :: items[1..][i] == items[i + 1];
    }
  }

  /** The items of a message of a code. */
  function Items(message: string, code: string, firstField: string): seq<string> {
    Split(Cleaned(message, code, firstField), ',')
  }

  /** What the message of a code becomes. */
  function Parsed(message: string, code: string, firstField: string, metric: string): Option<Rec> {
    Pairs(map["metric" := metric], Items(message, code, firstField))
  }

  /** `pairs` is the number of items. */
  method ParseMessage(m: Message, code: string, firstField: string, metric: string) returns (rec: Option<Rec>, pairs: nat)
    modifies m
    ensures rec == Parsed(old(m.text), code, firstField, metric)
    ensures pairs == |Items(old(m.text), code, firstField)|
  {
    m.CommonClean(code, firstField);
    var items := Split(m.text, ',');
    rec := FillPairs(map["metric" := metric], items);
    pairs := |items|;
  }

  // -- Which code

  datatype Kind = Kind(code: string, firstField: string, metric: string)

  /** The codes in the order in which a message is tried for them, with what marks a message of theirs. */
  function Kinds(): seq<(string, Kind)> {
    [("lap-metrics,", Kind("lap-metrics", "problem_name", "lap_metrics")),
     ("poisson-metrics ", Kind("poisson-metrics", "app", "ristra_metrics")),
     ("jayenne,", Kind("jayenne", "runtime", "jayenne_metrics")),
     ("mcatk ", Kind("mcatk", "", "mcatk_metrics")),
     ("sap,", Kind("sap", "npes", "sap_metrics")),
     ("xrage,", Kind("xrage", "job_id", "xrage_metrics"))]
  }

  /** The first of the kinds from `i` on whose mark is in the message. */
  function KindFrom(message: string, i: nat): Option<Kind>
    requires i <= |Kinds()|
    decreases |Kinds()| - i
  {
    if i == |Kinds()| then None
    else if Contains(message, Kinds()[i].0) then Some(Kinds()[i].1)
    else KindFrom(message, i + 1)
  }
}
