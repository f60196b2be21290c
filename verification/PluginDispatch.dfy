/**
  Which block of the plugin a text message goes to (`out_daap.rb`, lines 141-285): the blocks
  are tried in order, each with a mark that may be anywhere in the message. A printed message
  gives the record of its own code exactly when no mark of an earlier code occurs in it.
 */
module PluginDispatch {
  import opened Options
  import opened CStrings
  import opened Numbers
  import opened PluginText
  import opened PluginRoundTrip
  import opened Records
  import opened TextRecords
  import opened TextFields

  /** No block before block `i` takes the message. */
  predicate Untaken(message: string, i: nat)
    requires i <= |Kinds()|
  {
    forall j | 0 <= j < i :: !Contains(message, Kinds()[j].0)
  }

  lemma {:induction false} FirstKindFrom(message: string, i: nat, from: nat) returns (j: nat)
    requires from <= i < |Kinds()| && Contains(message, Kinds()[i].0)
    ensures from <= j <= i && KindFrom(message, from) == Some(Kinds()[j].1) && Contains(message, Kinds()[j].0)
    ensures j == i <==> forall k | from <= k < i :: !Contains(message, Kinds()[k].0)
    decreases i - from
  {
    hide Contains, Kinds;
    if Contains(message, Kinds()[from].0) {
      j := from;
    } else {
      j := FirstKindFrom(message, i, from + 1);
    }
  }

  lemma KindsAre()
    ensures |Kinds()| == 6
    ensures forall i | 0 <= i < 6 :: Kinds()[i].0 == Prefix(Kinds()[i].1.code)
    ensures forall i, j | 0 <= i < j < 6 :: Kinds()[i].1.code != Kinds()[j].1.code
  {
    var ks := Kinds();
    assert |ks| == 6;
  }

  /** A code has no separator, and nothing that cleaning takes out. */
  predicate IsCode(code: string) {
    code != "" && ',' !in code && '=' !in code && NoSpaces(code) && Clean(code)
  }

  predicate Letters(s: string) {
    forall k | 0 <= k < |s| :: 'a' <= s[k] <= 'z' || s[k] == '-'
  }

  lemma LettersAreCode(code: string)
    requires code != "" && Letters(code)
    ensures IsCode(code)
  {
    CharMissing(code, ".localdomain", '.');
    CharMissing(code, ".lanl.gov", '.');
  }

  lemma CodesAre(i: nat)
    requires i < |Kinds()|
    ensures IsCode(Kinds()[i].1.code) && ',' !in Kinds()[i].1.firstField
  {
    hide IsCode, Contains;
    var ks := Kinds();
    assert forall j | 0 <= j < 6 :: Letters(ks[j].1.code);
    LettersAreCode(ks[i].1.code);
  }

  /** A text without a character of the pattern does not contain the pattern. */
  lemma CharMissing(s: string, pat: string, c: char)
    requires c in pat && c !in s
    ensures !Contains(s, pat)
  {
    var k: nat :| k < |pat| && pat[k] == c;
    forall i: nat | i <= |s| ensures !ContainsAt(s, pat, i) {
      assert i + |pat| <= |s| ==> s[i..i + |pat|][k] == s[i + k] != c;
    }
  }

  // -- A message in the block of another code

  lemma SameCode(code: string, other: string, rest: string)
    requires IsCode(code) && IsCode(other) && Prefix(other) <= code + [','] + rest
    ensures code == other
  {
    hide Clean;
    var s, pat := code + [','] + rest, Prefix(other);
    var c := pat[|pat| - 1];
    assert pat == other + [c] && (c == ',' || c == ' ') && IsSpace(' ');
    assert s == other + [c] + s[|pat|..];
    SpanIs(s, 0, {',', ' '}, false, |other|);
    SpanIs(s, 0, {',', ' '}, false, |code|);
    assert code == s[..|code|] && other == s[..|other|];
  }

  /** The prefix of another code is not at the start. */
  lemma OtherPrefix(code: string, other: string, rest: string)
    requires IsCode(code) && IsCode(other) && code != other
    ensures !(Prefix(other) <= code + [','] + rest)
  {
    hide IsCode, Prefix;
    if Prefix(other) <= code + [','] + rest {
      SameCode(code, other, rest);
    }
  }

  lemma {:induction false} PrefixStays(s: string, pat: string)
    requires pat != "" && s != "" && !(pat <= s) && forall i | 0 <= i < |s| - 1 :: s[i] != '\n'
    ensures RemovePrefix(s, pat, true) == s
  {
    if |s| > 1 {
      RemoveNoPrefix(s[1..], pat);
    }
  }

  /** Up to its first comma, a text without white space there is not touched by the stamp. */
  lemma StampBehind(front: string, rest: string) returns (more: string)
    requires NoSpaces(front)
    ensures StampLines(front + [','] + rest) == front + [','] + more
  {
    hide StampLine, Span;
    var s := front + [','] + rest;
    var n := Span(s, 0, {'\n'}, false);
    BehindFront(front, rest, n, '\n');
    var behind := StampLineBehind(front, s[|front| + 1..n]);
    assert s[..n] == front + [','] + s[|front| + 1..n];
    more := behind + if n == |s| then "" else "\n" + StampLines(s[n + 1..]);
    assert s[..|s|] == s;
  }

  /** The first white space of a kind is behind the comma, or there is none. */
  lemma BehindFront(front: string, rest: string, n: nat, c: char)
    requires NoSpaces(front) && IsSpace(c) && c != ','
    requires var s := front + [','] + rest; n <= |s| && (n < |s| ==> s[n] == c)
    ensures n > |front|
  {
    var s := front + [','] + rest;
    assert forall k | 0 <= k < |front| :: s[k] == front[k];
    assert s[|front|] == ',';
  }

  lemma Reassociate(a: string, b: string, c: string)
    ensures (a + b) + c == a + (b + c)
  {
  }

  /** The stamp is put where a space is, or nothing changes. */
  lemma StampPlace(line: string) returns (i: int, stamp: string)
    ensures i == -1 ==> StampLine(line) == line
    ensures i != -1 ==> 0 <= i < |line| && line[i] == ' ' && StampLine(line) == line[..i] + stamp
  {
    i := LastStamp(line, 0);
    stamp := if i == -1 then "" else ",timestamp=" + line[i + 1..][..LeadingDigits(line[i + 1..])];
    if i != -1 {
      Reassociate(line[..i], ",timestamp=", line[i + 1..][..LeadingDigits(line[i + 1..])]);
    }
  }

  lemma StampLineBehind(front: string, rest: string) returns (more: string)
    requires NoSpaces(front)
    ensures StampLine(front + [','] + rest) == front + [','] + more
  {
    hide StampLine, NoSpaces;
    var line := front + [','] + rest;
    var i, stamp := StampPlace(line);
    if i == -1 {
      more := rest;
    } else {
      BehindFront(front, rest, i, ' ');
      CutBehind(front, rest, i);
      more := rest[..i - |front| - 1] + stamp;
      Reassociate(front + [','], rest[..i - |front| - 1], stamp);
    }
  }

  lemma CutBehind(front: string, rest: string, i: nat)
    requires |front| < i <= |front| + 1 + |rest|
    ensures (front + [','] + rest)[..i] == front + [','] + rest[..i - |front| - 1]
  {
  }

  /** In another block the first item of a message is its code, and that has no value. */
  lemma ForeignItems(code: string, other: string, firstField: string, body: string)
    requires IsCode(code) && IsCode(other) && code != other && ',' !in firstField
    requires forall i | 0 <= i < |body| - 1 :: body[i] != '\n'
    ensures var items := Items((code + ",") + body, other, firstField); items != [] && items[0] == code
  {
    var s, x, pat := (code + ",") + body, Scrub(body), firstField + "=";
    assert s == code + [','] + body && IsSpace('\n');
    OtherPrefix(code, other, body);
    PrefixStays(s, Prefix(other));
    ScrubApart(code, ',', body);
    ScrubNothingIff(code);
    var y := if Plain(other) then x else Join(x, pat);
    if !Plain(other) {
      JoinApart(code, ',', x, pat);
      SpacelessQuiet(code, pat);
      JoinQuiet(code, pat);
    }
    var z := StampBehind(code, y);
    SplitCons(code, ',', z);
    KeepsFirst([code] + SplitOn(z, ','));
  }

  lemma SpacelessQuiet(s: string, pat: string)
    requires NoSpaces(s)
    ensures Quiet(s, pat)
  {
  }

  lemma {:induction false} KeepsFirst(parts: seq<string>)
    requires parts != [] && parts[0] != ""
    ensures DropEmpty(parts) != [] && DropEmpty(parts)[0] == parts[0]
  {
    if |parts| > 1 {
      KeepsFirst(parts[..|parts| - 1]);
    }
  }

  lemma CodeHasNoValue(code: string)
    requires IsCode(code)
    ensures Pair(code) == None
  {
    SplitOne(code, '=');
  }

  /** So it raises an exception there. */
  lemma ForeignRaises(code: string, kind: Kind, body: string)
    requires IsCode(code) && IsCode(kind.code) && code != kind.code && ',' !in kind.firstField
    requires forall i | 0 <= i < |body| - 1 :: body[i] != '\n'
    ensures Parsed((code + ",") + body, kind.code, kind.firstField, kind.metric) == None
  {
    hide Items, Pair;
    ForeignItems(code, kind.code, kind.firstField, body);
    CodeHasNoValue(code);
  }

  // -- Messages with tags

  function TaggedText(code: string, tags: seq<Item>, fields: seq<Item>, stamp: string, tail: string): string {
    code + "," + ItemsText(tags) + " " + ItemsText(fields) + " " + stamp + tail
  }

  /** A message of a code with tags, as it can be printed. */
  predicate TaggedFits(kind: Kind, tags: seq<Item>, fields: seq<Item>, stamp: string, tail: string) {
    && Good(tags) && Good(fields) && EndsPlain(Scrub(tags[|tags| - 1].value))
    && Scrub(fields[0].key) == kind.firstField && stamp != "" && AllDigits(stamp) && IsTail(tail)
    && IsPlain(TaggedText(kind.code, tags, fields, stamp, tail))
  }

  /** The pairs of a message, as its own block reads them. */
  function OwnPairs(kind: Kind, ps: seq<Item>, stamp: string): PluginText.Rec {
    Assign(map["metric" := kind.metric], WithStamp(ps, stamp))
  }

  lemma HasStamp(kind: Kind, ps: seq<Item>, stamp: string)
    ensures "timestamp" in OwnPairs(kind, ps, stamp)
  {
    AssignAppend(map["metric" := kind.metric], ps, Item("timestamp", stamp));
  }

  /** What the block of a message's own code makes of it. */
  lemma {:induction false} OwnOut(m: PlainMessage, kind: Kind, ps: seq<Item>, stamp: string)
    requires KindFrom(m, 0) == Some(kind)
    requires Parsed(m, kind.code, kind.firstField, kind.metric) == Some(OwnPairs(kind, ps, stamp))
    ensures TextOut(m) == Some([TextData(kind, OwnPairs(kind, ps, stamp))])
  {
    hide Items, Assign, TextData, KindFrom, WithStamp;
    HasStamp(kind, ps, stamp);
    assert Items(m, kind.code, kind.firstField) == [] ==> "timestamp" !in map["metric" := kind.metric];
  }

  /**
    A printed message with tags gives the record of its own code, if and only if no mark of an
    earlier code occurs in it; otherwise it raises an exception.
   */
  lemma {:induction false} TaggedIff(i: nat, tags: seq<Item>, fields: seq<Item>, stamp: string, tail: string)
    requires i < |Kinds()| && !Plain(Kinds()[i].1.code)
    requires TaggedFits(Kinds()[i].1, tags, fields, stamp, tail)
    ensures var kind := Kinds()[i].1;
      TextOut(TaggedText(kind.code, tags, fields, stamp, tail)) ==
        if Untaken(TaggedText(kind.code, tags, fields, stamp, tail), i)
        then Some([TextData(kind, OwnPairs(kind, ScrubItems(tags) + ScrubItems(fields), stamp))]) else None
  {
    hide Kinds, Contains, Items, TextData, KindFrom, Parsed, Scrub, IsCode, Good;
    var kind := Kinds()[i].1;
    var m := TaggedText(kind.code, tags, fields, stamp, tail);
    var body := Body(tags, fields, stamp + tail);
    KindsAre();
    CodesAre(i);
    MessageParts(kind.code, tags, fields, stamp, tail);
    ContainsMiddle("", kind.code + ",", body);
    assert "" + (kind.code + ",") + body == m;
    var j := FirstKindFrom(m, i, 0);
    if j == i {
      RoundTrip(kind.code, tags, fields, stamp, tail, kind.metric);
      OwnOut(m, kind, ScrubItems(tags) + ScrubItems(fields), stamp);
    } else {
      CodesAre(j);
      BodyOneLine(tags, fields, stamp, tail);
      ForeignRaises(kind.code, Kinds()[j].1, body);
    }
  }

  const XRAGE_WITH_SAP := "xrage,desc=sap,host=h job_id=1 5"

  lemma XrageWithSap()
    ensures IsPlain(XRAGE_WITH_SAP) && Contains(XRAGE_WITH_SAP, "sap,")
    ensures XRAGE_WITH_SAP == ("xrage" + ",") + "desc=sap,host=h job_id=1 5"
  {
    hide Contains, Kinds;
    var m := XRAGE_WITH_SAP;
    NoLetterF();
    NoLetterL();
    CharMissing(m, "fields", 'f');
    CharMissing(m, ",desc=caliper", 'l');
    ContainsMiddle("xrage,desc=", "sap,", "host=h job_id=1 5");
    assert "xrage,desc=" + "sap," + "host=h job_id=1 5" == m;
  }

  lemma NoLetterF()
    ensures 'f' !in XRAGE_WITH_SAP && 'f' in "fields"
  {
    assert "fields"[0] == 'f';
  }

  lemma NoLetterL()
    ensures 'l' !in XRAGE_WITH_SAP && 'l' in ",desc=caliper"
  {
    assert ",desc=caliper"[8] == 'l';
  }

  lemma MarkOfSap()
    ensures |Kinds()| == 6 && Kinds()[4].0 == "sap," && Kinds()[5].1.code == "xrage"
  {
  }

  lemma NoLineEndIn(body: string)
    requires body == "desc=sap,host=h job_id=1 5"
    ensures forall i | 0 <= i < |body| - 1 :: body[i] != '\n'
  {
  }

  /** An xrage message that holds the mark of sap goes to an earlier block, and raises an exception. */
  lemma XrageTakenForSap()
    ensures IsPlain(XRAGE_WITH_SAP) && TextOut(XRAGE_WITH_SAP) == None
  {
    hide Kinds, Parsed, IsCode, KindFrom, Contains, Items, TextData;
    XrageWithSap();
    MarkOfSap();
    var j := FirstKindFrom(XRAGE_WITH_SAP, 4, 0);
    KindsAre();
    CodesAre(5);
    CodesAre(j);
    NoLineEndIn("desc=sap,host=h job_id=1 5");
    ForeignRaises("xrage", Kinds()[j].1, "desc=sap,host=h job_id=1 5");
  }

  // -- Messages that are one list of fields

  function UntaggedText(code: string, fields: seq<Item>, stamp: string, tail: string): string {
    code + " " + ItemsText(fields) + " " + stamp + tail
  }

  predicate UntaggedFits(kind: Kind, fields: seq<Item>, stamp: string, tail: string) {
    && Good(fields) && stamp != "" && AllDigits(stamp) && IsTail(tail)
    && IsPlain(UntaggedText(kind.code, fields, stamp, tail))
  }

  /** The fields as another block sees them: the code is part of the first key. */
  function WithCode(code: string, ps: seq<Item>): (r: seq<Item>)
    requires ps != []
    ensures |r| == |ps|
  {
    [Item(code + " " + ps[0].key, ps[0].value)] + ps[1..]
  }

  lemma {:induction false} WithCodeText(code: string, ps: seq<Item>)
    requires ps != []
    ensures ItemsText(WithCode(code, ps)) == code + [' '] + ItemsText(ps)
  {
    var p, q, rest := ps[0], WithCode(code, ps)[0], ps[1..];
    assert ItemText(q) == code + [' '] + ItemText(p);
    if rest == [] {
      assert ps == [p] && WithCode(code, ps) == [q];
      ItemsOne(p);
      ItemsOne(q);
    } else {
      assert ps == [p] + rest && WithCode(code, ps) == [q] + rest;
      ItemsCons(p, rest);
      ItemsCons(q, rest);
      assert code + [' '] + (ItemText(p) + [','] + ItemsText(rest)) == (code + [' '] + ItemText(p)) + [','] + ItemsText(rest);
    }
  }

  lemma WithCodeLoose(code: string, ps: seq<Item>)
    requires ps != [] && AllSound(ps) && IsCode(code)
    ensures AllLoose(WithCode(code, ps))
  {
    assert IsSpace('\n');
    var key := code + " " + ps[0].key;
    assert ',' !in key && '=' !in key && '\n' !in key;
  }

  /** What cleaning makes of it before the fields are joined and the stamp is found. */
  lemma {:induction false} UntaggedScrubbed(code: string, other: string, fields: seq<Item>, stamp: string, tail: string)
    requires IsCode(code) && IsCode(other) && code != other && Good(fields) && AllDigits(stamp) && IsTail(tail)
    ensures Scrub(RemovePrefix(UntaggedText(code, fields, stamp, tail), Prefix(other), true)) ==
      ItemsText(WithCode(code, ScrubItems(fields))) + [' '] + (stamp + Rest(tail))
  {
    hide Scrub, RemovePrefix, IsCode, Clean, Good, WithCode, ItemsText, ScrubItems;
    var rest := ItemsText(fields) + [' '] + (stamp + tail);
    UntaggedOneLine(code, fields, stamp, tail);
    OtherPrefixBehindSpace(code, other, rest);
    PrefixStays(code + [' '] + rest, Prefix(other));
    ScrubApart(code, ' ', rest);
    ScrubApart(ItemsText(fields), ' ', stamp + tail);
    CodeClean(code);
    ScrubNothingIff(code);
    FieldsThere(fields);
    ScrubItemsText(fields);
    ScrubEnd(stamp, tail);
    WithCodeText(code, ScrubItems(fields));
    Regroup(code, ItemsText(ScrubItems(fields)), stamp + Rest(tail));
  }

  lemma {:induction false} FieldsThere(fields: seq<Item>)
    requires Good(fields)
    ensures fields != [] && AllSound(fields) && |ScrubItems(fields)| == |fields|
  {
  }

  lemma CodeClean(code: string)
    requires IsCode(code)
    ensures Clean(code) && NoSpaces(code) && code != ""
  {
  }

  lemma Regroup(a: string, x: string, c: string)
    ensures a + [' '] + (x + [' '] + c) == (a + [' '] + x) + [' '] + c
  {
  }

  lemma UntaggedParts(code: string, x: string, stamp: string, tail: string)
    ensures code + " " + x + " " + stamp + tail == (code + [' '] + x + [' ']) + (stamp + tail)
    ensures code + [' '] + (x + [' '] + (stamp + tail)) == (code + [' '] + x + [' ']) + (stamp + tail)
  {
  }

  lemma CodeNoLineEnd(code: string, x: string)
    requires NoSpaces(code) && '\n' !in x
    ensures '\n' !in code + [' '] + x + [' ']
  {
    assert IsSpace('\n');
  }

  lemma {:induction false} UntaggedOneLine(code: string, fields: seq<Item>, stamp: string, tail: string)
    requires IsCode(code) && Good(fields) && AllDigits(stamp) && IsTail(tail)
    ensures var s := code + [' '] + (ItemsText(fields) + [' '] + (stamp + tail));
      s == UntaggedText(code, fields, stamp, tail) && forall i | 0 <= i < |s| - 1 :: s[i] != '\n'
  {
    hide Clean, ItemsText, IsTail;
    var x := ItemsText(fields);
    FieldsThere(fields);
    SoundNoLineEnd(fields);
    CodeNoLineEnd(code, x);
    OneLine(code + [' '] + x + [' '], stamp, tail);
    UntaggedParts(code, x, stamp, tail);
  }

  lemma SameCodeBehindSpace(code: string, other: string, rest: string)
    requires IsCode(code) && IsCode(other) && Prefix(other) <= code + [' '] + rest
    ensures code == other
  {
    hide Clean;
    var s, pat := code + [' '] + rest, Prefix(other);
    var c := pat[|pat| - 1];
    assert pat == other + [c] && (c == ',' || c == ' ') && IsSpace(' ');
    assert s == other + [c] + s[|pat|..];
    SpanIs(s, 0, {',', ' '}, false, |other|);
    SpanIs(s, 0, {',', ' '}, false, |code|);
    assert code == s[..|code|] && other == s[..|other|];
  }

  lemma OtherPrefixBehindSpace(code: string, other: string, rest: string)
    requires IsCode(code) && IsCode(other) && code != other
    ensures !(Prefix(other) <= code + [' '] + rest)
  {
    hide IsCode, Prefix;
    if Prefix(other) <= code + [' '] + rest {
      SameCodeBehindSpace(code, other, rest);
    }
  }

  // -- Such a message in another block

  /** The text of a message in another block, before the fields are joined. */
  function Loosened(code: string, ps: seq<Item>, end: string): string
    requires ps != []
  {
    ItemsText(WithCode(code, ps)) + [' '] + end
  }

  lemma SpacesAre(code: string, p: Item, i: nat)
    requires NoSpaces(code) && NoSpaces(p.key) && '=' !in p.value
    requires var s := code + " " + p.key + "=" + p.value; i < |s| && IsSpace(s[i])
    ensures var s := code + " " + p.key + "=" + p.value; i == |code| || '=' !in s[i + 1..]
  {
    var s, at := code + " " + p.key + "=" + p.value, |code| + 1 + |p.key|;
    assert forall k | 0 <= k < |code| :: s[k] == code[k];
    assert forall k | 0 <= k < |p.key| :: s[|code| + 1 + k] == p.key[k];
    assert s[at] == '=' && !IsSpace('=');
    if i != |code| {
      assert forall k | |code| < k < at :: s[k] == p.key[k - |code| - 1];
      assert s[i + 1..] == p.value[i - at..];
    }
  }

  lemma NotFirst(tail: string, key: string, value: string, firstField: string)
    requires tail == key + ['='] + value && '=' !in key && '=' !in firstField && key != firstField
    ensures !(firstField + "=" <= tail)
  {
    var pat := firstField + "=";
    if pat <= tail {
      SameField(tail, key, value, firstField);
    }
  }

  lemma SameField(tail: string, key: string, value: string, firstField: string)
    requires tail == key + ['='] + value && '=' !in key && '=' !in firstField && firstField + "=" <= tail
    ensures key == firstField
  {
    assert tail == firstField + ['='] + tail[|firstField| + 1..];
    SpanIs(tail, 0, {'='}, false, |key|);
    SpanIs(tail, 0, {'='}, false, |firstField|);
    assert key == tail[..|key|] && firstField == tail[..|firstField|];
  }

  /** Then nothing is joined. */
  lemma {:induction false} NothingJoined(code: string, ps: seq<Item>, firstField: string, end: string)
    requires NoSpaces(code) && ps != [] && AllSound(ps) && '=' !in end
    requires ',' !in firstField && '=' !in firstField && firstField != ps[0].key
    ensures Join(Loosened(code, ps, end), firstField + "=") == Loosened(code, ps, end)
  {
    hide Join, Quiet, ItemsText;
    var qs := Extend(ps, [' '] + end);
    var pat, q, rest := firstField + "=", qs[0], qs[1..];
    ExtendText(WithCode(code, ps), [' '] + end);
    assert Extend(WithCode(code, ps), [' '] + end) == WithCode(code, qs);
    Together(ItemsText(WithCode(code, ps)), end);
    var first := WithCode(code, qs)[0];
    assert ItemText(first) == code + " " + q.key + "=" + q.value;
    QuietWhenExtended(code, ps, q, firstField, end);
    JoinQuiet(ItemText(first), pat);
    if rest == [] {
      assert WithCode(code, qs) == [first];
      ItemsOne(first);
    } else {
      assert WithCode(code, qs) == [first] + rest;
      ItemsCons(first, rest);
      JoinItems(rest, pat);
      JoinApart(ItemText(first), ',', ItemsText(rest), pat);
    }
  }

  lemma Together(a: string, end: string)
    ensures a + ([' '] + end) == a + [' '] + end
  {
  }

  lemma QuietWhenExtended(code: string, ps: seq<Item>, q: Item, firstField: string, end: string)
    requires NoSpaces(code) && ps != [] && AllSound(ps) && '=' !in end && '=' !in firstField && firstField != ps[0].key
    requires q == Extend(ps, [' '] + end)[0]
    ensures Quiet(code + " " + q.key + "=" + q.value, firstField + "=")
    ensures Joinable(Extend(ps, [' '] + end)[1..])
  {
    assert q.key == ps[0].key && '=' !in q.value;
    ValueQuiet(code, q, firstField);
  }

  /** The value may have anything but an equals sign. */
  lemma ValueQuiet(code: string, q: Item, firstField: string)
    requires NoSpaces(code) && NoSpaces(q.key) && '=' !in q.key && '=' !in q.value
    requires '=' !in firstField && firstField != q.key
    ensures Quiet(code + " " + q.key + "=" + q.value, firstField + "=")
  {
    var s, pat := code + " " + q.key + "=" + q.value, firstField + "=";
    forall i | 0 <= i < |s| && IsSpace(s[i]) ensures !(pat <= s[i + 1..]) {
      SpacesAre(code, q, i);
      var tail := s[i + 1..];
      if i == |code| {
        assert tail == q.key + ['='] + q.value;
        NotFirst(tail, q.key, q.value, firstField);
      } else {
        assert pat[|pat| - 1] == '=';
        PrefixIn(tail, pat, '=');
      }
    }
  }

  /** In a block whose first field the message starts with, the code is cut off and has no value. */
  lemma JoinedAtFirst(code: string, ps: seq<Item>, end: string)
    requires NoSpaces(code) && code != "" && ps != [] && AllSound(ps) && '=' !in end
    ensures var s := Join(Loosened(code, ps, end), ps[0].key + "=");
      s == code + [','] + (ps[0].key + "=" + Behind(Extend(ps, [' '] + end)))
  {
    hide Join, Quiet, ItemsText, Behind, Extend;
    var qs, pat := Extend(ps, [' '] + end), ps[0].key + "=";
    WithCodeText(code, ps);
    ExtendText(ps, [' '] + end);
    BehindText(qs);
    ExtendKeeps(ps, [' '] + end);
    Onwards(code, ItemsText(ps), end);
    var b := Behind(qs);
    assert ItemsText(qs) == pat + b;
    SpacelessQuiet(code, pat);
    JoinHere(code, b, pat);
    JoinBehind(qs, pat);
    assert code + "," + pat + b == code + [','] + (pat + b);
  }

  lemma Onwards(code: string, x: string, end: string)
    ensures (code + [' '] + x) + [' '] + end == code + [' '] + (x + ([' '] + end))
  {
  }

  lemma ExtendKeeps(ps: seq<Item>, suffix: string)
    requires ps != [] && AllSound(ps) && '=' !in suffix
    ensures var qs := Extend(ps, suffix);
      qs != [] && Joinable(qs) && qs[0].key == ps[0].key && EndsPlain(ps[0].key + "=") && IsPat(ps[0].key + "=") && NoSpaces(ps[0].key + "=")
  {
  }

  /** The items of a message in a block of another code: either its pairs with the code in the first key, or the code alone first. */
  lemma {:induction false} ForeignUntagged(code: string, kind: Kind, fields: seq<Item>, stamp: string, tail: string)
    requires IsCode(code) && IsCode(kind.code) && code != kind.code && ',' !in kind.firstField && '=' !in kind.firstField
    requires Good(fields) && stamp != "" && AllDigits(stamp) && IsTail(tail)
    ensures var p := Parsed(UntaggedText(code, fields, stamp, tail), kind.code, kind.firstField, kind.metric);
      p == None || p == Some(OwnPairs(kind, WithCode(code, ScrubItems(fields)), stamp))
  {
    hide IsCode, Scrub, RemovePrefix, Join, StampLines, Pairs, Assign, Good, ItemsText, Clean;
    var ps, end := ScrubItems(fields), stamp + Rest(tail);
    ScrubGood(fields);
    FieldsThere(fields);
    CodeClean(code);
    ScrubEnd(stamp, tail);
    UntaggedScrubbed(code, kind.code, fields, stamp, tail);
    EndNoEquals(stamp, tail);
    if !Plain(kind.code) && ps[0].key == kind.firstField {
      JoinedAtFirst(code, ps, end);
      CutOffRaises(code, kind, UntaggedText(code, fields, stamp, tail), kind.firstField + "=" + Behind(Extend(ps, [' '] + end)));
    } else {
      if !Plain(kind.code) {
        NothingJoined(code, ps, kind.firstField, end);
      }
      WithCodeLoose(code, ps);
      CleanedBack(map["metric" := kind.metric], WithCode(code, ps), stamp, Rest(tail));
    }
  }

  lemma EndNoEquals(stamp: string, tail: string)
    requires AllDigits(stamp) && IsTail(tail)
    ensures '=' !in stamp + Rest(tail)
  {
    assert !IsDigit('=');
  }

  lemma {:induction false} CutOffRaises(code: string, kind: Kind, m: string, y: string)
    requires IsCode(code) && Cleaned(m, kind.code, kind.firstField) == StampLines(code + [','] + y)
    ensures Parsed(m, kind.code, kind.firstField, kind.metric) == None
  {
    hide Cleaned, Pair, StampLines, IsCode;
    CodeClean(code);
    NoComma(code);
    var z := StampBehind(code, y);
    SplitCons(code, ',', z);
    KeepsFirst([code] + SplitOn(z, ','));
    CodeHasNoValue(code);
  }

  lemma NoComma(code: string)
    requires IsCode(code)
    ensures ',' !in code
  {
  }

  // -- The two records differ

  /** Blocks do not touch a field with a space in its key. */
  lemma SpacedKept(i: nat, d: Data, key: string)
    requires i < 4 && ' ' in key
    ensures |Kinds()| == 6 && Get(Fields(Kinds()[i].1.code, d), key) == Get(d, key)
  {
    hide Fields;
    LapAt(d, key);
    PoissonAt(d, key);
    JayenneAt(d, key);
    McatkAt(d, key);
    LapKeysSpaceless();
    LongKeysSpaceless();
    ShortKeysSpaceless();
  }

  /** None of their own fields has one. */
  lemma LapKeysSpaceless()
    ensures ' ' !in "tot-time_cycles-1" && ' ' !in "number_of_cycles-1" && ' ' !in "tot_time_cycles_1" && ' ' !in "number_of_cycles_1"
  {
  }

  lemma LongKeysSpaceless()
    ensures forall k | k in ["adjusted_runtime", "total_number_of_zones", "total_number_of_processors", "jobid", "cpu", "cycle_time"] :: ' ' !in k
  {
  }

  lemma ShortKeysSpaceless()
    ensures forall k | k in ["numpe", "cycles", "cells", "nodes", "ppn", "runtime", "n_cores", "n_particles", "total_solve_time"] :: ' ' !in k
  {
  }

  lemma DataAt(i: nat, rec: PluginText.Rec, key: string)
    requires i < 4 && ' ' in key
    ensures |Kinds()| == 6 && Get(TextData(Kinds()[i].1, rec), key) == if key in rec then Text(rec[key]) else Nil
  {
    hide Fields, Kinds;
    SpacedKept(i, AsTexts(rec), key);
    assert ' ' !in "timestamp";
  }

  lemma InForeign(kind: Kind, code: string, ps: seq<Item>, stamp: string)
    requires ps != []
    ensures code + " " + ps[0].key in OwnPairs(kind, WithCode(code, ps), stamp)
  {
    hide Assign;
    var qs, key := WithStamp(WithCode(code, ps), stamp), code + " " + ps[0].key;
    assert qs[0].key == key;
    LastWins(map["metric" := kind.metric], qs, key);
  }

  lemma NotInOwn(kind: Kind, ps: seq<Item>, stamp: string, key: string)
    requires AllSound(ps) && ' ' in key
    ensures key !in OwnPairs(kind, ps, stamp)
  {
    hide Assign;
    assert IsSpace(' ') && ' ' !in "timestamp" && ' ' !in "metric";
    LastWins(map["metric" := kind.metric], WithStamp(ps, stamp), key);
  }

  lemma SpacedDiffer(i: nat, j: nat, ps: seq<Item>, stamp: string)
    requires i < 4 && j < 4 && |Kinds()| == 6 && ps != [] && AllSound(ps)
    ensures var own, other := Kinds()[i].1, Kinds()[j].1;
      TextData(own, OwnPairs(own, ps, stamp)) != TextData(other, OwnPairs(other, WithCode(own.code, ps), stamp))
  {
    hide TextData, Assign, Kinds;
    var own, other := Kinds()[i].1, Kinds()[j].1;
    var key := own.code + " " + ps[0].key;
    assert key[|own.code|] == ' ';
    InForeign(other, own.code, ps, stamp);
    NotInOwn(own, ps, stamp, key);
    DataAt(i, OwnPairs(own, ps, stamp), key);
    DataAt(j, OwnPairs(other, WithCode(own.code, ps), stamp), key);
  }

  lemma PlainKindsAre(i: nat)
    requires i < |Kinds()| && Plain(Kinds()[i].1.code)
    ensures i == 1 || i == 3
  {
  }

  lemma FirstFieldsAre(i: nat)
    requires i < |Kinds()|
    ensures '=' !in Kinds()[i].1.firstField
  {
    var ks := Kinds();
    assert |ks| == 6;
  }

  /**
    A printed message that is one list of fields gives the record of its own code, if and only
    if no mark of an earlier code occurs in it.
   */
  lemma {:induction false} UntaggedIff(i: nat, fields: seq<Item>, stamp: string, tail: string)
    requires i < |Kinds()| && Plain(Kinds()[i].1.code) && UntaggedFits(Kinds()[i].1, fields, stamp, tail)
    ensures var kind := Kinds()[i].1;
      var m := UntaggedText(kind.code, fields, stamp, tail);
      TextOut(m) == Some([TextData(kind, OwnPairs(kind, ScrubItems(fields), stamp))]) <==> Untaken(m, i)
  {
    hide Kinds, Contains, Items, TextData, KindFrom, Parsed, Scrub, IsCode, Good, Assign;
    var kind := Kinds()[i].1;
    var m, ps := UntaggedText(kind.code, fields, stamp, tail), ScrubItems(fields);
    KindsAre();
    CodesAre(i);
    PlainKindsAre(i);
    UntaggedOneLine(kind.code, fields, stamp, tail);
    var rest := ItemsText(fields) + [' '] + (stamp + tail);
    ContainsMiddle("", kind.code + " ", rest);
    assert "" + (kind.code + " ") + rest == m;
    var j := FirstKindFrom(m, i, 0);
    if j == i {
      RoundTripPlain(kind.code, fields, stamp, tail, kind.metric, kind.firstField);
      OwnOut(m, kind, ps, stamp);
    } else {
      CodesAre(j);
      FirstFieldsAre(j);
      ForeignUntagged(kind.code, Kinds()[j].1, fields, stamp, tail);
      ForeignDiffers(i, j, m, fields, stamp);
    }
  }

  lemma {:induction false} ForeignDiffers(i: nat, j: nat, m: PlainMessage, fields: seq<Item>, stamp: string)
    requires i < 4 && j < 4 && |Kinds()| == 6 && Good(fields) && KindFrom(m, 0) == Some(Kinds()[j].1)
    requires var kind, other := Kinds()[i].1, Kinds()[j].1;
      var p := Parsed(m, other.code, other.firstField, other.metric);
      p == None || p == Some(OwnPairs(other, WithCode(kind.code, ScrubItems(fields)), stamp))
    ensures var kind := Kinds()[i].1;
      TextOut(m) != Some([TextData(kind, OwnPairs(kind, ScrubItems(fields), stamp))])
  {
    hide Kinds, Items, TextData, KindFrom, Parsed, Scrub, Good, Assign;
    var kind, other := Kinds()[i].1, Kinds()[j].1;
    ScrubGood(fields);
    if Parsed(m, other.code, other.firstField, other.metric) != None {
      OwnOut(m, other, WithCode(kind.code, ScrubItems(fields)), stamp);
      SpacedDiffer(i, j, ScrubItems(fields), stamp);
    }
  }
}
