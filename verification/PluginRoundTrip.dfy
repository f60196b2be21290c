/**
  Messages of the form `code,tags fields stamp` come back from cleaning and splitting as
  the pairs they were made of.
 */
module PluginRoundTrip {
  import opened CStrings
  import opened Numbers
  import opened Options
  import opened PluginText

  datatype Item = Item(key: string, value: string)

  function ItemText(p: Item): string {
    p.key + "=" + p.value
  }

  /** `k=v,k=v,...` */
  function ItemsText(ps: seq<Item>): string {
    if ps == [] then "" else
      ItemText(ps[0]) + if |ps| == 1 then "" else "," + ItemsText(ps[1..])
  }

  // -- Scrubbing goes part by part

  lemma Push(front: string, a: string, c: char, b: string)
    ensures front + (a + [c] + b) == (front + a) + [c] + b
  {
  }

  lemma {:induction false} RemoveApart(a: string, c: char, b: string, pat: string)
    requires pat != "" && c !in pat
    ensures RemoveAll(a + [c] + b, pat) == RemoveAll(a, pat) + [c] + RemoveAll(b, pat)
    decreases |a|
  {
    var s := a + [c] + b;
    if a == "" {
      assert s[0] == c && s[1..] == b;
    } else {
      PrefixApart(a, c, b, pat);
      if pat <= a {
        assert s[|pat|..] == a[|pat|..] + [c] + b;
        RemoveApart(a[|pat|..], c, b, pat);
      } else {
        assert s[1..] == a[1..] + [c] + b;
        RemoveApart(a[1..], c, b, pat);
        Push([a[0]], RemoveAll(a[1..], pat), c, RemoveAll(b, pat));
      }
    }
  }

  /** A pattern without `c` that is at the start of a text ends before the first `c`. */
  lemma PrefixApart(a: string, c: char, b: string, pat: string)
    requires c !in pat
    ensures pat <= a + [c] + b <==> pat <= a
  {
    var s := a + [c] + b;
    if pat <= s {
      assert forall k | 0 <= k < |pat| :: s[k] == pat[k];
      assert s[|a|] == c;
      assert pat == s[..|pat|] == a[..|pat|];
    }
  }

  lemma ScrubApart(a: string, c: char, b: string)
    requires c == ',' || c == '=' || c == ' '
    ensures Scrub(a + [c] + b) == Scrub(a) + [c] + Scrub(b)
  {
    RemoveApart(a, c, b, ".localdomain");
    var a1, b1 := RemoveAll(a, ".localdomain"), RemoveAll(b, ".localdomain");
    RemoveApart(a1, c, b1, ".lanl.gov");
    var a2, b2 := RemoveAll(a1, ".lanl.gov"), RemoveAll(b1, ".lanl.gov");
    RemoveApart(a2, c, b2, "\\");
    RemoveApart(RemoveAll(a2, "\\"), c, RemoveAll(b2, "\\"), "\"");
  }

  lemma {:induction false} RemoveNothing(s: string, pat: string)
    requires pat != "" && pat[0] !in s
    ensures RemoveAll(s, pat) == s
  {
    if s != "" {
      assert s[0] != pat[0];
      RemoveNothing(s[1..], pat);
    }
  }

  lemma ContainsTail(s: string, pat: string)
    requires s != "" && pat != ""
    ensures Contains(s, pat) <==> pat <= s || Contains(s[1..], pat)
  {
    if Contains(s, pat) {
      var i: nat :| i <= |s| && ContainsAt(s, pat, i);
      if i > 0 {
        assert s[1..][i - 1..i - 1 + |pat|] == s[i..i + |pat|];
        assert ContainsAt(s[1..], pat, i - 1);
      }
    }
    if pat <= s {
      assert s[0..|pat|] == pat;
      assert ContainsAt(s, pat, 0);
    }
    if Contains(s[1..], pat) {
      var i: nat :| i <= |s[1..]| && ContainsAt(s[1..], pat, i);
      assert s[i + 1..i + 1 + |pat|] == s[1..][i..i + |pat|];
      assert ContainsAt(s, pat, i + 1);
    }
  }

  /** Removing a text leaves everything if it does not occur, and makes it shorter if it does. */
  lemma {:induction false} RemoveIff(s: string, pat: string)
    requires pat != ""
    ensures if Contains(s, pat) then |RemoveAll(s, pat)| < |s| else RemoveAll(s, pat) == s
  {
    hide Contains;
    if s == "" {
      NotInEmpty(pat);
    } else {
      ContainsTail(s, pat);
      if pat <= s {
        RemoveIff(s[|pat|..], pat);
      } else {
        RemoveIff(s[1..], pat);
      }
    }
  }

  lemma NotInEmpty(pat: string)
    requires pat != ""
    ensures !Contains("", pat)
  {
  }

  lemma CharContained(s: string, pat: string)
    requires |pat| == 1
    ensures Contains(s, pat) <==> pat[0] in s
  {
    if Contains(s, pat) {
      var i: nat :| i <= |s| && ContainsAt(s, pat, i);
      assert s[i] == s[i..i + 1][0] == pat[0];
    }
    if pat[0] in s {
      var i: nat :| i < |s| && s[i] == pat[0];
      assert s[i..i + 1] == pat;
      assert ContainsAt(s, pat, i);
    }
  }

  /** There is nothing in the text that cleaning takes out. */
  predicate Clean(s: string) {
    !Contains(s, ".localdomain") && !Contains(s, ".lanl.gov") && '\\' !in s && '\"' !in s
  }

  /** Scrubbing leaves a text as it is if and only if neither of the two domains, no backslash and no quote is in it. */
  lemma ScrubNothingIff(s: string)
    ensures Scrub(s) == s <==> Clean(s)
  {
    hide Contains, RemoveAll;
    var s1 := RemoveAll(s, ".localdomain");
    var s2 := RemoveAll(s1, ".lanl.gov");
    var s3 := RemoveAll(s2, "\\");
    RemoveIff(s, ".localdomain");
    RemoveIff(s1, ".lanl.gov");
    RemoveIff(s2, "\\");
    RemoveIff(s3, "\"");
    CharContained(s2, "\\");
    CharContained(s3, "\"");
  }

  lemma {:induction false} RemoveAdds(s: string, pat: string)
    requires pat != ""
    ensures forall c | c in RemoveAll(s, pat) :: c in s
  {
    if s != "" {
      if pat <= s {
        RemoveAdds(s[|pat|..], pat);
      } else {
        RemoveAdds(s[1..], pat);
      }
    }
  }

  /** Scrubbing adds no characters. */
  lemma ScrubAdds(s: string)
    ensures forall c | c in Scrub(s) :: c in s
  {
    RemoveAdds(s, ".localdomain");
    RemoveAdds(RemoveAll(s, ".localdomain"), ".lanl.gov");
    var t := RemoveAll(RemoveAll(s, ".localdomain"), ".lanl.gov");
    RemoveAdds(t, "\\");
    RemoveAdds(RemoveAll(t, "\\"), "\"");
  }

  function ScrubItems(ps: seq<Item>): (r: seq<Item>)
    ensures |r| == |ps|
    ensures forall i | 0 <= i < |ps| :: r[i] == Item(Scrub(ps[i].key), Scrub(ps[i].value))
  {
    if ps == [] then [] else [Item(Scrub(ps[0].key), Scrub(ps[0].value))] + ScrubItems(ps[1..])
  }

  lemma {:induction false} ItemsCons(p: Item, ps: seq<Item>)
    requires ps != []
    ensures ItemsText([p] + ps) == ItemText(p) + [','] + ItemsText(ps)
  {
    assert ([p] + ps)[1..] == ps;
  }

  lemma ItemsOne(p: Item)
    ensures ItemsText([p]) == ItemText(p)
  {
  }

  lemma ScrubItem(p: Item)
    ensures Scrub(ItemText(p)) == ItemText(Item(Scrub(p.key), Scrub(p.value)))
  {
    assert ItemText(p) == p.key + ['='] + p.value;
    ScrubApart(p.key, '=', p.value);
  }

  lemma {:induction false} ScrubItemsText(ps: seq<Item>)
    requires ps != []
    ensures Scrub(ItemsText(ps)) == ItemsText(ScrubItems(ps))
  {
    var p, rest := ps[0], ps[1..];
    ScrubItem(p);
    if rest == [] {
      assert ps == [p];
      ItemsOne(p);
      ItemsOne(ScrubItems(ps)[0]);
    } else {
      assert ps == [p] + rest;
      ItemsCons(p, rest);
      ScrubApart(ItemText(p), ',', ItemsText(rest));
      ScrubItemsText(rest);
      ItemsCons(Item(Scrub(p.key), Scrub(p.value)), ScrubItems(rest));
    }
  }

  // -- Joining the fields to the tags

  predicate NoSpaces(s: string) {
    forall i | 0 <= i < |s| :: !IsSpace(s[i])
  }

  /** Nowhere in `s` is white space directly before `pat`. */
  predicate Quiet(s: string, pat: string) {
    forall i | 0 <= i < |s| && IsSpace(s[i]) :: !(pat <= s[i + 1..])
  }

  lemma SkipSpacesWhere(s: string) returns (i: nat)
    requires s != "" && IsSpace(s[0])
    ensures i < |s| && IsSpace(s[i]) && SkipSpaces(s) == s[i + 1..]
  {
    if |s| == 1 || !IsSpace(s[1]) {
      i := 0;
    } else {
      var j := SkipSpacesWhere(s[1..]);
      i := j + 1;
      assert s[1..][j + 1..] == s[i + 1..];
    }
  }

  lemma QuietTail(s: string, pat: string)
    requires Quiet(s, pat) && s != ""
    ensures Quiet(s[1..], pat)
  {
    forall i | 0 <= i < |s| - 1 && IsSpace(s[1..][i]) ensures !(pat <= s[1..][i + 1..]) {
      assert IsSpace(s[i + 1]) && s[1..][i + 1..] == s[i + 2..];
    }
  }

  lemma {:induction false} JoinQuiet(s: string, pat: string)
    requires pat != "" && Quiet(s, pat)
    ensures Join(s, pat) == s
    decreases |s|
  {
    if s != "" {
      if IsSpace(s[0]) {
        var i := SkipSpacesWhere(s);
      }
      QuietTail(s, pat);
      JoinQuiet(s[1..], pat);
    }
  }

  lemma {:induction false} SkipSpacesApart(a: string, c: char, b: string)
    requires !IsSpace(c)
    ensures SkipSpaces(a + [c] + b) == SkipSpaces(a) + [c] + b
  {
    var s := a + [c] + b;
    if a != "" {
      assert s[1..] == a[1..] + [c] + b;
      SkipSpacesApart(a[1..], c, b);
    }
  }

  lemma {:induction false} JoinApartStep(a: string, c: char, b: string, pat: string, s: string)
    requires pat != "" && c !in pat && !IsSpace(c) && a != "" && s == a + [c] + b
    ensures SkipSpaces(s) == SkipSpaces(a) + [c] + b && s[1..] == a[1..] + [c] + b
    ensures pat <= SkipSpaces(s) <==> pat <= SkipSpaces(a)
  {
    SkipSpacesApart(a, c, b);
    PrefixApart(SkipSpaces(a), c, b, pat);
  }

  lemma {:induction false} JoinApart(a: string, c: char, b: string, pat: string)
    requires pat != "" && c !in pat && !IsSpace(c)
    ensures Join(a + [c] + b, pat) == Join(a, pat) + [c] + Join(b, pat)
    decreases |a|
  {
    var s := a + [c] + b;
    if a == "" {
      assert s[0] == c && s[1..] == b;
    } else {
      JoinApartStep(a, c, b, pat, s);
      var rest := SkipSpaces(a);
      if IsSpace(a[0]) && pat <= rest {
        assert SkipSpaces(s)[|pat|..] == rest[|pat|..] + [c] + b;
        JoinApart(rest[|pat|..], c, b, pat);
        Push("," + pat, Join(rest[|pat|..], pat), c, Join(b, pat));
      } else {
        JoinApart(a[1..], c, b, pat);
        Push([a[0]], Join(a[1..], pat), c, Join(b, pat));
      }
    }
  }

  predicate EndsPlain(s: string) {
    s != "" && !IsSpace(s[|s| - 1])
  }

  lemma {:induction false} SkipSpacesOn(a: string, b: string)
    requires EndsPlain(a)
    ensures SkipSpaces(a + b) == SkipSpaces(a) + b && EndsPlain(SkipSpaces(a))
  {
    if IsSpace(a[0]) {
      assert (a + b)[1..] == a[1..] + b;
      SkipSpacesOn(a[1..], b);
    }
  }

  lemma {:induction false} JoinHereStep(a: string, b: string, pat: string, s: string)
    requires pat != "" && NoSpaces(pat) && Quiet(a, pat) && EndsPlain(a)
    requires s == a + [' '] + (pat + b)
    ensures Join(s, pat) == [a[0]] + Join(s[1..], pat) && s[1..] == a[1..] + [' '] + (pat + b)
  {
    hide SkipSpaces;
    assert s == a + ([' '] + (pat + b));
    if IsSpace(a[0]) {
      SkipSpacesOn(a, [' '] + (pat + b));
      var rest := SkipSpaces(a);
      assert SkipSpaces(s) == rest + [' '] + (pat + b);
      assert ' ' !in pat;
      PrefixApart(rest, ' ', pat + b, pat);
      var i := SkipSpacesWhere(a);
    }
  }

  /** Where the fields start, the space becomes a comma. */
  lemma {:induction false} JoinHereFirst(b: string, pat: string)
    requires pat != "" && NoSpaces(pat)
    ensures Join("" + [' '] + (pat + b), pat) == "," + pat + Join(b, pat)
  {
    var s := "" + [' '] + (pat + b);
    assert s[0] == ' ' && s[1..] == pat + b;
    assert !IsSpace((pat + b)[0]) && SkipSpaces(s) == pat + b && (pat + b)[|pat|..] == b;
  }

  lemma {:induction false} JoinHere(a: string, b: string, pat: string)
    requires pat != "" && NoSpaces(pat) && Quiet(a, pat) && (a == "" || EndsPlain(a))
    ensures Join(a + [' '] + (pat + b), pat) == a + "," + pat + Join(b, pat)
    decreases |a|
  {
    hide Join, SkipSpaces;
    var s := a + [' '] + (pat + b);
    if a == "" {
      JoinHereFirst(b, pat);
    } else {
      JoinHereStep(a, b, pat, s);
      QuietTail(a, pat);
      JoinHere(a[1..], b, pat);
      assert [a[0]] + (a[1..] + "," + pat + Join(b, pat)) == a + "," + pat + Join(b, pat);
    }
  }

  // -- Items

  /** Neither part has a comma, an equals sign or a line end, and there is a value. */
  predicate Loose(p: Item) {
    && ',' !in p.key && '=' !in p.key && '\n' !in p.key
    && ',' !in p.value && '=' !in p.value && '\n' !in p.value
    && p.value != ""
  }

  /** The key has no white space either. */
  predicate Sound(p: Item) {
    Loose(p) && NoSpaces(p.key)
  }

  predicate AllLoose(ps: seq<Item>) {
    forall i | 0 <= i < |ps| :: Loose(ps[i])
  }

  predicate AllSound(ps: seq<Item>) {
    forall i | 0 <= i < |ps| :: Sound(ps[i])
  }

  /** What ends in an equals sign. */
  predicate IsPat(pat: string) {
    pat != "" && pat[|pat| - 1] == '=' && ',' !in pat
  }

  lemma PrefixIn(s: string, pat: string, c: char)
    ensures pat <= s && c in pat ==> c in s
  {
    if pat <= s && c in pat {
      var k :| 0 <= k < |pat| && pat[k] == c;
      assert s[k] == c;
    }
  }

  lemma NoEqualsQuiet(s: string, pat: string)
    requires '=' !in s && IsPat(pat)
    ensures Quiet(s, pat)
  {
    forall i | 0 <= i < |s| && IsSpace(s[i]) ensures !(pat <= s[i + 1..]) {
      assert '=' in pat && '=' !in s[i + 1..];
      PrefixIn(s[i + 1..], pat, '=');
    }
  }

  /** White space directly before `pat` would have to be inside the key. */
  lemma ItemQuiet(p: Item, pat: string)
    requires NoSpaces(p.key) && '=' !in p.value && IsPat(pat)
    ensures Quiet(ItemText(p), pat)
  {
    var s := ItemText(p);
    assert '=' in pat;
    forall i | 0 <= i < |s| && IsSpace(s[i]) ensures !(pat <= s[i + 1..]) {
      assert i > |p.key|;
      assert s[i + 1..] == p.value[i - |p.key|..];
      PrefixIn(s[i + 1..], pat, '=');
    }
  }

  predicate Joinable(ps: seq<Item>) {
    forall i | 0 <= i < |ps| :: NoSpaces(ps[i].key) && '=' !in ps[i].value
  }

  lemma {:induction false} JoinItems(ps: seq<Item>, pat: string)
    requires Joinable(ps) && IsPat(pat)
    ensures Join(ItemsText(ps), pat) == ItemsText(ps)
  {
    if ps != [] {
      var p, rest := ps[0], ps[1..];
      ItemQuiet(p, pat);
      JoinQuiet(ItemText(p), pat);
      if rest == [] {
        assert ps == [p];
        ItemsOne(p);
      } else {
        assert ps == [p] + rest;
        ItemsCons(p, rest);
        JoinItems(rest, pat);
        JoinApart(ItemText(p), ',', ItemsText(rest), pat);
      }
    }
  }

  lemma {:induction false} ItemsConcat(ps: seq<Item>, qs: seq<Item>)
    requires ps != [] && qs != []
    ensures ItemsText(ps + qs) == ItemsText(ps) + [','] + ItemsText(qs)
  {
    var p, rest := ps[0], ps[1..];
    assert ps + qs == [p] + (rest + qs);
    ItemsCons(p, rest + qs);
    if rest == [] {
      assert ps == [p] && rest + qs == qs;
      ItemsOne(p);
    } else {
      assert ps == [p] + rest;
      ItemsCons(p, rest);
      ItemsConcat(rest, qs);
    }
  }

  lemma {:induction false} TagsCons(p: Item, rest: seq<Item>, b: string, pat: string)
    requires rest != []
    ensures ItemsText([p] + rest) + [' '] + (pat + b) == ItemText(p) + [','] + (ItemsText(rest) + [' '] + (pat + b))
    ensures ItemsText([p] + rest) + "," + pat + b == ItemText(p) + [','] + (ItemsText(rest) + "," + pat + b)
  {
    ItemsCons(p, rest);
  }

  /** The tags, the space, and fields that start with `pat`. */
  lemma {:induction false} JoinTags(tags: seq<Item>, b: string, pat: string)
    requires tags != [] && Joinable(tags) && EndsPlain(tags[|tags| - 1].value)
    requires IsPat(pat) && NoSpaces(pat) && Join(b, pat) == b
    ensures Join(ItemsText(tags) + [' '] + (pat + b), pat) == ItemsText(tags) + "," + pat + b
  {
    var p, rest := tags[0], tags[1..];
    ItemQuiet(p, pat);
    if rest == [] {
      assert tags == [p];
      ItemsOne(p);
      JoinHere(ItemText(p), b, pat);
    } else {
      assert tags == [p] + rest;
      TagsCons(p, rest, b, pat);
      JoinQuiet(ItemText(p), pat);
      JoinApart(ItemText(p), ',', ItemsText(rest) + [' '] + (pat + b), pat);
      JoinTags(rest, b, pat);
    }
  }

  /** The items with something added to the last value. */
  function Extend(ps: seq<Item>, suffix: string): (r: seq<Item>)
    requires ps != []
    ensures |r| == |ps|
  {
    ps[|ps| - 1 := Item(ps[|ps| - 1].key, ps[|ps| - 1].value + suffix)]
  }

  lemma {:induction false} ExtendText(ps: seq<Item>, suffix: string)
    requires ps != []
    ensures ItemsText(Extend(ps, suffix)) == ItemsText(ps) + suffix
  {
    var p, rest := ps[0], ps[1..];
    if rest == [] {
      assert ps == [p] && Extend(ps, suffix) == [Item(p.key, p.value + suffix)];
      ItemsOne(p);
      ItemsOne(Item(p.key, p.value + suffix));
    } else {
      assert ps == [p] + rest && Extend(ps, suffix) == [p] + Extend(rest, suffix);
      ItemsCons(p, rest);
      ItemsCons(p, Extend(rest, suffix));
      ExtendText(rest, suffix);
    }
  }

  /** Items without the key of the first. */
  function Behind(ps: seq<Item>): string
    requires ps != []
  {
    if |ps| == 1 then ps[0].value else ps[0].value + [','] + ItemsText(ps[1..])
  }

  lemma {:induction false} BehindText(ps: seq<Item>)
    requires ps != []
    ensures ItemsText(ps) == (ps[0].key + "=") + Behind(ps)
  {
  }

  lemma {:induction false} JoinBehind(ps: seq<Item>, pat: string)
    requires ps != [] && Joinable(ps) && IsPat(pat)
    ensures Join(Behind(ps), pat) == Behind(ps)
  {
    var value, rest := ps[0].value, ps[1..];
    NoEqualsQuiet(value, pat);
    JoinQuiet(value, pat);
    if rest != [] {
      JoinItems(rest, pat);
      JoinApart(value, ',', ItemsText(rest), pat);
    }
  }

  lemma Assoc(a: string, b: string, c: string)
    ensures a + "," + b + c == a + [','] + (b + c)
  {
  }

  lemma {:induction false} JoinTwoLists(tags: seq<Item>, fields: seq<Item>)
    requires tags != [] && Joinable(tags) && EndsPlain(tags[|tags| - 1].value)
    requires fields != [] && Joinable(fields) && ',' !in fields[0].key
    ensures Join(ItemsText(tags) + [' '] + ItemsText(fields), fields[0].key + "=") == ItemsText(tags + fields)
  {
    var pat := fields[0].key + "=";
    BehindText(fields);
    JoinBehind(fields, pat);
    JoinTags(tags, Behind(fields), pat);
    ItemsConcat(tags, fields);
    Assoc(ItemsText(tags), pat, Behind(fields));
  }

  /** Tags and fields become one list; what follows the fields stays. */
  lemma {:induction false} JoinAll(tags: seq<Item>, fields: seq<Item>, suffix: string)
    requires tags != [] && Joinable(tags) && EndsPlain(tags[|tags| - 1].value)
    requires fields != [] && Joinable(fields) && ',' !in fields[0].key && '=' !in suffix
    ensures Join(ItemsText(tags) + [' '] + (ItemsText(fields) + suffix), fields[0].key + "=") == ItemsText(tags + fields) + suffix
  {
    var more := Extend(fields, suffix);
    ExtendText(fields, suffix);
    JoinTwoLists(tags, more);
    assert tags + more == Extend(tags + fields, suffix);
    ExtendText(tags + fields, suffix);
  }

  // -- The time stamp

  lemma {:induction false} LastStampIs(line: string, i: nat)
    requires i + 1 < |line| && line[i] == ' ' && IsDigit(line[i + 1])
    requires forall j | i < j < |line| :: line[j] != ' '
    ensures LastStamp(line, 0) == i
  {
  }

  lemma {:induction false} LeadingDigitsOf(d: string, rest: string)
    requires AllDigits(d) && (rest == "" || !IsDigit(rest[0]))
    ensures LeadingDigits(d + rest) == |d|
  {
    if d != "" {
      assert (d + rest)[1..] == d[1..] + rest;
      LeadingDigitsOf(d[1..], rest);
    }
  }

  lemma StampBack(x: string, d: string, rest: string)
    requires d != "" && AllDigits(d) && (rest == "" || !IsDigit(rest[0])) && ' ' !in rest
    ensures StampLine(x + [' '] + (d + rest)) == x + ",timestamp=" + d
  {
    var line := x + [' '] + (d + rest);
    forall j | |x| < j < |line| ensures line[j] != ' ' {
      assert line[j] == (d + rest)[j - |x| - 1];
      assert !IsDigit(' ');
    }
    LastStampIs(line, |x|);
    assert line[|x| + 1..] == d + rest && line[..|x|] == x;
    LeadingDigitsOf(d, rest);
    assert (d + rest)[..|d|] == d;
  }

  /** What the tail of a message becomes: nothing, the letter of a written `\n`, or a line end. */
  predicate IsRest(rest: string) {
    rest == "" || rest == "n" || rest == "\n"
  }

  lemma StampsBack(x: string, d: string, rest: string)
    requires d != "" && AllDigits(d) && '\n' !in x && IsRest(rest)
    ensures StampLines(x + [' '] + (d + rest)) == x + ",timestamp=" + d + if rest == "\n" then "\n" else ""
  {
    var s := x + [' '] + (d + rest);
    assert !IsDigit('\n');
    if rest == "\n" {
      var line := x + [' '] + (d + "");
      assert s == line + "\n";
      SpanIs(s, 0, {'\n'}, false, |line|);
      assert s[..|line|] == line && s[|line| + 1..] == "";
      StampBack(x, d, "");
    } else {
      SpanIs(s, 0, {'\n'}, false, |s|);
      StampBack(x, d, rest);
    }
  }

  // -- Splitting

  function Texts(ps: seq<Item>): (r: seq<string>)
    ensures |r| == |ps|
  {
    if ps == [] then [] else [ItemText(ps[0])] + Texts(ps[1..])
  }

  lemma {:induction false} SplitCons(a: string, c: char, b: string)
    requires c !in a
    ensures SplitOn(a + [c] + b, c) == [a] + SplitOn(b, c)
  {
    var s := a + [c] + b;
    SpanIs(s, 0, {c}, false, |a|);
    assert s[..|a|] == a && s[|a| + 1..] == b;
  }

  lemma {:induction false} SplitOne(a: string, c: char)
    requires c !in a
    ensures SplitOn(a, c) == [a]
  {
    SpanIs(a, 0, {c}, false, |a|);
  }

  lemma {:induction false} SplitItems(ps: seq<Item>)
    requires ps != [] && forall i | 0 <= i < |ps| :: ',' !in ps[i].key && ',' !in ps[i].value
    ensures SplitOn(ItemsText(ps), ',') == Texts(ps)
    ensures Texts(ps)[|ps| - 1] != ""
  {
    var p, rest := ps[0], ps[1..];
    if rest == [] {
      assert ps == [p];
      ItemsOne(p);
      SplitOne(ItemText(p), ',');
    } else {
      assert ps == [p] + rest;
      ItemsCons(p, rest);
      SplitItems(rest);
      SplitCons(ItemText(p), ',', ItemsText(rest));
    }
  }

  /** Only what is between the first two equals signs counts as the value. */
  lemma PairIs(key: string, value: string, more: string)
    requires '=' !in key && '=' !in value && value != ""
    ensures Pair(key + ['='] + (value + ['='] + more)) == Some((key, Strip(value)))
  {
    hide Strip;
    var rest := value + ['='] + more;
    SplitCons(key, '=', rest);
    SplitCons(value, '=', more);
    var parts := SplitOn(key + ['='] + rest, '=');
    assert parts == [key, value] + SplitOn(more, '=');
    KeepsTwo(parts);
  }

  /** Dropping empty parts at the end leaves what is not empty. */
  lemma {:induction false} KeepsTwo(parts: seq<string>)
    requires |parts| >= 2 && parts[1] != ""
    ensures |DropEmpty(parts)| >= 2 && DropEmpty(parts)[..2] == parts[..2]
    decreases |parts|
  {
    if parts[|parts| - 1] == "" {
      assert parts[..|parts| - 1][..2] == parts[..2];
      KeepsTwo(parts[..|parts| - 1]);
    }
  }

  /** An item without an equals sign, or with nothing but equals signs behind its key, has no value. */
  lemma {:induction false} NoPair(key: string, signs: string)
    requires '=' !in key && forall i | 0 <= i < |signs| :: signs[i] == '='
    ensures Pair(key + signs) == None
  {
    hide Strip;
    if signs == "" {
      assert key + signs == key;
      SplitOne(key, '=');
    } else {
      assert key + signs == key + ['='] + signs[1..];
      SplitCons(key, '=', signs[1..]);
      SplitSigns(signs[1..]);
      DropsRest(key, SplitOn(signs[1..], '='));
    }
  }

  lemma {:induction false} SplitSigns(signs: string)
    requires forall i | 0 <= i < |signs| :: signs[i] == '='
    ensures forall p | p in SplitOn(signs, '=') :: p == ""
    decreases |signs|
  {
    if signs == "" {
      SplitOne("", '=');
    } else {
      assert signs == "" + ['='] + signs[1..];
      SplitCons("", '=', signs[1..]);
      SplitSigns(signs[1..]);
    }
  }

  lemma {:induction false} DropsRest(key: string, rest: seq<string>)
    requires forall p | p in rest :: p == ""
    ensures |DropEmpty([key] + rest)| <= 1
    decreases |rest|
  {
    if rest != [] {
      assert rest[|rest| - 1] in rest;
      assert forall i | 0 <= i < |rest| - 1 :: rest[..|rest| - 1][i] == rest[i] && rest[i] in rest;
      assert ([key] + rest)[..|rest|] == [key] + rest[..|rest| - 1];
      DropsRest(key, rest[..|rest| - 1]);
    }
  }

  lemma PairBack(p: Item)
    requires '=' !in p.key && '=' !in p.value && p.value != ""
    ensures Pair(ItemText(p)) == Some((p.key, Strip(p.value)))
  {
    assert ItemText(p) == p.key + ['='] + p.value;
    SplitCons(p.key, '=', p.value);
    SplitOne(p.value, '=');
    assert SplitOn(ItemText(p), '=') == [p.key, p.value];
  }

  /** Assigning the pairs one after the other. */
  function Assign(rec: Rec, ps: seq<Item>): Rec
    decreases |ps|
  {
    if ps == [] then rec else Assign(rec[ps[0].key := Strip(ps[0].value)], ps[1..])
  }

  lemma {:induction false} PairsBack(rec: Rec, ps: seq<Item>)
    requires forall i | 0 <= i < |ps| :: '=' !in ps[i].key && '=' !in ps[i].value && ps[i].value != ""
    ensures Pairs(rec, Texts(ps)) == Some(Assign(rec, ps))
    decreases |ps|
  {
    if ps != [] {
      PairBack(ps[0]);
      PairsBack(rec[ps[0].key := Strip(ps[0].value)], ps[1..]);
      assert Texts(ps)[1..] == Texts(ps[1..]);
    }
  }

  lemma {:induction false} AssignAppend(rec: Rec, ps: seq<Item>, p: Item)
    ensures Assign(rec, ps + [p]) == Assign(rec, ps)[p.key := Strip(p.value)]
    decreases |ps|
  {
    if ps == [] {
      assert (ps + [p])[1..] == [];
    } else {
      assert (ps + [p])[1..] == ps[1..] + [p];
      AssignAppend(rec[ps[0].key := Strip(ps[0].value)], ps[1..], p);
    }
  }

  /** The last pair with a key, or -1. */
  function LastPair(ps: seq<Item>, key: string): (i: int)
    ensures -1 <= i < |ps| && (i != -1 ==> ps[i].key == key)
    ensures forall j | i < j < |ps| :: ps[j].key != key
  {
    var last := |ps| - 1;
    if ps == [] || ps[last].key == key then last else LastPair(ps[..last], key)
  }

  /** Assigning pairs one after the other leaves for each key the value of its last pair, and other keys as they were. */
  lemma {:induction false} LastWins(rec: Rec, ps: seq<Item>, key: string)
    ensures var i := LastPair(ps, key);
      if i != -1 then key in Assign(rec, ps) && Assign(rec, ps)[key] == Strip(ps[i].value)
      else (key in Assign(rec, ps) <==> key in rec) && (key in rec ==> Assign(rec, ps)[key] == rec[key])
    decreases |ps|
  {
    if ps != [] {
      var last := |ps| - 1;
      assert ps == ps[..last] + [ps[last]];
      AssignAppend(rec, ps[..last], ps[last]);
      LastWins(rec, ps[..last], key);
    }
  }

  // -- Whole messages

  /** How messages end in practice: with nothing, with a line end, or with a backslash and an `n`. */
  predicate IsTail(tail: string) {
    tail == "" || tail == "\n" || tail == "\\n"
  }

  /** Of items that are sound something is left after scrubbing. */
  predicate Good(ps: seq<Item>) {
    ps != [] && forall i | 0 <= i < |ps| :: Sound(ps[i]) && Scrub(ps[i].value) != ""
  }

  lemma {:induction false} NoLineEnd(ps: seq<Item>)
    requires forall i | 0 <= i < |ps| :: '\n' !in ps[i].key && '\n' !in ps[i].value
    ensures '\n' !in ItemsText(ps)
  {
    if ps != [] {
      assert '\n' !in ItemText(ps[0]);
      NoLineEnd(ps[1..]);
    }
  }

  lemma {:induction false} ScrubGood(ps: seq<Item>)
    requires Good(ps)
    ensures Sounds(ScrubItems(ps)) && Joinable(ScrubItems(ps))
  {
    forall i | 0 <= i < |ps| ensures Sound(ScrubItems(ps)[i]) {
      ScrubAdds(ps[i].key);
      ScrubAdds(ps[i].value);
      NoSpacesIn(ps[i].key, Scrub(ps[i].key));
    }
  }

  lemma NoSpacesIn(s: string, t: string)
    requires NoSpaces(s) && forall c | c in t :: c in s
    ensures NoSpaces(t)
  {
    forall i | 0 <= i < |t| ensures !IsSpace(t[i]) {
      assert t[i] in t;
    }
  }

  predicate Sounds(ps: seq<Item>) {
    ps != [] && AllSound(ps)
  }

  lemma {:induction false} RemoveBehind(a: string, b: string, pat: string)
    requires pat != "" && pat[0] !in a
    ensures RemoveAll(a + b, pat) == a + RemoveAll(b, pat)
  {
    if a == "" {
      assert a + b == b;
    } else {
      assert (a + b)[0] == a[0] != pat[0] && (a + b)[1..] == a[1..] + b;
      RemoveBehind(a[1..], b, pat);
    }
  }

  /** What scrubbing leaves of a tail. */
  function Rest(tail: string): string {
    if tail == "\\n" then "n" else tail
  }

  lemma ScrubEnd(d: string, tail: string)
    requires AllDigits(d) && IsTail(tail)
    ensures Scrub(d + tail) == d + Rest(tail) && IsRest(Rest(tail))
  {
    var s := d + tail;
    assert !IsDigit('.') && !IsDigit('\\') && !IsDigit('\"');
    RemoveNothing(s, ".localdomain");
    RemoveNothing(s, ".lanl.gov");
    RemoveBehind(d, tail, "\\");
    if tail == "\\n" {
      assert tail[1..] == "n";
      RemoveNothing("n", "\\");
    } else {
      RemoveNothing(tail, "\\");
    }
    RemoveNothing(d + Rest(tail), "\"");
  }

  lemma {:induction false} RemoveNoPrefix(s: string, pat: string)
    requires pat != "" && forall i | 0 <= i < |s| - 1 :: s[i] != '\n'
    ensures RemovePrefix(s, pat, false) == s
  {
    if |s| > 1 {
      RemoveNoPrefix(s[1..], pat);
    }
  }

  lemma {:induction false} PrefixGone(pat: string, body: string)
    requires pat != "" && forall i | 0 <= i < |body| - 1 :: body[i] != '\n'
    ensures RemovePrefix(pat + body, pat, true) == body
  {
    assert (pat + body)[|pat|..] == body;
    RemoveNoPrefix(body, pat);
  }

  /** The items with the stamp as one of them; the line end is stripped. */
  function WithStamp(ps: seq<Item>, stamp: string): seq<Item> {
    ps + [Item("timestamp", stamp)]
  }

  lemma StripDigits(d: string)
    requires AllDigits(d) && d != ""
    ensures Strip(d) == d && Strip(d + "\n") == d
  {
    var s := d + "\n";
    assert !IsSpace(d[0]) && !IsSpace(d[|d| - 1]);
    assert SkipSpaces(s) == s && s[..|s| - 1] == d;
    assert StripEnd(d) == d;
  }

  lemma Assoc3(a: string, d: string, e: string)
    ensures a + ",timestamp=" + d + e == a + [','] + (("timestamp" + "=") + (d + e))
  {
  }

  lemma {:induction false} StampedText(ps: seq<Item>, stamp: string, rest: string, end: string)
    requires ps != [] && AllLoose(ps) && stamp != "" && AllDigits(stamp) && IsRest(rest) && end == if rest == "\n" then "\n" else ""
    ensures StampLines(ItemsText(ps) + [' '] + (stamp + rest)) == ItemsText(ps + [Item("timestamp", stamp + end)])
  {
    NoLineEnd(ps);
    StampsBack(ItemsText(ps), stamp, rest);
    var last := Item("timestamp", stamp + end);
    ItemsConcat(ps, [last]);
    ItemsOne(last);
    Assoc3(ItemsText(ps), stamp, end);
  }

  lemma {:induction false} ItemsBack(rec: Rec, ps: seq<Item>)
    requires ps != [] && forall i | 0 <= i < |ps| :: ',' !in ps[i].key && ',' !in ps[i].value
    requires forall i | 0 <= i < |ps| :: '=' !in ps[i].key && '=' !in ps[i].value && ps[i].value != ""
    ensures Pairs(rec, Split(ItemsText(ps), ',')) == Some(Assign(rec, ps))
  {
    SplitItems(ps);
    PairsBack(rec, ps);
  }

  /** From the cleaned text to the record. */
  lemma {:induction false} CleanedBack(rec: Rec, ps: seq<Item>, stamp: string, rest: string)
    requires ps != [] && AllLoose(ps) && stamp != "" && AllDigits(stamp) && IsRest(rest)
    ensures Pairs(rec, Split(StampLines(ItemsText(ps) + [' '] + (stamp + rest)), ',')) == Some(Assign(rec, WithStamp(ps, stamp)))
  {
    hide StampLines, ItemsText, Split, Pairs;
    var end := if rest == "\n" then "\n" else "";
    var last := Item("timestamp", stamp + end);
    StampedText(ps, stamp, rest, end);
    assert !IsDigit(',') && !IsDigit('=');
    ItemsBack(rec, ps + [last]);
    AssignAppend(rec, ps, last);
    AssignAppend(rec, ps, Item("timestamp", stamp));
    StripDigits(stamp);
    assert stamp + "" == stamp;
  }

  /** Only the last character of a message can be a line end. */
  lemma OneLine(a: string, d: string, tail: string)
    requires '\n' !in a && AllDigits(d) && IsTail(tail)
    ensures forall i | 0 <= i < |a + (d + tail)| - 1 :: (a + (d + tail))[i] != '\n'
  {
    assert !IsDigit('\n');
  }

  /** What follows the code in a message with tags and fields. */
  function Body(tags: seq<Item>, fields: seq<Item>, end: string): string {
    ItemsText(tags) + [' '] + (ItemsText(fields) + ([' '] + end))
  }

  lemma {:induction false} SoundNoLineEnd(ps: seq<Item>)
    requires AllSound(ps)
    ensures '\n' !in ItemsText(ps)
  {
    NoLineEnd(ps);
  }

  lemma BodyOneLine(tags: seq<Item>, fields: seq<Item>, stamp: string, tail: string)
    requires Good(tags) && Good(fields) && AllDigits(stamp) && IsTail(tail)
    ensures var body := Body(tags, fields, stamp + tail);
      forall i | 0 <= i < |body| - 1 :: body[i] != '\n'
  {
    SoundNoLineEnd(tags);
    SoundNoLineEnd(fields);
    var front := ItemsText(tags) + [' '] + ItemsText(fields) + [' '];
    assert Body(tags, fields, stamp + tail) == front + (stamp + tail);
    OneLine(front, stamp, tail);
  }

  lemma {:induction false} ScrubBody(tags: seq<Item>, fields: seq<Item>, end: string)
    requires tags != [] && fields != []
    ensures Scrub(Body(tags, fields, end)) == Body(ScrubItems(tags), ScrubItems(fields), Scrub(end))
  {
    ScrubItemsText(tags);
    ScrubItemsText(fields);
    assert ItemsText(fields) + ([' '] + end) == ItemsText(fields) + [' '] + end;
    ScrubApart(ItemsText(fields), ' ', end);
    ScrubApart(ItemsText(tags), ' ', ItemsText(fields) + ([' '] + end));
  }

  lemma {:induction false} JoinBody(tags: seq<Item>, fields: seq<Item>, end: string)
    requires tags != [] && Joinable(tags) && EndsPlain(tags[|tags| - 1].value)
    requires fields != [] && Joinable(fields) && ',' !in fields[0].key && '=' !in end
    ensures Join(Body(tags, fields, end), fields[0].key + "=") == ItemsText(tags + fields) + [' '] + end
  {
    JoinAll(tags, fields, [' '] + end);
    assert ItemsText(tags + fields) + ([' '] + end) == ItemsText(tags + fields) + [' '] + end;
  }

  lemma {:induction false} MessageParts(code: string, tags: seq<Item>, fields: seq<Item>, stamp: string, tail: string)
    ensures code + "," + ItemsText(tags) + " " + ItemsText(fields) + " " + stamp + tail ==
      (code + ",") + Body(tags, fields, stamp + tail)
  {
  }

  lemma {:induction false} CleanedMessage(code: string, tags: seq<Item>, fields: seq<Item>, stamp: string, tail: string)
    requires !Plain(code) && Good(tags) && Good(fields) && AllDigits(stamp) && IsTail(tail)
    requires EndsPlain(Scrub(tags[|tags| - 1].value))
    ensures Cleaned((code + ",") + Body(tags, fields, stamp + tail), code, Scrub(fields[0].key)) ==
      StampLines(ItemsText(ScrubItems(tags) + ScrubItems(fields)) + [' '] + (stamp + Rest(tail)))
  {
    BodyOneLine(tags, fields, stamp, tail);
    PrefixGone(code + ",", Body(tags, fields, stamp + tail));
    ScrubBody(tags, fields, stamp + tail);
    ScrubEnd(stamp, tail);
    ScrubGood(tags);
    ScrubGood(fields);
    assert !IsDigit('=');
    JoinBody(ScrubItems(tags), ScrubItems(fields), stamp + Rest(tail));
  }

  /**
    A message `code,tags fields stamp` becomes the scrubbed pairs and the time stamp, a later
    pair over an earlier one with the same key, even where values have spaces before digits.
   */
  lemma {:induction false} RoundTrip(code: string, tags: seq<Item>, fields: seq<Item>, stamp: string, tail: string, metric: string)
    requires !Plain(code) && Good(tags) && Good(fields) && stamp != "" && AllDigits(stamp) && IsTail(tail)
    requires EndsPlain(Scrub(tags[|tags| - 1].value))
    ensures Parsed(code + "," + ItemsText(tags) + " " + ItemsText(fields) + " " + stamp + tail, code, Scrub(fields[0].key), metric) ==
      Some(Assign(map["metric" := metric], WithStamp(ScrubItems(tags) + ScrubItems(fields), stamp)))
  {
    hide Scrub, Cleaned;
    MessageParts(code, tags, fields, stamp, tail);
    CleanedMessage(code, tags, fields, stamp, tail);
    ScrubGood(tags);
    ScrubGood(fields);
    ScrubEnd(stamp, tail);
    CleanedBack(map["metric" := metric], ScrubItems(tags) + ScrubItems(fields), stamp, Rest(tail));
  }

  lemma {:induction false} PlainParts(code: string, fields: seq<Item>, stamp: string, tail: string)
    ensures code + " " + ItemsText(fields) + " " + stamp + tail == (code + " ") + (ItemsText(fields) + [' '] + (stamp + tail))
  {
  }

  lemma {:induction false} CleanedPlain(code: string, fields: seq<Item>, stamp: string, tail: string, firstField: string)
    requires Plain(code) && Good(fields) && AllDigits(stamp) && IsTail(tail)
    ensures Cleaned((code + " ") + (ItemsText(fields) + [' '] + (stamp + tail)), code, firstField) ==
      StampLines(ItemsText(ScrubItems(fields)) + [' '] + (stamp + Rest(tail)))
  {
    SoundNoLineEnd(fields);
    OneLine(ItemsText(fields) + [' '], stamp, tail);
    PrefixGone(code + " ", ItemsText(fields) + [' '] + (stamp + tail));
    ScrubItemsText(fields);
    ScrubApart(ItemsText(fields), ' ', stamp + tail);
    ScrubEnd(stamp, tail);
  }

  /** The same for the codes whose messages are one list of fields. */
  lemma {:induction false} RoundTripPlain(code: string, fields: seq<Item>, stamp: string, tail: string, metric: string, firstField: string)
    requires Plain(code) && Good(fields) && stamp != "" && AllDigits(stamp) && IsTail(tail)
    ensures Parsed(code + " " + ItemsText(fields) + " " + stamp + tail, code, firstField, metric) ==
      Some(Assign(map["metric" := metric], WithStamp(ScrubItems(fields), stamp)))
  {
    PlainParts(code, fields, stamp, tail);
    CleanedPlain(code, fields, stamp, tail, firstField);
    ScrubGood(fields);
    ScrubEnd(stamp, tail);
    CleanedBack(map["metric" := metric], ScrubItems(fields), stamp, Rest(tail));
  }

  // -- Clean messages come back unchanged

  predicate AllClean(ps: seq<Item>) {
    forall i | 0 <= i < |ps| :: Clean(ps[i].key) && Clean(ps[i].value)
  }

  lemma {:induction false} CleanItems(ps: seq<Item>)
    requires ps != [] && AllSound(ps) && AllClean(ps)
    ensures ScrubItems(ps) == ps && Good(ps)
  {
    hide Scrub, Clean;
    forall i | 0 <= i < |ps| ensures ScrubItems(ps)[i] == ps[i] {
      ScrubNothingIff(ps[i].key);
      ScrubNothingIff(ps[i].value);
    }
    forall i | 0 <= i < |ps| ensures Scrub(ps[i].value) != "" {
      assert ScrubItems(ps)[i].value == ps[i].value;
    }
  }

  /** With nothing in it that cleaning takes out, a message comes back as exactly the pairs it was made of. */
  lemma {:induction false} RoundTripClean(code: string, tags: seq<Item>, fields: seq<Item>, stamp: string, tail: string, metric: string)
    requires !Plain(code) && tags != [] && fields != [] && AllSound(tags) && AllSound(fields)
    requires AllClean(tags) && AllClean(fields) && EndsPlain(tags[|tags| - 1].value)
    requires stamp != "" && AllDigits(stamp) && IsTail(tail)
    ensures Parsed(code + "," + ItemsText(tags) + " " + ItemsText(fields) + " " + stamp + tail, code, fields[0].key, metric) ==
      Some(Assign(map["metric" := metric], WithStamp(tags + fields, stamp)))
  {
    hide Parsed, Scrub, Clean, Assign;
    CleanItems(tags);
    CleanItems(fields);
    assert ScrubItems(tags)[|tags| - 1].value == tags[|tags| - 1].value;
    assert ScrubItems(fields)[0].key == fields[0].key;
    RoundTrip(code, tags, fields, stamp, tail, metric);
  }

  /** The same for the codes with one list of fields. */
  lemma {:induction false} RoundTripPlainClean(code: string, fields: seq<Item>, stamp: string, tail: string, metric: string, firstField: string)
    requires Plain(code) && fields != [] && AllSound(fields) && AllClean(fields)
    requires stamp != "" && AllDigits(stamp) && IsTail(tail)
    ensures Parsed(code + " " + ItemsText(fields) + " " + stamp + tail, code, firstField, metric) ==
      Some(Assign(map["metric" := metric], WithStamp(fields, stamp)))
  {
    hide Parsed, Scrub, Clean, Assign;
    CleanItems(fields);
    RoundTripPlain(code, fields, stamp, tail, metric, firstField);
  }
}
