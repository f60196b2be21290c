/**
  The C library string functions the repository relies on, over Dafny strings:
  substring search (`strstr`), the in-place tokenizer (`strtok`) and `strcpy`,
  with the meanings of section 7.24 of ISO C11.
 */
module CStrings {

  const NUL: char := '\0'

  predicate ContainsAt(s: string, pat: string, i: nat) {
    i + |pat| <= |s| && s[i..i + |pat|] == pat
  }

  /** `strstr(s, pat) != NULL`. */
  predicate Contains(s: string, pat: string) {
    exists i: nat | i <= |s| :: ContainsAt(s, pat, i)
  }

  lemma ContainsMiddle(a: string, pat: string, b: string)
    ensures Contains(a + pat + b, pat)
  {
    var s := a + pat + b;
    assert s[|a|..|a| + |pat|] == pat;
    assert ContainsAt(s, pat, |a|);
  }

  lemma ContainsSelf(s: string)
    ensures Contains(s, s)
  {
    assert s[0..|s|] == s;
    assert ContainsAt(s, s, 0);
  }

  /** The characters of a delimiter string. */
  function Chars(s: string): set<char> {
    set c | c in s
  }

  predicate AllIn(s: string, d: set<char>) {
    forall i | 0 <= i < |s| :: s[i] in d
  }

  predicate NoneIn(s: string, d: set<char>) {
    forall i | 0 <= i < |s| :: s[i] !in d
  }

  /**
    `strspn` and `strcspn`: the first position from `i` on that is the end of `s`
    or where membership in `d` is no longer `want`.
   */
  function Span(s: string, i: nat, d: set<char>, want: bool): (n: nat)
    requires i <= |s|
    ensures i <= n <= |s|
    ensures forall k | i <= k < n :: (s[k] in d) == want
    ensures n < |s| ==> (s[n] in d) != want
    decreases |s| - i
  {
    if i == |s| || (s[i] in d) != want then i else Span(s, i + 1, d, want)
  }

  /** What calls of `strtok` return, token by token, on the part of `s` from `i` on. */
  function TokensFrom(s: string, i: nat, d: set<char>): seq<string>
    requires i <= |s|
    decreases |s| - i
  {
    var start := Span(s, i, d, true);
    if start == |s| then [] else
      var end := Span(s, start, d, false);
      [s[start..end]] + TokensFrom(s, end, d)
  }

  function Tokens(s: string, d: set<char>): seq<string> {
    TokensFrom(s, 0, d)
  }

  lemma TokensSkipDelimiter(s: string, i: nat, d: set<char>)
    requires i < |s| && s[i] in d
    ensures TokensFrom(s, i, d) == TokensFrom(s, i + 1, d)
  {
    assert Span(s, i, d, true) == Span(s, i + 1, d, true);
  }

  // -- A reference definition of tokenizing: text woven from gaps and tokens

  function Weave(gaps: seq<string>, toks: seq<string>): string
    requires |gaps| == |toks| + 1
  {
    if toks == [] then gaps[0] else gaps[0] + toks[0] + Weave(gaps[1..], toks[1..])
  }

  predicate IsToken(t: string, d: set<char>) {
    t != "" && NoneIn(t, d)
  }

  /** Gaps are made of delimiters and inner gaps are not empty; tokens are not empty and free of delimiters. */
  predicate Separated(gaps: seq<string>, toks: seq<string>, d: set<char>) {
    && |gaps| == |toks| + 1
    && (forall i | 0 <= i < |gaps| :: AllIn(gaps[i], d))
    && (forall i | 0 < i < |toks| :: gaps[i] != "")
    && (forall i | 0 <= i < |toks| :: IsToken(toks[i], d))
  }

  lemma SeparatedTail(gaps: seq<string>, toks: seq<string>, d: set<char>)
    requires Separated(gaps, toks, d) && toks != []
    ensures Separated(gaps[1..], toks[1..], d)
    ensures AllIn(gaps[0], d) && IsToken(toks[0], d)
    ensures |toks| > 1 ==> gaps[1] != "" && gaps[1][0] in d
    ensures |toks| == 1 ==> AllIn(gaps[1], d)
  {
  }

  lemma WeavePrefix(gaps: seq<string>, toks: seq<string>) returns (rest: string)
    requires |gaps| == |toks| + 1
    ensures Weave(gaps, toks) == gaps[0] + rest
  {
    rest := if toks == [] then "" else toks[0] + Weave(gaps[1..], toks[1..]);
  }

  lemma {:induction false} WeaveContains(gaps: seq<string>, toks: seq<string>)
    requires |gaps| == |toks| + 1 && toks != []
    ensures Contains(Weave(gaps, toks), gaps[1])
  {
    var rest := WeavePrefix(gaps[1..], toks[1..]);
    assert Weave(gaps, toks) == (gaps[0] + toks[0]) + gaps[1] + rest;
    ContainsMiddle(gaps[0] + toks[0], gaps[1], rest);
  }

  /** What follows the first token is nothing, or starts with a delimiter. */
  lemma WeaveTailStarts(gaps: seq<string>, toks: seq<string>, d: set<char>)
    requires Separated(gaps, toks, d) && toks != []
    ensures var more := Weave(gaps[1..], toks[1..]); more == "" || more[0] in d
  {
    assert gaps[1..][0] == gaps[1];
  }

  lemma {:induction false} SpanIs(s: string, i: nat, d: set<char>, want: bool, n: nat)
    requires i <= n <= |s|
    requires forall k | i <= k < n :: (s[k] in d) == want
    requires n < |s| ==> (s[n] in d) != want
    ensures Span(s, i, d, want) == n
  {
  }

  lemma SliceIn(s: string, i: nat, n: nat, d: set<char>, want: bool)
    requires i <= n <= |s| && if want then AllIn(s[i..n], d) else NoneIn(s[i..n], d)
    ensures forall k | i <= k < n :: (s[k] in d) == want
  {
    forall k | i <= k < n ensures (s[k] in d) == want {
      assert s[k] == s[i..n][k - i];
    }
  }

  /** One gap and one token, then what is left of `s`. */
  lemma {:induction false} TokensCons(s: string, i: nat, start: nat, end: nat, d: set<char>)
    requires i <= start <= end <= |s|
    requires AllIn(s[i..start], d) && IsToken(s[start..end], d) && (end == |s| || s[end] in d)
    ensures TokensFrom(s, i, d) == [s[start..end]] + TokensFrom(s, end, d)
  {
    SliceIn(s, i, start, d, true);
    SliceIn(s, start, end, d, false);
    SpanIs(s, i, d, true, start);
    SpanIs(s, start, d, false, end);
  }

  lemma ThreeParts(s: string, i: nat, g: string, t: string, r: string)
    requires i <= |s| && s[i..] == g + t + r
    ensures i + |g| + |t| + |r| == |s|
    ensures s[i..i + |g|] == g && s[i + |g|..i + |g| + |t|] == t && s[i + |g| + |t|..] == r
  {
    var u := s[i..];
    assert s[i..i + |g|] == u[..|g|] == g;
    assert s[i + |g|..i + |g| + |t|] == u[|g|..|g| + |t|] == t;
    assert s[i + |g| + |t|..] == u[|g| + |t|..] == r;
  }

  lemma {:induction false} TokensNone(s: string, i: nat, d: set<char>)
    requires i <= |s| && AllIn(s[i..], d)
    ensures TokensFrom(s, i, d) == []
  {
    forall k | i <= k < |s| ensures s[k] in d {
      assert s[k] == s[i..][k - i];
    }
  }

  lemma WeaveStep(s: string, i: nat, gaps: seq<string>, toks: seq<string>, d: set<char>) returns (end: nat)
    requires Separated(gaps, toks, d) && toks != []
    requires i <= |s| && s[i..] == Weave(gaps, toks)
    ensures end <= |s| && TokensFrom(s, i, d) == [toks[0]] + TokensFrom(s, end, d)
    ensures s[end..] == Weave(gaps[1..], toks[1..])
  {
    hide TokensFrom;
    var more := Weave(gaps[1..], toks[1..]);
    WeaveTailStarts(gaps, toks, d);
    ThreeParts(s, i, gaps[0], toks[0], more);
    end := i + |gaps[0]| + |toks[0]|;
    assert more != "" ==> s[end] == more[0];
    TokensCons(s, i, i + |gaps[0]|, end, d);
  }

  /** Tokenizing is the only way to read a woven text back: it inverts `Weave`. */
  lemma {:induction false} TokensOfWeaveFrom(s: string, i: nat, gaps: seq<string>, toks: seq<string>, d: set<char>)
    requires Separated(gaps, toks, d)
    requires i <= |s| && s[i..] == Weave(gaps, toks)
    ensures TokensFrom(s, i, d) == toks
    decreases |toks|
  {
    hide TokensFrom;
    if toks == [] {
      TokensNone(s, i, d);
    } else {
      var end := WeaveStep(s, i, gaps, toks, d);
      SeparatedTail(gaps, toks, d);
      TokensOfWeaveFrom(s, end, gaps[1..], toks[1..], d);
    }
  }

  lemma {:induction false} TokensOfWeave(gaps: seq<string>, toks: seq<string>, d: set<char>)
    requires Separated(gaps, toks, d)
    ensures Tokens(Weave(gaps, toks), d) == toks
  {
    TokensOfWeaveFrom(Weave(gaps, toks), 0, gaps, toks, d);
  }

  lemma {:induction false} SeparatedCons(g: string, t: string, gaps: seq<string>, toks: seq<string>, d: set<char>)
    requires Separated(gaps, toks, d) && AllIn(g, d) && IsToken(t, d)
    requires toks != [] ==> gaps[0] != ""
    ensures Separated([g] + gaps, [t] + toks, d)
    ensures Weave([g] + gaps, [t] + toks) == g + t + Weave(gaps, toks)
  {
    var gaps', toks' := [g] + gaps, [t] + toks;
    assert gaps'[1..] == gaps && toks'[1..] == toks;
    forall i | 0 < i < |toks'| ensures gaps'[i] != "" && IsToken(toks'[i], d) {
      assert gaps'[i] == gaps[i - 1] && toks'[i] == toks[i - 1];
    }
    forall i | 0 <= i < |gaps'| ensures AllIn(gaps'[i], d) {
      assert i > 0 ==> gaps'[i] == gaps[i - 1];
    }
  }

  lemma {:induction false} WeaveEnds(s: string, i: nat, d: set<char>)
    requires i <= |s| && Span(s, i, d, true) == |s|
    ensures Separated([s[i..]], TokensFrom(s, i, d), d) && Weave([s[i..]], TokensFrom(s, i, d)) == s[i..]
  {
    assert forall k | 0 <= k < |s| - i :: s[i..][k] == s[i + k];
  }

  lemma {:induction false} FirstToken(s: string, i: nat, d: set<char>, start: nat, end: nat)
    requires i <= |s| && start == Span(s, i, d, true) < |s| && end == Span(s, start, d, false)
    ensures start < end && AllIn(s[i..start], d) && IsToken(s[start..end], d)
    ensures TokensFrom(s, i, d) == [s[start..end]] + TokensFrom(s, end, d)
    ensures s[i..] == s[i..start] + s[start..end] + s[end..]
    ensures s[i] in d ==> s[i..start] != ""
    ensures end == |s| || s[end] in d
  {
    assert forall k | 0 <= k < start - i :: s[i..start][k] == s[i + k];
    assert forall k | 0 <= k < end - start :: s[start..end][k] == s[start + k];
  }

  /** Every text is woven from its own tokens. */
  lemma {:induction false} WeaveOfTokens(s: string, i: nat, d: set<char>) returns (gaps: seq<string>)
    requires i <= |s|
    ensures Separated(gaps, TokensFrom(s, i, d), d) && Weave(gaps, TokensFrom(s, i, d)) == s[i..]
    ensures i < |s| && s[i] in d ==> gaps[0] != ""
    decreases |s| - i
  {
    hide TokensFrom, Weave, AllIn, IsToken;
    var start := Span(s, i, d, true);
    if start == |s| {
      WeaveEnds(s, i, d);
      gaps := [s[i..]];
    } else {
      var end := Span(s, start, d, false);
      FirstToken(s, i, d, start, end);
      var tail := WeaveOfTokens(s, end, d);
      if TokensFrom(s, end, d) != [] {
        TokensLeft(s, end, d);
      }
      SeparatedCons(s[i..start], s[start..end], tail, TokensFrom(s, end, d), d);
      gaps := [s[i..start]] + tail;
    }
  }

  lemma {:induction false} TokensLeft(s: string, i: nat, d: set<char>)
    requires i <= |s| && TokensFrom(s, i, d) != []
    ensures i < |s|
  {
  }

  // -- Strings in buffers

  /** The C string at offset `at` of buffer contents `b` is `s`, seen from its character `i` on. */
  ghost predicate TailAt(b: seq<char>, at: nat, s: string, i: nat) {
    && i <= |s| && at + |s| < |b|
    && (forall k | i <= k < |s| :: s[k] == b[at + k] && s[k] != NUL)
    && b[at + |s|] == NUL
  }

  ghost predicate StringAt(b: seq<char>, at: nat, s: string) {
    TailAt(b, at, s, 0)
  }

  lemma StringAtSlice(b: seq<char>, at: nat, s: string, lo: nat, hi: nat)
    requires lo <= hi <= |s| && at + hi < |b| && b[at + hi] == NUL
    requires forall k | lo <= k < hi :: s[k] == b[at + k] && s[k] != NUL
    ensures StringAt(b, at + lo, s[lo..hi])
  {
    var t := s[lo..hi];
    assert forall k | 0 <= k < |t| :: t[k] == s[lo + k];
  }

  /** Where the first token from `i` on ends. */
  function TokenEnd(s: string, i: nat, d: set<char>): (n: nat)
    requires i <= |s|
    ensures i <= n <= |s|
  {
    Span(s, Span(s, i, d, true), d, false)
  }

  /** Overwriting the delimiter behind a token leaves the token and what follows as two strings. */
  lemma {:induction false} TokenCut(b: seq<char>, at: nat, s: string, i: nat, d: set<char>)
    requires TailAt(b, at, s, i)
    ensures var lo, hi := Span(s, i, d, true), TokenEnd(s, i, d);
      && StringAt(b[at + hi := NUL], at + lo, s[lo..hi])
      && TailAt(b[at + hi := NUL], at, s, if hi < |s| then hi + 1 else hi)
      && TokensFrom(s, if hi < |s| then hi + 1 else hi, d) == TokensFrom(s, hi, d)
      && (hi == |s| ==> b[at + hi := NUL] == b)
  {
    var lo, hi := Span(s, i, d, true), TokenEnd(s, i, d);
    StringAtSlice(b[at + hi := NUL], at, s, lo, hi);
    if hi < |s| {
      TokensSkipDelimiter(s, hi, d);
    }
  }

  /** Offset of a token found by `Strtok`, or -1 for a null pointer. */
  type Pointer = p: int | -1 <= p witness -1

  /**
    The state between two calls of `strtok` on the string `s` at `at`: the call that
    started at character `from` returned `tok` and moved the saved pointer to `save`.
   */
  ghost predicate Cursor(b: seq<char>, at: nat, s: string, from: nat, d: set<char>, tok: Pointer, save: nat) {
    && from <= |s|
    && tok == (if Span(s, from, d, true) == |s| then -1 else at + Span(s, from, d, true))
    && (tok != -1 ==> StringAt(b, tok, s[Span(s, from, d, true)..TokenEnd(s, from, d)]))
    && TokenEnd(s, from, d) <= save && TailAt(b, at, s, save)
    && TokensFrom(s, save, d) == TokensFrom(s, TokenEnd(s, from, d), d)
  }

  /** Where the next call of `strtok` starts. */
  function SaveFrom(s: string, i: nat, d: set<char>): (n: nat)
    requires i <= |s|
    ensures i <= n <= |s|
  {
    var hi := TokenEnd(s, i, d);
    if hi < |s| then hi + 1 else hi
  }

  function TokenAt(at: nat, s: string, i: nat, d: set<char>): Pointer
    requires i <= |s|
  {
    var lo := Span(s, i, d, true);
    if lo == |s| then -1 else at + lo
  }

  lemma CursorAfter(b: seq<char>, at: nat, s: string, i: nat, d: set<char>)
    requires TailAt(b, at, s, i)
    ensures Cursor(b[at + TokenEnd(s, i, d) := NUL], at, s, i, d, TokenAt(at, s, i, d), SaveFrom(s, i, d))
  {
    TokenCut(b, at, s, i, d);
  }

  /** With `left` the tokens from `from` on, the cursor is at the first of them. */
  lemma {:induction false} CursorToken(b: seq<char>, at: nat, s: string, from: nat, d: set<char>, tok: Pointer, save: nat, left: seq<string>)
    requires Cursor(b, at, s, from, d, tok, save) && left == TokensFrom(s, from, d)
    ensures tok == -1 <==> left == []
    ensures tok != -1 ==> StringAt(b, tok, left[0]) && left[0] != "" && |left[0]| <= |s|
    ensures tok != -1 ==> left[1..] == TokensFrom(s, save, d)
  {
  }

  /** `strspn` and `strcspn` as loops over a buffer: skip while membership in `d` is `want`. */
  method Skip(buf: array<char>, at: nat, i: nat, d: string, want: bool, ghost s: string) returns (n: nat)
    requires TailAt(buf[..], at, s, i)
    ensures n == Span(s, i, Chars(d), want)
    ensures buf[at + n] == NUL <==> n == |s|
  {
    n := i;
    while buf[at + n] != NUL && (buf[at + n] in d) == want
      invariant i <= n <= |s|
      invariant n < |s| ==> s[n] == buf[at + n] && s[n] != NUL
      invariant forall k | i <= k < n :: (s[k] in Chars(d)) == want
      decreases |s| - n
    {
      n := n + 1;
    }
  }

  /**
    One call of `strtok` on the string at `at`, with the saved pointer at its character
    `i`: finds the next token, overwrites the delimiter behind it, moves the saved pointer.
   */
  method Strtok(buf: array<char>, at: nat, i: nat, d: string, ghost s: string) returns (tok: Pointer, save: nat)
    requires TailAt(buf[..], at, s, i)
    modifies buf
    ensures tok == TokenAt(at, s, i, Chars(d)) && save == SaveFrom(s, i, Chars(d))
    ensures buf[..] == old(buf[..])[at + TokenEnd(s, i, Chars(d)) := NUL]
    ensures Cursor(buf[..], at, s, i, Chars(d), tok, save)
  {
    hide Cursor, TokensFrom;
    ghost var b := buf[..];
    var start := Skip(buf, at, i, d, true, s);
    if buf[at + start] == NUL {
      tok, save := -1, start;
    } else {
      var end := Skip(buf, at, start, d, false, s);
      tok := at + start;
      if buf[at + end] == NUL {
        save := end;
      } else {
        buf[at + end] := NUL;
        save := end + 1;
      }
    }
    assert buf[..] == b[at + TokenEnd(s, i, Chars(d)) := NUL];
    CursorAfter(b, at, s, i, Chars(d));
  }

  /** `strlen` of the string at `buf[at]`. */
  method Strlen(buf: array<char>, at: nat, ghost s: string) returns (n: nat)
    requires StringAt(buf[..], at, s)
    ensures n == |s|
  {
    n := 0;
    while buf[at + n] != NUL
      invariant n <= |s|
      invariant n < |s| ==> s[n] == buf[at + n] && s[n] != NUL
      decreases |s| - n
    {
      n := n + 1;
    }
  }

  /** `strcpy` of the string `t` at `src[from]` to `dst[at]`. */
  method Strcpy(dst: array<char>, at: nat, src: array<char>, from: nat, ghost t: string)
    requires dst != src && StringAt(src[..], from, t) && at + |t| < dst.Length
    modifies dst
    ensures StringAt(dst[..], at, t)
    ensures forall j | 0 <= j < dst.Length && !(at <= j <= at + |t|) :: dst[j] == old(dst[j])
  {
    var i := 0;
    while src[from + i] != NUL
      invariant i <= |t|
      invariant i < |t| ==> t[i] == src[from + i] && t[i] != NUL
      invariant forall k | 0 <= k < i :: t[k] == dst[at + k]
      invariant forall j | 0 <= j < dst.Length && !(at <= j < at + i) :: dst[j] == old(dst[j])
      decreases |t| - i
    {
      dst[at + i] := src[from + i];
      i := i + 1;
    }
    dst[at + i] := NUL;
  }
}
