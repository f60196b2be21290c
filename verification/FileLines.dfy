/**
  How the C code reads a file: `fgets` into a buffer of `LINE_LEN` characters (lines 213 and
  357 of `src/stdout_parser.c`), with the meaning of section 7.21.7.2 of ISO C11. It stops
  behind a line feed or when the buffer is full, and a NUL in the file ends the string early.
 */
module FileLines {
  import opened CStrings
  import opened Tables

  /** Where a read of at most `room` characters from position `i` ends. */
  function GetsEnd(text: string, i: nat, room: nat): (n: nat)
    requires i <= |text|
    ensures i <= n <= |text| && n <= i + room
    ensures i < |text| && room > 0 ==> i < n
    ensures forall k | i <= k < n - 1 :: text[k] != '\n'
    decreases room
  {
    if i == |text| || room == 0 then i
    else if text[i] == '\n' then i + 1
    else GetsEnd(text, i + 1, room - 1)
  }

  /** The C string in a piece of a file. */
  function CString(s: string): (r: string)
    ensures NUL !in r && |r| <= |s| && r == s[..|r|] && (|r| < |s| ==> s[|r|] == NUL)
  {
    s[..Span(s, 0, {NUL}, false)]
  }

  /** The strings that the calls of `fgets` give, from position `i` of the file on. */
  function Gets(text: string, i: nat): seq<string>
    requires i <= |text|
    decreases |text| - i
  {
    if i == |text| then [] else
      var n := GetsEnd(text, i, LINE_LEN - 1);
      [CString(text[i..n])] + Gets(text, n)
  }

  /** One call of `fgets`: the string is in the buffer, and `next` is where the file goes on; `ok` is false at its end. */
  method Fgets(buf: array<char>, text: string, at: nat) returns (ok: bool, next: nat)
    requires buf.Length == LINE_LEN && at <= |text|
    modifies buf
    ensures ok <==> at < |text|
    ensures !ok ==> next == at
    ensures ok ==> next == GetsEnd(text, at, LINE_LEN - 1) && StringAt(buf[..], 0, CString(text[at..next]))
  {
    if at == |text| {
      return false, at;
    }
    next := at;
    var i := 0;
    var done := false;
    while i < LINE_LEN - 1 && next < |text| && !done
      invariant i <= LINE_LEN - 1 && next == at + i <= |text|
      invariant forall k | 0 <= k < i :: buf[k] == text[at + k]
      invariant GetsEnd(text, at, LINE_LEN - 1) == if done then next else GetsEnd(text, next, LINE_LEN - 1 - i)
      decreases LINE_LEN - i
    {
      buf[i] := text[next];
      done := text[next] == '\n';
      i := i + 1;
      next := next + 1;
    }
    buf[i] := NUL;
    assert forall k | 0 <= k < i :: text[at..next][k] == buf[k];
    return true, next;
  }

  /** All strings of a file. */
  method ReadLines(text: string) returns (lines: seq<string>)
    ensures lines == Gets(text, 0)
  {
    lines := [];
    var line := new char[LINE_LEN];
    var at := 0;
    var ok := true;
    while ok
      invariant at <= |text| && lines + Gets(text, at) == Gets(text, 0)
      invariant !ok ==> at == |text|
      decreases |text| - at, ok
    {
      ghost var before := at;
      ok, at := Fgets(line, text, at);
      if ok {
        ghost var s := CString(text[before..at]);
        var n := Strlen(line, 0, s);
        assert line[..n] == s;
        ReadStep(text, before, lines);
        lines := lines + [line[..n]];
      }
    }
  }

  lemma ReadStep(text: string, at: nat, lines: seq<string>)
    requires at < |text|
    ensures var n := GetsEnd(text, at, LINE_LEN - 1);
      lines + Gets(text, at) == lines + [CString(text[at..n])] + Gets(text, n)
  {
  }

  // -- When a printed text is read back

  function Text(lines: seq<string>): string {
    if lines == [] then "" else lines[0] + Text(lines[1..])
  }

  /** It ends in a line feed. */
  predicate IsEnded(line: string) {
    line != "" && line[|line| - 1] == '\n'
  }

  /** No line feed before its end, no NUL, and room for it in the line buffer. */
  predicate IsLine(line: string) {
    IsEnded(line) && (forall k | 0 <= k < |line| - 1 :: line[k] != '\n') && NUL !in line && |line| <= 511
  }

  predicate AllEnded(lines: seq<string>) {
    forall i | 0 <= i < |lines| :: IsEnded(lines[i])
  }

  predicate AllLines(lines: seq<string>) {
    forall i | 0 <= i < |lines| :: IsLine(lines[i])
  }

  /** What `fgets` gives is short, has no NUL, and no line feed but at its end. */
  predicate IsPiece(s: string) {
    (forall k | 0 <= k < |s| - 1 :: s[k] != '\n') && NUL !in s && |s| <= 511
  }

  lemma {:induction false} PiecesOnly(text: string, i: nat)
    requires i <= |text|
    ensures forall j | 0 <= j < |Gets(text, i)| :: IsPiece(Gets(text, i)[j])
    decreases |text| - i
  {
    if i < |text| {
      var n := GetsEnd(text, i, LINE_LEN - 1);
      PiecesOnly(text, n);
      var s := CString(text[i..n]);
      assert forall k | 0 <= k < |s| :: s[k] == text[i + k];
    }
  }

  lemma {:induction false} LineEnd(text: string, i: nat, room: nat, n: nat)
    requires i < n <= |text| && n - i <= room && text[n - 1] == '\n' && forall k | i <= k < n - 1 :: text[k] != '\n'
    ensures GetsEnd(text, i, room) == n
    decreases room
  {
    if i < n - 1 {
      LineEnd(text, i + 1, room - 1, n);
    }
  }

  lemma {:induction false} FullRoom(text: string, i: nat, room: nat)
    requires i + room <= |text| && forall k | i <= k < i + room :: text[k] != '\n'
    ensures GetsEnd(text, i, room) == i + room
    decreases room
  {
    if room > 0 {
      FullRoom(text, i + 1, room - 1);
    }
  }

  /** A longer line is handed out in pieces of 511 characters. */
  lemma {:induction false} LongLine(text: string, i: nat)
    requires i + 511 <= |text| && (forall k | i <= k < i + 511 :: text[k] != '\n') && NUL !in text[i..i + 511]
    ensures Gets(text, i) == [text[i..i + 511]] + Gets(text, i + 511)
  {
    FullRoom(text, i, LINE_LEN - 1);
    WholeCString(text[i..i + 511]);
  }

  lemma WholeCString(s: string)
    requires NUL !in s
    ensures CString(s) == s
  {
    SpanIs(s, 0, {NUL}, false, |s|);
    assert s[..|s|] == s;
  }

  lemma FirstLine(text: string, i: nat, line: string, rest: string)
    requires i <= |text| && text[i..] == line + rest && IsLine(line)
    ensures var n := i + |line|;
      i < n <= |text| && text[i..n] == line && text[n..] == rest && text[n - 1] == '\n' && forall k | i <= k < n - 1 :: text[k] != '\n'
  {
    var n := i + |line|;
    assert text[i..n] == text[i..][..|line|] == line;
    assert text[n..] == text[i..][|line|..] == rest;
    assert forall k | i <= k < n :: text[k] == text[i..n][k - i];
  }

  lemma {:induction false} GetsLine(text: string, i: nat, line: string, rest: string)
    requires i <= |text| && text[i..] == line + rest && IsLine(line)
    ensures i + |line| <= |text| && text[i + |line|..] == rest && Gets(text, i) == [line] + Gets(text, i + |line|)
  {
    hide IsLine, Gets, GetsEnd, CString;
    FirstLine(text, i, line, rest);
    LineShape(line);
    LineEnd(text, i, LINE_LEN - 1, i + |line|);
    GetsStep(text, i);
    WholeCString(line);
  }

  lemma GetsStep(text: string, i: nat)
    requires i < |text|
    ensures var n := GetsEnd(text, i, LINE_LEN - 1); Gets(text, i) == [CString(text[i..n])] + Gets(text, n)
  {
    hide GetsEnd, CString;
  }

  lemma LineShape(line: string)
    requires IsLine(line)
    ensures 0 < |line| <= 511 && NUL !in line
  {
  }

  lemma {:induction false} LinesBack(text: string, i: nat, lines: seq<string>)
    requires i <= |text| && text[i..] == Text(lines) && AllLines(lines)
    ensures Gets(text, i) == lines
    decreases |lines|
  {
    hide IsLine, Gets;
    if lines == [] {
      NoLinesLeft(text);
    } else {
      GetsLine(text, i, lines[0], Text(lines[1..]));
      LinesBack(text, i + |lines[0]|, lines[1..]);
    }
  }

  lemma {:induction false} NoLinesLeft(text: string)
    ensures Gets(text, |text|) == []
  {
  }

  /**
    A printed text, made of lines with their line feeds, is read back as these lines, if and
    only if each has no line feed before its end, no NUL, and at most 511 characters.
   */
  lemma {:induction false} ReadBackIff(lines: seq<string>)
    requires AllEnded(lines)
    ensures Gets(Text(lines), 0) == lines <==> AllLines(lines)
  {
    var text := Text(lines);
    if AllLines(lines) {
      assert text[0..] == text;
      LinesBack(text, 0, lines);
    } else if Gets(text, 0) == lines {
      PiecesOnly(text, 0);
    }
  }
}
