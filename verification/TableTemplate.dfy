/**
  Reading the table template file (`parseTableTemplate` of `src/stdout_parser.c`, lines
  191-296), from the lines `fgets` returns.
 */
module TableTemplate {
  import opened CStrings
  import opened Numbers
  import opened Tables
  import opened FileLines

  const OPEN := "===table==="
  const CLOSE := "===end_table==="
  const SEP := "table_sep="
  const HEADER := "header="
  const VAL_NAME := "val_name="
  const COLS := "cols="
  const NUM_VALS := "num_vals="
  const VAL_SEP := "val_sep="

  /** Lines 218-223: without line feeds and carriage returns at the end. */
  function Trim(line: string): string {
    if line != "" && line[|line| - 1] in {'\n', '\r'} then Trim(line[..|line| - 1]) else line
  }

  /** `strncpy` without a terminating NUL: a longer earlier text keeps its tail. */
  function Overwrite(before: string, text: string): string {
    if |text| >= |before| then text else text + before[|text|..]
  }

  /** The new text, and behind it what is left of a longer one. */
  lemma OverwriteAt(before: string, text: string, k: nat)
    ensures |Overwrite(before, text)| == if |text| < |before| then |before| else |text|
    ensures k < |text| ==> Overwrite(before, text)[k] == text[k]
    ensures |text| <= k < |before| ==> Overwrite(before, text)[k] == before[k]
  {
  }

  /** What is cut is line feeds and carriage returns, and what is left does not end in one. */
  lemma {:induction false} TrimIs(line: string)
    ensures var t := Trim(line);
      && t <= line && (t != "" ==> t[|t| - 1] !in {'\n', '\r'})
      && forall k | |t| <= k < |line| :: line[k] in {'\n', '\r'}
    decreases |line|
  {
    if line != "" && line[|line| - 1] in {'\n', '\r'} {
      TrimIs(line[..|line| - 1]);
    }
  }

  /** What a line says behind a key of length `n`: the copy starts there wherever the key was found. */
  function Behind(line: string, n: nat): string {
    if n <= |line| then line[n..] else ""
  }

  /** What a line of a table block does to the table; `found` counts the value names of all blocks. */
  function Describe(t: TableDef, found: nat, line: string): TableDef
    requires |t.valNames| == MAX_VALS
  {
    TableDef(
      if Contains(line, SEP) then Overwrite(t.sep, Behind(line, 10)) else t.sep,
      if Contains(line, VAL_SEP) then Overwrite(t.valSep, Behind(line, 8)) else t.valSep,
      if Contains(line, HEADER) && |t.headers| < MAX_HEADERS then t.headers + [Behind(line, 7)] else t.headers,
      if Contains(line, COLS) then Atoi(Behind(line, 5)) else t.cols,
      if Contains(line, VAL_NAME) && found < MAX_VALS then t.valNames[found := Behind(line, 9)] else t.valNames,
      if Contains(line, NUM_VALS) then Atoi(Behind(line, 9)) else t.numVals)
  }

  /** Behind a key that is not at the start of its line, the text still starts as many characters from the start as the key has. */
  lemma KeyInside(t: TableDef, found: nat, front: string, text: string)
    requires |t.valNames| == MAX_VALS
    ensures Describe(t, found, front + "table_sep=" + text).sep == Overwrite(t.sep, (front + "table_sep=" + text)[10..])
    ensures Describe(t, found, front + "val_sep=" + text).valSep == Overwrite(t.valSep, (front + "val_sep=" + text)[8..])
    ensures |t.headers| < 10 ==>
      Describe(t, found, front + "header=" + text).headers == t.headers + [(front + "header=" + text)[7..]]
    ensures found < 20 ==>
      Describe(t, found, front + "val_name=" + text).valNames == t.valNames[found := (front + "val_name=" + text)[9..]]
    ensures Describe(t, found, front + "cols=" + text).cols == Atoi((front + "cols=" + text)[5..])
    ensures Describe(t, found, front + "num_vals=" + text).numVals == Atoi((front + "num_vals=" + text)[9..])
  {
    hide Contains, Overwrite, Atoi;
    ContainsMiddle(front, SEP, text);
    ContainsMiddle(front, VAL_SEP, text);
    ContainsMiddle(front, HEADER, text);
    ContainsMiddle(front, VAL_NAME, text);
    ContainsMiddle(front, COLS, text);
    ContainsMiddle(front, NUM_VALS, text);
  }

  datatype Reader = Reader(tables: seq<TableDef>, inTable: bool, found: nat)

  predicate ReaderOk(r: Reader) {
    && (r.inTable ==> r.tables != [])
    && forall i | 0 <= i < |r.tables| :: |r.tables[i].valNames| == MAX_VALS && |r.tables[i].headers| <= MAX_HEADERS
  }

  const FRESH := Reader([], false, 0)

  function ReadLine(r: Reader, line: string): (r': Reader)
    requires ReaderOk(r)
    ensures ReaderOk(r')
  {
    if !r.inTable then
      Reader(if Contains(line, OPEN) then r.tables + [Blank()] else r.tables, Contains(line, OPEN), r.found)
    else
      Reader(r.tables[|r.tables| - 1 := Describe(r.tables[|r.tables| - 1], r.found, line)],
             !Contains(line, CLOSE),
             if Contains(line, VAL_NAME) && r.found < MAX_VALS then r.found + 1 else r.found)
  }

  /** The body of the loop of lines 213-292. */
  function Read(r: Reader, raw: string): (r': Reader)
    requires ReaderOk(r)
    ensures ReaderOk(r')
  {
    if raw == "" then r else ReadLine(r, Trim(raw))
  }

  function ReadAll(r: Reader, lines: seq<string>): (r': Reader)
    requires ReaderOk(r)
    ensures ReaderOk(r')
    decreases |lines|
  {
    if lines == [] then r else ReadAll(Read(r, lines[0]), lines[1..])
  }

  lemma {:induction false} ReadAllAppend(r: Reader, a: seq<string>, b: seq<string>)
    requires ReaderOk(r)
    ensures ReadAll(r, a + b) == ReadAll(ReadAll(r, a), b)
    decreases |a|
  {
    if a == [] {
      assert a + b == b;
    } else {
      assert (a + b)[1..] == a[1..] + b;
      ReadAllAppend(Read(r, a[0]), a[1..], b);
    }
  }

  // -- Printing a template

  datatype Block = Block(sep: string, valSep: string, headers: seq<string>, cols: int, names: seq<string>, numVals: int)

  const KEYS := [SEP, VAL_SEP, HEADER, COLS, VAL_NAME, NUM_VALS]

  /** The text can stand behind a key: no key and no end mark can be read into the line, and it is not cut or trimmed. */
  predicate Plain(text: string) {
    && (forall k | 0 <= k < |KEYS| :: !Contains(text, KEYS[k]))
    && !Contains("=" + text, CLOSE)
    && (text != "" ==> text[|text| - 1] != '\r') && '\n' !in text && NUL !in text
  }

  /** It can stand behind this key: with its line feed, the line fits in the line buffer. */
  predicate Prints(key: string, text: string) {
    Plain(text) && |key| + |text| + 1 < LINE_LEN
  }

  lemma KeyShape(k: string)
    requires k in KEYS
    ensures 5 <= |k| <= 10 && k[|k| - 1] == '='
    ensures forall j | 0 <= j < |k| - 1 :: k[j] != '='
  {
  }

  /** The character before the "=" of a key. */
  lemma BeforeEquals(k: string)
    requires k in KEYS
    ensures |k| >= 2
    ensures k[|k| - 2] == if k == SEP || k == VAL_SEP then 'p' else if k == HEADER then 'r' else if k == VAL_NAME then 'e' else 's'
  {
  }

  lemma SameBeforeEquals(key: string, k: string)
    requires key in KEYS && k in KEYS
    ensures |k| >= 2 && |key| >= 2
    ensures k[|k| - 2] == key[|key| - 2] && |k| <= |key| ==>
      key == k || (key == SEP && k == VAL_SEP) || (key == NUM_VALS && k == COLS)
  {
    BeforeEquals(key);
    BeforeEquals(k);
  }

  /** No key is the end of another one. */
  lemma KeyEnds(key: string, k: string)
    requires key in KEYS && k in KEYS && |k| <= |key| && key[|key| - |k|..] == k
    ensures key == k
  {
    SameBeforeEquals(key, k);
    assert key[|key| - |k|..][|k| - 2] == key[|key| - 2];
    assert SEP[2..][2] == 'e' && VAL_SEP[2] == 'l';
    assert NUM_VALS[4..][1] == 'a' && COLS[1] == 'o';
  }

  /** A key can only occur in "key text" where its "=" is the one that ends the key, or inside the text. */
  lemma OccursAt(key: string, text: string, k: string, i: nat)
    requires key in KEYS && k in KEYS && ContainsAt(key + text, k, i)
    ensures i >= |key| ==> ContainsAt(text, k, i - |key|)
    ensures i < |key| ==> k == key
  {
    var line, part := key + text, (key + text)[i..i + |k|];
    KeyShape(key);
    KeyShape(k);
    if i >= |key| {
      assert text[i - |key|..i - |key| + |k|] == part;
    } else {
      var e := Min(i + |k|, |key|) - 1;
      assert part[e - i] == line[e] == key[e];
      assert e == |key| - 1 == i + |k| - 1;
      assert key[|key| - |k|..] == part;
      KeyEnds(key, k);
    }
  }

  /** A line that starts with one key and goes on with plain text holds no other key. */
  lemma OnlyKey(key: string, text: string, k: string)
    requires key in KEYS && k in KEYS && !Contains(text, k)
    ensures Contains(key + text, k) <==> k == key
  {
    var line := key + text;
    forall i: nat | i <= |line| && ContainsAt(line, k, i) ensures k == key {
      OccursAt(key, text, k, i);
      if i >= |key| {
        assert i - |key| <= |text|;
      }
    }
    assert line[0..|key|] == key;
    assert ContainsAt(line, key, 0);
  }

  lemma FoundBehind(front: string, rest: string, pat: string, i: nat)
    requires |front| <= i <= |front + rest| && ContainsAt(front + rest, pat, i)
    ensures ContainsAt(rest, pat, i - |front|)
  {
    assert (front + rest)[i..i + |pat|] == rest[i - |front|..i - |front| + |pat|];
  }

  lemma NoClose(key: string, text: string)
    requires key in KEYS && !Contains("=" + text, CLOSE)
    ensures !Contains(key + text, CLOSE)
  {
    hide *;
    KeyShape(key);
    var front, rest := key[..|key| - 1], "=" + text;
    assert key + text == front + rest;
    NoCloseIn(front, rest);
  }

  lemma NoCloseIn(front: string, rest: string)
    requires '=' !in front && !Contains(rest, CLOSE)
    ensures !Contains(front + rest, CLOSE)
  {
    hide ContainsAt;
    forall i: nat | i <= |front + rest| ensures !ContainsAt(front + rest, CLOSE, i) {
      if ContainsAt(front + rest, CLOSE, i) {
        if i < |front| {
          StartsAt(front + rest, CLOSE, i);
        } else {
          FoundBehind(front, rest, CLOSE, i);
        }
      }
    }
  }

  lemma StartsAt(line: string, pat: string, i: nat)
    requires i <= |line| && pat != "" && ContainsAt(line, pat, i)
    ensures i < |line| && line[i] == pat[0]
  {
    assert line[i..i + |pat|][0] == line[i];
  }

  lemma {:induction false} TrimsTo(line: string)
    requires line != "" ==> line[|line| - 1] !in {'\n', '\r'}
    ensures Trim(line + "\n") == line
  {
    var raw := line + "\n";
    assert raw[..|raw| - 1] == line;
  }

  /** A printed line holds its key, no other, and no end mark, and behind the key is the text. */
  lemma {:induction false} KeyedLine(key: string, text: string)
    requires key in KEYS && Prints(key, text)
    ensures forall k | k in KEYS :: Contains(key + text, k) <==> k == key
    ensures !Contains(key + text, CLOSE) && Trim(key + text + "\n") == key + text && Behind(key + text, |key|) == text
  {
    hide Contains;
    forall k | k in KEYS ensures Contains(key + text, k) <==> k == key {
      var i: nat :| i < |KEYS| && KEYS[i] == k;
      OnlyKey(key, text, k);
    }
    NoClose(key, text);
    KeyShape(key);
    TrimsTo(key + text);
  }

  lemma KeysAre(key: string)
    ensures |SEP| == 10 && |VAL_SEP| == 8 && |HEADER| == 7 && |COLS| == 5 && |VAL_NAME| == 9 && |NUM_VALS| == 9
    ensures SEP in KEYS && VAL_SEP in KEYS && HEADER in KEYS && COLS in KEYS && VAL_NAME in KEYS && NUM_VALS in KEYS
    ensures key in KEYS ==> key == SEP || key == VAL_SEP || key == HEADER || key == COLS || key == VAL_NAME || key == NUM_VALS
    ensures SEP != VAL_SEP && SEP != HEADER && SEP != COLS && SEP != VAL_NAME && SEP != NUM_VALS && VAL_SEP != HEADER
    ensures VAL_NAME != NUM_VALS && VAL_NAME != HEADER && VAL_NAME != COLS && VAL_NAME != VAL_SEP
  {
    assert KEYS[0] == SEP && KEYS[1] == VAL_SEP && KEYS[2] == HEADER && KEYS[3] == COLS && KEYS[4] == VAL_NAME && KEYS[5] == NUM_VALS;
    assert SEP[0] == 't' && HEADER[0] == 'h' && COLS[0] == 'c' && VAL_NAME[4] == 'n' && VAL_SEP[4] == 's';
  }

  /** Reading a printed line "key text": the one effect of its key, on the last table. */
  lemma ReadKeyLine(r: Reader, key: string, text: string)
    requires ReaderOk(r) && r.inTable && key in KEYS && Prints(key, text)
    ensures Read(r, key + text + "\n") == Keyed(r, key, text)
  {
    hide Contains, Prints, Trim, Behind, Atoi, Overwrite;
    KeyedLine(key, text);
    KeysAre(key);
  }

  /** The effect of one key. */
  function Keyed(r: Reader, key: string, text: string): (r': Reader)
    requires ReaderOk(r) && r.inTable && key in KEYS
  {
    var last := |r.tables| - 1;
    var t := r.tables[last];
    if key == SEP then r.(tables := r.tables[last := t.(sep := Overwrite(t.sep, text))])
    else if key == VAL_SEP then r.(tables := r.tables[last := t.(valSep := Overwrite(t.valSep, text))])
    else if key == HEADER then
      if |t.headers| < MAX_HEADERS then r.(tables := r.tables[last := t.(headers := t.headers + [text])]) else r
    else if key == COLS then r.(tables := r.tables[last := t.(cols := Atoi(text))])
    else if key == NUM_VALS then r.(tables := r.tables[last := t.(numVals := Atoi(text))])
    else
      if r.found < MAX_VALS then
        Reader(r.tables[last := t.(valNames := t.valNames[r.found := text])], true, r.found + 1)
      else r
  }

  // -- Whole blocks

  function Min(a: nat, b: nat): nat {
    if a < b then a else b
  }

  /** The texts, written over `names` from position `at` on, as far as there is room. */
  function Place(names: seq<string>, at: nat, texts: seq<string>): (r: seq<string>)
    ensures |r| == |names|
    decreases |texts|
  {
    if texts == [] || at >= |names| then names else Place(names[at := texts[0]], at + 1, texts[1..])
  }

  lemma {:induction false} PlaceAt(names: seq<string>, at: nat, texts: seq<string>, i: nat)
    requires i < |names|
    ensures Place(names, at, texts)[i] == if at <= i < at + |texts| then texts[i - at] else names[i]
    decreases |texts|
  {
    if texts != [] && at < |names| {
      PlaceAt(names[at := texts[0]], at + 1, texts[1..], i);
    }
  }

  function KeyLines(key: string, texts: seq<string>): seq<string> {
    if texts == [] then [] else [key + texts[0] + "\n"] + KeyLines(key, texts[1..])
  }

  function Print(b: Block): seq<string> {
    [OPEN + "\n"] + [SEP + b.sep + "\n"] + KeyLines(HEADER, b.headers) + [COLS + Signed(b.cols) + "\n"]
    + [VAL_SEP + b.valSep + "\n"] + [NUM_VALS + Signed(b.numVals) + "\n"] + KeyLines(VAL_NAME, b.names) + [CLOSE + "\n"]
  }

  predicate AllPrint(key: string, texts: seq<string>) {
    forall i | 0 <= i < |texts| :: Prints(key, texts[i])
  }

  predicate PlainBlock(b: Block) {
    && Prints(SEP, b.sep) && Prints(VAL_SEP, b.valSep) && AllPrint(HEADER, b.headers) && AllPrint(VAL_NAME, b.names)
    && InInt(b.cols) && InInt(b.numVals)
  }

  /** The table read for a block when `found` value names came before it. */
  function TableOf(b: Block, found: nat): TableDef {
    TableDef(b.sep, b.valSep, b.headers[..Min(|b.headers|, MAX_HEADERS)], b.cols,
             Place(NoNames(), found, b.names), b.numVals)
  }

  /** At most 10 headers; the names from their first slot on, as far as the 20 slots go; the rest as printed. */
  lemma TableOfAt(b: Block, found: nat, i: nat)
    ensures var t := TableOf(b, found);
      && t.sep == b.sep && t.valSep == b.valSep && t.cols == b.cols && t.numVals == b.numVals
      && |t.headers| == (if |b.headers| < 10 then |b.headers| else 10) && t.headers <= b.headers
      && |t.valNames| == 20 && (i < 20 ==> t.valNames[i] == if found <= i < found + |b.names| then b.names[i - found] else "")
  {
    if i < 20 {
      PlaceAt(NoNames(), found, b.names, i);
    }
  }

  function Last(r: Reader): TableDef
    requires ReaderOk(r) && r.inTable
  {
    r.tables[|r.tables| - 1]
  }

  function WithLast(r: Reader, t: TableDef): (r': Reader)
    requires ReaderOk(r) && r.inTable
  {
    r.(tables := r.tables[|r.tables| - 1 := t])
  }

  function Capped(headers: seq<string>): (r: seq<string>)
    ensures |r| <= MAX_HEADERS
  {
    headers[..Min(|headers|, MAX_HEADERS)]
  }

  lemma HeadersStep(headers: seq<string>, texts: seq<string>)
    requires |headers| <= MAX_HEADERS && texts != []
    ensures |headers| < MAX_HEADERS ==> Capped((headers + [texts[0]]) + texts[1..]) == Capped(headers + texts)
    ensures |headers| == MAX_HEADERS ==> Capped(headers + texts[1..]) == headers == Capped(headers + texts)
  {
    assert headers + texts == (headers + [texts[0]]) + texts[1..];
  }

  lemma {:induction false} ReadHeaders(r: Reader, texts: seq<string>)
    requires ReaderOk(r) && r.inTable && AllPrint(HEADER, texts)
    ensures ReadAll(r, KeyLines(HEADER, texts)) == WithLast(r, Last(r).(headers := Capped(Last(r).headers + texts)))
    decreases |texts|
  {
    hide Read, Plain, Contains, Prints;
    if texts == [] {
      assert Capped(Last(r).headers + []) == Last(r).headers;
    } else {
      HeadersStep(Last(r).headers, texts);
      ReadKeyLine(r, HEADER, texts[0]);
      ReadHeaders(Keyed(r, HEADER, texts[0]), texts[1..]);
    }
  }

  /** The effect of a number of value names. */
  function Named(r: Reader, texts: seq<string>): Reader
    requires ReaderOk(r) && r.inTable
  {
    WithLast(r, Last(r).(valNames := Place(Last(r).valNames, r.found, texts))).(found := Min(r.found + |texts|, MAX_VALS))
  }

  lemma NamedStep(r: Reader, texts: seq<string>)
    requires ReaderOk(r) && r.inTable && r.found <= MAX_VALS && texts != []
    ensures Named(Keyed(r, VAL_NAME, texts[0]), texts[1..]) == Named(r, texts)
  {
    var next := Keyed(r, VAL_NAME, texts[0]);
    assert Last(next) == if r.found < MAX_VALS then Last(r).(valNames := Last(r).valNames[r.found := texts[0]]) else Last(r);
  }

  lemma {:induction false} ReadNames(r: Reader, texts: seq<string>)
    requires ReaderOk(r) && r.inTable && r.found <= MAX_VALS && AllPrint(VAL_NAME, texts)
    ensures ReadAll(r, KeyLines(VAL_NAME, texts)) == Named(r, texts)
    decreases |texts|
  {
    if texts == [] {
      assert Place(Last(r).valNames, r.found, []) == Last(r).valNames;
    } else {
      ReadKeyLine(r, VAL_NAME, texts[0]);
      NamedStep(r, texts);
      ReadNames(Keyed(r, VAL_NAME, texts[0]), texts[1..]);
    }
  }

  /** All keys and the end mark have an equals sign. */
  lemma WithoutEquals(s: string)
    requires forall i | 0 <= i < |s| :: s[i] !in {'=', '\n', '\r', NUL}
    ensures Plain(s)
  {
    forall k | 0 <= k < |KEYS| ensures !Contains(s, KEYS[k]) {
      KeyShape(KEYS[k]);
      forall i: nat | i <= |s| ensures !ContainsAt(s, KEYS[k], i) {
        var e := |KEYS[k]| - 1;
        assert i + e < |s| ==> s[i..i + e + 1][e] == s[i + e];
      }
    }
    forall i: nat | i <= |"=" + s| ensures !ContainsAt("=" + s, CLOSE, i) {
      assert i + 2 < |"=" + s| ==> ("=" + s)[i + 1] == s[i];
    }
  }

  lemma SignedIsPlain(n: int)
    requires InInt(n)
    ensures Prints(COLS, Signed(n)) && Prints(NUM_VALS, Signed(n))
  {
    hide Plain;
    var s := Signed(n);
    SignedShort(n);
    assert forall i | 0 <= i < |s| :: s[i] !in {'=', '\n', '\r', NUL} by {
      assert forall i | 0 < i < |s| :: n < 0 ==> s[i] == s[1..][i - 1];
    }
    WithoutEquals(s);
  }

  lemma ReadOpen(r: Reader)
    requires ReaderOk(r) && !r.inTable
    ensures Read(r, OPEN + "\n") == Reader(r.tables + [Blank()], true, r.found)
  {
    TrimsTo(OPEN);
    ContainsSelf(OPEN);
  }

  lemma ReadClose(r: Reader)
    requires ReaderOk(r) && r.inTable
    ensures Read(r, CLOSE + "\n") == r.(inTable := false)
  {
    TrimsTo(CLOSE);
    ContainsSelf(CLOSE);
    forall k | k in KEYS ensures !Contains(CLOSE, k) {
      KeyShape(k);
      NotInClose(k);
    }
    assert KEYS[0] == SEP && KEYS[1] == VAL_SEP && KEYS[2] == HEADER && KEYS[3] == COLS && KEYS[4] == VAL_NAME && KEYS[5] == NUM_VALS;
    assert r.tables[|r.tables| - 1 := Last(r)] == r.tables;
  }

  /** The last two characters of a key are a letter and "="; in the end mark that is "e=", behind an "l". */
  lemma NotInClose(k: string)
    requires k in KEYS
    ensures !Contains(CLOSE, k)
  {
    KeyShape(k);
    var n := |k|;
    forall i: nat | i <= |CLOSE| ensures !ContainsAt(CLOSE, k, i) {
      if i + n <= |CLOSE| {
        var part := CLOSE[i..i + n];
        assert part[n - 1] == CLOSE[i + n - 1] && part[n - 2] == CLOSE[i + n - 2] && part[n - 3] == CLOSE[i + n - 3];
      }
    }
  }

  lemma {:induction false} ReadLast(r: Reader, lines: seq<string>, raw: string)
    requires ReaderOk(r)
    ensures ReadAll(r, lines + [raw]) == Read(ReadAll(r, lines), raw)
  {
    ReadAllAppend(r, lines, [raw]);
    var mid := ReadAll(r, lines);
    assert ReadAll(Read(mid, raw), [raw][1..]) == Read(mid, raw);
  }

  /** One printed block, read outside a table, adds one table: the one it was printed from. */
  lemma {:induction false} ReadBlock(r: Reader, b: Block)
    requires ReaderOk(r) && !r.inTable && r.found <= MAX_VALS && PlainBlock(b)
    ensures ReadAll(r, Print(b)) == Reader(r.tables + [TableOf(b, r.found)], false, Min(r.found + |b.names|, MAX_VALS))
  {
    var p1 := [OPEN + "\n"];
    var p2 := p1 + [SEP + b.sep + "\n"];
    var p3 := p2 + KeyLines(HEADER, b.headers);
    var p4 := p3 + [COLS + Signed(b.cols) + "\n"];
    var p5 := p4 + [VAL_SEP + b.valSep + "\n"];
    var p6 := p5 + [NUM_VALS + Signed(b.numVals) + "\n"];
    var p7 := p6 + KeyLines(VAL_NAME, b.names);
    assert [] + p1 == p1;
    ReadLast(r, [], OPEN + "\n");
    ReadLast(r, p1, SEP + b.sep + "\n");
    ReadAllAppend(r, p2, KeyLines(HEADER, b.headers));
    ReadLast(r, p3, COLS + Signed(b.cols) + "\n");
    ReadLast(r, p4, VAL_SEP + b.valSep + "\n");
    ReadLast(r, p5, NUM_VALS + Signed(b.numVals) + "\n");
    ReadAllAppend(r, p6, KeyLines(VAL_NAME, b.names));
    ReadLast(r, p7, CLOSE + "\n");
    ReadBlockSteps(r, b);
  }

  /** Inside a block: the tables before, the table of the block, and the names found. */
  function In(front: seq<TableDef>, t: TableDef, found: nat): Reader {
    Reader(front + [t], true, found)
  }

  lemma InLast(front: seq<TableDef>, t: TableDef, found: nat, u: TableDef)
    requires ReaderOk(In(front, t, found))
    ensures Last(In(front, t, found)) == t && WithLast(In(front, t, found), u) == In(front, u, found)
  {
    assert (front + [t])[|front| := u] == front + [u];
  }

  lemma {:induction false} InSingle(front: seq<TableDef>, t: TableDef, found: nat, key: string, text: string)
    requires ReaderOk(In(front, t, found)) && Prints(key, text) && key in KEYS && key != HEADER && key != VAL_NAME
    ensures Read(In(front, t, found), key + text + "\n") ==
      In(front,
         if key == SEP then t.(sep := Overwrite(t.sep, text))
         else if key == VAL_SEP then t.(valSep := Overwrite(t.valSep, text))
         else if key == COLS then t.(cols := Atoi(text))
         else t.(numVals := Atoi(text)),
         found)
  {
    ReadKeyLine(In(front, t, found), key, text);
    assert forall u: TableDef :: (front + [t])[|front| := u] == front + [u];
  }

  lemma {:induction false} InHeaders(front: seq<TableDef>, t: TableDef, found: nat, texts: seq<string>)
    requires ReaderOk(In(front, t, found)) && AllPrint(HEADER, texts) && t.headers == []
    ensures ReadAll(In(front, t, found), KeyLines(HEADER, texts)) == In(front, t.(headers := Capped(texts)), found)
  {
    ReadHeaders(In(front, t, found), texts);
    assert [] + texts == texts;
    InLast(front, t, found, t.(headers := Capped(texts)));
  }

  lemma {:induction false} InNames(front: seq<TableDef>, t: TableDef, found: nat, texts: seq<string>)
    requires ReaderOk(In(front, t, found)) && AllPrint(VAL_NAME, texts) && found <= MAX_VALS
    ensures ReadAll(In(front, t, found), KeyLines(VAL_NAME, texts)) ==
      In(front, t.(valNames := Place(t.valNames, found, texts)), Min(found + |texts|, MAX_VALS))
  {
    var r, u := In(front, t, found), t.(valNames := Place(t.valNames, found, texts));
    ReadNames(r, texts);
    InLast(front, t, found, u);
    assert Named(r, texts) == WithLast(r, u).(found := Min(found + |texts|, MAX_VALS));
  }

  /** The states between the parts of a block. */
  lemma ReadBlockSteps(r: Reader, b: Block)
    requires ReaderOk(r) && !r.inTable && r.found <= MAX_VALS && PlainBlock(b)
    ensures
      var r1 := Read(r, OPEN + "\n");
      var r2 := Read(r1, SEP + b.sep + "\n");
      var r3 := ReadAll(r2, KeyLines(HEADER, b.headers));
      var r4 := Read(r3, COLS + Signed(b.cols) + "\n");
      var r5 := Read(r4, VAL_SEP + b.valSep + "\n");
      var r6 := Read(r5, NUM_VALS + Signed(b.numVals) + "\n");
      var r7 := ReadAll(r6, KeyLines(VAL_NAME, b.names));
      Read(r7, CLOSE + "\n") == Reader(r.tables + [TableOf(b, r.found)], false, Min(r.found + |b.names|, MAX_VALS))
  {
    hide Contains, Read, Trim, Atoi;
    var t2 := Blank().(sep := b.sep);
    var t3 := t2.(headers := Capped(b.headers));
    var t4 := t3.(cols := b.cols);
    var t5 := t4.(valSep := b.valSep);
    var t6 := t5.(numVals := b.numVals);
    ReadOpen(r);
    InSingle(r.tables, Blank(), r.found, SEP, b.sep);
    InHeaders(r.tables, t2, r.found, b.headers);
    AtoiOfSigned(b.cols);
    SignedIsPlain(b.cols);
    InSingle(r.tables, t3, r.found, COLS, Signed(b.cols));
    InSingle(r.tables, t4, r.found, VAL_SEP, b.valSep);
    AtoiOfSigned(b.numVals);
    SignedIsPlain(b.numVals);
    InSingle(r.tables, t5, r.found, NUM_VALS, Signed(b.numVals));
    InNames(r.tables, t6, r.found, b.names);
    ReadClose(In(r.tables, TableOf(b, r.found), Min(r.found + |b.names|, MAX_VALS)));
  }

  // -- Whole files

  function PrintAll(bs: seq<Block>): seq<string> {
    if bs == [] then [] else Print(bs[0]) + PrintAll(bs[1..])
  }

  /** How many value names come before block `k`. */
  function NamesBefore(bs: seq<Block>, k: nat): nat
    requires k <= |bs|
  {
    if k == 0 then 0 else NamesBefore(bs, k - 1) + |bs[k - 1].names|
  }

  predicate PlainBlocks(bs: seq<Block>) {
    forall i | 0 <= i < |bs| :: PlainBlock(bs[i])
  }

  /** The tables of the blocks, each with its names behind those of all earlier blocks. */
  function TablesOf(bs: seq<Block>, found: nat): (r: seq<TableDef>)
    ensures |r| == |bs|
  {
    if bs == [] then [] else [TableOf(bs[0], found)] + TablesOf(bs[1..], Min(found + |bs[0].names|, MAX_VALS))
  }

  /** Reading a printed template gives the tables it was printed from. */
  lemma {:induction false} ReadTemplate(bs: seq<Block>, r: Reader)
    requires PlainBlocks(bs) && ReaderOk(r) && !r.inTable && r.found <= MAX_VALS
    ensures ReadAll(r, PrintAll(bs)).tables == r.tables + TablesOf(bs, r.found)
    ensures !ReadAll(r, PrintAll(bs)).inTable
    decreases |bs|
  {
    if bs == [] {
      assert r.tables + [] == r.tables;
    } else {
      ReadFirst(bs, r);
      ReadTemplate(bs[1..], AfterBlock(r, bs[0]));
      TablesShift(bs, r);
    }
  }

  lemma {:induction false} TablesShift(bs: seq<Block>, r: Reader)
    requires bs != []
    ensures AfterBlock(r, bs[0]).tables + TablesOf(bs[1..], AfterBlock(r, bs[0]).found) == r.tables + TablesOf(bs, r.found)
  {
    Assoc(r.tables, TableOf(bs[0], r.found), TablesOf(bs[1..], AfterBlock(r, bs[0]).found));
  }

  lemma Assoc<T>(a: seq<T>, x: T, b: seq<T>)
    ensures (a + [x]) + b == a + ([x] + b)
  {
  }

  function AfterBlock(r: Reader, b: Block): Reader {
    Reader(r.tables + [TableOf(b, r.found)], false, Min(r.found + |b.names|, MAX_VALS))
  }

  lemma {:induction false} ReadFirst(bs: seq<Block>, r: Reader)
    requires PlainBlocks(bs) && bs != [] && ReaderOk(r) && !r.inTable && r.found <= MAX_VALS
    ensures ReadAll(r, PrintAll(bs)) == ReadAll(AfterBlock(r, bs[0]), PrintAll(bs[1..]))
  {
    ReadAllAppend(r, Print(bs[0]), PrintAll(bs[1..]));
    ReadBlock(r, bs[0]);
  }

  /** Block `k` of a file has its names from position `NamesBefore(bs, k)` on, as far as there is room. */
  lemma {:induction false} TableAt(bs: seq<Block>, found: nat, k: nat)
    requires k < |bs| && found <= MAX_VALS
    ensures TablesOf(bs, found)[k] == TableOf(bs[k], Min(found + NamesBefore(bs, k), MAX_VALS))
    decreases |bs|
  {
    if k > 0 {
      TableAt(bs[1..], Min(found + |bs[0].names|, MAX_VALS), k - 1);
      NamesBeforeTail(bs, k);
    }
  }

  lemma {:induction false} NamesBeforeTail(bs: seq<Block>, k: nat)
    requires 0 < k <= |bs|
    ensures NamesBefore(bs, k) == |bs[0].names| + NamesBefore(bs[1..], k - 1)
  {
    if k > 1 {
      NamesBeforeTail(bs, k - 1);
      assert bs[1..][k - 2] == bs[k - 1];
    }
  }

  /**
    The values of a block's rows, numbered from 0, are sent under its own names if and only
    if no value name comes before it in the file.
   */
  lemma OwnNamesIffFirst(b: Block, found: nat)
    requires found <= MAX_VALS && 0 < |b.names| <= MAX_VALS && b.names[0] != ""
    ensures TableOf(b, found).valNames[..|b.names|] == b.names <==> found == 0
  {
    var names := TableOf(b, found).valNames;
    if found == 0 {
      forall i | 0 <= i < |b.names| ensures names[i] == b.names[i] {
        PlaceAt(NoNames(), found, b.names, i);
      }
      assert names[..|b.names|] == b.names;
    } else {
      PlaceAt(NoNames(), found, b.names, 0);
      assert names[..|b.names|][0] == "";
    }
  }

  // -- Printed lines are lines of a file

  lemma KeyLineIsLine(key: string, text: string)
    requires Prints(key, text) && key in KEYS
    ensures IsLine(key + text + "\n")
  {
    KeyCharacters(key);
    var line := key + text + "\n";
    assert forall k | 0 <= k < |line| - 1 :: line[k] == if k < |key| then key[k] else text[k - |key|];
  }

  lemma KeyCharacters(key: string)
    requires key in KEYS
    ensures NUL !in key && '\n' !in key
  {
  }

  lemma MarksAreLines()
    ensures IsLine(OPEN + "\n") && IsLine(CLOSE + "\n")
  {
  }

  lemma {:induction false} KeyLinesAreLines(key: string, texts: seq<string>)
    requires AllPrint(key, texts) && key in KEYS
    ensures AllLines(KeyLines(key, texts))
  {
    hide IsLine, Prints;
    if texts != [] {
      KeyLineIsLine(key, texts[0]);
      KeyLinesAreLines(key, texts[1..]);
    }
  }

  lemma PrintedAreLines(b: Block)
    requires PlainBlock(b)
    ensures AllLines(Print(b))
  {
    hide IsLine, Prints, Signed, Contains;
    assert KEYS[0] == SEP && KEYS[1] == VAL_SEP && KEYS[2] == HEADER && KEYS[3] == COLS && KEYS[4] == VAL_NAME && KEYS[5] == NUM_VALS;
    MarksAreLines();
    SignedIsPlain(b.cols);
    SignedIsPlain(b.numVals);
    KeyLineIsLine(SEP, b.sep);
    KeyLineIsLine(VAL_SEP, b.valSep);
    KeyLineIsLine(COLS, Signed(b.cols));
    KeyLineIsLine(NUM_VALS, Signed(b.numVals));
    KeyLinesAreLines(HEADER, b.headers);
    KeyLinesAreLines(VAL_NAME, b.names);
  }

  /** The text of a printed template is read as its lines. */
  lemma {:induction false} TemplateIsLines(bs: seq<Block>)
    requires PlainBlocks(bs)
    ensures AllLines(PrintAll(bs)) && Gets(Text(PrintAll(bs)), 0) == PrintAll(bs)
  {
    hide IsLine, PlainBlock, Print, Gets, Text;
    if bs != [] {
      PrintedAreLines(bs[0]);
      TemplateIsLines(bs[1..]);
    }
    LinesAreEnded(PrintAll(bs));
    ReadBackIff(PrintAll(bs));
  }

  lemma LinesAreEnded(lines: seq<string>)
    requires AllLines(lines)
    ensures AllEnded(lines)
  {
  }
}
