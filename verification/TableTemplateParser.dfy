/**
  `parseTableTemplate` of `src/stdout_parser.c` (lines 191-296) as it runs: table structs
  are allocated block by block and filled field by field. Proved against module TableTemplate.
 */
module TableTemplateParser {
  import opened CStrings
  import opened Numbers
  import opened Tables
  import opened TableTemplate

  /** The table structs, all different, hold the descriptions `defs`; no header is found yet. */
  ghost predicate Hold(tables: seq<Table>, defs: seq<TableDef>)
    reads tables
  {
    && |tables| == |defs|
    && (forall i, j | 0 <= i < j < |tables| :: tables[i] != tables[j])
    && forall i | 0 <= i < |tables| :: tables[i].Valid() && tables[i].Def() == defs[i] && tables[i].headersFound == 0
  }

  /** Lines 218-223. */
  method TrimLine(raw: string) returns (line: string)
    ensures line == Trim(raw)
  {
    line := raw;
    while line != "" && line[|line| - 1] in {'\n', '\r'}
      invariant Trim(line) == Trim(raw)
      decreases |line|
    {
      line := line[..|line| - 1];
    }
  }

  /** Lines 248-262: a header name, a value name. */
  method FillNames(table: Table, line: string, valsFound: nat) returns (valsFound': nat)
    requires table.Valid()
    modifies table`numHeaders, table`headerNames, table`valNames
    ensures table.Valid()
    ensures table.headerNames[..table.numHeaders] ==
      old(table.headerNames[..table.numHeaders]) +
      if Contains(line, HEADER) && old(table.numHeaders) < MAX_HEADERS then [Behind(line, 7)] else []
    ensures table.valNames ==
      if Contains(line, VAL_NAME) && valsFound < MAX_VALS then old(table.valNames)[valsFound := Behind(line, 9)] else old(table.valNames)
    ensures valsFound' == if Contains(line, VAL_NAME) && valsFound < MAX_VALS then valsFound + 1 else valsFound
  {
    if Contains(line, HEADER) && table.numHeaders < MAX_HEADERS {
      table.headerNames := table.headerNames[table.numHeaders := Behind(line, 7)];
      table.numHeaders := table.numHeaders + 1;
    }
    valsFound' := valsFound;
    if Contains(line, VAL_NAME) && valsFound < MAX_VALS {
      table.valNames := table.valNames[valsFound := Behind(line, 9)];
      valsFound' := valsFound + 1;
    }
  }

  /** Lines 240-283, for a line inside a block. */
  method FillTable(table: Table, line: string, valsFound: nat, ghost t: TableDef) returns (valsFound': nat)
    requires table.Valid() && table.Def() == t
    modifies table
    ensures table.Valid() && table.Def() == Describe(t, valsFound, line)
    ensures table.headersFound == old(table.headersFound)
    ensures valsFound' == if Contains(line, VAL_NAME) && valsFound < MAX_VALS then valsFound + 1 else valsFound
  {
    hide Contains, Behind, Overwrite, Atoi;
    if Contains(line, SEP) {
      table.sep := Overwrite(table.sep, Behind(line, 10));
    }
    valsFound' := FillNames(table, line, valsFound);
    if Contains(line, COLS) {
      table.cols := Atoi(Behind(line, 5));
    }
    if Contains(line, NUM_VALS) {
      table.numVals := Atoi(Behind(line, 9));
    }
    if Contains(line, VAL_SEP) {
      table.valSep := Overwrite(table.valSep, Behind(line, 8));
    }
  }

  /** The loop body of lines 213-292; `r` is where reading has got to. */
  method ReadTemplateLine(tables: seq<Table>, inTable: bool, valsFound: nat, raw: string, ghost r: Reader)
    returns (tables': seq<Table>, inTable': bool, valsFound': nat)
    requires ReaderOk(r) && Hold(tables, r.tables) && inTable == r.inTable && valsFound == r.found
    modifies tables
    ensures Hold(tables', Read(r, raw).tables)
    ensures inTable' == Read(r, raw).inTable && valsFound' == Read(r, raw).found
    ensures forall t <- tables' :: t in tables || fresh(t)
  {
    hide Describe, Contains, Trim;
    tables', inTable', valsFound' := tables, inTable, valsFound;
    if raw == "" {
      return;
    }
    var line := TrimLine(raw);
    if !inTable {
      if Contains(line, OPEN) {
        var t := new Table();
        tables', inTable' := tables + [t], true;
      }
    } else {
      var last := |tables| - 1;
      valsFound' := FillTable(tables[last], line, valsFound, r.tables[last]);
      if Contains(line, CLOSE) {
        inTable' := false;
      }
    }
  }

  /** Lines 203-295, on the lines of the file. */
  method ParseTableTemplate(lines: seq<string>) returns (tables: seq<Table>)
    requires |ReadAll(FRESH, lines).tables| <= MAX_TABLES
    ensures Hold(tables, ReadAll(FRESH, lines).tables)
    ensures fresh(set t | t in tables)
  {
    tables := [];
    var inTable, valsFound: nat := false, 0;
    ghost var r := FRESH;
    for n := 0 to |lines|
      invariant ReaderOk(r) && ReadAll(r, lines[n..]) == ReadAll(FRESH, lines)
      invariant inTable == r.inTable && valsFound == r.found
      invariant Hold(tables, r.tables)
      invariant fresh(set t | t in tables)
    {
      assert lines[n..][1..] == lines[n + 1..];
      tables, inTable, valsFound := ReadTemplateLine(tables, inTable, valsFound, lines[n], r);
      r := Read(r, lines[n]);
    }
  }
}
