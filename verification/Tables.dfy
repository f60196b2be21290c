/** The table descriptions of `src/stdout_parser.c` (`table_t`, lines 11-30). */
module Tables {

  const LINE_LEN := 512
  const MAX_TABLES := 10
  const MAX_HEADERS := 10
  const MAX_COLS := 10
  const MAX_VALS := 20

  /** What a `table_t` says about a table, as a value. */
  datatype TableDef = TableDef(
    sep: string,
    valSep: string,
    headers: seq<string>,
    cols: int,
    valNames: seq<string>,
    numVals: int)

  function NoNames(): (r: seq<string>)
    ensures |r| == MAX_VALS && forall i | 0 <= i < MAX_VALS :: r[i] == ""
  {
    seq(MAX_VALS, _ => "")
  }

  /** As `calloc` leaves it. */
  function Blank(): TableDef {
    TableDef("", "", [], 0, NoNames(), 0)
  }

  /** `table_t`: `headerNames` and `valNames` have one entry for each slot of the C arrays. */
  class Table {
    var sep: string
    var valSep: string
    var numHeaders: nat
    var headerNames: seq<string>
    var cols: int
    var valNames: seq<string>
    var numVals: int
    var headersFound: nat

    ghost predicate Valid()
      reads this
    {
      |headerNames| == MAX_HEADERS && numHeaders <= MAX_HEADERS && |valNames| == MAX_VALS
    }

    function Def(): TableDef
      requires Valid()
      reads this
    {
      TableDef(sep, valSep, headerNames[..numHeaders], cols, valNames, numVals)
    }

    constructor ()
      ensures Valid() && Def() == Blank() && headersFound == 0
    {
      sep, valSep := "", "";
      numHeaders, headerNames := 0, seq(MAX_HEADERS, _ => "");
      cols, valNames, numVals := 0, NoNames(), 0;
      headersFound := 0;
    }
  }
}
