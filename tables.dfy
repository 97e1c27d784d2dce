/**
 * What pandas.read_csv hands back, reduced to what the explorer looks at:
 * a rectangular frame of named columns whose cells are numbers, blanks (NaN)
 * or unparsed text, plus the two ways the code turns cells into numbers.
 */
module Tables {
  import opened Wrappers

  /** A parsed cell: a float, a blank / NaN, or text that read_csv left as a string. */
  datatype Cell = Num(v: real) | Missing | Text(s: string)

  datatype Column = Column(name: string, cells: seq<Cell>)

  datatype Frame = Frame(height: nat, columns: seq<Column>)

  predicate Rectangular(f: Frame)
  {
    forall k :: 0 <= k < |f.columns| ==> |f.columns[k].cells| == f.height
  }

  /** A DataFrame: every column has one cell per row. */
  type Table = f: Frame | Rectangular(f) witness Frame(0, [])

  /**
   * pd.read_csv(path, sep='\t', nrows=n, decimal=sep) for the decimal separator
   * currently chosen: a table, or the message of the exception it raised.
   */
  type Reader = (string, Option<nat>) -> Result<Table, string>

  /** pd.to_numeric on one string: its number, or None when it does not parse. */
  type NumberParser = string -> Option<real>

  /** `name in df.columns`. */
  predicate HasColumn(t: Table, name: string)
  {
    exists k :: 0 <= k < |t.columns| && t.columns[k].name == name
  }

  /** Position of the first column called `name`, or |cols| when there is none. */
  function Find(cols: seq<Column>, name: string): (k: nat)
    ensures k <= |cols|
    ensures k < |cols| ==> cols[k].name == name
    ensures forall j :: 0 <= j < k ==> cols[j].name != name
  {
    if cols == [] then 0
    else if cols[0].name == name then 0
    else 1 + Find(cols[1..], name)
  }

  /** df[name]: the column's cells, or None when the table has no such column. */
  function Lookup(t: Table, name: string): (r: Option<seq<Cell>>)
    ensures r.Some? <==> HasColumn(t, name)
    ensures r.Some? ==> |r.value| == t.height
  {
    var k := Find(t.columns, name);
    if k < |t.columns| then Some(t.columns[k].cells) else None
  }

  /** pd.to_numeric(..., errors="coerce") on one cell: NaN for blanks and unparseable text. */
  function Coerce(c: Cell, parseNum: NumberParser): (r: Option<real>)
    ensures c.Num? ==> r == Some(c.v)
    ensures c.Missing? ==> r == None
  {
    match c
    case Num(v) => Some(v)
    case Missing => None
    case Text(s) => parseNum(s)
  }

  /** A cell that the strict pd.to_numeric accepts: only text that does not parse makes it raise. */
  predicate Convertible(c: Cell, parseNum: NumberParser)
  {
    !c.Text? || parseNum(c.s).Some?
  }

  /** pd.to_numeric(df[c]) returns instead of raising. */
  predicate Converts(cells: seq<Cell>, parseNum: NumberParser)
  {
    forall i :: 0 <= i < |cells| ==> Convertible(cells[i], parseNum)
  }
}
