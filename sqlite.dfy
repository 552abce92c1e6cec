/**
  What the viewer receives from SQLite, as values: a cell is NULL or the
  text Python's `str()` gives for it, a row is a list of cells, and a schema is
  the list of `PRAGMA table_info` rows.
*/
module Sqlite {
  import opened Wrappers

  /** A cell of a fetched row: SQL NULL (Python `None`) or the value's `str()` text. */
  datatype Cell = Null | Val(text: string)

  type Row = seq<Cell>

  /** One row of `PRAGMA table_info`: (cid, name, type, notnull, dflt_value, pk). */
  datatype Column = Column(cid: int, name: string, declType: string, notNull: bool, default: Option<string>, pk: bool)

  /** `str(v) if v is not None else "NULL"`: how the grid and the record view show a cell. */
  function Display(c: Cell): string
  {
    match c
    case Null => "NULL"
    case Val(t) => t
  }

  /** `[col[1] for col in schema]`: the column names in schema order. */
  function Names(schema: seq<Column>): (names: seq<string>)
    ensures |names| == |schema|
    ensures forall i :: 0 <= i < |schema| ==> names[i] == schema[i].name
  {
    seq(|schema|, i requires 0 <= i < |schema| => schema[i].name)
  }

  /** The names of a schema split in two are the names of the parts, and a prefix of the schema names a prefix of the names. */
  lemma NamesSplit(a: seq<Column>, b: seq<Column>, k: nat)
    requires k <= |a|
    ensures Names(a + b) == Names(a) + Names(b)
    ensures Names(a[..k]) == Names(a)[..k]
  {
  }

  /** The database's tables and their schemas, by table name. */
  type Catalog = map<string, seq<Column>>

  /** `get_table_schema(t)`: the columns `PRAGMA table_info` reports, none for a table that does not exist. */
  function SchemaOf(catalog: Catalog, table: string): seq<Column>
  {
    if table in catalog then catalog[table] else []
  }
}
