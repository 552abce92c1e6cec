/**
  The fixed-width grid renderer `format_table_data`: one width per column
  (the longest of the name and the cell texts, capped at 20), scaled down with
  a floor of 5 when the total does not fit the window, then a header line, a
  separator line and one line per row, cells joined by " │ ".
*/
module TableFormat {
  import opened Text
  import opened Sqlite

  const MaxColumnWidth: nat := 20
  const MinScaledWidth: nat := 5
  const CellSep := " │ "
  const CrossSep := "─┼─"

  /** Length of the text of column i in a row, 0 when the row is too short to have one. */
  function CellLen(row: Row, i: nat): nat
  {
    if i < |row| then |Display(row[i])| else 0
  }

  /** The running maximum the width loop keeps for column i: the name, then each row in turn. */
  function NeededWidth(name: string, data: seq<Row>, i: nat): nat
  {
    if |data| == 0 then |name|
    else Max(NeededWidth(name, data[..|data| - 1], i), CellLen(data[|data| - 1], i))
  }

  /** Column widths before scaling. */
  function RawWidths(names: seq<string>, data: seq<Row>): (ws: seq<nat>)
    ensures |ws| == |names|
  {
    seq(|names|, i requires 0 <= i < |names| => Min(NeededWidth(names[i], data, i), MaxColumnWidth))
  }

  /** Python's `sum(ws)`. */
  function Sum(ws: seq<nat>): nat
  {
    if |ws| == 0 then 0 else ws[0] + Sum(ws[1..])
  }

  /** `sum(col_widths) + len(col_widths) * 3 + 1 > max_width - 4`: the layout must be scaled. */
  predicate TooWide(ws: seq<nat>, maxWidth: int)
  {
    Sum(ws) + |ws| * 3 + 1 > maxWidth - 4
  }

  /** The numerator of the scale factor, `max_width - 4 - len(col_widths) * 3 - 1`. */
  function Budget(ws: seq<nat>, maxWidth: int): int
  {
    maxWidth - 4 - |ws| * 3 - 1
  }

  /** `[max(5, int(w * budget / sum)) for w in col_widths]`, with exact integer floor. */
  function ScaleWidths(ws: seq<nat>, maxWidth: int): (r: seq<nat>)
    requires Sum(ws) > 0
    ensures |r| == |ws|
  {
    seq(|ws|, i requires 0 <= i < |ws| => Max(MinScaledWidth, ws[i] * Budget(ws, maxWidth) / Sum(ws)))
  }

  /** The scale factor divides by the width sum: it must not be 0 when scaling happens. */
  predicate Scalable(names: seq<string>, data: seq<Row>, maxWidth: int)
  {
    TooWide(RawWidths(names, data), maxWidth) ==> Sum(RawWidths(names, data)) > 0
  }

  /** The inputs on which `format_table_data` returns instead of dividing by zero. */
  predicate Renderable(data: seq<Row>, schema: seq<Column>, maxWidth: int)
  {
    |data| == 0 || |schema| == 0 || Scalable(Names(schema), data, maxWidth)
  }

  /** The final widths: scaled when the raw ones are too wide. */
  function ColumnWidths(names: seq<string>, data: seq<Row>, maxWidth: int): (ws: seq<nat>)
    requires Scalable(names, data, maxWidth)
    ensures |ws| == |names|
  {
    var raw := RawWidths(names, data);
    if TooWide(raw, maxWidth) then ScaleWidths(raw, maxWidth) else raw
  }

  /** One cell of the grid: truncated with "..." when too long, then left-justified to w. */
  function FitCell(s: string, w: nat): string
  {
    PadRight(Ellipsize(s, w), w)
  }

  function HeaderParts(names: seq<string>, ws: seq<nat>): (parts: seq<string>)
    requires |ws| == |names|
    ensures |parts| == |names|
  {
    seq(|names|, i requires 0 <= i < |names| => FitCell(names[i], ws[i]))
  }

  function Rule(ws: seq<nat>): (parts: seq<string>)
    ensures |parts| == |ws|
  {
    seq(|ws|, i requires 0 <= i < |ws| => Repeat('─', ws[i]))
  }

  /** The cells of one row: one per cell the row has, but no more than there are columns. */
  function RowParts(row: Row, ws: seq<nat>): (parts: seq<string>)
    ensures |parts| == Min(|row|, |ws|)
  {
    seq(Min(|row|, |ws|), i requires 0 <= i < Min(|row|, |ws|) => FitCell(Display(row[i]), ws[i]))
  }

  function RowLine(row: Row, ws: seq<nat>): string
  {
    Join(CellSep, RowParts(row, ws))
  }

  /** What `format_table_data(data, schema, max_width)` returns: (header lines, row lines). */
  function Format(data: seq<Row>, schema: seq<Column>, maxWidth: int): (seq<string>, seq<string>)
    requires Renderable(data, schema, maxWidth)
  {
    if |data| == 0 || |schema| == 0 then ([], [])
    else
      var names := Names(schema);
      var ws := ColumnWidths(names, data, maxWidth);
      ([Join(CellSep, HeaderParts(names, ws)), Join(CrossSep, Rule(ws))],
       seq(|data|, k requires 0 <= k < |data| => RowLine(data[k], ws)))
  }

  /** The width loop: for each column, the running maximum over the rows, then the cap. */
  method ComputeRawWidths(names: seq<string>, data: seq<Row>) returns (widths: seq<nat>)
    ensures widths == RawWidths(names, data)
  {
    widths := [];
    for i := 0 to |names|
      invariant widths == RawWidths(names, data)[..i]
    {
      var m: nat := |names[i]|;
      for j := 0 to |data|
        invariant m == NeededWidth(names[i], data[..j], i)
      {
        assert data[..j + 1][..j] == data[..j];
        if i < |data[j]| {
          m := Max(m, |Display(data[j][i])|);
        }
      }
      assert data[..|data|] == data;
      m := Min(m, MaxColumnWidth);
      widths := widths + [m];
    }
  }

  /** The header loop: each name truncated when too long, then left-justified. */
  method FormatHeader(names: seq<string>, widths: seq<nat>) returns (line: string)
    requires |widths| == |names|
    ensures line == Join(CellSep, HeaderParts(names, widths))
  {
    var headerParts: seq<string> := [];
    for i := 0 to |names|
      invariant headerParts == HeaderParts(names, widths)[..i]
    {
      var width := widths[i];
      var name := names[i];
      if |name| > width {
        name := PyTake(name, width as int - 3) + "...";
      }
      headerParts := headerParts + [PadRight(name, width)];
    }
    assert headerParts == HeaderParts(names, widths);
    line := Join(CellSep, headerParts);
  }

  /** The loop over one row's cells, which stops at the last column. */
  method FormatRow(row: Row, widths: seq<nat>) returns (line: string)
    ensures line == RowLine(row, widths)
  {
    var rowParts: seq<string> := [];
    var i := 0;
    while i < |row|
      invariant 0 <= i <= Min(|row|, |widths|)
      invariant rowParts == RowParts(row, widths)[..i]
    {
      if i >= |widths| {
        break;
      }
      var width := widths[i];
      var content := Display(row[i]);
      if |content| > width {
        content := PyTake(content, width as int - 3) + "...";
      }
      rowParts := rowParts + [PadRight(content, width)];
      i := i + 1;
    }
    assert rowParts == RowParts(row, widths);
    line := Join(CellSep, rowParts);
  }

  /** The renderer, step by step as the source builds its lists. */
  method FormatTableData(data: seq<Row>, schema: seq<Column>, maxWidth: int)
    returns (headers: seq<string>, rows: seq<string>)
    requires Renderable(data, schema, maxWidth)
    ensures (headers, rows) == Format(data, schema, maxWidth)
  {
    if |data| == 0 || |schema| == 0 {
      return [], [];
    }
    var names := Names(schema);
    var widths := ComputeRawWidths(names, data);
    if Sum(widths) + |widths| * 3 + 1 > maxWidth - 4 {
      widths := ScaleWidths(widths, maxWidth);
    }
    assert widths == ColumnWidths(names, data, maxWidth);

    var header := FormatHeader(names, widths);
    headers := [header, Join(CrossSep, Rule(widths))];

    rows := [];
    for k := 0 to |data|
      invariant |rows| == k
      invariant forall k' :: 0 <= k' < k ==> rows[k'] == RowLine(data[k'], widths)
    {
      var line := FormatRow(data[k], widths);
      rows := rows + [line];
    }
    assert rows == Format(data, schema, maxWidth).1;
  }

  // ---------------------------------------------------------------------
  // Width allocation

  /**
    Before capping, a column is exactly as wide as the longest of its name and
    its cells (NULL counted as "NULL"; rows too short to reach the column do
    not count).
  */
  lemma {:induction false} NeededWidthIsMax(name: string, data: seq<Row>, i: nat)
    ensures NeededWidth(name, data, i) >= |name|
    ensures forall k :: 0 <= k < |data| ==> NeededWidth(name, data, i) >= CellLen(data[k], i)
    ensures NeededWidth(name, data, i) == |name|
         || exists k :: 0 <= k < |data| && NeededWidth(name, data, i) == CellLen(data[k], i)
  {
    if |data| > 0 {
      var front := data[..|data| - 1];
      NeededWidthIsMax(name, front, i);
      assert forall k :: 0 <= k < |front| ==> front[k] == data[k];
    }
  }

  /**
    A raw width is at most 20, and a name or cell of the column is longer than
    its width only when that width is the cap of 20.
  */
  lemma RawWidthsCapped(names: seq<string>, data: seq<Row>, i: nat)
    requires i < |names|
    ensures RawWidths(names, data)[i] <= MaxColumnWidth
    ensures |names[i]| > RawWidths(names, data)[i] ==> RawWidths(names, data)[i] == MaxColumnWidth
    ensures forall k :: 0 <= k < |data| && i < |data[k]| && |Display(data[k][i])| > RawWidths(names, data)[i]
              ==> RawWidths(names, data)[i] == MaxColumnWidth
  {
    NeededWidthIsMax(names[i], data, i);
    assert forall k :: 0 <= k < |data| && i < |data[k]| ==> CellLen(data[k], i) == |Display(data[k][i])|;
  }

  lemma {:induction false} SumUpper(ws: seq<nat>, i: nat)
    requires i < |ws|
    ensures ws[i] <= Sum(ws)
  {
    if i > 0 {
      SumUpper(ws[1..], i - 1);
    }
  }

  /**
    Scaling keeps every column at least 5 wide and never makes one wider than
    it was, unless it was narrower than 5 to begin with.
  */
  lemma ScaleWidthsBounds(ws: seq<nat>, maxWidth: int, i: nat)
    requires Sum(ws) > 0 && TooWide(ws, maxWidth) && i < |ws|
    ensures ScaleWidths(ws, maxWidth)[i] >= MinScaledWidth
    ensures ScaleWidths(ws, maxWidth)[i] <= Max(MinScaledWidth, ws[i])
  {
    var b, s := Budget(ws, maxWidth), Sum(ws);
    assert ScaleWidths(ws, maxWidth)[i] == Max(MinScaledWidth, ws[i] * b / s);
    ScaledQuotientBound(ws[i], b, s);
  }

  /** For 0 <= w and b < s, the quotient w*b/s is at most w. */
  lemma ScaledQuotientBound(w: nat, b: int, s: int)
    requires 0 < s && b < s
    ensures w * b / s <= w
  {
    if b >= 0 {
      MulMonotone(w, b, s);
      DivAtMost(w * b, s, w);
    } else {
      MulMonotone(w, b, 0);
      assert w * b <= 0;
      DivAtMost(w * b, s, 0);
    }
  }

  lemma MulMonotone(a: nat, b: int, c: int)
    requires b <= c
    ensures a * b <= a * c
  {
  }

  lemma DivAtMost(x: int, s: int, w: int)
    requires s > 0 && x <= w * s
    ensures x / s <= w
  {
  }

  /**
    Whatever the widths, every name and cell of column i either fits its width
    or meets a width of at least 5, so the `[:width-3]` slice is never negative.
  */
  lemma ColumnWidthsRoomy(names: seq<string>, data: seq<Row>, maxWidth: int, i: nat)
    requires Scalable(names, data, maxWidth) && i < |names|
    ensures var w := ColumnWidths(names, data, maxWidth)[i];
      && (|names[i]| <= w || w >= MinScaledWidth)
      && forall k :: 0 <= k < |data| && i < |data[k]| ==> |Display(data[k][i])| <= w || w >= MinScaledWidth
  {
    var raw := RawWidths(names, data);
    RawWidthsCapped(names, data, i);
    if TooWide(raw, maxWidth) {
      ScaleWidthsBounds(raw, maxWidth, i);
    }
  }

  // ---------------------------------------------------------------------
  // Cells and lines

  /**
    A grid cell fills its width exactly whenever it fits or the width is at
    least 3: short text is padded with spaces, long text keeps its first
    width-3 characters followed by "...".
  */
  lemma FitCellExact(s: string, w: nat)
    requires |s| <= w || w >= 3
    ensures |FitCell(s, w)| == w
    ensures |s| <= w ==> FitCell(s, w) == s + Repeat(' ', w - |s|)
    ensures |s| > w ==> FitCell(s, w) == s[..w - 3] + "..."
  {
    if |s| <= w {
      assert Ellipsize(s, w) == s;
    } else {
      EllipsizeBounded(s, w);
    }
  }

  lemma {:induction false} SumLengthsMatch(parts: seq<string>, ws: seq<nat>)
    requires |parts| == |ws|
    requires forall i :: 0 <= i < |parts| ==> |parts[i]| == ws[i]
    ensures SumLengths(parts) == Sum(ws)
  {
    if |parts| > 0 {
      SumLengthsMatch(parts[1..], ws[1..]);
    }
  }

  /** Parts of exactly the column widths join to sum(widths) + 3*(n-1) characters. */
  lemma JoinedWidth(sep: string, parts: seq<string>, ws: seq<nat>)
    requires |sep| == 3 && |parts| == |ws| > 0
    requires forall i :: 0 <= i < |parts| ==> |parts[i]| == ws[i]
    ensures |Join(sep, parts)| == Sum(ws) + 3 * (|ws| - 1)
  {
    JoinLength(sep, parts);
    SumLengthsMatch(parts, ws);
  }

  /**
    The shape of the result: no lines at all for an empty table or schema;
    otherwise two header lines (names and rule) of equal length
    sum(widths) + 3*(n-1), and one line per input row, in input order, each the
    row's own cells at the column widths.
  */
  lemma FormatShape(data: seq<Row>, schema: seq<Column>, maxWidth: int)
    requires Renderable(data, schema, maxWidth)
    ensures |data| == 0 || |schema| == 0 ==> Format(data, schema, maxWidth) == ([], [])
    ensures |data| > 0 && |schema| > 0 ==>
      var (headers, rows) := Format(data, schema, maxWidth);
      var ws := ColumnWidths(Names(schema), data, maxWidth);
      && |headers| == 2
      && |headers[0]| == Sum(ws) + 3 * (|schema| - 1)
      && |headers[1]| == Sum(ws) + 3 * (|schema| - 1)
      && |rows| == |data|
      && forall k :: 0 <= k < |data| ==> rows[k] == RowLine(data[k], ws)
  {
    if |data| > 0 && |schema| > 0 {
      var names := Names(schema);
      var ws := ColumnWidths(names, data, maxWidth);
      var hp := HeaderParts(names, ws);
      forall i | 0 <= i < |names|
        ensures |hp[i]| == ws[i]
      {
        ColumnWidthsRoomy(names, data, maxWidth, i);
        FitCellExact(names[i], ws[i]);
      }
      JoinedWidth(CellSep, hp, ws);
      JoinedWidth(CrossSep, Rule(ws), ws);
    }
  }

  /**
    Every cell of a row line is exactly its column's width; a row with k
    cells gives min(k, n) of them, so cells past the schema are dropped and a
    short row yields fewer parts rather than blank ones. A full-width row line
    is exactly as long as the header.
  */
  lemma RowPartsExact(data: seq<Row>, schema: seq<Column>, maxWidth: int, k: nat)
    requires Renderable(data, schema, maxWidth) && |schema| > 0 && k < |data|
    ensures var ws := ColumnWidths(Names(schema), data, maxWidth);
      var parts := RowParts(data[k], ws);
      && |parts| == Min(|data[k]|, |schema|)
      && (forall i :: 0 <= i < |parts| ==> |parts[i]| == ws[i])
      && (|data[k]| >= |schema| ==> |RowLine(data[k], ws)| == Sum(ws) + 3 * (|schema| - 1))
  {
    var names := Names(schema);
    var ws := ColumnWidths(names, data, maxWidth);
    var parts := RowParts(data[k], ws);
    forall i | 0 <= i < |parts|
      ensures |parts[i]| == ws[i]
    {
      ColumnWidthsRoomy(names, data, maxWidth, i);
      FitCellExact(Display(data[k][i]), ws[i]);
    }
    if |data[k]| >= |schema| {
      JoinedWidth(CellSep, parts, ws);
    }
  }

  // ---------------------------------------------------------------------
  // The width budget

  /** When no scaling is needed, every line leaves at least 8 columns of the window free. */
  lemma UnscaledFitsWindow(data: seq<Row>, schema: seq<Column>, maxWidth: int)
    requires |data| > 0 && |schema| > 0
    requires !TooWide(RawWidths(Names(schema), data), maxWidth)
    ensures Renderable(data, schema, maxWidth)
    ensures |Format(data, schema, maxWidth).0[0]| <= maxWidth - 8
  {
    FormatShape(data, schema, maxWidth);
  }

  /**
    The floor of 5 can defeat the scaling: four 20-wide columns in a 20-wide
    window are scaled to 5 each and the lines come out 29 characters long.
  */
  lemma FloorOverflowsNarrowWindow()
    ensures TooWide([20, 20, 20, 20], 20)
    ensures ScaleWidths([20, 20, 20, 20], 20) == [5, 5, 5, 5]
    ensures Sum(ScaleWidths([20, 20, 20, 20], 20)) + 3 * 3 == 29
  {
    var ws: seq<nat> := [20, 20, 20, 20];
    assert Sum(ws) == 80;
    assert Budget(ws, 20) == 3;
    var r := ScaleWidths(ws, 20);
    assert r[0] == 5 && r[1] == 5 && r[2] == 5 && r[3] == 5;
    assert r == [5, 5, 5, 5];
    var five: seq<nat> := [5];
    assert Sum(five) == 5 by { assert five[1..] == []; }
    assert Sum([5, 5] + five) == 15 by { assert ([5, 5] + five)[1..] == [5] + five; assert ([5] + five)[1..] == five; }
    assert r == [5] + ([5, 5] + five);
    assert Sum(r) == 20;
  }
}
