/**
  The split-screen table browser: a list of tables on the left, the rows of
  the chosen table on the right, one page at a time, with a highlighted row.
  Its state is four variables (`selected_table`, `table_selected`,
  `table_page`, `selected_row`) that each key press updates.
*/
module Browser {
  import opened Wrappers
  import opened Text
  import opened Sqlite
  import opened Terminal

  /** A table as the browser uses it: its name, its schema and the rows `get_table_data` returns. */
  datatype Table = Table(name: string, schema: seq<Column>, rows: seq<Row>)

  /**
    The two copies of the browser differ only in layout: the modular one
    (under a two-line title) keeps h-8 rows per page, the stand-alone one h-6.
  */
  function RowsPerPage(v: Variant, h: int): int
  {
    match v
    case Modular => h - 8
    case Standalone => h - 6
  }

  // ---------------------------------------------------------------------
  // Pagination

  /** `(len(data) + rows_per_page - 1) // rows_per_page`. */
  function TotalPages(n: nat, rpp: nat): nat
    requires rpp > 0
  {
    (n + rpp - 1) / rpp
  }

  /**
    The page count is the ceiling of n / rpp: enough pages for every row and
    no empty page at the end. An empty table has 0 pages, not 1.
  */
  lemma TotalPagesIsCeiling(n: nat, rpp: nat)
    requires rpp > 0
    ensures TotalPages(n, rpp) * rpp >= n
    ensures n > 0 ==> (TotalPages(n, rpp) - 1) * rpp < n
    ensures TotalPages(n, rpp) == 0 <==> n == 0
  {
    var q, r := (n + rpp - 1) / rpp, (n + rpp - 1) % rpp;
    assert n + rpp - 1 == q * rpp + r && 0 <= r < rpp;
    assert q * rpp == n + rpp - 1 - r;
    assert (q - 1) * rpp == q * rpp - rpp;
  }

  /** `data[start_idx:end_idx]` with `start_idx = page * rpp`, clipped as Python clips. */
  function PageRows<T>(data: seq<T>, page: nat, rpp: nat): seq<T>
  {
    data[Min(page * rpp, |data|)..Min(page * rpp + rpp, |data|)]
  }

  /**
    A page holds at most rpp rows; the pages before the last are full; a page
    below the page count is non-empty and holds the rows from page*rpp on; any
    page from the page count on is empty.
  */
  lemma PageRowsShape<T>(data: seq<T>, page: nat, rpp: nat)
    requires rpp > 0
    ensures |PageRows(data, page, rpp)| <= rpp
    ensures page < TotalPages(|data|, rpp) ==>
      && 0 < |PageRows(data, page, rpp)|
      && page * rpp + |PageRows(data, page, rpp)| <= |data|
      && forall j :: 0 <= j < |PageRows(data, page, rpp)| ==> PageRows(data, page, rpp)[j] == data[page * rpp + j]
    ensures page + 1 < TotalPages(|data|, rpp) ==> |PageRows(data, page, rpp)| == rpp
    ensures page >= TotalPages(|data|, rpp) ==> PageRows(data, page, rpp) == []
  {
    var n, t := |data|, TotalPages(|data|, rpp);
    var start := page * rpp;
    TotalPagesIsCeiling(n, rpp);
    if page < t {
      MulMono(page, t - 1, rpp);
    }
    if page + 1 < t {
      MulMono(page + 1, t - 1, rpp);
      assert (page + 1) * rpp == start + rpp;
    }
    if page >= t {
      MulMono(t, page, rpp);
    }
  }

  /** The first k pages laid end to end. */
  function PagesUpTo<T>(data: seq<T>, rpp: nat, k: nat): seq<T>
  {
    if k == 0 then [] else PagesUpTo(data, rpp, k - 1) + PageRows(data, k - 1, rpp)
  }

  /**
    Paging loses and repeats nothing: the first k pages are exactly the first
    k*rpp rows (or all of them).
  */
  lemma {:induction false} PagesPrefix<T>(data: seq<T>, rpp: nat, k: nat)
    requires rpp > 0
    ensures PagesUpTo(data, rpp, k) == data[..Min(k * rpp, |data|)]
  {
    if k > 0 {
      PagesPrefix(data, rpp, k - 1);
      assert (k - 1) * rpp + rpp == k * rpp;
      var a, b := Min((k - 1) * rpp, |data|), Min(k * rpp, |data|);
      assert data[..a] + data[a..b] == data[..b];
    }
  }

  /** All the pages, in order, are the whole table. */
  lemma PagesCoverTable<T>(data: seq<T>, rpp: nat)
    requires rpp > 0
    ensures PagesUpTo(data, rpp, TotalPages(|data|, rpp)) == data
  {
    TotalPagesIsCeiling(|data|, rpp);
    PagesPrefix(data, rpp, TotalPages(|data|, rpp));
    assert data[..|data|] == data;
  }

  /** "Page p/t (n rows)": shown only when there is more than one page. */
  function PageCounter(page: nat, n: nat, rpp: nat): Option<(nat, nat, nat)>
    requires rpp > 0
  {
    var t := TotalPages(n, rpp);
    if t > 1 then Some((page + 1, t, n)) else None
  }

  /** The counter appears exactly when the table has more rows than a page holds. */
  lemma PageCounterShown(page: nat, n: nat, rpp: nat)
    requires rpp > 0
    ensures PageCounter(page, n, rpp).Some? <==> n > rpp
  {
    TotalPagesIsCeiling(n, rpp);
    if n > rpp {
      assert TotalPages(n, rpp) * rpp >= n > rpp;
    } else if n > 0 {
      assert (TotalPages(n, rpp) - 1) * rpp < n <= rpp;
    }
  }

  /** "Record k of n", where k = start_idx + selected_row + 1; shown only when the page is non-empty. */
  function RecordIndicator(s: BrowserState, n: nat, rpp: nat): Option<(nat, nat)>
  {
    if Min(s.tablePage * rpp + rpp, n) > Min(s.tablePage * rpp, n)
    then Some((s.tablePage * rpp + s.selectedRow + 1, n))
    else None
  }

  // ---------------------------------------------------------------------
  // The key-handling state machine

  datatype BrowserState = BrowserState(selectedTable: nat, tableSelected: bool, tablePage: nat, selectedRow: nat)

  const Initial := BrowserState(0, false, 0, 0)

  /** What a key press leads to besides the new state: nothing, a record to show, or leaving. */
  datatype Outcome = Continue | ViewRecord(record: Row) | Leave

  /** The rows of the table under the cursor of the table list. */
  function CurrentRows(s: BrowserState, tables: seq<Table>): seq<Row>
    requires s.selectedTable < |tables|
  {
    tables[s.selectedTable].rows
  }

  /** One pass of the key handler, as the source branches on `table_selected` and the key. */
  function Step(s: BrowserState, key: Key, tables: seq<Table>, rpp: nat): (BrowserState, Outcome)
    requires s.selectedTable < |tables| && rpp > 0
  {
    if !s.tableSelected then
      match key
      case Up | Down => (s.(selectedTable := Cycle(s.selectedTable, key, |tables|)), Continue)
      case Enter => (s.(tableSelected := true, selectedRow := 0, tablePage := 0), Continue)
      case Esc => (s, Leave)
      case _ => (s, Continue)
    else
      var data := CurrentRows(s, tables);
      var page := PageRows(data, s.tablePage, rpp);
      match key
      case Up => (if s.selectedRow > 0 then s.(selectedRow := s.selectedRow - 1) else s, Continue)
      case Down => (if s.selectedRow < |page| - 1 then s.(selectedRow := s.selectedRow + 1) else s, Continue)
      case Left => (if s.tablePage > 0 then s.(tablePage := s.tablePage - 1, selectedRow := 0) else s, Continue)
      case Right =>
        (if s.tablePage < TotalPages(|data|, rpp) - 1 then s.(tablePage := s.tablePage + 1, selectedRow := 0) else s,
         Continue)
      case Enter => (s, if |data| > 0 && s.selectedRow < |page| then ViewRecord(page[s.selectedRow]) else Continue)
      case Esc => (s.(tableSelected := false, selectedRow := 0), Continue)
      case Char(_) => (s, Continue)
  }

  /**
    The browser invariant: the table cursor is in the list, and while a table
    is open the page is one that exists (page 0 for an empty table) and the row
    cursor is on that page (0 for an empty page).
  */
  predicate Inv(s: BrowserState, tables: seq<Table>, rpp: nat)
    requires rpp > 0
  {
    && s.selectedTable < |tables|
    && (s.tableSelected ==>
          var data := CurrentRows(s, tables);
          && (s.tablePage == 0 || s.tablePage < TotalPages(|data|, rpp))
          && (s.selectedRow == 0 || s.selectedRow < |PageRows(data, s.tablePage, rpp)|))
  }

  lemma InitialInv(tables: seq<Table>, rpp: nat)
    requires |tables| > 0 && rpp > 0
    ensures Inv(Initial, tables, rpp)
  {
  }

  /** Every key keeps the invariant. */
  lemma StepPreservesInv(s: BrowserState, key: Key, tables: seq<Table>, rpp: nat)
    requires rpp > 0 && Inv(s, tables, rpp)
    ensures Inv(Step(s, key, tables, rpp).0, tables, rpp)
  {
    var s' := Step(s, key, tables, rpp).0;
    if s.tableSelected && s'.tableSelected {
      var data := CurrentRows(s, tables);
      PageRowsShape(data, s.tablePage, rpp);
      PageRowsShape(data, s'.tablePage, rpp);
      TotalPagesIsCeiling(|data|, rpp);
    }
  }

  /**
    While a non-empty table is open, the highlighted row exists: the page is
    non-empty, the indicator "Record k of n" has 1 <= k <= n, and row k-1 of the
    table is the highlighted row of the page.
  */
  lemma CursorOnRecord(s: BrowserState, tables: seq<Table>, rpp: nat)
    requires rpp > 0 && Inv(s, tables, rpp) && s.tableSelected && |CurrentRows(s, tables)| > 0
    ensures var data := CurrentRows(s, tables);
      var page := PageRows(data, s.tablePage, rpp);
      && s.selectedRow < |page|
      && RecordIndicator(s, |data|, rpp).Some?
      && var (k, n) := RecordIndicator(s, |data|, rpp).value;
      && 1 <= k <= n
      && data[k - 1] == page[s.selectedRow]
  {
    var data := CurrentRows(s, tables);
    TotalPagesIsCeiling(|data|, rpp);
    PageRowsShape(data, s.tablePage, rpp);
  }

  /** Enter on a row shows exactly the record the indicator points at, and changes nothing. */
  lemma ViewRecordIsHighlighted(s: BrowserState, tables: seq<Table>, rpp: nat)
    requires rpp > 0 && Inv(s, tables, rpp)
    ensures var (s', out) := Step(s, Enter, tables, rpp);
      && (s.tableSelected ==> s' == s)
      && (out.ViewRecord? <==> s.tableSelected && |CurrentRows(s, tables)| > 0)
      && (out.ViewRecord? ==>
            out.record == CurrentRows(s, tables)[s.tablePage * rpp + s.selectedRow])
  {
    if s.tableSelected && |CurrentRows(s, tables)| > 0 {
      CursorOnRecord(s, tables, rpp);
    }
  }

  /** In the table list, Up then Down (or Down then Up) brings the cursor back where it was. */
  lemma ListUpDownRoundTrip(s: BrowserState, tables: seq<Table>, rpp: nat)
    requires rpp > 0 && Inv(s, tables, rpp) && !s.tableSelected
    ensures Step(Step(s, Up, tables, rpp).0, Down, tables, rpp).0 == s
    ensures Step(Step(s, Down, tables, rpp).0, Up, tables, rpp).0 == s
  {
    CycleRoundTrip(s.selectedTable, |tables|);
  }

  /**
    Paging right and back left returns to the same page: when Right moves, it
    moves one page on with the cursor on the first row, and Left undoes it.
  */
  lemma PageRightLeftRoundTrip(s: BrowserState, tables: seq<Table>, rpp: nat)
    requires rpp > 0 && Inv(s, tables, rpp) && s.tableSelected
    ensures var r := Step(s, Right, tables, rpp).0;
      && (r != s ==> r.tablePage == s.tablePage + 1 && r.selectedRow == 0)
      && (r.tablePage != s.tablePage ==> Step(r, Left, tables, rpp).0 == s.(selectedRow := 0))
  {
  }

  /**
    Left and Right change nothing at the first or last page; otherwise they
    move exactly one page and put the cursor on its first row. So the row
    cursor goes back to the top only when the page actually changes.
  */
  lemma PagingResetsRowOnlyOnPageChange(s: BrowserState, key: Key, tables: seq<Table>, rpp: nat)
    requires rpp > 0 && Inv(s, tables, rpp) && s.tableSelected && (key == Left || key == Right)
    ensures var r := Step(s, key, tables, rpp).0;
      && (r.tablePage == s.tablePage ==> r == s)
      && (r.tablePage != s.tablePage ==>
            r == s.(tablePage := if key == Left then s.tablePage - 1 else s.tablePage + 1, selectedRow := 0))
      && (key == Left ==> (r.tablePage != s.tablePage <==> s.tablePage > 0))
      && (key == Right ==> (r.tablePage != s.tablePage <==> s.tablePage + 1 < TotalPages(|CurrentRows(s, tables)|, rpp)))
  {
  }

  /**
    Esc in a table goes back to the list on the same table with the row
    cursor reset; Esc in the list leaves the browser without changing anything.
  */
  lemma EscapeBehaviour(s: BrowserState, tables: seq<Table>, rpp: nat)
    requires rpp > 0 && Inv(s, tables, rpp)
    ensures var (s', out) := Step(s, Esc, tables, rpp);
      && (s.tableSelected ==> out == Continue && !s'.tableSelected && s'.selectedRow == 0
                              && s'.selectedTable == s.selectedTable)
      && (!s.tableSelected ==> out == Leave && s' == s)
  {
  }

  // ---------------------------------------------------------------------
  // A whole session of key presses

  /**
    The key loop over a sequence of key presses: it stops at Leave, and a
    shown record waits for one key (any key) before browsing resumes. Returns
    the final state, the records shown and whether the browser was left.
  */
  function RunKeys(s: BrowserState, keys: seq<Key>, tables: seq<Table>, rpp: nat): (BrowserState, seq<Row>, bool)
    requires rpp > 0 && Inv(s, tables, rpp)
    decreases |keys|, 1
  {
    if |keys| == 0 then (s, [], false)
    else
      StepPreservesInv(s, keys[0], tables, rpp);
      var (s', out) := Step(s, keys[0], tables, rpp);
      Resume(s', out, keys[1..], tables, rpp)
  }

  /** What follows one key press: stop, go on with the next key, or skip the key that closes the record view. */
  function Resume(s: BrowserState, out: Outcome, rest: seq<Key>, tables: seq<Table>, rpp: nat): (BrowserState, seq<Row>, bool)
    requires rpp > 0 && Inv(s, tables, rpp)
    decreases |rest| + 1, 0
  {
    match out
    case Leave => (s, [], true)
    case Continue => RunKeys(s, rest, tables, rpp)
    case ViewRecord(r) => Prepend([r], RunKeys(s, if |rest| > 0 then rest[1..] else [], tables, rpp))
  }

  /** The records shown so far put in front of the outcome of the remaining keys. */
  function Prepend(shown: seq<Row>, r: (BrowserState, seq<Row>, bool)): (BrowserState, seq<Row>, bool)
  {
    (r.0, shown + r.1, r.2)
  }

  /**
    One turn of the key loop: after the key at i, the outcome of the whole run
    is the records shown so far, the one this key shows, and the outcome of the
    keys still to come (the next key is skipped after a shown record).
  */
  lemma RunKeysAdvance(shown: seq<Row>, s: BrowserState, keys: seq<Key>, i: nat, tables: seq<Table>, rpp: nat)
    requires rpp > 0 && Inv(s, tables, rpp) && i < |keys|
    ensures Inv(Step(s, keys[i], tables, rpp).0, tables, rpp)
    ensures var (s', out) := Step(s, keys[i], tables, rpp);
      match out
      case Leave => Prepend(shown, RunKeys(s, keys[i..], tables, rpp)) == (s', shown, true)
      case Continue =>
        Prepend(shown, RunKeys(s, keys[i..], tables, rpp)) == Prepend(shown, RunKeys(s', keys[i + 1..], tables, rpp))
      case ViewRecord(r) =>
        var j := if i + 1 < |keys| then i + 2 else |keys|;
        Prepend(shown, RunKeys(s, keys[i..], tables, rpp)) == Prepend(shown + [r], RunKeys(s', keys[j..], tables, rpp))
  {
    StepPreservesInv(s, keys[i], tables, rpp);
    assert keys[i..][0] == keys[i] && keys[i..][1..] == keys[i + 1..];
    var (s', out) := Step(s, keys[i], tables, rpp);
    match out {
      case Leave =>
        assert shown + [] == shown;
      case Continue =>
      case ViewRecord(r) =>
        var j := if i + 1 < |keys| then i + 2 else |keys|;
        assert (if |keys[i + 1..]| > 0 then keys[i + 1..][1..] else []) == keys[j..];
        var tail := RunKeys(s', keys[j..], tables, rpp);
        assert shown + ([r] + tail.1) == (shown + [r]) + tail.1;
    }
  }

  /** However many keys are pressed, the invariant holds at the end. */
  lemma {:induction false} RunPreservesInv(s: BrowserState, keys: seq<Key>, tables: seq<Table>, rpp: nat)
    requires rpp > 0 && Inv(s, tables, rpp)
    ensures Inv(RunKeys(s, keys, tables, rpp).0, tables, rpp)
    decreases |keys|
  {
    if |keys| > 0 {
      StepPreservesInv(s, keys[0], tables, rpp);
      var (s', out) := Step(s, keys[0], tables, rpp);
      if out.Continue? {
        RunPreservesInv(s', keys[1..], tables, rpp);
      } else if out.ViewRecord? {
        RunPreservesInv(s', if |keys| > 1 then keys[2..] else [], tables, rpp);
      }
    }
  }

  class TableBrowser {
    const tables: seq<Table>
    const rowsPerPage: nat
    var selectedTable: nat
    var tableSelected: bool
    var tablePage: nat
    var selectedRow: nat

    function State(): BrowserState
      reads this
    {
      BrowserState(selectedTable, tableSelected, tablePage, selectedRow)
    }

    predicate Valid()
      reads this
    {
      rowsPerPage > 0 && Inv(State(), tables, rowsPerPage)
    }

    /** The loop's start: first table, list mode, page 0, row 0. */
    constructor (tables: seq<Table>, rowsPerPage: nat)
      requires |tables| > 0 && rowsPerPage > 0
      ensures Valid() && State() == Initial
      ensures this.tables == tables && this.rowsPerPage == rowsPerPage
    {
      this.tables := tables;
      this.rowsPerPage := rowsPerPage;
      selectedTable, tableSelected, tablePage, selectedRow := 0, false, 0, 0;
    }

    /** One key press: updates the four variables as the source does. */
    method HandleKey(key: Key) returns (out: Outcome)
      requires Valid()
      modifies this
      ensures Valid()
      ensures (State(), out) == Step(old(State()), key, tables, rowsPerPage)
    {
      ghost var s := State();
      StepPreservesInv(s, key, tables, rowsPerPage);
      out := Continue;
      if !tableSelected {
        match key {
          case Up => selectedTable := (selectedTable - 1) % |tables|;
          case Down => selectedTable := (selectedTable + 1) % |tables|;
          case Enter =>
            tableSelected := true;
            selectedRow := 0;
            tablePage := 0;
          case Esc => out := Leave;
          case _ =>
        }
      } else {
        var data := tables[selectedTable].rows;
        var currentPage := PageRows(data, tablePage, rowsPerPage);
        match key {
          case Up =>
            if selectedRow > 0 {
              selectedRow := selectedRow - 1;
            }
          case Down =>
            if selectedRow < |currentPage| - 1 {
              selectedRow := selectedRow + 1;
            }
          case Left =>
            if tablePage > 0 {
              tablePage := tablePage - 1;
              selectedRow := 0;
            }
          case Right =>
            var maxPages := (|data| + rowsPerPage - 1) / rowsPerPage;
            if tablePage < maxPages - 1 {
              tablePage := tablePage + 1;
              selectedRow := 0;
            }
          case Enter =>
            if |data| > 0 && selectedRow < |currentPage| {
              out := ViewRecord(currentPage[selectedRow]);
            }
          case Esc =>
            tableSelected := false;
            selectedRow := 0;
          case Char(_) =>
        }
      }
    }

    /**
      The `while True` loop fed with a sequence of key presses: handles keys
      until Esc leaves the list, letting one key go by after each shown record.
    */
    method Run(keys: seq<Key>) returns (shown: seq<Row>, left: bool)
      requires Valid()
      modifies this
      ensures Valid()
      ensures (State(), shown, left) == RunKeys(old(State()), keys, tables, rowsPerPage)
    {
      shown, left := [], false;
      var i := 0;
      assert keys[0..] == keys;
      ghost var whole := RunKeys(State(), keys, tables, rowsPerPage);
      assert [] + whole.1 == whole.1;
      while i < |keys| && !left
        invariant 0 <= i <= |keys|
        invariant Valid()
        invariant left ==> whole == (State(), shown, true)
        invariant !left ==> whole == Prepend(shown, RunKeys(State(), keys[i..], tables, rowsPerPage))
        decreases |keys| - i, if left then 0 else 1
      {
        RunKeysAdvance(shown, State(), keys, i, tables, rowsPerPage);
        var out := HandleKey(keys[i]);
        match out {
          case Leave =>
            left := true;
          case Continue =>
            i := i + 1;
          case ViewRecord(r) =>
            shown, i := shown + [r], if i + 1 < |keys| then i + 2 else |keys|;
        }
      }
      if !left {
        assert keys[i..] == [];
        assert shown + [] == shown;
      }
    }
  }

  /**
    `split_screen_table_browser`: nothing happens when the database has no
    tables; otherwise the browser runs over the keys from its initial state.
  */
  method SplitScreenTableBrowser(v: Variant, h: int, tables: seq<Table>, keys: seq<Key>)
    returns (shown: seq<Row>, left: bool)
    requires RowsPerPage(v, h) > 0
    ensures |tables| == 0 ==> shown == [] && !left
    ensures |tables| > 0 ==>
      var (_, shownBy, leftBy) := RunKeys(Initial, keys, tables, RowsPerPage(v, h));
      shown == shownBy && left == leftBy
  {
    if |tables| == 0 {
      return [], false;
    }
    var b := new TableBrowser(tables, RowsPerPage(v, h));
    shown, left := b.Run(keys);
  }

  // ---------------------------------------------------------------------
  // The record detail view

  /** A field value as the detail view shows it: NULL as "NULL", cut to the window less 10. */
  function RecordValueText(c: Cell, w: int): string
  {
    Ellipsize(Display(c), w - 10)
  }

  /** The detail view: (name, type, value) per field when there is a schema, plain values otherwise. */
  datatype RecordView = Fields(fields: seq<(string, string, string)>) | RawFields(values: seq<string>)

  /** Row of the first field line, and of the first raw line, in each variant. */
  function FieldTop(v: Variant): int { if v == Modular then 4 else 3 }
  function RawTop(v: Variant): int { if v == Modular then 6 else 5 }

  /**
    `view_record_details`: the schema zipped with the record, two screen rows
    per field, stopping at the bottom of the screen; without a schema (or with
    an empty record), one line per value.
  */
  function RecordDetails(v: Variant, schema: seq<Column>, record: Row, h: int, w: int): RecordView
  {
    if |schema| > 0 && |record| > 0 then
      var n := FitCount(Min(|schema|, |record|), FieldTop(v), 2, h - 2);
      FitCountSpec(Min(|schema|, |record|), FieldTop(v), 2, h - 2);
      Fields(seq(n, i requires 0 <= i < n => (schema[i].name, schema[i].declType, RecordValueText(record[i], w))))
    else
      var n := FitCount(|record|, RawTop(v), 1, h - 2);
      FitCountSpec(|record|, RawTop(v), 1, h - 2);
      RawFields(seq(n, i requires 0 <= i < n => RecordValueText(record[i], w)))
  }

  /**
    The detail view lists fields in schema order, pairs each with the value at
    the same position, never lists more fields than both the schema and the
    record have, and on a window at least 13 wide every value fits in w-10
    characters, a NULL reading "NULL".
  */
  lemma RecordDetailsSpec(v: Variant, schema: seq<Column>, record: Row, h: int, w: int)
    requires |schema| > 0 && |record| > 0
    ensures var fs := RecordDetails(v, schema, record, h, w).fields;
      && |fs| <= |schema| && |fs| <= |record|
      && forall i :: 0 <= i < |fs| ==>
           && fs[i].0 == schema[i].name
           && fs[i].2 == Ellipsize(Display(record[i]), w - 10)
           && (w >= 13 ==> |fs[i].2| <= w - 10)
           && (record[i].Null? && w >= 14 ==> fs[i].2 == "NULL")
  {
    var fs := RecordDetails(v, schema, record, h, w).fields;
    FitCountSpec(Min(|schema|, |record|), FieldTop(v), 2, h - 2);
    forall i | 0 <= i < |fs| && w >= 13
      ensures |fs[i].2| <= w - 10
    {
      EllipsizeBounded(Display(record[i]), w - 10);
    }
  }
}
