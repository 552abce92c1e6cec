/**
  The quick tools of the standalone program (the `SQLiteTUI` methods):
  tables and columns are picked from lists, values are converted to numbers
  for numeric columns, every value goes with a placeholder, and deletions
  wait for the key 'y'. An `Execute` outcome is the statement as the tool
  builds it; `Statements.Deliver` says what the standalone database layer
  does with it.
*/
module QuickTools {
  import opened Wrappers
  import opened Text
  import opened Sqlite
  import opened Terminal
  import opened Statements
  import Menus

  // ---------------------------------------------------------------------
  // Typed values

  /** Column types whose typed values are converted to numbers. */
  predicate NumericType(declType: string)
  {
    Upper(declType) in ["INTEGER", "REAL", "NUMERIC"]
  }

  /**
    The value a stripped typed line is bound as: `null` in any case is None;
    for a numeric column, text with a '.' is a float when `isFloat` (Python's
    `float()`) accepts it and otherwise an integer when `int()` accepts it;
    whatever is refused, and every value of another column, stays text.
  */
  function Coerce(v: string, declType: string, isFloat: string -> bool): SqlValue
  {
    if NullWord(v) then NullValue
    else if NumericType(declType) then
      if '.' in v then (if isFloat(v) then RealValue(v) else TextValue(v))
      else match ParseInt(v)
        case Some(i) => IntValue(i)
        case None => TextValue(v)
    else TextValue(v)
  }

  /**
    Only `null` (any case) is None here, the empty line is the empty text;
    a number written by `str()` into a numeric column comes back as that
    number; nothing typed is lost, since every non-number keeps its text.
  */
  lemma CoerceSpec(v: string, declType: string, isFloat: string -> bool)
    ensures Coerce(v, declType, isFloat) == NullValue <==> Lower(v) == "null"
    ensures Coerce("", declType, isFloat) == TextValue("")
    ensures forall i :: NumericType(declType) ==> Coerce(IntText(i), declType, isFloat) == IntValue(i)
    ensures !NumericType(declType) && Lower(v) != "null" ==> Coerce(v, declType, isFloat) == TextValue(v)
    ensures Coerce(v, declType, isFloat).IntValue? ==>
      NumericType(declType) && ParseInt(v) == Some(Coerce(v, declType, isFloat).value)
    ensures Coerce(v, declType, isFloat).TextValue? ==> Coerce(v, declType, isFloat).text == v
    ensures Coerce(v, declType, isFloat).RealValue? ==> NumericType(declType) && '.' in v && isFloat(v)
  {
    NullWordSpec(v);
    forall i | NumericType(declType)
      ensures Coerce(IntText(i), declType, isFloat) == IntValue(i)
    {
      IntTextRoundTrip(i);
      IntTextHasNoPoint(i);
      NullWordSpec(IntText(i));
      assert !NullWord(IntText(i)) by {
        if |IntText(i)| == 4 {
          assert IsDigit(IntText(i)[1]);
        }
      }
    }
  }

  /** The text `str()` gives an integer is digits after an optional sign, so it has no point and is not `null`. */
  lemma IntTextHasNoPoint(i: int)
    ensures '.' !in IntText(i)
    ensures forall k :: 1 <= k < |IntText(i)| ==> IsDigit(IntText(i)[k])
  {
    var n := if i < 0 then -i else i;
    DecimalIsNumeral(n);
    if i < 0 {
      assert IntText(i) == "-" + Decimal(n);
      forall k | 1 <= k < |IntText(i)|
        ensures IsDigit(IntText(i)[k])
      {
        assert IntText(i)[k] == Decimal(n)[k - 1];
      }
    }
  }

  // ---------------------------------------------------------------------
  // Choosing a table

  /** A table chooser: Up and Down move round the list, Enter picks, Escape leaves. */
  function ChooseTable(tables: seq<string>, keys: seq<Key>): Menus.Selection
    requires |tables| > 0
  {
    Menus.Select(0, |tables|, keys, Some(Esc))
  }

  // ---------------------------------------------------------------------
  // Insert

  /** The bound values of the quick insert: one per column, from the first `count` typed lines. */
  function QuickValues(schema: seq<Column>, typed: seq<string>, count: nat, isFloat: string -> bool): seq<SqlValue>
    requires count <= |schema| && count <= |typed|
  {
    if count == 0 then []
    else QuickValues(schema, typed, count - 1, isFloat) + [Coerce(Strip(typed[count - 1]), schema[count - 1].declType, isFloat)]
  }

  /** The i-th value is the i-th typed line converted for the i-th column. */
  lemma {:induction false} QuickValuesSpec(schema: seq<Column>, typed: seq<string>, count: nat, isFloat: string -> bool)
    requires count <= |schema| && count <= |typed|
    ensures |QuickValues(schema, typed, count, isFloat)| == count
    ensures forall i :: 0 <= i < count ==>
      QuickValues(schema, typed, count, isFloat)[i] == Coerce(Strip(typed[i]), schema[i].declType, isFloat)
  {
    if count > 0 {
      QuickValuesSpec(schema, typed, count - 1, isFloat);
    }
  }

  /**
    The quick insert once its table is chosen: a table without columns
    returns, otherwise every column is bound to its converted typed line,
    unless the lines run out first.
  */
  function QuickInsertEnd(table: string, schema: seq<Column>, typed: seq<string>, isFloat: string -> bool): Outcome
  {
    if |schema| == 0 then Abandoned(TableNotFound)
    else if |typed| < |schema| then Waiting
    else Execute(Statement(InsertSql(table, Names(schema)), QuickValues(schema, typed, |schema|, isFloat)))
  }

  /**
    `insert_record_tool` of the standalone program, given the table list,
    the chooser's keys, the schema the database reports for each table, the
    typed lines (one per column) and Python's `float()` test.
  */
  method QuickInsert(tables: seq<string>, keys: seq<Key>, catalog: Catalog,
                     typed: seq<string>, isFloat: string -> bool)
    returns (r: Outcome)
    ensures |tables| == 0 ==> r == Abandoned(NoTables)
    ensures |tables| > 0 ==>
      match ChooseTable(tables, keys)
      case Cancelled => r == Abandoned(Escaped)
      case Pending(_) => r == Waiting
      case Picked(k) =>
        k < |tables| &&
        r == QuickInsertEnd(tables[k], SchemaOf(catalog, tables[k]), typed, isFloat)
  {
    if |tables| == 0 {
      return Abandoned(NoTables);
    }
    Menus.SelectPosition(0, |tables|, keys, Some(Esc));
    var choice := Menus.SelectLoop(|tables|, keys, Some(Esc));
    if choice.Cancelled? {
      return Abandoned(Escaped);
    } else if choice.Pending? {
      return Waiting;
    }
    var tableName := tables[choice.index];
    var schema := SchemaOf(catalog, tableName);
    if |schema| == 0 {
      return Abandoned(TableNotFound);
    }
    var values: seq<SqlValue> := [];
    var i := 0;
    while i < |schema|
      invariant 0 <= i <= |schema|
      invariant i <= |typed|
      invariant values == QuickValues(schema, typed, i, isFloat)
    {
      if i >= |typed| {
        return Waiting;
      }
      var value := Strip(typed[i]);
      values := values + [Coerce(value, schema[i].declType, isFloat)];
      i := i + 1;
    }
    r := Execute(Statement(InsertSql(tableName, Names(schema)), values));
  }

  /**
    Unlike the modular insert, the quick insert binds every placeholder: one
    value per column, the i-th converted from the i-th typed line.
  */
  lemma QuickInsertBinds(table: string, schema: seq<Column>, typed: seq<string>, isFloat: string -> bool)
    requires |typed| >= |schema|
    ensures var st := Statement(InsertSql(table, Names(schema)), QuickValues(schema, typed, |schema|, isFloat));
      && st.sql == InsertHead(table, Names(schema)) + Placeholders(|st.params|) + ")"
      && Count('?', Placeholders(|st.params|)) == |st.params| == |schema|
      && forall i :: 0 <= i < |schema| ==> st.params[i] == Coerce(Strip(typed[i]), schema[i].declType, isFloat)
  {
    QuickValuesSpec(schema, typed, |schema|, isFloat);
    PlaceholdersCount(|schema|);
  }

  // ---------------------------------------------------------------------
  // Update, delete, drop

  /** `= ?`: the new value's placeholder. */
  const SetClause: string := " = ?"
  const WhereRowid: string := " WHERE rowid = "
  /** ` WHERE rowid = ?`: the row id's placeholder. */
  const RowClause: string := WhereRowid + "?"

  /** The two clauses after the column name hold one placeholder each, matching the two bound values. */
  lemma UpdateClausesPlaceholders()
    ensures Count('?', SetClause) == 1 && Count('?', RowClause) == 1
    ensures Count('?', SetClause + RowClause) == 2
  {
    SetClauseMark();
    RowClauseMark();
    CountAppend('?', SetClause, RowClause);
  }

  lemma SetClauseMark()
    ensures Count('?', SetClause) == 1
  {
    CountAbsent('?', " = ");
    assert SetClause == " = " + "?";
    CountAppend('?', " = ", "?");
  }

  lemma RowClauseMark()
    ensures Count('?', RowClause) == 1
  {
    CountAbsent('?', WhereRowid);
    CountAppend('?', WhereRowid, "?");
  }

  /**
    The quick update once its table is chosen: a table without columns or an
    empty row id returns; otherwise the column chooser decides, and the chosen
    column is set to the converted value on the given row.
  */
  function QuickUpdateEnd(table: string, schema: seq<Column>, recordInput: string, columnKeys: seq<Key>,
                          typed: string, isFloat: string -> bool): Outcome
  {
    if |schema| == 0 then Abandoned(TableNotFound)
    else if Strip(recordInput) == "" then Abandoned(NoRecordId)
    else
      var choice := Menus.Select(0, |schema|, columnKeys, Some(Esc));
      Menus.SelectPosition(0, |schema|, columnKeys, Some(Esc));
      match choice
      case Cancelled => Abandoned(Escaped)
      case Pending(_) => Waiting
      case Picked(c) =>
        Execute(Statement("UPDATE " + table + " SET " + schema[c].name + SetClause + RowClause,
                          [Coerce(Strip(typed), schema[c].declType, isFloat), TextValue(Strip(recordInput))]))
  }

  /**
    A quick update runs exactly when the table has columns, a row id is typed
    and a column is chosen. It then binds two values, the new value and the
    row id in that order, and its text ends in the two placeholder clauses.
  */
  lemma QuickUpdateBinds(table: string, schema: seq<Column>, recordInput: string, columnKeys: seq<Key>,
                         typed: string, isFloat: string -> bool)
    ensures var r := QuickUpdateEnd(table, schema, recordInput, columnKeys, typed, isFloat);
      && (r.Execute? <==>
            |schema| > 0 && Strip(recordInput) != "" && Menus.Select(0, |schema|, columnKeys, Some(Esc)).Picked?)
      && (r.Execute? ==>
            && |r.stmt.params| == 2 && r.stmt.params[1] == TextValue(Strip(recordInput))
            && |r.stmt.sql| >= |SetClause + RowClause|
            && r.stmt.sql[|r.stmt.sql| - |SetClause + RowClause|..] == SetClause + RowClause
            && Count('?', SetClause + RowClause) == 2)
  {
    UpdateClausesPlaceholders();
  }

  /**
    `update_record_tool` of the standalone program: a table from the chooser,
    a non-empty row id, a column from the column chooser and the typed new
    value, converted for that column and bound with the row id.
  */
  method QuickUpdate(tables: seq<string>, tableKeys: seq<Key>, catalog: Catalog, recordInput: string,
                     columnKeys: seq<Key>, typed: string, isFloat: string -> bool)
    returns (r: Outcome)
    ensures |tables| == 0 ==> r == Abandoned(NoTables)
    ensures |tables| > 0 ==>
      match ChooseTable(tables, tableKeys)
      case Cancelled => r == Abandoned(Escaped)
      case Pending(_) => r == Waiting
      case Picked(k) =>
        k < |tables| &&
        r == QuickUpdateEnd(tables[k], SchemaOf(catalog, tables[k]), recordInput, columnKeys, typed, isFloat)
  {
    if |tables| == 0 {
      return Abandoned(NoTables);
    }
    Menus.SelectPosition(0, |tables|, tableKeys, Some(Esc));
    var choice := Menus.SelectLoop(|tables|, tableKeys, Some(Esc));
    if choice.Cancelled? {
      return Abandoned(Escaped);
    } else if choice.Pending? {
      return Waiting;
    }
    var tableName := tables[choice.index];
    var schema := SchemaOf(catalog, tableName);
    if |schema| == 0 {
      return Abandoned(TableNotFound);
    }
    var recordId := Strip(recordInput);
    if recordId == "" {
      return Abandoned(NoRecordId);
    }
    Menus.SelectPosition(0, |schema|, columnKeys, Some(Esc));
    var column := Menus.SelectLoop(|schema|, columnKeys, Some(Esc));
    if column.Cancelled? {
      return Abandoned(Escaped);
    } else if column.Pending? {
      return Waiting;
    }
    var col := schema[column.index];
    var finalValue := Coerce(Strip(typed), col.declType, isFloat);
    r := Execute(Statement("UPDATE " + tableName + " SET " + col.name + SetClause + RowClause, [finalValue, TextValue(recordId)]));
  }

  /**
    `delete_record_tool` of the standalone program: a table from the chooser,
    a non-empty row id and then the key 'y'; the row id is bound, not pasted.
  */
  method QuickDelete(tables: seq<string>, keys: seq<Key>, recordInput: string, confirmKey: Key) returns (r: Outcome)
    ensures |tables| == 0 ==> r == Abandoned(NoTables)
    ensures |tables| > 0 ==>
      match ChooseTable(tables, keys)
      case Cancelled => r == Abandoned(Escaped)
      case Pending(_) => r == Waiting
      case Picked(k) =>
        k < |tables| &&
        r == if Strip(recordInput) == "" then Abandoned(NoRecordId)
             else if confirmKey != Char('y') then Abandoned(NotConfirmed)
             else Execute(Statement("DELETE FROM " + tables[k] + " WHERE rowid = ?", [TextValue(Strip(recordInput))]))
    ensures r.Execute? ==> confirmKey == Char('y') && |r.stmt.params| == 1
  {
    if |tables| == 0 {
      return Abandoned(NoTables);
    }
    Menus.SelectPosition(0, |tables|, keys, Some(Esc));
    var choice := Menus.SelectLoop(|tables|, keys, Some(Esc));
    if choice.Cancelled? {
      return Abandoned(Escaped);
    } else if choice.Pending? {
      return Waiting;
    }
    var tableName := tables[choice.index];
    var recordId := Strip(recordInput);
    if recordId == "" {
      return Abandoned(NoRecordId);
    }
    if confirmKey != Char('y') {
      return Abandoned(NotConfirmed);
    }
    r := Execute(Statement("DELETE FROM " + tableName + " WHERE rowid = ?", [TextValue(recordId)]));
  }

  /**
    Deleting row 1 of table `t`: the tool builds a statement with one
    placeholder and one value, which the bound call runs and the call as
    written refuses.
  */
  lemma QuickDeleteRefused()
    ensures var st := Statement("DELETE FROM " + "t" + " WHERE rowid = ?", [TextValue("1")]);
      && Count('?', st.sql) == |st.params| == 1
      && Deliver(st.sql, [st.params]) == ArgumentRefused
      && DeliverBound(st.sql, [st.params]) == Ran(st)
  {
    var st := Statement("DELETE FROM " + "t" + " WHERE rowid = ?", [TextValue("1")]);
    var head := "DELETE FROM t WHERE rowid = ";
    assert st.sql == head + "?";
    CountAbsent('?', head);
    CountAppend('?', head, "?");
    ValuesArgument(st, st.sql);
  }

  /** `drop_table_tool` of the standalone program: a table from the chooser, dropped only on the key 'y'. */
  method QuickDrop(tables: seq<string>, keys: seq<Key>, confirmKey: Key) returns (r: Outcome)
    ensures |tables| == 0 ==> r == Abandoned(NoTables)
    ensures |tables| > 0 ==>
      match ChooseTable(tables, keys)
      case Cancelled => r == Abandoned(Escaped)
      case Pending(_) => r == Waiting
      case Picked(k) =>
        k < |tables| &&
        r == if confirmKey != Char('y') then Abandoned(NotConfirmed)
             else Execute(Statement("DROP TABLE " + tables[k], []))
    ensures r.Execute? ==> confirmKey == Char('y')
  {
    if |tables| == 0 {
      return Abandoned(NoTables);
    }
    Menus.SelectPosition(0, |tables|, keys, Some(Esc));
    var choice := Menus.SelectLoop(|tables|, keys, Some(Esc));
    if choice.Cancelled? {
      return Abandoned(Escaped);
    } else if choice.Pending? {
      return Waiting;
    }
    if confirmKey != Char('y') {
      return Abandoned(NotConfirmed);
    }
    r := Execute(Statement("DROP TABLE " + tables[choice.index], []));
  }

  // ---------------------------------------------------------------------
  // Create

  /** One column of the create form: the typed name and the keys given to its type chooser. */
  datatype ColumnEntry = ColumnEntry(name: string, typeKeys: seq<Key>)

  /** `int(text.strip())`, with a ValueError read as 0. */
  function ColumnCount(countInput: string): int
  {
    match ParseInt(Strip(countInput))
    case Some(n) => n
    case None => 0
  }

  /**
    The (name, type) pairs of the first `count` column entries: a blank name
    skips its column, a type chooser that ends without Enter leaves the form
    waiting (None).
  */
  function Definitions(entries: seq<ColumnEntry>, count: nat): Option<seq<(string, string)>>
    requires count <= |entries|
  {
    if count == 0 then Some([])
    else
      match Definitions(entries, count - 1)
      case None => None
      case Some(defs) =>
        var name := Strip(entries[count - 1].name);
        if name == "" then Some(defs)
        else
          var r := Menus.Select(0, |Menus.ColumnTypes|, entries[count - 1].typeKeys, None);
          if r.Picked? && r.index < |Menus.ColumnTypes| then Some(defs + [(name, Menus.ColumnTypes[r.index])])
          else None
  }

  /** `f"{name} {type}"` for each definition. */
  function DefinitionTexts(defs: seq<(string, string)>): (texts: seq<string>)
    ensures |texts| == |defs| && forall i :: 0 <= i < |defs| ==> texts[i] == defs[i].0 + " " + defs[i].1
  {
    seq(|defs|, i requires 0 <= i < |defs| => defs[i].0 + " " + defs[i].1)
  }

  /** The texts of definitions collected in two runs are the texts of each run, in order. */
  lemma DefinitionTextsAppend(a: seq<(string, string)>, b: seq<(string, string)>)
    ensures DefinitionTexts(a + b) == DefinitionTexts(a) + DefinitionTexts(b)
    ensures DefinitionTexts(a + b)[|a|..] == DefinitionTexts(b)
  {
  }

  /**
    Every definition has a non-blank stripped name and one of the five
    offered types, there are never more definitions than entries, and there
    are none exactly when every name is blank.
  */
  lemma {:induction false} DefinitionsSpec(entries: seq<ColumnEntry>, count: nat)
    requires count <= |entries|
    ensures Definitions(entries, count).Some? ==>
      var defs := Definitions(entries, count).value;
      && |defs| <= count
      && (forall i :: 0 <= i < |defs| ==> defs[i].0 != "" && defs[i].1 in Menus.ColumnTypes)
      && (defs == [] <==> forall i :: 0 <= i < count ==> Strip(entries[i].name) == "")
  {
    if count > 0 {
      DefinitionsSpec(entries, count - 1);
    }
  }

  /**
    The column loop of the standalone `create_table_tool`: for each of the n
    columns a name prompt and, for a non-blank name, the type chooser; None
    when the typed lines or the chooser's keys run out.
  */
  method CollectColumns(entries: seq<ColumnEntry>, n: nat) returns (columns: Option<seq<string>>)
    ensures columns.Some? <==> n <= |entries| && Definitions(entries, n).Some?
    ensures columns.Some? ==> columns.value == DefinitionTexts(Definitions(entries, n).value)
  {
    var cols: seq<string> := [];
    ghost var defs: seq<(string, string)> := [];
    var i := 0;
    while i < n
      invariant 0 <= i <= n && i <= |entries|
      invariant Definitions(entries, i) == Some(defs)
      invariant cols == DefinitionTexts(defs)
    {
      if i >= |entries| {
        return None;
      }
      var colName := Strip(entries[i].name);
      if colName != "" {
        var chosen := Menus.ChooseColumnType(entries[i].typeKeys);
        Menus.SelectPosition(0, |Menus.ColumnTypes|, entries[i].typeKeys, None);
        if chosen.None? {
          if n <= |entries| {
            PendingStaysPending(entries, i + 1, n);
          }
          return None;
        }
        defs := defs + [(colName, chosen.value)];
        cols := cols + [colName + " " + chosen.value];
      }
      i := i + 1;
    }
    return Some(cols);
  }

  /**
    `create_table_tool` of the standalone program: a table name, a positive
    number of columns, and for each column a name and a type from the chooser.
  */
  method QuickCreate(tableInput: string, countInput: string, entries: seq<ColumnEntry>) returns (r: Outcome)
    ensures Strip(tableInput) == "" ==> r == Abandoned(NoTableName)
    ensures Strip(tableInput) != "" && ColumnCount(countInput) <= 0 ==> r == Abandoned(BadColumnCount)
    ensures Strip(tableInput) != "" && ColumnCount(countInput) > 0 ==>
      var n := ColumnCount(countInput);
      r == if |entries| < n then Waiting
           else match Definitions(entries, n)
             case None => Waiting
             case Some(defs) =>
               if defs == [] then Abandoned(NoColumns)
               else Execute(Statement("CREATE TABLE " + Strip(tableInput) + " (" + Join(", ", DefinitionTexts(defs)) + ")", []))
  {
    var tableName := Strip(tableInput);
    if tableName == "" {
      return Abandoned(NoTableName);
    }
    var numCols := ColumnCount(countInput);
    if numCols <= 0 {
      return Abandoned(BadColumnCount);
    }
    var columns := CollectColumns(entries, numCols);
    if columns.None? {
      return Waiting;
    }
    if columns.value == [] {
      return Abandoned(NoColumns);
    }
    r := Execute(Statement("CREATE TABLE " + tableName + " (" + Join(", ", columns.value) + ")", []));
  }

  /** Once the form is waiting on a column's type, later entries do not change that. */
  lemma {:induction false} PendingStaysPending(entries: seq<ColumnEntry>, k: nat, n: nat)
    requires k <= n <= |entries| && Definitions(entries, k).None?
    ensures Definitions(entries, n).None?
    decreases n - k
  {
    if k < n {
      PendingStaysPending(entries, k + 1, n);
    }
  }

  // ---------------------------------------------------------------------
  // View structure

  /** One line of the structure view: name, type, nullable and default columns. */
  datatype StructureLine = StructureLine(name: string, declType: string, nullable: string, default: string)

  /** `"NO" if not_null else "YES"`, the name cut to 17, the type to 14, the default to w - 52 (empty when it is empty or None). */
  function StructureRow(col: Column, w: int): StructureLine
  {
    StructureLine(
      PyTake(col.name, 17),
      PyTake(col.declType, 14),
      if col.notNull then "NO" else "YES",
      match col.default
      case None => ""
      case Some(d) => if d == "" then "" else PyTake(d, w - 52))
  }

  /** The lines shown: one per column from row 5 down, while the row stays above h - 2. */
  function StructureLines(schema: seq<Column>, h: int, w: int): seq<StructureLine>
  {
    var count := FitCount(|schema|, 5, 1, h - 2);
    FitCountSpec(|schema|, 5, 1, h - 2);
    seq(count, i requires 0 <= i < count => StructureRow(schema[i], w))
  }

  /**
    The structure view shows a prefix of the columns, each name and type a
    prefix of the original within its field's width, "NO" exactly for NOT
    NULL columns, and a default only where one is set.
  */
  lemma StructureLinesSpec(schema: seq<Column>, h: int, w: int)
    ensures var lines := StructureLines(schema, h, w);
      && |lines| <= |schema|
      && (|lines| < |schema| ==> 5 + |lines| >= h - 2)
      && forall i :: 0 <= i < |lines| ==>
        && |lines[i].name| <= 17 && lines[i].name == schema[i].name[..|lines[i].name|]
        && |lines[i].declType| <= 14 && lines[i].declType == schema[i].declType[..|lines[i].declType|]
        && (lines[i].nullable == "NO" <==> schema[i].notNull)
        && (schema[i].default.None? || schema[i].default == Some("") ==> lines[i].default == "")
        && (w >= 52 ==> |lines[i].default| <= w - 52)
  {
    FitCountSpec(|schema|, 5, 1, h - 2);
  }

  /** How the structure view ends: the lines shown, a return, or the chooser still open. */
  datatype StructureView = Shown(lines: seq<StructureLine>) | NotShown(reason: Reason) | StillChoosing

  /** `view_table_structure_tool`: the chosen table's column lines, or why nothing is shown. */
  method ViewTableStructure(tables: seq<string>, keys: seq<Key>, catalog: Catalog, h: int, w: int)
    returns (view: StructureView)
    ensures |tables| == 0 ==> view == NotShown(NoTables)
    ensures |tables| > 0 ==>
      match ChooseTable(tables, keys)
      case Cancelled => view == NotShown(Escaped)
      case Pending(_) => view == StillChoosing
      case Picked(k) =>
        k < |tables| &&
        view == if |SchemaOf(catalog, tables[k])| == 0 then NotShown(TableNotFound)
                else Shown(StructureLines(SchemaOf(catalog, tables[k]), h, w))
  {
    if |tables| == 0 {
      return NotShown(NoTables);
    }
    Menus.SelectPosition(0, |tables|, keys, Some(Esc));
    var choice := Menus.SelectLoop(|tables|, keys, Some(Esc));
    if choice.Cancelled? {
      return NotShown(Escaped);
    } else if choice.Pending? {
      return StillChoosing;
    }
    var schema := SchemaOf(catalog, tables[choice.index]);
    if |schema| == 0 {
      return NotShown(TableNotFound);
    }
    view := Shown(StructureLines(schema, h, w));
  }
}
