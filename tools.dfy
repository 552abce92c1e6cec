/**
  The database tools of the modular program (`DatabaseTools`): insert,
  update and delete a record, create and drop a table. Each reads its inputs
  from typed lines, returns early when one is missing, and builds the SQL it
  hands to the database from the typed text.
*/
module Tools {
  import opened Wrappers
  import opened Text
  import opened Sqlite
  import opened Terminal
  import opened Statements

  // ---------------------------------------------------------------------
  // Insert

  /** `value.upper() == 'NULL' or value == ''`: a typed value that stands for NULL. */
  predicate NullText(v: string)
  {
    NullWord(v) || v == ""
  }

  /** A typed value for the insert tool: empty or NULL (any case) is None, anything else its stripped text. */
  function InsertValue(typed: string): SqlValue
  {
    var s := Strip(typed);
    if NullText(s) then NullValue else TextValue(s)
  }

  /** Exactly the empty line and the four-letter spellings of null become None; every other line keeps its stripped text. */
  lemma InsertValueSpec(typed: string)
    ensures InsertValue(typed) == NullValue <==> Strip(typed) == "" || Lower(Strip(typed)) == "null"
    ensures InsertValue(typed) != NullValue ==> InsertValue(typed) == TextValue(Strip(typed)) && |Strip(typed)| > 0
  {
    NullWordSpec(Strip(typed));
  }

  /** The values of the first `count` prompts. */
  function InsertValues(typed: seq<string>, count: nat): (vs: seq<SqlValue>)
    requires count <= |typed|
    ensures |vs| == count && forall i :: 0 <= i < count ==> vs[i] == InsertValue(typed[i])
  {
    seq(count, i requires 0 <= i < count => InsertValue(typed[i]))
  }

  /** Answering one more prompt only appends that prompt's value: the earlier values stay as they were. */
  lemma InsertValuesExtend(typed: seq<string>, j: nat, k: nat)
    requires j <= k <= |typed|
    ensures InsertValues(typed, j) == InsertValues(typed, k)[..j]
    ensures k > 0 ==> InsertValues(typed, k) == InsertValues(typed, k - 1) + [InsertValue(typed[k - 1])]
  {
  }

  /** The column prompts that fit: the prompt for column i sits on row 7 + 2i, and rows from h - 2 down are not used. */
  function InsertPrompts(n: nat, h: int): (count: nat)
    ensures count <= n
  {
    FitCountSpec(n, 7, 2, h - 2);
    FitCount(n, 7, 2, h - 2)
  }

  /**
    `insert_record_tool`, given the typed table name, the schema the database
    reports for it (empty when there is no such table), one typed line per
    column prompt and the screen height. The prompt loop stops at the bottom
    of the screen; the statement lists every column of the schema.
  */
  method InsertRecordTool(tableInput: string, schema: seq<Column>, typed: seq<string>, h: int) returns (r: Outcome)
    requires |typed| == |schema|
    ensures Strip(tableInput) == "" ==> r == Abandoned(NoTableName)
    ensures Strip(tableInput) != "" && |schema| == 0 ==> r == Abandoned(TableNotFound)
    ensures Strip(tableInput) != "" && |schema| > 0 ==>
      r == Execute(Statement(InsertSql(Strip(tableInput), Names(schema)), InsertValues(typed, InsertPrompts(|schema|, h))))
  {
    var tableName := Strip(tableInput);
    if tableName == "" {
      return Abandoned(NoTableName);
    }
    if |schema| == 0 {
      return Abandoned(TableNotFound);
    }
    var values: seq<SqlValue> := [];
    var i := 0;
    while i < |schema|
      invariant 0 <= i <= |schema|
      invariant i + FitCount(|schema| - i, 7 + 2 * i, 2, h - 2) == InsertPrompts(|schema|, h)
      invariant values == InsertValues(typed, i)
    {
      var y := 7 + i * 2;
      if y >= h - 2 {
        break;
      }
      assert InsertValues(typed, i + 1) == InsertValues(typed, i) + [InsertValue(typed[i])];
      values := values + [InsertValue(typed[i])];
      i := i + 1;
    }
    r := Execute(Statement(InsertSql(tableName, Names(schema)), values));
  }

  /**
    Every column is prompted for exactly when the last prompt still fits
    above row h - 2; otherwise fewer values are collected than there are
    columns.
  */
  lemma InsertPromptsAll(n: nat, h: int)
    ensures InsertPrompts(n, h) <= n
    ensures InsertPrompts(n, h) == n <==> n == 0 || 7 + 2 * (n - 1) < h - 2
  {
    FitCountSpec(n, 7, 2, h - 2);
  }

  /**
    As written, whenever the last column prompt does not fit on the screen,
    the insert lists every column with one placeholder each but binds fewer
    values than that, which the database refuses.
  */
  lemma InsertBindingMismatch(tableInput: string, schema: seq<Column>, typed: seq<string>, h: int)
    requires |typed| == |schema| && |schema| > 0 && 7 + 2 * (|schema| - 1) >= h - 2
    ensures var st := Statement(InsertSql(Strip(tableInput), Names(schema)), InsertValues(typed, InsertPrompts(|schema|, h)));
      && st.sql == InsertHead(Strip(tableInput), Names(schema)) + Placeholders(|schema|) + ")"
      && Count('?', Placeholders(|schema|)) == |schema|
      && |st.params| < |schema|
  {
    InsertPromptsAll(|schema|, h);
    PlaceholdersCount(|schema|);
  }

  /** For instance ten columns on a 24-row screen: ten placeholders, eight values. */
  lemma InsertMismatchExample()
    ensures InsertPrompts(10, 24) == 8
  {
    assert FitCount(2, 23, 2, 22) == 0;
    assert FitCount(10, 7, 2, 22) == 1 + FitCount(9, 9, 2, 22);
    assert FitCount(9, 9, 2, 22) == 1 + FitCount(8, 11, 2, 22);
    assert FitCount(8, 11, 2, 22) == 1 + FitCount(7, 13, 2, 22);
    assert FitCount(7, 13, 2, 22) == 1 + FitCount(6, 15, 2, 22);
    assert FitCount(6, 15, 2, 22) == 1 + FitCount(5, 17, 2, 22);
    assert FitCount(5, 17, 2, 22) == 1 + FitCount(4, 19, 2, 22);
    assert FitCount(4, 19, 2, 22) == 1 + FitCount(3, 21, 2, 22);
    assert FitCount(3, 21, 2, 22) == 1 + FitCount(2, 23, 2, 22);
  }

  /**
    The insert as intended: the statement lists only the columns that were
    prompted for, so it has one placeholder per collected value.
  */
  function CorrectedInsert(table: string, schema: seq<Column>, typed: seq<string>, h: int): (st: Statement)
    requires |typed| == |schema|
  {
    var count := InsertPrompts(|schema|, h);
    Statement(InsertSql(table, Names(schema)[..count]), InsertValues(typed, count))
  }

  /**
    The corrected insert binds every placeholder: its placeholder list has
    exactly as many marks as it has values, the i-th listed column is the i-th
    column and receives the i-th typed value, and on a screen tall enough for
    every prompt it is the insert as written.
  */
  lemma CorrectedInsertBinds(table: string, schema: seq<Column>, typed: seq<string>, h: int)
    requires |typed| == |schema|
    ensures var st := CorrectedInsert(table, schema, typed, h);
      var names := Names(schema)[..|st.params|];
      && st.sql == InsertHead(table, names) + Placeholders(|st.params|) + ")"
      && Count('?', Placeholders(|st.params|)) == |st.params| == |names|
      && (forall i :: 0 <= i < |st.params| ==> names[i] == schema[i].name && st.params[i] == InsertValue(typed[i]))
    ensures 7 + 2 * (|schema| - 1) < h - 2 ==>
      CorrectedInsert(table, schema, typed, h) == Statement(InsertSql(table, Names(schema)), InsertValues(typed, |schema|))
  {
    var count := InsertPrompts(|schema|, h);
    InsertPromptsAll(|schema|, h);
    PlaceholdersCount(count);
    if 7 + 2 * (|schema| - 1) < h - 2 {
      assert Names(schema)[..|schema|] == Names(schema);
    }
  }

  // ---------------------------------------------------------------------
  // Update

  /** Column types whose new value is written between single quotes. */
  predicate Quoted(declType: string)
  {
    Upper(declType) in ["TEXT", "VARCHAR", "CHAR"]
  }

  /** The assignment for one prompted column: none for an empty or NULL value, else `col = 'v'` or `col = v`. */
  function SetPart(col: Column, typed: string): Option<string>
  {
    var v := Strip(typed);
    if !NullText(v) then
      Some(if Quoted(col.declType) then col.name + " = '" + v + "'" else col.name + " = " + v)
    else None
  }

  /**
    A column is assigned exactly when its typed value is neither empty nor
    null; text columns get the value between single quotes, the others get it
    bare.
  */
  lemma SetPartSpec(col: Column, typed: string)
    ensures SetPart(col, typed).None? <==> Strip(typed) == "" || Lower(Strip(typed)) == "null"
    ensures SetPart(col, typed).Some? ==>
      SetPart(col, typed).value == col.name + " = " + (if Quoted(col.declType) then "'" + Strip(typed) + "'" else Strip(typed))
  {
    NullWordSpec(Strip(typed));
  }

  /** The assignments of the first `count` prompts, in column order, blanks left out. */
  function SetParts(schema: seq<Column>, typed: seq<string>, count: nat): seq<string>
    requires count <= |schema| && count <= |typed|
  {
    if count == 0 then []
    else
      var p := SetPart(schema[count - 1], typed[count - 1]);
      SetParts(schema, typed, count - 1) + (if p.Some? then [p.value] else [])
  }

  /**
    The update has something to set exactly when some prompted value is
    neither empty nor NULL.
  */
  lemma {:induction false} SetPartsEmpty(schema: seq<Column>, typed: seq<string>, count: nat)
    requires count <= |schema| && count <= |typed|
    ensures SetParts(schema, typed, count) == [] <==>
      forall i :: 0 <= i < count ==> SetPart(schema[i], typed[i]).None?
  {
    if count > 0 {
      SetPartsEmpty(schema, typed, count - 1);
      var p := SetPart(schema[count - 1], typed[count - 1]);
      var prev := SetParts(schema, typed, count - 1);
      assert SetParts(schema, typed, count) == prev + (if p.Some? then [p.value] else []);
      if p.Some? {
        assert |SetParts(schema, typed, count)| > 0;
      }
    }
  }

  /** The number of prompted values that are neither empty nor NULL. */
  function SetCount(schema: seq<Column>, typed: seq<string>, count: nat): nat
    requires count <= |schema| && count <= |typed|
  {
    if count == 0 then 0
    else SetCount(schema, typed, count - 1) + (if SetPart(schema[count - 1], typed[count - 1]).Some? then 1 else 0)
  }

  /** Each of those values gives exactly one assignment, so there are never more assignments than prompts. */
  lemma {:induction false} SetPartsCount(schema: seq<Column>, typed: seq<string>, count: nat)
    requires count <= |schema| && count <= |typed|
    ensures |SetParts(schema, typed, count)| == SetCount(schema, typed, count) <= count
  {
    if count > 0 {
      SetPartsCount(schema, typed, count - 1);
    }
  }

  /** The column prompts of the update tool that fit: row 10 + 2i, rows from h - 4 down unused. */
  function UpdatePrompts(n: nat, h: int): (count: nat)
    ensures count <= n
  {
    FitCountSpec(n, 10, 2, h - 4);
    FitCount(n, 10, 2, h - 4)
  }

  /** `UPDATE t SET a = …, b = … WHERE cond`. */
  function UpdateSql(table: string, parts: seq<string>, condition: string): string
  {
    "UPDATE " + table + " SET " + Join(", ", parts) + " WHERE " + condition
  }

  /**
    The prompt loop of `update_record_tool`: one prompt per column while the
    next prompt row is above `h - 4`, each answer that is neither empty nor
    NULL turned into an assignment, quoted for text columns.
  */
  method CollectSetParts(schema: seq<Column>, typed: seq<string>, h: int) returns (setParts: seq<string>)
    requires |typed| == |schema|
    ensures UpdatePrompts(|schema|, h) <= |schema|
    ensures setParts == SetParts(schema, typed, UpdatePrompts(|schema|, h))
  {
    setParts := [];
    var i := 0;
    while i < |schema|
      invariant 0 <= i <= |schema|
      invariant i + FitCount(|schema| - i, 10 + 2 * i, 2, h - 4) == UpdatePrompts(|schema|, h)
      invariant setParts == SetParts(schema, typed, i)
    {
      var y := 10 + i * 2;
      if y >= h - 4 {
        break;
      }
      var value := Strip(typed[i]);
      if !NullText(value) {
        if Quoted(schema[i].declType) {
          setParts := setParts + [schema[i].name + " = '" + value + "'"];
        } else {
          setParts := setParts + [schema[i].name + " = " + value];
        }
      }
      i := i + 1;
    }
  }

  /**
    `update_record_tool`, given the typed table name, the table's schema
    (empty when there is no such table), the typed WHERE condition, one typed
    line per column prompt and the screen height. The statement carries the
    typed text itself, so it has no bound parameters.
  */
  method UpdateRecordTool(tableInput: string, schema: seq<Column>, whereInput: string, typed: seq<string>, h: int)
    returns (r: Outcome)
    requires |typed| == |schema|
    ensures Strip(tableInput) == "" ==> r == Abandoned(NoTableName)
    ensures Strip(tableInput) != "" && |schema| == 0 ==> r == Abandoned(TableNotFound)
    ensures Strip(tableInput) != "" && |schema| > 0 && Strip(whereInput) == "" ==> r == Abandoned(NoCondition)
    ensures Strip(tableInput) != "" && |schema| > 0 && Strip(whereInput) != "" ==>
      var count := UpdatePrompts(|schema|, h);
      count <= |schema| &&
      var parts := SetParts(schema, typed, count);
      r == if parts == [] then Abandoned(NoValues)
           else Execute(Statement(UpdateSql(Strip(tableInput), parts, Strip(whereInput)), []))
  {
    var tableName := Strip(tableInput);
    if tableName == "" {
      return Abandoned(NoTableName);
    }
    if |schema| == 0 {
      return Abandoned(TableNotFound);
    }
    var whereCondition := Strip(whereInput);
    if whereCondition == "" {
      return Abandoned(NoCondition);
    }
    var setParts := CollectSetParts(schema, typed, h);
    if setParts == [] {
      return Abandoned(NoValues);
    }
    r := Execute(Statement(UpdateSql(tableName, setParts, whereCondition), []));
  }

  // ---------------------------------------------------------------------
  // Delete, create, drop

  /**
    `delete_record_tool`: runs only with a table name, a WHERE condition and
    the typed "yes", and deletes exactly the rows the typed condition selects.
  */
  function DeleteRecordTool(tableInput: string, whereInput: string, confirmation: string): (r: Outcome)
    ensures r.Execute? <==> Strip(tableInput) != "" && Strip(whereInput) != "" && Confirmed(confirmation)
    ensures r == Abandoned(NoTableName) <==> Strip(tableInput) == ""
    ensures r == Abandoned(NoCondition) <==> Strip(tableInput) != "" && Strip(whereInput) == ""
    ensures r.Execute? ==> r.stmt == Statement("DELETE FROM " + Strip(tableInput) + " WHERE " + Strip(whereInput), [])
  {
    var tableName := Strip(tableInput);
    var whereCondition := Strip(whereInput);
    if tableName == "" then Abandoned(NoTableName)
    else if whereCondition == "" then Abandoned(NoCondition)
    else if !Confirmed(confirmation) then Abandoned(NotConfirmed)
    else Execute(Statement("DELETE FROM " + tableName + " WHERE " + whereCondition, []))
  }

  /** `create_table_tool`: the typed column definitions go between the parentheses as typed (stripped). */
  function CreateTableTool(tableInput: string, columnsInput: string): (r: Outcome)
    ensures r.Execute? <==> Strip(tableInput) != "" && Strip(columnsInput) != ""
    ensures r == Abandoned(NoTableName) <==> Strip(tableInput) == ""
    ensures r.Execute? ==> r.stmt == Statement("CREATE TABLE " + Strip(tableInput) + " (" + Strip(columnsInput) + ")", [])
  {
    var tableName := Strip(tableInput);
    var columns := Strip(columnsInput);
    if tableName == "" then Abandoned(NoTableName)
    else if columns == "" then Abandoned(NoColumns)
    else Execute(Statement("CREATE TABLE " + tableName + " (" + columns + ")", []))
  }

  /** `drop_table_tool`: a table is dropped only after the typed "yes". */
  function DropTableTool(tableInput: string, confirmation: string): (r: Outcome)
    ensures r.Execute? <==> Strip(tableInput) != "" && Confirmed(confirmation)
    ensures r == Abandoned(NoTableName) <==> Strip(tableInput) == ""
    ensures r.Execute? ==> r.stmt == Statement("DROP TABLE " + Strip(tableInput), [])
  {
    var tableName := Strip(tableInput);
    if tableName == "" then Abandoned(NoTableName)
    else if !Confirmed(confirmation) then Abandoned(NotConfirmed)
    else Execute(Statement("DROP TABLE " + tableName, []))
  }
}
