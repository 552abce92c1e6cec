/**
  What the database tools hand to the database: statement text with `?`
  placeholders and the values bound to them, and the pieces of Python
  behaviour the tools build them from (the placeholder list, `int()` on typed
  text, the "yes" confirmation).
*/
module Statements {
  import opened Wrappers
  import opened Text

  /** A value bound to a placeholder: None, a string, a Python int, or a float given by its text. */
  datatype SqlValue = NullValue | TextValue(text: string) | IntValue(value: int) | RealValue(text: string)

  /** The text of a statement and the values bound to its placeholders, in order. */
  datatype Statement = Statement(sql: string, params: seq<SqlValue>)

  /** Why a tool returned without running anything. */
  datatype Reason =
    | NoTableName       // the table name was left empty
    | TableNotFound     // the database reports no columns for it
    | NoCondition       // the WHERE condition was left empty
    | NoValues          // every new value was left empty or NULL
    | NoColumns         // no column definition was given
    | BadColumnCount    // the number of columns is not a positive integer
    | NoRecordId        // the row id was left empty
    | NotConfirmed      // the confirmation was not given
    | NoTables          // the database has no tables to choose from
    | Escaped           // Escape in a chooser

  /**
    How a tool ends: a statement handed to the database, a return without
    one, or still waiting for input when the given keys or lines run out.
  */
  datatype Outcome = Execute(stmt: Statement) | Abandoned(reason: Reason) | Waiting

  /**
    What a call `execute_sql(sql, *args)` hands to SQLite: the statement with
    its bound values, or nothing, because Python refuses a call whose
    arguments do not fit the method's parameters (a `TypeError`, which the
    calling tool catches and shows as an error).
  */
  datatype Delivery = Ran(stmt: Statement) | ArgumentRefused

  /**
    The standalone `DatabaseManager.execute_sql(self, sql)` as written: it
    takes the SQL text alone, so only a call without further arguments runs,
    and it binds nothing.
  */
  function Deliver(sql: string, args: seq<seq<SqlValue>>): (d: Delivery)
    ensures d.Ran? <==> |args| == 0
    ensures d.Ran? ==> d.stmt.sql == sql && d.stmt.params == []
  {
    if |args| == 0 then Ran(Statement(sql, [])) else ArgumentRefused
  }

  /**
    The method the quick tools evidently call, `execute_sql(sql, params=())`
    passing the values on to `cursor.execute`: one optional argument, the
    values to bind.
  */
  function DeliverBound(sql: string, args: seq<seq<SqlValue>>): (d: Delivery)
    ensures d.Ran? <==> |args| <= 1
    ensures d.Ran? ==> d.stmt.sql == sql && d.stmt.params == (if |args| == 0 then [] else args[0])
  {
    if |args| == 0 then Ran(Statement(sql, []))
    else if |args| == 1 then Ran(Statement(sql, args[0]))
    else ArgumentRefused
  }

  /**
    Every call the quick insert, update and delete make passes the values, so
    as written none of their statements reaches the database; with the bound
    method each runs exactly as built, and every call with the SQL text alone
    behaves as before.
  */
  lemma ValuesArgument(stmt: Statement, sql: string)
    ensures Deliver(stmt.sql, [stmt.params]) == ArgumentRefused
    ensures DeliverBound(stmt.sql, [stmt.params]) == Ran(stmt)
    ensures DeliverBound(sql, []) == Deliver(sql, [])
  {
  }

  /** `', '.join(['?' for _ in range(n)])`. */
  function Placeholders(n: nat): string
  {
    Join(", ", seq(n, _ => "?"))
  }

  /**
    The placeholder list holds exactly n question marks, separated by ", ",
    so n values can be bound to it.
  */
  lemma {:induction false} PlaceholdersCount(n: nat)
    ensures Count('?', Placeholders(n)) == n
    ensures |Placeholders(n)| == if n == 0 then 0 else 3 * n - 2
    decreases n
  {
    var parts := seq(n, _ => "?");
    JoinLength(", ", parts);
    SumLengthsUniform(parts, 1);
    if n > 1 {
      var rest := seq(n - 1, _ => "?");
      assert parts[1..] == rest;
      PlaceholdersCount(n - 1);
      assert Placeholders(n) == "?" + ", " + Placeholders(n - 1);
      CountAppend('?', "?" + ", ", Placeholders(n - 1));
      assert Count('?', "?" + ", ") == 1;
    } else if n == 1 {
      assert Placeholders(1) == "?";
    }
  }

  /** The text of an insert up to its placeholder list: `INSERT INTO t (c1, c2, …) VALUES (`. */
  function InsertHead(table: string, names: seq<string>): string
  {
    "INSERT INTO " + table + " (" + Join(", ", names) + ") VALUES ("
  }

  /** `INSERT INTO t (c1, c2, …) VALUES (?, ?, …)`: one placeholder per listed column. */
  function InsertSql(table: string, names: seq<string>): string
  {
    InsertHead(table, names) + Placeholders(|names|) + ")"
  }

  /** `text.strip().lower() == 'yes'`: the typed confirmation of the modular tools. */
  predicate Confirmed(typed: string)
  {
    Lower(Strip(typed)) == "yes"
  }

  /**
    A confirmation is accepted exactly when, without its surrounding spaces,
    it is the word "yes" in any mix of cases.
  */
  lemma ConfirmedSpec(typed: string)
    ensures Confirmed(typed) <==>
      var s := Strip(typed);
      |s| == 3 && LowerChar(s[0]) == 'y' && LowerChar(s[1]) == 'e' && LowerChar(s[2]) == 's'
  {
    var s := Strip(typed);
    if |s| == 3 && LowerChar(s[0]) == 'y' && LowerChar(s[1]) == 'e' && LowerChar(s[2]) == 's' {
      assert Lower(s) == "yes";
    }
  }

  /** "YES" and " yes" confirm; "y" does not. */
  lemma ConfirmedExamples()
    ensures Confirmed("YES") && Confirmed(" yes") && !Confirmed("y")
  {
    assert !IsSpace('Y') && !IsSpace('S') && !IsSpace('y') && !IsSpace('s') && IsSpace(' ');
    assert StripLeft("YES") == "YES" && StripRight("YES") == "YES";
    assert " yes"[1..] == "yes";
    assert StripLeft("yes") == "yes" && StripRight("yes") == "yes";
    assert StripLeft(" yes") == "yes";
    assert StripLeft("y") == "y" && StripRight("y") == "y";
  }

  // ---------------------------------------------------------------------
  // Python's int() on typed text (ASCII digits)

  predicate IsDigit(c: char) { '0' <= c <= '9' }

  /** A base-10 numeral as `int()` accepts it: digits, with single underscores allowed between digits. */
  predicate Numeral(s: string)
  {
    && |s| > 0 && IsDigit(s[0]) && IsDigit(s[|s| - 1])
    && (forall i :: 0 <= i < |s| ==> IsDigit(s[i]) || s[i] == '_')
    && (forall i :: 0 <= i < |s| - 1 ==> s[i] == '_' ==> s[i + 1] != '_')
  }

  function DigitValue(c: char): nat { if IsDigit(c) then c as int - '0' as int else 0 }

  /** The number a numeral denotes, underscores ignored. */
  function NumeralValue(s: string): nat
  {
    if |s| == 0 then 0
    else if s[|s| - 1] == '_' then NumeralValue(s[..|s| - 1])
    else 10 * NumeralValue(s[..|s| - 1]) + DigitValue(s[|s| - 1])
  }

  /** `int(s)` for base-10 text: an optional sign and a numeral, or a ValueError (None). */
  function ParseInt(s: string): Option<int>
  {
    if |s| > 0 && (s[0] == '+' || s[0] == '-') then
      if Numeral(s[1..]) then
        var v: int := NumeralValue(s[1..]);
        Some(if s[0] == '-' then -v else v)
      else None
    else if Numeral(s) then Some(NumeralValue(s))
    else None
  }

  function DigitChar(d: nat): char
    requires d < 10
  {
    ('0' as int + d) as char
  }

  /** The decimal digits of n, most significant first. */
  function Decimal(n: nat): string
  {
    if n < 10 then [DigitChar(n)] else Decimal(n / 10) + [DigitChar(n % 10)]
  }

  /** `str(i)` for a Python int. */
  function IntText(i: int): string
  {
    if i < 0 then "-" + Decimal(-i) else Decimal(i)
  }

  lemma {:induction false} DecimalIsNumeral(n: nat)
    ensures Numeral(Decimal(n)) && NumeralValue(Decimal(n)) == n
    ensures forall i :: 0 <= i < |Decimal(n)| ==> IsDigit(Decimal(n)[i])
    decreases n
  {
    if n >= 10 {
      DecimalIsNumeral(n / 10);
      var d := Decimal(n);
      assert d[..|d| - 1] == Decimal(n / 10);
      assert DigitValue(DigitChar(n % 10)) == n % 10;
    }
  }

  /** What `str()` writes, `int()` reads back: the parser and the printer agree on every integer. */
  lemma IntTextRoundTrip(i: int)
    ensures ParseInt(IntText(i)) == Some(i)
  {
    if i < 0 {
      var d := Decimal(-i);
      DecimalIsNumeral(-i);
      var t := "-" + d;
      assert t[0] == '-' && t[1..] == d;
    } else {
      var d := Decimal(i);
      DecimalIsNumeral(i);
      assert IsDigit(d[0]);
    }
  }

  /** `int()` refuses what has no digits, a decimal point, or a doubled, leading or trailing underscore. */
  lemma ParseIntRejects()
    ensures ParseInt("") == None && ParseInt("-") == None && ParseInt("1.5") == None
    ensures ParseInt("1__0") == None && ParseInt("10_") == None && ParseInt("_1") == None
  {
    assert !IsDigit('.') && !IsDigit('_');
    assert "1__0"[1] == '_' && "1__0"[2] == '_';
    assert "10_"[2] == '_' && "_1"[0] == '_';
  }

  /** `int()` reads single underscores between digits, leading zeros and a sign. */
  lemma ParseIntAccepts()
    ensures ParseInt("1_000") == Some(1000)
    ensures ParseInt("-007") == Some(-7) && ParseInt("+3") == Some(3)
  {
    var k := "1_000";
    assert k[0] == '1' && k[1] == '_' && k[2] == '0' && k[3] == '0' && k[4] == '0';
    assert k[..4] == "1_00" && k[..4][..3] == "1_0" && k[..4][..3][..2] == "1_" && "1_"[..1] == "1";
    assert NumeralValue("1") == 1;
    assert NumeralValue("1_") == 1;
    assert NumeralValue("1_0") == 10;
    assert NumeralValue("1_00") == 100;
    assert NumeralValue(k) == 1000;
    assert "-007"[1..] == "007" && "007"[..2] == "00" && "00"[..1] == "0";
    assert NumeralValue("00") == 0;
    assert "+3"[1..] == "3";
  }
}
