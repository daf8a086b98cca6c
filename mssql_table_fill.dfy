/** The data script of one MSSQL table (src/ddl/mssql/getTableFill.ts): the query that reads the
    rows, and the `INSERT INTO … VALUES` text rendered from them. The rows are the answer to
    `FillQuery`, given as an input. */
module MssqlTableFill {
  import opened Wrappers
  import opened Text
  import opened JsValues
  import opened DateText
  import opened Catalog

  /** The ORDER BY clause: empty without key columns, the key columns for a full fill, the key
      columns each descending for a demo fill. */
  function OrderBy(table: TableFill): string
  {
    if |table.pklist| == 0 then ""
    else if table.fill == Full then "ORDER BY " + Join(table.pklist, ",")
    else "ORDER BY " + Join(table.pklist, " DESC,") + " DESC"
  }

  /** The row limit: none for a full fill, `TOP n` with `n = count || 3` for a demo fill. */
  function RowLimit(table: TableFill): string
  {
    if table.fill == Full then "" else "TOP " + NatToString(DefaultCount(table.count))
  }

  /** The query whose rows the script is rendered from. */
  function FillQuery(schema: string, table: TableFill): string
  {
    "SELECT " + RowLimit(table) + " * FROM [" + schema + "].[" + table.name + "] " + OrderBy(table)
  }

  lemma OrderBySpec(table: TableFill)
    ensures OrderBy(table) == "" <==> table.pklist == []
    ensures table.pklist != [] && table.fill == Full ==>
      OrderBy(table) == "ORDER BY " + Join(table.pklist, ",")
    ensures table.pklist != [] && table.fill == Demo ==>
      OrderBy(table) == "ORDER BY " + Join(Wrapped(table.pklist, "", " DESC"), ",")
  {
    if table.pklist != [] && table.fill == Demo {
      JoinWrapped(table.pklist, "", " DESC", ",");
      assert " DESC" + "," + "" == " DESC,";
    }
  }

  /** A demo fill reads `count` rows, or 3 when no count is configured; a full fill reads all. */
  lemma RowLimitSpec(table: TableFill)
    ensures table.fill == Full ==> RowLimit(table) == ""
    ensures table.fill == Demo ==>
      var r := RowLimit(table);
      StartsWith(r, "TOP ") && |r| > 4 && (forall i :: 4 <= i < |r| ==> IsDigit(r[i])) &&
      DigitsValue(r[4..]) >= 1 &&
      DigitsValue(r[4..]) == (if table.count == 0 then 3 else table.count)
  {
    if table.fill == Demo {
      var n := DefaultCount(table.count);
      NatToStringValue(n);
      assert RowLimit(table)[4..] == NatToString(n);
    }
  }

  /** The SQL literal of one column value. */
  function Literal(v: Value, rt: Runtime): string
  {
    match v
    case Null => "NULL"
    case Undefined => "NULL"
    case Num(text) => text
    case Bool(b) => if b then "true" else "false"
    case BigInt(i) => IntToString(i)
    case Date(d) =>
      if IsMidnightText(d) then "CAST('" + DatePart(d) + "' AS DATE)"
      else "CAST('" + DatePart(d) + " " + TimePart(d) + "' AS DATETIME2)"
    case _ => "N'" + DoubleQuotes(ValueText(v, rt)) + "'"
  }

  /** Only null and undefined render as `NULL` (a number renders as its own text). */
  lemma LiteralNullIff(v: Value, rt: Runtime)
    requires !v.Num?
    ensures Literal(v, rt) == "NULL" <==> v.Null? || v.Undefined?
  {
    var r := Literal(v, rt);
    if v.Bool? {
      assert r[0] == 't' || r[0] == 'f';
    } else if v.BigInt? {
      IntToStringValue(v.i);
      assert r[0] == '-' || IsDigit(r[0]);
    } else if v.Date? {
      assert r[0] == 'C';
    } else if IsQuoted(v) {
      assert r[1] == '\'';
    }
  }

  /** Numbers, booleans and bigints are written unquoted, as JavaScript prints them. */
  lemma LiteralUnquoted(v: Value, rt: Runtime)
    ensures v.Num? ==> Literal(v, rt) == v.text
    ensures v.Bool? ==> Literal(v, rt) == (if v.b then "true" else "false")
    ensures v.BigInt? ==>
      var r := Literal(v, rt);
      r != [] && (forall k :: 1 <= k < |r| ==> IsDigit(r[k])) && (r[0] == '-' || IsDigit(r[0])) &&
      IntValue(r) == v.i
  {
    if v.BigInt? {
      IntToStringValue(v.i);
    }
  }

  /** Every other value is an `N'…'` literal whose body reads back, quotes undoubled, as the
      value's text, and in which every quote is doubled. */
  lemma LiteralQuoted(v: Value, rt: Runtime)
    requires IsQuoted(v)
    ensures var r := Literal(v, rt);
      |r| >= 3 && r[..2] == "N'" && r[|r| - 1] == '\'' &&
      UndoubleQuotes(r[2..|r| - 1]) == ValueText(v, rt) && QuotesPaired(r[2..|r| - 1])
  {
    var d := DoubleQuotes(ValueText(v, rt));
    assert Literal(v, rt)[2..|Literal(v, rt)| - 1] == d;
    UndoubleDoubleQuotes(ValueText(v, rt));
    DoubleQuotesPaired(ValueText(v, rt));
  }

  /** A date is cast to DATE exactly when its time of day is zero, and to DATETIME2 with the full
      time otherwise; both start with the date part. */
  lemma LiteralDate(d: DateTime, rt: Runtime)
    ensures var r := Literal(Date(d), rt);
      StartsWith(r, "CAST('" + DatePart(d)) &&
      (EndsWith(r, "' AS DATE)") <==> d.hours == 0 && d.minutes == 0 && d.seconds == 0 && d.millis == 0) &&
      (EndsWith(r, " " + TimePart(d) + "' AS DATETIME2)") <==> !IsMidnightText(d))
  {
    MidnightTextIff(d);
    var r := Literal(Date(d), rt);
    var head := "CAST('" + DatePart(d);
    if IsMidnightText(d) {
      assert r == head + "' AS DATE)";
      assert r[|r| - 2] == 'E';
      var t := " " + TimePart(d) + "' AS DATETIME2)";
      if |t| <= |r| {
        assert t[|t| - 2] == '2';
        assert r[|r| - |t|..][|t| - 2] == r[|r| - 2];
      }
    } else {
      var t := " " + TimePart(d) + "' AS DATETIME2)";
      assert r == head + t;
      assert r[|r| - 2] == '2';
      assert r[|r| - 10..][8] == r[|r| - 2];
    }
  }

  /** The literals of one row, one per column of the first row, in column order. */
  function RowValues(row: Row, columns: seq<string>, rt: Runtime): (r: seq<string>)
    ensures |r| == |columns|
    ensures forall j :: 0 <= j < |columns| ==> r[j] == Literal(Get(row, columns[j]), rt)
  {
    seq(|columns|, j requires 0 <= j < |columns| => Literal(Get(row, columns[j]), rt))
  }

  function RowTuple(row: Row, columns: seq<string>, rt: Runtime): string
  {
    "(" + Join(RowValues(row, columns, rt), ", ") + ")"
  }

  function RowTuples(rows: seq<Row>, columns: seq<string>, rt: Runtime): (r: seq<string>)
    ensures |r| == |rows|
    ensures forall k :: 0 <= k < |rows| ==> r[k] == RowTuple(rows[k], columns, rt)
  {
    seq(|rows|, k requires 0 <= k < |rows| => RowTuple(rows[k], columns, rt))
  }

  function InsertHead(schema: string, table: string, columns: seq<string>): string
  {
    "INSERT INTO [" + schema + "].[" + table + "] ([" + Join(columns, "], [") + "])\nVALUES\n"
  }

  /** The data script: the query error, `--NO DATA` for no rows, or one INSERT over the first
      row's columns with one tuple per row. */
  function FillScript(schema: string, table: string, rows: Result<seq<Row>>, rt: Runtime): Result<string>
  {
    if rows.Err? then Err(rows.error)
    else if |rows.value| == 0 then Ok("--NO DATA")
    else
      var columns := Keys(rows.value[0]);
      Ok(InsertHead(schema, table, columns) + Join(RowTuples(rows.value, columns, rt), ",\n") + ";")
  }

  /** The column list names every column of the first row, each in brackets, in order. */
  lemma InsertHeadColumns(schema: string, table: string, columns: seq<string>)
    requires columns != []
    ensures InsertHead(schema, table, columns) ==
      "INSERT INTO [" + schema + "].[" + table + "] (" + Join(Wrapped(columns, "[", "]"), ", ") + ")\nVALUES\n"
  {
    JoinWrapped(columns, "[", "]", ", ");
    assert "]" + ", " + "[" == "], [";
  }

  /** Query errors pass through; no rows gives exactly `--NO DATA`; otherwise the script is the
      INSERT head, the row tuples joined by `,\n` in row order, and `;`, where the `j`-th value of
      the `k`-th tuple is the literal of row `k`'s value for the first row's `j`-th column. */
  lemma FillScriptSpec(schema: string, table: string, rows: Result<seq<Row>>, rt: Runtime)
    ensures rows.Err? <==> FillScript(schema, table, rows, rt).Err?
    ensures rows.Err? ==> FillScript(schema, table, rows, rt).error == rows.error
    ensures rows.Ok? ==> (FillScript(schema, table, rows, rt).value == "--NO DATA" <==> rows.value == [])
    ensures rows.Ok? && rows.value != [] ==>
      var columns := Keys(rows.value[0]);
      var tuples := RowTuples(rows.value, columns, rt);
      var s := FillScript(schema, table, rows, rt).value;
      StartsWith(s, InsertHead(schema, table, columns)) && EndsWith(s, ";") &&
      s[|InsertHead(schema, table, columns)|..|s| - 1] == Join(tuples, ",\n") &&
      |tuples| == |rows.value| &&
      forall k, j :: 0 <= k < |rows.value| && 0 <= j < |columns| ==>
        tuples[k] == "(" + Join(RowValues(rows.value[k], columns, rt), ", ") + ")" &&
        RowValues(rows.value[k], columns, rt)[j] == Literal(Get(rows.value[k], columns[j]), rt)
  {
    if rows.Ok? && rows.value != [] {
      var columns := Keys(rows.value[0]);
      var head := InsertHead(schema, table, columns);
      var s := FillScript(schema, table, rows, rt).value;
      assert s == head + Join(RowTuples(rows.value, columns, rt), ",\n") + ";";
      assert s[0] == 'I';
      assert s[|head|..|s| - 1] == Join(RowTuples(rows.value, columns, rt), ",\n");
    }
  }
}
