/** The data export of one Oracle table (src/ddl/ora/getTableFill.ts): the query, the selection of
    the columns to mask, the masking of the rows, and either the JSON record or the
    `INSERT … SELECT … FROM DUAL UNION ALL …` script. The rows are the answer to `FillQuery`, given
    as an input; the JSON record is kept as a structure, not as the text `JSON.stringify` makes. */
module OraTableFill {
  import opened Wrappers
  import opened Text
  import opened JsValues
  import opened DateText
  import opened Patterns
  import opened Catalog
  import opened Mock

  /** `EFormatTableFill`. */
  datatype FillFormat = Sql | Json

  /** One `table_fill_demo.mock` entry: the columns matching `field` in the tables matching
      `schema` and `table` are masked. */
  datatype MockRule = MockRule(schema: string, table: string, field: string)

  /** The object `JSON.stringify` is given. */
  datatype JsonRecord = JsonRecord(schemaName: string, objectName: string, databaseName: string, row: seq<Row>)

  /** What the export yields: a text, or the JSON record. */
  datatype FillOutput = Plain(text: string) | Structured(record: JsonRecord)

  /** Like the SQL Server clause, except that demo order puts every key column last-nulls
      descending. */
  function OrderBy(table: TableFill): string
  {
    if |table.pklist| == 0 then ""
    else if table.fill == Full then "ORDER BY " + Join(table.pklist, ",")
    else "ORDER BY " + Join(table.pklist, " DESC NULLS LAST,") + " DESC NULLS LAST"
  }

  function RowLimit(table: TableFill): string
  {
    if table.fill == Full then "" else "FETCH FIRST " + NatToString(DefaultCount(table.count)) + " ROWS ONLY"
  }

  /** The query whose rows the export is rendered from. */
  function FillQuery(schema: string, table: TableFill): string
  {
    "SELECT * FROM " + schema + "." + table.name + " " + OrderBy(table) + " " + RowLimit(table)
  }

  lemma OrderBySpec(table: TableFill)
    ensures OrderBy(table) == "" <==> table.pklist == []
    ensures table.pklist != [] && table.fill == Full ==>
      OrderBy(table) == "ORDER BY " + Join(table.pklist, ",")
    ensures table.pklist != [] && table.fill == Demo ==>
      OrderBy(table) == "ORDER BY " + Join(Wrapped(table.pklist, "", " DESC NULLS LAST"), ",")
  {
    if table.pklist != [] && table.fill == Demo {
      JoinWrapped(table.pklist, "", " DESC NULLS LAST", ",");
      assert " DESC NULLS LAST" + "," + "" == " DESC NULLS LAST,";
    }
  }

  /** A demo export fetches `count` rows, or 3 when no count is configured; a full export all. */
  lemma RowLimitSpec(table: TableFill)
    ensures table.fill == Full ==> RowLimit(table) == ""
    ensures table.fill == Demo ==>
      var r := RowLimit(table);
      |r| > 22 && r[..12] == "FETCH FIRST " && r[|r| - 10..] == " ROWS ONLY" &&
      (forall i :: 12 <= i < |r| - 10 ==> IsDigit(r[i])) &&
      DigitsValue(r[12..|r| - 10]) >= 1 &&
      DigitsValue(r[12..|r| - 10]) == (if table.count == 0 then 3 else table.count)
  {
    if table.fill == Demo {
      var n := DefaultCount(table.count);
      NatToStringValue(n);
      assert RowLimit(table)[12..|RowLimit(table)| - 10] == NatToString(n);
    }
  }

  // ---------------------------------------------------------------------------------------------
  // Which columns are masked

  predicate RuleApplies(rule: MockRule, schema: string, table: string)
  {
    MatchPattern(schema, rule.schema) && MatchPattern(table, rule.table)
  }

  /** Whether some rule of `rules` masks `column` of this table, by the rules in order. */
  function MaskedBy(rules: seq<MockRule>, schema: string, table: string, column: string): bool
  {
    if rules == [] then false
    else
      var last := rules[|rules| - 1];
      MaskedBy(rules[..|rules| - 1], schema, table, column) ||
      (RuleApplies(last, schema, table) && MatchPattern(column, last.field))
  }

  /** A column is masked iff some rule applies to the table and its field pattern matches it. */
  lemma {:induction false} MaskedByIff(rules: seq<MockRule>, schema: string, table: string, column: string)
    ensures MaskedBy(rules, schema, table, column) <==>
      exists i :: 0 <= i < |rules| && RuleApplies(rules[i], schema, table) && MatchPattern(column, rules[i].field)
  {
    if rules != [] {
      var init := rules[..|rules| - 1];
      MaskedByIff(init, schema, table, column);
      if MaskedBy(init, schema, table, column) {
        var i :| 0 <= i < |init| && RuleApplies(init[i], schema, table) && MatchPattern(column, init[i].field);
        assert rules[i] == init[i];
      }
      if exists i :: 0 <= i < |rules| && RuleApplies(rules[i], schema, table) && MatchPattern(column, rules[i].field) {
        var i :| 0 <= i < |rules| && RuleApplies(rules[i], schema, table) && MatchPattern(column, rules[i].field);
        if i < |init| {
          assert init[i] == rules[i];
        }
      }
    }
  }

  /** `fieldsToMock`: the columns of the first row that some applicable rule masks. */
  function MaskSet(schema: string, table: string, columns: seq<string>, rules: seq<MockRule>): set<string>
  {
    set c | c in columns && MaskedBy(rules, schema, table, c)
  }

  /** The nested loops that fill `fieldsToMock`. */
  method SelectMaskedFields(schema: string, table: string, columns: seq<string>, rules: seq<MockRule>)
    returns (fields: set<string>)
    ensures fields == MaskSet(schema, table, columns, rules)
  {
    fields := {};
    var r := 0;
    while r < |rules|
      invariant 0 <= r <= |rules|
      invariant fields == MaskSet(schema, table, columns, rules[..r])
    {
      var rule := rules[r];
      assert rules[..r + 1][..r] == rules[..r];
      if MatchPattern(schema, rule.schema) && MatchPattern(table, rule.table) {
        var j := 0;
        while j < |columns|
          invariant 0 <= j <= |columns|
          invariant fields == MaskSet(schema, table, columns, rules[..r]) +
            (set c | c in columns[..j] && MatchPattern(c, rule.field))
        {
          assert columns[..j + 1] == columns[..j] + [columns[j]];
          if MatchPattern(columns[j], rule.field) {
            fields := fields + {columns[j]};
          }
          j := j + 1;
        }
        assert columns[..j] == columns;
      }
      r := r + 1;
    }
    assert rules[..r] == rules;
  }

  // ---------------------------------------------------------------------------------------------
  // Masking the rows

  /** `{ ...row }` with every masked field replaced by `mockValue(row[field])`; the draws of the
      field at position `j` are `Sub(draw, j)`. */
  function MaskRow(row: Row, fields: set<string>, rt: Runtime, draw: Draws): (r: Row)
    ensures |r| == |row|
  {
    seq(|row|, j requires 0 <= j < |row| =>
      if row[j].key in fields then Field(row[j].key, MockValue(row[j].value, false, rt, Sub(draw, j)))
      else row[j])
  }

  /** The rows after masking; row `r` takes the draws `Sub(draw, r)`. */
  function MaskRows(rows: seq<Row>, fields: set<string>, rt: Runtime, draw: Draws): (r: seq<Row>)
    ensures |r| == |rows|
  {
    seq(|rows|, k requires 0 <= k < |rows| => MaskRow(rows[k], fields, rt, Sub(draw, k)))
  }

  /** Two rows with the same keys that agree on every value stored under `key` give the same
      `row[key]`. */
  lemma {:induction false} GetAgrees(a: Row, b: Row, key: string)
    requires Keys(a) == Keys(b)
    requires forall j :: 0 <= j < |a| && a[j].key == key ==> a[j].value == b[j].value
    ensures Get(a, key) == Get(b, key)
  {
    if a != [] {
      assert Keys(a[1..]) == Keys(b[1..]);
      GetAgrees(a[1..], b[1..], key);
    }
  }

  /** Masking keeps the row's keys in order, leaves every field outside the mask set as it was,
      and turns every field inside it into a value the masker may produce from the original. */
  lemma MaskRowSpec(row: Row, fields: set<string>, rt: Runtime, draw: Draws)
    requires forall j :: 0 <= j < |row| ==> NumbersWellFormed(row[j].value)
    ensures var m := MaskRow(row, fields, rt, draw);
      Keys(m) == Keys(row) &&
      (forall key :: key !in fields ==> Get(m, key) == Get(row, key)) &&
      (forall j :: 0 <= j < |row| && row[j].key in fields ==> Masks(row[j].value, m[j].value, false, rt))
  {
    var m := MaskRow(row, fields, rt, draw);
    assert Keys(m) == Keys(row);
    forall key | key !in fields
      ensures Get(m, key) == Get(row, key)
    {
      GetAgrees(m, row, key);
    }
    forall j | 0 <= j < |row| && row[j].key in fields
      ensures Masks(row[j].value, m[j].value, false, rt)
    {
      MockValueMasks(row[j].value, false, rt, Sub(draw, j));
    }
  }

  /** An empty mask set leaves the rows as they are, so skipping the masking when nothing is
      selected changes nothing. */
  lemma MaskRowsNothing(rows: seq<Row>, rt: Runtime, draw: Draws)
    ensures MaskRows(rows, {}, rt, draw) == rows
  {
    forall k | 0 <= k < |rows|
      ensures MaskRows(rows, {}, rt, draw)[k] == rows[k]
    {
      assert MaskRow(rows[k], {}, rt, Sub(draw, k)) == rows[k];
    }
  }

  // ---------------------------------------------------------------------------------------------
  // The JSON record

  /** One cell of a JSON row: null for null and undefined, the ISO text for a date, the value
      itself otherwise. */
  function JsonCell(v: Value, rt: Runtime): Value
  {
    if v.Null? || v.Undefined? then Null
    else if v.Date? then Str(rt.toIso(v.at))
    else v
  }

  lemma JsonCellSpec(v: Value, rt: Runtime)
    ensures JsonCell(v, rt).Null? <==> v.Null? || v.Undefined?
    ensures JsonCell(v, rt) != Undefined
    ensures v.Date? ==> JsonCell(v, rt) == Str(rt.toIso(v.at))
    ensures !v.Null? && !v.Undefined? && !v.Date? ==> JsonCell(v, rt) == v
  {
  }

  /** `jsonRow`: one field per column of the first row, in column order. */
  function JsonRow(row: Row, columns: seq<string>, rt: Runtime): (r: Row)
    ensures Keys(r) == columns
  {
    seq(|columns|, j requires 0 <= j < |columns| => Field(columns[j], JsonCell(Get(row, columns[j]), rt)))
  }

  function JsonRows(rows: seq<Row>, columns: seq<string>, rt: Runtime): (r: seq<Row>)
    ensures |r| == |rows|
  {
    seq(|rows|, k requires 0 <= k < |rows| => JsonRow(rows[k], columns, rt))
  }

  // ---------------------------------------------------------------------------------------------
  // The SQL script

  /** The Oracle literal of one column value. */
  function Literal(v: Value, rt: Runtime): string
  {
    match v
    case Null => "NULL"
    case Undefined => "NULL"
    case Num(text) => text
    case Bool(b) => if b then "true" else "false"
    case BigInt(i) => IntToString(i)
    case Date(d) =>
      if IsMidnightText(d) then "TO_DATE('" + DatePart(d) + "','YYYY-MM-DD')"
      else "TO_TIMESTAMP('" + DatePart(d) + " " + TimePart(d) + "','YYYY-MM-DD HH24:MI:SS.FF3')"
    case _ => "'" + DoubleQuotes(ValueText(v, rt)) + "'"
  }

  lemma LiteralNullIff(v: Value, rt: Runtime)
    requires !v.Num?
    ensures Literal(v, rt) == "NULL" <==> v.Null? || v.Undefined?
  {
    var r := Literal(v, rt);
    if v.Bool? {
      assert r[0] == 't' || r[0] == 'f';
    } else if v.BigInt? {
      IntToStringValue(v.i);
      assert r[0] == '-' || IsDigit(r[0]);
    } else if v.Date? {
      assert r[0] == 'T';
    } else if IsQuoted(v) {
      assert r[0] == '\'';
    }
  }

  lemma LiteralUnquoted(v: Value, rt: Runtime)
    ensures v.Num? ==> Literal(v, rt) == v.text
    ensures v.Bool? ==> Literal(v, rt) == (if v.b then "true" else "false")
    ensures v.BigInt? ==>
      var r := Literal(v, rt);
      r != [] && (forall k :: 1 <= k < |r| ==> IsDigit(r[k])) && (r[0] == '-' || IsDigit(r[0])) &&
      IntValue(r) == v.i
  {
    if v.BigInt? {
      IntToStringValue(v.i);
    }
  }

  /** Strings and other objects are quoted without an `N` prefix; the body reads back, quotes
      undoubled, as the value's text. */
  lemma LiteralQuoted(v: Value, rt: Runtime)
    requires IsQuoted(v)
    ensures var r := Literal(v, rt);
      |r| >= 2 && r[0] == '\'' && r[|r| - 1] == '\'' &&
      UndoubleQuotes(r[1..|r| - 1]) == ValueText(v, rt) && QuotesPaired(r[1..|r| - 1])
  {
    var d := DoubleQuotes(ValueText(v, rt));
    assert Literal(v, rt)[1..|Literal(v, rt)| - 1] == d;
    UndoubleDoubleQuotes(ValueText(v, rt));
    DoubleQuotesPaired(ValueText(v, rt));
  }

  /** A date becomes `TO_DATE` exactly when its time of day is zero, and `TO_TIMESTAMP` with the
      full time otherwise. */
  lemma LiteralDate(d: DateTime, rt: Runtime)
    ensures var r := Literal(Date(d), rt);
      (StartsWith(r, "TO_DATE('" + DatePart(d) + "'") <==>
        d.hours == 0 && d.minutes == 0 && d.seconds == 0 && d.millis == 0) &&
      (StartsWith(r, "TO_TIMESTAMP('" + DatePart(d) + " " + TimePart(d) + "'") <==> !IsMidnightText(d))
  {
    MidnightTextIff(d);
    var r := Literal(Date(d), rt);
    var date := "TO_DATE('" + DatePart(d) + "'";
    var stamp := "TO_TIMESTAMP('" + DatePart(d) + " " + TimePart(d) + "'";
    if IsMidnightText(d) {
      assert StartsWith(r, date) && !StartsWith(r, stamp) by {
        var a, tail := "TO_DATE('" + DatePart(d), "','YYYY-MM-DD')";
        assert r == a + tail;
        StartsWithConcat(a, tail);
        StartsWithExtend(r, a, '\'');
        assert date == a + ['\''];
        assert r[3] == 'D';
        NotStartsWithAt(r, stamp, 3);
      }
    } else {
      assert StartsWith(r, stamp) && !StartsWith(r, date) by {
        var a, tail := "TO_TIMESTAMP('" + DatePart(d) + " " + TimePart(d), "','YYYY-MM-DD HH24:MI:SS.FF3')";
        assert r == a + tail;
        StartsWithConcat(a, tail);
        StartsWithExtend(r, a, '\'');
        assert stamp == a + ['\''];
        assert r[3] == 'T';
        NotStartsWithAt(r, date, 3);
      }
    }
  }

  function RowValues(row: Row, columns: seq<string>, rt: Runtime): (r: seq<string>)
    ensures |r| == |columns|
    ensures forall j :: 0 <= j < |columns| ==> r[j] == Literal(Get(row, columns[j]), rt)
  {
    seq(|columns|, j requires 0 <= j < |columns| => Literal(Get(row, columns[j]), rt))
  }

  function SelectPart(row: Row, columns: seq<string>, rt: Runtime): string
  {
    "SELECT " + Join(RowValues(row, columns, rt), ", ") + " FROM DUAL"
  }

  function SelectParts(rows: seq<Row>, columns: seq<string>, rt: Runtime): seq<string>
  {
    seq(|rows|, k requires 0 <= k < |rows| => SelectPart(rows[k], columns, rt))
  }

  function InsertHead(schema: string, table: string, columns: seq<string>): string
  {
    "INSERT INTO \"" + schema + "\".\"" + table + "\" (" + Join(Wrapped(columns, "\"", "\""), ", ") + ")\n"
  }

  function SqlScript(schema: string, table: string, rows: seq<Row>, columns: seq<string>, rt: Runtime): string
  {
    InsertHead(schema, table, columns) + Join(SelectParts(rows, columns, rt), "\nUNION ALL\n") + ";"
  }

  // ---------------------------------------------------------------------------------------------
  // The whole export

  /** The rows the renderers see: masked when some column is selected. */
  function Rendered(rows: seq<Row>, fields: set<string>, rt: Runtime, draw: Draws): seq<Row>
  {
    if |fields| > 0 then MaskRows(rows, fields, rt, draw) else rows
  }

  /** What the export yields for the query's answer `rows`. */
  function FillOutputOf(schema: string, table: string, service: string, format: FillFormat,
                        rules: seq<MockRule>, rows: Result<seq<Row>>, rt: Runtime, draw: Draws): Result<FillOutput>
  {
    if rows.Err? then Err(rows.error)
    else if |rows.value| == 0 then Ok(Plain(if format == Json then "{\"row\":[]}" else "--NO DATA"))
    else
      var columns := Keys(rows.value[0]);
      var shown := Rendered(rows.value, MaskSet(schema, table, columns, rules), rt, draw);
      if format == Json then Ok(Structured(JsonRecord(schema, table, service, JsonRows(shown, columns, rt))))
      else Ok(Plain(SqlScript(schema, table, shown, columns, rt)))
  }

  /** `getTableFill`: the mask set is built by the loops of `SelectMaskedFields`, only when some
      rule is configured, and the rows are replaced by their masked copies only when it is not
      empty. */
  method GetTableFill(schema: string, table: TableFill, service: string, format: FillFormat,
                      rules: seq<MockRule>, rows: Result<seq<Row>>, rt: Runtime, draw: Draws)
    returns (r: Result<FillOutput>)
    ensures r == FillOutputOf(schema, table.name, service, format, rules, rows, rt, draw)
  {
    if rows.Err? {
      return Err(rows.error);
    }
    if |rows.value| == 0 {
      return Ok(Plain(if format == Json then "{\"row\":[]}" else "--NO DATA"));
    }
    var columns := Keys(rows.value[0]);
    var shown := rows.value;
    var fields: set<string> := {};
    if |rules| > 0 {
      fields := SelectMaskedFields(schema, table.name, columns, rules);
      if |fields| > 0 {
        shown := MaskRows(shown, fields, rt, draw);
      }
    } else {
      assert MaskSet(schema, table.name, columns, rules) == {};
    }
    if format == Json {
      r := Ok(Structured(JsonRecord(schema, table.name, service, JsonRows(shown, columns, rt))));
    } else {
      r := Ok(Plain(SqlScript(schema, table.name, shown, columns, rt)));
    }
  }

  /** Query errors pass through; no rows gives `{"row":[]}` for JSON and `--NO DATA` for SQL, and
      only then. */
  lemma FillOutputEmpty(schema: string, table: string, service: string, format: FillFormat,
                        rules: seq<MockRule>, rows: Result<seq<Row>>, rt: Runtime, draw: Draws)
    ensures var r := FillOutputOf(schema, table, service, format, rules, rows, rt, draw);
      (r.Err? <==> rows.Err?) && (rows.Err? ==> r.error == rows.error) &&
      (rows.Ok? && format == Json ==> (r.value == Plain("{\"row\":[]}") <==> rows.value == [])) &&
      (rows.Ok? && format == Sql ==> (r.value == Plain("--NO DATA") <==> rows.value == []))
  {
    var r := FillOutputOf(schema, table, service, format, rules, rows, rt, draw);
    if rows.Ok? && rows.value != [] && format == Sql {
      assert r.value.text[0] == 'I';
    }
  }

  /** The JSON record names the schema, the table and the service, and holds one row per query
      row, in order, each with the first row's columns as its keys and the rendered row's cells. */
  lemma JsonRecordSpec(schema: string, table: string, service: string, rules: seq<MockRule>,
                       rows: seq<Row>, rt: Runtime, draw: Draws)
    requires rows != []
    ensures var columns := Keys(rows[0]);
      var shown := Rendered(rows, MaskSet(schema, table, columns, rules), rt, draw);
      var r := FillOutputOf(schema, table, service, Json, rules, Ok(rows), rt, draw);
      r.Ok? && r.value.Structured? &&
      r.value.record.schemaName == schema && r.value.record.objectName == table &&
      r.value.record.databaseName == service &&
      |r.value.record.row| == |rows| &&
      forall k :: 0 <= k < |rows| ==>
        Keys(r.value.record.row[k]) == columns &&
        forall j :: 0 <= j < |columns| ==> r.value.record.row[k][j].value == JsonCell(Get(shown[k], columns[j]), rt)
  {
  }

  /** The rendered rows are the query rows with only the selected columns masked: same count,
      same keys, every other column's value unchanged, every selected one masked. */
  lemma RenderedSpec(rows: seq<Row>, fields: set<string>, rt: Runtime, draw: Draws)
    requires forall k, j :: 0 <= k < |rows| && 0 <= j < |rows[k]| ==> NumbersWellFormed(rows[k][j].value)
    ensures var shown := Rendered(rows, fields, rt, draw);
      |shown| == |rows| &&
      forall k :: 0 <= k < |rows| ==>
        Keys(shown[k]) == Keys(rows[k]) &&
        (forall key :: key !in fields ==> Get(shown[k], key) == Get(rows[k], key)) &&
        (forall j :: 0 <= j < |rows[k]| && rows[k][j].key in fields ==>
          Masks(rows[k][j].value, shown[k][j].value, false, rt))
  {
    var shown := Rendered(rows, fields, rt, draw);
    if |fields| > 0 {
      forall k | 0 <= k < |rows|
        ensures Keys(shown[k]) == Keys(rows[k]) &&
          (forall key :: key !in fields ==> Get(shown[k], key) == Get(rows[k], key)) &&
          (forall j :: 0 <= j < |rows[k]| && rows[k][j].key in fields ==>
            Masks(rows[k][j].value, shown[k][j].value, false, rt))
      {
        MaskRowSpec(rows[k], fields, rt, Sub(draw, k));
      }
    }
  }

  /** The SQL script is the INSERT head over the quoted first-row columns, one
      `SELECT … FROM DUAL` per rendered row in order joined by `UNION ALL` lines, and `;`, where the
      `j`-th value of the `k`-th select is the literal of row `k`'s value for column `j`. */
  lemma SqlScriptSpec(schema: string, table: string, rows: seq<Row>, columns: seq<string>, rt: Runtime)
    ensures var s := SqlScript(schema, table, rows, columns, rt);
      var head := InsertHead(schema, table, columns);
      var parts := SelectParts(rows, columns, rt);
      StartsWith(s, head) && EndsWith(s, ";") && s[|head|..|s| - 1] == Join(parts, "\nUNION ALL\n") &&
      |parts| == |rows| &&
      forall k, j :: 0 <= k < |rows| && 0 <= j < |columns| ==>
        parts[k] == "SELECT " + Join(RowValues(rows[k], columns, rt), ", ") + " FROM DUAL" &&
        RowValues(rows[k], columns, rt)[j] == Literal(Get(rows[k], columns[j]), rt)
  {
    var s := SqlScript(schema, table, rows, columns, rt);
    var head := InsertHead(schema, table, columns);
    assert s[|head|..|s| - 1] == Join(SelectParts(rows, columns, rt), "\nUNION ALL\n");
  }
}
