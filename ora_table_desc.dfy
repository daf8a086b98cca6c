/** `getDdlTableDesc` for Oracle (src/ddl/ora/getDdlTableDesc.ts): the table comment, the column
    comments and a type specification per column, as structured data. */
module OraTableDesc {
  import opened Wrappers
  import opened Text

  /** A row of ALL_TAB_COLUMNS; a NULL precision or scale is `None`. */
  datatype OraColumnRow = OraColumnRow(columnName: string, dataType: string, dataLength: int,
                                       dataPrecision: Option<int>, dataScale: Option<int>,
                                       charLength: int, charUsed: string, nullable: string)

  /** A row of ALL_COL_COMMENTS. */
  datatype ColumnCommentRow = ColumnCommentRow(columnName: string, comments: string)

  datatype ColumnDesc = ColumnDesc(columnName: string, desc: string)

  datatype ColumnSpec = ColumnSpec(columnName: string, spec: string)

  datatype TableDescData = TableDescData(tableDesc: string, columnDescs: seq<ColumnDesc>, columnSpecs: seq<ColumnSpec>)

  const CharTypes: seq<string> := ["VARCHAR2", "CHAR", "NVARCHAR2", "NCHAR"]

  /** `CHAR_LENGTH || DATA_LENGTH`: a zero character length falls back to the byte length. */
  function CharTypeLength(row: OraColumnRow): int
  {
    if row.charLength != 0 then row.charLength else row.dataLength
  }

  /** What follows the type name: the length and its unit, the precision and scale, or nothing. */
  function TypeSuffix(row: OraColumnRow): string
  {
    if row.dataType in CharTypes then
      "(" + IntToString(CharTypeLength(row)) + (if row.charUsed == "C" then " CHAR" else " BYTE") + ")"
    else if row.dataType == "NUMBER" then
      if row.dataPrecision.None? then ""
      else if row.dataScale.Some? && row.dataScale.value != 0 then
        "(" + IntToString(row.dataPrecision.value) + ", " + IntToString(row.dataScale.value) + ")"
      else "(" + IntToString(row.dataPrecision.value) + ")"
    else if row.dataType == "FLOAT" then
      if row.dataPrecision.None? then "" else "(" + IntToString(row.dataPrecision.value) + ")"
    else if row.dataType == "RAW" then "(" + IntToString(row.dataLength) + ")"
    else ""
  }

  /** `buildOraColumnSpec`: the type with its suffix, then the nullability. */
  function OraColumnSpec(row: OraColumnRow): string
  {
    row.dataType + TypeSuffix(row) + (if row.nullable == "N" then " NOT NULL" else " NULL")
  }

  /** `(n)` with a number inside. */
  predicate IsNumberInParens(s: string, n: int)
  {
    |s| >= 3 && s[0] == '(' && s[|s| - 1] == ')' && s[1..|s| - 1] == IntToString(n)
  }

  /** The suffix of a character type carries its length, read back as CHAR_LENGTH (or DATA_LENGTH
      when that is 0), and says CHAR exactly when CHAR_USED is `C`. */
  lemma CharSuffixDecode(row: OraColumnRow)
    requires row.dataType in CharTypes
    ensures var s, n := TypeSuffix(row), IntToString(CharTypeLength(row));
      |s| == |n| + 7 && s[1..|n| + 1] == n && IntValue(n) == CharTypeLength(row) &&
      (s[|n| + 1..] == " CHAR)" <==> row.charUsed == "C") &&
      (s[|n| + 1..] == " BYTE)" <==> row.charUsed != "C")
  {
    var n := IntToString(CharTypeLength(row));
    IntToStringValue(CharTypeLength(row));
    var unit := if row.charUsed == "C" then " CHAR)" else " BYTE)";
    var s := TypeSuffix(row);
    assert |s| == |n| + 7 && s[1..|n| + 1] == n && s[|n| + 1..] == unit by {
      assert s == "(" + n + unit;
    }
    assert " CHAR)" != " BYTE)" by {
      assert " CHAR)"[1] != " BYTE)"[1];
    }
  }

  /** NUMBER has no suffix exactly when its precision is NULL, `(p)` when the scale is NULL or 0,
      and `(p, s)` otherwise; FLOAT has `(p)` exactly when its precision is set; RAW has
      `(DATA_LENGTH)`; every other type, and a char type's suffix aside, nothing. */
  lemma NumericSuffixSpec(row: OraColumnRow)
    ensures row.dataType == "NUMBER" ==>
      (TypeSuffix(row) == "" <==> row.dataPrecision.None?) &&
      (row.dataPrecision.Some? && (row.dataScale.None? || row.dataScale.value == 0) ==>
         IsNumberInParens(TypeSuffix(row), row.dataPrecision.value)) &&
      (row.dataPrecision.Some? && row.dataScale.Some? && row.dataScale.value != 0 ==>
         TypeSuffix(row) == "(" + IntToString(row.dataPrecision.value) + ", " + IntToString(row.dataScale.value) + ")")
    ensures row.dataType == "FLOAT" ==>
      (TypeSuffix(row) == "" <==> row.dataPrecision.None?) &&
      (row.dataPrecision.Some? ==> IsNumberInParens(TypeSuffix(row), row.dataPrecision.value))
    ensures row.dataType == "RAW" ==> IsNumberInParens(TypeSuffix(row), row.dataLength)
    ensures row.dataType !in CharTypes && row.dataType !in ["NUMBER", "FLOAT", "RAW"] ==> TypeSuffix(row) == ""
  {
    var s := TypeSuffix(row);
    if row.dataType in ["NUMBER", "FLOAT"] && row.dataPrecision.Some? {
      var p := IntToString(row.dataPrecision.value);
      if row.dataType == "FLOAT" || row.dataScale.None? || row.dataScale.value == 0 {
        assert s == "(" + p + ")";
        assert s[1..|s| - 1] == p;
      }
    } else if row.dataType == "RAW" {
      var l := IntToString(row.dataLength);
      assert s == "(" + l + ")";
      assert s[1..|s| - 1] == l;
    }
  }

  lemma SuffixCloses(row: OraColumnRow)
    ensures TypeSuffix(row) == [] || TypeSuffix(row)[|TypeSuffix(row)| - 1] == ')'
  {
  }

  /** The specification opens with the type name and ends in ` NULL`; it ends in ` NOT NULL`
      exactly when NULLABLE is `N` (for any type name that does not itself end in ` NOT`). */
  lemma OraColumnSpecNullability(row: OraColumnRow)
    requires !EndsWith(row.dataType, " NOT")
    ensures var s := OraColumnSpec(row);
      StartsWith(s, row.dataType) && EndsWith(s, " NULL") &&
      (EndsWith(s, " NOT NULL") <==> row.nullable == "N")
  {
    var s := OraColumnSpec(row);
    var t := row.dataType + TypeSuffix(row);
    assert s[..|row.dataType|] == row.dataType;
    if row.nullable != "N" {
      assert s == t + " NULL";
      if |s| >= 9 {
        SuffixCloses(row);
        if TypeSuffix(row) == "" {
          assert s[|s| - 9..][..4] == t[|t| - 4..];
        } else {
          assert s[|s| - 9..][3] == t[|t| - 1] == ')';
        }
      }
    }
  }

  /** `getDdlTableDesc`: the three queries in order; the table description is the first comment,
      or `""` when there is none. */
  function TableDesc(tableComments: Result<seq<string>>, columnComments: Result<seq<ColumnCommentRow>>,
                     columns: Result<seq<OraColumnRow>>): (r: Result<TableDescData>)
    ensures tableComments.Err? ==> r == Err(tableComments.error)
    ensures tableComments.Ok? && columnComments.Err? ==> r == Err(columnComments.error)
    ensures tableComments.Ok? && columnComments.Ok? && columns.Err? ==> r == Err(columns.error)
    ensures r.Ok? <==> tableComments.Ok? && columnComments.Ok? && columns.Ok?
    ensures r.Ok? ==>
      (r.value.tableDesc == if tableComments.value == [] then "" else tableComments.value[0]) &&
      |r.value.columnDescs| == |columnComments.value| && |r.value.columnSpecs| == |columns.value| &&
      (forall k :: 0 <= k < |columnComments.value| ==>
        r.value.columnDescs[k] == ColumnDesc(columnComments.value[k].columnName, columnComments.value[k].comments)) &&
      (forall k :: 0 <= k < |columns.value| ==>
        r.value.columnSpecs[k] == ColumnSpec(columns.value[k].columnName, OraColumnSpec(columns.value[k])))
  {
    if tableComments.Err? then Err(tableComments.error)
    else if columnComments.Err? then Err(columnComments.error)
    else if columns.Err? then Err(columns.error)
    else
      var cc, cs := columnComments.value, columns.value;
      Ok(TableDescData(
        if tableComments.value == [] then "" else tableComments.value[0],
        seq(|cc|, k requires 0 <= k < |cc| => ColumnDesc(cc[k].columnName, cc[k].comments)),
        seq(|cs|, k requires 0 <= k < |cs| => ColumnSpec(cs[k].columnName, OraColumnSpec(cs[k])))))
  }
}
