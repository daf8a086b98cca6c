/** `getDdl` for SQL Server (src/ddl/mssql/getDdl.ts): the definition text of one catalog object,
    rendered from the rows of its catalog queries. */
module MssqlDdl {
  import opened Wrappers
  import opened Text

  /** A row of the column query, in column order. `defaultValue` is `""` for a NULL default. */
  datatype ColumnRow = ColumnRow(name: string, dataType: string, maxLength: int, precision: int, scale: int,
                                 isNullable: bool, isIdentity: bool, defaultValue: string)

  datatype ConstraintRow = ConstraintRow(name: string, constraintType: string)

  datatype ForeignKeyRow = ForeignKeyRow(name: string, refSchema: string, refTable: string)

  datatype FkColumnRow = FkColumnRow(fkColumn: string, refColumn: string)

  datatype IndexRow = IndexRow(indexName: string, indexType: string, isUnique: bool, tableName: string, schemaName: string)

  datatype IndexColumnRow = IndexColumnRow(columnName: string, isDesc: bool)

  datatype SequenceRow = SequenceRow(sequenceName: string, dataType: string, startValue: int, increment: int,
                                     minValue: int, maxValue: int, isCycle: bool)

  datatype SynonymRow = SynonymRow(synonymName: string, baseObject: string)

  /** The answers to the queries `getDdl` may ask for one object. The per-constraint and per-key
      column queries are indexed by the position of the constraint or key in its query's rows. */
  datatype DdlAnswers = DdlAnswers(
    columns: Result<seq<ColumnRow>>,
    constraints: Result<seq<ConstraintRow>>,
    constraintColumns: nat -> Result<seq<string>>,
    foreignKeys: Result<seq<ForeignKeyRow>>,
    fkColumns: nat -> Result<seq<FkColumnRow>>,
    filegroup: Result<seq<string>>,
    moduleText: Result<seq<string>>,
    index: Result<seq<IndexRow>>,
    indexColumns: Result<seq<IndexColumnRow>>,
    sequence: Result<seq<SequenceRow>>,
    synonym: Result<seq<SynonymRow>>)

  // ---------------------------------------------------------------- columns

  const LengthTypes: seq<string> := ["varchar", "nvarchar", "char", "nchar", "binary", "varbinary"]
  const ScaleTypes: seq<string> := ["decimal", "numeric"]

  /** `(MAX_LENGTH / 2).toString()`: JavaScript division is exact, so an odd byte count ends in `.5`. */
  function HalfText(n: int): (r: string)
    ensures r != [] && IsDigit(r[|r| - 1])
  {
    if n % 2 == 0 then IntToString(n / 2)
    else if n > 0 then NatToString(n / 2) + ".5"
    else "-" + NatToString((-n) / 2) + ".5"
  }

  /** `r` is how JavaScript writes the number n / 2: a `-` exactly when n is negative, then the
      decimal digits of the whole part of |n| / 2, then `.5` exactly when n is odd. */
  predicate ReadsAsHalf(r: string, n: int)
  {
    var a := if n < 0 then -n else n;
    |r| > 0 && (r[0] == '-' <==> n < 0) &&
    var m := if n < 0 then r[1..] else r;
    (n % 2 == 1 ==> |m| >= 2 && m[|m| - 2..] == ".5") &&
    var w := if n % 2 == 1 && |m| >= 2 then m[..|m| - 2] else m;
    |w| > 0 && (forall i :: 0 <= i < |w| ==> IsDigit(w[i])) &&
    DigitsValue(w) * 2 + n % 2 == a
  }

  /** The halved length is written as the exact quotient, `.5` included for an odd byte count. */
  lemma HalfTextSpec(n: int)
    ensures ReadsAsHalf(HalfText(n), n)
  {
    var r := HalfText(n);
    if n % 2 == 0 {
      if n < 0 {
        assert r == "-" + NatToString(-(n / 2));
        assert r[1..] == NatToString(-(n / 2));
        NatToStringValue(-(n / 2));
      } else {
        assert r == NatToString(n / 2);
        NatToStringValue(n / 2);
      }
    } else if n > 0 {
      var w := NatToString(n / 2);
      assert r == w + ".5";
      assert r[..|r| - 2] == w && r[|r| - 2..] == ".5";
      NatToStringValue(n / 2);
    } else {
      var w := NatToString((-n) / 2);
      assert r == "-" + w + ".5";
      assert r[1..] == w + ".5";
      assert (w + ".5")[..|w|] == w && (w + ".5")[|w|..] == ".5";
      NatToStringValue((-n) / 2);
    }
  }

  function LengthText(c: ColumnRow): string
  {
    if c.maxLength == -1 then "MAX"
    else if StartsWith(c.dataType, "n") then HalfText(c.maxLength)
    else IntToString(c.maxLength)
  }

  /** The column's type with its length, or precision and scale. */
  function ColumnType(c: ColumnRow): string
  {
    if c.dataType in LengthTypes then c.dataType + "(" + LengthText(c) + ")"
    else if c.dataType in ScaleTypes then c.dataType + "(" + IntToString(c.precision) + ", " + IntToString(c.scale) + ")"
    else c.dataType
  }

  /** The length a length type shows reads back as MAX_LENGTH, halved (characters, not bytes) for
      the two `n` types, with `.5` for an odd byte count; it is `MAX` exactly when MAX_LENGTH is -1. */
  lemma LengthTextSpec(c: ColumnRow)
    ensures var l := LengthText(c);
      l != [] && (l == "MAX" <==> c.maxLength == -1) &&
      (c.maxLength != -1 && StartsWith(c.dataType, "n") ==> ReadsAsHalf(l, c.maxLength)) &&
      (c.maxLength != -1 && StartsWith(c.dataType, "n") && c.maxLength % 2 == 0 ==> IntValue(l) * 2 == c.maxLength) &&
      (c.maxLength != -1 && !StartsWith(c.dataType, "n") ==> IntValue(l) == c.maxLength)
  {
    var l := LengthText(c);
    if c.maxLength != -1 {
      assert IsDigit(l[|l| - 1]);
      if StartsWith(c.dataType, "n") {
        HalfTextSpec(c.maxLength);
        if c.maxLength % 2 == 0 {
          IntToStringValue(c.maxLength / 2);
        }
      } else {
        IntToStringValue(c.maxLength);
      }
    }
  }

  /** The type name always leads, and only the six length types and decimal/numeric get a suffix;
      for a length type the suffix is the length text in parentheses, for decimal and numeric the
      precision and the scale, in that order. */
  lemma ColumnTypeSpec(c: ColumnRow)
    ensures var t := ColumnType(c);
      StartsWith(t, c.dataType) &&
      (t == c.dataType <==> c.dataType !in LengthTypes && c.dataType !in ScaleTypes) &&
      (c.dataType in LengthTypes ==> t[|c.dataType|..] == "(" + LengthText(c) + ")") &&
      (c.dataType in ScaleTypes ==>
        t[|c.dataType|..] == "(" + IntToString(c.precision) + ", " + IntToString(c.scale) + ")")
  {
    var d := c.dataType;
    if d in LengthTypes {
      SuffixAfter(d, "(" + LengthText(c) + ")");
    } else if d in ScaleTypes {
      SuffixAfter(d, "(" + IntToString(c.precision) + ", " + IntToString(c.scale) + ")");
    }
  }

  /** A nonempty suffix leaves its stem as a proper prefix. */
  lemma SuffixAfter(d: string, sfx: string)
    requires |sfx| > 0
    ensures var t := d + sfx; StartsWith(t, d) && t != d && t[|d|..] == sfx
  {
    var t := d + sfx;
    assert t[..|d|] == d && t[|d|..] == sfx;
    assert |t| != |d|;
  }

  /** The options after the type: identity, then NOT NULL, then the default. */
  function ColumnOptions(isIdentity: bool, isNullable: bool, defaultValue: string): string
  {
    (if isIdentity then " IDENTITY(1,1)" else "") +
    (if !isNullable then " NOT NULL" else "") +
    (if defaultValue != "" then " DEFAULT " + defaultValue else "")
  }

  /** `[name] type` and its options. */
  function ColumnDefinition(c: ColumnRow): string
  {
    "[" + c.name + "] " + ColumnType(c) + ColumnOptions(c.isIdentity, c.isNullable, c.defaultValue)
  }

  /** With no identity and no NOT NULL, the options are empty exactly when there is no default,
      and otherwise are the default after its keyword. */
  lemma DefaultMark(d: string)
    ensures var o := ColumnOptions(false, true, d);
      (o == "" <==> d == "") && (d != "" ==> |o| >= 9 && o[9..] == d)
  {
    if d != "" {
      assert ColumnOptions(false, true, d) == " DEFAULT " + d;
    }
  }

  /** With no identity, the options open with NOT NULL exactly for a non-nullable column. */
  lemma NullMark(n: bool, d: string)
    ensures var o := ColumnOptions(false, n, d);
      (|o| > 1 && o[1] == 'N' <==> !n) && (!n ==> o[9..] == ColumnOptions(false, true, d))
  {
    var o := ColumnOptions(false, n, d);
    if !n {
      assert o == " NOT NULL" + ColumnOptions(false, true, d);
    } else if d != "" {
      assert o == " DEFAULT " + d;
    }
  }

  /** The options open with IDENTITY exactly for an identity column. */
  lemma IdentityMark(i: bool, n: bool, d: string)
    ensures var o := ColumnOptions(i, n, d);
      (|o| > 1 && o[1] == 'I' <==> i) && (i ==> o[14..] == ColumnOptions(false, n, d))
  {
    var o := ColumnOptions(i, n, d);
    if i {
      assert o == " IDENTITY(1,1)" + ColumnOptions(false, n, d);
    } else {
      NullMark(n, d);
      if n && d != "" {
        assert o == " DEFAULT " + d;
      }
    }
  }

  /** The options can be read back: equal option text means equal identity, nullability and
      default, as each option has its own keyword and the three come in a fixed order. */
  lemma ColumnOptionsDecode(i1: bool, n1: bool, d1: string, i2: bool, n2: bool, d2: string)
    requires ColumnOptions(i1, n1, d1) == ColumnOptions(i2, n2, d2)
    ensures i1 == i2 && n1 == n2 && d1 == d2
  {
    IdentityMark(i1, n1, d1);
    IdentityMark(i2, n2, d2);
    var o1, o2 := ColumnOptions(false, n1, d1), ColumnOptions(false, n2, d2);
    assert o1 == o2;
    NullMark(n1, d1);
    NullMark(n2, d2);
    var p1, p2 := ColumnOptions(false, true, d1), ColumnOptions(false, true, d2);
    assert p1 == p2;
    DefaultMark(d1);
    DefaultMark(d2);
  }

  // ---------------------------------------------------------------- constraints and keys

  /** A key constraint with its columns in key order. */
  function ConstraintText(con: ConstraintRow, columns: seq<string>): string
  {
    "CONSTRAINT [" + con.name + "] " + (if con.constraintType == "PK" then "PRIMARY KEY" else "UNIQUE") +
    " (" + Join(columns, ", ") + ")"
  }

  /** After the name, the text reads PRIMARY KEY exactly for type `PK`, and UNIQUE for any other. */
  lemma ConstraintKindDecode(con: ConstraintRow, columns: seq<string>)
    ensures var t := ConstraintText(con, columns);
      var rest := t[|"CONSTRAINT [" + con.name + "] "|..];
      (StartsWith(rest, "PRIMARY KEY") <==> con.constraintType == "PK") &&
      (StartsWith(rest, "UNIQUE") <==> con.constraintType != "PK")
  {
    var pre := "CONSTRAINT [" + con.name + "] ";
    var t := ConstraintText(con, columns);
    var kind := if con.constraintType == "PK" then "PRIMARY KEY" else "UNIQUE";
    assert t == pre + (kind + " (" + Join(columns, ", ") + ")");
    var rest := t[|pre|..];
    assert rest == kind + " (" + Join(columns, ", ") + ")";
    assert rest[0] == kind[0];
  }

  function FkColumnNames(rows: seq<FkColumnRow>): (r: seq<string>)
    ensures |r| == |rows| && forall k :: 0 <= k < |rows| ==> r[k] == rows[k].fkColumn
  {
    seq(|rows|, k requires 0 <= k < |rows| => rows[k].fkColumn)
  }

  function RefColumnNames(rows: seq<FkColumnRow>): (r: seq<string>)
    ensures |r| == |rows| && forall k :: 0 <= k < |rows| ==> r[k] == rows[k].refColumn
  {
    seq(|rows|, k requires 0 <= k < |rows| => rows[k].refColumn)
  }

  /** A foreign key; its local and referenced column lists come from the same rows, so the k-th
      local column pairs with the k-th referenced one. */
  function ForeignKeyText(fk: ForeignKeyRow, rows: seq<FkColumnRow>): string
  {
    "CONSTRAINT [" + fk.name + "] FOREIGN KEY (" + Join(FkColumnNames(rows), ", ") + ") REFERENCES [" +
    fk.refSchema + "].[" + fk.refTable + "] (" + Join(RefColumnNames(rows), ", ") + ")"
  }

  /** The text of the k-th constraint, or the failure of its column query. */
  function ConstraintStep(cons: seq<ConstraintRow>, columnsOf: nat -> Result<seq<string>>): nat -> Result<string>
  {
    (k: nat) => if k >= |cons| then Err("") else
         var cols := columnsOf(k);
         if cols.Err? then Err(cols.error) else Ok(ConstraintText(cons[k], cols.value))
  }

  function ForeignKeyStep(fks: seq<ForeignKeyRow>, columnsOf: nat -> Result<seq<FkColumnRow>>): nat -> Result<string>
  {
    (k: nat) => if k >= |fks| then Err("") else
         var cols := columnsOf(k);
         if cols.Err? then Err(cols.error) else Ok(ForeignKeyText(fks[k], cols.value))
  }

  // ---------------------------------------------------------------- tables

  /** ` ON [fg]` when filegroups are allowed and the filegroup query answered with a row; a failed
      filegroup query is ignored. */
  function FilegroupClause(allowFilegroup: bool, filegroup: Result<seq<string>>): string
  {
    if allowFilegroup && filegroup.Ok? && |filegroup.value| > 0 then " ON [" + filegroup.value[0] + "]" else ""
  }

  function ColumnDefinitions(cols: seq<ColumnRow>): (r: seq<string>)
    ensures |r| == |cols| && forall k :: 0 <= k < |cols| ==> r[k] == ColumnDefinition(cols[k])
  {
    seq(|cols|, k requires 0 <= k < |cols| => ColumnDefinition(cols[k]))
  }

  const TableItemSeparator := ",\n    "

  function TableText(schema: string, table: string, items: seq<string>): string
  {
    "CREATE TABLE [" + schema + "].[" + table + "] (\n    " + Join(items, TableItemSeparator) + "\n)"
  }

  /** The key constraints' items: the constraint query, then each constraint's column query. */
  function KeyItems(a: DdlAnswers): Result<seq<string>>
  {
    if a.constraints.Err? then Err(a.constraints.error)
    else Collect(|a.constraints.value|, ConstraintStep(a.constraints.value, a.constraintColumns))
  }

  /** The foreign keys' items: the key query, then each key's column query. */
  function ForeignKeyItems(a: DdlAnswers): Result<seq<string>>
  {
    if a.foreignKeys.Err? then Err(a.foreignKeys.error)
    else Collect(|a.foreignKeys.value|, ForeignKeyStep(a.foreignKeys.value, a.fkColumns))
  }

  /** `getDdlTable`, in the order of its queries: columns, key constraints and each one's columns,
      foreign keys and each one's columns, the filegroup. */
  function TableDdl(schema: string, table: string, allowFilegroup: bool, a: DdlAnswers): Result<string>
  {
    if a.columns.Err? then Err(a.columns.error)
    else
      var cons := KeyItems(a);
      if cons.Err? then Err(cons.error)
      else
        var fks := ForeignKeyItems(a);
        if fks.Err? then Err(fks.error)
        else Ok(TableText(schema, table, ColumnDefinitions(a.columns.value) + cons.value + fks.value) +
                FilegroupClause(allowFilegroup, a.filegroup))
  }

  /** The constraint items exist iff the constraint query and every column query succeed; then
      there is one item per constraint, in row order. */
  lemma KeyItemsSpec(a: DdlAnswers)
    ensures var r := KeyItems(a);
      (r.Ok? <==> a.constraints.Ok? && forall k :: 0 <= k < |a.constraints.value| ==> a.constraintColumns(k).Ok?) &&
      (r.Ok? ==>
        |r.value| == |a.constraints.value| &&
        forall k :: 0 <= k < |r.value| ==> r.value[k] == ConstraintText(a.constraints.value[k], a.constraintColumns(k).value))
  {
    if a.constraints.Ok? {
      var f := ConstraintStep(a.constraints.value, a.constraintColumns);
      CollectSpec(|a.constraints.value|, f);
      forall k | 0 <= k < |a.constraints.value|
        ensures f(k).Ok? <==> a.constraintColumns(k).Ok?
      {
      }
    }
  }

  /** The same for the foreign keys. */
  lemma ForeignKeyItemsSpec(a: DdlAnswers)
    ensures var r := ForeignKeyItems(a);
      (r.Ok? <==> a.foreignKeys.Ok? && forall k :: 0 <= k < |a.foreignKeys.value| ==> a.fkColumns(k).Ok?) &&
      (r.Ok? ==>
        |r.value| == |a.foreignKeys.value| &&
        forall k :: 0 <= k < |r.value| ==> r.value[k] == ForeignKeyText(a.foreignKeys.value[k], a.fkColumns(k).value))
  {
    if a.foreignKeys.Ok? {
      var f := ForeignKeyStep(a.foreignKeys.value, a.fkColumns);
      CollectSpec(|a.foreignKeys.value|, f);
      forall k | 0 <= k < |a.foreignKeys.value|
        ensures f(k).Ok? <==> a.fkColumns(k).Ok?
      {
      }
    }
  }

  /** The table DDL succeeds iff every query it depends on does, the filegroup query excepted. */
  lemma TableDdlOk(schema: string, table: string, allowFilegroup: bool, a: DdlAnswers)
    ensures TableDdl(schema, table, allowFilegroup, a).Ok? <==>
      a.columns.Ok? && a.constraints.Ok? && a.foreignKeys.Ok? &&
      (forall k :: 0 <= k < |a.constraints.value| ==> a.constraintColumns(k).Ok?) &&
      (forall k :: 0 <= k < |a.foreignKeys.value| ==> a.fkColumns(k).Ok?)
  {
    KeyItemsSpec(a);
    ForeignKeyItemsSpec(a);
  }

  /** The items of a table DDL: one per column, then per key constraint (PRIMARY KEY or UNIQUE with
      its key columns), then per foreign key, each in row order. */
  function TableItems(a: DdlAnswers): seq<string>
    requires a.columns.Ok? && KeyItems(a).Ok? && ForeignKeyItems(a).Ok?
  {
    ColumnDefinitions(a.columns.value) + KeyItems(a).value + ForeignKeyItems(a).value
  }

  lemma ConcatMiddle<T>(x: seq<T>, y: seq<T>, z: seq<T>, j: nat)
    requires j < |y|
    ensures (x + y + z)[|x| + j] == y[j]
  {
  }

  lemma ConcatLast<T>(x: seq<T>, y: seq<T>, z: seq<T>, j: nat)
    requires j < |z|
    ensures (x + y + z)[|x| + |y| + j] == z[j]
  {
  }

  /** Where the key-constraint items sit among the table items. */
  lemma KeyItemsPlaced(a: DdlAnswers)
    requires a.columns.Ok? && KeyItems(a).Ok? && ForeignKeyItems(a).Ok?
    ensures forall k :: 0 <= k < |KeyItems(a).value| ==> TableItems(a)[|a.columns.value| + k] == KeyItems(a).value[k]
  {
    var defs, keys, foreign := ColumnDefinitions(a.columns.value), KeyItems(a).value, ForeignKeyItems(a).value;
    forall k | 0 <= k < |keys|
      ensures TableItems(a)[|a.columns.value| + k] == keys[k]
    {
      ConcatMiddle(defs, keys, foreign, k);
    }
  }

  /** Where the foreign-key items sit among the table items. */
  lemma ForeignKeyItemsPlaced(a: DdlAnswers)
    requires a.columns.Ok? && KeyItems(a).Ok? && ForeignKeyItems(a).Ok?
    ensures forall k :: 0 <= k < |ForeignKeyItems(a).value| ==>
      TableItems(a)[|a.columns.value| + |KeyItems(a).value| + k] == ForeignKeyItems(a).value[k]
  {
    var defs, keys, foreign := ColumnDefinitions(a.columns.value), KeyItems(a).value, ForeignKeyItems(a).value;
    forall k | 0 <= k < |foreign|
      ensures TableItems(a)[|a.columns.value| + |keys| + k] == foreign[k]
    {
      ConcatLast(defs, keys, foreign, k);
    }
  }

  /** The key-constraint items follow the column items, one per constraint in row order. */
  lemma TableItemsKeys(a: DdlAnswers)
    requires a.columns.Ok? && KeyItems(a).Ok? && ForeignKeyItems(a).Ok?
    ensures a.constraints.Ok? && |KeyItems(a).value| == |a.constraints.value|
    ensures forall k :: 0 <= k < |a.constraints.value| ==> a.constraintColumns(k).Ok?
    ensures forall k :: 0 <= k < |a.constraints.value| ==>
      TableItems(a)[|a.columns.value| + k] == ConstraintText(a.constraints.value[k], a.constraintColumns(k).value)
  {
    KeyItemsSpec(a);
    KeyItemsPlaced(a);
  }

  /** The foreign-key items come last, one per foreign key in row order. */
  lemma TableItemsForeignKeys(a: DdlAnswers)
    requires a.columns.Ok? && KeyItems(a).Ok? && ForeignKeyItems(a).Ok?
    ensures a.foreignKeys.Ok? && |ForeignKeyItems(a).value| == |a.foreignKeys.value|
    ensures forall k :: 0 <= k < |a.foreignKeys.value| ==> a.fkColumns(k).Ok?
    ensures forall k :: 0 <= k < |a.foreignKeys.value| ==>
      TableItems(a)[|a.columns.value| + |KeyItems(a).value| + k] ==
        ForeignKeyText(a.foreignKeys.value[k], a.fkColumns(k).value)
  {
    ForeignKeyItemsSpec(a);
    ForeignKeyItemsPlaced(a);
  }

  /** The items hold, in row order, every column, then every key constraint with its key columns,
      then every foreign key with its column pairs. */
  lemma TableItemsSpec(a: DdlAnswers)
    requires a.columns.Ok? && KeyItems(a).Ok? && ForeignKeyItems(a).Ok?
    ensures a.constraints.Ok? && a.foreignKeys.Ok?
    ensures forall k :: 0 <= k < |a.constraints.value| ==> a.constraintColumns(k).Ok?
    ensures forall k :: 0 <= k < |a.foreignKeys.value| ==> a.fkColumns(k).Ok?
    ensures var cols, cons, fks, items := a.columns.value, a.constraints.value, a.foreignKeys.value, TableItems(a);
      |items| == |cols| + |cons| + |fks| &&
      (forall k :: 0 <= k < |cols| ==> items[k] == ColumnDefinition(cols[k])) &&
      (forall k :: 0 <= k < |cons| ==> items[|cols| + k] == ConstraintText(cons[k], a.constraintColumns(k).value)) &&
      (forall k :: 0 <= k < |fks| ==> items[|cols| + |cons| + k] == ForeignKeyText(fks[k], a.fkColumns(k).value))
  {
    TableItemsKeys(a);
    TableItemsForeignKeys(a);
  }

  /** A table DDL is `CREATE TABLE [s].[t] (` with its items joined by `,\n    `, closed by `\n)`
      and followed by ` ON [fg]` exactly when a filegroup applies. */
  lemma TableDdlItems(schema: string, table: string, allowFilegroup: bool, a: DdlAnswers)
    requires TableDdl(schema, table, allowFilegroup, a).Ok?
    ensures a.columns.Ok? && KeyItems(a).Ok? && ForeignKeyItems(a).Ok?
    ensures TableDdl(schema, table, allowFilegroup, a).value ==
      TableText(schema, table, TableItems(a)) + FilegroupClause(allowFilegroup, a.filegroup)
  {
  }

  /** The closing of a table DDL tells whether a filegroup clause was added. */
  lemma TableFilegroupDecode(schema: string, table: string, items: seq<string>, allowFilegroup: bool, filegroup: Result<seq<string>>)
    ensures var t := TableText(schema, table, items) + FilegroupClause(allowFilegroup, filegroup);
      StartsWith(t, "CREATE TABLE [" + schema + "].[" + table + "] (\n    ") &&
      (EndsWith(t, "\n)") <==> !(allowFilegroup && filegroup.Ok? && |filegroup.value| > 0))
  {
    var head := "CREATE TABLE [" + schema + "].[" + table + "] (\n    ";
    var body := Join(items, TableItemSeparator) + "\n)";
    var clause := FilegroupClause(allowFilegroup, filegroup);
    var t := TableText(schema, table, items) + clause;
    assert StartsWith(t, head) by {
      assert t == head + (body + clause);
      StartsWithConcat(head, body + clause);
    }
    if allowFilegroup && filegroup.Ok? && |filegroup.value| > 0 {
      assert !EndsWith(t, "\n)") by {
        assert t[|t| - 1] == ']';
        NotEndsWithAt(t, "\n)", 1);
      }
    } else {
      assert EndsWith(t, "\n)") by {
        assert t == (head + Join(items, TableItemSeparator)) + "\n)";
        EndsWithConcat(head + Join(items, TableItemSeparator), "\n)");
      }
    }
  }

  /** The loop over the key constraints, asking for each one's columns. */
  method GetKeyItems(a: DdlAnswers) returns (r: Result<seq<string>>)
    ensures r == KeyItems(a)
  {
    if a.constraints.Err? {
      return Err(a.constraints.error);
    }
    var cons := a.constraints.value;
    ghost var f := ConstraintStep(cons, a.constraintColumns);
    var items: seq<string> := [];
    var i := 0;
    while i < |cons|
      invariant i <= |cons|
      invariant Collect(i, f) == Ok(items)
    {
      var cols := a.constraintColumns(i);
      if cols.Err? {
        CollectStopsAtError(i + 1, |cons|, f);
        return Err(cols.error);
      }
      assert f(i) == Ok(ConstraintText(cons[i], cols.value));
      items := items + [ConstraintText(cons[i], cols.value)];
      i := i + 1;
    }
    return Ok(items);
  }

  /** The loop over the foreign keys, asking for each one's column pairs. */
  method GetForeignKeyItems(a: DdlAnswers) returns (r: Result<seq<string>>)
    ensures r == ForeignKeyItems(a)
  {
    if a.foreignKeys.Err? {
      return Err(a.foreignKeys.error);
    }
    var fks := a.foreignKeys.value;
    ghost var f := ForeignKeyStep(fks, a.fkColumns);
    var items: seq<string> := [];
    var j := 0;
    while j < |fks|
      invariant j <= |fks|
      invariant Collect(j, f) == Ok(items)
    {
      var cols := a.fkColumns(j);
      if cols.Err? {
        CollectStopsAtError(j + 1, |fks|, f);
        return Err(cols.error);
      }
      assert f(j) == Ok(ForeignKeyText(fks[j], cols.value));
      items := items + [ForeignKeyText(fks[j], cols.value)];
      j := j + 1;
    }
    return Ok(items);
  }

  /** `getDdlTable`: columns, key constraints, foreign keys, then the filegroup when allowed. */
  method GetDdlTable(schema: string, table: string, allowFilegroup: bool, a: DdlAnswers) returns (r: Result<string>)
    ensures r == TableDdl(schema, table, allowFilegroup, a)
  {
    if a.columns.Err? {
      return Err(a.columns.error);
    }
    var columns := ColumnDefinitions(a.columns.value);
    var constraints := GetKeyItems(a);
    if constraints.Err? {
      return Err(constraints.error);
    }
    var foreignKeys := GetForeignKeyItems(a);
    if foreignKeys.Err? {
      return Err(foreignKeys.error);
    }
    var ddl := TableText(schema, table, columns + constraints.value + foreignKeys.value);
    if allowFilegroup {
      if a.filegroup.Ok? && |a.filegroup.value| > 0 {
        ddl := ddl + (" ON [" + a.filegroup.value[0] + "]");
      }
    }
    assert ddl + "" == ddl;
    return Ok(ddl);
  }

  // ---------------------------------------------------------------- modules, indexes, sequences, synonyms

  /** Views, procedures, functions and triggers: the definition rows joined by newlines. */
  function ModuleDdl(rows: Result<seq<string>>): (r: Result<string>)
    ensures rows.Err? ==> r == Err(rows.error)
    ensures rows == Ok([]) ==> r == Ok("")
    ensures rows.Ok? && |rows.value| == 1 ==> r == Ok(rows.value[0])
  {
    if rows.Err? then Err(rows.error) else Ok(Join(rows.value, "\n"))
  }

  function IndexColumnText(c: IndexColumnRow): string
  {
    c.columnName + (if c.isDesc then " DESC" else " ASC")
  }

  /** Each index column ends in DESC exactly when it is descending, and in ASC otherwise. */
  lemma IndexColumnDecode(c: IndexColumnRow)
    ensures EndsWith(IndexColumnText(c), " DESC") <==> c.isDesc
    ensures EndsWith(IndexColumnText(c), " ASC") <==> !c.isDesc
  {
    var t := IndexColumnText(c);
    if c.isDesc {
      assert t[|t| - 4] == 'D';
    } else {
      assert t[|t| - 4] == ' ';
    }
  }

  function IndexColumnTexts(cols: seq<IndexColumnRow>): (r: seq<string>)
    ensures |r| == |cols| && forall k :: 0 <= k < |cols| ==> r[k] == IndexColumnText(cols[k])
  {
    seq(|cols|, k requires 0 <= k < |cols| => IndexColumnText(cols[k]))
  }

  function IndexHead(idx: IndexRow): string
  {
    "CREATE " + (if idx.isUnique then "UNIQUE " else "") + (if idx.indexType == "CLUSTERED" then "CLUSTERED" else "NONCLUSTERED")
  }

  function IndexDdl(indexName: string, allowFilegroup: bool, a: DdlAnswers): (r: Result<string>)
    ensures r.Ok? <==> a.index.Ok? && a.index.value != [] && a.indexColumns.Ok?
    ensures a.index == Ok([]) ==> r == Err("index not found: " + indexName)
  {
    if a.index.Err? then Err(a.index.error)
    else if |a.index.value| == 0 then Err("index not found: " + indexName)
    else
      var idx := a.index.value[0];
      if a.indexColumns.Err? then Err(a.indexColumns.error)
      else Ok(IndexHead(idx) + " INDEX [" + idx.indexName + "] ON [" + idx.schemaName + "].[" + idx.tableName + "] (" +
              Join(IndexColumnTexts(a.indexColumns.value), ", ") + ")" + FilegroupClause(allowFilegroup, a.filegroup))
  }

  /** The head of an index DDL says UNIQUE exactly for a unique index. */
  lemma IndexHeadUnique(idx: IndexRow)
    ensures StartsWith(IndexHead(idx), "CREATE UNIQUE ") <==> idx.isUnique
  {
    var k := if idx.indexType == "CLUSTERED" then "CLUSTERED" else "NONCLUSTERED";
    var h := IndexHead(idx);
    if !idx.isUnique {
      assert h == "CREATE " + k;
      assert h[7] == k[0];
      if |h| >= 14 {
        assert h[..14][7] == h[7];
      }
    }
  }

  /** It ends in ` CLUSTERED` (rather than `NONCLUSTERED`) exactly when the index type is
      CLUSTERED. */
  lemma IndexHeadKind(idx: IndexRow)
    ensures EndsWith(IndexHead(idx), " CLUSTERED") <==> idx.indexType == "CLUSTERED"
    ensures EndsWith(IndexHead(idx), "NONCLUSTERED") <==> idx.indexType != "CLUSTERED"
  {
    var h := IndexHead(idx);
    if idx.indexType == "CLUSTERED" {
      assert EndsWith(h, " CLUSTERED") && !EndsWith(h, "NONCLUSTERED") by {
        var pre := if idx.isUnique then "CREATE UNIQUE" else "CREATE";
        assert h == pre + " CLUSTERED";
        EndsWithConcat(pre, " CLUSTERED");
        assert h[|h| - 10] == ' ';
        NotEndsWithAt(h, "NONCLUSTERED", 2);
      }
    } else {
      assert EndsWith(h, "NONCLUSTERED") && !EndsWith(h, " CLUSTERED") by {
        var pre := if idx.isUnique then "CREATE UNIQUE " else "CREATE ";
        assert h == pre + "NONCLUSTERED";
        EndsWithConcat(pre, "NONCLUSTERED");
        assert h[|h| - 10] == 'N';
        NotEndsWithAt(h, " CLUSTERED", 0);
      }
    }
  }

  function CycleClause(isCycle: bool): string
  {
    if isCycle then " CYCLE" else " NO CYCLE"
  }

  /** `START WITH … INCREMENT BY … MINVALUE … MAXVALUE …`, then the cycle option. */
  function SequenceDdl(schema: string, sequenceName: string, a: DdlAnswers): (r: Result<string>)
    ensures r.Ok? <==> a.sequence.Ok? && a.sequence.value != []
    ensures a.sequence == Ok([]) ==> r == Err("sequence not found: " + sequenceName)
  {
    if a.sequence.Err? then Err(a.sequence.error)
    else if |a.sequence.value| == 0 then Err("sequence not found: " + sequenceName)
    else
      var s := a.sequence.value[0];
      Ok("CREATE SEQUENCE [" + schema + "].[" + s.sequenceName + "] AS " + s.dataType +
         " START WITH " + IntToString(s.startValue) + " INCREMENT BY " + IntToString(s.increment) +
         " MINVALUE " + IntToString(s.minValue) + " MAXVALUE " + IntToString(s.maxValue) +
         CycleClause(s.isCycle))
  }

  /** After a number, the cycle option ends in NO CYCLE exactly when the sequence does not cycle. */
  lemma CycleClauseDecode(head: string, isCycle: bool)
    requires head != [] && IsDigit(head[|head| - 1])
    ensures var t := head + CycleClause(isCycle);
      EndsWith(t, " CYCLE") && (EndsWith(t, " NO CYCLE") <==> !isCycle)
  {
    var t := head + CycleClause(isCycle);
    if isCycle {
      assert t[|t| - 7] == head[|head| - 1];
    }
  }

  /** A sequence DDL ends in CYCLE, and in NO CYCLE exactly when the sequence does not cycle. */
  lemma SequenceCycleDecode(schema: string, sequenceName: string, a: DdlAnswers)
    requires a.sequence.Ok? && a.sequence.value != []
    ensures var t := SequenceDdl(schema, sequenceName, a).value;
      EndsWith(t, " CYCLE") && (EndsWith(t, " NO CYCLE") <==> !a.sequence.value[0].isCycle)
  {
    var s := a.sequence.value[0];
    var mx := IntToString(s.maxValue);
    var head := "CREATE SEQUENCE [" + schema + "].[" + s.sequenceName + "] AS " + s.dataType +
         " START WITH " + IntToString(s.startValue) + " INCREMENT BY " + IntToString(s.increment) +
         " MINVALUE " + IntToString(s.minValue) + " MAXVALUE " + mx;
    assert head[|head| - 1] == mx[|mx| - 1];
    CycleClauseDecode(head, s.isCycle);
  }

  function SynonymDdl(schema: string, synonymName: string, a: DdlAnswers): (r: Result<string>)
    ensures r.Ok? <==> a.synonym.Ok? && a.synonym.value != []
    ensures a.synonym == Ok([]) ==> r == Err("synonym not found: " + synonymName)
  {
    if a.synonym.Err? then Err(a.synonym.error)
    else if |a.synonym.value| == 0 then Err("synonym not found: " + synonymName)
    else
      var syn := a.synonym.value[0];
      Ok("CREATE SYNONYM [" + schema + "].[" + syn.synonymName + "] FOR " + syn.baseObject)
  }

  // ---------------------------------------------------------------- dispatch

  const ModuleKinds: seq<string> := ["VIEW", "PROCEDURE", "FUNCTION", "TRIGGER"]
  const SupportedKinds: seq<string> := ["TABLE", "VIEW", "PROCEDURE", "FUNCTION", "TRIGGER", "INDEX", "SEQUENCE", "SYNONYM"]

  /** `getDdl`: one renderer per supported kind; any other kind is refused. */
  method GetDdl(schema: string, kind: string, name: string, allowFilegroup: bool, a: DdlAnswers) returns (r: Result<string>)
    ensures kind == "TABLE" ==> r == TableDdl(schema, name, allowFilegroup, a)
    ensures kind in ModuleKinds ==> r == ModuleDdl(a.moduleText)
    ensures kind == "INDEX" ==> r == IndexDdl(name, allowFilegroup, a)
    ensures kind == "SEQUENCE" ==> r == SequenceDdl(schema, name, a)
    ensures kind == "SYNONYM" ==> r == SynonymDdl(schema, name, a)
    ensures kind !in SupportedKinds ==> r == Err("unsupported object type: " + kind)
  {
    if kind == "TABLE" {
      r := GetDdlTable(schema, name, allowFilegroup, a);
    } else if kind == "VIEW" || kind == "PROCEDURE" || kind == "FUNCTION" || kind == "TRIGGER" {
      r := ModuleDdl(a.moduleText);
    } else if kind == "INDEX" {
      r := IndexDdl(name, allowFilegroup, a);
    } else if kind == "SEQUENCE" {
      r := SequenceDdl(schema, name, a);
    } else if kind == "SYNONYM" {
      r := SynonymDdl(schema, name, a);
    } else {
      r := Err("unsupported object type: " + kind);
    }
  }
}
