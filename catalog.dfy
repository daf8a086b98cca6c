/** The catalog records both `getSchemaList` implementations build (src/ddl/mssql/getSchemaList.ts,
    src/ddl/ora/getSchemaList.ts), the rows their catalog queries return, the part of the
    configuration they read, and the specification of each step they share. */
module Catalog {
  import opened Text
  import opened Patterns

  datatype ObjectState = Unprocessed | NoChange | Insert | Update | Error | Ignore

  /** `TObjectMssql` / `TObjectOra`. */
  datatype CatalogObject = CatalogObject(kind: string, name: string, state: ObjectState)

  /** `TLinkMssql` / `TLinkOra`. */
  datatype Link = Link(parentKind: string, parentName: string, kind: string, name: string)

  datatype FillKind = Full | Demo

  /** `TTableFill`: a table whose rows are exported, with its primary-key columns in key order. */
  datatype TableFill = TableFill(name: string, pklist: seq<string>, fill: FillKind, count: nat, state: ObjectState)

  /** `TSchemaMssql` / `TSchemaOra`. */
  datatype Schema = Schema(name: string, objectList: seq<CatalogObject>, linkList: seq<Link>, tableFillList: seq<TableFill>)

  /** `EUseMode`; `OtherMode` stands for any value the configuration may hold besides the two. */
  datatype UseMode = Include | Except | OtherMode

  /** `EFilterTableFill`. */
  datatype FilterMode = Whitelist | Blacklist

  /** A `{schema, table}` pattern pair of `table_fill_full.list` or `table_fill_demo.filter.list`. */
  datatype TablePattern = TablePattern(schema: string, table: string)

  /** The configuration read by discovery. An unset directory is `""` and an unset demo count is 0:
      both are falsy where the code tests them. */
  datatype DiscoveryConfig = DiscoveryConfig(
    schemaMode: UseMode, schemaList: seq<string>,
    fullDir: string, fullList: seq<TablePattern>,
    demoDir: string, demoCount: nat,
    demoFilterMode: FilterMode, demoFilterList: seq<TablePattern>,
    packageBodyDir: string, typeBodyDir: string)

  /** A row of the all-objects query (`OWNER`, `OBJECT_TYPE`, `OBJECT_NAME`). */
  datatype ObjectRow = ObjectRow(owner: string, objectType: string, objectName: string)

  /** A row of the index-link or trigger-link query: owning schema, parent table, index or trigger. */
  datatype LinkRow = LinkRow(owner: string, tableName: string, name: string)

  /** A row of the primary-key query (`OWNER`, `TABLE_NAME`, `COLUMN_NAME`), in key order per table. */
  datatype PkRow = PkRow(owner: string, tableName: string, columnName: string)

  // ---------------------------------------------------------------- filtering and order

  /** `xs.filter(keep)`. */
  function Filter<T>(xs: seq<T>, keep: T -> bool): seq<T>
  {
    if xs == [] then []
    else Filter(xs[..|xs| - 1], keep) + (if keep(xs[|xs| - 1]) then [xs[|xs| - 1]] else [])
  }

  /** `a` is `b` with some elements removed, the rest in their order. */
  ghost predicate IsSubsequence<T>(a: seq<T>, b: seq<T>)
  {
    if a == [] then true
    else if b == [] then false
    else if a[|a| - 1] == b[|b| - 1] then IsSubsequence(a[..|a| - 1], b[..|b| - 1])
    else IsSubsequence(a, b[..|b| - 1])
  }

  lemma {:induction false} FilterMembers<T>(xs: seq<T>, keep: T -> bool)
    ensures forall x :: x in Filter(xs, keep) <==> x in xs && keep(x)
  {
    if xs != [] {
      FilterMembers(xs[..|xs| - 1], keep);
      assert xs == xs[..|xs| - 1] + [xs[|xs| - 1]];
    }
  }

  lemma {:induction false} FilterKeepsOrder<T>(xs: seq<T>, keep: T -> bool)
    ensures IsSubsequence(Filter(xs, keep), xs)
  {
    if xs != [] {
      var ys := Filter(xs[..|xs| - 1], keep);
      FilterKeepsOrder(xs[..|xs| - 1], keep);
      if keep(xs[|xs| - 1]) {
        assert (ys + [xs[|xs| - 1]])[..|ys|] == ys;
      } else {
        assert Filter(xs, keep) == ys;
        SubsequenceOfPrefix(ys, xs);
      }
    }
  }

  lemma {:induction false} SubsequenceOfPrefix<T>(a: seq<T>, b: seq<T>)
    requires b != [] && IsSubsequence(a, b[..|b| - 1])
    ensures IsSubsequence(a, b)
    decreases |b|, 0
  {
    if a != [] && a[|a| - 1] == b[|b| - 1] {
      SubsequenceDropLast(a, b[..|b| - 1]);
    }
  }

  lemma {:induction false} SubsequenceDropLast<T>(a: seq<T>, b: seq<T>)
    requires a != [] && IsSubsequence(a, b)
    ensures IsSubsequence(a[..|a| - 1], b)
    decreases |b|, 1
  {
    if a[|a| - 1] == b[|b| - 1] {
      SubsequenceOfPrefix(a[..|a| - 1], b);
    } else {
      SubsequenceDropLast(a, b[..|b| - 1]);
      SubsequenceOfPrefix(a[..|a| - 1], b);
    }
  }

  // ---------------------------------------------------------------- schema filter

  function UpperAll(names: seq<string>): (r: seq<string>)
    ensures |r| == |names| && forall k :: 0 <= k < |names| ==> r[k] == Upper(names[k])
  {
    seq(|names|, k requires 0 <= k < |names| => Upper(names[k]))
  }

  /** The schema filter: names of the schema query, in its order, kept by `schema.mode` against
      `schema.list`, both sides compared uppercased. */
  function FilterSchemas(found: seq<string>, mode: UseMode, list: seq<string>): seq<string>
  {
    var wanted := UpperAll(list);
    match mode
    case Include => Filter(found, (n: string) => Upper(n) in wanted)
    case Except => Filter(found, (n: string) => Upper(n) !in wanted)
    case OtherMode => []
  }

  /** INCLUDE keeps exactly the found names listed in the configuration (ignoring case), EXCEPT
      exactly the others, any other mode none; either way in discovery order. */
  lemma FilterSchemasSpec(found: seq<string>, mode: UseMode, list: seq<string>)
    ensures var kept := FilterSchemas(found, mode, list);
      IsSubsequence(kept, found) &&
      forall n :: n in kept <==>
        n in found &&
        ((mode == Include && exists k :: 0 <= k < |list| && Upper(list[k]) == Upper(n)) ||
         (mode == Except && forall k :: 0 <= k < |list| ==> Upper(list[k]) != Upper(n)))
  {
    var wanted := UpperAll(list);
    match mode
    case Include =>
      var keep := (n: string) => Upper(n) in wanted;
      FilterMembers(found, keep);
      FilterKeepsOrder(found, keep);
    case Except =>
      var keep := (n: string) => Upper(n) !in wanted;
      FilterMembers(found, keep);
      FilterKeepsOrder(found, keep);
    case OtherMode =>
  }

  function EmptySchema(name: string): Schema
  {
    Schema(name, [], [], [])
  }

  function EmptySchemas(names: seq<string>): (r: seq<Schema>)
    ensures |r| == |names| && forall i :: 0 <= i < |names| ==> r[i] == EmptySchema(names[i])
  {
    seq(|names|, i requires 0 <= i < |names| => EmptySchema(names[i]))
  }

  // ---------------------------------------------------------------- lookups

  /** `schemaList.find(f => f.name === name)`, as an index; `|schemas|` when there is none. */
  function FindSchema(schemas: seq<Schema>, name: string): (i: nat)
    ensures i <= |schemas|
    ensures i < |schemas| ==> schemas[i].name == name
    ensures forall j :: 0 <= j < i ==> schemas[j].name != name
  {
    if schemas == [] then 0
    else if schemas[0].name == name then 0
    else 1 + FindSchema(schemas[1..], name)
  }

  /** `tableFillList.find(f => f.name === name)`, as an index; `|fills|` when there is none. */
  function FindFill(fills: seq<TableFill>, name: string): (i: nat)
    ensures i <= |fills|
    ensures i < |fills| ==> fills[i].name == name
    ensures forall j :: 0 <= j < i ==> fills[j].name != name
  {
    if fills == [] then 0
    else if fills[0].name == name then 0
    else 1 + FindFill(fills[1..], name)
  }

  predicate SameNames(a: seq<Schema>, b: seq<Schema>)
  {
    |a| == |b| && forall i :: 0 <= i < |a| ==> a[i].name == b[i].name
  }

  lemma FindSchemaSameNames(a: seq<Schema>, b: seq<Schema>, name: string)
    requires SameNames(a, b)
    ensures FindSchema(a, name) == FindSchema(b, name)
  {
    if a != [] && a[0].name != name {
      FindSchemaSameNames(a[1..], b[1..], name);
    }
  }

  /** The schema at `i` is the first of its name: the one every `find` by that name returns. */
  predicate IsFirstOfName(schemas: seq<Schema>, i: nat)
    requires i < |schemas|
  {
    FindSchema(schemas, schemas[i].name) == i
  }

  // ---------------------------------------------------------------- primary-key grouping

  predicate PatternMatches(p: TablePattern, schema: string, table: string)
  {
    MatchPattern(schema, p.schema) && MatchPattern(table, p.table)
  }

  /** `list.some(pattern => matchPattern(schema, pattern.schema) && matchPattern(table, pattern.table))`. */
  function AnyPatternMatches(list: seq<TablePattern>, schema: string, table: string): (r: bool)
    ensures r <==> exists k :: 0 <= k < |list| && PatternMatches(list[k], schema, table)
  {
    if list == [] then false
    else PatternMatches(list[0], schema, table) || AnyPatternMatches(list[1..], schema, table)
  }

  /** `table_fill_demo.count || 3`. */
  function DefaultCount(count: nat): (n: nat)
    ensures n >= 1 && (count != 0 ==> n == count)
  {
    if count == 0 then 3 else count
  }

  /** The entry created for the first key column seen of a table. */
  function NewFill(schema: string, table: string, pklist: seq<string>, full: seq<TablePattern>, count: nat): TableFill
  {
    TableFill(table, pklist, if AnyPatternMatches(full, schema, table) then Full else Demo, DefaultCount(count), Unprocessed)
  }

  /** One iteration of the key loop inside a found schema: append to the table's entry, or add one. */
  function AddToFills(fills: seq<TableFill>, schema: string, pk: PkRow, full: seq<TablePattern>, count: nat): seq<TableFill>
  {
    var t := FindFill(fills, pk.tableName);
    if t < |fills| then fills[t := fills[t].(pklist := fills[t].pklist + [pk.columnName])]
    else fills + [NewFill(schema, pk.tableName, [pk.columnName], full, count)]
  }

  /** One iteration of the key loop: rows of an unknown schema are skipped. */
  function AddPk(schemas: seq<Schema>, pk: PkRow, full: seq<TablePattern>, count: nat): seq<Schema>
  {
    var s := FindSchema(schemas, pk.owner);
    if s == |schemas| then schemas
    else schemas[s := schemas[s].(tableFillList := AddToFills(schemas[s].tableFillList, schemas[s].name, pk, full, count))]
  }

  /** The key loop over all rows, in row order. */
  function GroupPks(schemas: seq<Schema>, pks: seq<PkRow>, full: seq<TablePattern>, count: nat): seq<Schema>
  {
    if pks == [] then schemas
    else AddPk(GroupPks(schemas, pks[..|pks| - 1], full, count), pks[|pks| - 1], full, count)
  }

  // The reference the grouping is proved against.

  predicate RowOf(pk: PkRow, owner: string, table: string)
  {
    pk.owner == owner && pk.tableName == table
  }

  /** The key columns of `owner.table`, in row order. */
  function ColumnsOf(pks: seq<PkRow>, owner: string, table: string): seq<string>
  {
    if pks == [] then []
    else ColumnsOf(pks[..|pks| - 1], owner, table) +
         (if RowOf(pks[|pks| - 1], owner, table) then [pks[|pks| - 1].columnName] else [])
  }

  /** The tables of `owner` that have key rows, in order of their first row. */
  function TablesOf(pks: seq<PkRow>, owner: string): seq<string>
  {
    if pks == [] then []
    else
      var ts := TablesOf(pks[..|pks| - 1], owner);
      var r := pks[|pks| - 1];
      if r.owner == owner && r.tableName !in ts then ts + [r.tableName] else ts
  }

  predicate Distinct(ts: seq<string>)
  {
    forall i, j :: 0 <= i < j < |ts| ==> ts[i] != ts[j]
  }

  lemma {:induction false} TablesOfSpec(pks: seq<PkRow>, owner: string)
    ensures Distinct(TablesOf(pks, owner))
    ensures forall t :: t in TablesOf(pks, owner) <==> exists j :: 0 <= j < |pks| && RowOf(pks[j], owner, t)
  {
    if pks != [] {
      var init := pks[..|pks| - 1];
      TablesOfSpec(init, owner);
      var r := pks[|pks| - 1];
      forall t | t in TablesOf(pks, owner)
        ensures exists j :: 0 <= j < |pks| && RowOf(pks[j], owner, t)
      {
        if t in TablesOf(init, owner) {
          var j :| 0 <= j < |init| && RowOf(init[j], owner, t);
          assert RowOf(pks[j], owner, t);
        } else {
          assert RowOf(pks[|pks| - 1], owner, t);
        }
      }
      forall t | exists j :: 0 <= j < |pks| && RowOf(pks[j], owner, t)
        ensures t in TablesOf(pks, owner)
      {
        var j :| 0 <= j < |pks| && RowOf(pks[j], owner, t);
        if j < |init| {
          assert RowOf(init[j], owner, t);
        }
      }
    }
  }

  lemma {:induction false} ColumnsOfOnlyTables(pks: seq<PkRow>, owner: string, table: string)
    requires table !in TablesOf(pks, owner)
    ensures ColumnsOf(pks, owner, table) == []
  {
    if pks != [] {
      ColumnsOfOnlyTables(pks[..|pks| - 1], owner, table);
    }
  }

  /** What the key loop should give a schema: one entry per table with key rows, in order of first
      row, holding all the table's key columns in row order, classified by the full patterns. */
  function ExpectedFills(pks: seq<PkRow>, owner: string, full: seq<TablePattern>, count: nat): (r: seq<TableFill>)
    ensures |r| == |TablesOf(pks, owner)|
  {
    var ts := TablesOf(pks, owner);
    seq(|ts|, k requires 0 <= k < |ts| => NewFill(owner, ts[k], ColumnsOf(pks, owner, ts[k]), full, count))
  }

  lemma ExpectedFillsOtherOwner(pks: seq<PkRow>, r: PkRow, owner: string, full: seq<TablePattern>, count: nat)
    requires r.owner != owner
    ensures ExpectedFills(pks + [r], owner, full, count) == ExpectedFills(pks, owner, full, count)
  {
    assert (pks + [r])[..|pks|] == pks;
    var ts := TablesOf(pks, owner);
    assert TablesOf(pks + [r], owner) == ts;
    forall k | 0 <= k < |ts| ensures ColumnsOf(pks + [r], owner, ts[k]) == ColumnsOf(pks, owner, ts[k]) {}
  }

  lemma FindFillOfExpected(pks: seq<PkRow>, owner: string, full: seq<TablePattern>, count: nat, table: string)
    ensures var ts := TablesOf(pks, owner);
      var t := FindFill(ExpectedFills(pks, owner, full, count), table);
      (table in ts ==> t < |ts| && ts[t] == table) && (table !in ts ==> t == |ts|)
  {
    var ts := TablesOf(pks, owner);
    var fills := ExpectedFills(pks, owner, full, count);
    assert forall k :: 0 <= k < |fills| ==> fills[k].name == ts[k];
  }

  /** One step of the key loop keeps a schema's entries equal to the reference. */
  lemma AddToFillsExpected(pks: seq<PkRow>, r: PkRow, full: seq<TablePattern>, count: nat)
    ensures AddToFills(ExpectedFills(pks, r.owner, full, count), r.owner, r, full, count)
         == ExpectedFills(pks + [r], r.owner, full, count)
  {
    var o, tn := r.owner, r.tableName;
    var pks' := pks + [r];
    assert pks'[..|pks|] == pks;
    var ts := TablesOf(pks, o);
    var fills := ExpectedFills(pks, o, full, count);
    var fills' := ExpectedFills(pks', o, full, count);
    TablesOfSpec(pks, o);
    FindFillOfExpected(pks, o, full, count, tn);
    var t := FindFill(fills, tn);
    if tn in ts {
      assert TablesOf(pks', o) == ts;
      assert |fills'| == |fills|;
      forall k | 0 <= k < |ts|
        ensures AddToFills(fills, o, r, full, count)[k] == fills'[k]
      {
        if k != t {
          assert ts[k] != tn;
        }
      }
    } else {
      assert TablesOf(pks', o) == ts + [tn];
      ColumnsOfOnlyTables(pks, o, tn);
      assert ColumnsOf(pks', o, tn) == [r.columnName];
      forall k | 0 <= k < |ts|
        ensures ColumnsOf(pks', o, ts[k]) == ColumnsOf(pks, o, ts[k])
      {
        assert ts[k] != tn;
      }
    }
  }

  lemma GroupPksKeepsNames(schemas: seq<Schema>, pks: seq<PkRow>, full: seq<TablePattern>, count: nat)
    ensures var g := GroupPks(schemas, pks, full, count);
      |g| == |schemas| &&
      forall i :: 0 <= i < |g| ==>
        g[i].name == schemas[i].name && g[i].objectList == schemas[i].objectList && g[i].linkList == schemas[i].linkList
  {
  }

  /** The key loop, from schemas without entries, gives every schema exactly the reference entries
      for its name: the columns of each table land in that table's single entry, in row order; rows
      of unknown schemas change nothing; names, objects and links are untouched. (A schema whose
      name occurs earlier in the list gets nothing, as `find` never reaches it.) */
  lemma {:induction false} GroupPksSpec(schemas: seq<Schema>, pks: seq<PkRow>, full: seq<TablePattern>, count: nat)
    requires forall i :: 0 <= i < |schemas| ==> schemas[i].tableFillList == []
    ensures var g := GroupPks(schemas, pks, full, count);
      |g| == |schemas| &&
      forall i :: 0 <= i < |schemas| ==>
        g[i] == schemas[i].(tableFillList := if IsFirstOfName(schemas, i) then ExpectedFills(pks, schemas[i].name, full, count) else [])
  {
    if pks != [] {
      var init, r := pks[..|pks| - 1], pks[|pks| - 1];
      assert init + [r] == pks;
      GroupPksSpec(schemas, init, full, count);
      var g := GroupPks(schemas, init, full, count);
      assert SameNames(g, schemas);
      FindSchemaSameNames(g, schemas, r.owner);
      var s := FindSchema(schemas, r.owner);
      forall i | 0 <= i < |schemas|
        ensures GroupPks(schemas, pks, full, count)[i] ==
          schemas[i].(tableFillList := if IsFirstOfName(schemas, i) then ExpectedFills(pks, schemas[i].name, full, count) else [])
      {
        if i == s {
          AddToFillsExpected(init, r, full, count);
        } else if IsFirstOfName(schemas, i) {
          ExpectedFillsOtherOwner(init, r, schemas[i].name, full, count);
        }
      }
    }
  }

  /** Each schema's entries name distinct tables. */
  lemma ExpectedFillsDistinct(pks: seq<PkRow>, owner: string, full: seq<TablePattern>, count: nat)
    ensures var fills := ExpectedFills(pks, owner, full, count);
      forall i, j :: 0 <= i < j < |fills| ==> fills[i].name != fills[j].name
  {
    TablesOfSpec(pks, owner);
  }

  /** An entry exists for exactly the tables with key rows; it holds exactly that table's key columns
      in row order, is full iff a full pattern matches schema and table, and counts `count || 3`. */
  lemma ExpectedFillsContent(pks: seq<PkRow>, owner: string, full: seq<TablePattern>, count: nat, table: string)
    ensures var fills := ExpectedFills(pks, owner, full, count);
      var k := FindFill(fills, table);
      (k < |fills| <==> exists j :: 0 <= j < |pks| && RowOf(pks[j], owner, table)) &&
      (k < |fills| ==>
        fills[k].pklist == ColumnsOf(pks, owner, table) && fills[k].pklist != [] &&
        (fills[k].fill == Full <==> AnyPatternMatches(full, owner, table)) &&
        fills[k].count == DefaultCount(count) && fills[k].state == Unprocessed)
  {
    TablesOfSpec(pks, owner);
    FindFillOfExpected(pks, owner, full, count, table);
    if table in TablesOf(pks, owner) {
      ColumnsOfNonEmpty(pks, owner, table);
    }
  }

  lemma {:induction false} ColumnsOfNonEmpty(pks: seq<PkRow>, owner: string, table: string)
    requires exists j :: 0 <= j < |pks| && RowOf(pks[j], owner, table)
    ensures ColumnsOf(pks, owner, table) != []
  {
    var init := pks[..|pks| - 1];
    if !RowOf(pks[|pks| - 1], owner, table) {
      var j :| 0 <= j < |pks| && RowOf(pks[j], owner, table);
      assert RowOf(init[j], owner, table);
      ColumnsOfNonEmpty(init, owner, table);
    }
  }

  /** The key lookup runs only with a full-export directory, or a demo directory and a non-zero
      demo count. */
  predicate PkLookupRuns(config: DiscoveryConfig)
  {
    config.fullDir != "" || (config.demoDir != "" && config.demoCount != 0)
  }

  // ---------------------------------------------------------------- demo filter

  /** The `filter` callback of the demo filter. */
  predicate KeepFill(schema: string, fill: TableFill, mode: FilterMode, list: seq<TablePattern>)
  {
    fill.fill == Full ||
    (if mode == Whitelist then AnyPatternMatches(list, schema, fill.name)
     else !AnyPatternMatches(list, schema, fill.name))
  }

  function FillKeeper(schema: string, mode: FilterMode, list: seq<TablePattern>): TableFill -> bool
  {
    (f: TableFill) => KeepFill(schema, f, mode, list)
  }

  /** One schema's entries after the demo filter, which applies only when the list is non-empty. */
  function FilterFillList(schema: string, fills: seq<TableFill>, mode: FilterMode, list: seq<TablePattern>): seq<TableFill>
  {
    if list == [] then fills else Filter(fills, FillKeeper(schema, mode, list))
  }

  /** The demo filter over all schemas. */
  function DemoFilter(schemas: seq<Schema>, mode: FilterMode, list: seq<TablePattern>): (r: seq<Schema>)
    ensures |r| == |schemas|
  {
    seq(|schemas|, i requires 0 <= i < |schemas| =>
      schemas[i].(tableFillList := FilterFillList(schemas[i].name, schemas[i].tableFillList, mode, list)))
  }

  /** With a non-empty list, full entries are all kept; a demo entry is kept iff some pattern
      matches it under WHITELIST, and iff none does under BLACKLIST; order is kept. An empty list
      keeps everything. */
  lemma FilterFillListSpec(schema: string, fills: seq<TableFill>, mode: FilterMode, list: seq<TablePattern>)
    ensures var kept := FilterFillList(schema, fills, mode, list);
      IsSubsequence(kept, fills) &&
      forall f :: f in kept <==>
        f in fills &&
        (list == [] || f.fill == Full ||
         (mode == Whitelist <==> exists k :: 0 <= k < |list| && PatternMatches(list[k], schema, f.name)))
  {
    if list != [] {
      FilterMembers(fills, FillKeeper(schema, mode, list));
      FilterKeepsOrder(fills, FillKeeper(schema, mode, list));
    } else {
      SubsequenceOfSelf(fills);
    }
  }

  lemma {:induction false} SubsequenceOfSelf<T>(a: seq<T>)
    ensures IsSubsequence(a, a)
  {
    if a != [] {
      SubsequenceOfSelf(a[..|a| - 1]);
    }
  }

  // ---------------------------------------------------------------- objects and links

  /** One `forEach` step over the objects: the row's object goes to the first schema of its owner. */
  function PushObject(schemas: seq<Schema>, row: ObjectRow): seq<Schema>
  {
    var s := FindSchema(schemas, row.owner);
    if s == |schemas| then schemas
    else schemas[s := schemas[s].(objectList := schemas[s].objectList + [CatalogObject(row.objectType, row.objectName, Unprocessed)])]
  }

  function WithObjects(schemas: seq<Schema>, rows: seq<ObjectRow>): seq<Schema>
  {
    if rows == [] then schemas
    else PushObject(WithObjects(schemas, rows[..|rows| - 1]), rows[|rows| - 1])
  }

  /** The objects of `owner`, in row order. */
  function ObjectsOf(rows: seq<ObjectRow>, owner: string): seq<CatalogObject>
  {
    if rows == [] then []
    else ObjectsOf(rows[..|rows| - 1], owner) +
         (var r := rows[|rows| - 1]; if r.owner == owner then [CatalogObject(r.objectType, r.objectName, Unprocessed)] else [])
  }

  /** Attaching objects appends to each first-of-its-name schema exactly its objects, in row order,
      and changes nothing else. */
  /** The schema at `i` after one more object row, given what it held before. */
  lemma PushObjectAt(schemas: seq<Schema>, rows: seq<ObjectRow>, w: seq<Schema>, i: nat)
    requires |rows| > 0 && i < |schemas| && |w| == |schemas|
    requires FindSchema(w, rows[|rows| - 1].owner) == FindSchema(schemas, rows[|rows| - 1].owner)
    requires w[i] == schemas[i].(objectList := schemas[i].objectList +
      if IsFirstOfName(schemas, i) then ObjectsOf(rows[..|rows| - 1], schemas[i].name) else [])
    ensures PushObject(w, rows[|rows| - 1])[i] == schemas[i].(objectList := schemas[i].objectList +
      if IsFirstOfName(schemas, i) then ObjectsOf(rows, schemas[i].name) else [])
  {
    var init, r := rows[..|rows| - 1], rows[|rows| - 1];
    var name := schemas[i].name;
    var p := PushObject(w, r)[i];
    if i == FindSchema(schemas, r.owner) {
      var before := ObjectsOf(init, name);
      var added := CatalogObject(r.objectType, r.objectName, Unprocessed);
      assert IsFirstOfName(schemas, i);
      assert ObjectsOf(rows, name) == before + [added];
      assert p.objectList == (schemas[i].objectList + before) + [added];
      assert p == schemas[i].(objectList := schemas[i].objectList + ObjectsOf(rows, name));
    } else if IsFirstOfName(schemas, i) {
      assert name != r.owner;
      var before := ObjectsOf(init, name);
      assert ObjectsOf(rows, name) == before + [];
      assert before + [] == before;
      assert p == schemas[i].(objectList := schemas[i].objectList + ObjectsOf(rows, name));
    } else {
      assert p == schemas[i].(objectList := schemas[i].objectList + []);
    }
  }

  lemma {:induction false} WithObjectsSpec(schemas: seq<Schema>, rows: seq<ObjectRow>)
    ensures var w := WithObjects(schemas, rows);
      |w| == |schemas| &&
      forall i :: 0 <= i < |schemas| ==>
        w[i] == schemas[i].(objectList := schemas[i].objectList + if IsFirstOfName(schemas, i) then ObjectsOf(rows, schemas[i].name) else [])
  {
    if |rows| > 0 {
      var init, r := rows[..|rows| - 1], rows[|rows| - 1];
      WithObjectsSpec(schemas, init);
      var w := WithObjects(schemas, init);
      assert SameNames(w, schemas);
      FindSchemaSameNames(w, schemas, r.owner);
      forall i | 0 <= i < |schemas|
        ensures PushObject(w, r)[i] == schemas[i].(objectList := schemas[i].objectList +
          if IsFirstOfName(schemas, i) then ObjectsOf(rows, schemas[i].name) else [])
      {
        PushObjectAt(schemas, rows, w, i);
      }
    }
  }


  /** The index objects the index-link rows add to the object rows. */
  function IndexObjectRows(rows: seq<LinkRow>): (r: seq<ObjectRow>)
    ensures |r| == |rows|
    ensures forall k :: 0 <= k < |rows| ==> r[k] == ObjectRow(rows[k].owner, "INDEX", rows[k].name)
  {
    seq(|rows|, k requires 0 <= k < |rows| => ObjectRow(rows[k].owner, "INDEX", rows[k].name))
  }

  function MakeLink(row: LinkRow, kind: string): Link
  {
    Link("TABLE", row.tableName, kind, row.name)
  }

  function PushLink(schemas: seq<Schema>, row: LinkRow, kind: string): seq<Schema>
  {
    var s := FindSchema(schemas, row.owner);
    if s == |schemas| then schemas
    else schemas[s := schemas[s].(linkList := schemas[s].linkList + [MakeLink(row, kind)])]
  }

  function WithLinks(schemas: seq<Schema>, rows: seq<LinkRow>, kind: string): seq<Schema>
  {
    if rows == [] then schemas
    else PushLink(WithLinks(schemas, rows[..|rows| - 1], kind), rows[|rows| - 1], kind)
  }

  /** The links of `owner`, in row order, all with parent kind TABLE and the given kind. */
  function LinksOf(rows: seq<LinkRow>, owner: string, kind: string): seq<Link>
  {
    if rows == [] then []
    else LinksOf(rows[..|rows| - 1], owner, kind) +
         (var r := rows[|rows| - 1]; if r.owner == owner then [MakeLink(r, kind)] else [])
  }

  /** The schema at `i` after one more link row, given what it held before. */
  lemma PushLinkAt(schemas: seq<Schema>, rows: seq<LinkRow>, kind: string, w: seq<Schema>, i: nat)
    requires |rows| > 0 && i < |schemas| && |w| == |schemas|
    requires FindSchema(w, rows[|rows| - 1].owner) == FindSchema(schemas, rows[|rows| - 1].owner)
    requires w[i] == schemas[i].(linkList := schemas[i].linkList +
      if IsFirstOfName(schemas, i) then LinksOf(rows[..|rows| - 1], schemas[i].name, kind) else [])
    ensures PushLink(w, rows[|rows| - 1], kind)[i] == schemas[i].(linkList := schemas[i].linkList +
      if IsFirstOfName(schemas, i) then LinksOf(rows, schemas[i].name, kind) else [])
  {
    var init, r := rows[..|rows| - 1], rows[|rows| - 1];
    var name := schemas[i].name;
    var p := PushLink(w, r, kind)[i];
    if i == FindSchema(schemas, r.owner) {
      var before := LinksOf(init, name, kind);
      assert IsFirstOfName(schemas, i);
      assert LinksOf(rows, name, kind) == before + [MakeLink(r, kind)];
      assert p.linkList == (schemas[i].linkList + before) + [MakeLink(r, kind)];
      assert p == schemas[i].(linkList := schemas[i].linkList + LinksOf(rows, name, kind));
    } else if IsFirstOfName(schemas, i) {
      assert name != r.owner;
      var before := LinksOf(init, name, kind);
      assert LinksOf(rows, name, kind) == before + [];
      assert before + [] == before;
      assert p == schemas[i].(linkList := schemas[i].linkList + LinksOf(rows, name, kind));
    } else {
      assert p == schemas[i].(linkList := schemas[i].linkList + []);
    }
  }

  lemma {:induction false} WithLinksSpec(schemas: seq<Schema>, rows: seq<LinkRow>, kind: string)
    ensures var w := WithLinks(schemas, rows, kind);
      |w| == |schemas| &&
      forall i :: 0 <= i < |schemas| ==>
        w[i] == schemas[i].(linkList := schemas[i].linkList + if IsFirstOfName(schemas, i) then LinksOf(rows, schemas[i].name, kind) else [])
  {
    if |rows| > 0 {
      var init, r := rows[..|rows| - 1], rows[|rows| - 1];
      WithLinksSpec(schemas, init, kind);
      var w := WithLinks(schemas, init, kind);
      assert SameNames(w, schemas);
      FindSchemaSameNames(w, schemas, r.owner);
      forall i | 0 <= i < |schemas|
        ensures PushLink(w, r, kind)[i] == schemas[i].(linkList := schemas[i].linkList +
          if IsFirstOfName(schemas, i) then LinksOf(rows, schemas[i].name, kind) else [])
      {
        PushLinkAt(schemas, rows, kind, w, i);
      }
    }
  }


  // ---------------------------------------------------------------- the assembled result

  /** The schema at `i` is the first of its name in the list. */
  predicate FirstIn(names: seq<string>, i: nat)
    requires i < |names|
  {
    forall j :: 0 <= j < i ==> names[j] != names[i]
  }

  lemma FirstOfNameSame(a: seq<Schema>, b: seq<Schema>, i: nat)
    requires SameNames(a, b) && i < |a|
    ensures IsFirstOfName(a, i) == IsFirstOfName(b, i)
  {
    FindSchemaSameNames(a, b, a[i].name);
  }

  lemma FirstOfEmptySchemas(names: seq<string>, i: nat)
    requires i < |names|
    ensures IsFirstOfName(EmptySchemas(names), i) <==> FirstIn(names, i)
  {
  }

  /** What discovery gives the first schema of a name: every object row of that owner, index rows
      appended as INDEX objects; its index links, then its trigger links (recorded with
      `triggerKind`); and, when the key lookup runs, one entry per keyed table, demo-filtered. */
  function ExpectedSchema(name: string, objects: seq<ObjectRow>, indexes: seq<LinkRow>, triggers: seq<LinkRow>,
                          triggerKind: string, pks: seq<PkRow>, config: DiscoveryConfig): Schema
  {
    Schema(name,
      ObjectsOf(objects + IndexObjectRows(indexes), name),
      LinksOf(indexes, name, "INDEX") + LinksOf(triggers, name, triggerKind),
      if PkLookupRuns(config)
      then FilterFillList(name, ExpectedFills(pks, name, config.fullList, config.demoCount), config.demoFilterMode, config.demoFilterList)
      else [])
  }

  /** The schema at `i` of the discovered list; a repeated name gets nothing, as `find` stops at
      its first occurrence. */
  function DiscoveredSchema(names: seq<string>, i: nat, objects: seq<ObjectRow>, indexes: seq<LinkRow>, triggers: seq<LinkRow>,
                            triggerKind: string, pks: seq<PkRow>, config: DiscoveryConfig): Schema
    requires i < |names|
  {
    if FirstIn(names, i) then ExpectedSchema(names[i], objects, indexes, triggers, triggerKind, pks, config)
    else EmptySchema(names[i])
  }

  lemma GroupStage(names: seq<string>, pks: seq<PkRow>, config: DiscoveryConfig, i: nat)
    requires i < |names|
    ensures var s0 := EmptySchemas(names);
      var s1 := if PkLookupRuns(config) then GroupPks(s0, pks, config.fullList, config.demoCount) else s0;
      SameNames(s1, s0) &&
      s1[i] == Schema(names[i], [], [], if PkLookupRuns(config) && FirstIn(names, i)
                                        then ExpectedFills(pks, names[i], config.fullList, config.demoCount) else [])
  {
    GroupPksSpec(EmptySchemas(names), pks, config.fullList, config.demoCount);
    FirstOfEmptySchemas(names, i);
  }

  lemma ObjectsStage(names: seq<string>, s: seq<Schema>, rows: seq<ObjectRow>, i: nat)
    requires SameNames(s, EmptySchemas(names)) && i < |names|
    ensures var w := WithObjects(s, rows);
      SameNames(w, EmptySchemas(names)) &&
      w[i] == s[i].(objectList := s[i].objectList + if FirstIn(names, i) then ObjectsOf(rows, names[i]) else [])
  {
    WithObjectsSpec(s, rows);
    FirstOfNameSame(s, EmptySchemas(names), i);
    FirstOfEmptySchemas(names, i);
  }

  lemma LinksStage(names: seq<string>, s: seq<Schema>, rows: seq<LinkRow>, kind: string, i: nat)
    requires SameNames(s, EmptySchemas(names)) && i < |names|
    ensures var w := WithLinks(s, rows, kind);
      SameNames(w, EmptySchemas(names)) &&
      w[i] == s[i].(linkList := s[i].linkList + if FirstIn(names, i) then LinksOf(rows, names[i], kind) else [])
  {
    WithLinksSpec(s, rows, kind);
    FirstOfNameSame(s, EmptySchemas(names), i);
    FirstOfEmptySchemas(names, i);
  }

  /** Either order of the steps the two implementations use ends in the discovered schemas. */
  lemma AssembledSpec(names: seq<string>, objects: seq<ObjectRow>, indexes: seq<LinkRow>, triggers: seq<LinkRow>,
                      triggerKind: string, pks: seq<PkRow>, config: DiscoveryConfig, filterFirst: bool)
    ensures var s0 := EmptySchemas(names);
      var s1 := if PkLookupRuns(config) then GroupPks(s0, pks, config.fullList, config.demoCount) else s0;
      var s2 := if filterFirst && PkLookupRuns(config) then DemoFilter(s1, config.demoFilterMode, config.demoFilterList) else s1;
      var s3 := WithLinks(WithLinks(WithObjects(s2, objects + IndexObjectRows(indexes)), indexes, "INDEX"), triggers, triggerKind);
      var s4 := if filterFirst then s3 else DemoFilter(s3, config.demoFilterMode, config.demoFilterList);
      |s4| == |names| &&
      forall i :: 0 <= i < |names| ==> s4[i] == DiscoveredSchema(names, i, objects, indexes, triggers, triggerKind, pks, config)
  {
    var s0 := EmptySchemas(names);
    var s1 := if PkLookupRuns(config) then GroupPks(s0, pks, config.fullList, config.demoCount) else s0;
    var s2 := if filterFirst && PkLookupRuns(config) then DemoFilter(s1, config.demoFilterMode, config.demoFilterList) else s1;
    var o := WithObjects(s2, objects + IndexObjectRows(indexes));
    var l1 := WithLinks(o, indexes, "INDEX");
    var l2 := WithLinks(l1, triggers, triggerKind);
    if names != [] {
      AssembledAt(names, objects, indexes, triggers, triggerKind, pks, config, filterFirst, 0);
    } else {
      GroupPksSpec(s0, pks, config.fullList, config.demoCount);
      WithObjectsSpec(s2, objects + IndexObjectRows(indexes));
      WithLinksSpec(o, indexes, "INDEX");
      WithLinksSpec(l1, triggers, triggerKind);
    }
    forall i | 0 <= i < |names|
      ensures (if filterFirst then l2 else DemoFilter(l2, config.demoFilterMode, config.demoFilterList))[i]
           == DiscoveredSchema(names, i, objects, indexes, triggers, triggerKind, pks, config)
    {
      AssembledAt(names, objects, indexes, triggers, triggerKind, pks, config, filterFirst, i);
    }
  }

  /** The schema at `i` once the objects, the index links and the trigger links are added. */
  lemma ListedStage(names: seq<string>, s: seq<Schema>, objects: seq<ObjectRow>, indexes: seq<LinkRow>,
                    triggers: seq<LinkRow>, triggerKind: string, i: nat)
    requires SameNames(s, EmptySchemas(names)) && i < |names|
    requires s[i].objectList == [] && s[i].linkList == []
    ensures var l := WithLinks(WithLinks(WithObjects(s, objects + IndexObjectRows(indexes)), indexes, "INDEX"), triggers, triggerKind);
      var first := FirstIn(names, i);
      SameNames(l, EmptySchemas(names)) &&
      l[i] == s[i].(objectList := if first then ObjectsOf(objects + IndexObjectRows(indexes), names[i]) else [],
                    linkList := if first then LinksOf(indexes, names[i], "INDEX") + LinksOf(triggers, names[i], triggerKind) else [])
  {
    var first := FirstIn(names, i);
    var allObjects := objects + IndexObjectRows(indexes);
    var o := WithObjects(s, allObjects);
    ObjectsStage(names, s, allObjects, i);
    var objs := if first then ObjectsOf(allObjects, names[i]) else [];
    assert o[i] == s[i].(objectList := objs);
    var l1 := WithLinks(o, indexes, "INDEX");
    LinksStage(names, o, indexes, "INDEX", i);
    var links1 := if first then LinksOf(indexes, names[i], "INDEX") else [];
    assert l1[i] == s[i].(objectList := objs, linkList := links1);
    LinksStage(names, l1, triggers, triggerKind, i);
  }

  lemma AssembledAt(names: seq<string>, objects: seq<ObjectRow>, indexes: seq<LinkRow>, triggers: seq<LinkRow>,
                    triggerKind: string, pks: seq<PkRow>, config: DiscoveryConfig, filterFirst: bool, i: nat)
    requires i < |names|
    ensures var s0 := EmptySchemas(names);
      var s1 := if PkLookupRuns(config) then GroupPks(s0, pks, config.fullList, config.demoCount) else s0;
      var s2 := if filterFirst && PkLookupRuns(config) then DemoFilter(s1, config.demoFilterMode, config.demoFilterList) else s1;
      var s3 := WithLinks(WithLinks(WithObjects(s2, objects + IndexObjectRows(indexes)), indexes, "INDEX"), triggers, triggerKind);
      var s4 := if filterFirst then s3 else DemoFilter(s3, config.demoFilterMode, config.demoFilterList);
      |s4| == |names| && s4[i] == DiscoveredSchema(names, i, objects, indexes, triggers, triggerKind, pks, config)
  {
    var runs, mode, list := PkLookupRuns(config), config.demoFilterMode, config.demoFilterList;
    var first := FirstIn(names, i);
    var s0 := EmptySchemas(names);
    var s1 := if runs then GroupPks(s0, pks, config.fullList, config.demoCount) else s0;
    GroupStage(names, pks, config, i);
    var fills := if runs && first then ExpectedFills(pks, names[i], config.fullList, config.demoCount) else [];
    var s2 := if filterFirst && runs then DemoFilter(s1, mode, list) else s1;
    var fills2 := if filterFirst && runs then FilterFillList(names[i], fills, mode, list) else fills;
    assert SameNames(s2, s0) && s2[i] == Schema(names[i], [], [], fills2);
    ListedStage(names, s2, objects, indexes, triggers, triggerKind, i);
    if !first {
      assert FilterFillList(names[i], [], mode, list) == [];
    }
  }


  // ---------------------------------------------------------------- the loops

  /** The primary-key loop. */
  method GroupPkRows(schemas0: seq<Schema>, pks: seq<PkRow>, full: seq<TablePattern>, count: nat)
    returns (schemas: seq<Schema>)
    ensures schemas == GroupPks(schemas0, pks, full, count)
  {
    schemas := schemas0;
    var i := 0;
    while i < |pks|
      invariant i <= |pks|
      invariant schemas == GroupPks(schemas0, pks[..i], full, count)
    {
      assert pks[..i + 1][..i] == pks[..i];
      var pk := pks[i];
      var s := FindSchema(schemas, pk.owner);
      if s < |schemas| {
        var fills := schemas[s].tableFillList;
        var t := FindFill(fills, pk.tableName);
        if t < |fills| {
          fills := fills[t := fills[t].(pklist := fills[t].pklist + [pk.columnName])];
        } else {
          var isFull := AnyPatternMatches(full, schemas[s].name, pk.tableName);
          fills := fills + [TableFill(pk.tableName, [pk.columnName], if isFull then Full else Demo, DefaultCount(count), Unprocessed)];
        }
        schemas := schemas[s := schemas[s].(tableFillList := fills)];
      }
      i := i + 1;
    }
    assert pks[..i] == pks;
  }

  /** The `forEach` over the object rows. */
  method AttachObjects(schemas0: seq<Schema>, rows: seq<ObjectRow>) returns (schemas: seq<Schema>)
    ensures schemas == WithObjects(schemas0, rows)
  {
    schemas := schemas0;
    var i := 0;
    while i < |rows|
      invariant i <= |rows|
      invariant schemas == WithObjects(schemas0, rows[..i])
    {
      assert rows[..i + 1][..i] == rows[..i];
      var s := FindSchema(schemas, rows[i].owner);
      if s < |schemas| {
        schemas := schemas[s := schemas[s].(objectList := schemas[s].objectList + [CatalogObject(rows[i].objectType, rows[i].objectName, Unprocessed)])];
      }
      i := i + 1;
    }
    assert rows[..i] == rows;
  }

  /** A `forEach` over index-link or trigger-link rows, recording links of the given kind. */
  method AttachLinks(schemas0: seq<Schema>, rows: seq<LinkRow>, kind: string) returns (schemas: seq<Schema>)
    ensures schemas == WithLinks(schemas0, rows, kind)
  {
    schemas := schemas0;
    var i := 0;
    while i < |rows|
      invariant i <= |rows|
      invariant schemas == WithLinks(schemas0, rows[..i], kind)
    {
      assert rows[..i + 1][..i] == rows[..i];
      var s := FindSchema(schemas, rows[i].owner);
      if s < |schemas| {
        schemas := schemas[s := schemas[s].(linkList := schemas[s].linkList + [Link("TABLE", rows[i].tableName, kind, rows[i].name)])];
      }
      i := i + 1;
    }
    assert rows[..i] == rows;
  }

  /** The demo-filter loop, reassigning each schema's entries. */
  method ApplyDemoFilter(schemas0: seq<Schema>, mode: FilterMode, list: seq<TablePattern>) returns (schemas: seq<Schema>)
    ensures schemas == DemoFilter(schemas0, mode, list)
  {
    schemas := schemas0;
    var i := 0;
    while i < |schemas|
      invariant i <= |schemas| == |schemas0|
      invariant forall j :: 0 <= j < i ==> schemas[j] == DemoFilter(schemas0, mode, list)[j]
      invariant forall j :: i <= j < |schemas| ==> schemas[j] == schemas0[j]
    {
      var s := schemas[i];
      schemas := schemas[i := s.(tableFillList := FilterFillList(s.name, s.tableFillList, mode, list))];
      i := i + 1;
    }
  }
}
