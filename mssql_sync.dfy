/** The SQL Server sync run (`GoMssql`, src/ddl/mssql/index.ts) after discovery: the kinds without a
    directory are marked ignored, every other obj and fill entry is rendered and compared with
    its file, and each ends in `insert`, `update`, `nochange` or `error`. File access and the
    renderers are the functions of `Env`. */
module MssqlSync {
  import opened Wrappers
  import opened Text
  import opened Catalog
  import opened MssqlStat

  datatype FileWrite = FileWrite(path: string, text: string)

  /** What the run does with one item: the state it leaves and the write it attempts. */
  datatype Step = Step(state: ObjectState, write: Option<FileWrite>)

  /** The calls the run makes, as functions of their arguments. A file that is missing or empty
      reads as "". */
  datatype Env = Env(
    dir: (string, CatalogObject) -> Result<string>,   // getDir(object, schema, dirList, database)
    read: string -> Result<string>,                   // fsReadFile(path)
    ddl: (string, CatalogObject) -> Result<string>,   // getDdl(server, schema, object, config)
    desc: (string, CatalogObject) -> Result<string>,  // getDdlTableDesc(server, schema, object)
    format: string -> string,                         // format(text, { language: 'tsql' })
    fill: (string, TableFill) -> Result<string>,      // getTableFill(server, schema, table)
    writeOk: FileWrite -> bool)                       // fsWriteFile(path, text) reports no error

  predicate IsFinal(s: ObjectState)
  {
    s == Insert || s == Update || s == NoChange || s == Error
  }

  // ---------------------------------------------------------------------------------------------
  // The text written to a file

  function UseHeader(database: string): string
  {
    "USE [" + database + "]\nGO\n\n"
  }

  /** The text as the source composes it: the header, then the trimmed body. */
  function ComposedAsWritten(database: string, body: string): string
  {
    UseHeader(database) + body
  }

  /** The corrected composition: the composed text trimmed, so that an empty body does not leave a
      trailing blank line that the comparison with the trimmed file can never match. The run below
      writes `ComposedAsWritten`, as the source does. */
  function Composed(database: string, body: string): string
  {
    Trim(ComposedAsWritten(database, body))
  }

  /** Insert into a missing or empty file, update a file whose trimmed text differs, otherwise
      leave it; a write that fails is an error. */
  function Decide(path: string, current: string, text: string, writeOk: FileWrite -> bool): Step
  {
    var w := FileWrite(path, text);
    if |current| == 0 then Step(if writeOk(w) then Insert else Error, Some(w))
    else if text != Trim(current) then Step(if writeOk(w) then Update else Error, Some(w))
    else Step(NoChange, None)
  }

  lemma DecideSpec(path: string, current: string, text: string, writeOk: FileWrite -> bool)
    ensures var st := Decide(path, current, text, writeOk);
      IsFinal(st.state) &&
      (st.state == Insert <==> |current| == 0 && writeOk(FileWrite(path, text))) &&
      (st.state == Update <==> |current| > 0 && text != Trim(current) && writeOk(FileWrite(path, text))) &&
      (st.state == NoChange <==> |current| > 0 && text == Trim(current)) &&
      (st.write.Some? <==> st.state != NoChange) &&
      (st.write.Some? ==> st.write.value == FileWrite(path, text)) &&
      (st.state == Error <==> st.write.Some? && !writeOk(FileWrite(path, text)))
  {
  }

  /** What `Decide` writes, if anything, is the given text at the given path. */
  lemma DecideWrites(path: string, current: string, text: string, writeOk: FileWrite -> bool)
    ensures var st := Decide(path, current, text, writeOk);
      IsFinal(st.state) && (st.write.Some? ==> st.write.value == FileWrite(path, text))
  {
  }

  /** Every composed text starts with the database header. */
  lemma ComposedHead(database: string, body: string)
    ensures StartsWith(Composed(database, body), "USE [" + database + "]\nGO")
  {
    var p := "USE [" + database + "]\nGO";
    var s := ComposedAsWritten(database, body);
    assert s[..|p|] == p;
    assert p[0] == 'U' && p[|p| - 1] == 'O';
    TrimKeepsPrefix(s, p);
  }

  /** A file holding the composed text is left unchanged by the next run. */
  lemma ComposedIdempotent(path: string, database: string, body: string, writeOk: FileWrite -> bool)
    ensures var t := Composed(database, body);
      Decide(path, t, t, writeOk) == Step(NoChange, None)
  {
    ComposedHead(database, body);
    TrimIdempotent(ComposedAsWritten(database, body));
  }

  /** For a non-empty trimmed body the correction changes nothing: the text as written is already
      trimmed, and its file is left unchanged by the next run. */
  lemma ComposedAgrees(path: string, database: string, body: string, writeOk: FileWrite -> bool)
    requires body != [] && !IsSpace(body[0]) && !IsSpace(body[|body| - 1])
    ensures Composed(database, body) == ComposedAsWritten(database, body)
    ensures var t := ComposedAsWritten(database, body);
      Decide(path, t, t, writeOk) == Step(NoChange, None)
  {
    ComposedTrimmed(database, body);
    DecideTrimmed(path, ComposedAsWritten(database, body), writeOk);
  }

  lemma ComposedTrimmed(database: string, body: string)
    requires body != [] && !IsSpace(body[|body| - 1])
    ensures Trim(ComposedAsWritten(database, body)) == ComposedAsWritten(database, body)
  {
    assert UseHeader(database)[0] == 'U';
    TrimmedConcat(UseHeader(database), body);
  }

  /** A non-empty file that already holds its own trimmed text is left unchanged. */
  lemma DecideTrimmed(path: string, t: string, writeOk: FileWrite -> bool)
    requires |t| > 0 && Trim(t) == t
    ensures Decide(path, t, t, writeOk) == Step(NoChange, None)
  {
  }

  lemma TrimmedConcat(h: string, b: string)
    requires h != [] && !IsSpace(h[0]) && b != [] && !IsSpace(b[|b| - 1])
    ensures Trim(h + b) == h + b
  {
    var s := h + b;
    assert s[0] == h[0] && s[|s| - 1] == b[|b| - 1];
    TrimOfTrimmed(s);
  }

  /** As written, an empty body (a view or routine whose definition query returns no row) gives a
      text ending in a blank line; the file written with it never equals its own trim, so every
      run rewrites it. */
  lemma AsWrittenRewritesEmpty(path: string, database: string, writeOk: FileWrite -> bool)
    requires writeOk(FileWrite(path, ComposedAsWritten(database, "")))
    ensures var t := ComposedAsWritten(database, "");
      Decide(path, t, t, writeOk) == Step(Update, Some(FileWrite(path, t)))
  {
    var t := ComposedAsWritten(database, "");
    assert t[0] == 'U' && t[|t| - 1] == '\n';
    TrimShape(t);
    assert Trim(t) != t;
  }

  // ---------------------------------------------------------------------------------------------
  // One object, one fill entry

  /** The kinds whose text goes through the SQL formatter. */
  predicate IsFormatted(kind: string)
  {
    kind == "TABLE" || kind == "VIEW" || kind == "INDEX" || kind == "SEQUENCE"
  }

  /** The body written for an object: the trimmed definition, formatted for some kinds, followed
      by the table description for a table. */
  function ObjectBody(env: Env, schema: string, obj: CatalogObject, ddl: string): Result<string>
  {
    var t := Trim(ddl);
    var f := if IsFormatted(obj.kind) then Trim(env.format(t)) else t;
    if obj.kind == "TABLE" then
      var desc := env.desc(schema, obj);
      if desc.Err? then Err(desc.error) else Ok(Trim(f + "\n\n" + Trim(desc.value)))
    else Ok(f)
  }

  function ObjectStep(env: Env, database: string, schema: string, obj: CatalogObject): Step
  {
    var dir := env.dir(schema, obj);
    if dir.Err? then Step(Error, None)
    else
      var current := env.read(dir.value);
      if current.Err? then Step(Error, None)
      else
        var ddl := env.ddl(schema, obj);
        if ddl.Err? then Step(Error, None)
        else
          var body := ObjectBody(env, schema, obj, ddl.value);
          if body.Err? then Step(Error, None)
          else Decide(dir.value, current.value, ComposedAsWritten(database, body.value), env.writeOk)
  }

  /** A failure of the path, the read, the definition or the table description is an error and
      writes nothing; otherwise the header and the body, untrimmed, are compared with the trimmed
      file, and what is written is exactly that text. */
  lemma ObjectStepSpec(env: Env, database: string, schema: string, obj: CatalogObject)
    ensures var st := ObjectStep(env, database, schema, obj);
      IsFinal(st.state) &&
      ((env.dir(schema, obj).Err? ||
        env.read(env.dir(schema, obj).value).Err? ||
        env.ddl(schema, obj).Err? ||
        (obj.kind == "TABLE" && env.desc(schema, obj).Err?)) ==> st == Step(Error, None)) &&
      (env.dir(schema, obj).Ok? && env.read(env.dir(schema, obj).value).Ok? && env.ddl(schema, obj).Ok? &&
       ObjectBody(env, schema, obj, env.ddl(schema, obj).value).Ok? ==>
        st == Decide(env.dir(schema, obj).value, env.read(env.dir(schema, obj).value).value,
          UseHeader(database) + ObjectBody(env, schema, obj, env.ddl(schema, obj).value).value, env.writeOk)) &&
      (st.write.Some? ==>
        st.write.value.path == env.dir(schema, obj).value &&
        StartsWith(st.write.value.text, "USE [" + database + "]\nGO\n\n"))
  {
    var st := ObjectStep(env, database, schema, obj);
    var dir := env.dir(schema, obj);
    if dir.Ok? && env.read(dir.value).Ok? && env.ddl(schema, obj).Ok? {
      var body := ObjectBody(env, schema, obj, env.ddl(schema, obj).value);
      if body.Ok? {
        DecideWrites(dir.value, env.read(dir.value).value, ComposedAsWritten(database, body.value), env.writeOk);
        StartsWithConcat(UseHeader(database), body.value);
      }
    }
  }

  /** The run as written: an object whose body is empty (a view or routine whose definition query
      returns no row) is written again on every run, even when its file holds what the previous
      run wrote. */
  lemma ObjectStepRewritesEmpty(env: Env, database: string, schema: string, obj: CatalogObject)
    requires env.dir(schema, obj).Ok? && env.ddl(schema, obj).Ok?
    requires ObjectBody(env, schema, obj, env.ddl(schema, obj).value) == Ok("")
    requires env.read(env.dir(schema, obj).value) == Ok(ComposedAsWritten(database, ""))
    requires env.writeOk(FileWrite(env.dir(schema, obj).value, ComposedAsWritten(database, "")))
    ensures ObjectStep(env, database, schema, obj).state == Update
  {
    AsWrittenRewritesEmpty(env.dir(schema, obj).value, database, env.writeOk);
  }

  /** `getDir` is asked for the fill entry as an object of kind TABLE_FILL_FULL or
      TABLE_FILL_DEMO. */
  function FillObject(fill: TableFill): CatalogObject
  {
    CatalogObject(if fill.fill == Full then "TABLE_FILL_FULL" else "TABLE_FILL_DEMO", fill.name, Unprocessed)
  }

  function FillStep(env: Env, database: string, schema: string, fill: TableFill, ignoreExists: bool): Step
  {
    var dir := env.dir(schema, FillObject(fill));
    if dir.Err? then Step(Error, None)
    else
      var current := env.read(dir.value);
      if current.Err? then Step(Error, None)
      else if |current.value| > 0 && ignoreExists then Step(NoChange, None)
      else
        var text := env.fill(schema, fill);
        if text.Err? then Step(Error, None)
        else Decide(dir.value, current.value, ComposedAsWritten(database, Trim(text.value)), env.writeOk)
  }

  /** An existing file with `ignore_exists` set is left as it is, for full and demo entries alike,
      without rendering anything; failures are errors that write nothing; otherwise the header and
      the trimmed fill text are compared with the trimmed file. */
  lemma FillStepSpec(env: Env, database: string, schema: string, fill: TableFill, ignoreExists: bool)
    ensures var st := FillStep(env, database, schema, fill, ignoreExists);
      var dir := env.dir(schema, FillObject(fill));
      ((dir.Err? || env.read(dir.value).Err?) ==> st == Step(Error, None)) &&
      ((dir.Ok? && env.read(dir.value).Ok? && |env.read(dir.value).value| > 0 && ignoreExists) ==>
        st == Step(NoChange, None)) &&
      ((dir.Ok? && env.read(dir.value).Ok? && (|env.read(dir.value).value| == 0 || !ignoreExists) &&
        env.fill(schema, fill).Err?) ==> st == Step(Error, None)) &&
      ((dir.Ok? && env.read(dir.value).Ok? && (|env.read(dir.value).value| == 0 || !ignoreExists) &&
        env.fill(schema, fill).Ok?) ==>
        st == Decide(dir.value, env.read(dir.value).value,
          UseHeader(database) + Trim(env.fill(schema, fill).value), env.writeOk))
  {
  }

  /** Every fill step ends in a final state, and what it writes is the header and the trimmed
      fill text at the entry's path. */
  lemma FillStepWrites(env: Env, database: string, schema: string, fill: TableFill, ignoreExists: bool)
    ensures var st := FillStep(env, database, schema, fill, ignoreExists);
      IsFinal(st.state) &&
      (st.write.Some? ==>
        st.write.value.path == env.dir(schema, FillObject(fill)).value &&
        env.fill(schema, fill).Ok? &&
        st.write.value.text == UseHeader(database) + Trim(env.fill(schema, fill).value))
  {
    var st := FillStep(env, database, schema, fill, ignoreExists);
    var dir := env.dir(schema, FillObject(fill));
    if dir.Err? {
      assert st == Step(Error, None);
    } else {
      var current := env.read(dir.value);
      if current.Err? {
        assert st == Step(Error, None);
      } else if |current.value| > 0 && ignoreExists {
        assert st == Step(NoChange, None);
      } else {
        var text := env.fill(schema, fill);
        if text.Err? {
          assert st == Step(Error, None);
        } else {
          var body := Trim(text.value);
          assert st == Decide(dir.value, current.value, ComposedAsWritten(database, body), env.writeOk);
          DecideWrites(dir.value, current.value, ComposedAsWritten(database, body), env.writeOk);
        }
      }
    }
  }

  /** The run as written, for a fill entry: an empty fill script (a table without rows) is written
      again on every run unless `ignore_exists` is set. */
  lemma FillStepRewritesEmpty(env: Env, database: string, schema: string, fill: TableFill)
    requires env.dir(schema, FillObject(fill)).Ok?
    requires env.fill(schema, fill).Ok? && Trim(env.fill(schema, fill).value) == ""
    requires env.read(env.dir(schema, FillObject(fill)).value) == Ok(ComposedAsWritten(database, ""))
    requires env.writeOk(FileWrite(env.dir(schema, FillObject(fill)).value, ComposedAsWritten(database, "")))
    ensures FillStep(env, database, schema, fill, false).state == Update
  {
    AsWrittenRewritesEmpty(env.dir(schema, FillObject(fill)).value, database, env.writeOk);
  }

  // ---------------------------------------------------------------------------------------------
  // Ignore marking

  /** Some stat of schema `name` marks `kind` ignored among its first `m` entries. */
  predicate StatIgnores(stat: Stat, m: nat, name: string, kind: string)
  {
    stat.schema == name && m <= |stat.objectList| &&
    exists e :: 0 <= e < m && stat.objectList[e].kind == kind && stat.objectList[e].isIgnore
  }

  /** One of the first `n` stats marks `kind` of schema `name` ignored. */
  predicate IgnoredUpTo(stats: seq<Stat>, n: nat, name: string, kind: string)
    requires n <= |stats|
  {
    exists s :: 0 <= s < n && StatIgnores(stats[s], |stats[s].objectList|, name, kind)
  }

  function MarkedWith(obj: CatalogObject, marked: bool): CatalogObject
  {
    if marked then obj.(state := Ignore) else obj
  }

  /** Everything but the object states is kept. */
  predicate SameButStates(a: seq<Schema>, b: seq<Schema>)
  {
    |a| == |b| &&
    forall i :: 0 <= i < |a| ==>
      a[i].name == b[i].name && a[i].linkList == b[i].linkList && a[i].tableFillList == b[i].tableFillList &&
      |a[i].objectList| == |b[i].objectList|
  }

  /** `objectList.forEach(o => { if (o.kind === kind) o.state = 'ignore' })` on schema `at`. */
  method MarkKind(schemas: seq<Schema>, at: nat, kind: string) returns (r: seq<Schema>)
    requires at < |schemas|
    ensures SameButStates(r, schemas)
    ensures forall i :: 0 <= i < |r| && i != at ==> r[i] == schemas[i]
    ensures forall j :: 0 <= j < |r[at].objectList| ==>
      r[at].objectList[j] == MarkedWith(schemas[at].objectList[j], schemas[at].objectList[j].kind == kind)
  {
    var objects := schemas[at].objectList;
    var j := 0;
    while j < |objects|
      invariant 0 <= j <= |objects| && |objects| == |schemas[at].objectList|
      invariant forall m :: 0 <= m < |objects| ==>
        objects[m] == if m < j then MarkedWith(schemas[at].objectList[m], schemas[at].objectList[m].kind == kind)
                      else schemas[at].objectList[m]
    {
      if objects[j].kind == kind {
        objects := objects[j := objects[j].(state := Ignore)];
      }
      j := j + 1;
    }
    r := schemas[at := schemas[at].(objectList := objects)];
  }

  /** The marking loop over the stats: every object of an ignored kind in the first schema of the
      stat's name becomes `ignore`; nothing else changes. */
  method MarkIgnored(schemas: seq<Schema>, stats: seq<Stat>) returns (r: seq<Schema>)
    ensures SameButStates(r, schemas)
    ensures forall i, j :: 0 <= i < |r| && 0 <= j < |r[i].objectList| ==>
      r[i].objectList[j] == MarkedWith(schemas[i].objectList[j],
        IsFirstOfName(schemas, i) && IgnoredUpTo(stats, |stats|, schemas[i].name, schemas[i].objectList[j].kind))
  {
    r := schemas;
    var s := 0;
    while s < |stats|
      invariant 0 <= s <= |stats|
      invariant SameButStates(r, schemas)
      invariant forall i, j :: 0 <= i < |r| && 0 <= j < |r[i].objectList| ==>
        r[i].objectList[j] == MarkedWith(schemas[i].objectList[j],
          IsFirstOfName(schemas, i) && IgnoredUpTo(stats, s, schemas[i].name, schemas[i].objectList[j].kind))
    {
      r := MarkStat(schemas, stats, s, r);
      s := s + 1;
    }
  }

  /** One stat's entries: the marking after stat `s` from the marking before it. */
  method MarkStat(schemas: seq<Schema>, stats: seq<Stat>, s: nat, r0: seq<Schema>) returns (r: seq<Schema>)
    requires s < |stats| && SameButStates(r0, schemas)
    requires forall i, j :: 0 <= i < |r0| && 0 <= j < |r0[i].objectList| ==>
      r0[i].objectList[j] == MarkedWith(schemas[i].objectList[j],
        IsFirstOfName(schemas, i) && IgnoredUpTo(stats, s, schemas[i].name, schemas[i].objectList[j].kind))
    ensures SameButStates(r, schemas)
    ensures forall i, j :: 0 <= i < |r| && 0 <= j < |r[i].objectList| ==>
      r[i].objectList[j] == MarkedWith(schemas[i].objectList[j],
        IsFirstOfName(schemas, i) && IgnoredUpTo(stats, s + 1, schemas[i].name, schemas[i].objectList[j].kind))
  {
    var stat := stats[s];
    r := r0;
    var e := 0;
    while e < |stat.objectList|
      invariant 0 <= e <= |stat.objectList|
      invariant SameButStates(r, schemas)
      invariant forall i, j :: 0 <= i < |r| && 0 <= j < |r[i].objectList| ==>
        r[i].objectList[j] == MarkedWith(schemas[i].objectList[j],
          IsFirstOfName(schemas, i) &&
          (IgnoredUpTo(stats, s, schemas[i].name, schemas[i].objectList[j].kind) ||
           StatIgnores(stat, e, schemas[i].name, schemas[i].objectList[j].kind)))
    {
      r := MarkEntry(schemas, stats, s, e, r);
      e := e + 1;
    }
    forall i, j | 0 <= i < |r| && 0 <= j < |r[i].objectList|
      ensures IgnoredUpTo(stats, s + 1, schemas[i].name, schemas[i].objectList[j].kind) <==>
        IgnoredUpTo(stats, s, schemas[i].name, schemas[i].objectList[j].kind) ||
        StatIgnores(stat, e, schemas[i].name, schemas[i].objectList[j].kind)
    {
      var name, kind := schemas[i].name, schemas[i].objectList[j].kind;
      if IgnoredUpTo(stats, s + 1, name, kind) {
        var t :| 0 <= t < s + 1 && StatIgnores(stats[t], |stats[t].objectList|, name, kind);
        if t < s {
          assert IgnoredUpTo(stats, s, name, kind);
        }
      }
    }
  }

  /** One entry of stat `s`: when it is ignored, its kind is marked in the first schema of the
      stat's name. */
  method MarkEntry(schemas: seq<Schema>, stats: seq<Stat>, s: nat, e: nat, r0: seq<Schema>) returns (r: seq<Schema>)
    requires s < |stats| && e < |stats[s].objectList| && SameButStates(r0, schemas)
    requires forall i, j :: 0 <= i < |r0| && 0 <= j < |r0[i].objectList| ==>
      r0[i].objectList[j] == MarkedWith(schemas[i].objectList[j],
        IsFirstOfName(schemas, i) &&
        (IgnoredUpTo(stats, s, schemas[i].name, schemas[i].objectList[j].kind) ||
         StatIgnores(stats[s], e, schemas[i].name, schemas[i].objectList[j].kind)))
    ensures SameButStates(r, schemas)
    ensures forall i, j :: 0 <= i < |r| && 0 <= j < |r[i].objectList| ==>
      r[i].objectList[j] == MarkedWith(schemas[i].objectList[j],
        IsFirstOfName(schemas, i) &&
        (IgnoredUpTo(stats, s, schemas[i].name, schemas[i].objectList[j].kind) ||
         StatIgnores(stats[s], e + 1, schemas[i].name, schemas[i].objectList[j].kind)))
  {
    var stat := stats[s];
    var entry := stat.objectList[e];
    r := r0;
    var at := FindSchema(r0, stat.schema);
    FindSchemaSameNames(r0, schemas, stat.schema);
    if entry.isIgnore && at < |r0| {
      r := MarkKind(r0, at, entry.kind);
    }
    forall i, j | 0 <= i < |r| && 0 <= j < |r[i].objectList|
      ensures r[i].objectList[j] == MarkedWith(schemas[i].objectList[j],
        IsFirstOfName(schemas, i) &&
        (IgnoredUpTo(stats, s, schemas[i].name, schemas[i].objectList[j].kind) ||
         StatIgnores(stat, e + 1, schemas[i].name, schemas[i].objectList[j].kind)))
    {
      var name, kind := schemas[i].name, schemas[i].objectList[j].kind;
      assert StatIgnores(stat, e + 1, name, kind) <==>
        StatIgnores(stat, e, name, kind) || (stat.schema == name && entry.kind == kind && entry.isIgnore);
      if i == at && entry.isIgnore {
        assert IsFirstOfName(schemas, i);
      }
    }
  }

  /** With the stats `getStat` computes, an object of the first schema of its name is marked
      exactly when its kind has no directory. */
  lemma IgnoreMarkingSpec(schemas: seq<Schema>, dirList: DirList, stats: seq<Stat>, i: nat, j: nat)
    requires |stats| == |schemas| && forall t :: 0 <= t < |schemas| ==> stats[t] == StatOf(schemas[t], dirList)
    requires i < |schemas| && j < |schemas[i].objectList| && IsFirstOfName(schemas, i)
    ensures IgnoredUpTo(stats, |stats|, schemas[i].name, schemas[i].objectList[j].kind) <==>
      Ignored(dirList, schemas[i].objectList[j].kind)
  {
    var name, kind := schemas[i].name, schemas[i].objectList[j].kind;
    if Ignored(dirList, kind) {
      StatKindsSpec(schemas[i], dirList);
      assert HasKind(schemas[i].objectList, kind);
      var e :| 0 <= e < |stats[i].objectList| && stats[i].objectList[e].kind == kind;
      assert StatIgnores(stats[i], |stats[i].objectList|, name, kind);
    }
  }

  // ---------------------------------------------------------------------------------------------
  // Progress and processing

  function ActiveObjects(objects: seq<CatalogObject>): nat
  {
    if objects == [] then 0
    else ActiveObjects(objects[..|objects| - 1]) + (if objects[|objects| - 1].state != Ignore then 1 else 0)
  }

  function ActiveFills(fills: seq<TableFill>): nat
  {
    if fills == [] then 0
    else ActiveFills(fills[..|fills| - 1]) + (if fills[|fills| - 1].state != Ignore then 1 else 0)
  }

  function Active(schema: Schema): nat
  {
    ActiveObjects(schema.objectList) + ActiveFills(schema.tableFillList)
  }

  /** `totalObjectCount`: the items not ignored, over all schemas. */
  function Total(schemas: seq<Schema>): nat
  {
    if schemas == [] then 0 else Total(schemas[..|schemas| - 1]) + Active(schemas[|schemas| - 1])
  }

  /** The items the loop visits: those not ignored, in the schemas that have objects. */
  function Visited(schemas: seq<Schema>): nat
  {
    if schemas == [] then 0
    else
      var last := schemas[|schemas| - 1];
      Visited(schemas[..|schemas| - 1]) + (if last.objectList != [] then Active(last) else 0)
  }

  /** The progress counter never passes the total. */
  lemma {:induction false} VisitedAtMostTotal(schemas: seq<Schema>)
    ensures Visited(schemas) <= Total(schemas)
  {
    if schemas != [] {
      VisitedAtMostTotal(schemas[..|schemas| - 1]);
    }
  }

  function ObjectAfter(env: Env, database: string, schema: string, obj: CatalogObject): CatalogObject
  {
    if obj.state == Ignore then obj else obj.(state := ObjectStep(env, database, schema, obj).state)
  }

  function FillAfter(env: Env, database: string, schema: string, fill: TableFill, ignoreExists: bool): TableFill
  {
    if fill.state == Ignore then fill else fill.(state := FillStep(env, database, schema, fill, ignoreExists).state)
  }

  /** A schema after its two loops. */
  function SchemaAfter(env: Env, database: string, schema: Schema, ignoreExists: bool): Schema
  {
    schema.(
      objectList := seq(|schema.objectList|, j requires 0 <= j < |schema.objectList| =>
        ObjectAfter(env, database, schema.name, schema.objectList[j])),
      tableFillList := seq(|schema.tableFillList|, j requires 0 <= j < |schema.tableFillList| =>
        FillAfter(env, database, schema.name, schema.tableFillList[j], ignoreExists)))
  }

  /** After the object loop every object keeps its kind and name and is either ignored, as it was
      before, or in a final state. */
  lemma ObjectsAfterFinal(env: Env, database: string, schema: Schema, ignoreExists: bool, j: nat)
    requires j < |schema.objectList|
    ensures var o := SchemaAfter(env, database, schema, ignoreExists).objectList[j];
      o.kind == schema.objectList[j].kind && o.name == schema.objectList[j].name &&
      (o.state == Ignore <==> schema.objectList[j].state == Ignore) &&
      (o.state == Ignore || IsFinal(o.state))
  {
    ObjectStepSpec(env, database, schema.name, schema.objectList[j]);
  }

  /** After the fill loop every entry is either ignored, as it was before, or in a final state. */
  lemma FillsAfterFinal(env: Env, database: string, schema: Schema, ignoreExists: bool, j: nat)
    requires j < |schema.tableFillList|
    ensures var f := SchemaAfter(env, database, schema, ignoreExists).tableFillList[j];
      f.name == schema.tableFillList[j].name && f.fill == schema.tableFillList[j].fill &&
      (f.state == Ignore <==> schema.tableFillList[j].state == Ignore) &&
      (f.state == Ignore || IsFinal(f.state))
  {
    FillStepWrites(env, database, schema.name, schema.tableFillList[j], ignoreExists);
  }

  /** The object loop of one schema: each object not ignored gets the state of its step and
      advances the counter once. */
  method ProcessObjects(env: Env, database: string, schema: Schema) returns (objects: seq<CatalogObject>, visited: nat)
    ensures |objects| == |schema.objectList|
    ensures forall m :: 0 <= m < |objects| ==> objects[m] == ObjectAfter(env, database, schema.name, schema.objectList[m])
    ensures visited == ActiveObjects(schema.objectList)
  {
    objects := schema.objectList;
    visited := 0;
    var j := 0;
    while j < |objects|
      invariant 0 <= j <= |objects| && |objects| == |schema.objectList|
      invariant visited == ActiveObjects(schema.objectList[..j])
      invariant forall m :: 0 <= m < |objects| ==>
        objects[m] == if m < j then ObjectAfter(env, database, schema.name, schema.objectList[m]) else schema.objectList[m]
    {
      assert schema.objectList[..j + 1][..j] == schema.objectList[..j];
      if objects[j].state != Ignore {
        visited := visited + 1;
        var step := ObjectStep(env, database, schema.name, objects[j]);
        objects := objects[j := objects[j].(state := step.state)];
      }
      j := j + 1;
    }
    assert schema.objectList[..j] == schema.objectList;
  }

  /** The fill loop of one schema, in the same way. */
  method ProcessFills(env: Env, database: string, schema: Schema, ignoreExists: bool)
    returns (fills: seq<TableFill>, visited: nat)
    ensures |fills| == |schema.tableFillList|
    ensures forall m :: 0 <= m < |fills| ==>
      fills[m] == FillAfter(env, database, schema.name, schema.tableFillList[m], ignoreExists)
    ensures visited == ActiveFills(schema.tableFillList)
  {
    fills := schema.tableFillList;
    visited := 0;
    var k := 0;
    while k < |fills|
      invariant 0 <= k <= |fills| && |fills| == |schema.tableFillList|
      invariant visited == ActiveFills(schema.tableFillList[..k])
      invariant forall m :: 0 <= m < |fills| ==>
        fills[m] == if m < k then FillAfter(env, database, schema.name, schema.tableFillList[m], ignoreExists)
                    else schema.tableFillList[m]
    {
      assert schema.tableFillList[..k + 1][..k] == schema.tableFillList[..k];
      if fills[k].state != Ignore {
        visited := visited + 1;
        var step := FillStep(env, database, schema.name, fills[k], ignoreExists);
        fills := fills[k := fills[k].(state := step.state)];
      }
      k := k + 1;
    }
    assert schema.tableFillList[..k] == schema.tableFillList;
  }

  /** The two loops over one schema: objects first, then fill entries. */
  method ProcessSchema(env: Env, database: string, schema: Schema, ignoreExists: bool)
    returns (s: Schema, visited: nat)
    ensures s == SchemaAfter(env, database, schema, ignoreExists)
    ensures visited == Active(schema)
  {
    var objects, visitedObjects := ProcessObjects(env, database, schema);
    var fills, visitedFills := ProcessFills(env, database, schema, ignoreExists);
    s := schema.(objectList := objects, tableFillList := fills);
    visited := visitedObjects + visitedFills;
  }

  /** The loop over the schemas: a schema without objects is skipped, fill entries included. */
  method ProcessAll(env: Env, database: string, schemas: seq<Schema>, ignoreExists: bool)
    returns (r: seq<Schema>, currentObjectIdx: nat)
    ensures |r| == |schemas|
    ensures forall i :: 0 <= i < |schemas| ==>
      r[i] == if schemas[i].objectList == [] then schemas[i] else SchemaAfter(env, database, schemas[i], ignoreExists)
    ensures currentObjectIdx == Visited(schemas) && currentObjectIdx <= Total(schemas)
  {
    r := schemas;
    currentObjectIdx := 0;
    var i := 0;
    while i < |schemas|
      invariant 0 <= i <= |schemas| && |r| == |schemas|
      invariant currentObjectIdx == Visited(schemas[..i])
      invariant forall m :: 0 <= m < |schemas| ==>
        r[m] == if m < i && schemas[m].objectList != [] then SchemaAfter(env, database, schemas[m], ignoreExists)
                else schemas[m]
    {
      assert schemas[..i + 1][..i] == schemas[..i];
      if |schemas[i].objectList| > 0 {
        var s, visited := ProcessSchema(env, database, schemas[i], ignoreExists);
        r := r[i := s];
        currentObjectIdx := currentObjectIdx + visited;
      }
      i := i + 1;
    }
    assert schemas[..i] == schemas;
    VisitedAtMostTotal(schemas);
  }

  // ---------------------------------------------------------------------------------------------
  // The final tally

  datatype TallyLine = TallyLine(heading: string, errors: nat, noChanges: nat, creates: nat, updates: nat)

  function CountState(objects: seq<CatalogObject>, kind: string, state: ObjectState): nat
  {
    if objects == [] then 0
    else
      var o := objects[|objects| - 1];
      CountState(objects[..|objects| - 1], kind, state) + (if o.kind == kind && o.state == state then 1 else 0)
  }

  function CountFillState(fills: seq<TableFill>, fill: FillKind, state: ObjectState): nat
  {
    if fills == [] then 0
    else
      var f := fills[|fills| - 1];
      CountFillState(fills[..|fills| - 1], fill, state) + (if f.fill == fill && f.state == state then 1 else 0)
  }

  function CountFill(fills: seq<TableFill>, fill: FillKind): nat
  {
    if fills == [] then 0
    else CountFill(fills[..|fills| - 1], fill) + (if fills[|fills| - 1].fill == fill then 1 else 0)
  }

  function KindLine(objects: seq<CatalogObject>, kind: string): TallyLine
  {
    TallyLine(kind, CountState(objects, kind, Error), CountState(objects, kind, NoChange),
      CountState(objects, kind, Insert), CountState(objects, kind, Update))
  }

  function FillLine(fills: seq<TableFill>, fill: FillKind): TallyLine
  {
    TallyLine(if fill == Full then "TABLE FILL FULL" else "TABLE FILL DEMO",
      CountFillState(fills, fill, Error), CountFillState(fills, fill, NoChange),
      CountFillState(fills, fill, Insert), CountFillState(fills, fill, Update))
  }

  /** The lines for one stat: each kind not ignored, then the full and the demo entries when their
      directory is set and there are any. */
  function StatTally(stat: Stat, schemas: seq<Schema>, fullDir: bool, demoDir: bool): seq<TallyLine>
  {
    var at := FindSchema(schemas, stat.schema);
    var objects := if at < |schemas| then schemas[at].objectList else [];
    var fills := if at < |schemas| then schemas[at].tableFillList else [];
    var kinds := Filter(stat.objectList, (k: KindStat) => !k.isIgnore);
    seq(|kinds|, j requires 0 <= j < |kinds| => KindLine(objects, kinds[j].kind)) +
    (if fullDir && CountFill(fills, Full) > 0 then [FillLine(fills, Full)] else []) +
    (if demoDir && CountFill(fills, Demo) > 0 then [FillLine(fills, Demo)] else [])
  }

  /** The tally of the stats that have entries, with the schema each belongs to. */
  function FinalTally(stats: seq<Stat>, schemas: seq<Schema>, fullDir: bool, demoDir: bool): seq<(string, seq<TallyLine>)>
  {
    var shown := Filter(stats, (s: Stat) => s.objectList != []);
    seq(|shown|, j requires 0 <= j < |shown| => (shown[j].schema, StatTally(shown[j], schemas, fullDir, demoDir)))
  }

  /** When every object of a kind is in a final state, the four counts of its line add up to the
      number of objects of that kind. */
  lemma {:induction false} KindLineComplete(objects: seq<CatalogObject>, kind: string)
    requires forall j :: 0 <= j < |objects| && objects[j].kind == kind ==> IsFinal(objects[j].state)
    ensures var l := KindLine(objects, kind);
      l.errors + l.noChanges + l.creates + l.updates == CountKind(objects, kind)
  {
    if objects != [] {
      var init := objects[..|objects| - 1];
      forall j | 0 <= j < |init| && init[j].kind == kind
        ensures IsFinal(init[j].state)
      {
        assert init[j] == objects[j];
      }
      KindLineComplete(init, kind);
    }
  }

  lemma {:induction false} FillLineComplete(fills: seq<TableFill>, fill: FillKind)
    requires forall j :: 0 <= j < |fills| && fills[j].fill == fill ==> IsFinal(fills[j].state)
    ensures var l := FillLine(fills, fill);
      l.errors + l.noChanges + l.creates + l.updates == CountFill(fills, fill)
  {
    if fills != [] {
      var init := fills[..|fills| - 1];
      forall j | 0 <= j < |init| && init[j].fill == fill
        ensures IsFinal(init[j].state)
      {
        assert init[j] == fills[j];
      }
      FillLineComplete(init, fill);
    }
  }

  // ---------------------------------------------------------------------------------------------
  // The run

  /** From the discovered schemas: the stats, the ignore marking, the total, the two processing
      loops and the tally, which changes nothing. */
  method GoMssql(env: Env, database: string, schemas: seq<Schema>, dirList: DirList,
                 ignoreExists: bool, fullDir: bool, demoDir: bool)
    returns (r: seq<Schema>, totalObjectCount: nat, currentObjectIdx: nat, tally: seq<(string, seq<TallyLine>)>)
    ensures |r| == |schemas|
    ensures forall i :: 0 <= i < |r| ==> r[i].name == schemas[i].name && r[i].linkList == schemas[i].linkList
    ensures forall i, j :: 0 <= i < |r| && 0 <= j < |r[i].objectList| && schemas[i].objectList != [] ==>
      j < |schemas[i].objectList| &&
      (r[i].objectList[j].state == Ignore || IsFinal(r[i].objectList[j].state)) &&
      (IsFirstOfName(schemas, i) && Ignored(dirList, schemas[i].objectList[j].kind) ==> r[i].objectList[j].state == Ignore)
    ensures currentObjectIdx <= totalObjectCount
  {
    var stats := GetStat(schemas, dirList);
    var marked := MarkIgnored(schemas, stats);
    totalObjectCount := Total(marked);
    r, currentObjectIdx := ProcessAll(env, database, marked, ignoreExists);
    tally := FinalTally(stats, r, fullDir, demoDir);
    forall i, j | 0 <= i < |r| && 0 <= j < |r[i].objectList| && schemas[i].objectList != []
      ensures (r[i].objectList[j].state == Ignore || IsFinal(r[i].objectList[j].state)) &&
        (IsFirstOfName(schemas, i) && Ignored(dirList, schemas[i].objectList[j].kind) ==> r[i].objectList[j].state == Ignore)
    {
      ObjectsAfterFinal(env, database, marked[i], ignoreExists, j);
      if IsFirstOfName(schemas, i) && Ignored(dirList, schemas[i].objectList[j].kind) {
        IgnoreMarkingSpec(schemas, dirList, stats, i, j);
      }
    }
  }
}
