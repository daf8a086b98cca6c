/** `getStat` (src/ddl/mssql/getStatList.ts): per schema, how many objects of each kind discovery
    found, and whether that kind has no output directory and is therefore ignored. */
module MssqlStat {
  import opened Catalog

  datatype KindStat = KindStat(kind: string, count: nat, isIgnore: bool)

  datatype Stat = Stat(schema: string, objectList: seq<KindStat>)

  /** The output directory configured per object kind; a kind without an entry is `undefined`. */
  type DirList = map<string, string>

  /** `!dirList[kind]`: no directory, or an empty one. */
  predicate Ignored(dirList: DirList, kind: string)
  {
    kind !in dirList || dirList[kind] == ""
  }

  /** `Array.from(new Set(objects.map(m => m.kind)))`: each kind once, where it first appears. */
  function UniqueKinds(objects: seq<CatalogObject>): seq<string>
  {
    if objects == [] then []
    else
      var u := UniqueKinds(objects[..|objects| - 1]);
      var k := objects[|objects| - 1].kind;
      if k in u then u else u + [k]
  }

  /** `objects.filter(f => f.kind === kind).length`. */
  function CountKind(objects: seq<CatalogObject>, kind: string): nat
  {
    if objects == [] then 0
    else CountKind(objects[..|objects| - 1], kind) + (if objects[|objects| - 1].kind == kind then 1 else 0)
  }

  /** The stat `getStat` pushes for one schema. */
  function StatOf(schema: Schema, dirList: DirList): Stat
  {
    var u := UniqueKinds(schema.objectList);
    Stat(schema.name, seq(|u|, j requires 0 <= j < |u| =>
      KindStat(u[j], CountKind(schema.objectList, u[j]), Ignored(dirList, u[j]))))
  }

  /** The two `forEach` loops: one stat per schema, one entry per distinct kind pushed onto the
      last stat. */
  method GetStat(schemas: seq<Schema>, dirList: DirList) returns (stats: seq<Stat>)
    ensures |stats| == |schemas|
    ensures forall i :: 0 <= i < |schemas| ==> stats[i] == StatOf(schemas[i], dirList)
  {
    stats := [];
    var i := 0;
    while i < |schemas|
      invariant 0 <= i <= |schemas| && |stats| == i
      invariant forall m :: 0 <= m < i ==> stats[m] == StatOf(schemas[m], dirList)
    {
      var objects := schemas[i].objectList;
      var kinds: seq<string> := [];
      var j := 0;
      while j < |objects|
        invariant 0 <= j <= |objects|
        invariant kinds == UniqueKinds(objects[..j])
      {
        assert objects[..j + 1][..j] == objects[..j];
        if objects[j].kind !in kinds {
          kinds := kinds + [objects[j].kind];
        }
        j := j + 1;
      }
      assert objects[..j] == objects;
      stats := stats + [Stat(schemas[i].name, [])];
      var k := 0;
      while k < |kinds|
        invariant 0 <= k <= |kinds| && |stats| == i + 1
        invariant forall m :: 0 <= m < i ==> stats[m] == StatOf(schemas[m], dirList)
        invariant stats[i].schema == schemas[i].name && |stats[i].objectList| == k
        invariant forall m :: 0 <= m < k ==>
          stats[i].objectList[m] == KindStat(kinds[m], CountKind(objects, kinds[m]), Ignored(dirList, kinds[m]))
      {
        var kind := kinds[k];
        var isIgnore := !(kind in dirList && dirList[kind] != "");
        var last := stats[i];
        stats := stats[i := last.(objectList := last.objectList + [KindStat(kind, CountKind(objects, kind), isIgnore)])];
        k := k + 1;
      }
      i := i + 1;
    }
  }

  // ---------------------------------------------------------------------------------------------
  // What the stat says

  predicate HasKind(objects: seq<CatalogObject>, kind: string)
  {
    exists j :: 0 <= j < |objects| && objects[j].kind == kind
  }

  predicate DistinctKinds(u: seq<string>)
  {
    forall a, b :: 0 <= a < b < |u| ==> u[a] != u[b]
  }

  /** The index of the first object of `kind`; `|objects|` when there is none. */
  function FirstOfKind(objects: seq<CatalogObject>, kind: string): (i: nat)
    ensures i <= |objects|
    ensures i < |objects| ==> objects[i].kind == kind
  {
    if objects == [] then 0
    else if objects[0].kind == kind then 0
    else 1 + FirstOfKind(objects[1..], kind)
  }

  /** No object before the first index has the kind. */
  lemma {:induction false} FirstOfKindBefore(objects: seq<CatalogObject>, kind: string, j: nat)
    requires j < FirstOfKind(objects, kind)
    ensures objects[j].kind != kind
  {
    if j > 0 {
      FirstOfKindBefore(objects[1..], kind, j - 1);
      assert objects[1..][j - 1] == objects[j];
    }
  }

  /** The first index of a kind is characterised by its contract alone. */
  lemma FirstOfKindIs(objects: seq<CatalogObject>, kind: string, i: nat)
    requires i < |objects| && objects[i].kind == kind
    requires forall j :: 0 <= j < i ==> objects[j].kind != kind
    ensures FirstOfKind(objects, kind) == i
  {
    if i < FirstOfKind(objects, kind) {
      FirstOfKindBefore(objects, kind, i);
    }
  }

  lemma FirstOfKindPrefix(objects: seq<CatalogObject>, m: nat, kind: string)
    requires m <= |objects| && FirstOfKind(objects[..m], kind) < m
    ensures FirstOfKind(objects, kind) == FirstOfKind(objects[..m], kind)
  {
    var i := FirstOfKind(objects[..m], kind);
    assert objects[i] == objects[..m][i];
    forall j | 0 <= j < i
      ensures objects[j].kind != kind
    {
      FirstOfKindBefore(objects[..m], kind, j);
      assert objects[..m][j] == objects[j];
    }
    FirstOfKindIs(objects, kind, i);
  }

  /** The kinds present after one more object: the earlier ones and the new object's. */
  lemma HasKindSnoc(objects: seq<CatalogObject>, x: string)
    requires |objects| > 0
    ensures HasKind(objects, x) <==> HasKind(objects[..|objects| - 1], x) || x == objects[|objects| - 1].kind
  {
    var init := objects[..|objects| - 1];
    if HasKind(objects, x) {
      var j :| 0 <= j < |objects| && objects[j].kind == x;
      if j < |init| {
        assert init[j] == objects[j];
      }
    }
    if HasKind(init, x) {
      var j :| 0 <= j < |init| && init[j].kind == x;
      assert objects[j] == init[j];
    }
  }

  /** A kind already present keeps its first index when an object is added. */
  lemma FirstOfKindSnoc(objects: seq<CatalogObject>, x: string)
    requires |objects| > 0 && HasKind(objects[..|objects| - 1], x)
    ensures FirstOfKind(objects, x) == FirstOfKind(objects[..|objects| - 1], x) < |objects| - 1
  {
    var init := objects[..|objects| - 1];
    var j :| 0 <= j < |init| && init[j].kind == x;
    if FirstOfKind(init, x) > j {
      FirstOfKindBefore(init, x, j);
    }
    FirstOfKindPrefix(objects, |objects| - 1, x);
  }

  /** A kind absent before the last object first appears at the last index. */
  lemma FirstOfKindNew(objects: seq<CatalogObject>)
    requires |objects| > 0 && !HasKind(objects[..|objects| - 1], objects[|objects| - 1].kind)
    ensures FirstOfKind(objects, objects[|objects| - 1].kind) == |objects| - 1
  {
    var n := |objects| - 1;
    forall j | 0 <= j < n
      ensures objects[j].kind != objects[n].kind
    {
      assert objects[..n][j] == objects[j];
    }
    FirstOfKindIs(objects, objects[n].kind, n);
  }

  /** The kinds listed are exactly the kinds present. */
  lemma {:induction false} UniqueKindsHas(objects: seq<CatalogObject>)
    ensures forall k :: k in UniqueKinds(objects) <==> HasKind(objects, k)
  {
    if |objects| > 0 {
      UniqueKindsHas(objects[..|objects| - 1]);
      forall x
        ensures x in UniqueKinds(objects) <==> HasKind(objects, x)
      {
        HasKindSnoc(objects, x);
      }
    }
  }

  /** The kinds of `u` come in the order of their first appearance in `objects`. */
  predicate InFirstOrder(objects: seq<CatalogObject>, u: seq<string>)
  {
    forall a, b :: 0 <= a < b < |u| ==> FirstOfKind(objects, u[a]) < FirstOfKind(objects, u[b])
  }

  /** Ordered kinds that keep their first indices when an object is added stay ordered. */
  lemma InFirstOrderSnoc(objects: seq<CatalogObject>, u: seq<string>)
    requires |objects| > 0 && InFirstOrder(objects[..|objects| - 1], u)
    requires forall j :: 0 <= j < |u| ==> FirstOfKind(objects, u[j]) == FirstOfKind(objects[..|objects| - 1], u[j])
    ensures InFirstOrder(objects, u)
  {
  }

  /** A kind first found at the last index can be appended to ordered kinds found before it. */
  lemma InFirstOrderAppend(objects: seq<CatalogObject>, u: seq<string>, k: string)
    requires InFirstOrder(objects, u) && FirstOfKind(objects, k) == |objects| - 1
    requires forall j :: 0 <= j < |u| ==> FirstOfKind(objects, u[j]) < |objects| - 1
    ensures InFirstOrder(objects, u + [k])
  {
    var v := u + [k];
    forall a, b | 0 <= a < b < |v|
      ensures FirstOfKind(objects, v[a]) < FirstOfKind(objects, v[b])
    {
      assert v[a] == u[a];
      if b < |u| {
        assert v[b] == u[b];
      } else {
        assert v[b] == k;
      }
    }
  }

  /** The kinds listed come in the order of their first appearance. */
  lemma {:induction false} UniqueKindsOrdered(objects: seq<CatalogObject>)
    ensures InFirstOrder(objects, UniqueKinds(objects))
  {
    if |objects| > 0 {
      var n := |objects| - 1;
      var init := objects[..n];
      var u0 := UniqueKinds(init);
      var k := objects[n].kind;
      UniqueKindsOrdered(init);
      UniqueKindsHas(init);
      forall j | 0 <= j < |u0|
        ensures FirstOfKind(objects, u0[j]) == FirstOfKind(init, u0[j]) < n
      {
        assert u0[j] in u0;
        FirstOfKindSnoc(objects, u0[j]);
      }
      InFirstOrderSnoc(objects, u0);
      if k !in u0 {
        FirstOfKindNew(objects);
        InFirstOrderAppend(objects, u0, k);
      }
    }
  }

  /** The kinds are distinct, they are exactly the kinds present, and they come in the order of
      their first appearance. */
  lemma UniqueKindsSpec(objects: seq<CatalogObject>)
    ensures var u := UniqueKinds(objects);
      DistinctKinds(u) &&
      (forall k :: k in u <==> HasKind(objects, k)) &&
      (forall a, b :: 0 <= a < b < |u| ==> FirstOfKind(objects, u[a]) < FirstOfKind(objects, u[b]))
  {
    UniqueKindsHas(objects);
    UniqueKindsOrdered(objects);
  }

  lemma {:induction false} CountKindAbsent(objects: seq<CatalogObject>, kind: string)
    requires !HasKind(objects, kind)
    ensures CountKind(objects, kind) == 0
  {
    if objects != [] {
      var init := objects[..|objects| - 1];
      assert !HasKind(init, kind) by {
        forall j | 0 <= j < |init|
          ensures init[j].kind != kind
        {
          assert init[j] == objects[j];
        }
      }
      CountKindAbsent(init, kind);
    }
  }

  lemma {:induction false} CountKindPresent(objects: seq<CatalogObject>, kind: string)
    requires HasKind(objects, kind)
    ensures CountKind(objects, kind) >= 1
  {
    var n := |objects| - 1;
    if objects[n].kind != kind {
      var j :| 0 <= j < |objects| && objects[j].kind == kind;
      assert objects[..n][j] == objects[j];
      CountKindPresent(objects[..n], kind);
    }
  }

  /** The counts of the kinds in `u`, for the objects in `objects`. */
  function SumOver(u: seq<string>, objects: seq<CatalogObject>): nat
  {
    if u == [] then 0 else SumOver(u[..|u| - 1], objects) + CountKind(objects, u[|u| - 1])
  }

  /** Adding one object adds one to the sum over distinct kinds exactly when its kind is one of
      them. */
  lemma {:induction false} SumOverStep(u: seq<string>, objects: seq<CatalogObject>)
    requires objects != [] && DistinctKinds(u)
    ensures SumOver(u, objects) ==
      SumOver(u, objects[..|objects| - 1]) + (if objects[|objects| - 1].kind in u then 1 else 0)
  {
    if u != [] {
      var init := u[..|u| - 1];
      assert DistinctKinds(init) by {
        forall a, b | 0 <= a < b < |init|
          ensures init[a] != init[b]
        {
          assert init[a] == u[a] && init[b] == u[b];
        }
      }
      SumOverStep(init, objects);
      var k := objects[|objects| - 1].kind;
      assert k in u <==> k in init || k == u[|u| - 1];
      if k == u[|u| - 1] {
        forall a | 0 <= a < |init|
          ensures init[a] != k
        {
          assert init[a] == u[a];
        }
      }
    }
  }

  /** The counts over the distinct kinds add up to the number of objects. */
  lemma {:induction false} SumOverUnique(objects: seq<CatalogObject>)
    ensures SumOver(UniqueKinds(objects), objects) == |objects|
  {
    if objects != [] {
      var n := |objects| - 1;
      var init := objects[..n];
      var u0 := UniqueKinds(init);
      var k := objects[n].kind;
      SumOverUnique(init);
      UniqueKindsSpec(init);
      SumOverStep(u0, objects);
      if k !in u0 {
        CountKindAbsent(init, k);
        assert (u0 + [k])[..|u0|] == u0;
      }
    }
  }

  function SumCounts(ks: seq<KindStat>): nat
  {
    if ks == [] then 0 else SumCounts(ks[..|ks| - 1]) + ks[|ks| - 1].count
  }

  lemma {:induction false} SumCountsOver(ks: seq<KindStat>, u: seq<string>, objects: seq<CatalogObject>)
    requires |ks| == |u| && forall j :: 0 <= j < |u| ==> ks[j].count == CountKind(objects, u[j])
    ensures SumCounts(ks) == SumOver(u, objects)
  {
    if u != [] {
      SumCountsOver(ks[..|ks| - 1], u[..|u| - 1], objects);
    }
  }

  /** One stat per schema: one entry per distinct kind present, in first-appearance order; no
      objects gives an empty entry list. */
  lemma StatKindsSpec(schema: Schema, dirList: DirList)
    ensures var s := StatOf(schema, dirList);
      var objects := schema.objectList;
      s.schema == schema.name &&
      (s.objectList == [] <==> objects == []) &&
      (forall a, b :: 0 <= a < b < |s.objectList| ==>
        s.objectList[a].kind != s.objectList[b].kind &&
        FirstOfKind(objects, s.objectList[a].kind) < FirstOfKind(objects, s.objectList[b].kind)) &&
      (forall k :: HasKind(objects, k) <==> exists j :: 0 <= j < |s.objectList| && s.objectList[j].kind == k)
  {
    var s := StatOf(schema, dirList);
    var objects := schema.objectList;
    var u := UniqueKinds(objects);
    UniqueKindsSpec(objects);
    forall k
      ensures HasKind(objects, k) <==> exists j :: 0 <= j < |s.objectList| && s.objectList[j].kind == k
    {
      if k in u {
        var j :| 0 <= j < |u| && u[j] == k;
        assert s.objectList[j].kind == k;
      }
    }
    if objects != [] {
      assert HasKind(objects, objects[0].kind);
    }
  }

  /** Each entry counts at least one object of its kind, all counts add up to the number of
      objects, and an entry is ignored exactly when its kind has no directory. */
  lemma StatCountsSpec(schema: Schema, dirList: DirList)
    ensures var s := StatOf(schema, dirList);
      var objects := schema.objectList;
      (forall j :: 0 <= j < |s.objectList| ==>
        s.objectList[j].count >= 1 &&
        s.objectList[j].count == CountKind(objects, s.objectList[j].kind) &&
        (s.objectList[j].isIgnore <==> Ignored(dirList, s.objectList[j].kind))) &&
      SumCounts(s.objectList) == |objects|
  {
    var s := StatOf(schema, dirList);
    var objects := schema.objectList;
    var u := UniqueKinds(objects);
    UniqueKindsSpec(objects);
    forall j | 0 <= j < |s.objectList|
      ensures s.objectList[j].count >= 1
    {
      assert u[j] in u;
      CountKindPresent(objects, u[j]);
    }
    SumOverUnique(objects);
    SumCountsOver(s.objectList, u, objects);
  }
}
