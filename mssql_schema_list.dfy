/** `getSchemaList` for SQL Server (src/ddl/mssql/getSchemaList.ts): the schema list with objects,
    index and trigger links and table-fill entries, from the answers of its catalog queries. */
module MssqlSchemaList {
  import opened Wrappers
  import opened Catalog

  /** The query answers, in the order the function asks: schemas, all objects, index links,
      trigger links, primary-key columns. A later answer matters only if every earlier query
      succeeded (and the key query only when it runs). */
  method GetSchemaList(schemaRows: Result<seq<string>>, objectRows: Result<seq<ObjectRow>>,
                       indexRows: Result<seq<LinkRow>>, triggerRows: Result<seq<LinkRow>>,
                       pkRows: Result<seq<PkRow>>, config: DiscoveryConfig)
    returns (r: Result<seq<Schema>>)
    ensures schemaRows.Err? ==> r == Err(schemaRows.error)
    ensures schemaRows.Ok? ==>
      var names := FilterSchemas(schemaRows.value, config.schemaMode, config.schemaList);
      if names == [] then r == Ok([])
      else if objectRows.Err? then r == Err(objectRows.error)
      else if indexRows.Err? then r == Err(indexRows.error)
      else if triggerRows.Err? then r == Err(triggerRows.error)
      else if PkLookupRuns(config) && pkRows.Err? then r == Err(pkRows.error)
      else
        var pks := if pkRows.Ok? then pkRows.value else [];
        r.Ok? && |r.value| == |names| &&
        forall i :: 0 <= i < |names| ==>
          r.value[i] == DiscoveredSchema(names, i, objectRows.value, indexRows.value, triggerRows.value, "TRIGGER", pks, config)
  {
    if schemaRows.Err? {
      return Err(schemaRows.error);
    }
    var names := FilterSchemas(schemaRows.value, config.schemaMode, config.schemaList);
    if |names| <= 0 {
      return Ok([]);
    }
    var schemas := EmptySchemas(names);
    if objectRows.Err? {
      return Err(objectRows.error);
    }
    if indexRows.Err? {
      return Err(indexRows.error);
    }
    var objects := objectRows.value + IndexObjectRows(indexRows.value);
    if triggerRows.Err? {
      return Err(triggerRows.error);
    }
    if PkLookupRuns(config) {
      if pkRows.Err? {
        return Err(pkRows.error);
      }
      schemas := GroupPkRows(schemas, pkRows.value, config.fullList, config.demoCount);
    }
    schemas := AttachObjects(schemas, objects);
    schemas := AttachLinks(schemas, indexRows.value, "INDEX");
    schemas := AttachLinks(schemas, triggerRows.value, "TRIGGER");
    if |config.demoFilterList| > 0 {
      schemas := ApplyDemoFilter(schemas, config.demoFilterMode, config.demoFilterList);
    }
    var pks := if pkRows.Ok? then pkRows.value else [];
    AssembledSpec(names, objectRows.value, indexRows.value, triggerRows.value, "TRIGGER", pks, config, false);
    if |config.demoFilterList| == 0 {
      assert forall s :: DemoFilter(s, config.demoFilterMode, []) == s by {
        forall s: seq<Schema> ensures DemoFilter(s, config.demoFilterMode, []) == s {
        }
      }
    }
    return Ok(schemas);
  }
}
