/** `getSchemaList` for Oracle (src/ddl/ora/getSchemaList.ts). It follows the SQL Server one, with
    three differences: the object query excludes the kinds listed below, the demo filter sits inside
    the key-lookup block, and trigger links are recorded with kind `INDEX`. */
module OraSchemaList {
  import opened Wrappers
  import opened Catalog

  /** `ignoreObjectKindList`: object types the all-objects query leaves out. */
  method IgnoredObjectKinds(config: DiscoveryConfig) returns (kinds: seq<string>)
    ensures "INDEX" in kinds
    ensures "PACKAGE BODY" in kinds <==> config.packageBodyDir == ""
    ensures "TYPE BODY" in kinds <==> config.typeBodyDir == ""
    ensures forall k :: k in kinds ==> k in {"INDEX", "PACKAGE BODY", "TYPE BODY"}
  {
    kinds := ["INDEX"];
    if config.packageBodyDir == "" {
      kinds := kinds + ["PACKAGE BODY"];
    }
    if config.typeBodyDir == "" {
      kinds := kinds + ["TYPE BODY"];
    }
  }

  /** The query answers, in the order the function asks: schemas, all objects (already without the
      ignored kinds), index links, trigger links, primary-key columns. */
  method GetSchemaList(schemaRows: Result<seq<string>>, objectRows: Result<seq<ObjectRow>>,
                       indexRows: Result<seq<LinkRow>>, triggerRows: Result<seq<LinkRow>>,
                       pkRows: Result<seq<PkRow>>, config: DiscoveryConfig)
    returns (r: Result<seq<Schema>>)
    ensures schemaRows.Err? ==> r == Err(schemaRows.error)
    ensures schemaRows.Ok? ==>
      var names := FilterSchemas(schemaRows.value, config.schemaMode, config.schemaList);
      if names == [] then r == Ok([])
      else if objectRows.Err? then r == Err(objectRows.error)
      else if indexRows.Err? then r == Err(indexRows.error)
      else if triggerRows.Err? then r == Err(triggerRows.error)
      else if PkLookupRuns(config) && pkRows.Err? then r == Err(pkRows.error)
      else
        var pks := if pkRows.Ok? then pkRows.value else [];
        r.Ok? && |r.value| == |names| &&
        forall i :: 0 <= i < |names| ==>
          r.value[i] == DiscoveredSchema(names, i, objectRows.value, indexRows.value, triggerRows.value, "INDEX", pks, config)
  {
    if schemaRows.Err? {
      return Err(schemaRows.error);
    }
    var names := FilterSchemas(schemaRows.value, config.schemaMode, config.schemaList);
    if |names| <= 0 {
      return Ok([]);
    }
    var schemas := EmptySchemas(names);
    if objectRows.Err? {
      return Err(objectRows.error);
    }
    if indexRows.Err? {
      return Err(indexRows.error);
    }
    var objects := objectRows.value + IndexObjectRows(indexRows.value);
    if triggerRows.Err? {
      return Err(triggerRows.error);
    }
    if PkLookupRuns(config) {
      if pkRows.Err? {
        return Err(pkRows.error);
      }
      schemas := GroupPkRows(schemas, pkRows.value, config.fullList, config.demoCount);
      if |config.demoFilterList| > 0 {
        schemas := ApplyDemoFilter(schemas, config.demoFilterMode, config.demoFilterList);
      } else {
        assert forall s :: DemoFilter(s, config.demoFilterMode, []) == s by {
          forall s: seq<Schema> ensures DemoFilter(s, config.demoFilterMode, []) == s {
          }
        }
      }
    }
    schemas := AttachObjects(schemas, objects);
    schemas := AttachLinks(schemas, indexRows.value, "INDEX");
    schemas := AttachLinks(schemas, triggerRows.value, "INDEX");
    var pks := if pkRows.Ok? then pkRows.value else [];
    AssembledSpec(names, objectRows.value, indexRows.value, triggerRows.value, "INDEX", pks, config, true);
    return Ok(schemas);
  }
}
