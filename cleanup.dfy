/** Cleanup Pass: `cleanup(path_dict, type_dict)` drops the bookkeeping keys
    `method` and `path` from every operation of the path document and the
    per-property `required` flag from every structure type. */
module Cleanup {
  import opened Document

  /** The keys an operation carries only while it is being built. */
  const Bookkeeping: set<string> := {"method", "path"}

  /** One operation without its bookkeeping keys. */
  function CleanOperation(op: Json): Json {
    if op.JObj? then JObj(op.fields - Bookkeeping) else op
  }

  /** A path item (HTTP method to operation) with every operation cleaned. */
  function CleanPathItem(item: Json): Json {
    if item.JObj? then JObj(map m | m in item.fields :: CleanOperation(item.fields[m])) else item
  }

  /** The path document after the first loop of `cleanup`. */
  function CleanPaths(paths: map<string, Json>): (r: map<string, Json>)
    ensures r.Keys == paths.Keys
  {
    map p | p in paths :: CleanPathItem(paths[p])
  }

  /** Every path and method stays; no operation keeps `method` or `path`;
      every other key of an operation keeps its value; non-object entries are
      left alone. */
  lemma CleanPathsSpec(paths: map<string, Json>)
    ensures var r := CleanPaths(paths);
      && (forall p :: p in paths && !paths[p].JObj? ==> r[p] == paths[p])
      && (forall p :: p in paths && paths[p].JObj? ==>
        && r[p].JObj? && r[p].fields.Keys == paths[p].fields.Keys
        && (forall m :: m in paths[p].fields ==>
              var op := paths[p].fields[m];
              var c := r[p].fields[m];
              && (op.JObj? ==>
                    && c.JObj? && c.fields.Keys == op.fields.Keys - {"method", "path"}
                    && (forall k :: k in c.fields ==> c.fields[k] == op.fields[k]))
              && (!op.JObj? ==> c == op)))
  {
  }

  /** One property without its `required` flag. */
  function CleanProperty(prop: Json): Json {
    if prop.JObj? then JObj(prop.fields - {"required"}) else prop
  }

  /** A structure type whose `properties` mapping has every property cleaned. */
  function CleanType(t: Json): Json {
    if t.JObj? && "properties" in t.fields && t.fields["properties"].JObj?
    then
      var props := t.fields["properties"].fields;
      JObj(t.fields["properties" := JObj(map k | k in props :: CleanProperty(props[k]))])
    else t
  }

  /** The type document after the second loop of `cleanup`. */
  function CleanTypes(types: map<string, Json>): (r: map<string, Json>)
    ensures r.Keys == types.Keys
  {
    map n | n in types :: CleanType(types[n])
  }

  /** Every type stays; no property of a type keeps `required`; every other
      key of a property, and every key of a type besides `properties`, keeps
      its value. */
  lemma CleanTypesSpec(types: map<string, Json>)
    ensures var r := CleanTypes(types);
      && (forall n :: n in types ==>
        && (types[n].JObj? <==> r[n].JObj?)
        && (types[n].JObj? ==>
              && r[n].fields.Keys == types[n].fields.Keys
              && (forall k :: k in types[n].fields && k != "properties" ==> r[n].fields[k] == types[n].fields[k]))
        && (!types[n].JObj? ==> r[n] == types[n]))
      && (forall n :: n in types && types[n].JObj? && "properties" in types[n].fields
                          && types[n].fields["properties"].JObj? ==>
        var props := types[n].fields["properties"].fields;
        var cleaned := r[n].fields["properties"];
        && cleaned.JObj? && cleaned.fields.Keys == props.Keys
        && (forall k :: k in props ==>
              && (props[k].JObj? ==>
                    && cleaned.fields[k].JObj?
                    && cleaned.fields[k].fields.Keys == props[k].fields.Keys - {"required"}
                    && (forall f :: f in cleaned.fields[k].fields ==>
                          cleaned.fields[k].fields[f] == props[k].fields[f]))
              && (!props[k].JObj? ==> cleaned.fields[k] == props[k])))
  {
  }

  /** Cleaning the paths a second time changes nothing. */
  lemma CleanPathsIdempotent(paths: map<string, Json>)
    ensures CleanPaths(CleanPaths(paths)) == CleanPaths(paths)
  {
    forall p | p in paths ensures CleanPathItem(CleanPathItem(paths[p])) == CleanPathItem(paths[p]) {
      var item := paths[p];
      if item.JObj? {
        var once := CleanPathItem(item).fields;
        forall m | m in once ensures CleanOperation(once[m]) == once[m] {
          var op := item.fields[m];
          if op.JObj? {
            assert op.fields - Bookkeeping - Bookkeeping == op.fields - Bookkeeping;
          }
        }
        assert (map m | m in once :: CleanOperation(once[m])) == once;
      }
    }
  }

  /** Cleaning the types a second time changes nothing. */
  lemma CleanTypesIdempotent(types: map<string, Json>)
    ensures CleanTypes(CleanTypes(types)) == CleanTypes(types)
  {
    forall n | n in types ensures CleanType(CleanType(types[n])) == CleanType(types[n]) {
      var t := types[n];
      if t.JObj? && "properties" in t.fields && t.fields["properties"].JObj? {
        var once := CleanType(t);
        var props := once.fields["properties"].fields;
        forall k | k in props ensures CleanProperty(props[k]) == props[k] {
          var prop := t.fields["properties"].fields[k];
          if prop.JObj? {
            assert prop.fields - {"required"} - {"required"} == prop.fields - {"required"};
          }
        }
        assert (map k | k in props :: CleanProperty(props[k])) == props;
        assert once.fields["properties" := JObj(props)] == once.fields;
      }
    }
  }

  // ---------------------------------------------------------------------------
  // The pass over the mutable documents

  /** One turn of the first loop: the path item under `p` is cleaned. */
  method CleanOnePath(paths: Dict, p: string)
    requires paths.Valid() && p in paths.entries
    modifies paths
    ensures paths.Valid() && paths.keys == old(paths.keys)
    ensures paths.entries == old(paths.entries)[p := CleanPathItem(old(paths.entries)[p])]
  {
    paths.Put(p, CleanPathItem(paths.entries[p]));
  }

  /** One turn of the second loop: the type under `n` is cleaned. */
  method CleanOneType(types: Dict, n: string)
    requires types.Valid() && n in types.entries
    modifies types
    ensures types.Valid() && types.keys == old(types.keys)
    ensures types.entries == old(types.entries)[n := CleanType(old(types.entries)[n])]
  {
    types.Put(n, CleanType(types.entries[n]));
  }

  /** The first loop: every path item of the document is cleaned in place. */
  method CleanPathDict(paths: Dict)
    requires paths.Valid()
    modifies paths
    ensures paths.Valid() && paths.keys == old(paths.keys)
    ensures paths.entries == CleanPaths(old(paths.entries))
  {
    var ks := paths.keys;
    ghost var start := paths.entries;
    var i := 0;
    while i < |ks|
      invariant 0 <= i <= |ks|
      invariant paths.Valid() && paths.keys == ks
      invariant paths.entries.Keys == start.Keys
      invariant forall j :: 0 <= j < i ==> paths.entries[ks[j]] == CleanPathItem(start[ks[j]])
      invariant forall j :: i <= j < |ks| ==> paths.entries[ks[j]] == start[ks[j]]
    {
      CleanOnePath(paths, ks[i]);
      i := i + 1;
    }
    forall k | k in start ensures paths.entries[k] == CleanPathItem(start[k]) {
      var j :| 0 <= j < |ks| && ks[j] == k;
    }
  }


  /** The second loop: every type of the document is cleaned in place. */
  method CleanTypeDict(types: Dict)
    requires types.Valid()
    modifies types
    ensures types.Valid() && types.keys == old(types.keys)
    ensures types.entries == CleanTypes(old(types.entries))
  {
    var ks := types.keys;
    ghost var start := types.entries;
    var i := 0;
    while i < |ks|
      invariant 0 <= i <= |ks|
      invariant types.Valid() && types.keys == ks
      invariant types.entries.Keys == start.Keys
      invariant forall j :: 0 <= j < i ==> types.entries[ks[j]] == CleanType(start[ks[j]])
      invariant forall j :: i <= j < |ks| ==> types.entries[ks[j]] == start[ks[j]]
    {
      CleanOneType(types, ks[i]);
      i := i + 1;
    }
    forall k | k in start ensures types.entries[k] == CleanType(start[k]) {
      var j :| 0 <= j < |ks| && ks[j] == k;
    }
  }


  /** `cleanup(path_dict, type_dict)`. Were both arguments the same dictionary,
      it would receive both cleanings, paths first. */
  method CleanupDocuments(paths: Dict, types: Dict)
    requires paths.Valid() && types.Valid()
    modifies paths, types
    ensures paths.Valid() && types.Valid()
    ensures paths != types ==> paths.entries == CleanPaths(old(paths.entries))
    ensures paths != types ==> types.entries == CleanTypes(old(types.entries))
    ensures paths == types ==> types.entries == CleanTypes(CleanPaths(old(paths.entries)))
  {
    CleanPathDict(paths);
    CleanTypeDict(types);
  }
}
