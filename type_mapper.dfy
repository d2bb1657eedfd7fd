/** Type Mapper: metamodel primitive names to Swagger `(type, format)` pairs,
    the builtin-name test, and `visit_builtin`, which writes the pair into a
    property dictionary. */
module TypeMapper {
  import opened Strings
  import opened Document

  /** The fixed conversion table, keyed by lower-case metamodel name. */
  const TypeTable: map<string, (string, Option<string>)> := map[
    "date_time" := ("string", Some("date-time")),
    "secret" := ("string", Some("password")),
    "any_error" := ("string", None),
    "dynamic_structure" := ("object", None),
    "uri" := ("string", Some("uri")),
    "id" := ("string", None),
    "long" := ("integer", Some("int64")),
    "double" := ("number", Some("double")),
    "binary" := ("string", Some("binary"))
  ]

  /** The names `is_type_builtin` accepts, compared after lower-casing. */
  const BuiltinNames: set<string> := {
    "binary", "boolean", "datetime", "double", "dynamicstructure", "exception",
    "id", "long", "opaque", "secret", "string", "uri"
  }

  /** `metamodel_to_swagger_type_converter`: the name is lower-cased, then looked
      up in the table; a name outside the table passes through lower-cased with
      no format. */
  function TypeConverter(name: string): (r: (string, Option<string>))
    ensures r.1.Some? ==> Lower(name) in TypeTable
  {
    var t := Lower(name);
    if t in TypeTable then TypeTable[t] else (t, None)
  }

  /** The converter ignores letter case. */
  lemma TypeConverterCaseInsensitive(name: string)
    ensures TypeConverter(name) == TypeConverter(Lower(name))
  {
    LowerIdempotent(name);
  }

  /** The Swagger type produced is always lower-case; a tabled name gets its
      table entry, and any other name passes through lower-cased with no
      format. */
  lemma TypeConverterShape(name: string)
    ensures forall i :: 0 <= i < |TypeConverter(name).0| ==> !IsUpper(TypeConverter(name).0[i])
    ensures TypeConverter(name).1.Some? ==> Lower(name) in TypeTable
    ensures Lower(name) in TypeTable ==> TypeConverter(name) == TypeTable[Lower(name)]
    ensures Lower(name) !in TypeTable ==> TypeConverter(name) == (Lower(name), None)
  {
    LowerSpec(name);
  }

  /** `is_type_builtin`: membership of the lower-cased name in the fixed set. */
  predicate IsTypeBuiltin(name: string) {
    Lower(name) in BuiltinNames
  }

  /** The builtin test ignores letter case. */
  lemma IsTypeBuiltinCaseInsensitive(name: string)
    ensures IsTypeBuiltin(name) <==> IsTypeBuiltin(Lower(name))
  {
    LowerIdempotent(name);
  }

  /** A builtin case of the test suite. */
  lemma IsTypeBuiltinExample()
    ensures IsTypeBuiltin("opaque")
  {
    assert Lower("opaque") == "opaque";
  }

  /** Every name of the set is accepted as written (the set is lower-case). */
  lemma IsTypeBuiltinAcceptsListed(name: string)
    requires name in BuiltinNames
    ensures IsTypeBuiltin(name)
  {
    assert forall i :: 0 <= i < |name| ==> !IsUpper(name[i]);
    LowerOfLowerCase(name);
  }

  /** The `{type, format}` object the converter's pair denotes; `format` is
      absent when the table gives none. */
  function TypeObject(builtinType: string): map<string, Json> {
    var (t, f) := TypeConverter(builtinType);
    map["type" := JStr(t)] + (if f.Some? then map["format" := JStr(f.value)] else map[])
  }

  /** The type object holds `type` and, exactly when the table gives one, `format`. */
  lemma TypeObjectShape(builtinType: string)
    ensures var r := TypeObject(builtinType);
      var (t, f) := TypeConverter(builtinType);
      && r.Keys == {"type"} + (if f.Some? then {"format"} else {})
      && r["type"] == JStr(t)
      && (f.Some? ==> r["format"] == JStr(f.value))
  {
  }

  /** The property already declares `type: array`. */
  predicate IsArrayProperty(prop: map<string, Json>) {
    "type" in prop && prop["type"] == JStr("array")
  }

  /** The property dictionary after `visit_builtin`: for an array property the
      type object becomes its `items`; otherwise `type` (and `format`, when the
      table has one) are written onto the property itself. */
  function VisitedProperty(builtinType: string, prop: map<string, Json>): map<string, Json> {
    if IsArrayProperty(prop) then prop["items" := JObj(TypeObject(builtinType))]
    else prop + TypeObject(builtinType)
  }

  /** What `visit_builtin` promises: an array property keeps `type: array` and
      gets the pair under `items`; any other property gets the pair directly,
      keeps any earlier `format` when the table has none; no other key changes. */
  lemma VisitedPropertySpec(builtinType: string, prop: map<string, Json>)
    ensures var r := VisitedProperty(builtinType, prop);
      var (t, f) := TypeConverter(builtinType);
      && (IsArrayProperty(prop) ==>
            && r.Keys == prop.Keys + {"items"}
            && r["type"] == JStr("array")
            && r["items"] == JObj(TypeObject(builtinType)))
      && (!IsArrayProperty(prop) ==>
            && r.Keys == prop.Keys + {"type"} + (if f.Some? then {"format"} else {})
            && r["type"] == JStr(t)
            && (f.Some? ==> r["format"] == JStr(f.value))
            && (f.None? && "format" in prop ==> r["format"] == prop["format"]))
      && (forall k :: k in prop && k != "items" && k != "type" && k != "format" ==> r[k] == prop[k])
  {
    TypeObjectShape(builtinType);
  }

  /** Writing a `{type[, format]}` object key by key is the same as merging it. */
  lemma MergeByKeys(prop: map<string, Json>, obj: map<string, Json>)
    requires obj.Keys <= {"type", "format"} && "type" in obj
    ensures "format" in obj ==> prop + obj == prop["type" := obj["type"]]["format" := obj["format"]]
    ensures "format" !in obj ==> prop + obj == prop["type" := obj["type"]]
  {
  }

  /** `visit_builtin(builtin_type, new_prop)`, mutating `prop`. */
  method VisitBuiltin(builtinType: string, prop: Dict)
    requires prop.Valid()
    modifies prop
    ensures prop.Valid()
    ensures prop.entries == VisitedProperty(builtinType, old(prop.entries))
  {
    var obj := TypeObject(builtinType);
    ghost var before := prop.entries;
    assert VisitedProperty(builtinType, before)
        == if IsArrayProperty(before) then before["items" := JObj(obj)] else before + obj;
    TypeObjectShape(builtinType);
    MergeByKeys(before, obj);
    if "type" in prop.entries && prop.entries["type"] == JStr("array") {
      prop.Put("items", JObj(obj));
    } else {
      prop.Put("type", obj["type"]);
      if "format" in obj {
        prop.Put("format", obj["format"]);
      }
    }
  }

  /** `visit_builtin` cases of the test suite: an upper-case builtin name with
      no format, and a builtin element type of an array property. */
  lemma VisitBuiltinBooleanExample()
    ensures VisitedProperty("BOOLEAN", map[]) == map["type" := JStr("boolean")]
  {
    assert Lower("BOOLEAN") == "boolean";
  }

  lemma VisitBuiltinArrayExample()
    ensures VisitedProperty("long", map["type" := JStr("array")])
         == map["type" := JStr("array"), "items" := JObj(map["type" := JStr("integer"), "format" := JStr("int64")])]
  {
    assert Lower("long") == "long";
    assert TypeObject("long") == map["type" := JStr("integer"), "format" := JStr("int64")];
  }
}
