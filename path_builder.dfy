/** Path & Operation Builder: tags from a service name, the operation record
    `build_path` assembles, the two vendor fixups of `post_process_path`, and
    the response type name. */
module PathBuilder {
  import opened Strings
  import opened Document

  /** The run-time option `build_path` reads, which the source keeps in a
      module global set from the command line: the tag separator (`-s`). */
  datatype Config = Config(tagSeparator: string)

  const SessionPath := "/com/vmware/cis/session"
  const TaskSuffix := "$task"
  const TaskQuery := "?vmw-task=true"

  /** The CSRF header parameter the session `post` operation must carry. */
  const HeaderParameter := JObj(map[
    "in" := JStr("header"),
    "required" := JBool(true),
    "type" := JStr("string"),
    "name" := JStr("vmware-use-header-authn"),
    "description" := JStr("Custom header to protect against CSRF attacks in browser based clients")
  ])

  /** `[{'basic_auth': []}]`. */
  const BasicAuthSecurity := JList([JObj(map["basic_auth" := JList([])])])

  /** `tags_from_service_name`: the dot-separated segments after the third,
      joined by the separator, as a one-element list. */
  function Tags(serviceName: string, sep: string): (r: seq<string>)
    ensures |r| == 1
  {
    var segs := Split(serviceName, '.');
    [Join(if |segs| <= 3 then [] else segs[3..], sep)]
  }

  /** A name of at most three segments gives the single empty tag. */
  lemma TagsShort(serviceName: string, sep: string)
    requires |Split(serviceName, '.')| <= 3
    ensures Tags(serviceName, sep) == [""]
  {
  }

  /** A four-segment name is tagged by its last segment, a five-segment name by
      its last two joined by the separator. */
  lemma TagsFourOrFive(serviceName: string, sep: string)
    ensures var segs := Split(serviceName, '.');
      && (|segs| == 4 ==> Tags(serviceName, sep) == [segs[3]])
      && (|segs| == 5 ==> Tags(serviceName, sep) == [segs[3] + sep + segs[4]])
  {
    var segs := Split(serviceName, '.');
    if |segs| == 5 {
      var rest := segs[3..];
      assert rest[0] == segs[3] && rest[1..] == [segs[4]];
      assert Join(rest, sep) == rest[0] + sep + Join(rest[1..], sep);
    }
  }

  /** When the separator is one character found in no segment, splitting the
      tag on it recovers exactly the segments after the third. */
  lemma {:induction false} TagsRecoverSegments(serviceName: string, c: char)
    requires |Split(serviceName, '.')| > 3
    requires forall i :: 0 <= i < |Split(serviceName, '.')| ==> c !in Split(serviceName, '.')[i]
    ensures Split(Tags(serviceName, [c])[0], c) == Split(serviceName, '.')[3..]
  {
    var segs := Split(serviceName, '.');
    assert forall i :: 0 <= i < |segs[3..]| ==> segs[3..][i] == segs[i + 3];
    SplitJoin(segs[3..], c);
  }

  /** The short-name case of the test suite: `three.levels.deep` with an empty
      separator. */
  lemma TagsThreeLevelsExample()
    ensures Tags("three.levels.deep", "") == [""]
  {
    var parts := ["three", "levels", "deep"];
    assert Join(parts, ".") == "three.levels.deep";
    assert forall i :: 0 <= i < |parts| ==> '.' !in parts[i];
    SplitJoin(parts, '.');
  }

  // ---------------------------------------------------------------------------
  // post_process_path

  /** The operation is the session `post`, matched exactly on path and method. */
  predicate IsSessionPost(op: map<string, Json>) {
    && "path" in op && op["path"] == JStr(SessionPath)
    && "method" in op && op["method"] == JStr("post")
  }

  /** The operation id ends in `$task`. */
  predicate IsTaskOp(op: map<string, Json>) {
    "operationId" in op && op["operationId"].JStr? && EndsWith(op["operationId"].s, TaskSuffix)
  }

  /** What `post_process_path` needs of its argument: the three keys it reads,
      a string operation id, and a string path where the path is extended. */
  predicate PostProcessable(op: map<string, Json>) {
    && "path" in op && "method" in op && "operationId" in op
    && op["operationId"].JStr?
    && (EndsWith(op["operationId"].s, TaskSuffix) ==> op["path"].JStr?)
  }

  /** First fixup: the session `post` gets the header parameter appended. */
  function SessionFixup(d: ODict): ODict {
    if IsSessionPost(d.entries)
    then Store(d, "parameters", JList(ParamsOf(d.entries) + [HeaderParameter]))
    else d
  }

  /** Second fixup: a `$task` operation's path gets `vmw-task=true` as a query. */
  function TaskFixup(d: ODict): ODict
    requires "path" in d.entries && (IsTaskOp(d.entries) ==> d.entries["path"].JStr?)
  {
    if IsTaskOp(d.entries) then Store(d, "path", JStr(d.entries["path"].s + TaskQuery)) else d
  }

  /** The operation after `post_process_path`. */
  function PostProcessed(d: ODict): ODict
    requires PostProcessable(d.entries)
  {
    TaskFixup(SessionFixup(d))
  }

  /** The header parameter is appended exactly for the session `post`; the
      path changes exactly for a `$task` operation, by the task query; nothing
      else changes and no key is lost. */
  lemma PostProcessedSpec(d: ODict)
    requires PostProcessable(d.entries)
    ensures var r := PostProcessed(d).entries;
      && (IsSessionPost(d.entries) ==> r["parameters"] == JList(ParamsOf(d.entries) + [HeaderParameter]))
      && (!IsSessionPost(d.entries) && "parameters" in d.entries ==> r["parameters"] == d.entries["parameters"])
      && ("parameters" in r <==> "parameters" in d.entries || IsSessionPost(d.entries))
      && (IsTaskOp(d.entries) ==> r["path"] == JStr(d.entries["path"].s + TaskQuery))
      && (!IsTaskOp(d.entries) ==> r["path"] == d.entries["path"])
      && r.Keys == d.entries.Keys + (if IsSessionPost(d.entries) then {"parameters"} else {})
      && (forall k :: k in d.entries && k != "parameters" && k != "path" ==> r[k] == d.entries[k])
  {
  }

  /** An operation that is neither the session `post` nor a `$task` operation
      is left exactly as it was, key order included. */
  lemma PostProcessedUnchanged(d: ODict)
    requires PostProcessable(d.entries)
    requires !IsSessionPost(d.entries) && !IsTaskOp(d.entries)
    ensures PostProcessed(d) == d
  {
  }

  /** The fixups keep a well-formed dictionary well-formed. */
  lemma PostProcessedOk(d: ODict)
    requires PostProcessable(d.entries) && OrderOk(d.keys, d.entries)
    ensures OrderOk(PostProcessed(d).keys, PostProcessed(d).entries)
  {
    StoreOk(d, "parameters", JList(ParamsOf(d.entries) + [HeaderParameter]));
    var s := SessionFixup(d);
    if IsTaskOp(s.entries) {
      StoreOk(s, "path", JStr(s.entries["path"].s + TaskQuery));
    }
  }

  /** `post_process_path(path_obj)`, mutating the operation. */
  method PostProcessPath(op: Dict)
    requires op.Valid() && PostProcessable(op.entries)
    modifies op
    ensures op.Valid() && op.Value() == PostProcessed(old(op.Value()))
  {
    if op.entries["path"] == JStr(SessionPath) && op.entries["method"] == JStr("post") {
      op.Put("parameters", JList(ParamsOf(op.entries) + [HeaderParameter]));
    }
    var opId := op.entries["operationId"].s;
    if |TaskSuffix| <= |opId| && opId[|opId| - |TaskSuffix|..] == TaskSuffix {
      op.Put("path", JStr(op.entries["path"].s + TaskQuery));
    }
  }

  // ---------------------------------------------------------------------------
  // build_path

  /** The keys `build_path` always writes, in the order it writes them. */
  const RecordKeys := ["tags", "method", "path", "summary", "parameters", "responses",
                       "consumes", "produces", "operationId"]

  /** The fields `build_path` always writes; `None` parameters become the
      empty list. */
  function RecordFields(cfg: Config, serviceName: string, httpMethod: string, path: string,
                        documentation: string, parameters: Option<seq<Json>>, operationId: string,
                        responses: Json, consumes: Json, produces: Json): map<string, Json>
  {
    map[
      "tags" := JList([JStr(Tags(serviceName, cfg.tagSeparator)[0])]),
      "method" := JStr(httpMethod),
      "path" := JStr(path),
      "summary" := JStr(documentation),
      "parameters" := JList(if parameters.Some? then parameters.value else []),
      "responses" := responses,
      "consumes" := consumes,
      "produces" := produces,
      "operationId" := JStr(operationId)
    ]
  }

  /** The record before the fixups: the fields in writing order, and for the
      session `post` the `basic_auth` security requirement. */
  function BaseRecord(cfg: Config, serviceName: string, httpMethod: string, path: string,
                      documentation: string, parameters: Option<seq<Json>>, operationId: string,
                      responses: Json, consumes: Json, produces: Json): ODict
  {
    var record := ODict(RecordKeys, RecordFields(cfg, serviceName, httpMethod, path, documentation,
                                                 parameters, operationId, responses, consumes, produces));
    if path == SessionPath && httpMethod == "post" then Store(record, "security", BasicAuthSecurity) else record
  }

  /** The same keys as a set. */
  const RecordNames: set<string> := {"tags", "method", "path", "summary", "parameters", "responses",
                                     "consumes", "produces", "operationId"}

  lemma SecurityNotRecordName()
    ensures "security" !in RecordNames
  {
  }

  /** The writing order lists each record key once. */
  lemma RecordKeysOk(m: map<string, Json>)
    requires m.Keys == RecordNames
    ensures OrderOk(RecordKeys, m) && "security" !in m
  {
    SecurityNotRecordName();
    assert Distinct(RecordKeys);
    assert forall k :: k in RecordKeys <==> k in RecordNames;
  }

  /** Adding `security` to a well-formed record that lacks it adds exactly that key. */
  lemma SecurityOk(keys: seq<string>, fields: map<string, Json>, session: bool)
    requires OrderOk(keys, fields) && "security" !in fields
    ensures var d := ODict(keys, fields);
      var r := if session then Store(d, "security", BasicAuthSecurity) else d;
      && OrderOk(r.keys, r.entries)
      && r.entries.Keys == fields.Keys + (if session then {"security"} else {})
  {
    StoreOk(ODict(keys, fields), "security", BasicAuthSecurity);
  }

  /** The record is a well-formed dictionary with the fixed keys, and
      `security` exactly for the session `post`. */
  lemma BaseRecordKeys(cfg: Config, serviceName: string, httpMethod: string, path: string,
                       documentation: string, parameters: Option<seq<Json>>, operationId: string,
                       responses: Json, consumes: Json, produces: Json)
    ensures var d := BaseRecord(cfg, serviceName, httpMethod, path, documentation, parameters,
                                operationId, responses, consumes, produces);
      var session := path == SessionPath && httpMethod == "post";
      && OrderOk(d.keys, d.entries)
      && d.entries.Keys == RecordNames + (if session then {"security"} else {})
  {
    var fields := RecordFields(cfg, serviceName, httpMethod, path, documentation, parameters,
                               operationId, responses, consumes, produces);
    assert fields.Keys == RecordNames;
    RecordKeysOk(fields);
    SecurityOk(RecordKeys, fields, path == SessionPath && httpMethod == "post");
  }

  /** The fields hold every input under its key. */
  lemma RecordFieldsSpec(cfg: Config, serviceName: string, httpMethod: string, path: string,
                         documentation: string, parameters: Option<seq<Json>>, operationId: string,
                         responses: Json, consumes: Json, produces: Json)
    ensures var r := RecordFields(cfg, serviceName, httpMethod, path, documentation, parameters,
                                  operationId, responses, consumes, produces);
      && r.Keys == RecordNames
      && r["tags"] == JList([JStr(Tags(serviceName, cfg.tagSeparator)[0])])
      && r["method"] == JStr(httpMethod)
      && r["path"] == JStr(path)
      && r["summary"] == JStr(documentation)
      && r["parameters"] == JList(if parameters.Some? then parameters.value else [])
      && r["responses"] == responses
      && r["consumes"] == consumes
      && r["produces"] == produces
      && r["operationId"] == JStr(operationId)
  {
  }

  /** The record keeps every field, and has `security` for the session `post`. */
  lemma BaseRecordFields(cfg: Config, serviceName: string, httpMethod: string, path: string,
                         documentation: string, parameters: Option<seq<Json>>, operationId: string,
                         responses: Json, consumes: Json, produces: Json)
    ensures var fields := RecordFields(cfg, serviceName, httpMethod, path, documentation, parameters,
                                       operationId, responses, consumes, produces);
      var r := BaseRecord(cfg, serviceName, httpMethod, path, documentation, parameters,
                          operationId, responses, consumes, produces).entries;
      && (forall k :: k in fields ==> k in r && r[k] == fields[k])
      && (path == SessionPath && httpMethod == "post" ==> "security" in r && r["security"] == BasicAuthSecurity)
  {
    var fields := RecordFields(cfg, serviceName, httpMethod, path, documentation, parameters,
                               operationId, responses, consumes, produces);
    assert fields.Keys == RecordNames;
    SecurityNotRecordName();
  }

  /** `build_path(service_name, method, path, documentation, parameters,
      operation_id, responses, consumes, produces)`: the record, then the
      `post_process_path` fixups. */
  function BuildPath(cfg: Config, serviceName: string, httpMethod: string, path: string,
                     documentation: string, parameters: Option<seq<Json>>, operationId: string,
                     responses: Json, consumes: Json, produces: Json): (r: ODict)
    ensures "method" in r.entries && r.entries["method"] == JStr(httpMethod)
    ensures "operationId" in r.entries && r.entries["operationId"] == JStr(operationId)
  {
    RecordFieldsSpec(cfg, serviceName, httpMethod, path, documentation, parameters,
                     operationId, responses, consumes, produces);
    BaseRecordFields(cfg, serviceName, httpMethod, path, documentation, parameters,
                     operationId, responses, consumes, produces);
    PostProcessedSpec(BaseRecord(cfg, serviceName, httpMethod, path, documentation, parameters,
                                 operationId, responses, consumes, produces));
    PostProcessed(BaseRecord(cfg, serviceName, httpMethod, path, documentation, parameters,
                             operationId, responses, consumes, produces))
  }

  /** The built operation is a well-formed dictionary whose keys are the fixed
      record keys, plus `security` exactly for the session `post`. */
  lemma BuildPathKeys(cfg: Config, serviceName: string, httpMethod: string, path: string,
                      documentation: string, parameters: Option<seq<Json>>, operationId: string,
                      responses: Json, consumes: Json, produces: Json)
    ensures var d := BuildPath(cfg, serviceName, httpMethod, path, documentation, parameters,
                               operationId, responses, consumes, produces);
      && OrderOk(d.keys, d.entries)
      && d.entries.Keys == RecordNames + (if path == SessionPath && httpMethod == "post" then {"security"} else {})
  {
    var base := BaseRecord(cfg, serviceName, httpMethod, path, documentation, parameters,
                           operationId, responses, consumes, produces);
    BaseRecordKeys(cfg, serviceName, httpMethod, path, documentation, parameters,
                   operationId, responses, consumes, produces);
    RecordFieldsSpec(cfg, serviceName, httpMethod, path, documentation, parameters,
                     operationId, responses, consumes, produces);
    BaseRecordFields(cfg, serviceName, httpMethod, path, documentation, parameters,
                     operationId, responses, consumes, produces);
    assert "parameters" in RecordNames;
    PostProcessedOk(base);
    PostProcessedSpec(base);
  }

  /** The built operation holds the inputs under their keys; the session `post`
      gets `basic_auth` security and the header parameter after the given ones;
      a `$task` operation's path carries the task query. */
  lemma BuildPathFields(cfg: Config, serviceName: string, httpMethod: string, path: string,
                        documentation: string, parameters: Option<seq<Json>>, operationId: string,
                        responses: Json, consumes: Json, produces: Json)
    ensures var fields := RecordFields(cfg, serviceName, httpMethod, path, documentation, parameters,
                                       operationId, responses, consumes, produces);
      var r := BuildPath(cfg, serviceName, httpMethod, path, documentation, parameters,
                         operationId, responses, consumes, produces).entries;
      var session := path == SessionPath && httpMethod == "post";
      var params := if parameters.Some? then parameters.value else [];
      && (forall k :: k in fields && k != "path" && k != "parameters" ==> k in r && r[k] == fields[k])
      && "path" in r && r["path"] == JStr(if EndsWith(operationId, TaskSuffix) then path + TaskQuery else path)
      && "parameters" in r && r["parameters"] == JList(params + (if session then [HeaderParameter] else []))
      && (session ==> "security" in r && r["security"] == BasicAuthSecurity)
  {
    var base := BaseRecord(cfg, serviceName, httpMethod, path, documentation, parameters,
                           operationId, responses, consumes, produces);
    RecordFieldsSpec(cfg, serviceName, httpMethod, path, documentation, parameters,
                     operationId, responses, consumes, produces);
    BaseRecordFields(cfg, serviceName, httpMethod, path, documentation, parameters,
                     operationId, responses, consumes, produces);
    assert IsSessionPost(base.entries) <==> path == SessionPath && httpMethod == "post";
    assert ParamsOf(base.entries) == if parameters.Some? then parameters.value else [];
    PostProcessedSpec(base);
  }

  // ---------------------------------------------------------------------------
  // get_response_object_name

  /** `get_response_object_name(service_id, operation_id)`. */
  function ResponseObjectName(serviceId: string, operationId: string): (r: string)
    ensures serviceId <= r
  {
    if operationId == "get" then serviceId else serviceId + "." + operationId
  }

  /** The name is the service id exactly for `get`; otherwise it is the service
      id, a dot and the operation id, which can be read back off the name. */
  lemma ResponseObjectNameSpec(serviceId: string, operationId: string)
    ensures var r := ResponseObjectName(serviceId, operationId);
      && serviceId <= r
      && (r == serviceId <==> operationId == "get")
      && (operationId != "get" ==> r[|serviceId|] == '.' && r[|serviceId| + 1..] == operationId)
  {
  }

  /** The two cases of the test suite. */
  lemma ResponseObjectNameExamples()
    ensures ResponseObjectName("tag", "get") == "tag"
    ensures ResponseObjectName("tag", "post") == "tag.post"
  {
  }
}
