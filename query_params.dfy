/** Query-Parameter Deduplicator: `remove_query_params(path_dict)`. A path
    key such as `a/b?action=x` is not allowed in Swagger; its operations are
    moved under the bare path `a/b`, each with the query turned into a
    required `enum` parameter. A variant is left where it is when the bare
    path already has one of its HTTP methods. */
module QueryParams {
  import opened Strings
  import opened Document

  /** Whether a path key carries a query string. */
  predicate HasQuery(key: string) {
    '?' in key
  }

  /** The path before the first `?`. */
  function BasePath(key: string): (r: string)
    ensures '?' !in r
    ensures r <= key
    ensures HasQuery(key) ==> r != key
  {
    key[..IndexOf(key, '?')]
  }

  /** The query string after the first `?`. */
  function QueryOf(key: string): string {
    var i := IndexOf(key, '?');
    if i < |key| then key[i + 1..] else []
  }

  /** The query's parameter name: the text before its first `=`. */
  function QueryName(query: string): string {
    query[..IndexOf(query, '=')]
  }

  /** The query's value: the text after its first `=`. */
  function QueryValue(query: string): string {
    var i := IndexOf(query, '=');
    if i < |query| then query[i + 1..] else []
  }

  /** A query of the form `name=value` is split back into its two halves. */
  lemma QueryParts(name: string, value: string)
    requires '=' !in name
    ensures QueryName(name + "=" + value) == name
    ensures QueryValue(name + "=" + value) == value
  {
    var q := name + "=" + value;
    assert q[|name|] == '=';
    assert forall j :: 0 <= j < |name| ==> q[j] == name[j];
    assert q[..|name|] == name;
    assert q[|name| + 1..] == value;
  }

  /** The parameter object that stands for `name=value` in the query. */
  function QueryParameter(query: string): Json
  {
    var name := QueryName(query);
    var value := QueryValue(query);
    JObj(map[
      "name" := JStr(name),
      "in" := JStr("query"),
      "description" := JStr(name + "=" + value),
      "required" := JBool(true),
      "type" := JStr("string"),
      "enum" := JList([JStr(value)])
    ])
  }

  /** An operation with `param` appended to its `parameters` list. */
  function WithParameter(op: Json, param: Json): (r: Json)
    ensures op.JObj? ==> r.JObj? && r.fields.Keys == op.fields.Keys + {"parameters"}
    ensures op.JObj? ==> r.fields["parameters"] == JList(ParamsOf(op.fields) + [param])
    ensures op.JObj? ==> forall k :: k in op.fields && k != "parameters" ==> r.fields[k] == op.fields[k]
    ensures !op.JObj? ==> r == op
  {
    if op.JObj? then JObj(op.fields["parameters" := JList(ParamsOf(op.fields) + [param])]) else op
  }

  /** Every operation of a path item with `param` appended. */
  function WithParameterAll(ops: map<string, Json>, param: Json): (r: map<string, Json>)
    ensures r.Keys == ops.Keys
    ensures forall m :: m in ops ==> r[m] == WithParameter(ops[m], param)
  {
    map m | m in ops :: WithParameter(ops[m], param)
  }

  /** What the source demands of the document: every query string has a `=`. */
  predicate QueriesWellFormed(d: map<string, Json>) {
    forall k :: k in d && HasQuery(k) ==> '=' in QueryOf(k)
  }

  /** The operations of the path item under `key`, or none. */
  function OpsAt(d: map<string, Json>, key: string): map<string, Json> {
    if key in d then FieldsOf(d[key]) else map[]
  }

  /** The variant under `key` stays: its bare path is present and already has
      one of its HTTP methods. */
  predicate Blocked(d: map<string, Json>, key: string) {
    var base := BasePath(key);
    key in d && base in d && OpsAt(d, key).Keys * OpsAt(d, base).Keys != {}
  }

  /** The operations `item` had under the variant `key` sit under its bare
      path, each with the query parameter appended. */
  predicate Absorbed(d: map<string, Json>, key: string, item: Json) {
    var base := BasePath(key);
    var ops := FieldsOf(item);
    && base in d
    && forall m :: m in ops ==>
         m in OpsAt(d, base) && OpsAt(d, base)[m] == WithParameter(ops[m], QueryParameter(QueryOf(key)))
  }

  /** The loop merges the key `key`: it is a query variant that is present
      and not blocked. */
  predicate Merges(e: map<string, Json>, key: string) {
    HasQuery(key) && key in e && !Blocked(e, key)
  }

  /** The bare path's operations once the variant `key` is merged in: its own,
      plus the variant's with the query parameter appended. */
  function MergedItem(e: map<string, Json>, key: string): Json
    requires key in e
  {
    JObj(OpsAt(e, BasePath(key)) + WithParameterAll(FieldsOf(e[key]), QueryParameter(QueryOf(key))))
  }

  /** The entries once the variant `key` is merged into its bare path (created
      when absent) and removed. */
  function Merged(e: map<string, Json>, key: string): map<string, Json>
    requires key in e
  {
    e[BasePath(key) := MergedItem(e, key)] - {key}
  }

  /** The entries after one step of the loop. */
  function StepEntries(e: map<string, Json>, key: string): map<string, Json> {
    if Merges(e, key) then Merged(e, key) else e
  }

  /** One step of the loop, for the key `key`: a query variant that is not
      blocked is merged into its bare path and removed; anything else is left. */
  function Step(d: ODict, key: string): ODict {
    if Merges(d.entries, key) then Erase(Store(d, BasePath(key), MergedItem(d.entries, key)), key) else d
  }

  /** A map holds every binding of another. */
  predicate SubMap(a: map<string, Json>, b: map<string, Json>) {
    forall m :: m in a ==> m in b && b[m] == a[m]
  }

  /** A step keeps the document well formed, and its entries are the merged
      ones exactly when the variant is not blocked. */
  lemma StepShape(d: ODict, key: string)
    requires OrderOk(d.keys, d.entries)
    ensures OrderOk(Step(d, key).keys, Step(d, key).entries)
    ensures Step(d, key).entries == StepEntries(d.entries, key)
  {
    if Merges(d.entries, key) {
      var s := Store(d, BasePath(key), MergedItem(d.entries, key));
      StoreOk(d, BasePath(key), MergedItem(d.entries, key));
      EraseOk(s, key);
    }
  }

  /** Merging keeps every plain path with all its operations: the bare path
      receives only methods it did not have. */
  lemma MergedKeepsPlain(e: map<string, Json>, key: string)
    requires key in e && HasQuery(key) && !Blocked(e, key)
    ensures forall p :: p in e && !HasQuery(p) ==> p in Merged(e, key) && SubMap(OpsAt(e, p), OpsAt(Merged(e, key), p))
  {
    var base := BasePath(key);
    var added := WithParameterAll(FieldsOf(e[key]), QueryParameter(QueryOf(key)));
    var r := Merged(e, key);
    var before := OpsAt(e, base);
    assert OpsAt(r, base) == before + added;
    forall p | p in e && !HasQuery(p) ensures p in r && SubMap(OpsAt(e, p), OpsAt(r, p)) {
      if p == base {
        forall m | m in before ensures m in before + added && (before + added)[m] == before[m] {
          assert m !in added by {
            assert m !in OpsAt(e, key).Keys * before.Keys;
          }
        }
      } else {
        assert p != key;
        assert OpsAt(r, p) == OpsAt(e, p);
      }
    }
  }

  /** Merging absorbs the variant into its bare path. */
  lemma MergedAbsorbs(e: map<string, Json>, key: string)
    requires key in e && HasQuery(key)
    ensures key !in Merged(e, key) && Absorbed(Merged(e, key), key, e[key])
  {
    var base := BasePath(key);
    var added := WithParameterAll(FieldsOf(e[key]), QueryParameter(QueryOf(key)));
    assert OpsAt(Merged(e, key), base) == OpsAt(e, base) + added;
  }

  /** Facts about one step: it keeps every plain path with all its operations,
      leaves every other variant alone, adds no new variant, and either leaves
      the processed variant blocked or absorbs it into its bare path. */
  lemma StepFacts(d: ODict, key: string)
    requires OrderOk(d.keys, d.entries)
    ensures var r := Step(d, key).entries;
      && OrderOk(Step(d, key).keys, r)
      && (forall p :: p in d.entries && !HasQuery(p) ==> p in r && SubMap(OpsAt(d.entries, p), OpsAt(r, p)))
      && (forall x :: x in d.entries && HasQuery(x) && x != key ==> x in r && r[x] == d.entries[x])
      && (forall x :: x in r ==> x in d.entries || !HasQuery(x))
      && (HasQuery(key) && key in d.entries ==>
            (key in r && r[key] == d.entries[key] && Blocked(r, key))
            || (key !in r && Absorbed(r, key, d.entries[key])))
  {
    StepShape(d, key);
    if !HasQuery(key) || key !in d.entries || Blocked(d.entries, key) {
      assert forall p :: p in d.entries ==> SubMap(OpsAt(d.entries, p), OpsAt(d.entries, p));
    } else {
      MergedKeepsPlain(d.entries, key);
      MergedAbsorbs(d.entries, key);
    }
  }

  // ---------------------------------------------------------------------------
  // The whole pass

  /** The document after the loop has visited `keys`, in order. */
  function Process(d: ODict, keys: seq<string>): ODict
    requires OrderOk(d.keys, d.entries)
    ensures OrderOk(Process(d, keys).keys, Process(d, keys).entries)
  {
    if keys == [] then d
    else
      var before := Process(d, keys[..|keys| - 1]);
      StepShape(before, keys[|keys| - 1]);
      Step(before, keys[|keys| - 1])
  }

  /** Visiting one more key is one more step. */
  lemma ProcessSnoc(d: ODict, keys: seq<string>, key: string)
    requires OrderOk(d.keys, d.entries)
    ensures Process(d, keys + [key]) == Step(Process(d, keys), key)
  {
    assert (keys + [key])[..|keys|] == keys;
  }

  /** `remove_query_params(path_dict)` on a document: the loop over its keys. */
  function RemovedQueryParams(d: ODict): (r: ODict)
    requires OrderOk(d.keys, d.entries)
    ensures OrderOk(r.keys, r.entries)
  {
    Process(d, d.keys)
  }

  /** What holds of the document once the loop has visited `done`, relative
      to the document `d0` it started from. */
  predicate Progress(d0: map<string, Json>, d: map<string, Json>, done: seq<string>)
  {
    && (forall p :: p in d0 && !HasQuery(p) ==> p in d && SubMap(OpsAt(d0, p), OpsAt(d, p)))
    && (forall x :: x in d0 && HasQuery(x) && x !in done ==> x in d && d[x] == d0[x])
    && (forall x :: x in d0 && HasQuery(x) && x in done ==>
          (x in d && d[x] == d0[x] && Blocked(d, x)) || (x !in d && Absorbed(d, x, d0[x])))
    && (forall x :: x in d ==> x in d0 || !HasQuery(x))
  }

  /** Later steps never undo an earlier one: a blocked variant stays blocked
      and absorbed operations stay where they are. */
  lemma StepKeepsBlocked(d: ODict, key: string, x: string)
    requires OrderOk(d.keys, d.entries)
    requires HasQuery(x) && x != key && x in d.entries && Blocked(d.entries, x)
    ensures var r := Step(d, key).entries; x in r && r[x] == d.entries[x] && Blocked(r, x)
  {
    StepFacts(d, key);
    var r := Step(d, key).entries;
    var base := BasePath(x);
    assert SubMap(OpsAt(d.entries, base), OpsAt(r, base));
    assert OpsAt(r, x) == OpsAt(d.entries, x);
    var m :| m in OpsAt(d.entries, x).Keys * OpsAt(d.entries, base).Keys;
    assert m in OpsAt(r, x).Keys * OpsAt(r, base).Keys;
  }

  lemma StepKeepsAbsorbed(d: ODict, key: string, x: string, item: Json)
    requires OrderOk(d.keys, d.entries)
    requires HasQuery(x) && x !in d.entries && Absorbed(d.entries, x, item)
    ensures var r := Step(d, key).entries; x !in r && Absorbed(r, x, item)
  {
    StepFacts(d, key);
    var r := Step(d, key).entries;
    var base := BasePath(x);
    assert SubMap(OpsAt(d.entries, base), OpsAt(r, base));
  }

  lemma ProgressStep(d0: map<string, Json>, d: ODict, done: seq<string>, key: string)
    requires OrderOk(d.keys, d.entries)
    requires Progress(d0, d.entries, done)
    requires key in d0 && key !in done
    ensures Progress(d0, Step(d, key).entries, done + [key])
  {
    StepFacts(d, key);
    var r := Step(d, key).entries;
    forall x | x in d0 && HasQuery(x) && x in done + [key]
      ensures (x in r && r[x] == d0[x] && Blocked(r, x)) || (x !in r && Absorbed(r, x, d0[x]))
    {
      if x != key {
        if x in d.entries {
          StepKeepsBlocked(d, key, x);
        } else {
          StepKeepsAbsorbed(d, key, x, d0[x]);
        }
      }
    }
    forall x | x in d0 && HasQuery(x) && x !in done + [key] ensures x in r && r[x] == d0[x] {
      assert x !in done && x != key;
    }
    forall p | p in d0 && !HasQuery(p) ensures p in r && SubMap(OpsAt(d0, p), OpsAt(r, p)) {
      assert SubMap(OpsAt(d0, p), OpsAt(d.entries, p));
      assert SubMap(OpsAt(d.entries, p), OpsAt(r, p));
    }
  }

  lemma {:induction false} ProcessProgress(d0: ODict, n: nat)
    requires OrderOk(d0.keys, d0.entries) && n <= |d0.keys|
    ensures Progress(d0.entries, Process(d0, d0.keys[..n]).entries, d0.keys[..n])
  {
    if n > 0 {
      var prefix := d0.keys[..n];
      ProcessProgress(d0, n - 1);
      assert prefix[..n - 1] == d0.keys[..n - 1];
      assert d0.keys[n - 1] !in d0.keys[..n - 1];
      assert prefix == d0.keys[..n - 1] + [d0.keys[n - 1]];
      ProgressStep(d0.entries, Process(d0, d0.keys[..n - 1]), d0.keys[..n - 1], d0.keys[n - 1]);
    } else {
      forall p | p in d0.entries ensures SubMap(OpsAt(d0.entries, p), OpsAt(d0.entries, p)) {
      }
    }
  }

  /** The operation `v` under method `m` of path `p` is the one the variant
      `y` of `p` had, with `y`'s query parameter appended. */
  predicate MovedFrom(d0: map<string, Json>, y: string, p: string, m: string, v: Json) {
    && y in d0 && HasQuery(y) && BasePath(y) == p && m in OpsAt(d0, y)
    && v == WithParameter(OpsAt(d0, y)[m], QueryParameter(QueryOf(y)))
  }

  /** Nothing else is there: every key of `d` was a key of `d0` or is the bare
      path of a variant of `d0` that is gone, and every operation of `d` was
      there in `d0` or was moved from a variant. */
  ghost predicate Provenance(d0: map<string, Json>, d: map<string, Json>) {
    && (forall k :: k in d ==>
          k in d0 || exists y :: y in d0 && HasQuery(y) && BasePath(y) == k && y !in d)
    && (forall p, m :: p in d && m in OpsAt(d, p) ==>
          (m in OpsAt(d0, p) && OpsAt(d0, p)[m] == OpsAt(d, p)[m])
          || exists y :: MovedFrom(d0, y, p, m, OpsAt(d, p)[m]))
  }

  /** A step keeps every key accounted for. */
  lemma StepKeysFrom(d0: map<string, Json>, e: map<string, Json>, key: string)
    requires Provenance(d0, e)
    requires HasQuery(key) && key in e && key in d0 && !Blocked(e, key)
    ensures var r := Merged(e, key);
      forall k :: k in r ==> k in d0 || exists y :: y in d0 && HasQuery(y) && BasePath(y) == k && y !in r
  {
    var base := BasePath(key);
    var r := Merged(e, key);
    forall k | k in r
      ensures k in d0 || exists y :: y in d0 && HasQuery(y) && BasePath(y) == k && y !in r
    {
      if k in e {
        if k !in d0 {
          var y :| y in d0 && HasQuery(y) && BasePath(y) == k && y !in e;
          assert y != base;
        }
      } else {
        assert k == base && key !in r;
      }
    }
  }

  /** A step keeps every operation accounted for. */
  lemma StepOpsFrom(d0: map<string, Json>, e: map<string, Json>, key: string)
    requires Provenance(d0, e)
    requires HasQuery(key) && key in e && key in d0 && e[key] == d0[key] && !Blocked(e, key)
    ensures var r := Merged(e, key);
      forall p, m :: p in r && m in OpsAt(r, p) ==>
        (m in OpsAt(d0, p) && OpsAt(d0, p)[m] == OpsAt(r, p)[m])
        || exists y :: MovedFrom(d0, y, p, m, OpsAt(r, p)[m])
  {
    var base := BasePath(key);
    var added := WithParameterAll(FieldsOf(e[key]), QueryParameter(QueryOf(key)));
    var r := Merged(e, key);
    assert OpsAt(r, base) == OpsAt(e, base) + added;
    forall p, m | p in r && m in OpsAt(r, p)
      ensures (m in OpsAt(d0, p) && OpsAt(d0, p)[m] == OpsAt(r, p)[m])
              || exists y :: MovedFrom(d0, y, p, m, OpsAt(r, p)[m])
    {
      if p == base && m in added {
        assert MovedFrom(d0, key, p, m, OpsAt(r, p)[m]);
      } else if p == base {
        assert m in OpsAt(e, p) && OpsAt(r, p)[m] == OpsAt(e, p)[m];
      } else {
        assert OpsAt(r, p) == OpsAt(e, p);
      }
    }
  }

  /** One step keeps `Provenance`, as long as the key it visits is not yet
      changed. */
  lemma ProvenanceStep(d0: map<string, Json>, e: map<string, Json>, key: string)
    requires Provenance(d0, e)
    requires HasQuery(key) && key in e ==> key in d0 && e[key] == d0[key]
    ensures Provenance(d0, StepEntries(e, key))
  {
    if HasQuery(key) && key in e && !Blocked(e, key) {
      StepKeysFrom(d0, e, key);
      StepOpsFrom(d0, e, key);
    }
  }

  lemma {:induction false} ProcessProvenance(d0: ODict, n: nat)
    requires OrderOk(d0.keys, d0.entries) && n <= |d0.keys|
    ensures Provenance(d0.entries, Process(d0, d0.keys[..n]).entries)
  {
    if n > 0 {
      var before := Process(d0, d0.keys[..n - 1]);
      var key := d0.keys[n - 1];
      ProcessProvenance(d0, n - 1);
      NextKeyUnchanged(d0, n);
      ProvenanceStep(d0.entries, before.entries, key);
      ProcessNext(d0, n);
    }
  }

  /** The key the loop visits next is still as it was in `d0`. */
  lemma NextKeyUnchanged(d0: ODict, n: nat)
    requires OrderOk(d0.keys, d0.entries) && 0 < n <= |d0.keys|
    ensures var e := Process(d0, d0.keys[..n - 1]).entries;
      var key := d0.keys[n - 1];
      HasQuery(key) && key in e ==> key in d0.entries && e[key] == d0.entries[key]
  {
    ProcessProgress(d0, n - 1);
    assert d0.keys[n - 1] !in d0.keys[..n - 1];
  }

  /** The loop after `n` keys is one step after `n - 1`. */
  lemma ProcessNext(d0: ODict, n: nat)
    requires OrderOk(d0.keys, d0.entries) && 0 < n <= |d0.keys|
    ensures Process(d0, d0.keys[..n]).entries
         == StepEntries(Process(d0, d0.keys[..n - 1]).entries, d0.keys[n - 1])
  {
    assert d0.keys[..n][..n - 1] == d0.keys[..n - 1];
    StepShape(Process(d0, d0.keys[..n - 1]), d0.keys[n - 1]);
  }

  /** What `remove_query_params` promises for every document: every plain
      path survives with each of its operations unchanged; a variant either
      survives unchanged because its bare path already has one of its methods,
      or is gone and all its operations sit under the bare path with the query
      parameter appended; no new key carries a query string; and nothing
      else is there: a new key is the bare path of an absorbed variant, and
      every operation was there before or came from a variant. */
  lemma RemovedQueryParamsSpec(d: ODict)
    requires OrderOk(d.keys, d.entries)
    ensures var r := RemovedQueryParams(d).entries;
      && (forall p :: p in d.entries && !HasQuery(p) ==> p in r && SubMap(OpsAt(d.entries, p), OpsAt(r, p)))
      && (forall x :: x in d.entries && HasQuery(x) ==>
            (x in r && r[x] == d.entries[x] && Blocked(r, x)) || (x !in r && Absorbed(r, x, d.entries[x])))
      && (forall x :: x in r ==> x in d.entries || !HasQuery(x))
      && (forall k :: k in r ==>
            k in d.entries || exists y :: y in d.entries && HasQuery(y) && BasePath(y) == k && y !in r)
      && (forall p, m :: p in r && m in OpsAt(r, p) ==>
            (m in OpsAt(d.entries, p) && OpsAt(d.entries, p)[m] == OpsAt(r, p)[m])
            || exists y :: MovedFrom(d.entries, y, p, m, OpsAt(r, p)[m]))
  {
    ProcessProgress(d, |d.keys|);
    ProcessProvenance(d, |d.keys|);
    assert d.keys[..|d.keys|] == d.keys;
  }

  // ---------------------------------------------------------------------------
  // The cases of the test suite, for any bare path and queries

  /** A variant key is split back into its bare path and its query. */
  lemma VariantParts(base: string, query: string)
    requires '?' !in base
    ensures HasQuery(base + "?" + query) && !HasQuery(base)
    ensures BasePath(base + "?" + query) == base && QueryOf(base + "?" + query) == query
  {
    var key := base + "?" + query;
    assert key[|base|] == '?';
    assert forall j :: 0 <= j < |base| ==> key[j] == base[j];
    assert key[..|base|] == base;
    assert key[|base| + 1..] == query;
  }

  /** An operation with only an empty `parameters` list. */
  const Bare: Json := JObj(map["parameters" := JList([])])

  /** `Bare` with the query parameter of `query` appended. */
  function WithQuery(query: string): Json {
    JObj(map["parameters" := JList([QueryParameter(query)])])
  }

  lemma WithQueryIs(query: string)
    ensures WithParameter(Bare, QueryParameter(query)) == WithQuery(query)
  {
    assert ParamsOf(Bare.fields) + [QueryParameter(query)] == [QueryParameter(query)];
    assert Bare.fields["parameters" := JList([QueryParameter(query)])] == WithQuery(query).fields;
  }

  /** An absolute duplicate: the bare path already has the variant's method,
      and nothing changes. */
  lemma AbsoluteDuplicateUnchanged(base: string, query: string)
    requires '?' !in base
    ensures var key := base + "?" + query;
      var d := ODict([key, base], map[key := JObj(map["post" := Bare]), base := JObj(map["post" := JObj(map[])])]);
      OrderOk(d.keys, d.entries) && RemovedQueryParams(d) == d
  {
    var key := base + "?" + query;
    VariantParts(base, query);
    var d := ODict([key, base], map[key := JObj(map["post" := Bare]), base := JObj(map["post" := JObj(map[])])]);
    assert Blocked(d.entries, key) by {
      assert "post" in OpsAt(d.entries, key).Keys * OpsAt(d.entries, base).Keys;
    }
    assert d.keys == [key] + [base];
    ProcessSnoc(d, [key], base);
    ProcessSnoc(d, [], key);
  }

  /** The document of the partial-duplicate case: a variant with `post` and
      its bare path with `get`. */
  function PartialDuplicate(base: string, query: string): ODict {
    var key := base + "?" + query;
    ODict([key, base], map[key := JObj(map["post" := Bare]), base := JObj(map["get" := Bare])])
  }

  lemma PartialDuplicateStep(base: string, query: string)
    requires '?' !in base
    ensures Step(PartialDuplicate(base, query), base + "?" + query).entries
         == map[base := JObj(map["get" := Bare, "post" := WithQuery(query)])]
  {
    var key := base + "?" + query;
    VariantParts(base, query);
    WithQueryIs(query);
    var d := PartialDuplicate(base, query);
    var e := d.entries;
    assert !Blocked(e, key) by {
      assert OpsAt(e, key).Keys * OpsAt(e, base).Keys == {};
    }
    var added := WithParameterAll(FieldsOf(e[key]), QueryParameter(QueryOf(key)));
    assert added == map["post" := WithQuery(query)];
    var merged := OpsAt(e, base) + added;
    assert merged == map["get" := Bare, "post" := WithQuery(query)];
    StepShape(d, key);
    assert Merged(e, key) == e[base := JObj(merged)] - {key};
    OverwriteThenDrop(key, base, e[key], e[base], JObj(merged));
  }

  /** The document of the two-variant cases: two queries on one bare path that
      is itself absent, the first with `post`, the second with `httpMethod`. */
  function TwoVariants(base: string, query1: string, query2: string, httpMethod: string): ODict {
    var key1 := base + "?" + query1;
    var key2 := base + "?" + query2;
    ODict([key1, key2], map[key1 := JObj(map["post" := Bare]), key2 := JObj(map[httpMethod := Bare])])
  }

  /** The entries once the first variant has moved under the bare path. */
  function AfterFirst(base: string, query1: string, query2: string, httpMethod: string): map<string, Json> {
    map[base + "?" + query2 := JObj(map[httpMethod := Bare]), base := JObj(map["post" := WithQuery(query1)])]
  }

  /** The first variant moves under the bare path, which is created. */
  lemma TwoVariantsFirstStep(base: string, query1: string, query2: string, httpMethod: string)
    requires '?' !in base && query1 != query2
    ensures StepEntries(TwoVariants(base, query1, query2, httpMethod).entries, base + "?" + query1)
         == AfterFirst(base, query1, query2, httpMethod)
  {
    var key1 := base + "?" + query1;
    var key2 := base + "?" + query2;
    VariantParts(base, query1);
    VariantParts(base, query2);
    WithQueryIs(query1);
    var e := TwoVariants(base, query1, query2, httpMethod).entries;
    assert key1 != key2 && base != key1 && base != key2;
    assert base !in e;
    var added := WithParameterAll(FieldsOf(e[key1]), QueryParameter(QueryOf(key1)));
    assert added == map["post" := WithQuery(query1)];
    var merged := OpsAt(e, base) + added;
    assert merged == map["post" := WithQuery(query1)];
    assert Merged(e, key1) == e[base := JObj(merged)] - {key1};
    AddThenDrop(key1, key2, base, e[key1], e[key2], JObj(merged));
  }

  /** The second variant's method is new to the bare path: it moves there too. */
  lemma TwoVariantsSecondStepMerges(base: string, query1: string, query2: string)
    requires '?' !in base && query1 != query2
    ensures StepEntries(AfterFirst(base, query1, query2, "get"), base + "?" + query2)
         == map[base := JObj(map["post" := WithQuery(query1), "get" := WithQuery(query2)])]
  {
    var key2 := base + "?" + query2;
    VariantParts(base, query2);
    WithQueryIs(query2);
    var e := AfterFirst(base, query1, query2, "get");
    assert OpsAt(e, key2) == map["get" := Bare];
    assert OpsAt(e, base) == map["post" := WithQuery(query1)];
    assert !Blocked(e, key2) by {
      assert OpsAt(e, key2).Keys * OpsAt(e, base).Keys == {};
    }
    var added := WithParameterAll(OpsAt(e, key2), QueryParameter(query2));
    assert added == map["get" := WithQuery(query2)];
    var merged := OpsAt(e, base) + added;
    assert merged == map["post" := WithQuery(query1), "get" := WithQuery(query2)];
    assert Merged(e, key2) == e[base := JObj(merged)] - {key2};
    OverwriteThenDrop(key2, base, e[key2], e[base], JObj(merged));
  }

  /** The second variant's method is already at the bare path: it stays. */
  lemma TwoVariantsSecondStepBlocked(base: string, query1: string, query2: string)
    requires '?' !in base && query1 != query2
    ensures StepEntries(AfterFirst(base, query1, query2, "post"), base + "?" + query2)
         == AfterFirst(base, query1, query2, "post")
  {
    var key2 := base + "?" + query2;
    VariantParts(base, query2);
    var e := AfterFirst(base, query1, query2, "post");
    assert OpsAt(e, key2) == map["post" := Bare];
    assert OpsAt(e, base) == map["post" := WithQuery(query1)];
    assert Blocked(e, key2) by {
      assert "post" in OpsAt(e, key2).Keys * OpsAt(e, base).Keys;
    }
  }

  /** The loop over two keys is two steps. */
  lemma ProcessTwo(d: ODict, key1: string, key2: string)
    requires OrderOk(d.keys, d.entries) && d.keys == [key1, key2]
    ensures RemovedQueryParams(d).entries == StepEntries(StepEntries(d.entries, key1), key2)
  {
    assert d.keys == [key1] + [key2];
    ProcessSnoc(d, [key1], key2);
    ProcessSnoc(d, [], key1);
    StepShape(d, key1);
    StepShape(Step(d, key1), key2);
  }

  /** Two variants with different methods both move under the bare path,
      each with its own query parameter (cases 2.2 and 3.1). */
  lemma TwoVariantsMerged(base: string, query1: string, query2: string)
    requires '?' !in base && query1 != query2
    ensures var d := TwoVariants(base, query1, query2, "get");
      && OrderOk(d.keys, d.entries)
      && RemovedQueryParams(d).entries
         == map[base := JObj(map["post" := WithQuery(query1), "get" := WithQuery(query2)])]
  {
    VariantParts(base, query1);
    VariantParts(base, query2);
    TwoVariantsFirstStep(base, query1, query2, "get");
    TwoVariantsSecondStepMerges(base, query1, query2);
    ProcessTwo(TwoVariants(base, query1, query2, "get"), base + "?" + query1, base + "?" + query2);
  }

  /** Two variants with the same method: the first moves under the bare path,
      and the second then stays where it is, unchanged (case 3.2). */
  lemma TwoVariantsSameMethod(base: string, query1: string, query2: string)
    requires '?' !in base && query1 != query2
    ensures var d := TwoVariants(base, query1, query2, "post");
      && OrderOk(d.keys, d.entries)
      && RemovedQueryParams(d).entries == AfterFirst(base, query1, query2, "post")
  {
    VariantParts(base, query1);
    VariantParts(base, query2);
    TwoVariantsFirstStep(base, query1, query2, "post");
    TwoVariantsSecondStepBlocked(base, query1, query2);
    ProcessTwo(TwoVariants(base, query1, query2, "post"), base + "?" + query1, base + "?" + query2);
  }

  /** Three-key map: adding a third entry and dropping the first. */
  lemma AddThenDrop(k1: string, k2: string, k3: string, v1: Json, v2: Json, x: Json)
    requires k1 != k2 && k1 != k3 && k2 != k3
    ensures map[k1 := v1, k2 := v2][k3 := x] - {k1} == map[k2 := v2, k3 := x]
  {
  }

  /** Two-entry map: overwriting the second entry and dropping the first. */
  lemma OverwriteThenDrop(k1: string, k2: string, v1: Json, v2: Json, x: Json)
    requires k1 != k2
    ensures map[k1 := v1, k2 := v2][k2 := x] - {k1} == map[k2 := x]
  {
  }

  /** A partial duplicate: the variant's method is new to the bare path and
      moves there with the query parameter. */
  lemma PartialDuplicateMerged(base: string, query: string)
    requires '?' !in base
    ensures var d := PartialDuplicate(base, query);
      && OrderOk(d.keys, d.entries)
      && RemovedQueryParams(d).entries == map[base := JObj(map["get" := Bare, "post" := WithQuery(query)])]
  {
    var key := base + "?" + query;
    VariantParts(base, query);
    var d := PartialDuplicate(base, query);
    PartialDuplicateStep(base, query);
    assert d.keys == [key] + [base];
    ProcessSnoc(d, [key], base);
    ProcessSnoc(d, [], key);
  }

  // ---------------------------------------------------------------------------
  // The pass over the mutable document

  /** The body of the loop for one key: an unblocked variant is merged into
      its bare path and deleted. */
  method MoveVariant(paths: Dict, key: string)
    requires paths.Valid()
    modifies paths
    ensures paths.Valid()
    ensures paths.Value() == Step(old(paths.Value()), key)
  {
    if HasQuery(key) && key in paths.entries && !Blocked(paths.entries, key) {
      var base := BasePath(key);
      var added := WithParameterAll(FieldsOf(paths.entries[key]), QueryParameter(QueryOf(key)));
      paths.Put(base, JObj(OpsAt(paths.entries, base) + added));
      paths.Delete(key);
    }
  }

  /** `remove_query_params(path_dict)`, rewriting `paths` in place. */
  method RemoveQueryParams(paths: Dict)
    requires paths.Valid() && QueriesWellFormed(paths.entries)
    modifies paths
    ensures paths.Valid()
    ensures paths.Value() == RemovedQueryParams(old(paths.Value()))
  {
    var ks := paths.keys;
    ghost var start := paths.Value();
    var i := 0;
    while i < |ks|
      invariant 0 <= i <= |ks|
      invariant paths.Valid()
      invariant paths.Value() == Process(start, ks[..i])
    {
      var key := ks[i];
      ghost var before := paths.Value();
      MoveVariant(paths, key);
      ProcessSnoc(start, ks[..i], key);
      assert ks[..i + 1] == ks[..i] + [key];
      i := i + 1;
    }
    assert ks[..i] == ks;
  }
}
