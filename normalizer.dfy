/** Namespace Normaliser: `remove_com_vmware_from_dict(node)`. The vendor
    package prefix `com.vmware.` is removed from the strings under `$ref`,
    `summary` and `description`; in `$ref` strings `$` becomes `_`; `required`
    is dropped wherever it stands beside `$ref`; and the top-level keys (the
    type names of a type document) get the same prefix and `$` rewrite. */
module Normalizer {
  import opened Strings
  import opened Document

  /** The vendor package prefix as it appears in dotted names. */
  const VendorPrefix := "com.vmware."

  /** A `summary` or `description` text without the vendor prefix. */
  function CleanText(s: string): string {
    RemoveAll(s, VendorPrefix)
  }

  /** A `$ref` target without the vendor prefix and with `$` turned into `_`. */
  function CleanRef(s: string): (r: string)
    ensures '$' !in r
  {
    ReplaceChar(RemoveAll(s, VendorPrefix), '$', '_')
  }

  /** A top-level key after the rename: the prefix and `$` rewrite of a `$ref`. */
  function NewKey(key: string): (r: string)
    ensures '$' !in r
  {
    CleanRef(key)
  }

  /** The value under `key` after the rewrite: a string is rewritten when its
      key is `$ref`, `summary` or `description`; a mapping or a list is
      rewritten recursively; anything else is kept. */
  function NormalizeEntry(key: string, x: Json): Json
    decreases x, 2
  {
    match x
    case JStr(s) =>
      if key == "$ref" then JStr(CleanRef(s))
      else if key == "summary" || key == "description" then JStr(CleanText(s))
      else x
    case _ => Normalize(x)
  }

  /** A value after the rewrite. Strings that are not under a key (list items)
      are kept. */
  function Normalize(v: Json): (r: Json)
    ensures r.JObj? == v.JObj? && r.JStr? == v.JStr?
    decreases v, 1
  {
    match v
    case JObj(_) => JObj(NormalizeFields(v))
    case JList(items) => JList(seq(|items|, i requires 0 <= i < |items| => Normalize(items[i])))
    case _ => v
  }

  /** The fields of a mapping after the rewrite: every entry rewritten, and
      `required` dropped when `$ref` is present. */
  function NormalizeFields(v: Json): map<string, Json>
    requires v.JObj?
    decreases v, 0
  {
    var g := map k | k in v.fields :: NormalizeEntry(k, v.fields[k]);
    if "$ref" in v.fields then g - {"required"} else g
  }

  // ---------------------------------------------------------------------------
  // What the rewrite leaves behind

  /** Every `$ref` string is free of `$`, no `required` stands beside a `$ref`,
      at every level. */
  predicate RefsClean(v: Json)
    decreases v
  {
    match v
    case JObj(f) =>
      && ("$ref" in f ==> "required" !in f && (f["$ref"].JStr? ==> '$' !in f["$ref"].s))
      && (forall k :: k in f ==> RefsClean(f[k]))
    case JList(items) => forall i :: 0 <= i < |items| ==> RefsClean(items[i])
    case _ => true
  }

  /** After the rewrite every reference is clean. */
  lemma {:induction false} NormalizeRefsClean(v: Json)
    ensures RefsClean(Normalize(v))
    decreases v, 1
  {
    match v
    case JObj(f) =>
      var g := NormalizeFields(v);
      forall k | k in g ensures RefsClean(g[k]) {
        NormalizeEntryRefsClean(k, f[k]);
      }
      if "$ref" in g {
        assert g["$ref"] == NormalizeEntry("$ref", f["$ref"]);
      }
    case JList(items) =>
      forall i | 0 <= i < |items| ensures RefsClean(Normalize(items[i])) {
        NormalizeRefsClean(items[i]);
      }
    case _ =>
  }

  lemma {:induction false} NormalizeEntryRefsClean(key: string, x: Json)
    ensures RefsClean(NormalizeEntry(key, x))
    decreases x, 2
  {
    if !x.JStr? {
      NormalizeRefsClean(x);
    }
  }

  /** Keys are never added: a mapping keeps its keys, less `required` beside `$ref`. */
  lemma NormalizeFieldsKeys(v: Json)
    requires v.JObj?
    ensures NormalizeFields(v).Keys
         == if "$ref" in v.fields then v.fields.Keys - {"required"} else v.fields.Keys
  {
  }

  // ---------------------------------------------------------------------------
  // Running the rewrite twice

  /** The texts the rewrite touches are settled: one removal of the prefix
      leaves no prefix behind. */
  predicate Settled(v: Json)
    decreases v
  {
    match v
    case JObj(f) =>
      forall k :: k in f ==>
        && (f[k].JStr? && (k == "$ref" || k == "summary" || k == "description") ==>
              !Contains(RemoveAll(f[k].s, VendorPrefix), VendorPrefix))
        && Settled(f[k])
    case JList(items) => forall i :: 0 <= i < |items| ==> Settled(items[i])
    case _ => true
  }

  /** Turning `a` into `b` cannot create an occurrence of a pattern without `b`. */
  lemma {:induction false} ReplaceCharContains(s: string, a: char, b: char, p: string)
    requires b !in p
    requires Contains(ReplaceChar(s, a, b), p)
    ensures Contains(s, p)
    decreases |s|
  {
    var r := ReplaceChar(s, a, b);
    if p <= r {
      forall i | 0 <= i < |p| ensures s[i] == p[i] {
        assert r[i] == p[i];
        if s[i] == a {
          ReplaceCharAt(s, a, b, i);
        }
      }
      assert s[..|p|] == p;
    } else {
      assert r != [] && Contains(r[1..], p);
      assert r[1..] == ReplaceChar(s[1..], a, b);
      ReplaceCharContains(s[1..], a, b, p);
    }
  }

  lemma CleanTextTwice(s: string)
    requires !Contains(RemoveAll(s, VendorPrefix), VendorPrefix)
    ensures CleanText(CleanText(s)) == CleanText(s)
  {
    RemoveAllAbsent(CleanText(s), VendorPrefix);
  }

  lemma CleanRefTwice(s: string)
    requires !Contains(RemoveAll(s, VendorPrefix), VendorPrefix)
    ensures CleanRef(CleanRef(s)) == CleanRef(s)
    ensures !Contains(RemoveAll(CleanRef(s), VendorPrefix), VendorPrefix)
  {
    var t := RemoveAll(s, VendorPrefix);
    var u := CleanRef(s);
    assert '_' !in VendorPrefix;
    if Contains(u, VendorPrefix) {
      ReplaceCharContains(t, '$', '_', VendorPrefix);
    }
    RemoveAllAbsent(u, VendorPrefix);
    ReplaceCharAbsent(u, '$', '_');
  }

  /** On settled input the rewrite is idempotent, and its output is settled. */
  lemma {:induction false} NormalizeIdempotent(v: Json)
    requires Settled(v)
    ensures Settled(Normalize(v))
    ensures Normalize(Normalize(v)) == Normalize(v)
    decreases v, 1
  {
    match v
    case JObj(f) =>
      var g := NormalizeFields(v);
      forall k | k in g
        ensures NormalizeEntry(k, g[k]) == g[k]
        ensures g[k].JStr? && (k == "$ref" || k == "summary" || k == "description") ==>
                  !Contains(RemoveAll(g[k].s, VendorPrefix), VendorPrefix)
        ensures Settled(g[k])
      {
        NormalizeEntryIdempotent(k, f[k]);
      }
      var h := NormalizeFields(JObj(g));
      assert Settled(JObj(g));
      assert h == g;
    case JList(items) =>
      var n := seq(|items|, i requires 0 <= i < |items| => Normalize(items[i]));
      forall i | 0 <= i < |items| ensures Settled(n[i]) && Normalize(n[i]) == n[i] {
        NormalizeIdempotent(items[i]);
      }
      assert seq(|n|, i requires 0 <= i < |n| => Normalize(n[i])) == n;
    case _ =>
  }

  lemma {:induction false} NormalizeEntryIdempotent(key: string, x: Json)
    requires Settled(x)
    requires x.JStr? && (key == "$ref" || key == "summary" || key == "description") ==>
               !Contains(RemoveAll(x.s, VendorPrefix), VendorPrefix)
    ensures var y := NormalizeEntry(key, x);
      && NormalizeEntry(key, y) == y
      && (y.JStr? && (key == "$ref" || key == "summary" || key == "description") ==>
            !Contains(RemoveAll(y.s, VendorPrefix), VendorPrefix))
      && Settled(y)
    decreases x, 2
  {
    match x
    case JStr(s) =>
      if key == "$ref" {
        CleanRefTwice(s);
      } else if key == "summary" || key == "description" {
        CleanTextTwice(s);
        RemoveAllAbsent(CleanText(s), VendorPrefix);
      }
    case _ =>
      NormalizeIdempotent(x);
  }

  // ---------------------------------------------------------------------------
  // No prefix left behind

  /** No string under `$ref`, `summary` or `description` holds the vendor
      prefix, at any level. */
  predicate PrefixFree(v: Json)
    decreases v
  {
    match v
    case JObj(f) =>
      forall k :: k in f ==>
        && (f[k].JStr? && (k == "$ref" || k == "summary" || k == "description") ==>
              !Contains(f[k].s, VendorPrefix))
        && PrefixFree(f[k])
    case JList(items) => forall i :: 0 <= i < |items| ==> PrefixFree(items[i])
    case _ => true
  }

  /** A text or a reference whose one removal leaves no prefix comes out
      without the prefix: turning `$` into `_` cannot make one. */
  lemma CleanPrefixFree(s: string)
    requires !Contains(RemoveAll(s, VendorPrefix), VendorPrefix)
    ensures !Contains(CleanText(s), VendorPrefix)
    ensures !Contains(CleanRef(s), VendorPrefix)
  {
    assert '_' !in VendorPrefix;
    if Contains(CleanRef(s), VendorPrefix) {
      ReplaceCharContains(RemoveAll(s, VendorPrefix), '$', '_', VendorPrefix);
    }
  }

  /** A renamed top-level key is free of the prefix under the same condition. */
  lemma NewKeyPrefixFree(key: string)
    requires !Contains(RemoveAll(key, VendorPrefix), VendorPrefix)
    ensures !Contains(NewKey(key), VendorPrefix)
  {
    CleanPrefixFree(key);
  }

  /** On settled input the rewrite leaves no prefix in the texts it touches. */
  lemma {:induction false} NormalizePrefixFree(v: Json)
    requires Settled(v)
    ensures PrefixFree(Normalize(v))
    decreases v, 1
  {
    match v
    case JObj(f) =>
      var g := NormalizeFields(v);
      forall k | k in g
        ensures g[k].JStr? && (k == "$ref" || k == "summary" || k == "description") ==>
                  !Contains(g[k].s, VendorPrefix)
        ensures PrefixFree(g[k])
      {
        NormalizeEntryPrefixFree(k, f[k]);
      }
    case JList(items) =>
      forall i | 0 <= i < |items| ensures PrefixFree(Normalize(items[i])) {
        NormalizePrefixFree(items[i]);
      }
    case _ =>
  }

  lemma {:induction false} NormalizeEntryPrefixFree(key: string, x: Json)
    requires Settled(x)
    requires x.JStr? && (key == "$ref" || key == "summary" || key == "description") ==>
               !Contains(RemoveAll(x.s, VendorPrefix), VendorPrefix)
    ensures var y := NormalizeEntry(key, x);
      && (y.JStr? && (key == "$ref" || key == "summary" || key == "description") ==>
            !Contains(y.s, VendorPrefix))
      && PrefixFree(y)
    decreases x, 2
  {
    match x
    case JStr(s) =>
      if key == "$ref" || key == "summary" || key == "description" {
        CleanPrefixFree(s);
      }
    case _ =>
      NormalizePrefixFree(x);
  }

  /** A text that starts with the prefix loses it (`com.vmware.mock` becomes
      `mock`). */
  lemma CleanTextOfPrefixed(x: string)
    requires !Contains(x, VendorPrefix)
    ensures CleanText(VendorPrefix + x) == x
  {
    RemoveAllLeading(VendorPrefix, x);
    RemoveAllAbsent(x, VendorPrefix);
  }

  /** A reference into a section (`#/definitions/`, `#/parameters/`) to a
      prefixed name loses the prefix and has its `$` turned into `_`
      (`#/definitions/com.vmware.mock_response$result` becomes
      `#/definitions/mock_response_result`). */
  lemma CleanRefOfReference(head: string, x: string)
    requires 'c' !in head && '$' !in head
    requires !Contains(x, VendorPrefix)
    ensures CleanRef(head + VendorPrefix + x) == head + ReplaceChar(x, '$', '_')
  {
    assert VendorPrefix[0] == 'c';
    assert head + VendorPrefix + x == head + (VendorPrefix + x);
    RemoveAllAfter(head, VendorPrefix + x, VendorPrefix);
    CleanTextOfPrefixed(x);
    ReplaceCharAppend(head, x, '$', '_');
    ReplaceCharAbsent(head, '$', '_');
  }

  /** A prefixed type name with one `$` is renamed without the prefix and
      with `_` for the `$` (`com.vmware.mock.mock_check$list` becomes
      `mock.mock_check_list`). */
  lemma NewKeyOfTypeName(x: string, y: string)
    requires '$' !in x && '$' !in y
    requires !Contains(x + "$" + y, VendorPrefix)
    ensures NewKey(VendorPrefix + x + "$" + y) == x + "_" + y
  {
    assert VendorPrefix + x + "$" + y == VendorPrefix + (x + "$" + y);
    CleanTextOfPrefixed(x + "$" + y);
    ReplaceCharOnce(x, y, '$', '_');
  }

  /** Nothing else changes: a null, a boolean, or a string under any key but
      `$ref`, `summary` and `description` keeps its key and its value (unless
      it is the `required` beside a `$ref`). */
  lemma NormalizeFieldsKeepsOthers(v: Json, k: string)
    requires v.JObj? && k in v.fields
    requires !v.fields[k].JObj? && !v.fields[k].JList?
    requires v.fields[k].JStr? ==> k != "$ref" && k != "summary" && k != "description"
    requires !("$ref" in v.fields && k == "required")
    ensures k in NormalizeFields(v) && NormalizeFields(v)[k] == v.fields[k]
  {
    assert NormalizeEntry(k, v.fields[k]) == v.fields[k];
  }

  // ---------------------------------------------------------------------------
  // Renaming the top-level keys

  /** Where the top-level entry under `key` goes: a mapping (a type or path
      item) moves to the key's new form; any other value stays. */
  function Target(e: map<string, Json>, key: string): string {
    if key in e && e[key].JObj? then NewKey(key) else key
  }

  /** One step of the rename loop: an entry whose target differs is moved
      there (`d[new] = d.pop(key)`). */
  function RenameStep(d: ODict, key: string): ODict {
    if key in d.entries && Target(d.entries, key) != key
    then Store(Erase(d, key), NewKey(key), d.entries[key])
    else d
  }

  /** The document after the rename loop has visited `keys`, in order. */
  function Renamed(d: ODict, keys: seq<string>): ODict
    decreases |keys|
  {
    if keys == [] then d
    else RenameStep(Renamed(d, keys[..|keys| - 1]), keys[|keys| - 1])
  }

  lemma RenamedSnoc(d: ODict, keys: seq<string>, key: string)
    ensures Renamed(d, keys + [key]) == RenameStep(Renamed(d, keys), key)
  {
    assert (keys + [key])[..|keys|] == keys;
  }

  /** One more key of the loop's snapshot visited. */
  lemma RenamedPrefix(d: ODict, ks: seq<string>, i: nat)
    requires i < |ks|
    ensures Renamed(d, ks[..i + 1]) == RenameStep(Renamed(d, ks[..i]), ks[i])
  {
    assert ks[..i + 1][..i] == ks[..i];
  }

  lemma RenameStepOk(d: ODict, key: string)
    requires OrderOk(d.keys, d.entries)
    ensures OrderOk(RenameStep(d, key).keys, RenameStep(d, key).entries)
  {
    if key in d.entries && Target(d.entries, key) != key {
      EraseOk(d, key);
      StoreOk(Erase(d, key), NewKey(key), d.entries[key]);
    }
  }

  lemma {:induction false} RenamedOk(d: ODict, keys: seq<string>)
    requires OrderOk(d.keys, d.entries)
    ensures OrderOk(Renamed(d, keys).keys, Renamed(d, keys).entries)
    decreases |keys|
  {
    if keys != [] {
      RenamedOk(d, keys[..|keys| - 1]);
      RenameStepOk(Renamed(d, keys[..|keys| - 1]), keys[|keys| - 1]);
    }
  }

  /** Once the loop has visited the first `n` keys, every mapping under a key
      holding `$` sits at a key not yet visited. */
  lemma {:induction false} RenamedKeysClean(d: ODict, n: nat)
    requires OrderOk(d.keys, d.entries) && n <= |d.keys|
    ensures var r := Renamed(d, d.keys[..n]).entries;
      forall k :: k in r && r[k].JObj? && '$' in k ==> k in d.keys[n..]
  {
    if n > 0 {
      var prev := Renamed(d, d.keys[..n - 1]);
      RenamedKeysClean(d, n - 1);
      assert d.keys[..n] == d.keys[..n - 1] + [d.keys[n - 1]];
      RenamedSnoc(d, d.keys[..n - 1], d.keys[n - 1]);
      var key := d.keys[n - 1];
      var r := RenameStep(prev, key).entries;
      forall k | k in r && r[k].JObj? && '$' in k ensures k in d.keys[n..] {
        if k != NewKey(key) {
          assert k in prev.entries && r[k] == prev.entries[k];
          assert k in d.keys[n - 1..];
          assert k != key;
          assert d.keys[n - 1..] == [key] + d.keys[n..];
        }
      }
    } else {
      assert d.keys[0..] == d.keys;
    }
  }

  /** Once the loop has visited the first `n` keys, every mapping sits at a
      key not yet visited or at the new form of some original key. */
  lemma {:induction false} RenamedKeysFrom(d: ODict, n: nat)
    requires OrderOk(d.keys, d.entries) && n <= |d.keys|
    ensures var r := Renamed(d, d.keys[..n]).entries;
      forall k :: k in r && r[k].JObj? ==>
        k in d.keys[n..] || exists j :: j in d.entries && k == NewKey(j)
  {
    if n > 0 {
      var prev := Renamed(d, d.keys[..n - 1]);
      RenamedKeysFrom(d, n - 1);
      assert d.keys[..n] == d.keys[..n - 1] + [d.keys[n - 1]];
      RenamedSnoc(d, d.keys[..n - 1], d.keys[n - 1]);
      var key := d.keys[n - 1];
      assert d.keys[n - 1..] == [key] + d.keys[n..];
      var r := RenameStep(prev, key).entries;
      forall k | k in r && r[k].JObj?
        ensures k in d.keys[n..] || exists j :: j in d.entries && k == NewKey(j)
      {
        if key in prev.entries && Target(prev.entries, key) != key && k == NewKey(key) {
          assert key in d.entries;
        } else if k == key {
          assert k == NewKey(key) && key in d.entries;
        } else {
          assert k in prev.entries && r[k] == prev.entries[k];
        }
      }
    } else {
      assert d.keys[0..] == d.keys;
    }
  }

  /** Renaming moves mappings only: a value that is not a mapping is still
      under the key it had. */
  lemma {:induction false} RenamedKeepsScalars(d: ODict, keys: seq<string>)
    ensures var r := Renamed(d, keys).entries;
      forall k :: k in r && !r[k].JObj? ==> k in d.entries && d.entries[k] == r[k]
    decreases |keys|
  {
    if keys != [] {
      var prev := Renamed(d, keys[..|keys| - 1]);
      RenamedKeepsScalars(d, keys[..|keys| - 1]);
      RenameStepEntries(prev, keys[|keys| - 1]);
    }
  }

  /** A rename without collisions: targets are distinct, and an entry that
      moves does not land on another key of the document. */
  predicate RenameSafe(d: ODict) {
    && (forall i, j :: 0 <= i < j < |d.keys| ==> Target(d.entries, d.keys[i]) != Target(d.entries, d.keys[j]))
    && (forall i, j :: 0 <= i < |d.keys| && 0 <= j < |d.keys| && Target(d.entries, d.keys[i]) != d.keys[i] ==>
          Target(d.entries, d.keys[i]) != d.keys[j])
  }

  /** The entries after one rename step. */
  lemma RenameStepEntries(d: ODict, key: string)
    ensures RenameStep(d, key).entries
         == if key in d.entries && Target(d.entries, key) != key
            then (d.entries - {key})[NewKey(key) := d.entries[key]]
            else d.entries
  {
  }

  /** The document `r` after the rename loop has visited the first `n` keys
      of `d`: every visited entry is at its target with its value, every
      other entry is where it was, and nothing else is there. */
  predicate Moved(d: ODict, r: map<string, Json>, n: nat)
    requires OrderOk(d.keys, d.entries) && n <= |d.keys|
  {
    MovedVisited(d, r, n) && MovedUnvisited(d, r, n) && MovedNothingElse(d, r, n)
  }

  predicate MovedVisited(d: ODict, r: map<string, Json>, n: nat)
    requires OrderOk(d.keys, d.entries) && n <= |d.keys|
  {
    forall i :: 0 <= i < n ==>
      Target(d.entries, d.keys[i]) in r && r[Target(d.entries, d.keys[i])] == d.entries[d.keys[i]]
  }

  predicate MovedUnvisited(d: ODict, r: map<string, Json>, n: nat)
    requires OrderOk(d.keys, d.entries) && n <= |d.keys|
  {
    forall i :: n <= i < |d.keys| ==> d.keys[i] in r && r[d.keys[i]] == d.entries[d.keys[i]]
  }

  /** Where the `i`-th key's entry is after `n` turns of the loop. */
  function Place(d: ODict, n: nat, i: nat): string
    requires i < |d.keys|
  {
    if i < n then Target(d.entries, d.keys[i]) else d.keys[i]
  }

  predicate MovedNothingElse(d: ODict, r: map<string, Json>, n: nat)
    requires OrderOk(d.keys, d.entries) && n <= |d.keys|
  {
    forall k :: k in r ==>
      exists i :: 0 <= i < |d.keys| && k == Place(d, n, i)
  }

  lemma MovedStepVisited(d: ODict, prev: ODict, n: nat)
    requires OrderOk(d.keys, d.entries) && RenameSafe(d) && 0 < n <= |d.keys|
    requires MovedVisited(d, prev.entries, n - 1) && MovedUnvisited(d, prev.entries, n - 1)
    ensures MovedVisited(d, RenameStep(prev, d.keys[n - 1]).entries, n)
  {
    var key := d.keys[n - 1];
    var r := RenameStep(prev, key).entries;
    RenameStepEntries(prev, key);
    assert key in prev.entries && prev.entries[key] == d.entries[key];
    assert Target(prev.entries, key) == Target(d.entries, key);
    forall i | 0 <= i < n
      ensures Target(d.entries, d.keys[i]) in r && r[Target(d.entries, d.keys[i])] == d.entries[d.keys[i]]
    {
      if i < n - 1 {
        assert Target(d.entries, d.keys[i]) != Target(d.entries, key);
        assert d.keys[i] != key;
      }
    }
  }

  lemma MovedStepUnvisited(d: ODict, prev: ODict, n: nat)
    requires OrderOk(d.keys, d.entries) && RenameSafe(d) && 0 < n <= |d.keys|
    requires MovedUnvisited(d, prev.entries, n - 1)
    ensures MovedUnvisited(d, RenameStep(prev, d.keys[n - 1]).entries, n)
  {
    var key := d.keys[n - 1];
    RenameStepEntries(prev, key);
    assert key in prev.entries && prev.entries[key] == d.entries[key];
    assert Target(prev.entries, key) == Target(d.entries, key);
    forall i | n <= i < |d.keys|
      ensures d.keys[i] != key && (Target(d.entries, key) != key ==> d.keys[i] != Target(d.entries, key))
    {
      assert d.keys[i] != key;
    }
  }

  /** An entry of `prev` that the step leaves in place is still accounted for. */
  lemma NothingElseKept(d: ODict, prev: map<string, Json>, n: nat, k: string)
    requires OrderOk(d.keys, d.entries) && 0 < n <= |d.keys|
    requires MovedNothingElse(d, prev, n - 1) && k in prev
    requires k != d.keys[n - 1] || Target(d.entries, d.keys[n - 1]) == d.keys[n - 1]
    ensures exists i :: 0 <= i < |d.keys| && k == Place(d, n, i)
  {
    var i :| 0 <= i < |d.keys| && k == Place(d, n - 1, i);
    if i == n - 1 {
      assert k == d.keys[n - 1] == Target(d.entries, d.keys[n - 1]);
      assert k == Place(d, n, i);
    } else {
      assert k == Place(d, n, i);
    }
  }

  /** A step that moves the entry at `key` to its new key. */
  lemma NothingElseMoved(d: ODict, prev: map<string, Json>, n: nat, r: map<string, Json>)
    requires OrderOk(d.keys, d.entries) && 0 < n <= |d.keys|
    requires MovedNothingElse(d, prev, n - 1) && d.keys[n - 1] in prev
    requires Target(d.entries, d.keys[n - 1]) != d.keys[n - 1]
    requires r == (prev - {d.keys[n - 1]})[Target(d.entries, d.keys[n - 1]) := prev[d.keys[n - 1]]]
    ensures MovedNothingElse(d, r, n)
  {
    forall k | k in r
      ensures exists i :: 0 <= i < |d.keys| && k == Place(d, n, i)
    {
      if k == Target(d.entries, d.keys[n - 1]) {
        assert k == Place(d, n, n - 1);
      } else {
        NothingElseKept(d, prev, n, k);
      }
    }
  }

  /** A step that leaves the entry at `key` where it is. */
  lemma NothingElseStays(d: ODict, prev: map<string, Json>, n: nat)
    requires OrderOk(d.keys, d.entries) && 0 < n <= |d.keys|
    requires MovedNothingElse(d, prev, n - 1)
    requires Target(d.entries, d.keys[n - 1]) == d.keys[n - 1]
    ensures MovedNothingElse(d, prev, n)
  {
    forall k | k in prev
      ensures exists i :: 0 <= i < |d.keys| && k == Place(d, n, i)
    {
      NothingElseKept(d, prev, n, k);
    }
  }

  lemma MovedStepNothingElse(d: ODict, prev: ODict, n: nat)
    requires OrderOk(d.keys, d.entries) && 0 < n <= |d.keys|
    requires MovedUnvisited(d, prev.entries, n - 1) && MovedNothingElse(d, prev.entries, n - 1)
    ensures MovedNothingElse(d, RenameStep(prev, d.keys[n - 1]).entries, n)
  {
    var key := d.keys[n - 1];
    RenameStepEntries(prev, key);
    assert key in prev.entries && prev.entries[key] == d.entries[key];
    assert Target(prev.entries, key) == Target(d.entries, key);
    if Target(d.entries, key) == key {
      NothingElseStays(d, prev.entries, n);
    } else {
      NothingElseMoved(d, prev.entries, n, RenameStep(prev, key).entries);
    }
  }

  /** Before the loop every entry is where it was. */
  lemma MovedStart(d: ODict)
    requires OrderOk(d.keys, d.entries)
    ensures Moved(d, d.entries, 0)
  {
    forall k | k in d.entries ensures exists i :: 0 <= i < |d.keys| && k == Place(d, 0, i) {
      var i :| 0 <= i < |d.keys| && d.keys[i] == k;
      assert k == Place(d, 0, i);
    }
  }

  /** One turn of the loop keeps the three parts of `Moved`. */
  lemma MovedStep(d: ODict, prev: ODict, n: nat)
    requires OrderOk(d.keys, d.entries) && RenameSafe(d) && 0 < n <= |d.keys|
    requires Moved(d, prev.entries, n - 1)
    ensures Moved(d, RenameStep(prev, d.keys[n - 1]).entries, n)
  {
    MovedStepVisited(d, prev, n);
    MovedStepUnvisited(d, prev, n);
    MovedStepNothingElse(d, prev, n);
  }

  /** Where nothing collides, every entry ends at its target with its value. */
  lemma {:induction false} RenamedMoves(d: ODict, n: nat)
    requires OrderOk(d.keys, d.entries) && RenameSafe(d) && n <= |d.keys|
    ensures Moved(d, Renamed(d, d.keys[..n]).entries, n)
  {
    if n > 0 {
      RenamedMoves(d, n - 1);
      assert d.keys[..n] == d.keys[..n - 1] + [d.keys[n - 1]];
      RenamedSnoc(d, d.keys[..n - 1], d.keys[n - 1]);
      MovedStep(d, Renamed(d, d.keys[..n - 1]), n);
    } else {
      assert d.keys[..0] == [];
      MovedStart(d);
    }
  }

  /** A key without the prefix and without `$`, such as the slash-form path
      `com/vmware/mock/path`, keeps its name. */
  lemma NewKeyOfPlain(key: string)
    requires !Contains(key, VendorPrefix) && '$' !in key
    ensures NewKey(key) == key
  {
    RemoveAllAbsent(key, VendorPrefix);
    ReplaceCharAbsent(key, '$', '_');
  }

  /** A leading prefix on a type name is dropped: `com.vmware.mock.mock_check$list`
      is renamed as `mock.mock_check$list` is. */
  lemma NewKeyDropsLeadingPrefix(name: string)
    ensures NewKey(VendorPrefix + name) == NewKey(name)
  {
    RemoveAllLeading(VendorPrefix, name);
  }

  // ---------------------------------------------------------------------------
  // The whole pass

  /** The top-level document with its fields rewritten as any mapping's are. */
  function Rewritten(d: ODict): ODict {
    ODict(if "$ref" in d.entries then Without(d.keys, "required") else d.keys, NormalizeFields(JObj(d.entries)))
  }

  /** `remove_com_vmware_from_dict(node)` on a top-level document: its fields
      rewritten, then its keys renamed in order. */
  function RemovedComVmware(d: ODict): (r: ODict)
    ensures forall k :: k in r.entries ==> r.entries[k] in Rewritten(d).entries.Values
  {
    var m := Rewritten(d);
    RenamedValues(m, m.keys);
    Renamed(m, m.keys)
  }

  lemma RewrittenOk(d: ODict)
    requires OrderOk(d.keys, d.entries)
    ensures OrderOk(Rewritten(d).keys, Rewritten(d).entries)
    ensures forall k :: k in Rewritten(d).entries ==>
      k in d.entries && Rewritten(d).entries[k] == NormalizeEntry(k, d.entries[k])
  {
    if "$ref" in d.entries {
      WithoutDistinct(d.keys, "required");
    }
  }

  /** What the pass promises for every document: the result is a well-formed
      dictionary; no mapping sits under a key holding `$`; every value holds
      clean references only, at every level. */
  lemma RemovedComVmwareSpec(d: ODict)
    requires OrderOk(d.keys, d.entries)
    ensures var r := RemovedComVmware(d);
      && OrderOk(r.keys, r.entries)
      && (forall k :: k in r.entries && r.entries[k].JObj? ==> '$' !in k)
      && (forall k :: k in r.entries ==> RefsClean(r.entries[k]))
  {
    var m := Rewritten(d);
    RewrittenOk(d);
    RenamedOk(m, m.keys);
    RenamedKeysClean(m, |m.keys|);
    assert m.keys[..|m.keys|] == m.keys;
    var r := RemovedComVmware(d);
    RenamedValues(m, m.keys);
    forall k | k in r.entries ensures RefsClean(r.entries[k]) {
      assert r.entries[k] in m.entries.Values;
      var j :| j in m.entries && m.entries[j] == r.entries[k];
      NormalizeEntryRefsClean(j, d.entries[j]);
    }
  }

  /** On settled input with settled top-level keys, the pass leaves no vendor
      prefix behind: not in a touched text at any level, and not in the key
      of any top-level mapping. */
  lemma RemovedComVmwarePrefixFree(d: ODict)
    requires OrderOk(d.keys, d.entries) && Settled(JObj(d.entries))
    requires forall k :: k in d.entries ==> !Contains(RemoveAll(k, VendorPrefix), VendorPrefix)
    ensures var r := RemovedComVmware(d);
      && PrefixFree(JObj(r.entries))
      && (forall k :: k in r.entries && r.entries[k].JObj? ==> !Contains(k, VendorPrefix))
  {
    var m := Rewritten(d);
    var r := RemovedComVmware(d);
    RemovedFieldsPrefixFree(d);
    RemovedKeysPrefixFree(d);
  }

  lemma RemovedFieldsPrefixFree(d: ODict)
    requires OrderOk(d.keys, d.entries) && Settled(JObj(d.entries))
    ensures PrefixFree(JObj(RemovedComVmware(d).entries))
  {
    var m := Rewritten(d);
    var r := RemovedComVmware(d).entries;
    RewrittenOk(d);
    RenamedValues(m, m.keys);
    RenamedKeepsScalars(m, m.keys);
    forall k | k in r
      ensures r[k].JStr? && (k == "$ref" || k == "summary" || k == "description") ==>
                !Contains(r[k].s, VendorPrefix)
      ensures PrefixFree(r[k])
    {
      if r[k].JStr? {
        NormalizeEntryPrefixFree(k, d.entries[k]);
      }
      var j :| j in m.entries && m.entries[j] == r[k];
      NormalizeEntryPrefixFree(j, d.entries[j]);
    }
  }

  lemma RemovedKeysPrefixFree(d: ODict)
    requires OrderOk(d.keys, d.entries)
    requires forall k :: k in d.entries ==> !Contains(RemoveAll(k, VendorPrefix), VendorPrefix)
    ensures var r := RemovedComVmware(d).entries;
      forall k :: k in r && r[k].JObj? ==> !Contains(k, VendorPrefix)
  {
    var m := Rewritten(d);
    var r := RemovedComVmware(d).entries;
    RewrittenOk(d);
    RenamedKeysFrom(m, |m.keys|);
    assert m.keys[..|m.keys|] == m.keys;
    forall k | k in r && r[k].JObj? ensures !Contains(k, VendorPrefix) {
      var j :| j in m.entries && k == NewKey(j);
      NewKeyPrefixFree(j);
    }
  }

  /** Where no renamed key collides with another key, every rewritten
      top-level entry ends under its target key with its rewritten value,
      and no other key is present. */
  lemma RemovedComVmwareMoves(d: ODict)
    requires OrderOk(d.keys, d.entries) && RenameSafe(Rewritten(d))
    ensures var m := Rewritten(d);
      Moved(m, RemovedComVmware(d).entries, |m.keys|)
  {
    var m := Rewritten(d);
    RewrittenOk(d);
    RenamedMoves(m, |m.keys|);
    assert m.keys[..|m.keys|] == m.keys;
  }

  // ---------------------------------------------------------------------------
  // Running the whole pass twice

  /** A second pass leaves the result of the first unchanged, on settled
      input with settled top-level keys and no top-level `$ref` (beside which
      a renamed `required` key would be dropped by the second pass). */
  lemma RemovedComVmwareIdempotent(d: ODict)
    requires OrderOk(d.keys, d.entries) && Settled(JObj(d.entries)) && "$ref" !in d.entries
    requires forall k :: k in d.entries ==> !Contains(RemoveAll(k, VendorPrefix), VendorPrefix)
    ensures RemovedComVmware(RemovedComVmware(d)) == RemovedComVmware(d)
  {
    var r := RemovedComVmware(d);
    RewrittenFixed(d);
    RemovedKeysFixed(d);
    RenamedFixed(r, r.keys);
  }

  /** The values of the result are settled: rewriting them again changes nothing. */
  lemma RewrittenFixed(d: ODict)
    requires OrderOk(d.keys, d.entries) && Settled(JObj(d.entries)) && "$ref" !in d.entries
    ensures Rewritten(RemovedComVmware(d)) == RemovedComVmware(d)
  {
    var m := Rewritten(d);
    var r := RemovedComVmware(d);
    RewrittenOk(d);
    RenamedValues(m, m.keys);
    RenamedKeepsScalars(m, m.keys);
    RemovedComVmwareSpec(d);
    assert "$ref"[0] == '$';
    assert "$ref" !in r.entries;
    forall k | k in r.entries ensures NormalizeEntry(k, r.entries[k]) == r.entries[k] {
      if r.entries[k].JObj? {
        var j :| j in m.entries && m.entries[j] == r.entries[k];
        NormalizeEntryIdempotent(j, d.entries[j]);
      } else {
        NormalizeEntryIdempotent(k, d.entries[k]);
      }
    }
    assert NormalizeFields(JObj(r.entries)) == r.entries;
  }

  /** Every mapping of the result sits at a key the rename leaves alone. */
  lemma RemovedKeysFixed(d: ODict)
    requires OrderOk(d.keys, d.entries)
    requires forall k :: k in d.entries ==> !Contains(RemoveAll(k, VendorPrefix), VendorPrefix)
    ensures var r := RemovedComVmware(d).entries;
      forall k :: k in r && r[k].JObj? ==> NewKey(k) == k
  {
    var r := RemovedComVmware(d).entries;
    RemovedKeysPrefixFree(d);
    RemovedComVmwareSpec(d);
    forall k | k in r && r[k].JObj? ensures NewKey(k) == k {
      NewKeyOfPlain(k);
    }
  }

  /** A rename over a document whose mappings sit at their own new keys
      changes nothing. */
  lemma {:induction false} RenamedFixed(d: ODict, keys: seq<string>)
    requires forall k :: k in d.entries && d.entries[k].JObj? ==> NewKey(k) == k
    ensures Renamed(d, keys) == d
    decreases |keys|
  {
    if keys != [] {
      RenamedFixed(d, keys[..|keys| - 1]);
    }
  }

  /** Renaming moves values and never makes new ones. */
  lemma {:induction false} RenamedValues(d: ODict, keys: seq<string>)
    ensures forall k :: k in Renamed(d, keys).entries ==> Renamed(d, keys).entries[k] in d.entries.Values
    decreases |keys|
  {
    if keys != [] {
      var prev := Renamed(d, keys[..|keys| - 1]);
      RenamedValues(d, keys[..|keys| - 1]);
      RenameStepEntries(prev, keys[|keys| - 1]);
    }
  }

  // ---------------------------------------------------------------------------
  // The pass over the mutable document

  /** One turn of the rewrite loop: the value under `k` is rewritten. */
  method RewriteOne(doc: Dict, k: string)
    requires doc.Valid() && k in doc.entries
    modifies doc
    ensures doc.Valid() && doc.keys == old(doc.keys)
    ensures doc.entries == old(doc.entries)[k := NormalizeEntry(k, old(doc.entries)[k])]
  {
    doc.Put(k, NormalizeEntry(k, doc.entries[k]));
  }

  /** The loop that rewrites every top-level value in place. */
  method RewriteValues(doc: Dict)
    requires doc.Valid()
    modifies doc
    ensures doc.Valid() && doc.keys == old(doc.keys)
    ensures doc.entries == map k | k in old(doc.entries) :: NormalizeEntry(k, old(doc.entries)[k])
  {
    var ks := doc.keys;
    ghost var start := doc.entries;
    var i := 0;
    while i < |ks|
      invariant 0 <= i <= |ks|
      invariant doc.Valid() && doc.keys == ks
      invariant doc.entries.Keys == start.Keys
      invariant forall j :: 0 <= j < i ==> doc.entries[ks[j]] == NormalizeEntry(ks[j], start[ks[j]])
      invariant forall j :: i <= j < |ks| ==> doc.entries[ks[j]] == start[ks[j]]
    {
      RewriteOne(doc, ks[i]);
      i := i + 1;
    }
    forall k | k in start ensures doc.entries[k] == NormalizeEntry(k, start[k]) {
      var j :| 0 <= j < |ks| && ks[j] == k;
    }
  }


  /** One turn of the rename loop: a mapping whose key changes is moved
      to the new key. */
  method RenameOne(doc: Dict, key: string)
    requires doc.Valid()
    modifies doc
    ensures doc.Valid()
    ensures doc.Value() == RenameStep(old(doc.Value()), key)
  {
    if key in doc.entries && doc.entries[key].JObj? && NewKey(key) != key {
      var v := doc.entries[key];
      doc.Delete(key);
      doc.Put(NewKey(key), v);
    }
  }

  /** The loop that renames the top-level keys. */
  method RenameKeys(doc: Dict)
    requires doc.Valid()
    modifies doc
    ensures doc.Valid()
    ensures doc.Value() == Renamed(old(doc.Value()), old(doc.keys))
  {
    var ks := doc.keys;
    ghost var start := doc.Value();
    var i := 0;
    while i < |ks|
      invariant 0 <= i <= |ks|
      invariant doc.Valid()
      invariant doc.Value() == Renamed(start, ks[..i])
    {
      RenameOne(doc, ks[i]);
      RenamedPrefix(start, ks, i);
      i := i + 1;
    }
    assert ks[..i] == ks;
  }

  /** Dropping `required` beside `$ref` and then rewriting every value
      leaves the rewritten document. */
  lemma RewriteAfterDrop(start: ODict, mid: ODict, e: map<string, Json>)
    requires mid == if "$ref" in start.entries then Erase(start, "required") else start
    requires e == map k | k in mid.entries :: NormalizeEntry(k, mid.entries[k])
    ensures ODict(mid.keys, e) == Rewritten(start)
  {
    assert e == NormalizeFields(JObj(start.entries));
  }

  /** `remove_com_vmware_from_dict(node)` on a top-level document, in place. */
  method RemoveComVmware(doc: Dict)
    requires doc.Valid()
    modifies doc
    ensures doc.Valid()
    ensures doc.Value() == RemovedComVmware(old(doc.Value()))
  {
    ghost var start := doc.Value();
    if "$ref" in doc.entries {
      doc.Delete("required");
    }
    ghost var mid := doc.Value();
    RewriteValues(doc);
    RewriteAfterDrop(start, mid, doc.entries);
    RenameKeys(doc);
  }
}
