/** Operation-Id Generator: `create_camelized_op_id`, which derives a
    camel-case operation id from an operation's path and HTTP method. */
module OpIds {
  import opened Strings

  /** The vendor package prefix as it appears in paths. */
  const VendorPath := "com/vmware/"

  /** The path up to its query string: `path.split('?')[0]`. */
  function StripQuery(path: string): (r: string)
    ensures '?' !in r
    ensures r <= path
  {
    path[..IndexOf(path, '?')]
  }

  /** A path-variable segment such as `{id}`. */
  predicate IsPathVariable(seg: string) {
    |seg| > 0 && seg[0] == '{' && seg[|seg| - 1] == '}'
  }

  /** The segments that are not path variables, in their order. */
  function KeptSegments(segs: seq<string>): (r: seq<string>)
    ensures forall i :: 0 <= i < |r| ==> !IsPathVariable(r[i]) && r[i] in segs
  {
    if segs == [] then []
    else if IsPathVariable(segs[0]) then KeptSegments(segs[1..])
    else [segs[0]] + KeptSegments(segs[1..])
  }

  /** The words of a path: the query string and the vendor prefix removed,
      path variables dropped, and what is left split at `/`, `-` and `_`
      (the source turns `/` and `-` into `_` and splits there). */
  function Words(path: string): seq<string> {
    SegmentWords(KeptSegments(Split(RemoveAll(StripQuery(path), VendorPath), '/')))
  }

  /** The words of the kept segments: joined with `_`, `-` turned into `_`,
      and split at `_`. */
  function SegmentWords(segs: seq<string>): seq<string> {
    Split(ReplaceChar(Join(segs, "_"), '-', '_'), '_')
  }

  /** The words with their first letters upper-cased, run together. */
  function CamelTail(words: seq<string>): string {
    if words == [] then [] else Capitalize(words[0]) + CamelTail(words[1..])
  }

  /** `create_camelized_op_id(path, http_method, operations_dict)`: the method
      followed by the capitalised words of the path. */
  function CamelizedOpId(path: string, httpMethod: string): (r: string)
    ensures httpMethod <= r
  {
    httpMethod + CamelTail(Words(path))
  }

  // ---------------------------------------------------------------------------
  // Which characters survive

  lemma {:induction false} SplitPiecesAvoid(s: string, c: char, x: char)
    requires x !in s
    ensures forall i :: 0 <= i < |Split(s, c)| ==> x !in Split(s, c)[i]
  {
    if s != [] {
      SplitPiecesAvoid(s[1..], c, x);
    }
  }

  lemma {:induction false} JoinAvoids(parts: seq<string>, sep: string, x: char)
    requires x !in sep
    requires forall i :: 0 <= i < |parts| ==> x !in parts[i]
    ensures x !in Join(parts, sep)
  {
    if |parts| > 1 {
      JoinAvoids(parts[1..], sep, x);
    }
  }

  lemma ReplaceCharAvoids(s: string, a: char, b: char, x: char)
    requires x !in s && x != b
    ensures x !in ReplaceChar(s, a, b)
  {
    var r := ReplaceChar(s, a, b);
    forall i | 0 <= i < |r| ensures r[i] != x {
      if s[i] == a {
        ReplaceCharAt(s, a, b, i);
      }
    }
  }

  lemma {:induction false} CamelTailAvoids(words: seq<string>, x: char)
    requires !IsUpper(x)
    requires forall i :: 0 <= i < |words| ==> x !in words[i]
    ensures x !in CamelTail(words)
  {
    if words != [] {
      CamelTailAvoids(words[1..], x);
      var w := words[0];
      if w != [] {
        assert Capitalize(w) == [UpperChar(w[0])] + w[1..];
        assert w[0] != x;
      }
    }
  }

  /** A word never contains a separator (`/`, `-`, `_`) or a query mark. */
  lemma WordsAvoid(path: string, x: char)
    requires x == '/' || x == '-' || x == '_' || x == '?'
    ensures forall i :: 0 <= i < |Words(path)| ==> x !in Words(path)[i]
  {
    var stripped := RemoveAll(StripQuery(path), VendorPath);
    var pieces := Split(stripped, '/');
    var segs := KeptSegments(pieces);
    var joined := Join(segs, "_");
    var replaced := ReplaceChar(joined, '-', '_');
    if x == '_' {
      SplitPieces(replaced, '_');
    } else if x == '-' {
      assert '-' !in replaced;
      SplitPiecesAvoid(replaced, '_', x);
    } else {
      if x == '?' {
        RemoveAllKeepsAbsentChar(StripQuery(path), VendorPath, '?');
        SplitPiecesAvoid(stripped, '/', '?');
      } else {
        SplitPieces(stripped, '/');
      }
      assert forall i :: 0 <= i < |segs| ==> x !in segs[i];
      JoinAvoids(segs, "_", x);
      ReplaceCharAvoids(joined, '-', '_', x);
      SplitPiecesAvoid(replaced, '_', x);
    }
  }

  // ---------------------------------------------------------------------------
  // Properties of the id

  /** The id starts with the HTTP method, and nothing after the method is a
      separator or a query mark. */
  lemma CamelizedOpIdShape(path: string, httpMethod: string)
    ensures var r := CamelizedOpId(path, httpMethod);
      && httpMethod <= r
      && forall i :: |httpMethod| <= i < |r| ==> r[i] != '/' && r[i] != '-' && r[i] != '_' && r[i] != '?'
  {
    var tail := CamelTail(Words(path));
    WordsAvoid(path, '/');
    CamelTailAvoids(Words(path), '/');
    WordsAvoid(path, '-');
    CamelTailAvoids(Words(path), '-');
    WordsAvoid(path, '_');
    CamelTailAvoids(Words(path), '_');
    WordsAvoid(path, '?');
    CamelTailAvoids(Words(path), '?');
    var r := CamelizedOpId(path, httpMethod);
    forall i | |httpMethod| <= i < |r| ensures r[i] != '/' && r[i] != '-' && r[i] != '_' && r[i] != '?' {
      assert r[i] == tail[i - |httpMethod|];
    }
  }

  /** A path without a query mark is its own query-free form. */
  lemma StripQueryNone(path: string)
    requires '?' !in path
    ensures StripQuery(path) == path
  {
  }

  /** Everything from the first query mark on is cut off. */
  lemma StripQueryAppend(base: string, query: string)
    requires '?' !in base
    ensures StripQuery(base + "?" + query) == base
  {
    var s := base + "?" + query;
    assert s[|base|] == '?';
    assert s[..|base|] == base;
  }

  /** The query string of a path does not change its id. */
  lemma CamelizedOpIdIgnoresQuery(base: string, query: string, httpMethod: string)
    requires '?' !in base
    ensures CamelizedOpId(base + "?" + query, httpMethod) == CamelizedOpId(base, httpMethod)
  {
    StripQueryAppend(base, query);
    StripQueryNone(base);
  }

  /** A leading vendor prefix does not change the id. */
  lemma CamelizedOpIdIgnoresVendorPrefix(path: string, httpMethod: string)
    ensures CamelizedOpId(VendorPath + path, httpMethod) == CamelizedOpId(path, httpMethod)
  {
    var q := StripQuery(path);
    var s := VendorPath + path;
    assert '?' !in VendorPath;
    assert s[..|VendorPath|] == VendorPath;
    assert StripQuery(s) == VendorPath + q by {
      var i := IndexOf(path, '?');
      assert i < |path| ==> s[|VendorPath| + i] == '?';
      assert forall j :: 0 <= j < |VendorPath| + i ==> s[j] != '?' by {
        forall j | 0 <= j < |VendorPath| + i ensures s[j] != '?' {
          if j >= |VendorPath| {
            assert s[j] == path[j - |VendorPath|];
          }
        }
      }
      IndexOfIs(s, '?', |VendorPath| + i);
      assert s[..|VendorPath| + i] == VendorPath + q;
    }
    RemoveAllLeading(VendorPath, q);
  }

  /** `IndexOf` is the first position holding the character, or the length. */
  lemma IndexOfIs(s: string, c: char, i: nat)
    requires i <= |s|
    requires i < |s| ==> s[i] == c
    requires forall j :: 0 <= j < i ==> s[j] != c
    ensures IndexOf(s, c) == i
  {
  }

  /** Path variables are dropped wherever they stand; every other segment is
      kept in place. */
  lemma {:induction false} KeptSegmentsAppend(xs: seq<string>, ys: seq<string>)
    ensures KeptSegments(xs + ys) == KeptSegments(xs) + KeptSegments(ys)
  {
    if xs == [] {
      assert xs + ys == ys;
    } else {
      assert (xs + ys)[0] == xs[0];
      assert (xs + ys)[1..] == xs[1..] + ys;
      KeptSegmentsAppend(xs[1..], ys);
    }
  }

  lemma KeptSegmentsDropsVariable(xs: seq<string>, v: string, ys: seq<string>)
    requires IsPathVariable(v)
    ensures KeptSegments(xs + [v] + ys) == KeptSegments(xs + ys)
  {
    KeptSegmentsAppend(xs + [v], ys);
    KeptSegmentsAppend(xs, [v]);
    KeptSegmentsAppend(xs, ys);
  }

  lemma {:induction false} KeptSegmentsOfPlain(segs: seq<string>)
    requires forall i :: 0 <= i < |segs| ==> !IsPathVariable(segs[i])
    ensures KeptSegments(segs) == segs
  {
    if segs != [] {
      KeptSegmentsOfPlain(segs[1..]);
    }
  }

  /** For a path made of segments free of `/` and `?` and not holding the
      vendor prefix, the words are those of the kept segments. */
  lemma WordsOfSegments(parts: seq<string>)
    requires |parts| >= 1
    requires forall i :: 0 <= i < |parts| ==> '/' !in parts[i] && '?' !in parts[i]
    requires !Contains(Join(parts, "/"), VendorPath)
    ensures Words(Join(parts, "/")) == SegmentWords(KeptSegments(parts))
  {
    var p := Join(parts, "/");
    JoinAvoids(parts, "/", '?');
    StripQueryNone(p);
    RemoveAllAbsent(p, VendorPath);
    SplitJoin(parts, '/');
  }

  /** A path-variable segment such as `{mock}` does not change the id. */
  lemma CamelizedOpIdDropsPathVariable(xs: seq<string>, v: string, ys: seq<string>, httpMethod: string)
    requires IsPathVariable(v) && |xs + ys| >= 1
    requires '/' !in v && '?' !in v
    requires forall i :: 0 <= i < |xs + ys| ==> '/' !in (xs + ys)[i] && '?' !in (xs + ys)[i]
    requires !Contains(Join(xs + [v] + ys, "/"), VendorPath) && !Contains(Join(xs + ys, "/"), VendorPath)
    ensures CamelizedOpId(Join(xs + [v] + ys, "/"), httpMethod) == CamelizedOpId(Join(xs + ys, "/"), httpMethod)
  {
    WordsDropPathVariable(xs, v, ys);
  }

  lemma WordsDropPathVariable(xs: seq<string>, v: string, ys: seq<string>)
    requires IsPathVariable(v) && |xs + ys| >= 1
    requires '/' !in v && '?' !in v
    requires forall i :: 0 <= i < |xs + ys| ==> '/' !in (xs + ys)[i] && '?' !in (xs + ys)[i]
    requires !Contains(Join(xs + [v] + ys, "/"), VendorPath) && !Contains(Join(xs + ys, "/"), VendorPath)
    ensures Words(Join(xs + [v] + ys, "/")) == Words(Join(xs + ys, "/"))
  {
    var all := xs + [v] + ys;
    var rest := xs + ys;
    InsertAvoids(xs, v, ys, '/');
    InsertAvoids(xs, v, ys, '?');
    WordsOfSegments(all);
    WordsOfSegments(rest);
    KeptSegmentsDropsVariable(xs, v, ys);
  }

  /** A segment list with one more segment, none of them holding `c`. */
  lemma InsertAvoids(xs: seq<string>, v: string, ys: seq<string>, c: char)
    requires c !in v && forall i :: 0 <= i < |xs + ys| ==> c !in (xs + ys)[i]
    ensures forall i :: 0 <= i < |xs + [v] + ys| ==> c !in (xs + [v] + ys)[i]
  {
    var all := xs + [v] + ys;
    var rest := xs + ys;
    forall i | 0 <= i < |all| ensures c !in all[i] {
      if i < |xs| {
        assert all[i] == rest[i];
      } else if i > |xs| {
        assert all[i] == rest[i - 1];
      }
    }
  }

  // ---------------------------------------------------------------------------
  // Which words the id is made of

  /** The words of a list of segments: each segment split at its `-`. */
  function DashWords(segs: seq<string>): seq<string> {
    if segs == [] then [] else Split(segs[0], '-') + DashWords(segs[1..])
  }

  /** Joining segments with `_`, turning `-` into `_` and splitting at `_`
      gives the `-`-separated words of each segment, in order. */
  lemma {:induction false} DashWordsOfJoin(segs: seq<string>)
    requires |segs| >= 1
    requires forall i :: 0 <= i < |segs| ==> '_' !in segs[i]
    ensures SegmentWords(segs) == DashWords(segs)
  {
    SplitReplaced(segs[0], '-', '_');
    if |segs| > 1 {
      var rest := Join(segs[1..], "_");
      DashWordsOfJoin(segs[1..]);
      ReplaceCharAppend(segs[0] + "_", rest, '-', '_');
      ReplaceCharAppend(segs[0], "_", '-', '_');
      assert ReplaceChar("_", '-', '_') == "_";
      SplitAround(ReplaceChar(segs[0], '-', '_'), '_', ReplaceChar(rest, '-', '_'));
    }
  }

  /** Segments without `-` are their own words. */
  lemma {:induction false} DashWordsOfPlain(segs: seq<string>)
    requires forall i :: 0 <= i < |segs| ==> '-' !in segs[i]
    ensures DashWords(segs) == segs
  {
    if segs != [] {
      SplitAbsent(segs[0], '-');
      DashWordsOfPlain(segs[1..]);
    }
  }

  /** For a path made of segments free of `/`, `?` and `_` and not holding the
      vendor prefix, the id is the HTTP method followed by the capitalised
      `-`-separated words of the segments that are not path variables. */
  lemma CamelizedOpIdOfSegments(parts: seq<string>, httpMethod: string)
    requires |parts| >= 1
    requires forall i :: 0 <= i < |parts| ==> '/' !in parts[i] && '?' !in parts[i] && '_' !in parts[i]
    requires !Contains(Join(parts, "/"), VendorPath)
    ensures CamelizedOpId(Join(parts, "/"), httpMethod) == httpMethod + CamelTail(DashWords(KeptSegments(parts)))
  {
    WordsOfDashSegments(parts);
  }

  /** The words of such a path are the `-`-separated words of its kept
      segments; with no kept segment there is the one empty word. */
  lemma WordsOfDashSegments(parts: seq<string>)
    requires |parts| >= 1
    requires forall i :: 0 <= i < |parts| ==> '/' !in parts[i] && '?' !in parts[i] && '_' !in parts[i]
    requires !Contains(Join(parts, "/"), VendorPath)
    ensures CamelTail(Words(Join(parts, "/"))) == CamelTail(DashWords(KeptSegments(parts)))
  {
    WordsOfSegments(parts);
    KeptDashWords(parts);
  }

  /** The capitalised words of the kept segments, joined with `_`, `-` turned
      into `_` and split at `_`, are those of their `-`-separated words. */
  lemma KeptDashWords(parts: seq<string>)
    requires forall i :: 0 <= i < |parts| ==> '_' !in parts[i]
    ensures var segs := KeptSegments(parts);
      CamelTail(SegmentWords(segs)) == CamelTail(DashWords(segs))
  {
    var segs := KeptSegments(parts);
    if segs != [] {
      KeptSegmentsAvoid(parts, '_');
      DashWordsOfJoin(segs);
    } else {
      assert SegmentWords(segs) == [[]];
      assert CamelTail([[]]) == [];
    }
  }

  /** A character that no segment holds is in no kept segment. */
  lemma KeptSegmentsAvoid(parts: seq<string>, c: char)
    requires forall i :: 0 <= i < |parts| ==> c !in parts[i]
    ensures forall i :: 0 <= i < |KeptSegments(parts)| ==> c !in KeptSegments(parts)[i]
  {
    var segs := KeptSegments(parts);
    forall i | 0 <= i < |segs| ensures c !in segs[i] {
      var j :| 0 <= j < |parts| && parts[j] == segs[i];
    }
  }

  /** Plain segments (no separator, no query mark, no path variable) are the
      words of the id, in order. */
  lemma CamelizedOpIdOfPlainSegments(parts: seq<string>, httpMethod: string)
    requires |parts| >= 1
    requires forall i :: 0 <= i < |parts| ==>
      '/' !in parts[i] && '?' !in parts[i] && '_' !in parts[i] && '-' !in parts[i] && !IsPathVariable(parts[i])
    requires !Contains(Join(parts, "/"), VendorPath)
    ensures CamelizedOpId(Join(parts, "/"), httpMethod) == httpMethod + CamelTail(parts)
  {
    CamelizedOpIdOfSegments(parts, httpMethod);
    KeptSegmentsOfPlain(parts);
    DashWordsOfPlain(parts);
  }

  /** A string without `w` cannot hold the vendor prefix. */
  lemma NoVendorPath(s: string)
    requires 'w' !in s
    ensures !Contains(s, VendorPath)
  {
    if Contains(s, VendorPath) {
      assert VendorPath[6] == 'w';
      ContainsChars(s, VendorPath, 6);
    }
  }

  /** A word as the test suite's paths are made of: no separator, no query
      mark, no brace. */
  predicate PlainWord(w: string) {
    '/' !in w && '?' !in w && '_' !in w && '-' !in w && '{' !in w
  }

  /** Two plain words joined by `-` split back into the two. */
  lemma DashSplit(a: string, b: string)
    requires PlainWord(a) && PlainWord(b)
    ensures Split(a + "-" + b, '-') == [a, b]
  {
    assert a + "-" + b == a + ['-'] + b;
    SplitCons(a, '-', b);
    SplitAbsent(b, '-');
  }

  /** Plain words, alone or ahead of `-`, are not path variables. */
  lemma PlainNotVariable(a: string, b: string)
    requires PlainWord(a)
    ensures !IsPathVariable(a) && !IsPathVariable(a + "-" + b)
  {
    if a != [] {
      assert a[0] in a;
      assert (a + "-" + b)[0] == a[0];
    } else {
      assert (a + "-" + b)[0] == '-';
    }
  }

  /** The pieces of `a-b` carry no `/`, `?` or `_`. */
  lemma DashAvoids(a: string, b: string)
    requires PlainWord(a) && PlainWord(b)
    ensures var s := a + "-" + b; '/' !in s && '?' !in s && '_' !in s
  {
  }

  lemma KeptOne(s: string)
    requires !IsPathVariable(s)
    ensures KeptSegments([s]) == [s]
  {
  }

  lemma KeptThree(s: string, v: string, c: string)
    requires !IsPathVariable(s) && IsPathVariable(v) && !IsPathVariable(c)
    ensures KeptSegments([s, v, c]) == [s, c]
  {
    assert [s, v, c][1..] == [v, c];
    assert [v, c][1..] == [c];
    KeptOne(c);
  }

  lemma DashWordsOne(s: string)
    ensures DashWords([s]) == Split(s, '-')
  {
    assert [s][1..] == [];
  }

  lemma DashWordsTwo(s: string, c: string)
    ensures DashWords([s, c]) == Split(s, '-') + Split(c, '-')
  {
    assert [s, c][1..] == [c];
    DashWordsOne(c);
  }

  lemma CamelTailTwo(a: string, b: string)
    ensures CamelTail([a, b]) == Capitalize(a) + Capitalize(b)
  {
    assert [a, b][1..] == [b];
    assert CamelTail([b]) == Capitalize(b);
  }

  lemma CamelTailThree(a: string, b: string, c: string)
    ensures CamelTail([a, b, c]) == Capitalize(a) + Capitalize(b) + Capitalize(c)
  {
    assert [a, b, c][1..] == [b, c];
    CamelTailTwo(b, c);
    ConcatAssoc(Capitalize(a), Capitalize(b), Capitalize(c));
  }

  lemma ConcatAssoc(x: string, y: string, z: string)
    ensures x + (y + z) == x + y + z
  {
  }

  lemma JoinOne(s: string)
    ensures Join([s], "/") == s
  {
  }

  lemma JoinThree(s: string, v: string, c: string)
    ensures Join([s, v, c], "/") == s + "/" + v + "/" + c
  {
    assert [s, v, c][1..] == [v, c];
    assert [v, c][1..] == [c];
    assert Join([v, c], "/") == v + "/" + c;
    assert s + "/" + (v + "/" + c) == s + "/" + v + "/" + c;
  }

  /** `CamelizedOpIdOfSegments` for a path given as a whole. */
  lemma CamelizedOpIdAt(path: string, parts: seq<string>, httpMethod: string)
    requires |parts| >= 1
    requires forall i :: 0 <= i < |parts| ==> '/' !in parts[i] && '?' !in parts[i] && '_' !in parts[i]
    requires path == Join(parts, "/") && !Contains(path, VendorPath)
    ensures CamelizedOpId(path, httpMethod) == httpMethod + CamelTail(DashWords(KeptSegments(parts)))
  {
    CamelizedOpIdOfSegments(parts, httpMethod);
  }

  /** The id of `a-b`, for two plain words. */
  lemma CamelizedOpIdOfDash(a: string, b: string, httpMethod: string)
    requires PlainWord(a) && PlainWord(b)
    requires !Contains(a + "-" + b, VendorPath)
    ensures CamelizedOpId(a + "-" + b, httpMethod) == httpMethod + Capitalize(a) + Capitalize(b)
  {
    var seg := a + "-" + b;
    JoinOne(seg);
    DashAvoids(a, b);
    CamelizedOpIdAt(seg, [seg], httpMethod);
    PlainNotVariable(a, b);
    KeptOne(seg);
    DashWordsOne(seg);
    DashSplit(a, b);
    CamelTailTwo(a, b);
    ConcatAssoc(httpMethod, Capitalize(a), Capitalize(b));
  }

  /** Cases 1 and 2 of the test suite, for any two plain words `a-b` after
      the vendor prefix (`com/vmware/mock-path` gives `postMockPath`), with
      or without a query string. */
  lemma CamelizedOpIdOfDashedName(a: string, b: string, query: string, httpMethod: string)
    requires PlainWord(a) && PlainWord(b)
    requires !Contains(a + "-" + b, VendorPath)
    ensures CamelizedOpId(VendorPath + (a + "-" + b), httpMethod)
         == httpMethod + Capitalize(a) + Capitalize(b)
    ensures CamelizedOpId(VendorPath + (a + "-" + b) + "?" + query, httpMethod)
         == httpMethod + Capitalize(a) + Capitalize(b)
  {
    var seg := a + "-" + b;
    CamelizedOpIdOfDash(a, b, httpMethod);
    CamelizedOpIdIgnoresVendorPrefix(seg, httpMethod);
    DashAvoids(a, b);
    PrefixedIgnoresQuery(seg, query, httpMethod);
  }

  /** A query after a prefixed path free of query marks does not change the id. */
  lemma PrefixedIgnoresQuery(seg: string, query: string, httpMethod: string)
    requires '?' !in seg
    ensures CamelizedOpId(VendorPath + seg + "?" + query, httpMethod) == CamelizedOpId(VendorPath + seg, httpMethod)
  {
    assert '?' !in VendorPath;
    CamelizedOpIdIgnoresQuery(VendorPath + seg, query, httpMethod);
  }

  /** The id of `a-b/v/c`, for plain words and a path variable `v`. */
  lemma CamelizedOpIdOfDashAndVariable(a: string, b: string, v: string, c: string, httpMethod: string)
    requires PlainWord(a) && PlainWord(b) && PlainWord(c)
    requires IsPathVariable(v) && '/' !in v && '?' !in v && '_' !in v
    requires !Contains(a + "-" + b + "/" + v + "/" + c, VendorPath)
    ensures CamelizedOpId(a + "-" + b + "/" + v + "/" + c, httpMethod)
         == httpMethod + Capitalize(a) + Capitalize(b) + Capitalize(c)
  {
    var seg := a + "-" + b;
    DashAvoids(a, b);
    ThreeSegmentsOpId(seg, v, c, httpMethod);
    ThreeSegmentWords(a, b, v, c);
    ConcatAssoc(httpMethod, Capitalize(a) + Capitalize(b), Capitalize(c));
    ConcatAssoc(httpMethod, Capitalize(a), Capitalize(b));
  }

  lemma ThreeSegmentsOpId(seg: string, v: string, c: string, httpMethod: string)
    requires '/' !in seg && '?' !in seg && '_' !in seg
    requires '/' !in v && '?' !in v && '_' !in v
    requires '/' !in c && '?' !in c && '_' !in c
    requires !Contains(seg + "/" + v + "/" + c, VendorPath)
    ensures CamelizedOpId(seg + "/" + v + "/" + c, httpMethod)
         == httpMethod + CamelTail(DashWords(KeptSegments([seg, v, c])))
  {
    JoinThree(seg, v, c);
    CamelizedOpIdAt(seg + "/" + v + "/" + c, [seg, v, c], httpMethod);
  }

  lemma ThreeSegmentWords(a: string, b: string, v: string, c: string)
    requires PlainWord(a) && PlainWord(b) && PlainWord(c) && IsPathVariable(v)
    ensures CamelTail(DashWords(KeptSegments([a + "-" + b, v, c])))
         == Capitalize(a) + Capitalize(b) + Capitalize(c)
  {
    var seg := a + "-" + b;
    PlainNotVariable(a, b);
    PlainNotVariable(c, b);
    KeptThree(seg, v, c);
    DashWordsTwo(seg, c);
    DashSplit(a, b);
    SplitAbsent(c, '-');
    assert [a, b] + [c] == [a, b, c];
    CamelTailThree(a, b, c);
  }

  /** Case 3 of the test suite, for any plain words and path variable
      (`com/vmware/mock-path/{mock}/test` gives `postMockPathTest`). */
  lemma CamelizedOpIdOfDashedPathWithVariable(a: string, b: string, v: string, c: string, httpMethod: string)
    requires PlainWord(a) && PlainWord(b) && PlainWord(c)
    requires IsPathVariable(v) && '/' !in v && '?' !in v && '_' !in v
    requires !Contains(a + "-" + b + "/" + v + "/" + c, VendorPath)
    ensures CamelizedOpId(VendorPath + (a + "-" + b + "/" + v + "/" + c), httpMethod)
         == httpMethod + Capitalize(a) + Capitalize(b) + Capitalize(c)
  {
    CamelizedOpIdOfDashAndVariable(a, b, v, c, httpMethod);
    CamelizedOpIdIgnoresVendorPrefix(a + "-" + b + "/" + v + "/" + c, httpMethod);
  }
}
