/** String helpers with the behaviour of the Python `str` methods the generator uses:
    `lower`, `capitalize`-style first-letter upper-casing, `replace(p, '')`,
    `replace(a, b)` on one character, `split` on one character, `join`,
    `in`, `startswith`, `endswith` and `index`. Letter case is ASCII only. */
module Strings {

  predicate IsUpper(c: char) { 'A' <= c <= 'Z' }

  predicate IsLower(c: char) { 'a' <= c <= 'z' }

  /** ASCII lower-casing of one character; every other character is kept. */
  function LowerChar(c: char): char {
    if IsUpper(c) then (c as int - 'A' as int + 'a' as int) as char else c
  }

  /** ASCII upper-casing of one character; every other character is kept. */
  function UpperChar(c: char): char {
    if IsLower(c) then (c as int - 'a' as int + 'A' as int) as char else c
  }

  /** `s.lower()`. */
  function Lower(s: string): (r: string)
    ensures |r| == |s|
  {
    if s == [] then [] else [LowerChar(s[0])] + Lower(s[1..])
  }

  /** Lower-casing leaves no upper-case letter and changes nothing else. */
  lemma {:induction false} LowerSpec(s: string)
    ensures forall i :: 0 <= i < |s| ==> !IsUpper(Lower(s)[i])
    ensures forall i :: 0 <= i < |s| ==> (IsUpper(s[i]) || Lower(s)[i] == s[i])
  {
    if s != [] {
      LowerSpec(s[1..]);
      assert forall i :: 1 <= i < |s| ==> Lower(s)[i] == Lower(s[1..])[i - 1];
    }
  }

  /** Lower-casing works piecewise. */
  lemma {:induction false} LowerAppend(a: string, b: string)
    ensures Lower(a + b) == Lower(a) + Lower(b)
  {
    if a == [] {
      assert a + b == b;
    } else {
      assert (a + b)[0] == a[0];
      assert (a + b)[1..] == a[1..] + b;
      LowerAppend(a[1..], b);
    }
  }

  /** A string with no upper-case letter is its own lower-case form. */
  lemma {:induction false} LowerOfLowerCase(s: string)
    requires forall i :: 0 <= i < |s| ==> !IsUpper(s[i])
    ensures Lower(s) == s
  {
    if s != [] {
      LowerOfLowerCase(s[1..]);
    }
  }

  /** Lower-casing twice is lower-casing once. */
  lemma LowerIdempotent(s: string)
    ensures Lower(Lower(s)) == Lower(s)
  {
    LowerSpec(s);
    LowerOfLowerCase(Lower(s));
  }

  /** First letter upper-cased, the rest kept as it is. */
  function Capitalize(w: string): (r: string)
    ensures |r| == |w|
    ensures |w| > 0 ==> !IsLower(r[0]) && r[1..] == w[1..]
  {
    if w == [] then [] else [UpperChar(w[0])] + w[1..]
  }

  /** `p in s` for strings: `p` occurs somewhere in `s`. */
  predicate Contains(s: string, p: string)
    decreases |s|
  {
    p <= s || (s != [] && Contains(s[1..], p))
  }

  lemma {:induction false} ContainsAt(s: string, p: string, i: nat)
    requires i + |p| <= |s| && s[i..i + |p|] == p
    ensures Contains(s, p)
  {
    if i > 0 {
      assert s[1..][i - 1..i - 1 + |p|] == s[i..i + |p|];
      ContainsAt(s[1..], p, i - 1);
    } else {
      assert s[..|p|] == p;
    }
  }

  /** `s.endswith(p)`. */
  predicate EndsWith(s: string, p: string) {
    |p| <= |s| && s[|s| - |p|..] == p
  }

  /** `s.replace(p, '')`: removes, scanning left to right, every non-overlapping
      occurrence of `p`. An empty `p` leaves `s` unchanged, as in Python. */
  function RemoveAll(s: string, p: string): (r: string)
    ensures |r| <= |s|
    decreases |s|
  {
    if p == [] then s
    else if p <= s then RemoveAll(s[|p|..], p)
    else if s == [] then []
    else [s[0]] + RemoveAll(s[1..], p)
  }

  /** Nothing to remove: `s` comes back unchanged. */
  lemma {:induction false} RemoveAllAbsent(s: string, p: string)
    requires !Contains(s, p)
    ensures RemoveAll(s, p) == s
  {
    if p != [] && s != [] {
      RemoveAllAbsent(s[1..], p);
    }
  }

  /** A leading occurrence of `p` is dropped and the rest is processed alone. */
  lemma RemoveAllLeading(p: string, s: string)
    requires p != []
    ensures RemoveAll(p + s, p) == RemoveAll(s, p)
  {
    assert p <= p + s;
    assert (p + s)[|p|..] == s;
  }

  /** Removal never introduces a character that was not already there. */
  lemma {:induction false} RemoveAllKeepsAbsentChar(s: string, p: string, c: char)
    requires c !in s
    ensures c !in RemoveAll(s, p)
    decreases |s|
  {
    if p == [] {
    } else if p <= s {
      RemoveAllKeepsAbsentChar(s[|p|..], p, c);
    } else if s != [] {
      RemoveAllKeepsAbsentChar(s[1..], p, c);
    }
  }

  /** `s.replace(a, b)` for single characters. */
  function ReplaceChar(s: string, a: char, b: char): (r: string)
    ensures |r| == |s|
    ensures a != b ==> a !in r
    ensures forall i :: 0 <= i < |s| && s[i] != a ==> r[i] == s[i]
  {
    if s == [] then [] else [if s[0] == a then b else s[0]] + ReplaceChar(s[1..], a, b)
  }

  /** Every occurrence of `a` becomes `b`. */
  lemma {:induction false} ReplaceCharAt(s: string, a: char, b: char, i: nat)
    requires i < |s| && s[i] == a
    ensures ReplaceChar(s, a, b)[i] == b
  {
    if i > 0 {
      ReplaceCharAt(s[1..], a, b, i - 1);
    }
  }

  /** Replacing a character that does not occur changes nothing. */
  lemma {:induction false} ReplaceCharAbsent(s: string, a: char, b: char)
    requires a !in s
    ensures ReplaceChar(s, a, b) == s
  {
    if s != [] {
      ReplaceCharAbsent(s[1..], a, b);
    }
  }

  /** Index of the first `c` in `s`, or `|s|` when there is none. */
  function IndexOf(s: string, c: char): (i: nat)
    ensures i <= |s|
    ensures i < |s| ==> s[i] == c
    ensures forall j :: 0 <= j < i ==> s[j] != c
  {
    if s == [] then 0 else if s[0] == c then 0 else 1 + IndexOf(s[1..], c)
  }

  /** `s.split(c)`: the pieces between occurrences of `c`; never empty, and no
      piece contains `c`. */
  function Split(s: string, c: char): (r: seq<string>)
    ensures |r| >= 1
  {
    if s == [] then [[]]
    else if s[0] == c then [[]] + Split(s[1..], c)
    else var t := Split(s[1..], c); [[s[0]] + t[0]] + t[1..]
  }

  /** No piece of a split contains the separator. */
  lemma {:induction false} SplitPieces(s: string, c: char)
    ensures forall i :: 0 <= i < |Split(s, c)| ==> c !in Split(s, c)[i]
  {
    if s != [] {
      SplitPieces(s[1..], c);
    }
  }

  /** `sep.join(parts)`. */
  function Join(parts: seq<string>, sep: string): string {
    if |parts| == 0 then []
    else if |parts| == 1 then parts[0]
    else parts[0] + sep + Join(parts[1..], sep)
  }

  /** Splitting and joining back with the same character restores the string. */
  lemma {:induction false} JoinSplit(s: string, c: char)
    ensures Join(Split(s, c), [c]) == s
  {
    if s == [] {
    } else if s[0] == c {
      JoinSplit(s[1..], c);
      assert Split(s, c) == [[]] + Split(s[1..], c);
      assert s == [] + [c] + s[1..];
    } else {
      var t := Split(s[1..], c);
      JoinSplit(s[1..], c);
      if |t| == 1 {
        assert s == [s[0]] + s[1..];
      } else {
        assert Join(t, [c]) == t[0] + [c] + Join(t[1..], [c]);
        assert ([[s[0]] + t[0]] + t[1..])[1..] == t[1..];
        assert s == [s[0]] + s[1..];
      }
    }
  }

  /** A piece without `c`, then `c`, then the rest: splitting yields the piece first. */
  lemma {:induction false} SplitCons(x: string, c: char, y: string)
    requires c !in x
    ensures Split(x + [c] + y, c) == [x] + Split(y, c)
  {
    if x == [] {
      assert ([] + [c] + y)[1..] == y;
    } else {
      var s := x + [c] + y;
      assert s[0] == x[0];
      assert s[1..] == x[1..] + [c] + y;
      SplitCons(x[1..], c, y);
      assert [x[0]] + x[1..] == x;
    }
  }

  /** A string without `c` is a single piece. */
  lemma {:induction false} SplitAbsent(x: string, c: char)
    requires c !in x
    ensures Split(x, c) == [x]
  {
    if x != [] {
      SplitAbsent(x[1..], c);
      assert [x[0]] + x[1..] == x;
    }
  }

  /** Joining pieces that do not contain `c` with `c`, then splitting on `c`,
      gives the pieces back. */
  lemma {:induction false} SplitJoin(parts: seq<string>, c: char)
    requires |parts| >= 1
    requires forall i :: 0 <= i < |parts| ==> c !in parts[i]
    ensures Split(Join(parts, [c]), c) == parts
  {
    if |parts| == 1 {
      SplitAbsent(parts[0], c);
    } else {
      SplitJoin(parts[1..], c);
      SplitCons(parts[0], c, Join(parts[1..], [c]));
      assert [parts[0]] + parts[1..] == parts;
    }
  }

  /** The first piece of a split is everything before the first `c`. */
  lemma {:induction false} SplitFirst(s: string, c: char)
    ensures Split(s, c)[0] == s[..IndexOf(s, c)]
  {
    if s != [] && s[0] != c {
      SplitFirst(s[1..], c);
      assert s[..IndexOf(s, c)] == [s[0]] + s[1..][..IndexOf(s[1..], c)];
    }
  }

  /** Replacing a character works piecewise. */
  lemma {:induction false} ReplaceCharAppend(x: string, y: string, a: char, b: char)
    ensures ReplaceChar(x + y, a, b) == ReplaceChar(x, a, b) + ReplaceChar(y, a, b)
  {
    if x == [] {
      assert x + y == y;
    } else {
      assert (x + y)[0] == x[0];
      assert (x + y)[1..] == x[1..] + y;
      ReplaceCharAppend(x[1..], y, a, b);
    }
  }

  /** Splitting at a separator that stands between two strings splits each. */
  lemma {:induction false} SplitAround(x: string, c: char, y: string)
    ensures Split(x + [c] + y, c) == Split(x, c) + Split(y, c)
  {
    if x == [] {
      assert ([] + [c] + y)[1..] == y;
    } else {
      var s := x + [c] + y;
      assert s[0] == x[0];
      assert s[1..] == x[1..] + [c] + y;
      SplitAround(x[1..], c, y);
    }
  }

  /** Turning `a` into a character `b` that does not occur, then splitting at
      `b`, is splitting at `a`. */
  lemma {:induction false} SplitReplaced(s: string, a: char, b: char)
    requires b !in s
    ensures Split(ReplaceChar(s, a, b), b) == Split(s, a)
  {
    if s != [] {
      SplitReplaced(s[1..], a, b);
      assert ReplaceChar(s, a, b)[1..] == ReplaceChar(s[1..], a, b);
    }
  }

  /** Every character of an occurring pattern occurs in the string. */
  lemma {:induction false} ContainsChars(s: string, p: string, i: nat)
    requires Contains(s, p) && i < |p|
    ensures p[i] in s
    decreases |s|
  {
    if p <= s {
      assert s[i] == p[i];
    } else {
      ContainsChars(s[1..], p, i);
    }
  }

  /** A head that cannot start an occurrence of `p` is kept by the removal. */
  lemma {:induction false} RemoveAllAfter(a: string, s: string, p: string)
    requires p != [] && p[0] !in a
    ensures RemoveAll(a + s, p) == a + RemoveAll(s, p)
  {
    if a != [] {
      assert (a + s)[0] == a[0] && (a + s)[1..] == a[1..] + s;
      assert !(p <= a + s);
      RemoveAllAfter(a[1..], s, p);
    } else {
      assert a + s == s;
    }
  }

  /** One `a` between two strings without it becomes one `b`. */
  lemma ReplaceCharOnce(x: string, y: string, a: char, b: char)
    requires a !in x && a !in y
    ensures ReplaceChar(x + [a] + y, a, b) == x + [b] + y
  {
    ReplaceCharLast(x, a, b);
    ReplaceCharAppend(x + [a], y, a, b);
    ReplaceCharAbsent(y, a, b);
  }

  lemma ReplaceCharLast(x: string, a: char, b: char)
    requires a !in x
    ensures ReplaceChar(x + [a], a, b) == x + [b]
  {
    ReplaceCharAppend(x, [a], a, b);
    ReplaceCharAbsent(x, a, b);
    assert ReplaceChar([a], a, b) == [b] + ReplaceChar([], a, b);
  }
}
