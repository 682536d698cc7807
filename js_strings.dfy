/**
 * The JavaScript string and array primitives the core leans on: `indexOf`,
 * `split` and `join` with a one-element separator, `trim`, and sorting.
 * Splitting and joining are generic so that they serve both Dafny strings and
 * the UTF-16 code-unit strings of the structure encoder.
 *
 * Sorting: `localeCompare` (renderer) and the default comparator of
 * `Array.prototype.sort` (structure encoder) are both modelled as the plain
 * lexicographic order `LexLe` on characters.
 */
module JsStrings {

  /** `s.indexOf(c)`: the first position of `c` in `s`, or -1. */
  function IndexOf<T(==)>(s: seq<T>, c: T): (i: int)
    ensures -1 <= i < |s|
    ensures i == -1 <==> c !in s
    ensures 0 <= i ==> s[i] == c && c !in s[..i]
  {
    if |s| == 0 then -1
    else if s[0] == c then 0
    else
      var j := IndexOf(s[1..], c);
      if j == -1 then -1
      else
        assert s[..j + 1] == [s[0]] + s[1..][..j];
        j + 1
  }

  /** `parts.join(sep)`. */
  function Join<T>(parts: seq<seq<T>>, sep: T): seq<T>
  {
    if |parts| == 0 then []
    else if |parts| == 1 then parts[0]
    else parts[0] + [sep] + Join(parts[1..], sep)
  }

  /** `s.split(sep)`: never empty (the empty string splits to one empty piece). */
  function Split<T(==)>(s: seq<T>, sep: T): (r: seq<seq<T>>)
    ensures |r| >= 1
    decreases |s|
  {
    var i := IndexOf(s, sep);
    if i == -1 then [s]
    else [s[..i]] + Split(s[i + 1..], sep)
  }

  /** No piece of a split holds the separator. */
  lemma {:induction false} SplitPieces<T>(s: seq<T>, sep: T, j: nat)
    requires j < |Split(s, sep)|
    ensures sep !in Split(s, sep)[j]
    decreases |s|
  {
    var i := IndexOf(s, sep);
    if i != -1 && j > 0 {
      SplitPieces(s[i + 1..], sep, j - 1);
    }
  }

  /** Joining the pieces of a split gives back the string. */
  lemma {:induction false} JoinOfSplit<T>(s: seq<T>, sep: T)
    ensures Join(Split(s, sep), sep) == s
    decreases |s|
  {
    var i := IndexOf(s, sep);
    if i != -1 {
      assert s[..i] + [s[i]] + s[i + 1..] == s;
      var rest := Split(s[i + 1..], sep);
      var r := [s[..i]] + rest;
      JoinOfSplit(s[i + 1..], sep);
      assert r[0] == s[..i] && r[1..] == rest;
      assert Join(r, sep) == s[..i] + [sep] + Join(rest, sep);
    }
  }

  lemma IndexOfFirst<T>(a: seq<T>, sep: T, b: seq<T>)
    requires sep !in a
    ensures IndexOf(a + [sep] + b, sep) == |a|
  {
    var s := a + [sep] + b;
    assert s[|a|] == sep;
    assert s[..|a|] == a;
  }

  /** Splitting a join recovers the pieces when no piece contains the separator. */
  lemma {:induction false} SplitOfJoin<T>(parts: seq<seq<T>>, sep: T)
    requires |parts| >= 1
    requires forall i :: 0 <= i < |parts| ==> sep !in parts[i]
    ensures Split(Join(parts, sep), sep) == parts
  {
    if |parts| > 1 {
      var tail := Join(parts[1..], sep);
      IndexOfFirst(parts[0], sep, tail);
      assert (parts[0] + [sep] + tail)[|parts[0]| + 1..] == tail;
      assert (parts[0] + [sep] + tail)[..|parts[0]|] == parts[0];
      SplitOfJoin(parts[1..], sep);
    }
  }

  /** A separator with none before it ends the first piece. */
  lemma SplitAtFirst<T>(a: seq<T>, sep: T, b: seq<T>)
    requires sep !in a
    ensures Split(a + [sep] + b, sep) == [a] + Split(b, sep)
  {
    var s := a + [sep] + b;
    IndexOfFirst(a, sep, b);
    assert s[..|a|] == a;
    assert s[|a| + 1..] == b;
  }

  /** Splitting around an explicit separator splits each side. */
  lemma {:induction false} SplitOfConcat<T>(a: seq<T>, sep: T, b: seq<T>)
    ensures Split(a + [sep] + b, sep) == Split(a, sep) + Split(b, sep)
    decreases |a|
  {
    if sep !in a {
      SplitOfConcatBase(a, sep, b);
    } else {
      var i := IndexOf(a, sep);
      SplitOfConcat(a[i + 1..], sep, b);
      SplitOfConcatStep(a, sep, b);
    }
  }

  /** The base case of `SplitOfConcat`: `a` is a single piece. */
  lemma SplitOfConcatBase<T>(a: seq<T>, sep: T, b: seq<T>)
    requires sep !in a
    ensures Split(a + [sep] + b, sep) == Split(a, sep) + Split(b, sep)
  {
    SplitAtFirst(a, sep, b);
    assert Split(a, sep) == [a];
  }

  /** The inductive step of `SplitOfConcat`: peel off the first piece of `a`. */
  lemma SplitOfConcatStep<T>(a: seq<T>, sep: T, b: seq<T>)
    requires sep in a
    requires var tail := a[IndexOf(a, sep) + 1..];
      Split(tail + [sep] + b, sep) == Split(tail, sep) + Split(b, sep)
    ensures Split(a + [sep] + b, sep) == Split(a, sep) + Split(b, sep)
  {
    var i := IndexOf(a, sep);
    var head, rest, right := [a[..i]], Split(a[i + 1..], sep), Split(b, sep);
    assert head + (rest + right) == (head + rest) + right;
    SplitFirstPiece(a, sep, b);
    assert Split(a, sep) == head + rest;
  }

  /** When `a` holds the separator, the first piece of `a + [sep] + b` is the first piece of `a`. */
  lemma SplitFirstPiece<T>(a: seq<T>, sep: T, b: seq<T>)
    requires sep in a
    ensures var i := IndexOf(a, sep);
      Split(a + [sep] + b, sep) == [a[..i]] + Split(a[i + 1..] + [sep] + b, sep)
  {
    var i := IndexOf(a, sep);
    var s := a + [sep] + b;
    IndexOfExtend(a, sep, [sep] + b);
    assert s == a + ([sep] + b);
    assert s[..i] == a[..i];
    assert s[i + 1..] == a[i + 1..] + [sep] + b;
  }

  lemma IndexOfExtend<T>(a: seq<T>, c: T, t: seq<T>)
    requires c in a
    ensures IndexOf(a + t, c) == IndexOf(a, c)
  {
    var i := IndexOf(a, c);
    assert (a + t)[..i] == a[..i];
    assert (a + t)[i] == c;
  }

  /** The characters `String.prototype.trim` removes (WhiteSpace and LineTerminator). */
  predicate IsJsWhitespace(c: char)
  {
    || c == '\t' || c == '\n' || c == '\U{000B}' || c == '\U{000C}' || c == '\r' || c == ' '
    || c == '\U{00A0}' || c == '\U{1680}' || ('\U{2000}' <= c <= '\U{200A}')
    || c == '\U{2028}' || c == '\U{2029}' || c == '\U{202F}' || c == '\U{205F}'
    || c == '\U{3000}' || c == '\U{FEFF}'
  }

  /** Drops leading whitespace: a suffix of `s` that does not start with whitespace. */
  function TrimStart(s: string): (r: string)
    ensures |r| <= |s| && r == s[|s| - |r|..]
    ensures forall i :: 0 <= i < |s| - |r| ==> IsJsWhitespace(s[i])
    ensures |r| > 0 ==> !IsJsWhitespace(r[0])
  {
    if |s| > 0 && IsJsWhitespace(s[0]) then TrimStart(s[1..]) else s
  }

  /** Drops trailing whitespace: a prefix of `s` that does not end with whitespace. */
  function TrimEnd(s: string): (r: string)
    ensures |r| <= |s| && r == s[..|r|]
    ensures forall i :: |r| <= i < |s| ==> IsJsWhitespace(s[i])
    ensures |r| > 0 ==> !IsJsWhitespace(r[|r| - 1])
  {
    if |s| > 0 && IsJsWhitespace(s[|s| - 1]) then TrimEnd(s[..|s| - 1]) else s
  }

  /**
   * `s.trim()`: the slice of `s` left after dropping whitespace at both ends; empty
   * exactly when `s` is all whitespace, otherwise without whitespace at either end.
   */
  function Trim(s: string): (r: string)
    ensures |r| <= |s|
    ensures |r| == 0 <==> forall i :: 0 <= i < |s| ==> IsJsWhitespace(s[i])
    ensures |r| > 0 ==> !IsJsWhitespace(r[0]) && !IsJsWhitespace(r[|r| - 1])
    ensures exists a :: TrimmedAt(s, r, a)
  {
    TrimEnds(s);
    TrimSlice(s);
    TrimEnd(TrimStart(s))
  }

  /** Trimming the start, then the end, leaves no whitespace at either end, and nothing only for blank text. */
  lemma TrimEnds(s: string)
    ensures var r := TrimEnd(TrimStart(s));
      && |r| <= |s|
      && (|r| == 0 <==> forall i :: 0 <= i < |s| ==> IsJsWhitespace(s[i]))
      && (|r| > 0 ==> !IsJsWhitespace(r[0]) && !IsJsWhitespace(r[|r| - 1]))
  {
    var t := TrimStart(s);
    var r := TrimEnd(t);
    assert |r| > 0 ==> r[0] == t[0];
    assert |t| > 0 ==> !IsJsWhitespace(t[|t| - 1]) || |r| < |t|;
  }

  /** `r` is the slice of `s` at `a`, with only whitespace before and after it. */
  predicate TrimmedAt(s: string, r: string, a: int)
  {
    && 0 <= a && a + |r| <= |s| && r == s[a..a + |r|]
    && (forall i :: 0 <= i < a ==> IsJsWhitespace(s[i]))
    && (forall i :: a + |r| <= i < |s| ==> IsJsWhitespace(s[i]))
  }

  /** The trimmed text is a slice of `s` with only whitespace before and after it. */
  lemma TrimSlice(s: string)
    ensures exists a :: TrimmedAt(s, TrimEnd(TrimStart(s)), a)
  {
    var t := TrimStart(s);
    var r := TrimEnd(t);
    SliceOfSuffix(s, t, r);
    TrailingBlanks(s, t, r);
    assert TrimmedAt(s, r, |s| - |t|);
  }

  /** A prefix of a suffix of `s` is a slice of `s`. */
  lemma SliceOfSuffix<U>(s: seq<U>, t: seq<U>, r: seq<U>)
    requires |t| <= |s| && t == s[|s| - |t|..] && |r| <= |t| && r == t[..|r|]
    ensures r == s[|s| - |t|..|s| - |t| + |r|]
  {
  }

  /** What `TrimEnd` drops from the suffix `t` of `s` is whitespace at the end of `s`. */
  lemma TrailingBlanks(s: string, t: string, r: string)
    requires |t| <= |s| && t == s[|s| - |t|..] && r == TrimEnd(t)
    ensures forall i :: |s| - |t| + |r| <= i < |s| ==> IsJsWhitespace(s[i])
  {
    SuffixTail(s, t, |r|, IsJsWhitespace);
  }

  /** What holds of the tail `t[k..]` of a suffix `t` of `s` holds of the matching tail of `s`. */
  lemma SuffixTail<U>(s: seq<U>, t: seq<U>, k: nat, p: U -> bool)
    requires |t| <= |s| && t == s[|s| - |t|..] && k <= |t|
    requires forall j :: k <= j < |t| ==> p(t[j])
    ensures forall i :: |s| - |t| + k <= i < |s| ==> p(s[i])
  {
    forall i | |s| - |t| + k <= i < |s| ensures p(s[i]) {
      assert s[i] == t[i - (|s| - |t|)];
    }
  }

  /** Trimming only removes characters. */
  lemma TrimKeeps(s: string, c: char)
    requires c !in s
    ensures c !in Trim(s)
  {
    var t := TrimStart(s);
    var r := TrimEnd(t);
    assert forall i :: 0 <= i < |r| ==> r[i] == s[|s| - |t| + i];
  }

  // Lexicographic order ------------------------------------------------------

  /** `a` sorts before or equal to `b`, comparing character by character. */
  predicate LexLe(a: string, b: string)
    decreases |a|
  {
    |a| == 0 || (|b| > 0 && (a[0] < b[0] || (a[0] == b[0] && LexLe(a[1..], b[1..]))))
  }

  lemma {:induction false} LexLeReflexive(a: string)
    ensures LexLe(a, a)
    decreases |a|
  {
    if |a| > 0 {
      LexLeReflexive(a[1..]);
    }
  }

  lemma {:induction false} LexLeTotal(a: string, b: string)
    ensures LexLe(a, b) || LexLe(b, a)
    decreases |a|
  {
    if |a| > 0 && |b| > 0 && a[0] == b[0] {
      LexLeTotal(a[1..], b[1..]);
    }
  }

  lemma {:induction false} LexLeAntisymmetric(a: string, b: string)
    requires LexLe(a, b) && LexLe(b, a)
    ensures a == b
    decreases |a|
  {
    if |a| > 0 {
      LexLeAntisymmetric(a[1..], b[1..]);
      assert a == [a[0]] + a[1..] && b == [b[0]] + b[1..];
    }
  }

  lemma {:induction false} LexLeTransitive(a: string, b: string, c: string)
    requires LexLe(a, b) && LexLe(b, c)
    ensures LexLe(a, c)
    decreases |a|
  {
    if |a| > 0 && a[0] == b[0] && b[0] == c[0] {
      LexLeTransitive(a[1..], b[1..], c[1..]);
    }
  }

  // Sorting by a string key ---------------------------------------------------

  /** The keys of `s` are in non-decreasing lexicographic order. */
  predicate SortedBy<T>(s: seq<T>, key: T -> string)
  {
    forall i, j :: 0 <= i < j < |s| ==> LexLe(key(s[i]), key(s[j]))
  }

  /** No two positions of `s` carry the same key. */
  predicate DistinctBy<T>(s: seq<T>, key: T -> string)
  {
    forall i, j :: 0 <= i < j < |s| ==> key(s[i]) != key(s[j])
  }

  /** No element of `s` carries the key of `x`. */
  predicate KeyFresh<T>(x: T, s: seq<T>, key: T -> string)
  {
    forall i :: 0 <= i < |s| ==> key(s[i]) != key(x)
  }

  /** Every element of `r` is `x` or an element of `s`. */
  lemma ElementsOfInsert<T>(r: seq<T>, s: seq<T>, x: T, k: nat)
    requires multiset(r) == multiset(s) + multiset{x}
    requires k < |r|
    ensures r[k] == x || exists i :: 0 <= i < |s| && s[i] == r[k]
  {
    assert r[k] in multiset(r);
    if r[k] != x {
      assert r[k] in multiset(s);
    }
  }

  /** Inserts `x` before the first element whose key is not below its own. */
  function Insert<T>(x: T, s: seq<T>, key: T -> string): (r: seq<T>)
    ensures multiset(r) == multiset(s) + multiset{x}
  {
    if |s| == 0 then [x]
    else if LexLe(key(x), key(s[0])) then
      assert s == [s[0]] + s[1..];
      [x] + s
    else
      assert s == [s[0]] + s[1..];
      [s[0]] + Insert(x, s[1..], key)
  }

  lemma {:induction false} InsertSorted<T>(x: T, s: seq<T>, key: T -> string)
    requires SortedBy(s, key)
    ensures SortedBy(Insert(x, s, key), key)
  {
    if |s| > 0 {
      if LexLe(key(x), key(s[0])) {
        forall k | 0 <= k < |s| ensures LexLe(key(x), key(s[k])) {
          if k > 0 {
            LexLeTransitive(key(x), key(s[0]), key(s[k]));
          }
        }
        assert Insert(x, s, key) == [x] + s;
      } else {
        var rest := Insert(x, s[1..], key);
        assert s == [s[0]] + s[1..];
        InsertSorted(x, s[1..], key);
        LexLeTotal(key(x), key(s[0]));
        forall k | 0 <= k < |rest| ensures LexLe(key(s[0]), key(rest[k])) {
          ElementsOfInsert(rest, s[1..], x, k);
        }
        assert Insert(x, s, key) == [s[0]] + rest;
      }
    }
  }

  lemma {:induction false} InsertDistinct<T>(x: T, s: seq<T>, key: T -> string)
    requires DistinctBy(s, key) && KeyFresh(x, s, key)
    ensures DistinctBy(Insert(x, s, key), key)
  {
    if |s| > 0 && !LexLe(key(x), key(s[0])) {
      var rest := Insert(x, s[1..], key);
      assert s == [s[0]] + s[1..];
      InsertDistinct(x, s[1..], key);
      forall k | 0 <= k < |rest| ensures key(s[0]) != key(rest[k]) {
        ElementsOfInsert(rest, s[1..], x, k);
      }
      assert Insert(x, s, key) == [s[0]] + rest;
    }
  }

  /** Sorts `s` by `key`: a sorted permutation of `s`. */
  function SortBy<T>(s: seq<T>, key: T -> string): (r: seq<T>)
    ensures multiset(r) == multiset(s)
    ensures SortedBy(r, key)
  {
    if |s| == 0 then []
    else
      var rest := SortBy(s[1..], key);
      assert s == [s[0]] + s[1..];
      InsertSorted(s[0], rest, key);
      Insert(s[0], rest, key)
  }

  /** Sorting keeps distinct keys distinct. */
  lemma {:induction false} SortByDistinct<T>(s: seq<T>, key: T -> string)
    requires DistinctBy(s, key)
    ensures DistinctBy(SortBy(s, key), key)
  {
    if |s| > 0 {
      var rest := SortBy(s[1..], key);
      SortByDistinct(s[1..], key);
      forall k | 0 <= k < |rest| ensures key(rest[k]) != key(s[0]) {
        assert rest[k] in multiset(s[1..]);
      }
      InsertDistinct(s[0], rest, key);
    }
  }

  lemma SortedHeads<T>(a: seq<T>, b: seq<T>, key: T -> string)
    requires SortedBy(a, key) && SortedBy(b, key)
    requires multiset(a) == multiset(b)
    requires DistinctBy(a, key)
    requires |a| > 0
    ensures |b| > 0 && a[0] == b[0]
  {
    assert a[0] in multiset(b);
    var j :| 0 <= j < |b| && b[j] == a[0];
    assert b[0] in multiset(a);
    var i :| 0 <= i < |a| && a[i] == b[0];
    if a[0] != b[0] {
      assert LexLe(key(a[0]), key(a[i]));
      assert LexLe(key(b[0]), key(b[j]));
      LexLeAntisymmetric(key(a[0]), key(b[0]));
    }
  }

  /** Dropping the head keeps a sequence sorted and its keys distinct. */
  lemma TailSorted<T>(s: seq<T>, key: T -> string)
    requires |s| > 0
    ensures SortedBy(s, key) ==> SortedBy(s[1..], key)
    ensures DistinctBy(s, key) ==> DistinctBy(s[1..], key)
  {
    var t := s[1..];
    forall i, j | 0 <= i < j < |t| ensures t[i] == s[i + 1] && t[j] == s[j + 1] {
    }
  }

  lemma TailMultiset<T>(s: seq<T>)
    requires |s| > 0
    ensures multiset(s[1..]) == multiset(s) - multiset{s[0]}
  {
    assert s == [s[0]] + s[1..];
  }

  /** A sequence sorted by distinct keys is determined by its elements alone. */
  lemma {:induction false} SortedUnique<T>(a: seq<T>, b: seq<T>, key: T -> string)
    requires SortedBy(a, key) && SortedBy(b, key)
    requires multiset(a) == multiset(b)
    requires DistinctBy(a, key)
    ensures a == b
    decreases |a|
  {
    if |a| == 0 {
      assert |b| == |multiset(b)| == 0;
    } else {
      SortedHeads(a, b, key);
      TailSorted(a, key);
      TailSorted(b, key);
      TailMultiset(a);
      TailMultiset(b);
      SortedUnique(a[1..], b[1..], key);
      assert a == [a[0]] + a[1..] && b == [b[0]] + b[1..];
    }
  }

  /** Sorting forgets the original order: permutations sort to the same sequence. */
  lemma SortByPermutation<T>(a: seq<T>, b: seq<T>, key: T -> string)
    requires multiset(a) == multiset(b)
    requires DistinctBy(a, key)
    ensures SortBy(a, key) == SortBy(b, key)
  {
    SortByDistinct(a, key);
    SortedUnique(SortBy(a, key), SortBy(b, key), key);
  }

  // Array filter --------------------------------------------------------------

  /** `s.filter(keep)`: the elements `keep` accepts, in their original order. */
  function Filter<T>(s: seq<T>, keep: T -> bool): (r: seq<T>)
    ensures |r| <= |s|
    ensures forall i :: 0 <= i < |r| ==> keep(r[i])
  {
    if |s| == 0 then []
    else (if keep(s[0]) then [s[0]] else []) + Filter(s[1..], keep)
  }

  /** Filtering distributes over concatenation, so it keeps the relative order. */
  lemma {:induction false} FilterAppend<T>(a: seq<T>, b: seq<T>, keep: T -> bool)
    ensures Filter(a + b, keep) == Filter(a, keep) + Filter(b, keep)
  {
    if |a| > 0 {
      assert (a + b)[1..] == a[1..] + b;
      FilterAppend(a[1..], b, keep);
    } else {
      assert a + b == b;
    }
  }

  /** Filtering keeps every accepted occurrence and drops every rejected one. */
  lemma {:induction false} FilterMultiset<T>(s: seq<T>, keep: T -> bool, e: T)
    ensures multiset(Filter(s, keep))[e] == if keep(e) then multiset(s)[e] else 0
  {
    if |s| > 0 {
      FilterMultiset(s[1..], keep, e);
      assert s == [s[0]] + s[1..];
    }
  }

  /** Two predicates that agree on every element of `s` filter it alike. */
  lemma {:induction false} FilterCongruent<T>(s: seq<T>, f: T -> bool, g: T -> bool)
    requires forall i :: 0 <= i < |s| ==> f(s[i]) == g(s[i])
    ensures Filter(s, f) == Filter(s, g)
  {
    if |s| > 0 {
      FilterCongruent(s[1..], f, g);
    }
  }
}
