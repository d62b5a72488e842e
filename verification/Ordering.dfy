/** String comparison, stable sorting by a string key, and binary search in a sorted sequence. */
module Ordering {
  import opened Basics

  /** The lexicographic order of the standard library's string comparison. */
  predicate AtMost(a: string, b: string) {
    a == [] || (b != [] && (a[0] < b[0] || (a[0] == b[0] && AtMost(a[1..], b[1..]))))
  }

  /** Where two strings differ first, the one with the smaller character comes first; a beginning of a
      string comes before it. */
  ghost predicate Lexicographic(a: string, b: string) {
    a <= b || exists i | 0 <= i < |a| && i < |b| :: a[..i] == b[..i] && a[i] < b[i]
  }

  lemma {:induction false} AtMostExactly(a: string, b: string)
    ensures AtMost(a, b) <==> Lexicographic(a, b)
  {
    if a != [] && b != [] && a[0] == b[0] {
      AtMostExactly(a[1..], b[1..]);
      if Lexicographic(a[1..], b[1..]) {
        TailsOrdered(a, b);
      }
      if Lexicographic(a, b) && !(a <= b) {
        var i :| 0 <= i < |a| && i < |b| && a[..i] == b[..i] && a[i] < b[i];
        assert a[1..][..i - 1] == a[..i][1..] && b[1..][..i - 1] == b[..i][1..];
        assert a[1..][i - 1] < b[1..][i - 1];
      }
    } else if a != [] && b != [] {
      assert a[..0] == b[..0];
      assert forall i | 0 < i < |a| && i < |b| :: a[..i][0] == a[0] && b[..i][0] == b[0];
    }
  }

  lemma TailsOrdered(a: string, b: string)
    requires a != [] && b != [] && a[0] == b[0] && Lexicographic(a[1..], b[1..])
    ensures Lexicographic(a, b)
  {
    if a[1..] <= b[1..] {
      assert a <= b;
    } else {
      var i :| 0 <= i < |a[1..]| && i < |b[1..]| && a[1..][..i] == b[1..][..i] && a[1..][i] < b[1..][i];
      assert a[..i + 1] == [a[0]] + a[1..][..i] && b[..i + 1] == [b[0]] + b[1..][..i];
      assert a[i + 1] < b[i + 1];
    }
  }

  lemma {:induction false} AtMostReflexive(a: string)
    ensures AtMost(a, a)
  {
    if a != [] {
      AtMostReflexive(a[1..]);
    }
  }

  lemma {:induction false} AtMostTotal(a: string, b: string)
    ensures AtMost(a, b) || AtMost(b, a)
  {
    if a != [] && b != [] {
      AtMostTotal(a[1..], b[1..]);
    }
  }

  lemma {:induction false} AtMostAntisymmetric(a: string, b: string)
    requires AtMost(a, b) && AtMost(b, a)
    ensures a == b
  {
    if a != [] {
      AtMostAntisymmetric(a[1..], b[1..]);
      assert a == [a[0]] + a[1..] && b == [b[0]] + b[1..];
    }
  }

  lemma {:induction false} AtMostTransitive(a: string, b: string, c: string)
    requires AtMost(a, b) && AtMost(b, c)
    ensures AtMost(a, c)
  {
    if a != [] && a[0] == b[0] && b[0] == c[0] {
      AtMostTransitive(a[1..], b[1..], c[1..]);
    }
  }

  ghost predicate SortedBy<T>(key: T -> string, s: seq<T>) {
    forall i, j | 0 <= i < j < |s| :: AtMost(key(s[i]), key(s[j]))
  }

  /** Inserts behind everything that is not greater, so that equal keys keep their order. */
  function Insert<T>(key: T -> string, s: seq<T>, x: T): (r: seq<T>)
    ensures |r| == |s| + 1
  {
    if s == [] || AtMost(key(s[|s| - 1]), key(x)) then s + [x]
    else Insert(key, s[..|s| - 1], x) + [s[|s| - 1]]
  }

  /** A stable sort by key. */
  function SortBy<T>(key: T -> string, s: seq<T>): (r: seq<T>)
    ensures |r| == |s|
  {
    if s == [] then [] else Insert(key, SortBy(key, s[..|s| - 1]), s[|s| - 1])
  }

  lemma {:induction false} InsertContents<T>(key: T -> string, s: seq<T>, x: T)
    ensures multiset(Insert(key, s, x)) == multiset(s) + multiset{x}
  {
    if !(s == [] || AtMost(key(s[|s| - 1]), key(x))) {
      InsertContents(key, s[..|s| - 1], x);
      assert s == s[..|s| - 1] + [s[|s| - 1]];
    }
  }

  lemma {:induction false} InsertSorted<T>(key: T -> string, s: seq<T>, x: T)
    requires SortedBy(key, s)
    ensures SortedBy(key, Insert(key, s, x))
  {
    if s == [] {
    } else if AtMost(key(s[|s| - 1]), key(x)) {
      forall i | 0 <= i < |s| ensures AtMost(key(s[i]), key(x)) {
        if i < |s| - 1 { AtMostTransitive(key(s[i]), key(s[|s| - 1]), key(x)); }
      }
    } else {
      var last := s[|s| - 1];
      var front := s[..|s| - 1];
      AtMostTotal(key(last), key(x));
      InsertSorted(key, front, x);
      InsertContents(key, front, x);
      var r := Insert(key, front, x);
      forall i | 0 <= i < |r| ensures AtMost(key(r[i]), key(last)) {
        assert r[i] in multiset(r);
        assert r[i] == x || r[i] in front;
      }
    }
  }

  /** The elements with this key, in order. */
  function Matching<T>(key: T -> string, s: seq<T>, name: string): seq<T> {
    if s == [] then []
    else
      var n := |s| - 1;
      if key(s[n]) == name then Matching(key, s[..n], name) + [s[n]] else Matching(key, s[..n], name)
  }

  lemma {:induction false} MatchingOneMore<T>(key: T -> string, s: seq<T>, x: T, name: string)
    ensures Matching(key, s + [x], name)
            == if key(x) == name then Matching(key, s, name) + [x] else Matching(key, s, name)
  {
    assert (s + [x])[..|s|] == s;
  }

  lemma {:induction false} InsertStable<T>(key: T -> string, s: seq<T>, x: T, name: string)
    ensures Matching(key, Insert(key, s, x), name)
            == if key(x) == name then Matching(key, s, name) + [x] else Matching(key, s, name)
  {
    if s == [] || AtMost(key(s[|s| - 1]), key(x)) {
      MatchingOneMore(key, s, x, name);
    } else {
      var last, front := s[|s| - 1], s[..|s| - 1];
      InsertStable(key, front, x, name);
      MatchingOneMore(key, Insert(key, front, x), last, name);
      AtMostReflexive(key(x));
    }
  }

  /** Elements with equal keys keep their order. */
  lemma {:induction false} SortByStable<T>(key: T -> string, s: seq<T>, name: string)
    ensures Matching(key, SortBy(key, s), name) == Matching(key, s, name)
  {
    if s != [] {
      var n := |s| - 1;
      SortByStable(key, s[..n], name);
      InsertStable(key, SortBy(key, s[..n]), s[n], name);
    }
  }

  lemma {:induction false} SortByCorrect<T>(key: T -> string, s: seq<T>)
    ensures SortedBy(key, SortBy(key, s)) && multiset(SortBy(key, s)) == multiset(s)
  {
    if s != [] {
      var front := s[..|s| - 1];
      SortByCorrect(key, front);
      InsertSorted(key, SortBy(key, front), s[|s| - 1]);
      InsertContents(key, SortBy(key, front), s[|s| - 1]);
      assert s == front + [s[|s| - 1]];
    }
  }

  /** The first element with this key. */
  function Find<T>(key: T -> string, s: seq<T>, name: string): (r: Option<T>)
    ensures r.Some? ==> r.value in s && key(r.value) == name
    ensures r.None? ==> forall x | x in s :: key(x) != name
  {
    if s == [] then None else if key(s[0]) == name then Some(s[0]) else Find(key, s[1..], name)
  }

  /** Binary search: halves `size` and keeps the part that may hold the key. */
  method BinarySearch<T>(key: T -> string, s: seq<T>, name: string) returns (r: Option<T>)
    requires SortedBy(key, s)
    ensures r.Some? ==> r.value in s && key(r.value) == name
    ensures r.None? ==> forall x | x in s :: key(x) != name
  {
    var size := |s|;
    if size == 0 {
      return None;
    }
    var base := 0;
    while size > 1
      invariant 1 <= size && base + size <= |s|
      invariant base > 0 ==> AtMost(key(s[base]), name)
      invariant forall i | base + size <= i < |s| :: !AtMost(key(s[i]), name)
    {
      var half := size / 2;
      var mid := base + half;
      if AtMost(key(s[mid]), name) {
        base := mid;
      } else {
        forall i | mid <= i < |s| ensures !AtMost(key(s[i]), name) {
          if i > mid && AtMost(key(s[i]), name) { AtMostTransitive(key(s[mid]), key(s[i]), name); }
        }
      }
      size := size - half;
    }
    if key(s[base]) == name {
      return Some(s[base]);
    }
    forall x | x in s ensures key(x) != name {
      var i :| 0 <= i < |s| && s[i] == x;
      AtMostReflexive(name);
      if i < base && key(x) == name {
        AtMostAntisymmetric(key(s[base]), name);
      }
    }
    return None;
  }

  ghost predicate DistinctKeys<T>(key: T -> string, s: seq<T>) {
    forall i, j | 0 <= i < j < |s| :: key(s[i]) != key(s[j])
  }

  /** With distinct keys there is only one element to find. */
  lemma UniqueMatch<T>(key: T -> string, s: seq<T>, x: T, y: T)
    requires DistinctKeys(key, s)
    requires x in s && y in s && key(x) == key(y)
    ensures x == y
  {
    var i :| 0 <= i < |s| && s[i] == x;
    var j :| 0 <= j < |s| && s[j] == y;
  }

  ghost predicate Permuted<T>(s: seq<T>, t: seq<T>) {
    multiset(s) == multiset(t)
  }

  lemma PermutedElement<T>(s: seq<T>, t: seq<T>, x: T)
    requires Permuted(s, t)
    ensures x in s <==> x in t
  {
    assert x in s <==> x in multiset(s);
    assert x in t <==> x in multiset(t);
  }

  lemma PermutedLength<T>(s: seq<T>, t: seq<T>)
    requires Permuted(s, t)
    ensures |s| == |t|
  {
    assert |s| == |multiset(s)| && |t| == |multiset(t)|;
  }

  lemma DistinctKeysPermuted<T(!new)>(key: T -> string, s: seq<T>, t: seq<T>)
    requires DistinctKeys(key, t) && Permuted(s, t)
    ensures DistinctKeys(key, s)
  {
    assert NoRepeats(t) by {
      forall i, j | 0 <= i < j < |t| ensures t[i] != t[j] { assert key(t[i]) != key(t[j]); }
    }
    NoRepeatsPermuted(s, t);
    forall i, j | 0 <= i < j < |s| ensures key(s[i]) != key(s[j]) {
      PermutedElement(s, t, s[i]);
      PermutedElement(s, t, s[j]);
      assert s[i] != s[j];
      if key(s[i]) == key(s[j]) { UniqueMatch(key, t, s[i], s[j]); }
    }
  }
}
