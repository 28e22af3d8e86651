/**
 * String order and case as the dashboard uses them: JavaScript's default
 * `sort()` compares strings character by character, and the map keys are
 * lower-cased ISO codes.
 */
module Strings {
  import opened Sequences

  /** `a < b` on strings: lexicographic by code point (JavaScript compares UTF-16 code units; the two agree inside the Basic Multilingual Plane), a proper prefix first. */
  predicate Less(a: string, b: string) {
    if a == [] then b != []
    else if b == [] then false
    else if a[0] != b[0] then a[0] < b[0]
    else Less(a[1..], b[1..])
  }

  lemma {:induction false} LessIrreflexive(a: string)
    ensures !Less(a, a)
  {
    if a != [] {
      LessIrreflexive(a[1..]);
    }
  }

  lemma {:induction false} LessTransitive(a: string, b: string, c: string)
    requires Less(a, b) && Less(b, c)
    ensures Less(a, c)
  {
    if a != [] && b != [] && c != [] && a[0] == b[0] && b[0] == c[0] {
      LessTransitive(a[1..], b[1..], c[1..]);
    }
  }

  lemma {:induction false} LessTotal(a: string, b: string)
    requires a != b
    ensures Less(a, b) || Less(b, a)
  {
    if a != [] && b != [] && a[0] == b[0] {
      assert a == [a[0]] + a[1..] && b == [b[0]] + b[1..];
      LessTotal(a[1..], b[1..]);
    }
  }

  /** Non-decreasing by `name`. */
  predicate SortedByName<T>(s: seq<T>, name: T -> string) {
    forall i, j :: 0 <= i < j < |s| ==> !Less(name(s[j]), name(s[i]))
  }

  /** Strictly increasing: sorted and without repeats. */
  predicate StrictlyAscending(s: seq<string>) {
    forall i, j :: 0 <= i < j < |s| ==> Less(s[i], s[j])
  }

  function InsertByName<T>(s: seq<T>, x: T, name: T -> string): seq<T> {
    if s == [] then [x]
    else if Less(name(x), name(s[0])) then [x] + s
    else [s[0]] + InsertByName(s[1..], x, name)
  }

  /** `s.sort((a, b) => compare(name(a), name(b)))`, stable. */
  function SortByName<T>(s: seq<T>, name: T -> string): seq<T> {
    if s == [] then [] else InsertByName(SortByName(s[..|s| - 1], name), s[|s| - 1], name)
  }

  function Identity(s: string): string { s }

  /** `Array.from(stringSet).sort()` */
  function SortStrings(s: seq<string>): seq<string> {
    SortByName(s, Identity)
  }

  lemma {:induction false} InsertByNamePermutes<T>(s: seq<T>, x: T, name: T -> string)
    ensures multiset(InsertByName(s, x, name)) == multiset(s) + multiset{x}
    ensures |InsertByName(s, x, name)| == |s| + 1
  {
    if s != [] && !Less(name(x), name(s[0])) {
      InsertByNamePermutes(s[1..], x, name);
      assert s == [s[0]] + s[1..];
    }
  }

  lemma {:induction false} InsertByNameSorted<T>(s: seq<T>, x: T, name: T -> string)
    requires SortedByName(s, name)
    ensures SortedByName(InsertByName(s, x, name), name)
  {
    if s != [] {
      if Less(name(x), name(s[0])) {
        forall j | 0 <= j < |s| ensures !Less(name(s[j]), name(x)) {
          if Less(name(s[j]), name(x)) {
            LessTransitive(name(s[j]), name(x), name(s[0]));
            if j == 0 {
              LessIrreflexive(name(s[0]));
            }
          }
        }
      } else {
        InsertByNameSorted(s[1..], x, name);
        InsertByNamePermutes(s[1..], x, name);
        var t := InsertByName(s[1..], x, name);
        forall k | 0 <= k < |t| ensures !Less(name(t[k]), name(s[0])) {
          assert t[k] in multiset(t);
          if t[k] != x {
            assert t[k] in multiset(s[1..]);
            var i :| 0 <= i < |s[1..]| && s[1..][i] == t[k];
            assert s[i + 1] == t[k];
          }
        }
      }
    }
  }

  /** The sort's contract: sorted by name and a permutation of its input. */
  lemma {:induction false} SortByNameFacts<T>(s: seq<T>, name: T -> string)
    ensures SortedByName(SortByName(s, name), name)
    ensures multiset(SortByName(s, name)) == multiset(s)
    ensures |SortByName(s, name)| == |s|
  {
    if s != [] {
      var p := s[..|s| - 1];
      SortByNameFacts(p, name);
      InsertByNameSorted(SortByName(p, name), s[|s| - 1], name);
      InsertByNamePermutes(SortByName(p, name), s[|s| - 1], name);
      assert s == p + [s[|s| - 1]];
    }
  }

  /**
   * Sorting strings without repeats gives them strictly ascending, with the
   * same members: the result depends only on the set of strings.
   */
  lemma SortStringsFacts(s: seq<string>)
    requires Distinct(s)
    ensures StrictlyAscending(SortStrings(s))
    ensures forall x :: x in SortStrings(s) <==> x in s
    ensures |SortStrings(s)| == |s|
  {
    var t := SortStrings(s);
    SortByNameFacts(s, Identity);
    DistinctPermutation(s, t);
    forall i, j | 0 <= i < j < |t| ensures Less(t[i], t[j]) {
      assert !Less(Identity(t[j]), Identity(t[i]));
      LessTotal(t[i], t[j]);
    }
    forall x ensures x in t <==> x in s {
      assert x in t <==> x in multiset(t);
      assert x in s <==> x in multiset(s);
    }
  }

  /** `c.toLowerCase()` on the ASCII letters the ISO codes use. */
  function LowerChar(c: char): char {
    if 'A' <= c <= 'Z' then (c as int + 32) as char else c
  }

  /** `s.toLowerCase()` */
  function ToLower(s: string): (r: string)
    ensures |r| == |s|
    ensures forall i :: 0 <= i < |s| ==> r[i] == LowerChar(s[i])
  {
    if s == [] then [] else [LowerChar(s[0])] + ToLower(s[1..])
  }

  /** Same letters up to ASCII case. */
  predicate SameIgnoringCase(a: string, b: string) {
    |a| == |b| && forall i :: 0 <= i < |a| ==> LowerChar(a[i]) == LowerChar(b[i])
  }

  /** Codes that differ only in letter case have the same lower-cased key, and only they do. */
  lemma ToLowerMerges(a: string, b: string)
    ensures ToLower(a) == ToLower(b) <==> SameIgnoringCase(a, b)
  {
    if SameIgnoringCase(a, b) {
      assert forall i :: 0 <= i < |a| ==> ToLower(a)[i] == ToLower(b)[i];
    }
    if ToLower(a) == ToLower(b) {
      assert forall i :: 0 <= i < |a| ==> ToLower(a)[i] == ToLower(b)[i];
    }
  }
}
