/** Ordering by a string key, as sort.Strings and sort.Slice do it: which of several equal keys
    comes first is not promised. */
module Sorting {

  predicate Before(a: string, b: string) {
    b != "" && (a == "" || a[0] < b[0] || (a[0] == b[0] && Before(a[1..], b[1..])))
  }

  /** The texts agree up to `i`, where `a` ends or has the lower character. */
  predicate LowerAt(a: string, b: string, i: nat) {
    i <= |a| && i < |b| && a[..i] == b[..i] && (i < |a| ==> a[i] < b[i])
  }

  lemma {:induction false} FirstLower(a: string, b: string) returns (i: nat)
    requires Before(a, b)
    ensures LowerAt(a, b, i)
  {
    if a == "" || a[0] < b[0] {
      i := 0;
    } else {
      i := FirstLower(a[1..], b[1..]);
      assert a[..i + 1] == [a[0]] + a[1..][..i] && b[..i + 1] == [b[0]] + b[1..][..i];
      i := i + 1;
    }
  }

  lemma {:induction false} LowerIsBefore(a: string, b: string, i: nat)
    requires LowerAt(a, b, i)
    ensures Before(a, b)
  {
    if i > 0 {
      assert a[0] == a[..i][0] == b[..i][0] == b[0];
      assert a[1..][..i - 1] == a[..i][1..] && b[1..][..i - 1] == b[..i][1..];
      LowerIsBefore(a[1..], b[1..], i - 1);
    }
  }

  /** The order is that of Go's strings. */
  lemma BeforeIsLexicographic(a: string, b: string)
    ensures Before(a, b) <==> exists i :: LowerAt(a, b, i)
  {
    if Before(a, b) {
      var i := FirstLower(a, b);
    }
    if i :| LowerAt(a, b, i) {
      LowerIsBefore(a, b, i);
    }
  }

  predicate AtMost(a: string, b: string) {
    !Before(b, a)
  }

  lemma {:induction false} Trichotomy(a: string, b: string)
    ensures Before(a, b) || a == b || Before(b, a)
    ensures !(Before(a, b) && Before(b, a))
  {
    if a != "" && b != "" && a[0] == b[0] {
      Trichotomy(a[1..], b[1..]);
      assert a == [a[0]] + a[1..] && b == [b[0]] + b[1..];
    }
  }

  lemma {:induction false} AtMostTransitive(a: string, b: string, c: string)
    requires AtMost(a, b) && AtMost(b, c)
    ensures AtMost(a, c)
  {
    if a != "" && b != "" && c != "" && a[0] == b[0] == c[0] {
      AtMostTransitive(a[1..], b[1..], c[1..]);
    }
  }

  predicate IsSorted<T>(s: seq<T>, key: T -> string) {
    forall i, j :: 0 <= i < j < |s| ==> AtMost(key(s[i]), key(s[j]))
  }

  function Insert<T>(x: T, s: seq<T>, key: T -> string): (r: seq<T>)
    ensures multiset(r) == multiset(s) + multiset{x}
  {
    if s == [] then [x]
    else if Before(key(s[0]), key(x)) then
      assert s == [s[0]] + s[1..];
      [s[0]] + Insert(x, s[1..], key)
    else [x] + s
  }

  lemma {:induction false} InsertSorts<T>(x: T, s: seq<T>, key: T -> string)
    requires IsSorted(s, key)
    ensures IsSorted(Insert(x, s, key), key)
  {
    if s != [] && Before(key(s[0]), key(x)) {
      var rest := Insert(x, s[1..], key);
      InsertSorts(x, s[1..], key);
      forall j | 0 <= j < |rest| ensures AtMost(key(s[0]), key(rest[j])) {
        assert rest[j] in multiset(rest);
        Trichotomy(key(s[0]), key(x));
      }
    } else {
      forall j | 0 <= j < |s| ensures AtMost(key(x), key(s[j])) {
        if j > 0 {
          AtMostTransitive(key(x), key(s[0]), key(s[j]));
        }
      }
    }
  }

  function Sorted<T>(s: seq<T>, key: T -> string): (r: seq<T>)
    ensures multiset(r) == multiset(s)
  {
    if s == [] then []
    else
      assert s == s[..|s| - 1] + [s[|s| - 1]];
      Insert(s[|s| - 1], Sorted(s[..|s| - 1], key), key)
  }

  lemma {:induction false} SortedIsSorted<T>(s: seq<T>, key: T -> string)
    ensures IsSorted(Sorted(s, key), key)
  {
    if s != [] {
      SortedIsSorted(s[..|s| - 1], key);
      InsertSorts(s[|s| - 1], Sorted(s[..|s| - 1], key), key);
    }
  }

  /** The same elements in another order have the same members. */
  lemma SameMembers<T>(a: seq<T>, b: seq<T>)
    requires multiset(a) == multiset(b)
    ensures forall x :: x in a <==> x in b
    ensures |a| == |b|
  {
    forall x ensures x in a <==> x in b {
      assert x in a <==> x in multiset(a);
      assert x in b <==> x in multiset(b);
    }
    assert |multiset(a)| == |a| && |multiset(b)| == |b|;
  }
}
