/** Values shared by the modules of this project: optional and failing results, Python's string order,
    and ascending index lists. */
module Base {

  datatype Option<+T> = None | Some(value: T)

  datatype Result<+T, +E> = Ok(value: T) | Err(error: E)

  /** Code-point order, the order Python and SQLite's BINARY collation give storage keys. */
  predicate KeyLess(a: string, b: string) {
    b != [] && (a == [] || a[0] < b[0] || (a[0] == b[0] && KeyLess(a[1..], b[1..])))
  }

  lemma {:induction false} KeyLessTotal(a: string, b: string)
    ensures a == b || KeyLess(a, b) || KeyLess(b, a)
    decreases a
  {
    if a != [] && b != [] && a[0] == b[0] {
      KeyLessTotal(a[1..], b[1..]);
      assert a == [a[0]] + a[1..] && b == [b[0]] + b[1..];
    }
  }

  lemma {:induction false} KeyLessAsymmetric(a: string, b: string)
    requires KeyLess(a, b)
    ensures a != b && !KeyLess(b, a)
    decreases a
  {
    if a != [] && a[0] == b[0] {
      KeyLessAsymmetric(a[1..], b[1..]);
    }
  }

  lemma {:induction false} KeyLessTransitive(a: string, b: string, c: string)
    requires KeyLess(a, b) && KeyLess(b, c)
    ensures KeyLess(a, c)
    decreases a
  {
    if a != [] && a[0] == b[0] && b[0] == c[0] {
      KeyLessTransitive(a[1..], b[1..], c[1..]);
    }
  }

  ghost predicate Distinct<T(!new)>(s: seq<T>) {
    forall i, j :: 0 <= i < j < |s| ==> s[i] != s[j]
  }

  ghost predicate Ascending(s: seq<nat>) {
    forall i, j :: 0 <= i < j < |s| ==> s[i] < s[j]
  }

  lemma AppendAscending(s: seq<nat>, x: nat)
    requires Ascending(s) && forall i <- s :: i < x
    ensures Ascending(s + [x])
  {
    forall i, j | 0 <= i < j < |s + [x]| ensures (s + [x])[i] < (s + [x])[j] {
      assert s[i] in s;
    }
  }

  function Elements<T>(s: seq<T>): set<T> {
    set x | x in s
  }

  lemma {:induction false} DistinctCardinality<T(!new)>(s: seq<T>)
    requires Distinct(s)
    ensures |Elements(s)| == |s|
  {
    if s != [] {
      var n := |s| - 1;
      DistinctCardinality(s[..n]);
      assert s == s[..n] + [s[n]];
      assert s[n] !in s[..n];
      assert Elements(s) == Elements(s[..n]) + {s[n]};
    }
  }

  lemma SubsetCardinality<T>(a: set<T>, b: set<T>)
    requires a <= b
    ensures |a| <= |b|
    ensures |a| == |b| ==> a == b
  {
    assert |b| == |a| + |b - a| by { assert b == a + (b - a); }
    if |a| == |b| {
      assert b - a == {};
    }
  }

  /** `len(set(s)) == len(s)`. */
  predicate Unique<T(==)>(s: seq<T>) {
    |Elements(s)| == |s|
  }

  lemma {:induction false} UniqueIsDistinct<T(!new)>(s: seq<T>)
    ensures Unique(s) <==> Distinct(s)
  {
    if s != [] {
      var n := |s| - 1;
      UniqueIsDistinct(s[..n]);
      assert s == s[..n] + [s[n]];
      assert Elements(s) == Elements(s[..n]) + {s[n]};
      ElementsBound(s[..n]);
      if s[n] in s[..n] {
        assert Elements(s) == Elements(s[..n]);
      }
    }
  }

  lemma {:induction false} ElementsBound<T>(s: seq<T>)
    ensures |Elements(s)| <= |s|
  {
    if s != [] {
      var n := |s| - 1;
      ElementsBound(s[..n]);
      assert s == s[..n] + [s[n]];
      assert Elements(s) == Elements(s[..n]) + {s[n]};
    }
  }

  lemma Member<T>(s: set<T>) returns (x: T)
    requires s != {}
    ensures x in s
  {
    x :| x in s;
  }

  lemma LeastExists(s: set<int>)
    requires s != {}
    ensures exists m :: m in s && forall x <- s :: m <= x
  {
    var m := Member(s);
    LeastBelow(s, m);
  }

  lemma {:induction false} LeastBelow(s: set<int>, m: int)
    requires m in s
    ensures exists least :: least in s && forall x <- s :: least <= x
    decreases s
  {
    if y :| y in s && y < m {
      LeastBelow(s - {m}, y);
      var least :| least in s - {m} && forall x <- s - {m} :: least <= x;
      assert least <= y;
      assert forall x <- s :: least <= x by {
        forall x | x in s ensures least <= x {
          assert x == m || x in s - {m};
        }
      }
    } else {
      assert forall x <- s :: m <= x;
    }
  }

  /** `sorted(s)`. */
  function SortedInts(s: set<int>): seq<int> {
    if s == {} then []
    else
      LeastExists(s);
      var m :| m in s && forall x <- s :: m <= x;
      [m] + SortedInts(s - {m})
  }

  lemma {:induction false} SortedIntsOf(s: set<int>)
    ensures forall x :: x in SortedInts(s) <==> x in s
    ensures forall i, j :: 0 <= i < j < |SortedInts(s)| ==> SortedInts(s)[i] < SortedInts(s)[j]
  {
    if s != {} {
      LeastExists(s);
      var least := SortedInts(s)[0];
      var rest := SortedInts(s - {least});
      SortedIntsOf(s - {least});
      assert SortedInts(s) == [least] + rest;
      forall j | 0 <= j < |rest| ensures least < rest[j] {
        assert rest[j] in rest;
      }
    }
  }

  lemma SortedIntsUnique(s: set<int>)
    ensures Elements(SortedInts(s)) == s && Unique(SortedInts(s))
  {
    SortedIntsOf(s);
    UniqueIsDistinct(SortedInts(s));
  }
}
