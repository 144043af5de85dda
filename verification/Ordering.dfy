/** Orders on texts, and sets listed in order as `ORDER BY` and ordered sets do. */
module Ordering {
  /** Lexicographic order of texts by code point. */
  predicate TextLess(a: string, b: string) {
    if b == "" then false
    else if a == "" then true
    else if a[0] != b[0] then a[0] < b[0]
    else TextLess(a[1..], b[1..])
  }

  lemma {:induction false} TextLessTrichotomy(a: string, b: string)
    ensures !TextLess(a, a)
    ensures TextLess(a, b) ==> !TextLess(b, a)
    ensures a != b ==> TextLess(a, b) || TextLess(b, a)
  {
    if a != "" {
      TextLessTrichotomy(a[1..], if b == "" then "" else b[1..]);
      assert b != "" ==> a == [a[0]] + a[1..] && b == [b[0]] + b[1..];
    }
  }

  lemma {:induction false} TextLessTransitive(a: string, b: string, c: string)
    requires TextLess(a, b) && TextLess(b, c)
    ensures TextLess(a, c)
  {
    if a != "" && a[0] == b[0] == c[0] {
      TextLessTransitive(a[1..], b[1..], c[1..]);
    }
  }

  /** A text comes first if it is a proper beginning of the other, or has the smaller character where
      the two first differ. */
  lemma {:induction false} TextLessExactly(a: string, b: string)
    ensures TextLess(a, b) <==>
      (a <= b && a != b) || exists i :: 0 <= i < |a| && i < |b| && a[..i] == b[..i] && a[i] < b[i]
  {
    if a != "" && b != "" {
      if a[0] == b[0] {
        TextLessExactly(a[1..], b[1..]);
        assert a == [a[0]] + a[1..] && b == [b[0]] + b[1..];
        forall i | 0 < i < |a| && i < |b|
          ensures a[..i] == b[..i] <==> a[1..][..i - 1] == b[1..][..i - 1]
        {
          assert a[..i] == [a[0]] + a[1..][..i - 1] && b[..i] == [b[0]] + b[1..][..i - 1];
        }
        if i :| 0 <= i < |a[1..]| && i < |b[1..]| && a[1..][..i] == b[1..][..i] && a[1..][i] < b[1..][i] {
          assert a[..i + 1] == b[..i + 1] && a[i + 1] < b[i + 1];
        }
      } else {
        assert a[..0] == b[..0];
      }
    }
  }

  /** A strict order, total on the members of `s`. */
  ghost predicate OrdersOn<T(!new)>(s: set<T>, less: (T, T) -> bool) {
    && (forall x | x in s :: !less(x, x))
    && (forall x, y | x in s && y in s :: x != y ==> less(x, y) || less(y, x))
    && (forall x, y, z | x in s && y in s && z in s :: less(x, y) && less(y, z) ==> less(x, z))
  }

  ghost predicate Sorted<T>(xs: seq<T>, less: (T, T) -> bool) {
    forall i, j :: 0 <= i < j < |xs| ==> less(xs[i], xs[j])
  }

  predicate IsLeast<T(==)>(x: T, s: set<T>, less: (T, T) -> bool) {
    x in s && forall y | y in s :: y != x ==> less(x, y)
  }

  lemma {:induction false} LeastExists<T(!new)>(s: set<T>, less: (T, T) -> bool)
    requires s != {} && OrdersOn(s, less)
    ensures exists x :: IsLeast(x, s, less)
    decreases |s|
  {
    var x :| x in s;
    var rest := s - {x};
    if rest == {} {
      assert s == {x};
      assert IsLeast(x, s, less);
    } else {
      LeastExists(rest, less);
      var y :| IsLeast(y, rest, less);
      assert IsLeast(if less(x, y) then x else y, s, less);
    }
  }

  /** The members of a set in order. */
  function Listed<T(==, !new)>(s: set<T>, less: (T, T) -> bool): (xs: seq<T>)
    requires OrdersOn(s, less)
    ensures Sorted(xs, less) && (forall x :: x in xs <==> x in s)
    decreases |s|
  {
    if s == {} then []
    else
      LeastExists(s, less);
      var x :| IsLeast(x, s, less);
      var rest := Listed(s - {x}, less);
      assert forall j :: 0 <= j < |rest| ==> rest[j] in s - {x};
      [x] + rest
  }

  /** There is only one way to list a set in order. */
  lemma {:induction false} ListedIsUnique<T(!new)>(xs: seq<T>, s: set<T>, less: (T, T) -> bool)
    requires OrdersOn(s, less) && Sorted(xs, less) && forall x :: x in xs <==> x in s
    ensures xs == Listed(s, less)
    decreases |xs|
  {
    if xs != [] {
      var rest := xs[1..];
      assert xs[0] in s;
      forall y | y in s && y != xs[0]
        ensures less(xs[0], y)
      {
        var i :| 0 <= i < |xs| && xs[i] == y;
      }
      assert IsLeast(xs[0], s, less);
      forall y
        ensures y in rest <==> y in s - {xs[0]}
      {
        if y in rest { var i :| 0 <= i < |rest| && rest[i] == y; assert less(xs[0], xs[i + 1]); }
        if y in s - {xs[0]} { var i :| 0 <= i < |xs| && xs[i] == y; assert rest[i - 1] == y; }
      }
      ListedIsUnique(rest, s - {xs[0]}, less);
      assert forall x :: IsLeast(x, s, less) ==> x == xs[0];
    } else {
      assert s == {};
    }
  }

  lemma TextsOrdered(s: set<string>)
    ensures OrdersOn(s, TextLess)
  {
    forall x, y | x in s && y in s
      ensures !TextLess(x, x) && (x != y ==> TextLess(x, y) || TextLess(y, x))
    {
      TextLessTrichotomy(x, y);
    }
    forall x, y, z | x in s && y in s && z in s && TextLess(x, y) && TextLess(y, z)
      ensures TextLess(x, z)
    {
      TextLessTransitive(x, y, z);
    }
  }

  function ListedTexts(s: set<string>): (xs: seq<string>)
    ensures Sorted(xs, TextLess) && forall x :: x in xs <==> x in s
  {
    TextsOrdered(s);
    Listed(s, TextLess)
  }

  /** Stable sorting by insertion, the effect of the library sort. */
  function Insert<T>(x: T, xs: seq<T>, less: (T, T) -> bool): seq<T> {
    if xs == [] then [x]
    else if less(xs[0], x) then [xs[0]] + Insert(x, xs[1..], less)
    else [x] + xs
  }

  function SortBy<T>(xs: seq<T>, less: (T, T) -> bool): seq<T> {
    if xs == [] then [] else Insert(xs[0], SortBy(xs[1..], less), less)
  }

  /** Sorted up to equal keys. */
  ghost predicate NoInversions<T>(xs: seq<T>, less: (T, T) -> bool) {
    forall i, j :: 0 <= i < j < |xs| ==> !less(xs[j], xs[i])
  }

  lemma {:induction false} InsertMembers<T>(x: T, xs: seq<T>, less: (T, T) -> bool)
    ensures forall y :: y in Insert(x, xs, less) <==> y == x || y in xs
  {
    if xs != [] && less(xs[0], x) {
      InsertMembers(x, xs[1..], less);
    }
  }

  lemma {:induction false} SortMembers<T>(xs: seq<T>, less: (T, T) -> bool)
    ensures forall y :: y in SortBy(xs, less) <==> y in xs
  {
    if xs != [] {
      SortMembers(xs[1..], less);
      InsertMembers(xs[0], SortBy(xs[1..], less), less);
    }
  }

  lemma {:induction false} InsertKeepsOrder<T(!new)>(x: T, xs: seq<T>, less: (T, T) -> bool, s: set<T>)
    requires OrdersOn(s, less) && x in s && (forall y :: y in xs ==> y in s) && NoInversions(xs, less)
    ensures NoInversions(Insert(x, xs, less), less)
    decreases xs
  {
    if xs != [] {
      var rest := xs[1..];
      if less(xs[0], x) {
        InsertKeepsOrder(x, rest, less, s);
        InsertMembers(x, rest, less);
        forall y | y in Insert(x, rest, less)
          ensures !less(y, xs[0])
        {
          if y in rest && y != x { var i :| 0 <= i < |rest| && rest[i] == y; assert xs[i + 1] == y; }
        }
      } else {
        forall i | 0 <= i < |xs|
          ensures !less(xs[i], x)
        {
          assert i > 0 ==> !less(xs[i], xs[0]);
          assert xs[i] in xs && xs[0] in xs;
        }
      }
    }
  }

  lemma {:induction false} SortOrders<T(!new)>(xs: seq<T>, less: (T, T) -> bool, s: set<T>)
    requires OrdersOn(s, less) && forall y :: y in xs ==> y in s
    ensures NoInversions(SortBy(xs, less), less)
    decreases xs
  {
    if xs != [] {
      SortOrders(xs[1..], less, s);
      SortMembers(xs[1..], less);
      InsertKeepsOrder(xs[0], SortBy(xs[1..], less), less, s);
    }
  }
}
