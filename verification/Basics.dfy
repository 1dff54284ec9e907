/** Small vocabulary shared by the models: optional values, replies and sorted listings of sets. */
module Basics {

  datatype Option<+T> = None | Some(value: T)

  /** What a service call hands back: a value, or the exception it raised. */
  datatype Reply<+T, +E> = Ok(value: T) | Err(error: E)

  predicate Increasing(xs: seq<int>) {
    forall i, j | 0 <= i < j < |xs| :: xs[i] < xs[j]
  }

  predicate Distinct<T(==)>(xs: seq<T>) {
    forall i, j | 0 <= i < j < |xs| :: xs[i] != xs[j]
  }

  function ToSet<T>(xs: seq<T>): set<T> {
    set x | x in xs
  }

  /** A non-empty set of integers offers an element to choose. */
  lemma HasElement(s: set<int>)
    ensures s == {} || exists x :: x in s
  {
    if forall x :: x !in s {
      assert s == {};
    }
  }

  lemma {:induction false} MinExists(s: set<int>, y: int)
    requires y in s
    ensures exists m | m in s :: forall x | x in s :: m <= x
    decreases s
  {
    if z :| z in s && z < y {
      MinExists(s - {y}, z);
      var m :| m in s - {y} && forall x | x in s - {y} :: m <= x;
      assert z in s - {y};
      assert forall x | x in s :: x in s - {y} || x == y;
    }
  }

  function MinOf(s: set<int>): (m: int)
    requires s != {}
    ensures m in s && forall x | x in s :: m <= x
  {
    assert exists m | m in s :: forall x | x in s :: m <= x by {
      HasElement(s);
      var y :| y in s;
      MinExists(s, y);
    }
    var m :| m in s && forall x | x in s :: m <= x;
    m
  }

  function MaxOf(s: set<int>): (m: int)
    requires s != {}
    ensures m in s && forall x | x in s :: x <= m
  {
    var negated := set x | x in s :: -x;
    assert forall x | x in s :: -x in negated;
    -MinOf(negated)
  }

  /** `sorted(...)` applied to the elements of a set. */
  function Sorted(s: set<int>): (xs: seq<int>)
    ensures |xs| == |s| && Increasing(xs)
    ensures forall x :: x in xs <==> x in s
  {
    if s == {} then [] else
      var m := MinOf(s);
      [m] + Sorted(s - {m})
  }

  /** A strictly increasing listing is determined by its elements. */
  lemma {:induction false} IncreasingUnique(xs: seq<int>, ys: seq<int>)
    requires Increasing(xs) && Increasing(ys)
    requires ToSet(xs) == ToSet(ys)
    ensures xs == ys
  {
    DistinctCardinality(xs);
    DistinctCardinality(ys);
    if xs == [] {
    } else {
      assert xs[0] in ToSet(ys) && ys[0] in ToSet(xs);
      assert ToSet(xs[1..]) == ToSet(xs) - {xs[0]};
      assert ToSet(ys[1..]) == ToSet(ys) - {ys[0]};
      IncreasingUnique(xs[1..], ys[1..]);
    }
  }

  ghost function Image<T(!new), U(!new)>(s: set<T>, column: T -> U): set<U> {
    set x | x in s :: column(x)
  }

  /** Counting rows and counting the values of an injective column agree. */
  lemma {:induction false} CardinalityOfImage<T(!new), U(!new)>(s: set<T>, column: T -> U)
    requires forall x, y | x in s && y in s && column(x) == column(y) :: x == y
    ensures |Image(s, column)| == |s|
  {
    if s == {} {
      assert Image(s, column) == {};
    } else {
      var y :| y in s;
      var rest := s - {y};
      CardinalityOfImage(rest, column);
      assert Image(s, column) == Image(rest, column) + {column(y)};
      assert column(y) !in Image(rest, column);
    }
  }

  /** A subset at least as large as the whole is the whole. */
  lemma SubsetOfSameSize<T>(part: set<T>, whole: set<T>)
    requires part <= whole
    ensures |part| <= |whole|
    ensures |part| >= |whole| <==> part == whole
  {
    assert whole == part + (whole - part);
    assert |whole| == |part| + |whole - part|;
  }

  lemma DistinctCardinality<T>(xs: seq<T>)
    requires Distinct(xs)
    ensures |ToSet(xs)| == |xs|
  {
    if xs == [] {
    } else {
      var init, last := xs[..|xs| - 1], xs[|xs| - 1];
      DistinctCardinality(init);
      assert ToSet(xs) == ToSet(init) + {last};
    }
  }
}
