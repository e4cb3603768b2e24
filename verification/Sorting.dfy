/** Strictly sorted sequences: a strict order leaves exactly one way to list a set. */
module Sorting {

  ghost predicate StrictOrder<T(!new)>(lt: (T, T) -> bool) {
    && (forall x :: !lt(x, x))
    && (forall x, y, z :: lt(x, y) && lt(y, z) ==> lt(x, z))
  }

  /** Every two different elements of `xs` are comparable. */
  ghost predicate Connected<T>(lt: (T, T) -> bool, xs: seq<T>) {
    forall x, y :: x in xs && y in xs && x != y ==> lt(x, y) || lt(y, x)
  }

  ghost predicate Sorted<T>(lt: (T, T) -> bool, xs: seq<T>) {
    forall i, j :: 0 <= i < j < |xs| ==> lt(xs[i], xs[j])
  }

  ghost predicate Distinct<T>(xs: seq<T>) {
    forall i, j :: 0 <= i < j < |xs| ==> xs[i] != xs[j]
  }

  ghost predicate SameElements<T(!new)>(xs: seq<T>, ys: seq<T>) {
    forall x :: x in xs <==> x in ys
  }

  lemma SameHead<T(!new)>(lt: (T, T) -> bool, xs: seq<T>, ys: seq<T>)
    requires StrictOrder(lt)
    requires Sorted(lt, xs) && Sorted(lt, ys)
    requires SameElements(xs, ys) && xs != []
    ensures ys != [] && xs[0] == ys[0]
  {
    assert xs[0] in ys;
    var j :| 0 <= j < |ys| && ys[j] == xs[0];
    assert ys[0] in xs;
    var i :| 0 <= i < |xs| && xs[i] == ys[0];
  }

  /** Two strictly sorted listings of the same elements are the same sequence. */
  lemma {:induction false} SortedUnique<T(!new)>(lt: (T, T) -> bool, xs: seq<T>, ys: seq<T>)
    requires StrictOrder(lt)
    requires Sorted(lt, xs) && Sorted(lt, ys)
    requires SameElements(xs, ys)
    ensures xs == ys
  {
    if xs == [] {
      assert forall i :: 0 <= i < |ys| ==> ys[i] in xs;
    } else {
      SameHead(lt, xs, ys);
      var a, b := xs[1..], ys[1..];
      forall x ensures x in a <==> x in b {
        if x in a { assert lt(xs[0], x); assert x in xs; }
        if x in b { assert lt(ys[0], x); assert x in ys; }
      }
      SortedUnique(lt, a, b);
      assert xs == [xs[0]] + a && ys == [ys[0]] + b;
    }
  }

  function Insert<T>(lt: (T, T) -> bool, x: T, xs: seq<T>): seq<T> {
    if xs == [] then [x]
    else if lt(x, xs[0]) then [x] + xs
    else [xs[0]] + Insert(lt, x, xs[1..])
  }

  function Sort<T>(lt: (T, T) -> bool, xs: seq<T>): seq<T> {
    if xs == [] then [] else Insert(lt, xs[0], Sort(lt, xs[1..]))
  }

  lemma {:induction false} InsertElements<T(!new)>(lt: (T, T) -> bool, x: T, xs: seq<T>)
    ensures multiset(Insert(lt, x, xs)) == multiset(xs) + multiset{x}
    ensures forall y :: y in Insert(lt, x, xs) <==> y == x || y in xs
  {
    if xs == [] {
    } else if lt(x, xs[0]) {
    } else {
      InsertElements(lt, x, xs[1..]);
      assert xs == [xs[0]] + xs[1..];
    }
  }

  lemma {:induction false} InsertSorted<T(!new)>(lt: (T, T) -> bool, x: T, xs: seq<T>)
    requires StrictOrder(lt) && Sorted(lt, xs) && x !in xs
    requires Connected(lt, xs + [x])
    ensures Sorted(lt, Insert(lt, x, xs))
  {
    if xs == [] {
    } else if lt(x, xs[0]) {
    } else {
      var rest := xs[1..];
      assert forall y :: y in rest + [x] ==> y in xs + [x];
      InsertSorted(lt, x, rest);
      InsertElements(lt, x, rest);
      assert x in xs + [x] && xs[0] in xs + [x];
      assert lt(xs[0], x);
      var r := Insert(lt, x, rest);
      forall k | 0 <= k < |r| ensures lt(xs[0], r[k]) {
        assert r[k] in r;
      }
    }
  }

  lemma {:induction false} SortElements<T(!new)>(lt: (T, T) -> bool, xs: seq<T>)
    ensures multiset(Sort(lt, xs)) == multiset(xs)
    ensures SameElements(Sort(lt, xs), xs)
  {
    if xs != [] {
      SortElements(lt, xs[1..]);
      InsertElements(lt, xs[0], Sort(lt, xs[1..]));
      assert xs == [xs[0]] + xs[1..];
    }
  }

  lemma {:induction false} SortSorts<T(!new)>(lt: (T, T) -> bool, xs: seq<T>)
    requires StrictOrder(lt) && Distinct(xs) && Connected(lt, xs)
    ensures Sorted(lt, Sort(lt, xs))
  {
    if xs != [] {
      var rest := xs[1..];
      SortSorts(lt, rest);
      SortElements(lt, rest);
      assert xs[0] !in rest;
      assert forall y :: y in Sort(lt, rest) + [xs[0]] ==> y in xs;
      InsertSorted(lt, xs[0], Sort(lt, rest));
    }
  }
}
