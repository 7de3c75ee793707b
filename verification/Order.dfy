/** Byte order on names and the stable sort the directory builder applies to its links. */
module Order {
  import opened Prelude

  /** `a <= b` as byte strings. */
  predicate Leq(a: Bytes, b: Bytes) {
    if a == [] then true
    else if b == [] then false
    else if a[0] != b[0] then a[0] < b[0]
    else Leq(a[1..], b[1..])
  }

  lemma {:induction false} LeqTotal(a: Bytes, b: Bytes)
    ensures Leq(a, b) || Leq(b, a)
  {
    if a != [] && b != [] && a[0] == b[0] {
      LeqTotal(a[1..], b[1..]);
    }
  }

  lemma {:induction false} LeqTransitive(a: Bytes, b: Bytes, c: Bytes)
    requires Leq(a, b) && Leq(b, c)
    ensures Leq(a, c)
  {
    if a != [] && b != [] && c != [] && a[0] == b[0] == c[0] {
      LeqTransitive(a[1..], b[1..], c[1..]);
    }
  }

  lemma {:induction false} LeqAntisymmetric(a: Bytes, b: Bytes)
    requires Leq(a, b) && Leq(b, a)
    ensures a == b
  {
    if a != [] && b != [] {
      LeqAntisymmetric(a[1..], b[1..]);
      assert a == [a[0]] + a[1..] && b == [b[0]] + b[1..];
    }
  }

  ghost predicate Sorted<T>(xs: seq<T>, key: T -> Bytes) {
    forall i, j :: 0 <= i < j < |xs| ==> Leq(key(xs[i]), key(xs[j]))
  }

  /** `x` after every element of the sorted `xs` that is not above it. */
  function Insert<T>(xs: seq<T>, x: T, key: T -> Bytes): (r: seq<T>)
    ensures multiset(r) == multiset(xs) + multiset{x}
  {
    if xs == [] || Leq(key(xs[|xs| - 1]), key(x)) then xs + [x]
    else
      assert xs == xs[..|xs| - 1] + [xs[|xs| - 1]];
      Insert(xs[..|xs| - 1], x, key) + [xs[|xs| - 1]]
  }

  /** A stable sort by name. */
  function Sort<T>(xs: seq<T>, key: T -> Bytes): (r: seq<T>)
    ensures multiset(r) == multiset(xs)
  {
    if xs == [] then []
    else
      assert xs == xs[..|xs| - 1] + [xs[|xs| - 1]];
      Insert(Sort(xs[..|xs| - 1], key), xs[|xs| - 1], key)
  }

  lemma {:induction false} InsertSorted<T>(xs: seq<T>, x: T, key: T -> Bytes)
    requires Sorted(xs, key)
    ensures Sorted(Insert(xs, x, key), key)
  {
    if xs != [] {
      var last := xs[|xs| - 1];
      if Leq(key(last), key(x)) {
        forall i | 0 <= i < |xs|
          ensures Leq(key(xs[i]), key(x))
        {
          if i < |xs| - 1 {
            LeqTransitive(key(xs[i]), key(last), key(x));
          }
        }
      } else {
        LeqTotal(key(last), key(x));
        var front := Insert(xs[..|xs| - 1], x, key);
        InsertSorted(xs[..|xs| - 1], x, key);
        forall i | 0 <= i < |front|
          ensures Leq(key(front[i]), key(last))
        {
          assert front[i] in multiset(front);
        }
      }
    }
  }

  lemma {:induction false} SortSorted<T>(xs: seq<T>, key: T -> Bytes)
    ensures Sorted(Sort(xs, key), key)
  {
    if xs != [] {
      SortSorted(xs[..|xs| - 1], key);
      InsertSorted(Sort(xs[..|xs| - 1], key), xs[|xs| - 1], key);
    }
  }

  ghost predicate DistinctKeys<T>(xs: seq<T>, key: T -> Bytes) {
    forall i, j :: 0 <= i < j < |xs| ==> key(xs[i]) != key(xs[j])
  }

  /** The greatest element is the last one. */
  lemma {:induction false} LastIsGreatest<T>(xs: seq<T>, x: T, key: T -> Bytes)
    requires Sorted(xs, key) && x in xs
    ensures Leq(key(x), key(xs[|xs| - 1])) || x == xs[|xs| - 1]
  {
  }

  lemma {:induction false} FrontMembers<T>(xs: seq<T>, key: T -> Bytes, z: T)
    requires xs != [] && DistinctKeys(xs, key)
    ensures z in xs[..|xs| - 1] <==> z in xs && z != xs[|xs| - 1]
  {
    if z in xs && z != xs[|xs| - 1] {
      var i :| 0 <= i < |xs| && xs[i] == z;
      assert xs[..|xs| - 1][i] == z;
    }
  }

  lemma {:induction false} SameLast<T>(xs: seq<T>, ys: seq<T>, key: T -> Bytes)
    requires xs != [] && ys != [] && Sorted(xs, key) && Sorted(ys, key) && DistinctKeys(ys, key)
    requires xs[|xs| - 1] in ys && ys[|ys| - 1] in xs
    ensures xs[|xs| - 1] == ys[|ys| - 1]
  {
    var x, y := xs[|xs| - 1], ys[|ys| - 1];
    LastIsGreatest(ys, x, key);
    LastIsGreatest(xs, y, key);
    if x != y {
      LeqAntisymmetric(key(x), key(y));
    }
  }

  /** There is one way to sort things with different names. */
  lemma {:induction false} SortedUnique<T>(xs: seq<T>, ys: seq<T>, key: T -> Bytes)
    requires Sorted(xs, key) && Sorted(ys, key) && DistinctKeys(xs, key) && DistinctKeys(ys, key)
    requires forall z :: z in xs <==> z in ys
    ensures xs == ys
  {
    assert |xs| > 0 ==> xs[|xs| - 1] in ys;
    assert |ys| > 0 ==> ys[|ys| - 1] in xs;
    if xs != [] {
      SameLast(xs, ys, key);
      var front, other := xs[..|xs| - 1], ys[..|ys| - 1];
      forall z
        ensures z in front <==> z in other
      {
        FrontMembers(xs, key, z);
        FrontMembers(ys, key, z);
      }
      SortedUnique(front, other, key);
    }
  }

  /** Sorting leaves an already sorted list alone. */
  lemma {:induction false} SortKeepsSorted<T>(xs: seq<T>, key: T -> Bytes)
    requires Sorted(xs, key)
    ensures Sort(xs, key) == xs
  {
    if xs != [] {
      var front, last := xs[..|xs| - 1], xs[|xs| - 1];
      SortKeepsSorted(front, key);
      assert front != [] ==> Leq(key(xs[|xs| - 2]), key(last));
      assert Insert(front, last, key) == front + [last];
    }
  }
}
