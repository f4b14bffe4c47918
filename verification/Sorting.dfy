/** A sorted copy of a list by an integer key: what `[...list].sort((a, b) => key(a) - key(b))` returns. */
module Sorting {

  function Insert<T>(x: T, xs: seq<T>, key: T -> int): seq<T> {
    if xs == [] || key(x) < key(xs[0]) then [x] + xs else [xs[0]] + Insert(x, xs[1..], key)
  }

  /** Stable insertion sort. */
  function SortBy<T>(xs: seq<T>, key: T -> int): seq<T> {
    if xs == [] then [] else Insert(xs[|xs| - 1], SortBy(xs[..|xs| - 1], key), key)
  }

  ghost predicate Sorted<T>(xs: seq<T>, key: T -> int) {
    forall i, j :: 0 <= i < j < |xs| ==> key(xs[i]) <= key(xs[j])
  }

  lemma {:induction false} InsertHolds<T>(x: T, xs: seq<T>, key: T -> int)
    ensures multiset(Insert(x, xs, key)) == multiset(xs) + multiset{x}
    decreases |xs|
  {
    if xs != [] {
      InsertHolds(x, xs[1..], key);
      assert xs == [xs[0]] + xs[1..];
    }
  }

  lemma {:induction false} InsertSorts<T>(x: T, xs: seq<T>, key: T -> int)
    requires Sorted(xs, key)
    ensures Sorted(Insert(x, xs, key), key)
    decreases |xs|
  {
    if xs != [] && key(x) >= key(xs[0]) {
      var rest := Insert(x, xs[1..], key);
      InsertSorts(x, xs[1..], key);
      InsertHolds(x, xs[1..], key);
      forall j | 0 <= j < |rest|
        ensures key(xs[0]) <= key(rest[j])
      {
        var y := rest[j];
        assert y in multiset(rest);
        if y in xs[1..] {
          var k :| 0 <= k < |xs[1..]| && xs[1..][k] == y;
          assert key(xs[0]) <= key(xs[k + 1]);
        }
      }
      assert Insert(x, xs, key) == [xs[0]] + rest;
    }
  }

  lemma {:induction false} SortByKeeps<T>(xs: seq<T>, key: T -> int)
    ensures Sorted(SortBy(xs, key), key)
    ensures multiset(SortBy(xs, key)) == multiset(xs)
    decreases |xs|
  {
    if xs != [] {
      SortByKeeps(xs[..|xs| - 1], key);
      InsertHolds(xs[|xs| - 1], SortBy(xs[..|xs| - 1], key), key);
      InsertSorts(xs[|xs| - 1], SortBy(xs[..|xs| - 1], key), key);
      assert xs == xs[..|xs| - 1] + [xs[|xs| - 1]];
    }
  }

  /** No two positions hold conflicting elements. */
  ghost predicate Pairwise<T>(xs: seq<T>, conflict: (T, T) -> bool) {
    forall i, j :: 0 <= i < j < |xs| ==> !conflict(xs[i], xs[j])
  }

  lemma {:induction false} Twice<T>(xs: seq<T>, x: T)
    ensures multiset(xs)[x] >= 2 <==> exists i, j :: 0 <= i < j < |xs| && xs[i] == x && xs[j] == x
    decreases |xs|
  {
    if xs != [] {
      var front, last := xs[..|xs| - 1], xs[|xs| - 1];
      assert xs == front + [last];
      Twice(front, x);
      if last == x && multiset(front)[x] >= 1 {
        assert x in front;
        var i :| 0 <= i < |front| && front[i] == x;
        assert xs[i] == x && xs[|xs| - 1] == x;
      }
      if i, j :| 0 <= i < j < |xs| && xs[i] == x && xs[j] == x {
        assert i < |front| && front[i] == x;
        assert x in multiset(front);
        if j < |front| {
          assert front[j] == x;
        }
      }
    }
  }

  /** The pairwise condition said without positions. */
  ghost predicate ConflictFree<T(!new)>(ms: multiset<T>, conflict: (T, T) -> bool) {
    forall x, y :: x in ms && y in ms && (x == y ==> ms[x] >= 2) ==> !conflict(x, y)
  }

  lemma PairwiseIsConflictFree<T(!new)>(xs: seq<T>, conflict: (T, T) -> bool)
    requires forall x, y :: conflict(x, y) == conflict(y, x)
    ensures Pairwise(xs, conflict) <==> ConflictFree(multiset(xs), conflict)
  {
    if Pairwise(xs, conflict) {
      forall x, y | x in multiset(xs) && y in multiset(xs) && (x == y ==> multiset(xs)[x] >= 2)
        ensures !conflict(x, y)
      {
        Twice(xs, x);
        if x == y {
          var i, j :| 0 <= i < j < |xs| && xs[i] == x && xs[j] == x;
        } else {
          assert x in xs && y in xs;
          var i :| 0 <= i < |xs| && xs[i] == x;
          var j :| 0 <= j < |xs| && xs[j] == y;
          assert conflict(x, y) == conflict(y, x);
        }
      }
    }
    if ConflictFree(multiset(xs), conflict) {
      forall i, j | 0 <= i < j < |xs|
        ensures !conflict(xs[i], xs[j])
      {
        Twice(xs, xs[i]);
        assert xs[i] in multiset(xs) && xs[j] in multiset(xs);
      }
    }
  }

  /** A symmetric pairwise condition does not depend on the order of the list. */
  lemma PairwiseIsOrderFree<T(!new)>(a: seq<T>, b: seq<T>, conflict: (T, T) -> bool)
    requires multiset(a) == multiset(b)
    requires forall x, y :: conflict(x, y) == conflict(y, x)
    ensures Pairwise(a, conflict) <==> Pairwise(b, conflict)
  {
    PairwiseIsConflictFree(a, conflict);
    PairwiseIsConflictFree(b, conflict);
  }

  /** The first element that matches, or nothing. */
  function First<T>(xs: seq<T>, matches: T -> bool): seq<T> {
    if xs == [] then [] else if matches(xs[0]) then [xs[0]] else First(xs[1..], matches)
  }

  lemma {:induction false} FirstFound<T>(xs: seq<T>, matches: T -> bool)
    ensures First(xs, matches) == [] <==> forall x :: x in xs ==> !matches(x)
    ensures First(xs, matches) != [] ==>
              |First(xs, matches)| == 1 && First(xs, matches)[0] in xs && matches(First(xs, matches)[0])
  {
    if xs != [] {
      FirstFound(xs[1..], matches);
      assert xs == [xs[0]] + xs[1..];
    }
  }

  /** What is found is the first that matches. */
  lemma {:induction false} FirstIndex<T>(xs: seq<T>, matches: T -> bool, k: nat)
    requires k < |xs| && matches(xs[k]) && forall j :: 0 <= j < k ==> !matches(xs[j])
    ensures First(xs, matches) == [xs[k]]
  {
    if k > 0 {
      FirstIndex(xs[1..], matches, k - 1);
    }
  }

  lemma {:induction false} LeastIndex<T>(xs: seq<T>, matches: T -> bool) returns (k: nat)
    requires exists x :: x in xs && matches(x)
    ensures k < |xs| && matches(xs[k]) && forall j :: 0 <= j < k ==> !matches(xs[j])
  {
    k := 0;
    if !matches(xs[0]) {
      assert xs == [xs[0]] + xs[1..];
      k := LeastIndex(xs[1..], matches);
      k := k + 1;
    }
  }

  /** When no two positions match together, a look-up does not depend on the order of the list. */
  lemma FirstIsOrderFree<T>(a: seq<T>, b: seq<T>, matches: T -> bool)
    requires multiset(a) == multiset(b)
    requires forall i, j :: 0 <= i < j < |a| ==> !(matches(a[i]) && matches(a[j]))
    ensures First(a, matches) == First(b, matches)
  {
    FirstFound(a, matches);
    FirstFound(b, matches);
    forall x ensures x in a <==> x in b {
      assert x in a <==> x in multiset(a);
      assert x in b <==> x in multiset(b);
    }
    if First(a, matches) != [] && First(b, matches) != [] {
      var x, y := First(a, matches)[0], First(b, matches)[0];
      var i :| 0 <= i < |a| && a[i] == x;
      var j :| 0 <= j < |a| && a[j] == y;
      assert x == y;
    }
  }

  /** The place in a permuted list of the last element of the original. */
  lemma FindLast<T>(a: seq<T>, b: seq<T>) returns (k: nat)
    requires multiset(a) == multiset(b) && a != []
    ensures k < |b| && b == b[..k] + [a[|a| - 1]] + b[k + 1..]
    ensures multiset(a[..|a| - 1]) == multiset(b[..k] + b[k + 1..])
  {
    var front, last := a[..|a| - 1], a[|a| - 1];
    assert a == front + [last];
    assert multiset(a) == multiset(front) + multiset{last};
    assert last in multiset(b);
    k :| 0 <= k < |b| && b[k] == last;
    var before, after := b[..k], b[k + 1..];
    assert b == before + [last] + after;
    assert multiset(before + after) == multiset(before) + multiset(after);
    MultisetCancel(multiset(front), multiset(before) + multiset(after), last);
  }

  lemma MultisetCancel<T>(m: multiset<T>, n: multiset<T>, x: T)
    requires m + multiset{x} == n + multiset{x}
    ensures m == n
  {
    assert m == (m + multiset{x}) - multiset{x};
    assert n == (n + multiset{x}) - multiset{x};
  }
}
