/** The stable in-place sort used by the storefront's listing pages
    (`Array.prototype.sort` with a numeric comparator `(a, b) => key(a) - key(b)`;
    a descending order is the same sort on the negated key). The sort is an
    insertion sort, proved sorted, a permutation, and stable: elements of equal
    key keep their relative order, as `Array.prototype.sort` guarantees. */
module Sorting {

  /** `s` is in non-decreasing order of `key`. */
  ghost predicate SortedBy<T>(s: seq<T>, key: T -> int)
  {
    forall i, j :: 0 <= i < j < |s| ==> key(s[i]) <= key(s[j])
  }

  /** The first `n` elements of `s` are in non-decreasing order of `key`. */
  ghost predicate SortedPrefix<T>(s: seq<T>, n: int, key: T -> int)
  {
    forall p, q :: 0 <= p < q < n && q < |s| ==> key(s[p]) <= key(s[q])
  }

  /** The elements of `s` whose key is `k`, in their order in `s`. */
  function WithKey<T>(s: seq<T>, key: T -> int, k: int): (r: seq<T>)
    ensures |r| <= |s|
  {
    if s == [] then [] else (if key(s[0]) == k then [s[0]] else []) + WithKey(s[1..], key, k)
  }

  /** `r` lists the elements of each key in the order `s` does: what a stable
      sort keeps. */
  ghost predicate SameKeyOrder<T>(r: seq<T>, s: seq<T>, key: T -> int)
  {
    forall k :: WithKey(r, key, k) == WithKey(s, key, k)
  }

  lemma {:induction false} WithKeyAppend<T>(a: seq<T>, b: seq<T>, key: T -> int, k: int)
    ensures WithKey(a + b, key, k) == WithKey(a, key, k) + WithKey(b, key, k)
  {
    if a == [] {
      assert a + b == b;
    } else {
      var c := a + b;
      assert c[0] == a[0] && c[1..] == a[1..] + b;
      WithKeyAppend(a[1..], b, key, k);
      var head := if key(a[0]) == k then [a[0]] else [];
      assert WithKey(c, key, k) == head + WithKey(c[1..], key, k);
      assert WithKey(a, key, k) == head + WithKey(a[1..], key, k);
      assert head + (WithKey(a[1..], key, k) + WithKey(b, key, k))
        == (head + WithKey(a[1..], key, k)) + WithKey(b, key, k);
    }
  }

  /** Every element of `m` has a key other than `key(x)`. */
  ghost predicate KeysDiffer<T>(m: seq<T>, x: T, key: T -> int)
  {
    forall y :: y in m ==> key(y) != key(x)
  }

  lemma {:induction false} WithKeyNone<T>(m: seq<T>, x: T, key: T -> int)
    requires KeysDiffer(m, x, key)
    ensures WithKey(m, key, key(x)) == []
  {
    if m != [] {
      assert m[0] in m;
      assert KeysDiffer(m[1..], x, key) by {
        forall y | y in m[1..] ensures key(y) != key(x) {
          assert y in m;
        }
      }
      WithKeyNone(m[1..], x, key);
    }
  }

  /** Moving an element past elements of other keys keeps the order within every key. */
  lemma MovePastOthers<T>(m: seq<T>, x: T, key: T -> int, k: int)
    requires KeysDiffer(m, x, key)
    ensures WithKey([x] + m, key, k) == WithKey(m + [x], key, k)
  {
    WithKeyAppend([x], m, key, k);
    WithKeyAppend(m, [x], key, k);
    assert [x][1..] == [];
    if k == key(x) {
      WithKeyNone(m, x, key);
    }
  }

  /** `o` with its element `i` moved left to position `j`: the state of the
      insertion while it is at `j`. */
  function Placed<T>(o: seq<T>, i: nat, j: nat): (s: seq<T>)
    requires j <= i < |o|
    ensures |s| == |o|
    ensures forall p :: 0 <= p < j ==> s[p] == o[p]
    ensures s[j] == o[i]
    ensures forall p :: j < p <= i ==> s[p] == o[p - 1]
    ensures forall p :: i < p < |o| ==> s[p] == o[p]
  {
    o[..j] + [o[i]] + o[j..i] + o[i + 1..]
  }

  /** Exchanging the moved element with its left neighbour moves it one place. */
  lemma PlacedStep<T>(o: seq<T>, i: nat, j: nat)
    requires 0 < j <= i < |o|
    ensures var s := Placed(o, i, j); s[j - 1 := s[j]][j := s[j - 1]] == Placed(o, i, j - 1)
  {
  }

  /** The insertion's end state is sorted up to `i`. */
  lemma PlacedSorted<T>(o: seq<T>, i: nat, j: nat, key: T -> int)
    requires j <= i < |o|
    requires SortedPrefix(o, i, key)
    requires forall p :: j <= p < i ==> key(o[p]) > key(o[i])
    requires j == 0 || key(o[j - 1]) <= key(o[i])
    ensures SortedPrefix(Placed(o, i, j), i + 1, key)
  {
    var s := Placed(o, i, j);
    forall p, q | 0 <= p < q < i + 1 && q < |s| ensures key(s[p]) <= key(s[q]) {
      if q == j && p < j - 1 {
        assert key(o[p]) <= key(o[j - 1]);
      }
    }
  }

  /** The insertion's end state is a permutation of the start. */
  lemma PlacedPermutes<T>(o: seq<T>, i: nat, j: nat)
    requires j <= i < |o|
    ensures multiset(Placed(o, i, j)) == multiset(o)
  {
    var x, m := o[i], o[j..i];
    assert o == o[..j] + m + [x] + o[i + 1..];
  }

  /** Moving `o[i]` left past elements of larger keys keeps the order within every key. */
  lemma PlacedStable<T>(o: seq<T>, i: nat, j: nat, key: T -> int)
    requires j <= i < |o|
    requires forall p :: j <= p < i ==> key(o[p]) > key(o[i])
    ensures SameKeyOrder(Placed(o, i, j), o, key)
  {
    var x, m := o[i], o[j..i];
    var s := Placed(o, i, j);
    assert o == o[..j] + (m + [x]) + o[i + 1..];
    assert s == o[..j] + ([x] + m) + o[i + 1..];
    assert KeysDiffer(m, x, key) by {
      forall y | y in m ensures key(y) != key(x) {
        var p :| 0 <= p < |m| && m[p] == y;
        assert y == o[j + p];
      }
    }
    forall k ensures WithKey(s, key, k) == WithKey(o, key, k) {
      MovePastOthers(m, x, key, k);
      WithKeyAppend(o[..j] + ([x] + m), o[i + 1..], key, k);
      WithKeyAppend(o[..j], [x] + m, key, k);
      WithKeyAppend(o[..j] + (m + [x]), o[i + 1..], key, k);
      WithKeyAppend(o[..j], m + [x], key, k);
    }
  }

  /** The insertion's end state: sorted up to `i`, a permutation of the start,
      and in the start's order within every key. */
  lemma PlacedResult<T>(o: seq<T>, i: nat, j: nat, key: T -> int)
    requires j <= i < |o|
    requires SortedPrefix(o, i, key)
    requires forall p :: j <= p < i ==> key(o[p]) > key(o[i])
    requires j == 0 || key(o[j - 1]) <= key(o[i])
    ensures SortedPrefix(Placed(o, i, j), i + 1, key)
    ensures multiset(Placed(o, i, j)) == multiset(o)
    ensures SameKeyOrder(Placed(o, i, j), o, key)
  {
    PlacedSorted(o, i, j, key);
    PlacedPermutes(o, i, j);
    PlacedStable(o, i, j, key);
  }

  /** Exchanges two elements. */
  method Swap<T>(a: array<T>, i: int, j: int)
    requires 0 <= i < j < a.Length
    modifies a
    ensures a[..] == old(a[..])[i := old(a[j])][j := old(a[i])]
  {
    a[i], a[j] := a[j], a[i];
  }

  /** One step of the insertion: the moved element changes place with its left
      neighbour. */
  method StepLeft<T>(a: array<T>, ghost o: seq<T>, i: nat, j: nat)
    requires 0 < j <= i < |o| == a.Length
    requires a[..] == Placed(o, i, j)
    modifies a
    ensures a[..] == Placed(o, i, j - 1)
  {
    PlacedStep(o, i, j);
    Swap(a, j - 1, j);
  }

  /** Moves `a[i]` left into the sorted prefix `a[..i]`, past every element of a
      larger key. */
  method InsertAt<T>(a: array<T>, i: nat, key: T -> int)
    requires i < a.Length
    requires SortedPrefix(a[..], i, key)
    modifies a
    ensures SortedPrefix(a[..], i + 1, key)
    ensures multiset(a[..]) == multiset(old(a[..]))
    ensures SameKeyOrder(a[..], old(a[..]), key)
  {
    ghost var o := a[..];
    var j := i;
    assert a[..] == Placed(o, i, j);
    while j > 0 && key(a[j - 1]) > key(a[j])
      invariant 0 <= j <= i
      invariant a[..] == Placed(o, i, j)
      invariant forall p :: j <= p < i ==> key(o[p]) > key(o[i])
    {
      assert a[j - 1] == o[j - 1] && a[j] == o[i];
      StepLeft(a, o, i, j);
      j := j - 1;
    }
    assert j == 0 || (a[j - 1] == o[j - 1] && a[j] == o[i]);
    PlacedResult(o, i, j, key);
  }

  /** Insertion sort: a permutation of the old contents that is sorted by `key`
      and keeps elements of equal key in their old order. */
  method SortInPlace<T>(a: array<T>, key: T -> int)
    modifies a
    ensures SortedBy(a[..], key)
    ensures multiset(a[..]) == multiset(old(a[..]))
    ensures SameKeyOrder(a[..], old(a[..]), key)
  {
    var i := 0;
    while i < a.Length
      invariant 0 <= i <= a.Length
      invariant SortedPrefix(a[..], i, key)
      invariant multiset(a[..]) == multiset(old(a[..]))
      invariant SameKeyOrder(a[..], old(a[..]), key)
    {
      InsertAt(a, i, key);
      i := i + 1;
    }
  }

  /** Sorts a copy of `s`: the result is a permutation of `s` in non-decreasing
      order of `key`, with elements of equal key in their order in `s`. */
  method SortBy<T>(s: seq<T>, key: T -> int) returns (r: seq<T>)
    ensures |r| == |s|
    ensures SortedBy(r, key)
    ensures multiset(r) == multiset(s)
    ensures SameKeyOrder(r, s, key)
  {
    var a := new T[|s|](i requires 0 <= i < |s| => s[i]);
    assert a[..] == s;
    SortInPlace(a, key);
    r := a[..];
    assert |r| == |multiset(r)| == |multiset(s)| == |s|;
  }
}
