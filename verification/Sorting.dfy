/** Sorting a slice in place by a comparator, as the library's sort.Slice does.
    Callers rely on nothing but the contract of SortSlice. */
module Sorting {

  /** The comparator is defined and a strict weak order on the elements. */
  ghost predicate WeakOrder<T(!new)>(less: (T, T) --> bool, elems: set<T>)
  {
    && (forall x, y :: x in elems && y in elems ==> less.requires(x, y))
    && (forall x, y :: x in elems && y in elems && less(x, y) ==> !less(y, x))
    && (forall x, y, z :: x in elems && y in elems && z in elems && !less(x, y) && !less(y, z) ==> !less(x, z))
  }

  ghost predicate Among<T(!new)>(xs: seq<T>, elems: set<T>)
  {
    forall k :: 0 <= k < |xs| ==> xs[k] in elems
  }

  /** No element up to n, other than the one at `skip`, is less than an earlier one. */
  ghost predicate InOrder<T(!new)>(less: (T, T) --> bool, elems: set<T>, xs: seq<T>, n: nat, skip: int)
    requires WeakOrder(less, elems) && Among(xs, elems)
  {
    forall p, q :: 0 <= p < q < n && q < |xs| && q != skip ==> !less(xs[q], xs[p])
  }

  method SortSlice<T(!new)>(a: array<T>, less: (T, T) --> bool, ghost elems: set<T>)
    requires WeakOrder(less, elems) && Among(a[..], elems)
    modifies a
    ensures multiset(a[..]) == old(multiset(a[..])) && Among(a[..], elems)
    ensures InOrder(less, elems, a[..], a.Length, -1)
  {
    for i := 0 to a.Length
      invariant multiset(a[..]) == old(multiset(a[..])) && Among(a[..], elems)
      invariant InOrder(less, elems, a[..], i, -1)
    {
      MoveDown(a, less, elems, i);
    }
  }

  /** Move the element at i down to its place among the earlier ones. */
  method MoveDown<T(!new)>(a: array<T>, less: (T, T) --> bool, ghost elems: set<T>, i: nat)
    requires WeakOrder(less, elems) && Among(a[..], elems) && i < a.Length && InOrder(less, elems, a[..], i, -1)
    modifies a
    ensures multiset(a[..]) == old(multiset(a[..])) && Among(a[..], elems)
    ensures InOrder(less, elems, a[..], i + 1, -1)
  {
    var j := i;
    while j > 0 && less(a[j], a[j - 1])
      invariant 0 <= j <= i
      invariant multiset(a[..]) == old(multiset(a[..])) && Among(a[..], elems)
      invariant InOrder(less, elems, a[..], i + 1, j)
    {
      Swapped(a[..], less, elems, i, j);
      a[j], a[j - 1] := a[j - 1], a[j];
      j := j - 1;
    }
    Placed(a[..], less, elems, i, j);
  }

  lemma Swapped<T(!new)>(xs: seq<T>, less: (T, T) --> bool, elems: set<T>, i: nat, j: nat)
    requires WeakOrder(less, elems) && Among(xs, elems) && 0 < j <= i < |xs|
    requires InOrder(less, elems, xs, i + 1, j) && less(xs[j], xs[j - 1])
    ensures var ys := xs[j := xs[j - 1]][j - 1 := xs[j]];
            multiset(ys) == multiset(xs) && Among(ys, elems) && InOrder(less, elems, ys, i + 1, j - 1)
  {
  }

  lemma Placed<T(!new)>(xs: seq<T>, less: (T, T) --> bool, elems: set<T>, i: nat, j: nat)
    requires WeakOrder(less, elems) && Among(xs, elems) && j <= i < |xs|
    requires InOrder(less, elems, xs, i + 1, j) && (j > 0 ==> !less(xs[j], xs[j - 1]))
    ensures InOrder(less, elems, xs, i + 1, -1)
  {
  }
}
