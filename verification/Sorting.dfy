/** Sorting by a total order, as `ORDER BY` and `sort_by` do: the sorted list exists and is unique. */
module Sorting {
  type Order<!T> = (T, T) -> bool

  ghost predicate IsTotalOrder<T(!new)>(le: Order<T>) {
    && (forall a, b :: le(a, b) || le(b, a))
    && (forall a, b, c :: le(a, b) && le(b, c) ==> le(a, c))
  }

  /** No two different elements of the list are tied. */
  ghost predicate NoTies<T>(le: Order<T>, s: seq<T>) {
    forall i, j :: 0 <= i < |s| && 0 <= j < |s| && le(s[i], s[j]) && le(s[j], s[i]) ==> s[i] == s[j]
  }

  predicate IsSorted<T>(le: Order<T>, s: seq<T>) {
    forall i, j :: 0 <= i < j < |s| ==> le(s[i], s[j])
  }

  function Insert<T>(le: Order<T>, x: T, s: seq<T>): seq<T> {
    if s == [] then [x] else if le(x, s[0]) then [x] + s else [s[0]] + Insert(le, x, s[1..])
  }

  function Sort<T>(le: Order<T>, s: seq<T>): seq<T> {
    if s == [] then [] else Insert(le, s[0], Sort(le, s[1..]))
  }

  function Merge<T>(le: Order<T>, p: seq<T>, q: seq<T>): seq<T> {
    if p == [] then q
    else if q == [] then p
    else if le(p[0], q[0]) then [p[0]] + Merge(le, p[1..], q)
    else [q[0]] + Merge(le, p, q[1..])
  }

  function Take<T>(s: seq<T>, n: nat): seq<T> {
    if n < |s| then s[..n] else s
  }

  lemma {:induction false} InsertHolds<T>(le: Order<T>, x: T, s: seq<T>)
    ensures multiset(Insert(le, x, s)) == multiset(s) + multiset{x}
  {
    if s != [] {
      assert s == [s[0]] + s[1..];
      InsertHolds(le, x, s[1..]);
    }
  }

  lemma {:induction false} SortHolds<T>(le: Order<T>, s: seq<T>)
    ensures multiset(Sort(le, s)) == multiset(s)
  {
    if s != [] {
      assert s == [s[0]] + s[1..];
      SortHolds(le, s[1..]);
      InsertHolds(le, s[0], Sort(le, s[1..]));
    }
  }

  /** A lower bound stays one when an element above it is inserted. */
  lemma {:induction false} InsertAbove<T>(le: Order<T>, low: T, x: T, s: seq<T>)
    requires le(low, x) && forall i :: 0 <= i < |s| ==> le(low, s[i])
    ensures forall i :: 0 <= i < |Insert(le, x, s)| ==> le(low, Insert(le, x, s)[i])
  {
    if s != [] && !le(x, s[0]) { InsertAbove(le, low, x, s[1..]); }
  }

  lemma {:induction false} InsertSorts<T(!new)>(le: Order<T>, x: T, s: seq<T>)
    requires IsTotalOrder(le) && IsSorted(le, s)
    ensures IsSorted(le, Insert(le, x, s))
  {
    if s != [] && !le(x, s[0]) {
      InsertSorts(le, x, s[1..]);
      InsertAbove(le, s[0], x, s[1..]);
    }
  }

  lemma {:induction false} SortSorts<T(!new)>(le: Order<T>, s: seq<T>)
    requires IsTotalOrder(le)
    ensures IsSorted(le, Sort(le, s))
  {
    if s != [] {
      SortSorts(le, s[1..]);
      InsertSorts(le, s[0], Sort(le, s[1..]));
    }
  }

  lemma {:induction false} MergeHolds<T>(le: Order<T>, p: seq<T>, q: seq<T>)
    ensures multiset(Merge(le, p, q)) == multiset(p) + multiset(q) && |Merge(le, p, q)| == |p| + |q|
    decreases |p| + |q|
  {
    if p != [] && q != [] {
      assert p == [p[0]] + p[1..] && q == [q[0]] + q[1..];
      if le(p[0], q[0]) { MergeHolds(le, p[1..], q); } else { MergeHolds(le, p, q[1..]); }
    }
  }

  lemma {:induction false} MergeAbove<T>(le: Order<T>, low: T, p: seq<T>, q: seq<T>)
    requires (forall i :: 0 <= i < |p| ==> le(low, p[i])) && (forall i :: 0 <= i < |q| ==> le(low, q[i]))
    ensures forall i :: 0 <= i < |Merge(le, p, q)| ==> le(low, Merge(le, p, q)[i])
    decreases |p| + |q|
  {
    if p != [] && q != [] {
      if le(p[0], q[0]) { MergeAbove(le, low, p[1..], q); } else { MergeAbove(le, low, p, q[1..]); }
    }
  }

  lemma {:induction false} MergeSorts<T(!new)>(le: Order<T>, p: seq<T>, q: seq<T>)
    requires IsTotalOrder(le) && IsSorted(le, p) && IsSorted(le, q)
    ensures IsSorted(le, Merge(le, p, q))
    decreases |p| + |q|
  {
    if p != [] && q != [] {
      if le(p[0], q[0]) {
        MergeSorts(le, p[1..], q);
        MergeAbove(le, p[0], p[1..], q);
      } else {
        MergeSorts(le, p, q[1..]);
        MergeAbove(le, q[0], p, q[1..]);
      }
    }
  }

  lemma TailMultiset<T>(s: seq<T>)
    requires s != []
    ensures multiset(s[1..]) == multiset(s) - multiset{s[0]} && s == [s[0]] + s[1..]
  {
    assert s == [s[0]] + s[1..];
  }

  lemma FirstIsLeast<T(!new)>(le: Order<T>, s: seq<T>, x: T)
    requires IsTotalOrder(le) && IsSorted(le, s) && x in multiset(s)
    ensures s != [] && le(s[0], x) && exists i :: 0 <= i < |s| && s[i] == x
  {
    var i :| 0 <= i < |s| && s[i] == x;
    assert le(x, x);
  }

  /** Without ties any two sorted lists of the same elements are equal, whatever sort made them. */
  lemma {:induction false} SortedIsUnique<T(!new)>(le: Order<T>, a: seq<T>, b: seq<T>)
    requires IsTotalOrder(le) && NoTies(le, a) && IsSorted(le, a) && IsSorted(le, b) && multiset(a) == multiset(b)
    ensures a == b
    decreases |a|
  {
    hide IsTotalOrder;
    assert |a| == |multiset(a)| == |multiset(b)| == |b|;
    if a != [] {
      assert a[0] in multiset(b) && b[0] in multiset(a);
      FirstIsLeast(le, a, b[0]);
      FirstIsLeast(le, b, a[0]);
      var i :| 0 <= i < |a| && a[i] == b[0];
      TailMultiset(a);
      TailMultiset(b);
      SortedIsUnique(le, a[1..], b[1..]);
    }
  }

  lemma NoTiesCarry<T>(le: Order<T>, a: seq<T>, b: seq<T>)
    requires NoTies(le, a) && multiset(b) <= multiset(a)
    ensures NoTies(le, b)
  {
    forall i, j | 0 <= i < |b| && 0 <= j < |b| && le(b[i], b[j]) && le(b[j], b[i]) ensures b[i] == b[j] {
      assert b[i] in multiset(b) && b[j] in multiset(b);
      assert b[i] in multiset(a) && b[j] in multiset(a);
      var k, l :| 0 <= k < |a| && a[k] == b[i] && 0 <= l < |a| && a[l] == b[j];
    }
  }

  /** Sorting two lists together merges their sorted forms. */
  lemma SortOfBoth<T(!new)>(le: Order<T>, a: seq<T>, b: seq<T>)
    requires IsTotalOrder(le) && NoTies(le, a + b)
    ensures Sort(le, a + b) == Merge(le, Sort(le, a), Sort(le, b))
  {
    hide IsTotalOrder, NoTies, IsSorted;
    var p, q := Sort(le, a), Sort(le, b);
    SortHolds(le, a);
    SortHolds(le, b);
    SortHolds(le, a + b);
    SortSorts(le, a);
    SortSorts(le, b);
    SortSorts(le, a + b);
    MergeHolds(le, p, q);
    MergeSorts(le, p, q);
    NoTiesCarry(le, a + b, Sort(le, a + b));
    SortedIsUnique(le, Sort(le, a + b), Merge(le, p, q));
  }

  /** A sorted list is its own sort. */
  lemma SortOfSorted<T(!new)>(le: Order<T>, a: seq<T>)
    requires IsTotalOrder(le) && NoTies(le, a) && IsSorted(le, a)
    ensures Sort(le, a) == a
  {
    SortHolds(le, a);
    SortSorts(le, a);
    SortedIsUnique(le, a, Sort(le, a));
  }

  /** The front of a merge needs only the fronts of its parts. */
  lemma {:induction false} MergeOfFronts<T>(le: Order<T>, p: seq<T>, q: seq<T>, j: nat, k: nat, n: nat)
    requires n <= j && n <= k
    ensures Take(Merge(le, Take(p, j), Take(q, k)), n) == Take(Merge(le, p, q), n)
    decreases n
  {
    if n > 0 {
      if p != [] && q != [] {
        TailOfTake(p, j);
        TailOfTake(q, k);
        hide Take;
        if le(p[0], q[0]) {
          MergeOfFronts(le, p[1..], q, j - 1, k, n - 1);
          TakeOfCons(p[0], Merge(le, Take(p[1..], j - 1), Take(q, k)), n);
          TakeOfCons(p[0], Merge(le, p[1..], q), n);
        } else {
          MergeOfFronts(le, p, q[1..], j, k - 1, n - 1);
          TakeOfCons(q[0], Merge(le, Take(p, j), Take(q[1..], k - 1)), n);
          TakeOfCons(q[0], Merge(le, p, q[1..]), n);
        }
      }
    }
  }

  lemma TailOfTake<T>(s: seq<T>, n: nat)
    requires s != [] && n > 0
    ensures Take(s, n) != [] && Take(s, n)[0] == s[0] && Take(s, n)[1..] == Take(s[1..], n - 1)
  {
    if n < |s| { assert s[..n][1..] == s[1..][..n - 1]; }
  }

  lemma TakeOfCons<T>(x: T, s: seq<T>, n: nat)
    requires n > 0
    ensures Take([x] + s, n) == [x] + Take(s, n - 1)
  {
  }
}
