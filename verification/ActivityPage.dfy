/**
 The activity page: two queries each return their first `offset + limit + 1` rows, the rows are sorted
 together and sliced. The page is the one the complete union would have given.
 */
module ActivityPage {
  import opened TextOrder
  import opened Sorting

  /** One row of either query; everything besides the sort key is `rest`. */
  datatype ActivityRow = ActivityRow(attention: nat, updatedAt: nat, kind: string, id: string, rest: nat)

  /** Rows that need attention first, then the newest, then by kind and id. */
  predicate Ahead(a: ActivityRow, b: ActivityRow) {
    || a.attention > b.attention
    || (a.attention == b.attention
        && (a.updatedAt > b.updatedAt
            || (a.updatedAt == b.updatedAt && (Before(a.kind, b.kind) || (a.kind == b.kind && AtMost(a.id, b.id))))))
  }

  const ORDER: Order<ActivityRow> := (a, b) => Ahead(a, b)

  /** Kind and id name one row, within a query and across the two. */
  predicate Identified(rows: seq<ActivityRow>) {
    forall i, j :: 0 <= i < |rows| && 0 <= j < |rows| && rows[i].kind == rows[j].kind && rows[i].id == rows[j].id ==> rows[i] == rows[j]
  }

  lemma AheadIsTotal(a: ActivityRow, b: ActivityRow)
    ensures Ahead(a, b) || Ahead(b, a)
    ensures Ahead(a, b) && Ahead(b, a) ==> a.kind == b.kind && a.id == b.id
  {
    Total(a.kind, b.kind);
    Total(a.id, b.id);
    Asymmetric(a.kind, b.kind);
    Asymmetric(a.id, b.id);
    Irreflexive(a.kind);
  }

  lemma AheadIsTransitive(a: ActivityRow, b: ActivityRow, c: ActivityRow)
    requires Ahead(a, b) && Ahead(b, c)
    ensures Ahead(a, c)
  {
    if Before(a.kind, b.kind) && Before(b.kind, c.kind) { Transitive(a.kind, b.kind, c.kind); }
    if Before(a.id, b.id) && Before(b.id, c.id) { Transitive(a.id, b.id, c.id); }
  }

  lemma OrderIsTotal()
    ensures IsTotalOrder(ORDER)
  {
    forall a, b ensures ORDER(a, b) || ORDER(b, a) { AheadIsTotal(a, b); }
    forall a, b, c | ORDER(a, b) && ORDER(b, c) ensures ORDER(a, c) { AheadIsTransitive(a, b, c); }
  }

  lemma IdentifiedHasNoTies(rows: seq<ActivityRow>)
    requires Identified(rows)
    ensures NoTies(ORDER, rows)
  {
    forall i, j | 0 <= i < |rows| && 0 <= j < |rows| && ORDER(rows[i], rows[j]) && ORDER(rows[j], rows[i])
      ensures rows[i] == rows[j]
    {
      AheadIsTotal(rows[i], rows[j]);
    }
  }

  /** `ORDER BY ... LIMIT n`. */
  function Query(rows: seq<ActivityRow>, n: nat): seq<ActivityRow> {
    Take(Sort(ORDER, rows), n)
  }

  function Slice(rows: seq<ActivityRow>, offset: nat, limit: nat): seq<ActivityRow> {
    if offset >= |rows| then [] else Take(rows[offset..], limit)
  }

  /** More attention first; of equal attention the newer; then by kind, then by id. */
  predicate IsInOrder(rows: seq<ActivityRow>) {
    forall i, j :: 0 <= i < j < |rows| ==>
      && rows[i].attention >= rows[j].attention
      && (rows[i].attention == rows[j].attention ==>
            && rows[i].updatedAt >= rows[j].updatedAt
            && (rows[i].updatedAt == rows[j].updatedAt ==>
                  && !Before(rows[j].kind, rows[i].kind)
                  && (rows[i].kind == rows[j].kind ==> !Before(rows[j].id, rows[i].id))))
  }

  /** The rows from `offset` on, at most `limit` of them. */
  predicate IsPageOf(page: seq<ActivityRow>, rows: seq<ActivityRow>, offset: nat, limit: nat) {
    && |page| == (if |rows| <= offset then 0 else if |rows| - offset < limit then |rows| - offset else limit)
    && forall i :: 0 <= i < |page| && offset + i < |rows| ==> page[i] == rows[offset + i]
  }

  /** All rows, in order. */
  predicate Lists(sorted: seq<ActivityRow>, rows: seq<ActivityRow>) {
    multiset(sorted) == multiset(rows) && IsInOrder(sorted)
  }

  lemma SortLists(rows: seq<ActivityRow>)
    ensures Lists(Sort(ORDER, rows), rows)
  {
    hide Before;
    var sorted := Sort(ORDER, rows);
    SortHolds(ORDER, rows);
    OrderIsTotal();
    SortSorts(ORDER, rows);
    forall i, j | 0 <= i < j < |sorted|
      ensures !(Before(sorted[i].kind, sorted[j].kind) && Before(sorted[j].kind, sorted[i].kind))
      ensures !(Before(sorted[i].id, sorted[j].id) && Before(sorted[j].id, sorted[i].id))
    {
      Asymmetric(sorted[i].kind, sorted[j].kind);
      Asymmetric(sorted[i].id, sorted[j].id);
    }
    forall row: ActivityRow ensures !Before(row.kind, row.kind) && !Before(row.id, row.id) {
      Irreflexive(row.kind);
      Irreflexive(row.id);
    }
  }

  lemma SliceIsPage(rows: seq<ActivityRow>, offset: nat, limit: nat)
    ensures exists all :: Lists(all, rows) && IsPageOf(Slice(Sort(ORDER, rows), offset, limit), all, offset, limit)
  {
    hide Lists, Sort;
    SortLists(rows);
    assert IsPageOf(Slice(Sort(ORDER, rows), offset, limit), Sort(ORDER, rows), offset, limit);
  }

  /**
   The handler on what its two queries return. Whatever rows the two sources hold, the page and
   `hasMore` are those of the sorted union.
   */
  method Activity(lifecycle: seq<ActivityRow>, cleanup: seq<ActivityRow>, offset: nat, limit: nat)
    returns (page: seq<ActivityRow>, hasMore: bool)
    requires Identified(lifecycle + cleanup)
    ensures page == Slice(Sort(ORDER, lifecycle + cleanup), offset, limit)
    ensures exists all :: Lists(all, lifecycle + cleanup) && IsPageOf(page, all, offset, limit)
    ensures hasMore <==> |lifecycle| + |cleanup| > offset + limit
  {
    hide Sort, Lists, IsPageOf, Slice, Query, Identified;
    var candidateLimit := offset + limit + 1;
    var items := Query(lifecycle, candidateLimit);
    items := items + Query(cleanup, candidateLimit);
    items := Sort(ORDER, items);
    hasMore := |items| > offset + limit;
    page := Slice(items, offset, limit);
    PageOfCandidates(lifecycle, cleanup, offset, limit);
    SliceIsPage(lifecycle + cleanup, offset, limit);
  }

  lemma TakeHolds(s: seq<ActivityRow>, n: nat)
    ensures multiset(Take(s, n)) <= multiset(s)
  {
    if n < |s| { assert s == s[..n] + s[n..]; }
  }

  /** The sorted candidates agree with the sorted union as far as the page can see. */
  lemma PageOfCandidates(a: seq<ActivityRow>, b: seq<ActivityRow>, offset: nat, limit: nat)
    requires Identified(a + b)
    ensures var n := offset + limit;
            var items := Sort(ORDER, Query(a, n + 1) + Query(b, n + 1));
            && Slice(items, offset, limit) == Slice(Sort(ORDER, a + b), offset, limit)
            && (|items| > n <==> |a| + |b| > n)
  {
    hide Identified, IsTotalOrder, NoTies, Sort, Merge, IsSorted;
    var n := offset + limit;
    var p, q := Sort(ORDER, a), Sort(ORDER, b);
    var x, y := Query(a, n + 1), Query(b, n + 1);
    OrderIsTotal();
    IdentifiedHasNoTies(a + b);
    SortHolds(ORDER, a);
    SortHolds(ORDER, b);
    SortHolds(ORDER, x + y);
    TakeHolds(p, n + 1);
    TakeHolds(q, n + 1);
    assert multiset(x + y) == multiset(x) + multiset(y) <= multiset(a) + multiset(b) == multiset(a + b);
    NoTiesCarry(ORDER, a + b, x + y);
    NoTiesCarry(ORDER, a + b, x);
    NoTiesCarry(ORDER, a + b, y);
    SortOfBoth(ORDER, a, b);
    SortOfBoth(ORDER, x, y);
    TakeIsSorted(a, n + 1);
    TakeIsSorted(b, n + 1);
    SortOfSorted(ORDER, x);
    SortOfSorted(ORDER, y);
    MergeOfFronts(ORDER, p, q, n + 1, n + 1, n);
    MergeHolds(ORDER, x, y);
    MergeHolds(ORDER, p, q);
    SizeOfSort(a);
    SizeOfSort(b);
    SliceOfFront(Merge(ORDER, x, y), Merge(ORDER, p, q), offset, limit);
  }

  lemma SizeOfSort(rows: seq<ActivityRow>)
    ensures |Sort(ORDER, rows)| == |rows|
  {
    SortHolds(ORDER, rows);
    assert |multiset(Sort(ORDER, rows))| == |multiset(rows)|;
  }

  lemma TakeIsSorted(rows: seq<ActivityRow>, n: nat)
    ensures IsSorted(ORDER, Query(rows, n))
  {
    OrderIsTotal();
    SortSorts(ORDER, rows);
  }

  /** Lists that agree on their first `offset + limit` rows have the same slice. */
  lemma SliceOfFront(s: seq<ActivityRow>, t: seq<ActivityRow>, offset: nat, limit: nat)
    requires Take(s, offset + limit) == Take(t, offset + limit)
    ensures Slice(s, offset, limit) == Slice(t, offset, limit)
  {
    assert Slice(s, offset, limit) == Slice(Take(s, offset + limit), offset, limit);
    assert Slice(t, offset, limit) == Slice(Take(t, offset + limit), offset, limit);
  }
}
