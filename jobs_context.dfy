/** The jobs controller: a pure reducer over the jobs page state, a single
    owner that applies dispatched actions to it, and the four store-backed
    actions (fetch a page, create, change status, reorder with rollback). */
module JobsContext {
  import opened Common
  import opened Records
  import opened DexieDB

  const PageSize: nat := 10

  datatype Filters = Filters(search: string, status: string)

  /** Pagination metadata. Every field may be missing: the reorder action
      dispatches `meta: {}`, and `SET_FILTERS` on that keeps only `page`. */
  datatype Meta = Meta(total: Option<int>, page: Option<int>, pageSize: Option<int>)

  const EmptyMeta: Meta := Meta(None, None, None)

  datatype JobsState = JobsState(list: seq<Job>, meta: Meta, loading: bool, filters: Filters)

  const InitialState: JobsState :=
    JobsState([], Meta(Some(0), Some(1), Some(PageSize)), false, Filters("", ""))

  /** The action kinds; `SetPage` carries `None` for an undefined or NaN page. */
  datatype Action =
    | SetLoading(loading: bool)
    | SetJobsAndMeta(jobs: seq<Job>, meta: Meta)
    | UpdateJob(job: Job)
    | SetFilters(filters: Filters)
    | SetPage(page: Option<int>)
    | UnknownAction(kind: string)

  /** `list.map(job => job.id === updated.id ? updated : job)`. */
  function ReplaceById(list: seq<Job>, updated: Job): seq<Job> {
    if list == [] then []
    else [if list[0].id == updated.id then updated else list[0]] + ReplaceById(list[1..], updated)
  }

  function Reduce(s: JobsState, a: Action): JobsState {
    match a
    case SetLoading(b) => s.(loading := b)
    case SetJobsAndMeta(jobs, meta) => s.(list := jobs, meta := meta)
    case UpdateJob(job) => s.(list := ReplaceById(s.list, job))
    case SetFilters(f) => s.(filters := f, meta := s.meta.(page := Some(1)))
    case SetPage(p) => s.(meta := s.meta.(page := p))
    case UnknownAction(_) => s
  }

  /** The state reached from the initial state by the actions in order. */
  function Replay(actions: seq<Action>): JobsState
    decreases |actions|
  {
    if actions == [] then InitialState
    else Reduce(Replay(actions[..|actions| - 1]), actions[|actions| - 1])
  }

  // -----------------------------------------------------------------------
  // Reducer properties

  lemma SetFiltersResetsPage(s: JobsState, f: Filters)
    ensures Reduce(s, SetFilters(f)) == s.(filters := f, meta := Meta(s.meta.total, Some(1), s.meta.pageSize))
  {
  }

  lemma SetPageChangesOnlyPage(s: JobsState, p: Option<int>)
    ensures Reduce(s, SetPage(p)).meta.page == p
    ensures Reduce(s, SetPage(p)).(meta := s.meta) == s
    ensures Reduce(s, SetPage(p)).meta.(page := s.meta.page) == s.meta
  {
  }

  lemma SetLoadingChangesOnlyLoading(s: JobsState, b: bool)
    ensures Reduce(s, SetLoading(b)).loading == b
    ensures Reduce(s, SetLoading(b)).(loading := s.loading) == s
  {
  }

  lemma UnknownActionKeepsState(s: JobsState, kind: string)
    ensures Reduce(s, UnknownAction(kind)) == s
  {
  }

  /** `UPDATE_JOB` replaces exactly the entries with the updated job's id. */
  lemma {:induction false} ReplaceByIdAt(list: seq<Job>, updated: Job)
    ensures |ReplaceById(list, updated)| == |list|
    ensures forall i :: 0 <= i < |list| && list[i].id == updated.id ==> ReplaceById(list, updated)[i] == updated
    ensures forall i :: 0 <= i < |list| && list[i].id != updated.id ==> ReplaceById(list, updated)[i] == list[i]
  {
    if list != [] {
      ReplaceByIdAt(list[1..], updated);
      var r := ReplaceById(list, updated);
      forall i | 1 <= i < |list|
        ensures r[i] == ReplaceById(list[1..], updated)[i - 1] && list[i] == list[1..][i - 1]
      {
      }
    }
  }

  lemma UpdateJobState(s: JobsState, job: Job)
    ensures Reduce(s, UpdateJob(job)).(list := s.list) == s
    ensures |Reduce(s, UpdateJob(job)).list| == |s.list|
    ensures forall i :: 0 <= i < |s.list| ==>
      Reduce(s, UpdateJob(job)).list[i] == (if s.list[i].id == job.id then job else s.list[i])
  {
    ReplaceByIdAt(s.list, job);
  }

  // -----------------------------------------------------------------------
  // `db.jobs.orderBy("order")`: a stable sort of the primary-key scan

  function OrderKey(j: Job): int {
    j.order
  }

  ghost predicate SortedByOrder(s: seq<Job>) {
    forall i, j :: 0 <= i < j < |s| ==> s[i].order <= s[j].order
  }

  function SortByOrder(s: seq<Job>): seq<Job> {
    SortByKey(s, OrderKey)
  }

  /** The read-back is ascending in `order` and a permutation of the scan;
      a list already in ascending `order` reads back unchanged. */
  lemma SortByOrderProperties(s: seq<Job>)
    ensures SortedByOrder(SortByOrder(s))
    ensures multiset(SortByOrder(s)) == multiset(s)
    ensures |SortByOrder(s)| == |s|
    ensures SortedByOrder(s) ==> SortByOrder(s) == s
  {
    SortByKeyProperties(s, OrderKey);
    var r := SortByOrder(s);
    assert SortedByKey(r, OrderKey);
    forall i, j | 0 <= i < j < |r|
      ensures r[i].order <= r[j].order
    {
      assert OrderKey(r[i]) <= OrderKey(r[j]);
    }
    if SortedByOrder(s) {
      forall i, j | 0 <= i < j < |s|
        ensures OrderKey(s[i]) <= OrderKey(s[j])
      {
      }
      SortedUnchanged(s, OrderKey);
    }
  }

  // -----------------------------------------------------------------------
  // Filters and paging

  /** The status filter applies when a status is set, the search filter when
      a search is set: a case-insensitive substring match on the title. */
  predicate Matches(j: Job, f: Filters) {
    (f.status == "" || j.status == f.status) &&
    (f.search == "" || Contains(Lower(j.title), Lower(f.search)))
  }

  function FilterJobs(s: seq<Job>, f: Filters): seq<Job> {
    if s == [] then [] else (if Matches(s[0], f) then [s[0]] else []) + FilterJobs(s[1..], f)
  }

  lemma {:induction false} FilterJobsMembers(s: seq<Job>, f: Filters, x: Job)
    ensures x in FilterJobs(s, f) <==> x in s && Matches(x, f)
  {
    if s != [] {
      FilterJobsMembers(s[1..], f, x);
      assert s == [s[0]] + s[1..];
    }
  }

  lemma {:induction false} FilterJobsKeepsOrder(s: seq<Job>, f: Filters)
    requires SortedByOrder(s)
    ensures SortedByOrder(FilterJobs(s, f))
    ensures |FilterJobs(s, f)| <= |s|
  {
    if s != [] {
      var tail := s[1..];
      assert SortedByOrder(tail) by {
        forall i, j | 0 <= i < j < |tail|
          ensures tail[i].order <= tail[j].order
        {
          assert tail[i] == s[i + 1] && tail[j] == s[j + 1];
        }
      }
      FilterJobsKeepsOrder(tail, f);
      var r := FilterJobs(tail, f);
      if Matches(s[0], f) {
        forall k | 0 <= k < |r|
          ensures s[0].order <= r[k].order
        {
          FilterJobsMembers(tail, f, r[k]);
          var m :| 0 <= m < |tail| && tail[m] == r[k];
          assert s[m + 1] == tail[m];
        }
        var res := [s[0]] + r;
        forall i, j | 0 <= i < j < |res|
          ensures res[i].order <= res[j].order
        {
          if i > 0 {
            assert res[i] == r[i - 1] && res[j] == r[j - 1];
          }
        }
      }
    }
  }

  function Offset(page: int): int {
    (page - 1) * PageSize
  }

  /** `.offset((page - 1) * 10).limit(10)`. */
  function PageSlice(s: seq<Job>, page: int): seq<Job>
    requires page >= 1
  {
    var offset := Offset(page);
    if offset >= |s| then []
    else if offset + PageSize <= |s| then s[offset..offset + PageSize]
    else s[offset..]
  }

  lemma PageSliceProperties(s: seq<Job>, page: int)
    requires page >= 1
    ensures |PageSlice(s, page)| <= PageSize
    ensures |PageSlice(s, page)| == if Offset(page) >= |s| then 0
                                     else if |s| - Offset(page) < PageSize then |s| - Offset(page)
                                     else PageSize
    ensures forall i :: 0 <= i < |PageSlice(s, page)| ==> PageSlice(s, page)[i] == s[Offset(page) + i]
  {
  }

  /** The filtered jobs in ascending `order`, before paging. */
  function Ordered(t: Tables, f: Filters): seq<Job> {
    FilterJobs(SortByOrder(t.JobRows()), f)
  }

  function ListPage(t: Tables, f: Filters, page: int): seq<Job>
    requires page >= 1
  {
    PageSlice(Ordered(t, f), page)
  }

  function PageMeta(t: Tables, f: Filters, page: int): Meta {
    Meta(Some(|Ordered(t, f)|), Some(page), Some(PageSize))
  }

  /** A stored job is listed (before paging) exactly when it passes the
      filters, and the listing is in ascending `order`. */
  lemma OrderedIsFilteredStore(t: Tables, f: Filters, x: Job)
    ensures x in Ordered(t, f) <==> (exists k :: k in t.jobs && 1 <= k < t.nextJobId && t.jobs[k] == x) && Matches(x, f)
    ensures SortedByOrder(Ordered(t, f))
  {
    var rows := t.JobRows();
    SortByOrderProperties(rows);
    FilterJobsMembers(SortByOrder(rows), f, x);
    FilterJobsKeepsOrder(SortByOrder(rows), f);
    assert x in SortByOrder(rows) <==> x in rows by {
      assert x in multiset(SortByOrder(rows)) <==> x in multiset(rows);
    }
    if x in rows {
      RowsSource(t.jobs, 1, t.nextJobId, x);
    }
    if exists k :: k in t.jobs && 1 <= k < t.nextJobId && t.jobs[k] == x {
      var k :| k in t.jobs && 1 <= k < t.nextJobId && t.jobs[k] == x;
      RowsMember(t.jobs, 1, t.nextJobId, k);
    }
  }

  /** What one fetched page holds: at most ten jobs, each a stored job that
      passes the filters, in ascending `order`, taken from offset
      `(page - 1) * 10` of the filtered listing. */
  lemma ListPageProperties(t: Tables, f: Filters, page: int)
    requires page >= 1
    ensures |ListPage(t, f, page)| <= PageSize
    ensures forall i :: 0 <= i < |ListPage(t, f, page)| ==>
      ListPage(t, f, page)[i] == Ordered(t, f)[Offset(page) + i]
    ensures forall x :: x in ListPage(t, f, page) ==>
      Matches(x, f) && exists k :: k in t.jobs && t.jobs[k] == x
    ensures SortedByOrder(ListPage(t, f, page))
  {
    var o := Ordered(t, f);
    PageSliceProperties(o, page);
    OrderedIsFilteredStore(t, f, Job(0, "", "", "", 0, [], None));
    forall x | x in ListPage(t, f, page)
      ensures Matches(x, f) && exists k :: k in t.jobs && t.jobs[k] == x
    {
      var i :| 0 <= i < |ListPage(t, f, page)| && ListPage(t, f, page)[i] == x;
      assert o[Offset(page) + i] == x;
      OrderedIsFilteredStore(t, f, x);
    }
    var p := ListPage(t, f, page);
    forall i, j | 0 <= i < j < |p|
      ensures p[i].order <= p[j].order
    {
      assert p[i] == o[Offset(page) + i] && p[j] == o[Offset(page) + j];
    }
  }

  // -----------------------------------------------------------------------
  // Reorder: a single-element move, then `order = i` for every position

  function Move<T>(s: seq<T>, from: nat, to: nat): seq<T>
    requires from < |s| && to < |s|
  {
    var rest := s[..from] + s[from + 1..];
    rest[..to] + [s[from]] + rest[to..]
  }

  /** The element at `from` ends up at `to`, the result is a permutation of
      the input, the other elements keep their relative order, and a move to
      the same index changes nothing. */
  lemma MoveProperties<T>(s: seq<T>, from: nat, to: nat)
    requires from < |s| && to < |s|
    ensures |Move(s, from, to)| == |s|
    ensures Move(s, from, to)[to] == s[from]
    ensures multiset(Move(s, from, to)) == multiset(s)
    ensures Move(s, from, to)[..to] + Move(s, from, to)[to + 1..] == s[..from] + s[from + 1..]
    ensures from == to ==> Move(s, from, to) == s
  {
    var rest := s[..from] + s[from + 1..];
    var r := Move(s, from, to);
    assert s == s[..from] + [s[from]] + s[from + 1..];
    assert rest == rest[..to] + rest[to..];
    assert r[..to] == rest[..to];
    assert r[to + 1..] == rest[to..];
    calc {
      multiset(r);
    ==
      multiset(rest[..to]) + multiset{s[from]} + multiset(rest[to..]);
    ==
      multiset(rest) + multiset{s[from]};
    ==
      multiset(s[..from]) + multiset(s[from + 1..]) + multiset{s[from]};
    ==
      multiset(s);
    }
  }

  predicate AllOk(oks: seq<bool>) {
    forall i :: 0 <= i < |oks| ==> oks[i]
  }

  predicate DistinctIds(list: seq<Job>) {
    forall i, j :: 0 <= i < j < |list| ==> list[i].id != list[j].id
  }

  /** The store after the first `n` writes `order = i` of the transaction. */
  function ApplyOrders(t: Tables, list: seq<Job>, n: nat): Tables
    requires n <= |list|
    decreases n
  {
    if n == 0 then t else ApplyOrders(t, list, n - 1).WithJobChange(list[n - 1].id, SetOrder(n - 1))
  }

  lemma {:induction false} ApplyOrdersProperties(t: Tables, list: seq<Job>, n: nat)
    requires n <= |list| && t.Valid() && DistinctIds(list)
    ensures ApplyOrders(t, list, n).Valid()
    ensures ApplyOrders(t, list, n).(jobs := t.jobs) == t
    ensures ApplyOrders(t, list, n).jobs.Keys == t.jobs.Keys
    ensures forall i :: 0 <= i < n && list[i].id in t.jobs ==>
      ApplyOrders(t, list, n).jobs[list[i].id] == t.jobs[list[i].id].(order := i)
    ensures forall k :: k in t.jobs && (forall i :: 0 <= i < n ==> list[i].id != k) ==>
      ApplyOrders(t, list, n).jobs[k] == t.jobs[k]
    decreases n
  {
    if n > 0 {
      ApplyOrdersProperties(t, list, n - 1);
      WithJobChangeProperties(ApplyOrders(t, list, n - 1), list[n - 1].id, SetOrder(n - 1));
    }
  }

  /** The list with each job's `order` set to its index. */
  function IndexOrdered(list: seq<Job>): seq<Job> {
    seq(|list|, i requires 0 <= i < |list| => list[i].(order := i))
  }

  /** The store after every write of a committed reorder of `list`. */
  function Committed(t: Tables, list: seq<Job>): Tables {
    ApplyOrders(t, list, |list|)
  }

  const NoFilters: Filters := Filters("", "")

  /** After a committed reorder every moved job is stored with `order` equal
      to its index in the dispatched list, and a later fetch, with any
      filters, lists those of them that pass the filters in the dispatched
      order. */
  lemma ReorderReadsBackInDispatchedOrder(t: Tables, list: seq<Job>, f: Filters)
    requires t.Valid() && DistinctIds(list)
    requires forall i :: 0 <= i < |list| ==> list[i].id in t.jobs && t.jobs[list[i].id] == list[i]
    ensures forall i :: 0 <= i < |list| ==>
      list[i].id in Committed(t, list).jobs && Committed(t, list).jobs[list[i].id] == IndexOrdered(list)[i]
    ensures forall i :: 0 <= i < |list| ==>
      (IndexOrdered(list)[i] in Ordered(Committed(t, list), f) <==> Matches(list[i], f))
    ensures forall i, j, p, q ::
      0 <= i < j < |list| && 0 <= p < |Ordered(Committed(t, list), f)| && 0 <= q < |Ordered(Committed(t, list), f)| &&
      Ordered(Committed(t, list), f)[p] == IndexOrdered(list)[i] && Ordered(Committed(t, list), f)[q] == IndexOrdered(list)[j]
      ==> p < q
  {
    var t2 := Committed(t, list);
    var l := IndexOrdered(list);
    var o := Ordered(t2, f);
    CommittedStoresIndexOrdered(t, list);
    forall i | 0 <= i < |list|
      ensures l[i] in o <==> Matches(list[i], f)
    {
      CommittedListedIffMatches(t, list, f, i);
    }
    OrderedIsFilteredStore(t2, f, Job(0, "", "", "", 0, [], None));
    assert RankedByIndex(l);
    forall i, j, p, q | 0 <= i < j < |list| && 0 <= p < |o| && 0 <= q < |o| && o[p] == l[i] && o[q] == l[j]
      ensures p < q
    {
      RankOrderIsPositionOrder(o, l, i, j, p, q);
    }
  }

  /** In a listing sorted by `order`, entries ranked by their index in `l`
      appear in the order of `l`. */
  lemma RankOrderIsPositionOrder(o: seq<Job>, l: seq<Job>, i: nat, j: nat, p: nat, q: nat)
    requires SortedByOrder(o) && RankedByIndex(l)
    requires i < j < |l| && p < |o| && q < |o| && o[p] == l[i] && o[q] == l[j]
    ensures p < q
  {
    assert o[p].order == i && o[q].order == j;
  }

  lemma CommittedStoresIndexOrdered(t: Tables, list: seq<Job>)
    requires t.Valid() && DistinctIds(list)
    requires forall i :: 0 <= i < |list| ==> list[i].id in t.jobs && t.jobs[list[i].id] == list[i]
    ensures Committed(t, list).Valid() && Committed(t, list).nextJobId == t.nextJobId
    ensures Committed(t, list).jobs.Keys == t.jobs.Keys
    ensures forall i :: 0 <= i < |list| ==>
      list[i].id in Committed(t, list).jobs && Committed(t, list).jobs[list[i].id] == IndexOrdered(list)[i]
  {
    ApplyOrdersProperties(t, list, |list|);
    assert Committed(t, list).nextJobId == Committed(t, list).(jobs := t.jobs).nextJobId;
  }

  lemma CommittedListedIffMatches(t: Tables, list: seq<Job>, f: Filters, i: nat)
    requires t.Valid() && DistinctIds(list) && i < |list|
    requires forall i :: 0 <= i < |list| ==> list[i].id in t.jobs && t.jobs[list[i].id] == list[i]
    ensures IndexOrdered(list)[i] in Ordered(Committed(t, list), f) <==> Matches(list[i], f)
  {
    var t2 := Committed(t, list);
    var x := IndexOrdered(list)[i];
    CommittedStoresIndexOrdered(t, list);
    OrderedIsFilteredStore(t2, f, x);
    var k := list[i].id;
    assert k in t2.jobs && t2.jobs[k] == x;
    assert 1 <= k < t2.nextJobId;
  }

  /** With no filters set, every job passes. */
  lemma {:induction false} NoFiltersKeepEveryJob(s: seq<Job>)
    ensures FilterJobs(s, NoFilters) == s
  {
    if s != [] {
      NoFiltersKeepEveryJob(s[1..]);
      assert s == [s[0]] + s[1..];
    }
  }

  /** The store's jobs read back by `order` are a repeat-free permutation of
      the table, and no two of them share an id. */
  lemma SortedRowsDistinct(t: Tables)
    requires t.Valid()
    ensures SortedByOrder(SortByOrder(t.JobRows()))
    ensures multiset(SortByOrder(t.JobRows())) == multiset(t.JobRows())
    ensures DistinctIds(SortByOrder(t.JobRows()))
  {
    var rows := t.JobRows();
    var o := SortByOrder(rows);
    SortByOrderProperties(rows);
    RowsDistinct(t.jobs, 1, t.nextJobId);
    NoRepeatsTransfer(o, rows);
    forall p, q | 0 <= p < q < |o|
      ensures o[p].id != o[q].id
    {
      assert o[p] in multiset(rows) && o[q] in multiset(rows);
      RowsSource(t.jobs, 1, t.nextJobId, o[p]);
      RowsSource(t.jobs, 1, t.nextJobId, o[q]);
    }
  }

  /** Every job of `o` ranked below `|l|` is the entry of `l` at its rank. */
  ghost predicate LowRanksListed(o: seq<Job>, l: seq<Job>) {
    forall k :: 0 <= k < |o| && o[k].order < |l| ==> 0 <= o[k].order && o[k] == l[o[k].order]
  }

  ghost predicate RankedByIndex(l: seq<Job>) {
    forall i :: 0 <= i < |l| ==> l[i].order == i
  }

  lemma SortedPrefixStep(o: seq<Job>, l: seq<Job>, i: nat)
    requires i < |l| && RankedByIndex(l) && l[i] in o
    requires SortedByOrder(o) && DistinctIds(o) && LowRanksListed(o, l)
    requires i <= |o| && forall k :: 0 <= k < i ==> o[k] == l[k]
    ensures i < |o| && o[i] == l[i]
  {
    var p :| 0 <= p < |o| && o[p] == l[i];
    forall k | 0 <= k < i
      ensures o[k] != l[i]
    {
      assert o[k].order == k;
    }
    assert i <= p;
    assert o[i].order <= i by {
      if i < p {
        assert o[i].order <= o[p].order;
      }
    }
    assert 0 <= o[i].order && o[i] == l[o[i].order];
    forall k | 0 <= k < i
      ensures l[k] != o[i]
    {
      assert o[k] == l[k];
      assert o[k].id != o[i].id;
    }
  }

  /** A listing sorted by `order`, without repeated ids, that holds each
      `l[i]` (ranked `i`) and no other job ranked below `|l|`, starts with
      `l`. */
  lemma {:induction false} SortedPrefixIs(o: seq<Job>, l: seq<Job>, n: nat)
    requires n <= |l| && RankedByIndex(l) && forall i :: 0 <= i < |l| ==> l[i] in o
    requires SortedByOrder(o) && DistinctIds(o) && LowRanksListed(o, l)
    ensures n <= |o| && forall k :: 0 <= k < n ==> o[k] == l[k]
    decreases n
  {
    if n > 0 {
      SortedPrefixIs(o, l, n - 1);
      SortedPrefixStep(o, l, n - 1);
    }
  }

  /** One stored job after the commit: ranked below `|list|` only if it is
      the moved job of that rank, provided every other job was ranked at or
      after `|list|`. */
  lemma CommittedRowRank(t: Tables, list: seq<Job>, k: Id)
    requires t.Valid() && DistinctIds(list) && k in t.jobs
    requires forall i :: 0 <= i < |list| ==> list[i].id in t.jobs && t.jobs[list[i].id] == list[i]
    requires forall j :: j in t.jobs && (forall i :: 0 <= i < |list| ==> list[i].id != j) ==> t.jobs[j].order >= |list|
    ensures k in Committed(t, list).jobs
    ensures Committed(t, list).jobs[k].order < |list| ==>
      0 <= Committed(t, list).jobs[k].order &&
      Committed(t, list).jobs[k] == IndexOrdered(list)[Committed(t, list).jobs[k].order]
  {
    ApplyOrdersProperties(t, list, |list|);
    if exists i :: 0 <= i < |list| && list[i].id == k {
      var i :| 0 <= i < |list| && list[i].id == k;
      assert Committed(t, list).jobs[k] == IndexOrdered(list)[i];
    }
  }

  /** After the commit the listing holds every moved job, and no other job
      ranked below `|list|`. */
  lemma CommittedLowRanks(t: Tables, list: seq<Job>)
    requires t.Valid() && DistinctIds(list)
    requires forall i :: 0 <= i < |list| ==> list[i].id in t.jobs && t.jobs[list[i].id] == list[i]
    requires forall k :: k in t.jobs && (forall i :: 0 <= i < |list| ==> list[i].id != k) ==> t.jobs[k].order >= |list|
    ensures forall i :: 0 <= i < |list| ==> IndexOrdered(list)[i] in SortByOrder(Committed(t, list).JobRows())
    ensures LowRanksListed(SortByOrder(Committed(t, list).JobRows()), IndexOrdered(list))
  {
    var o := SortByOrder(Committed(t, list).JobRows());
    forall i | 0 <= i < |list|
      ensures IndexOrdered(list)[i] in o
    {
      CommittedMovedListed(t, list, i);
    }
    forall m | 0 <= m < |o| && o[m].order < |list|
      ensures 0 <= o[m].order && o[m] == IndexOrdered(list)[o[m].order]
    {
      CommittedListedLowRank(t, list, o[m]);
    }
  }

  lemma CommittedMovedListed(t: Tables, list: seq<Job>, i: nat)
    requires t.Valid() && DistinctIds(list) && i < |list|
    requires forall i :: 0 <= i < |list| ==> list[i].id in t.jobs && t.jobs[list[i].id] == list[i]
    ensures IndexOrdered(list)[i] in SortByOrder(Committed(t, list).JobRows())
  {
    var t2 := Committed(t, list);
    var rows := t2.JobRows();
    CommittedStoresIndexOrdered(t, list);
    SortByOrderProperties(rows);
    RowsMember(t2.jobs, 1, t2.nextJobId, list[i].id);
    assert IndexOrdered(list)[i] in multiset(rows);
  }

  lemma CommittedListedLowRank(t: Tables, list: seq<Job>, x: Job)
    requires t.Valid() && DistinctIds(list)
    requires forall i :: 0 <= i < |list| ==> list[i].id in t.jobs && t.jobs[list[i].id] == list[i]
    requires forall k :: k in t.jobs && (forall i :: 0 <= i < |list| ==> list[i].id != k) ==> t.jobs[k].order >= |list|
    requires x in SortByOrder(Committed(t, list).JobRows()) && x.order < |list|
    ensures 0 <= x.order && x == IndexOrdered(list)[x.order]
  {
    var t2 := Committed(t, list);
    var rows := t2.JobRows();
    SortByOrderProperties(rows);
    assert x in multiset(rows);
    RowsSource(t2.jobs, 1, t2.nextJobId, x);
    var k :| k in t2.jobs && 1 <= k < t2.nextJobId && t2.jobs[k] == x;
    CommittedStoresIndexOrdered(t, list);
    CommittedRowRank(t, list, k);
  }

  /** When every job left out of the dispatched list was ranked at or after
      its length (as for a reorder of a store ranked 0, 1, 2, ...), an
      unfiltered fetch lists the dispatched jobs first, in the dispatched
      order; a full page of them is exactly page 1. */
  lemma ReorderedListLeadsTheListing(t: Tables, list: seq<Job>)
    requires t.Valid() && DistinctIds(list)
    requires forall i :: 0 <= i < |list| ==> list[i].id in t.jobs && t.jobs[list[i].id] == list[i]
    requires forall k :: k in t.jobs && (forall i :: 0 <= i < |list| ==> list[i].id != k) ==> t.jobs[k].order >= |list|
    ensures |list| <= |Ordered(Committed(t, list), NoFilters)|
    ensures Ordered(Committed(t, list), NoFilters)[..|list|] == IndexOrdered(list)
    ensures |list| == PageSize ==> ListPage(Committed(t, list), NoFilters, 1) == IndexOrdered(list)
  {
    var t2 := Committed(t, list);
    var l := IndexOrdered(list);
    var o := SortByOrder(t2.JobRows());
    NoFiltersKeepEveryJob(o);
    CommittedSortStartsWithList(t, list);
    if |l| == PageSize {
      PageSliceProperties(o, 1);
      assert ListPage(t2, NoFilters, 1) == l;
    }
  }

  lemma CommittedSortStartsWithList(t: Tables, list: seq<Job>)
    requires t.Valid() && DistinctIds(list)
    requires forall i :: 0 <= i < |list| ==> list[i].id in t.jobs && t.jobs[list[i].id] == list[i]
    requires forall k :: k in t.jobs && (forall i :: 0 <= i < |list| ==> list[i].id != k) ==> t.jobs[k].order >= |list|
    ensures |list| <= |SortByOrder(Committed(t, list).JobRows())|
    ensures SortByOrder(Committed(t, list).JobRows())[..|list|] == IndexOrdered(list)
  {
    var l := IndexOrdered(list);
    var o := SortByOrder(Committed(t, list).JobRows());
    CommittedStoresIndexOrdered(t, list);
    SortedRowsDistinct(Committed(t, list));
    CommittedLowRanks(t, list);
    assert RankedByIndex(l);
    SortedPrefixIs(o, l, |l|);
    assert o[..|l|] == l;
  }

  // -----------------------------------------------------------------------
  // The controller

  datatype JobDraft = JobDraft(title: string, slug: string, status: string, tags: seq<string>)

  datatype CreateResult = Created(id: Id) | CreateFailed(error: string)
  datatype UpdateResult = Updated | UpdateFailed(error: string)

  const CreateError: string := "Failed to save job."
  const UpdateError: string := "Failed to update job."

  function NewJobRecord(job: JobDraft, now: int): NewJob {
    NewJob(job.title, job.slug, job.status, now, job.tags, None)
  }

  class JobsController {
    var state: JobsState
    var dispatched: seq<Action>

    /** The state is always the initial state with every dispatched action
        applied in order. */
    ghost predicate Valid() reads this {
      state == Replay(dispatched)
    }

    constructor ()
      ensures Valid() && state == InitialState && dispatched == []
    {
      state := InitialState;
      dispatched := [];
    }

    method Dispatch(a: Action)
      requires Valid()
      modifies this
      ensures Valid()
      ensures dispatched == old(dispatched) + [a] && state == Reduce(old(state), a)
    {
      assert (dispatched + [a])[..|dispatched|] == dispatched;
      state := Reduce(state, a);
      dispatched := dispatched + [a];
    }

    /** `fetchJobs`: loading on, then either the page and its metadata or
        (on a read failure) nothing, then loading off. */
    method FetchJobs(db: Database, filters: Filters, page: int, readOk: bool)
      requires Valid() && db.Valid() && page >= 1
      modifies this
      ensures Valid()
      ensures dispatched == old(dispatched) + [SetLoading(true)] +
        (if readOk then [SetJobsAndMeta(ListPage(db.tables, filters, page), PageMeta(db.tables, filters, page))] else []) +
        [SetLoading(false)]
      ensures !state.loading && state.filters == old(state.filters)
      ensures readOk ==> state.list == ListPage(db.tables, filters, page) && state.meta == PageMeta(db.tables, filters, page)
      ensures !readOk ==> state.list == old(state.list) && state.meta == old(state.meta)
    {
      Dispatch(SetLoading(true));
      if readOk {
        var ordered := FilterJobs(SortByOrder(db.tables.JobRows()), filters);
        var total := |ordered|;
        var jobsOnPage := PageSlice(ordered, page);
        Dispatch(SetJobsAndMeta(jobsOnPage, Meta(Some(total), Some(page), Some(PageSize))));
      }
      Dispatch(SetLoading(false));
    }

    /** `createJob`: add with `order = now`, then fetch page 1 with empty
        filters; a failed add changes nothing and reports the save error. */
    method CreateJob(db: Database, job: JobDraft, now: int, addOk: bool, readOk: bool) returns (r: CreateResult)
      requires Valid() && db.Valid()
      modifies this, db
      ensures Valid() && db.Valid()
      ensures addOk ==> r == Created(old(db.tables).nextJobId)
      ensures addOk ==> db.tables == old(db.tables).WithJob(NewJobRecord(job, now))
      ensures addOk && readOk ==> state.list == ListPage(db.tables, Filters("", ""), 1) &&
                                  state.meta == PageMeta(db.tables, Filters("", ""), 1)
      ensures addOk && !readOk ==> state.list == old(state.list) && state.meta == old(state.meta)
      ensures addOk ==> !state.loading && state.filters == old(state.filters)
      ensures addOk ==>
        dispatched == old(dispatched) + [SetLoading(true)] +
          (if readOk then [SetJobsAndMeta(ListPage(db.tables, Filters("", ""), 1), PageMeta(db.tables, Filters("", ""), 1))] else []) +
          [SetLoading(false)]
      ensures !addOk ==> r == CreateFailed(CreateError) && db.tables == old(db.tables) &&
                         state == old(state) && dispatched == old(dispatched)
    {
      var added := db.AddJob(NewJobRecord(job, now), addOk);
      if added.Err? {
        return CreateFailed(CreateError);
      }
      FetchJobs(db, Filters("", ""), 1, readOk);
      r := Created(added.value);
    }

    /** `updateJobStatus`: write the status, then replace the job in the list. */
    method UpdateJobStatus(db: Database, job: Job, newStatus: string, ok: bool) returns (r: UpdateResult)
      requires Valid() && db.Valid()
      modifies this, db
      ensures Valid() && db.Valid()
      ensures ok ==> r == Updated && db.tables == old(db.tables).WithJobChange(job.id, SetStatus(newStatus)) &&
                     dispatched == old(dispatched) + [UpdateJob(job.(status := newStatus))]
      ensures !ok ==> r == UpdateFailed(UpdateError) && db.tables == old(db.tables) &&
                      state == old(state) && dispatched == old(dispatched)
    {
      var written := db.UpdateJob(job.id, SetStatus(newStatus), ok);
      if written.Err? {
        return UpdateFailed(UpdateError);
      }
      Dispatch(UpdateJob(job.(status := newStatus)));
      r := Updated;
    }

    /** `reorderJobs`: dispatch the moved list at once, then in one
        transaction write `order = i` for every position; if any write fails
        the transaction leaves the store as it was and the original list is
        dispatched back. Both dispatches carry an empty `meta`. */
    method ReorderJobs(db: Database, jobs: seq<Job>, sourceIndex: nat, destinationIndex: nat,
                       writeOks: seq<bool>) returns (success: bool)
      requires Valid() && db.Valid()
      requires sourceIndex < |jobs| && destinationIndex < |jobs| && |writeOks| == |jobs|
      modifies this, db
      ensures Valid() && db.Valid()
      ensures success <==> AllOk(writeOks)
      ensures dispatched == old(dispatched) + [SetJobsAndMeta(Move(jobs, sourceIndex, destinationIndex), EmptyMeta)] +
                            (if success then [] else [SetJobsAndMeta(jobs, EmptyMeta)])
      ensures success ==> db.tables == ApplyOrders(old(db.tables), Move(jobs, sourceIndex, destinationIndex), |jobs|)
      ensures !success ==> db.tables == old(db.tables)
      ensures state.list == (if success then Move(jobs, sourceIndex, destinationIndex) else jobs)
      ensures state.meta == EmptyMeta
    {
      var reordered := Move(jobs, sourceIndex, destinationIndex);
      assert |reordered| == |jobs|;
      Dispatch(SetJobsAndMeta(reordered, EmptyMeta));
      var snapshot := db.tables;
      success := true;
      var i := 0;
      while i < |reordered|
        invariant 0 <= i <= |reordered|
        invariant db.Valid()
        invariant success ==> db.tables == ApplyOrders(snapshot, reordered, i)
        invariant success ==> forall k :: 0 <= k < i ==> writeOks[k]
        invariant !success ==> !AllOk(writeOks)
        invariant Valid() && dispatched == old(dispatched) + [SetJobsAndMeta(reordered, EmptyMeta)]
        invariant state.list == reordered && state.meta == EmptyMeta
        decreases |reordered| - i
      {
        var r := db.UpdateJob(reordered[i].id, SetOrder(i), writeOks[i]);
        if r.Err? {
          success := false;
          break;
        }
        i := i + 1;
      }
      if !success {
        db.Abort(snapshot);
        Dispatch(SetJobsAndMeta(jobs, EmptyMeta));
      }
    }
  }
}
