/** The jobs page's rules: the drag handler, the status toggle, the
    pagination buttons and page count, and the filter controls' actions. */
module JobsPage {
  import opened Common
  import opened Records
  import opened DexieDB
  import opened JobsContext

  /** What a finished drag does: nothing, or a reorder call. */
  datatype DragOutcome = NoDrag | Reorder(sourceIndex: nat, destinationIndex: nat)

  /** `onDragEnd`: only a missing destination is ignored. */
  function OnDragEnd(sourceIndex: nat, destination: Option<nat>): (r: DragOutcome)
    ensures destination.None? <==> r.NoDrag?
    ensures destination.Some? ==> r == Reorder(sourceIndex, destination.value)
  {
    if destination.None? then NoDrag else Reorder(sourceIndex, destination.value)
  }

  /** A drop at its own index still reorders, and that reorder dispatches
      the list unchanged. */
  lemma DropInPlaceStillReorders(list: seq<Job>, index: nat)
    requires index < |list|
    ensures OnDragEnd(index, Some(index)) == Reorder(index, index)
    ensures Move(list, index, index) == list
  {
    MoveProperties(list, index, index);
  }

  /** The archive/unarchive button. */
  function ToggleStatus(status: string): (r: string)
    ensures status == "active" ==> r == "archived"
    ensures status != "active" ==> r == "active"
  {
    if status == "active" then "archived" else "active"
  }

  lemma ToggleStatusTwice(status: string)
    requires status == "active" || status == "archived"
    ensures ToggleStatus(ToggleStatus(status)) == status
  {
  }

  /** `meta.page <= 1`; a comparison with an undefined page is false. */
  function PrevDisabled(meta: Meta): (r: bool)
    ensures r <==> meta.page.Some? && meta.page.value <= 1
  {
    meta.page.Some? && meta.page.value <= 1
  }

  /** On the metadata of a fetched page, Prev is disabled exactly on page 1,
      and otherwise asks for the page before, which is again a page a fetch
      accepts. */
  lemma PrevDisabledExactlyOnFirstPage(t: Tables, f: Filters, page: int)
    requires page >= 1
    ensures PrevDisabled(PageMeta(t, f, page)) <==> page == 1
    ensures !PrevDisabled(PageMeta(t, f, page)) ==>
      PrevAction(PageMeta(t, f, page)) == SetPage(Some(page - 1)) && page - 1 >= 1
  {
  }

  /** `meta.page * meta.pageSize >= meta.total`; any undefined operand makes
      the product or the comparison NaN, hence false. */
  function NextDisabled(meta: Meta): (r: bool)
    ensures r <==> meta.page.Some? && meta.pageSize.Some? && meta.total.Some? &&
                   meta.page.value * meta.pageSize.value >= meta.total.value
  {
    meta.page.Some? && meta.pageSize.Some? && meta.total.Some? &&
    meta.page.value * meta.pageSize.value >= meta.total.value
  }

  function CeilDiv(a: int, b: int): int
    requires b != 0
  {
    -(((-a) as real / b as real).Floor)
  }

  /** `Math.ceil(meta.total / meta.pageSize) || 1`. `None` stands for the
      infinite quotient of a zero page size with a non-zero total; every other
      case that is NaN or 0 shows 1. */
  function PageCount(meta: Meta): Option<int> {
    if meta.total.None? || meta.pageSize.None? then Some(1)
    else if meta.pageSize.value == 0 then (if meta.total.value == 0 then Some(1) else None)
    else
      var c := CeilDiv(meta.total.value, meta.pageSize.value);
      Some(if c == 0 then 1 else c)
  }

  /** For a fetched page's metadata, the count is the number of ten-job
      pages the total needs (at least one), and Next is disabled exactly from
      the last page on. */
  lemma PageCountMatchesNext(total: nat, page: int)
    requires page >= 1
    ensures var meta := Meta(Some(total), Some(page), Some(PageSize));
      PageCount(meta) == Some(if total == 0 then 1 else (total + PageSize - 1) / PageSize) &&
      (NextDisabled(meta) <==> page >= PageCount(meta).value)
  {
    var c := CeilDiv(total, PageSize);
    var q := (total + PageSize - 1) / PageSize;
    var t: int := total;
    var f := ((-t) as real / PageSize as real).Floor;
    assert f * 10 <= -t < f * 10 + 10 by {
      assert (f as real) <= (-t) as real / 10.0 < (f as real) + 1.0;
    }
    assert c == -f;
    assert q * 10 <= total + 9 < q * 10 + 10;
    assert c == q;
  }

  /** The Prev and Next buttons' actions: `meta.page - 1` and
      `meta.page + 1`, NaN when the page is undefined. */
  function PrevAction(meta: Meta): Action {
    SetPage(if meta.page.Some? then Some(meta.page.value - 1) else None)
  }

  function NextAction(meta: Meta): Action {
    SetPage(if meta.page.Some? then Some(meta.page.value + 1) else None)
  }

  /** The search box and the status select replace only their own field. */
  function SearchChanged(filters: Filters, search: string): Action {
    SetFilters(filters.(search := search))
  }

  function StatusChanged(filters: Filters, status: string): Action {
    SetFilters(filters.(status := status))
  }

  lemma FilterControlsReplaceOneField(s: JobsState, search: string, status: string)
    ensures Reduce(s, SearchChanged(s.filters, search)).filters == Filters(search, s.filters.status)
    ensures Reduce(s, StatusChanged(s.filters, status)).filters == Filters(s.filters.search, status)
    ensures Reduce(s, SearchChanged(s.filters, search)).meta.page == Some(1)
    ensures Reduce(s, StatusChanged(s.filters, status)).meta.page == Some(1)
  {
  }

  /** After a reorder the metadata is empty: neither button is disabled and
      the page count shows 1. */
  lemma EmptyMetaAfterReorder()
    ensures !PrevDisabled(EmptyMeta) && !NextDisabled(EmptyMeta) && PageCount(EmptyMeta) == Some(1)
    ensures PrevAction(EmptyMeta) == SetPage(None) && NextAction(EmptyMeta) == SetPage(None)
  {
  }
}
