/** The memory object lister (`DeviceMemoryProfiler`): its view state, the
    Check/refresh operation, and one `OnGUI` pass as a function of the state
    and the single user interaction that pass handles.

    Engine calls are inputs: the type lookup plus all-instances query is a
    function from the qualified type name to the objects found (None when the
    type does not resolve), and the `ENABLE_PROFILER` build flag is a bool. */
module MemoryProfiler {
  import opened Optional
  import opened ObjectData
  import opened RecordSort
  import opened Pagination

  /** Divisors of the units toolbar: Bytes, KB, MB, GB. */
  const UnitDivisors: seq<nat> := [1, 1024, 1048576, 1073741824]

  /** Number of choices on the sort-key and sort-direction toolbars. */
  const SortChoices := 2

  const DefaultPageSizeIndex := 1
  const DefaultUnits := 2
  const DefaultSortBy := 1
  const DefaultSortDirection := 1

  /** The scroll view's offset matters only as "at the origin" or not. */
  datatype Scroll = AtOrigin | Scrolled

  datatype Lister = Lister(
    show: bool,
    className: string,
    assemblyName: string,
    records: seq<ObjectRecord>,
    totalBytes: int,
    pageNum: int,
    pageSizeIndex: int,
    units: int,
    sortBy: int,
    sortDirection: int,
    scroll: Scroll)

  /** The engine's answer to "all live objects of the type with this
      assembly-qualified name". */
  type Lookup = string -> Option<seq<EngineObject>>

  /** The one input event an `OnGUI` pass handles. */
  datatype Interaction =
    | Idle
    | EditQuery(className: string, assemblyName: string)
    | PressCheck(lookup: Lookup, profilerEnabled: bool)
    | PickUnits(units: int)
    | PickPageSize(index: int)
    | PressPrev
    | PressNext
    | PickSortBy(sortBy: int)
    | PickSortDirection(direction: int)
    | ScrollRows

  /** A toolbar only ever returns the index of one of its buttons. */
  predicate Offered(ev: Interaction) {
    match ev
    case PickUnits(u) => 0 <= u < |UnitDivisors|
    case PickPageSize(i) => 0 <= i < |PageSizes|
    case PickSortBy(k) => 0 <= k < SortChoices
    case PickSortDirection(d) => 0 <= d < SortChoices
    case _ => true
  }

  /** The view settings an empty list falls back to. */
  predicate ViewIsDefault(s: Lister) {
    && s.pageNum == 0
    && s.pageSizeIndex == DefaultPageSizeIndex
    && s.units == DefaultUnits
    && s.sortBy == DefaultSortBy
    && s.sortDirection == DefaultSortDirection
    && s.scroll == AtOrigin
  }

  /** What holds between any two passes: choices in range, the total is the
      sum of the rows, the rows are sorted by the current key and direction,
      an empty list has the default view, and a non-empty list's page is a
      real page. */
  ghost predicate Valid(s: Lister) {
    && 0 <= s.pageSizeIndex < |PageSizes|
    && 0 <= s.units < |UnitDivisors|
    && 0 <= s.sortBy < SortChoices
    && 0 <= s.sortDirection < SortChoices
    && s.totalBytes == SumSizes(s.records)
    && Sorted(s.records, s.sortBy, s.sortDirection)
    && (|s.records| == 0 ==> ViewIsDefault(s))
    && (|s.records| > 0 ==> 0 <= s.pageNum < TotalPages(|s.records|, PageSizes[s.pageSizeIndex]))
  }

  /** The component as first created: hidden, querying every
      `UnityEngine.Object` in `UnityEngine.CoreModule`, nothing listed. */
  function Initial(): (s: Lister)
    ensures Valid(s) && !s.show && |s.records| == 0
  {
    Lister(false, "UnityEngine.Object", "UnityEngine.CoreModule", [], 0,
           0, DefaultPageSizeIndex, DefaultUnits, DefaultSortBy, DefaultSortDirection, AtOrigin)
  }

  /** The name handed to the type lookup: class name, comma, assembly name. */
  function QualifiedTypeName(s: Lister): string {
    s.className + ", " + s.assemblyName
  }

  /** `SortObjectDataList`: re-order the rows by the current key and direction. */
  function Resort(s: Lister): (r: Lister)
    ensures Sorted(r.records, s.sortBy, s.sortDirection)
    ensures multiset(r.records) == multiset(s.records)
    ensures r.totalBytes == s.totalBytes && SumSizes(r.records) == SumSizes(s.records)
    ensures r == s.(records := r.records)
  {
    var sorted := SortRecords(s.records, s.sortBy, s.sortDirection);
    SumSizesPermutation(sorted, s.records);
    s.(records := sorted)
  }

  /** Each row was built from the object its `originalIndex` names. */
  ghost predicate RowsFromObjects(rs: seq<ObjectRecord>, objects: seq<EngineObject>, profilerEnabled: bool) {
    forall i :: 0 <= i < |rs| ==>
      rs[i].originalIndex < |objects| &&
      rs[i] == BuildRecord(objects[rs[i].originalIndex], rs[i].originalIndex, profilerEnabled)
  }

  /** Any re-ordering of the freshly built rows keeps each row tied to its object. */
  lemma PermutedRowsFromObjects(rs: seq<ObjectRecord>, objects: seq<EngineObject>, profilerEnabled: bool)
    requires multiset(rs) == multiset(BuildRecords(objects, profilerEnabled))
    ensures RowsFromObjects(rs, objects, profilerEnabled)
  {
    var built := BuildRecords(objects, profilerEnabled);
    forall i | 0 <= i < |rs|
      ensures rs[i].originalIndex < |objects|
      ensures rs[i] == BuildRecord(objects[rs[i].originalIndex], rs[i].originalIndex, profilerEnabled)
    {
      assert rs[i] in multiset(built);
      var j :| 0 <= j < |built| && built[j] == rs[i];
    }
  }

  /** `UpdateObjectDataList`. An unresolved type changes nothing. Otherwise the
      list is rebuilt from the objects found: one row per object, each row
      built from the object its `originalIndex` names, the total equal to the
      sum of the sizes, and the rows sorted by the current key and direction. */
  function Refresh(s: Lister, lookup: Lookup, profilerEnabled: bool): (r: Lister)
    ensures lookup(QualifiedTypeName(s)).None? ==> r == s
    ensures lookup(QualifiedTypeName(s)).Some? ==>
      var objects := lookup(QualifiedTypeName(s)).value;
      && |r.records| == |objects|
      && multiset(r.records) == multiset(BuildRecords(objects, profilerEnabled))
      && RowsFromObjects(r.records, objects, profilerEnabled)
      && r.totalBytes == SumRuntimeSizes(objects, profilerEnabled) == SumSizes(r.records)
      && Sorted(r.records, s.sortBy, s.sortDirection)
      && r == s.(records := r.records, totalBytes := r.totalBytes)
  {
    match lookup(QualifiedTypeName(s))
    case None => s
    case Some(objects) =>
      var built := BuildRecords(objects, profilerEnabled);
      SumBuildFrom(objects, 0, profilerEnabled);
      assert objects[0..] == objects;
      var r := Resort(s.(records := built, totalBytes := SumSizes(built)));
      PermutedRowsFromObjects(r.records, objects, profilerEnabled);
      r
  }

  /** The query row: the two text fields and the Check button, which refreshes
      and returns to the first page whether or not the type resolved. */
  function QueryRow(s: Lister, ev: Interaction): (r: Lister)
    ensures ev.PressCheck? ==> r.pageNum == 0
    // Check refreshes the list and returns to the first page
    ensures ev.PressCheck? ==> r == Refresh(s, ev.lookup, ev.profilerEnabled).(pageNum := 0)
    // the text fields set the query and nothing else
    ensures ev.EditQuery? ==> r == s.(className := ev.className, assemblyName := ev.assemblyName)
    ensures !(ev.PressCheck? || ev.EditQuery?) ==> r == s
    ensures !ev.PressCheck? ==> r.records == s.records && r.totalBytes == s.totalBytes
  {
    match ev
    case EditQuery(c, a) => s.(className := c, assemblyName := a)
    case PressCheck(lookup, profilerEnabled) => Refresh(s, lookup, profilerEnabled).(pageNum := 0)
    case _ => s
  }

  /** The controls of a non-empty list, in drawing order: units toolbar,
      page-size toolbar, clamp of the page, previous and next buttons, sort-key
      toolbar and sort-direction toolbar (each re-sorting only on a change),
      and the scroll view. The page count is positive here, so the source's
      `totalPages > 0` test always passes. */
  function ListControls(s: Lister, ev: Interaction): (r: Lister)
    requires |s.records| > 0 && 0 <= s.pageSizeIndex < |PageSizes| && Offered(ev)
    ensures 0 <= r.pageSizeIndex < |PageSizes|
    ensures multiset(r.records) == multiset(s.records) && |r.records| == |s.records|
    ensures r.totalBytes == s.totalBytes && SumSizes(r.records) == SumSizes(s.records)
    ensures s.pageNum >= 0 ==> 0 <= r.pageNum < TotalPages(|r.records|, PageSizes[r.pageSizeIndex])
    // the page is clamped to the (possibly new) page count, then moved by Prev or Next
    ensures r.pageNum ==
      var total := TotalPages(|s.records|, PageSizes[r.pageSizeIndex]);
      var page := ClampPage(s.pageNum, total);
      if ev.PressPrev? then PrevPage(page) else if ev.PressNext? then NextPage(page, total) else page
    ensures r.scroll == (if ev.ScrollRows? then Scrolled else s.scroll)
    ensures r.className == s.className && r.assemblyName == s.assemblyName && r.show == s.show
    ensures r.sortBy == (if ev.PickSortBy? then ev.sortBy else s.sortBy)
    ensures r.sortDirection == (if ev.PickSortDirection? then ev.direction else s.sortDirection)
    ensures r.units == (if ev.PickUnits? then ev.units else s.units)
    ensures r.pageSizeIndex == (if ev.PickPageSize? then ev.index else s.pageSizeIndex)
    // the rows stay sorted, and a changed key or direction sorts them afresh
    ensures Sorted(s.records, s.sortBy, s.sortDirection) ==> Sorted(r.records, r.sortBy, r.sortDirection)
    ensures ev.PickSortBy? && ev.sortBy != s.sortBy ==> Sorted(r.records, r.sortBy, r.sortDirection)
    ensures ev.PickSortDirection? && ev.direction != s.sortDirection ==> Sorted(r.records, r.sortBy, r.sortDirection)
    ensures !(ev.PickSortBy? || ev.PickSortDirection?) ==> r.records == s.records
    ensures ev.PickSortBy? && ev.sortBy == s.sortBy ==> r.records == s.records
    ensures ev.PickSortDirection? && ev.direction == s.sortDirection ==> r.records == s.records
  {
    var units := if ev.PickUnits? then ev.units else s.units;
    var sizeIndex := if ev.PickPageSize? then ev.index else s.pageSizeIndex;
    var total := TotalPages(|s.records|, PageSizes[sizeIndex]);
    var page := ClampPage(s.pageNum, total);
    var page := if ev.PressPrev? then PrevPage(page) else page;
    var page := if ev.PressNext? then NextPage(page, total) else page;
    var s1 := s.(units := units, pageSizeIndex := sizeIndex, pageNum := page);
    var s2 := if ev.PickSortBy? && ev.sortBy != s1.sortBy then Resort(s1.(sortBy := ev.sortBy)) else s1;
    var s3 := if ev.PickSortDirection? && ev.direction != s2.sortDirection
              then Resort(s2.(sortDirection := ev.direction)) else s2;
    if ev.ScrollRows? then s3.(scroll := Scrolled) else s3
  }

  /** An empty list puts every view setting back to its default. */
  function ResetView(s: Lister): (r: Lister)
    ensures ViewIsDefault(r)
    ensures r.records == s.records && r.totalBytes == s.totalBytes
    ensures r.className == s.className && r.assemblyName == s.assemblyName && r.show == s.show
  {
    s.(pageNum := 0, pageSizeIndex := DefaultPageSizeIndex, units := DefaultUnits,
       sortBy := DefaultSortBy, sortDirection := DefaultSortDirection, scroll := AtOrigin)
  }

  /** One `OnGUI` pass handling the interaction `ev`. */
  function OnGui(s: Lister, ev: Interaction): (r: Lister)
    requires 0 <= s.pageSizeIndex < |PageSizes| && Offered(ev)
    // hidden: nothing happens
    ensures !s.show ==> r == s
    ensures r.show == s.show
    // Check returns to the first page whether or not the type resolved,
    // and an unresolved type leaves the rows and the total alone
    ensures s.show && ev.PressCheck? ==> r.pageNum == 0
    ensures s.show && ev.PressCheck? && ev.lookup(QualifiedTypeName(s)).None? ==>
      r.records == s.records && r.totalBytes == s.totalBytes
    // only Check replaces the rows; only a change of sort key or direction re-orders them
    ensures !ev.PressCheck? ==> multiset(r.records) == multiset(s.records) && r.totalBytes == s.totalBytes
    ensures !(ev.PressCheck? || ev.PickSortBy? || ev.PickSortDirection?) ==> r.records == s.records
    ensures ev.PickSortBy? && ev.sortBy == s.sortBy ==> r.records == s.records
    ensures ev.PickSortDirection? && ev.direction == s.sortDirection ==> r.records == s.records
    // a change of key or direction on a shown, non-empty list sorts by the new choice
    ensures s.show && |s.records| > 0 && ev.PickSortBy? ==>
      r.sortBy == ev.sortBy && r.sortDirection == s.sortDirection &&
      (ev.sortBy != s.sortBy ==> Sorted(r.records, ev.sortBy, s.sortDirection))
    ensures s.show && |s.records| > 0 && ev.PickSortDirection? ==>
      r.sortDirection == ev.direction && r.sortBy == s.sortBy &&
      (ev.direction != s.sortDirection ==> Sorted(r.records, s.sortBy, ev.direction))
    // Check on a type that resolves lists the rows built from the objects found, with their total
    ensures s.show && ev.PressCheck? && ev.lookup(QualifiedTypeName(s)).Some? ==>
      var objects := ev.lookup(QualifiedTypeName(s)).value;
      && multiset(r.records) == multiset(BuildRecords(objects, ev.profilerEnabled))
      && r.totalBytes == SumRuntimeSizes(objects, ev.profilerEnabled)
    // Check changes only the rows, the total and the page: a non-empty result
    // keeps every view choice
    ensures s.show && ev.PressCheck? && |r.records| > 0 ==>
      r == s.(records := r.records, totalBytes := r.totalBytes, pageNum := 0)
    // on a non-empty list only the sort toolbars change the sort key and direction
    ensures s.show && |s.records| > 0 && !(ev.PressCheck? || ev.PickSortBy?) ==> r.sortBy == s.sortBy
    ensures s.show && |s.records| > 0 && !(ev.PressCheck? || ev.PickSortDirection?) ==> r.sortDirection == s.sortDirection
    // the text fields set the query
    ensures s.show && ev.EditQuery? ==> r.className == ev.className && r.assemblyName == ev.assemblyName
    ensures !ev.EditQuery? ==> r.className == s.className && r.assemblyName == s.assemblyName
    // on a shown, non-empty list the toolbars set their own choice, the page is
    // clamped and stepped, and the scroll view records scrolling
    ensures s.show && |s.records| > 0 && !ev.PressCheck? ==>
      && r.units == (if ev.PickUnits? then ev.units else s.units)
      && r.pageSizeIndex == (if ev.PickPageSize? then ev.index else s.pageSizeIndex)
      && r.scroll == (if ev.ScrollRows? then Scrolled else s.scroll)
      && r.pageNum ==
           var total := TotalPages(|s.records|, PageSizes[r.pageSizeIndex]);
           var page := ClampPage(s.pageNum, total);
           if ev.PressPrev? then PrevPage(page) else if ev.PressNext? then NextPage(page, total) else page
    // an empty list ends the pass with the default view
    ensures s.show && |r.records| == 0 ==> ViewIsDefault(r)
    ensures 0 <= r.pageSizeIndex < |PageSizes|
  {
    if !s.show then s
    else
      var s1 := QueryRow(s, ev);
      if |s1.records| > 0 then ListControls(s1, ev) else ResetView(s1)
  }

  /** Every pass keeps the between-pass invariant. */
  lemma OnGuiPreservesValid(s: Lister, ev: Interaction)
    requires Valid(s) && Offered(ev)
    ensures Valid(OnGui(s, ev))
  {
    if s.show {
      var s1 := QueryRow(s, ev);
      if ev.PressCheck? {
        match ev.lookup(QualifiedTypeName(s))
        case None =>
        case Some(objects) =>
      }
      assert Sorted(s1.records, s1.sortBy, s1.sortDirection);
      assert s1.totalBytes == SumSizes(s1.records);
      assert s1.pageNum >= 0;
      if |s1.records| > 0 {
        var r := ListControls(s1, ev);
        assert Sorted(r.records, r.sortBy, r.sortDirection);
      }
    }
  }

  /** Passes one after another. */
  function Run(s: Lister, evs: seq<Interaction>): Lister
    requires 0 <= s.pageSizeIndex < |PageSizes|
    requires forall i :: 0 <= i < |evs| ==> Offered(evs[i])
    decreases |evs|
  {
    if |evs| == 0 then s else Run(OnGui(s, evs[0]), evs[1..])
  }

  /** The invariant holds after any sequence of passes. */
  lemma {:induction false} RunPreservesValid(s: Lister, evs: seq<Interaction>)
    requires Valid(s)
    requires forall i :: 0 <= i < |evs| ==> Offered(evs[i])
    ensures Valid(Run(s, evs))
    decreases |evs|
  {
    if |evs| > 0 {
      OnGuiPreservesValid(s, evs[0]);
      RunPreservesValid(OnGui(s, evs[0]), evs[1..]);
    }
  }

  /** The rows the scroll view draws: `[pageNum * pageSize, min(count,
      (pageNum + 1) * pageSize))`, never more than a page, and none only when
      the list is empty. */
  function VisibleRows(s: Lister): (rows: seq<ObjectRecord>)
    requires Valid(s)
    ensures |rows| <= PageSizes[s.pageSizeIndex]
    ensures |s.records| > 0 ==>
      |rows| == PageEnd(s.pageNum, PageSizes[s.pageSizeIndex], |s.records|) - PageStart(s.pageNum, PageSizes[s.pageSizeIndex])
    ensures |rows| == 0 <==> |s.records| == 0
    ensures forall i :: 0 <= i < |rows| ==>
      s.pageNum * PageSizes[s.pageSizeIndex] + i < |s.records| &&
      rows[i] == s.records[s.pageNum * PageSizes[s.pageSizeIndex] + i]
  {
    if |s.records| == 0 then []
    else
      var size := PageSizes[s.pageSizeIndex];
      PageRangeInBounds(s.pageNum, size, |s.records|);
      s.records[PageStart(s.pageNum, size)..PageEnd(s.pageNum, size, |s.records|)]
  }
}
