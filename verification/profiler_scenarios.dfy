/** Worked scenarios for the memory object lister, each proved from the
    definitions and the general contracts. */
module ProfilerScenarios {
  import opened Optional
  import opened ObjectData
  import opened RecordSort
  import opened Pagination
  import opened MemoryProfiler
  import StringOrder

  /** 25 rows at 10 per page: three pages, page 5 clamps to page 2, and page 2
      shows rows [20, 25). */
  lemma TwentyFiveRowsInPagesOfTen()
    ensures TotalPages(25, 10) == 3
    ensures ClampPage(5, TotalPages(25, 10)) == 2
    ensures PageStart(2, 10) == 20 && PageEnd(2, 10, 25) == 25
  {
  }

  /** Three materials: "A" of 500 bytes, "B" and "C" of 1500 bytes each. */
  function ThreeMaterials(): seq<EngineObject> {
    [ EngineObject("UnityEngine.Material", "A", 500, Material(None)),
      EngineObject("UnityEngine.Material", "B", 1500, Material(None)),
      EngineObject("UnityEngine.Material", "C", 1500, Material(None)) ]
  }

  /** An engine in which every type name resolves to the three materials. */
  function FindThree(qualifiedName: string): Option<seq<EngineObject>> {
    Some(ThreeMaterials())
  }

  /** The lister, freshly created and shown, after one press of Check that
      finds the three materials. */
  function CheckedThree(): Lister {
    OnGui(Initial().(show := true), PressCheck(FindThree, true))
  }

  /** The rows built for the three materials, in query order. */
  function ThreeRows(): seq<ObjectRecord> {
    BuildRecords(ThreeMaterials(), true)
  }

  lemma ThreeRowsContents()
    ensures |ThreeRows()| == 3
    ensures ThreeRows()[0].name == "A" && ThreeRows()[0].size == 500
    ensures ThreeRows()[1].name == "B" && ThreeRows()[1].size == 1500
    ensures ThreeRows()[2].name == "C" && ThreeRows()[2].size == 1500
  {
  }

  /** The rows and view settings Check leaves behind are those the refresh
      produced from the three materials. */
  lemma CheckedThreeIsRefreshed()
    ensures var refreshed := Refresh(Initial().(show := true), FindThree, true);
      var s := CheckedThree();
      && s.show && s.records == refreshed.records && s.totalBytes == refreshed.totalBytes
      && s.sortBy == refreshed.sortBy && s.sortDirection == refreshed.sortDirection
      && s.pageSizeIndex == refreshed.pageSizeIndex
  {
    var s0 := Initial().(show := true);
    var s1 := Refresh(s0, FindThree, true).(pageNum := 0);
    assert |s1.records| == 3;
    assert CheckedThree() == ListControls(s1, PressCheck(FindThree, true));
  }

  /** Check lists the three rows, sorted by the default Size / descending, with
      their total. */
  lemma CheckListsThreeRows()
    ensures var s := CheckedThree();
      && s.show && s.sortBy == SizeKey && s.sortDirection == 1 && s.pageSizeIndex == DefaultPageSizeIndex
      && multiset(s.records) == multiset(ThreeRows())
      && Sorted(s.records, SizeKey, 1)
      && s.totalBytes == 3500
  {
    CheckedThreeIsRefreshed();
    assert SumRuntimeSizes(ThreeMaterials(), true) == 3500;
  }

  /** In any ordering of the three rows, every row other than "A" is larger
      than "A". */
  lemma OthersOutweighA(rs: seq<ObjectRecord>)
    requires multiset(rs) == multiset(ThreeRows())
    ensures |rs| == 3 && ThreeRows()[0] in rs
    ensures forall i :: 0 <= i < |rs| && rs[i] != ThreeRows()[0] ==> rs[i].size > ThreeRows()[0].size
  {
    var built := ThreeRows();
    ThreeRowsContents();
    assert built == [built[0], built[1], built[2]];
    assert |rs| == |multiset(rs)| == |multiset(built)| == 3;
    assert built[0] in multiset(rs);
    forall i | 0 <= i < |rs| && rs[i] != built[0]
      ensures rs[i].size > built[0].size
    {
      assert rs[i] in multiset(built);
    }
  }

  /** With the default Size / descending sort, "A" is listed last, whatever
      the order of the tied "B" and "C". */
  lemma CheckListsSmallestLast()
    ensures |CheckedThree().records| == 3 && CheckedThree().records[2].name == "A"
  {
    var rs := CheckedThree().records;
    CheckListsThreeRows();
    OthersOutweighA(rs);
    StrictMinimumIsLast(rs, ThreeRows()[0], 1);
    ThreeRowsContents();
  }

  /** The three materials in query order are already in ascending name order,
      and no two of their names tie. */
  lemma ThreeRowsByName()
    ensures Sorted(ThreeRows(), 0, 0) && NoTies(ThreeRows(), 0)
  {
    ThreeRowsContents();
    assert StringOrder.Compare("A", "B") == -1;
    assert StringOrder.Compare("B", "C") == -1;
  }

  /** The lister after switching to Name and then to ascending. */
  function NameAscendingThree(): Lister {
    OnGui(OnGui(CheckedThree(), PickSortBy(0)), PickSortDirection(0))
  }

  lemma NameAscendingRows()
    ensures multiset(NameAscendingThree().records) == multiset(ThreeRows())
    ensures Sorted(NameAscendingThree().records, 0, 0)
  {
    CheckListsThreeRows();
    ThreeRowsContents();
    var s1 := CheckedThree();
    assert |s1.records| == |multiset(s1.records)| == 3;
    var s2 := OnGui(s1, PickSortBy(0));
    assert s2.sortBy == 0 && s2.sortDirection == 1 && |s2.records| == 3;
  }

  /** Switching the sort to Name and then to ascending lists exactly "A",
      "B", "C": no two names tie, so the order is forced. */
  lemma NameAscendingListsAlphabetically()
    ensures var s := NameAscendingThree();
      |s.records| == 3 && s.records[0].name == "A" && s.records[1].name == "B" && s.records[2].name == "C"
  {
    NameAscendingRows();
    ThreeRowsByName();
    ThreeRowsContents();
    SortedPermutationUnique(ThreeRows(), NameAscendingThree().records, 0, 0);
  }
}
