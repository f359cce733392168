# DeviceTools in Dafny

A model of the two on-device debug overlays of DeviceTools, a Unity package.
It covers the state and the behaviour of one `OnGUI` pass of each overlay,
with proofs of the properties the code promises.

- **Memory object lister** (`DeviceMemoryProfiler`): a query for every live
  object of a named type. It builds one row per object, holding the name,
  type, runtime size and a material/shader annotation. It keeps the rows and
  their total, sorts them by name or size in either direction, and pages
  through them with page sizes of 10, 100 or 500 rows.
  - Modules: `ObjectData` (rows and comparators), `StringOrder` (name order),
    `RecordSort` (sorting), `Pagination` (page arithmetic) and
    `MemoryProfiler` (view state and one pass).
  - `ProfilerScenarios` proves concrete examples from the definitions and the general
    contracts.
- **Hierarchy browser** (`DeviceHierarchy`): a three-level cursor of scene,
  game object and component over the scene graph. The cursor selects one of
  three render modes: the scene list, a scene's root objects, or one object
  with its children and components. Each button moves the cursor and each
  checkbox writes one activation or enabled flag.
  - Modules: `Hierarchy` (forest, cursor, modes and presses) and
    `HierarchyProperties` (properties that span several presses).

Engine services become inputs:

- The type lookup together with `Resources.FindObjectsOfTypeAll` is a
  function from the assembly-qualified type name to the objects found. It
  returns `None` when the type does not resolve.
- The `ENABLE_PROFILER` compile flag is a boolean.
- The scene graph is a `Forest` value. It holds the loaded scenes, the
  DontDestroyOnLoad scene, and maps from scenes, game objects and components
  to what the browser reads of them.
- A game object id with no entry in the forest reads as null, as a destroyed
  Unity object does.

A pass handles exactly one user interaction. This is how IMGUI delivers input:
one event per pass.

## Model

| member | source | states |
|---|---|---|
| StringOrder.Compare | Assets/Scripts/DeviceMemoryProfiler.cs:50 | The name order used for `CompareTo` is a three-way comparison, and it returns 0 exactly when the two names are equal |
| StringOrder.CompareFlip | Assets/Scripts/DeviceMemoryProfiler.cs:50-53 | Swapping the operands negates the name comparison, so the descending branch is the exact mirror of the ascending one |
| StringOrder.CompareTransitive | Assets/Scripts/DeviceMemoryProfiler.cs:50 | The name order is transitive, so sorting by name is well defined |
| ObjectData.BuildRecord | Assets/Scripts/DeviceMemoryProfiler.cs:115-143 | A row copies the object's name, type and query position. Its size is the profiler's runtime size, or 0 when the profiler is compiled out. A material is annotated with its shader's name exactly when it has a shader. A renderer is annotated exactly when its first shared slot holds a material, and is highlighted exactly when it is annotated and has more than one slot. Any other object gets neither |
| ObjectData.BuildRecords | Assets/Scripts/DeviceMemoryProfiler.cs:112-144 | Refreshing builds exactly one row per object found, in query order, and row i carries `originalIndex == i` |
| ObjectData.SumBuildFrom | Assets/Scripts/DeviceMemoryProfiler.cs:110-146 | The accumulated `_totalBytes` equals the sum of the runtime sizes of the objects found, or 0 without the profiler |
| ObjectData.SortBySize | Assets/Scripts/DeviceMemoryProfiler.cs:56-64 | The size comparator returns -1, 0 or 1. Direction 0 orders smaller sizes first, and any other direction orders larger sizes first |
| ObjectData.SortByName | Assets/Scripts/DeviceMemoryProfiler.cs:46-54 | The name comparator returns 0 exactly for equal names. Any direction other than 0 negates the ascending name order |
| ObjectData.CompareRecordsFlip | Assets/Scripts/DeviceMemoryProfiler.cs:46-64 | Both comparators are antisymmetric, for every key and direction |
| ObjectData.CompareRecordsTransitive | Assets/Scripts/DeviceMemoryProfiler.cs:46-64 | Both comparators' "sorts no later than" relations are transitive |
| ObjectData.DirectionMirrors | Assets/Scripts/DeviceMemoryProfiler.cs:46-64 | For either key, any non-zero direction compares like direction 0 with the operands swapped |
| RecordSort.Insert | Assets/Scripts/DeviceMemoryProfiler.cs:152-161 | Inserting a row into a sorted list keeps it sorted and adds exactly that row |
| RecordSort.SortRecords | Assets/Scripts/DeviceMemoryProfiler.cs:152-161 | `SortObjectDataList` returns a permutation of the rows, sorted by size when `_sortBy == 1` and by name otherwise, in the current direction |
| RecordSort.SortedIsPairwise | Assets/Scripts/DeviceMemoryProfiler.cs:152-161 | In a sorted list, every earlier row compares no later than every later row, not only its neighbour |
| RecordSort.SumSizesPermutation | Assets/Scripts/DeviceMemoryProfiler.cs:146-149 | Sorting after the total is accumulated leaves the total equal to the sum of the listed sizes |
| RecordSort.SortedReverse | Assets/Scripts/DeviceMemoryProfiler.cs:48-63 | A list is sorted ascending exactly when its reversal is sorted descending |
| RecordSort.SortedPermutationUnique | Assets/Scripts/DeviceMemoryProfiler.cs:152-161 | When no two rows tie on the key, there is only one sorted order, so the unstable sort's result is determined |
| RecordSort.StrictMinimumIsLast | Assets/Scripts/DeviceMemoryProfiler.cs:58-63 | Under a descending size sort, a row strictly smaller than every other row is listed last |
| Pagination.TotalPages | Assets/Scripts/DeviceMemoryProfiler.cs:200 | The page count is the ceiling of count / page size: enough pages for every row, one fewer is not enough, and it is 0 only for an empty list |
| Pagination.ClampPage | Assets/Scripts/DeviceMemoryProfiler.cs:203-204 | A page number past the last page becomes the last page. A page in range is kept, and a non-negative page stays non-negative |
| Pagination.StepsStayInRange | Assets/Scripts/DeviceMemoryProfiler.cs:206-225 | The previous and next buttons keep a valid page within [0, totalPages - 1], and are no-ops at the first and last page respectively |
| Pagination.PrevNextInverse | Assets/Scripts/DeviceMemoryProfiler.cs:208-225 | Away from the ends, previous undoes next and next undoes previous |
| Pagination.PageRangeInBounds | Assets/Scripts/DeviceMemoryProfiler.cs:245-249 | On a valid page, the shown rows [start, end) lie inside the list, are not empty, and number at most one page |
| Pagination.RowOnExactlyOnePage | Assets/Scripts/DeviceMemoryProfiler.cs:200-249 | Every row of the list is shown on exactly one page, page `k / pageSize`, and that page exists |
| MemoryProfiler.Initial | Assets/Scripts/DeviceMemoryProfiler.cs:27-96 | The new lister is hidden and empty, and satisfies the invariant between passes. Its defaults are page size index 1, units MB, sort by size and descending |
| MemoryProfiler.Resort | Assets/Scripts/DeviceMemoryProfiler.cs:152-161 | Re-sorting changes only the order of the rows. It leaves the row multiset and the total alone, and the result is sorted by the current key and direction |
| MemoryProfiler.PermutedRowsFromObjects | Assets/Scripts/DeviceMemoryProfiler.cs:112-149 | After the sort, each row is still the row built from the object its `originalIndex` names |
| MemoryProfiler.Refresh | Assets/Scripts/DeviceMemoryProfiler.cs:99-150 | A type that does not resolve changes nothing. Otherwise the rows are replaced by a sorted permutation of the rows built from the objects found, one per object. The total becomes the sum of their runtime sizes, and nothing else changes |
| MemoryProfiler.QueryRow | Assets/Scripts/DeviceMemoryProfiler.cs:174-180 | Check refreshes the list from the typed query and returns to page 0, whether or not the type resolved. Editing the text fields sets the class and assembly name and nothing else. Any other interaction leaves the lister alone |
| MemoryProfiler.ListControls | Assets/Scripts/DeviceMemoryProfiler.cs:183-243 | The units, page-size, paging and sort toolbars of a non-empty list. Each toolbar sets only its own choice. The page is clamped to the page count, then Prev steps back and Next steps forward. Scrolling is recorded. Rows and total are kept up to permutation. A changed key or direction re-sorts the rows, and an unchanged one leaves them untouched |
| MemoryProfiler.ResetView | Assets/Scripts/DeviceMemoryProfiler.cs:283-291 | With an empty list, page, page size, units, sort key, direction and scroll all return to their defaults |
| MemoryProfiler.OnGui | Assets/Scripts/DeviceMemoryProfiler.cs:163-291 | A hidden lister does nothing. Check changes only the rows, the total and the page, which goes to 0; on a non-empty result every view choice is kept. An unresolved type leaves rows and total unchanged. A resolved type lists a permutation of the rows built from the objects found, with the total of their runtime sizes. The text fields set the query. Only Check replaces the rows, and only a sort change re-orders them, sorting by the new choice. On a non-empty list each toolbar sets its choice, only the sort toolbars change the sort key and direction, and the page is clamped and stepped by Prev and Next. An empty list ends the pass with the default view |
| MemoryProfiler.OnGuiPreservesValid | Assets/Scripts/DeviceMemoryProfiler.cs:163-291 | Each pass keeps the invariant between passes. The total is the sum of the row sizes. The rows are sorted by the current key and direction. A non-empty list shows a real page, and an empty list has the default view |
| MemoryProfiler.RunPreservesValid | Assets/Scripts/DeviceMemoryProfiler.cs:163-291 | The invariant holds after any sequence of passes |
| MemoryProfiler.VisibleRows | Assets/Scripts/DeviceMemoryProfiler.cs:245-257 | The scroll view draws every row from `pageNum * pageSize` up to the end of the page or of the list, whichever comes first, in order. That is at most one page, and none only when the list is empty |
| ProfilerScenarios.TwentyFiveRowsInPagesOfTen | Assets/Scripts/DeviceMemoryProfiler.cs:200-249 | Worked example: 25 rows at 10 per page make 3 pages. Page 5 is clamped to page 2, which shows rows 20 to 24 |
| ProfilerScenarios.CheckListsThreeRows | Assets/Scripts/DeviceMemoryProfiler.cs:174-180 | Worked example: Check on three materials lists their three rows, sorted by size descending, with a total of 3500 bytes |
| ProfilerScenarios.CheckListsSmallestLast | Assets/Scripts/DeviceMemoryProfiler.cs:56-64 | Worked example: the unique smallest object is listed last, whatever the order of the two tied larger ones |
| ProfilerScenarios.NameAscendingListsAlphabetically | Assets/Scripts/DeviceMemoryProfiler.cs:230-242 | Worked example: switching to Name and then to ascending lists exactly A, B, C |
| Hierarchy.ToggleActive | Assets/Scripts/DeviceHierarchy.cs:147 | An activation checkbox flips only that game object's `activeSelf` and leaves every other object, scene and component alone |
| Hierarchy.ToggleEnabled | Assets/Scripts/DeviceHierarchy.cs:231-256 | A component checkbox flips only that Behaviour's or Renderer's `enabled`. `enabled` is `Some` exactly for Behaviours and Renderers; every other component, including one such as a Collider that has its own `enabled`, is `None`, is drawn as a label, and changes nothing |
| Hierarchy.SceneListPress | Assets/Scripts/DeviceHierarchy.cs:77-111 | In the scene list, opening a loaded scene or the DontDestroyOnLoad scene selects it and clears the game object and component. Any other press, or a row past the scene list, changes nothing |
| Hierarchy.RootListPress | Assets/Scripts/DeviceHierarchy.cs:116-159 | In the root list, back returns to the scene list with all levels cleared. Descending selects that root, keeps the scene and clears the component. The checkbox flips that root's activation. A control not drawn in this view, or a row past the root list, changes nothing |
| Hierarchy.NodeViewPress | Assets/Scripts/DeviceHierarchy.cs:163-265 | In the node view, back moves to exactly the parent (none for a root) and clears the component. Descending selects that child. Select sets only the component. The checkboxes flip exactly one flag. The scene never changes. A control not drawn in this view, or a row past its list, changes nothing |
| Hierarchy.Step | Assets/Scripts/DeviceHierarchy.cs:73-265 | Checkboxes never move the cursor and buttons never write the scene graph. The nesting invariant and the forest's shape are kept. The scene changes only from the scene list or by going back to it. A new object is chosen only under a shown scene. A new component is chosen only by Select in the node view, from that object's components |
| Hierarchy.OnGui | Assets/Scripts/DeviceHierarchy.cs:55-265 | A hidden browser does nothing. A shown browser performs exactly the press's step in the current mode, and a pass keeps the nesting invariant |
| Hierarchy.RunPreservesNesting | Assets/Scripts/DeviceHierarchy.cs:44-265 | Across any sequence of presses, a component is set only under a set object, and an object only under a non-empty scene |
| HierarchyProperties.SceneListIgnoresDeeperLevels | Assets/Scripts/DeviceHierarchy.cs:73 | The scene list is shown exactly when the scene is EMPTY, invalid or unnamed, whatever the deeper levels hold, and the component never affects the mode |
| HierarchyProperties.CheckboxKeepsMode | Assets/Scripts/DeviceHierarchy.cs:147-250 | A checkbox changes neither the cursor nor the render mode |
| HierarchyProperties.OpenRootShowsNode | Assets/Scripts/DeviceHierarchy.cs:150-156 | Descending into a root shows that root's node view |
| HierarchyProperties.OpenChildShowsNode | Assets/Scripts/DeviceHierarchy.cs:214-220 | Descending into a child shows that child's node view |
| HierarchyProperties.BackFromNodeShows | Assets/Scripts/DeviceHierarchy.cs:169-187 | Back from an object without a parent shows the root list. Back from an object with a parent shows exactly that parent |
| HierarchyProperties.OpenChildThenBack | Assets/Scripts/DeviceHierarchy.cs:169-220 | Descending into a child and going back returns to the same cursor with the component cleared |
| HierarchyProperties.OpenRootThenBack | Assets/Scripts/DeviceHierarchy.cs:150-177 | Descending into a root and going back returns to the scene's root list |
| HierarchyProperties.OpenSceneThenBack | Assets/Scripts/DeviceHierarchy.cs:91-127 | Opening a showable scene lists its roots, and going back from there returns to `Start`: the EMPTY scene with no object and no component |
| HierarchyProperties.RootDescendGlyphAnnouncesChildren | Assets/Scripts/DeviceHierarchy.cs:150-156 | A root's descend button shows BLACKWHITE_RIGHT exactly when, in the node view it opens, descending into the first child moves the cursor. It shows WHITE_RIGHT exactly when that press changes nothing |
| HierarchyProperties.ChildDescendGlyphAnnouncesChildren | Assets/Scripts/DeviceHierarchy.cs:214-220 | The same for a child row's descend button: the glyph announces whether the node view it opens lets the cursor descend further |
| HierarchyProperties.BackGlyphAnnouncesTarget | Assets/Scripts/DeviceHierarchy.cs:169-187 | The back button shows WHITE_LEFT exactly when back leads to the root list, and BLACK_LEFT exactly when it leads to a parent |
| HierarchyProperties.ComponentGlyphMarksSelection | Assets/Scripts/DeviceHierarchy.cs:258-263 | A component's select button shows BLACK_RIGHT exactly when pressing it would change nothing |
| HierarchyProperties.ActivationTouchesOneNode | Assets/Scripts/DeviceHierarchy.cs:143-147 | A root's activation checkbox flips that root's `activeSelf` and changes nothing else in the scene graph |

Three behaviours of the code worth noting:

- **Renderer highlight:** it is set when the renderer has more than one
  shared-material slot (`sharedMaterials.Length > 1`, line 136). The number
  of distinct materials is not what is tested. Two slots holding the same
  material are flagged.
- **Back from a node:** going back from a node always clears the selected
  component (lines 174-175 and 183-184).
- **Tie order:** `originalIndex` is recorded but never used to break ties.
  `List.Sort` is unstable, so the model leaves the order of tied rows open.
  Every sorting property is stated for any sorted permutation.

## Left out

- Drawing is not modelled: layout, colours, fonts, labels and number
  formatting. This includes the `float` division behind the total and size
  labels. Units are kept as the selected toolbar index, together with their
  divisors.
- The scroll position is reduced to "at the origin" or "scrolled". The
  offset itself is not modelled.
- The "<No Name>" placeholder for whitespace names is display only, and is
  not modelled.
- The hierarchy browser's component detail panes (DeviceHierarchy.cs:267-368)
  are not modelled. They show Transform, Renderer, MeshFilter and
  ParticleSystem details. They also hold two toggles: the particle system's
  emission module `enabled` (line 363) and its renderer's `enabled`
  (line 366).
  - In that pane, the shared-material loop at line 316 counts up to
    `materials.Length` rather than `sharedMaterials.Length`.
  - That pane lies outside this model, so no property about it is stated.
- The lazy singletons (`Instance`), `Awake`'s capture of the DontDestroyOnLoad
  scene, and the `Show` properties are not modelled. The persistent scene is
  a field of the forest, and visibility is an input.
- The starter scripts that toggle visibility from input are not modelled.
- IMGUI's layout and repaint passes, which handle no input, are the `Idle`
  interaction. The text fields' focus and caret are not modelled: an edit is
  the text it leaves behind.
- The static `sortDirection` is shared by all instances of the row struct.
  The model keeps it as a field of the lister, which has only one instance.
- StringOrder.Compare: it uses ordinal lexicographic order on characters,
  where the code uses culture-sensitive `string.CompareTo`. Properties about
  the name order therefore hold for the ordinal order only.
- MemoryProfiler.Refresh: `_totalBytes` is a `long` in the code. The model's
  total is unbounded, so 64-bit overflow is not modelled. It would need more
  than 2^63 bytes of live objects.
- RecordSort.SortRecords: the model uses insertion sort, not .NET's
  introspective sort. Only "a sorted permutation" is promised, which is all
  the unstable `List.Sort` guarantees.
- The engine's type resolution and object query (`Type.GetType`,
  `FindObjectsOfTypeAll`, `GetRuntimeMemorySizeLong`) are inputs. Their
  results are taken as given.
