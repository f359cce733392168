/** One row of the memory object list (`UnityObjectData`), how a row is built
    from a live engine object, and the two row comparators. */
module ObjectData {
  import opened Optional
  import StringOrder

  /** What the row builder can tell about an object beyond its name, type and
      size: a Material with its shader's name (None for a null shader), a
      Renderer with its shared-material slots (each slot a material name, or
      None for an empty slot), or anything else. */
  datatype ObjectKind =
    | Material(shaderName: Option<string>)
    | Renderer(sharedMaterials: seq<Option<string>>)
    | OtherKind

  /** A live engine object as returned by the all-instances query:
      its runtime type name, its name and the profiler's retained size. */
  datatype EngineObject = EngineObject(
    typeName: string,
    name: string,
    runtimeSize: nat,
    kind: ObjectKind)

  /** A row of the list. `annotation` is the source's `additionalData` (a
      null string when never assigned) and `highlight` its
      `additionalDataHighlight`. */
  datatype ObjectRecord = ObjectRecord(
    name: string,
    typeName: string,
    size: nat,
    originalIndex: nat,
    annotation: Option<string>,
    highlight: bool)

  /** Unity's `Renderer.sharedMaterial`: the first shared-material slot. */
  function FirstSharedMaterial(slots: seq<Option<string>>): Option<string> {
    if |slots| == 0 then None else slots[0]
  }

  /** The row built for the object at position `index` of the query result.
      Without the profiler (`ENABLE_PROFILER` undefined) the size keeps its
      default of zero. */
  function BuildRecord(o: EngineObject, index: nat, profilerEnabled: bool): (r: ObjectRecord)
    ensures r.name == o.name && r.typeName == o.typeName && r.originalIndex == index
    ensures r.size == (if profilerEnabled then o.runtimeSize else 0)
    // a material is annotated exactly when its shader is present, with the shader's name
    ensures o.kind.Material? ==> r.annotation == o.kind.shaderName && !r.highlight
    // a renderer is annotated exactly when its first shared slot holds a material,
    // and flagged exactly when, in addition, it has more than one slot
    ensures o.kind.Renderer? ==>
      && (r.annotation.Some? <==> |o.kind.sharedMaterials| > 0 && o.kind.sharedMaterials[0].Some?)
      && (r.annotation.Some? ==> r.annotation == o.kind.sharedMaterials[0])
      && (r.highlight <==> r.annotation.Some? && |o.kind.sharedMaterials| > 1)
    ensures o.kind.OtherKind? ==> r.annotation.None? && !r.highlight
  {
    var size := if profilerEnabled then o.runtimeSize else 0;
    var base := ObjectRecord(o.name, o.typeName, size, index, None, false);
    match o.kind
    case Material(shader) =>
      if shader.Some? then base.(annotation := Some(shader.value)) else base
    case Renderer(slots) =>
      var shared := FirstSharedMaterial(slots);
      if shared.Some? then base.(annotation := shared, highlight := |slots| > 1) else base
    case OtherKind => base
  }

  /** The rows built, in query order, for `objects[from..]`; the row for
      `objects[i]` carries `originalIndex == i`. */
  function BuildFrom(objects: seq<EngineObject>, from: nat, profilerEnabled: bool): (rs: seq<ObjectRecord>)
    requires from <= |objects|
    ensures |rs| == |objects| - from
    ensures forall k :: 0 <= k < |rs| ==> rs[k] == BuildRecord(objects[from + k], from + k, profilerEnabled)
    decreases |objects| - from
  {
    if from == |objects| then []
    else [BuildRecord(objects[from], from, profilerEnabled)] + BuildFrom(objects, from + 1, profilerEnabled)
  }

  /** The rows of a whole query result, before sorting. */
  function BuildRecords(objects: seq<EngineObject>, profilerEnabled: bool): (rs: seq<ObjectRecord>)
    ensures |rs| == |objects|
    ensures forall i :: 0 <= i < |rs| ==> rs[i].originalIndex == i
    ensures forall i :: 0 <= i < |rs| ==> rs[i] == BuildRecord(objects[i], i, profilerEnabled)
  {
    BuildFrom(objects, 0, profilerEnabled)
  }

  /** Sum of the retained sizes of the rows. */
  function SumSizes(rs: seq<ObjectRecord>): nat {
    if |rs| == 0 then 0 else rs[0].size + SumSizes(rs[1..])
  }

  /** Sum of the sizes the profiler would report for the objects. */
  function SumRuntimeSizes(objects: seq<EngineObject>, profilerEnabled: bool): nat {
    if |objects| == 0 || !profilerEnabled then 0
    else objects[0].runtimeSize + SumRuntimeSizes(objects[1..], profilerEnabled)
  }

  /** The total a refresh accumulates row by row is the profiler's total for
      the objects. */
  lemma {:induction false} SumBuildFrom(objects: seq<EngineObject>, from: nat, profilerEnabled: bool)
    requires from <= |objects|
    ensures SumSizes(BuildFrom(objects, from, profilerEnabled)) == SumRuntimeSizes(objects[from..], profilerEnabled)
    decreases |objects| - from
  {
    if from < |objects| {
      SumBuildFrom(objects, from + 1, profilerEnabled);
      var rs := BuildFrom(objects, from, profilerEnabled);
      assert rs[1..] == BuildFrom(objects, from + 1, profilerEnabled);
      assert objects[from..][1..] == objects[from + 1..];
    }
  }

  /** The size comparator: ascending size for direction 0, the exact mirror for
      any other direction. */
  function SortBySize(a: ObjectRecord, b: ObjectRecord, direction: int): (r: int)
    ensures -1 <= r <= 1
    ensures direction == 0 ==> (r < 0 <==> a.size < b.size) && (r > 0 <==> a.size > b.size)
    ensures direction != 0 ==> (r < 0 <==> a.size > b.size) && (r > 0 <==> a.size < b.size)
  {
    if direction == 0 then
      (if a.size < b.size then -1 else if a.size == b.size then 0 else 1)
    else
      (if b.size < a.size then -1 else if b.size == a.size then 0 else 1)
  }

  /** The name comparator: the name order for direction 0, the operands
      swapped for any other direction. */
  function SortByName(a: ObjectRecord, b: ObjectRecord, direction: int): (r: int)
    ensures -1 <= r <= 1
    ensures r == 0 <==> a.name == b.name
    ensures direction != 0 ==> r == -StringOrder.Compare(a.name, b.name)
  {
    if direction == 0 then StringOrder.Compare(a.name, b.name)
    else
      StringOrder.CompareFlip(a.name, b.name);
      StringOrder.Compare(b.name, a.name)
  }

  /** The `_sortBy` value that selects the size comparator. */
  const SizeKey := 1

  /** `SortObjectDataList`'s choice of comparator: `SizeKey` selects size,
      every other value selects name. */
  function CompareRecords(a: ObjectRecord, b: ObjectRecord, sortBy: int, direction: int): int {
    if sortBy == SizeKey then SortBySize(a, b, direction) else SortByName(a, b, direction)
  }

  /** Both comparators are antisymmetric. */
  lemma CompareRecordsFlip(a: ObjectRecord, b: ObjectRecord, sortBy: int, direction: int)
    ensures CompareRecords(a, b, sortBy, direction) == -CompareRecords(b, a, sortBy, direction)
  {
    StringOrder.CompareFlip(a.name, b.name);
  }

  /** Both comparators' "no later than" relations are transitive. */
  lemma CompareRecordsTransitive(a: ObjectRecord, b: ObjectRecord, c: ObjectRecord, sortBy: int, direction: int)
    requires CompareRecords(a, b, sortBy, direction) <= 0
    requires CompareRecords(b, c, sortBy, direction) <= 0
    ensures CompareRecords(a, c, sortBy, direction) <= 0
  {
    if sortBy != SizeKey {
      if direction == 0 {
        StringOrder.CompareTransitive(a.name, b.name, c.name);
      } else {
        StringOrder.CompareTransitive(c.name, b.name, a.name);
      }
    }
  }

  /** Any non-zero direction compares as direction 0 with the operands
      swapped: descending order is the mirror of ascending order. */
  lemma DirectionMirrors(a: ObjectRecord, b: ObjectRecord, sortBy: int, direction: int)
    requires direction != 0
    ensures CompareRecords(a, b, sortBy, direction) == CompareRecords(b, a, sortBy, 0)
  {
    StringOrder.CompareFlip(a.name, b.name);
  }
}
