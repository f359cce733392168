/** Properties of the hierarchy browser that relate several passes, or a pass
    and the render mode or glyph around it. */
module HierarchyProperties {
  import opened Optional
  import opened Hierarchy

  /** The scene list is shown exactly when the scene is EMPTY, invalid or
      unnamed, whatever the node and component fields hold; the component
      field never changes the mode. */
  lemma SceneListIgnoresDeeperLevels(f: Forest, c: Cursor, n: Option<NodeId>, k: Option<ComponentId>)
    ensures ModeOf(f, c).SceneList? <==> (c.scene == EmptyScene || c.scene !in f.scenes || f.scenes[c.scene].name == "")
    ensures ModeOf(f, c).SceneList? ==> ModeOf(f, Cursor(c.scene, n, k)).SceneList?
    ensures ModeOf(f, c.(component := k)) == ModeOf(f, c)
  {
  }

  /** A checkbox changes neither the cursor nor the mode it selects. */
  lemma CheckboxKeepsMode(f: Forest, c: Cursor, p: Press)
    requires p.IsCheckbox()
    ensures Step(f, c, p).cursor == c
    ensures ModeOf(Step(f, c, p).forest, c) == ModeOf(f, c)
  {
  }

  /** Descending into a root node shows that node. */
  lemma OpenRootShowsNode(f: Forest, c: Cursor, i: nat)
    requires WellFormed(f)
    requires ModeOf(f, c).RootList? && i < |f.scenes[c.scene].roots|
    ensures ModeOf(f, Step(f, c, OpenRoot(i)).cursor) == NodeView(f.scenes[c.scene].roots[i])
  {
  }

  /** Descending into a child shows that child. */
  lemma OpenChildShowsNode(f: Forest, c: Cursor, i: nat)
    requires WellFormed(f)
    requires ModeOf(f, c).NodeView? && i < |f.nodes[c.node.value].children|
    ensures ModeOf(f, Step(f, c, OpenChild(i)).cursor) == NodeView(f.nodes[c.node.value].children[i])
  {
  }

  /** Back from a node without a parent shows the root list; back from a node
      with a parent shows exactly that parent. */
  lemma BackFromNodeShows(f: Forest, c: Cursor)
    requires WellFormed(f)
    requires ModeOf(f, c).NodeView?
    ensures var parent := f.nodes[c.node.value].parent;
      var after := ModeOf(f, Step(f, c, BackFromNode).cursor);
      && (parent.None? ==> after == RootList)
      && (parent.Some? ==> after == NodeView(parent.value))
  {
  }

  /** Descending into a child and going back returns to the node, with the
      component cleared. */
  lemma OpenChildThenBack(f: Forest, c: Cursor, i: nat)
    requires WellFormed(f)
    requires ModeOf(f, c).NodeView? && i < |f.nodes[c.node.value].children|
    ensures var down := Step(f, c, OpenChild(i));
      Step(down.forest, down.cursor, BackFromNode).cursor == c.(component := None)
  {
  }

  /** Descending into a root node and going back returns to the root list. */
  lemma OpenRootThenBack(f: Forest, c: Cursor, i: nat)
    requires WellFormed(f)
    requires ModeOf(f, c).RootList? && i < |f.scenes[c.scene].roots|
    ensures var down := Step(f, c, OpenRoot(i));
      var up := Step(down.forest, down.cursor, BackFromNode).cursor;
      up == Cursor(c.scene, None, None) && ModeOf(f, up) == RootList
  {
  }

  /** Opening a scene that can be shown lists its roots; going back from
      there restores the start cursor. */
  lemma OpenSceneThenBack(f: Forest, c: Cursor, i: nat)
    requires ModeOf(f, c).SceneList? && i < |f.loaded| && SceneShown(f, f.loaded[i])
    ensures var entered := Step(f, c, OpenScene(i));
      && ModeOf(f, entered.cursor) == RootList
      && Step(entered.forest, entered.cursor, BackToSceneList).cursor == Start
  {
  }

  /** A root's descend glyph announces what the node view it opens offers:
      BLACKWHITE_RIGHT exactly when descending again, into the first child,
      moves the cursor, and WHITE_RIGHT exactly when there is nowhere further
      to go. */
  lemma RootDescendGlyphAnnouncesChildren(f: Forest, c: Cursor, i: nat)
    requires WellFormed(f)
    requires ModeOf(f, c).RootList? && i < |f.scenes[c.scene].roots|
    ensures var target := f.scenes[c.scene].roots[i];
      var down := Step(f, c, OpenRoot(i)).cursor;
      && target in f.nodes
      && (DescendGlyph(f, target) == BlackWhiteRight <==> Step(f, down, OpenChild(0)).cursor != down)
      && (DescendGlyph(f, target) == WhiteRight <==> Step(f, down, OpenChild(0)).cursor == down)
  {
    var target := f.scenes[c.scene].roots[i];
    OpenRootShowsNode(f, c, i);
    assert target in f.scenes[c.scene].roots;
    if |f.nodes[target].children| > 0 {
      assert f.nodes[target].children[0] in f.nodes[target].children;
    }
  }

  /** The same for a child row: its descend glyph announces whether the node
      view it opens lets the cursor descend further. */
  lemma ChildDescendGlyphAnnouncesChildren(f: Forest, c: Cursor, i: nat)
    requires WellFormed(f)
    requires ModeOf(f, c).NodeView? && i < |f.nodes[c.node.value].children|
    ensures var target := f.nodes[c.node.value].children[i];
      var down := Step(f, c, OpenChild(i)).cursor;
      && target in f.nodes
      && (DescendGlyph(f, target) == BlackWhiteRight <==> Step(f, down, OpenChild(0)).cursor != down)
      && (DescendGlyph(f, target) == WhiteRight <==> Step(f, down, OpenChild(0)).cursor == down)
  {
    var target := f.nodes[c.node.value].children[i];
    OpenChildShowsNode(f, c, i);
    assert target in f.nodes[c.node.value].children;
    if |f.nodes[target].children| > 0 {
      assert f.nodes[target].children[0] in f.nodes[target].children;
    }
  }

  /** The back glyph announces where back leads: WHITE_LEFT to the root list,
      BLACK_LEFT to the parent node. */
  lemma BackGlyphAnnouncesTarget(f: Forest, c: Cursor)
    requires WellFormed(f)
    requires ModeOf(f, c).NodeView?
    ensures var after := ModeOf(f, Step(f, c, BackFromNode).cursor);
      && (BackGlyph(f, c.node.value) == WhiteLeft <==> after == RootList)
      && (BackGlyph(f, c.node.value) == BlackLeft <==> after.NodeView?)
  {
  }

  /** A component's select button shows BLACK_RIGHT exactly when pressing it
      would change nothing, because that component is already selected. */
  lemma ComponentGlyphMarksSelection(f: Forest, c: Cursor, i: nat)
    requires ModeOf(f, c).NodeView? && i < |f.nodes[c.node.value].components|
    ensures var k := f.nodes[c.node.value].components[i];
      (ComponentGlyph(c, k) == BlackRight <==> Step(f, c, SelectComponent(i)).cursor == c)
  {
  }

  /** An activation checkbox writes only its node's `activeSelf`. */
  lemma ActivationTouchesOneNode(f: Forest, c: Cursor, i: nat)
    requires WellFormed(f)
    requires ModeOf(f, c).RootList? && i < |f.scenes[c.scene].roots|
    ensures var n := f.scenes[c.scene].roots[i];
      var g := Step(f, c, ToggleRoot(i)).forest;
      && n in g.nodes
      && g.nodes[n].activeSelf == !f.nodes[n].activeSelf
      && g.nodes[n].(activeSelf := f.nodes[n].activeSelf) == f.nodes[n]
      && (forall m :: m in f.nodes && m != n ==> g.nodes[m] == f.nodes[m])
      && g.scenes == f.scenes && g.components == f.components
  {
  }
}
