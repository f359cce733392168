/** The hierarchy browser (`DeviceHierarchy`): a three-level cursor (scene,
    node, component) over the scene graph, the render mode the cursor
    selects, and the effect of every button and checkbox of one `OnGUI` pass.

    The scene graph is an abstract forest handed in as a value: the loaded
    scenes, the persistent (DontDestroyOnLoad) pseudo-scene, each scene's root
    nodes, and each node's parent, children and components. */
module Hierarchy {
  import opened Optional

  type NodeId = nat
  type ComponentId = nat

  /** Unity's `Scene` value. `new Scene()`, the source's EMPTY_SCENE, has handle 0. */
  datatype Scene = Scene(handle: nat)
  const EmptyScene := Scene(0)

  /** Button glyphs. */
  const BlackLeft := "\U{25C0}"
  const BlackRight := "\U{25B6}"
  const WhiteLeft := "\U{25C1}"
  const WhiteRight := "\U{25B7}"
  const BlackWhiteRight := "\U{25B6}\U{25B7}"

  datatype SceneInfo = SceneInfo(name: string, roots: seq<NodeId>)

  datatype NodeInfo = NodeInfo(
    name: string,
    activeSelf: bool,
    parent: Option<NodeId>,
    children: seq<NodeId>,
    components: seq<ComponentId>)

  /** `enabled` is `Some` exactly for Behaviours and Renderers, the two kinds
      the browser draws a checkbox for. Every other component is `None` and
      shows only a label, including one such as a Collider that has an
      `enabled` of its own. */
  datatype ComponentInfo = ComponentInfo(typeName: string, enabled: Option<bool>)

  /** The scene graph. A scene is valid when it has an entry in `scenes`; a node
      or component exists when it has an entry in its map. */
  datatype Forest = Forest(
    loaded: seq<Scene>,
    persistent: Scene,
    scenes: map<Scene, SceneInfo>,
    nodes: map<NodeId, NodeInfo>,
    components: map<ComponentId, ComponentInfo>)

  /** `_currentScene`, `_currentGameObject`, `_currentComponent`. */
  datatype Cursor = Cursor(scene: Scene, node: Option<NodeId>, component: Option<ComponentId>)

  /** The cursor as first created: at the scene list. */
  const Start := Cursor(EmptyScene, None, None)

  /** A deeper level is set only when the level above it is:
      component set ==> node set ==> scene not EMPTY. */
  predicate Nested(c: Cursor) {
    && (c.component.Some? ==> c.node.Some?)
    && (c.node.Some? ==> c.scene != EmptyScene)
  }

  /** Roots exist and have no parent; children exist and name their parent;
      parents exist, and no node is its own parent. */
  ghost predicate WellFormed(f: Forest) {
    && (forall s, n :: s in f.scenes && n in f.scenes[s].roots ==> n in f.nodes && f.nodes[n].parent.None?)
    && (forall m, k :: m in f.nodes && k in f.nodes[m].children ==> k in f.nodes && f.nodes[k].parent == Some(m))
    && (forall m :: m in f.nodes && f.nodes[m].parent.Some? ==>
          f.nodes[m].parent.value in f.nodes && f.nodes[m].parent.value != m)
  }

  /** The three render modes; the component detail pane belongs to the node view. */
  datatype Mode = SceneList | RootList | NodeView(node: NodeId)

  /** A scene the browser can open: not EMPTY, valid, and named. */
  predicate SceneShown(f: Forest, s: Scene) {
    s != EmptyScene && s in f.scenes && f.scenes[s].name != ""
  }

  /** Unity's `== null` also holds for a destroyed object: a node id with no
      entry in the forest reads as null. */
  predicate NodeIsNull(f: Forest, n: Option<NodeId>) {
    n.None? || n.value !in f.nodes
  }

  /** The render mode the cursor selects. */
  function ModeOf(f: Forest, c: Cursor): Mode {
    if !SceneShown(f, c.scene) then SceneList
    else if NodeIsNull(f, c.node) then RootList
    else NodeView(c.node.value)
  }

  /** Every button and checkbox of the three list views. Indices count rows
      of the list the control sits in. */
  datatype Press =
    | OpenScene(index: nat)        // beside a loaded scene
    | OpenPersistentScene          // beside the DontDestroyOnLoad scene
    | BackToSceneList              // above the root nodes
    | ToggleRoot(index: nat)       // a root node's activation checkbox
    | OpenRoot(index: nat)         // a root node's descend button
    | BackFromNode                 // above the current node
    | ToggleCurrentNode            // the current node's activation checkbox
    | ToggleChild(index: nat)      // a child's activation checkbox
    | OpenChild(index: nat)        // a child's descend button
    | ToggleComponent(index: nat)  // a component's enabled checkbox
    | SelectComponent(index: nat)  // a component's select button
  {
    /** Checkboxes write the scene graph; buttons move the cursor. */
    predicate IsCheckbox() {
      ToggleRoot? || ToggleCurrentNode? || ToggleChild? || ToggleComponent?
    }
  }

  /** What a pass leaves behind: the scene graph and the cursor. */
  datatype Outcome = Outcome(forest: Forest, cursor: Cursor)

  /** `SetActive` on node `n` with the checkbox's flipped value. */
  function ToggleActive(f: Forest, n: NodeId): (r: Forest)
    ensures r.nodes.Keys == f.nodes.Keys
    ensures forall m :: m in f.nodes && m != n ==> r.nodes[m] == f.nodes[m]
    ensures n in f.nodes ==> r.nodes[n].activeSelf == !f.nodes[n].activeSelf
    ensures n in f.nodes ==> r.nodes[n] == f.nodes[n].(activeSelf := r.nodes[n].activeSelf)
    ensures r == f.(nodes := r.nodes)
    ensures WellFormed(f) ==> WellFormed(r)
  {
    if n in f.nodes then
      f.(nodes := f.nodes[n := f.nodes[n].(activeSelf := !f.nodes[n].activeSelf)])
    else f
  }

  /** `enabled` of component `k` set to the checkbox's flipped value. Only a
      Behaviour or a Renderer (`enabled` is `Some`) has the checkbox; any other
      component, a Collider included, has only a label, so nothing changes. */
  function ToggleEnabled(f: Forest, k: ComponentId): (r: Forest)
    ensures r.components.Keys == f.components.Keys
    ensures forall j :: j in f.components && j != k ==> r.components[j] == f.components[j]
    ensures k in f.components && f.components[k].enabled.Some? ==>
      r.components[k].enabled == Some(!f.components[k].enabled.value) &&
      r.components[k].typeName == f.components[k].typeName
    ensures k in f.components && f.components[k].enabled.None? ==> r == f
    ensures r == f.(components := r.components)
  {
    if k in f.components && f.components[k].enabled.Some? then
      var info := f.components[k];
      f.(components := f.components[k := info.(enabled := Some(!info.enabled.value))])
    else f
  }

  /** A press while the scene list is shown: only the scene rows' buttons are
      drawn, and opening any scene, the persistent one included, selects it
      and clears node and component. */
  function SceneListPress(f: Forest, c: Cursor, p: Press): (r: Outcome)
    requires ModeOf(f, c).SceneList?
    ensures r.forest == f
    ensures r.cursor == c || (r.cursor.node.None? && r.cursor.component.None?)
    ensures p.OpenScene? && p.index < |f.loaded| ==> r.cursor == Cursor(f.loaded[p.index], None, None)
    ensures p.OpenPersistentScene? ==> r.cursor == Cursor(f.persistent, None, None)
    ensures !(p.OpenScene? || p.OpenPersistentScene?) ==> r.cursor == c
    // a control not drawn here, or a row past the scene list, changes nothing
    ensures !((p.OpenScene? && p.index < |f.loaded|) || p.OpenPersistentScene?) ==> r == Outcome(f, c)
  {
    match p
    case OpenScene(i) => if i < |f.loaded| then Outcome(f, Cursor(f.loaded[i], None, None)) else Outcome(f, c)
    case OpenPersistentScene => Outcome(f, Cursor(f.persistent, None, None))
    case _ => Outcome(f, c)
  }

  /** A press while a scene's root nodes are listed: back to the scene list
      clears all three levels; descending into a root selects it, clears the
      component and keeps the scene; a checkbox flips that root's activation. */
  function RootListPress(f: Forest, c: Cursor, p: Press): (r: Outcome)
    requires ModeOf(f, c).RootList?
    ensures p.IsCheckbox() ==> r.cursor == c
    ensures !p.IsCheckbox() ==> r.forest == f
    ensures WellFormed(f) ==> WellFormed(r.forest)
    ensures r.cursor == c || r.cursor == Start ||
            (r.cursor.scene == c.scene && r.cursor.node.Some? && r.cursor.component.None?)
    ensures p.BackToSceneList? ==> r.cursor == Start
    ensures p.OpenRoot? && p.index < |f.scenes[c.scene].roots| ==>
      r.cursor == Cursor(c.scene, Some(f.scenes[c.scene].roots[p.index]), None)
    ensures p.ToggleRoot? && p.index < |f.scenes[c.scene].roots| ==>
      r.forest == ToggleActive(f, f.scenes[c.scene].roots[p.index])
    ensures !(p.BackToSceneList? || p.OpenRoot?) ==> r.cursor == c
    // a control not drawn here, or a row past the root list, changes nothing
    ensures !(p.BackToSceneList? || ((p.ToggleRoot? || p.OpenRoot?) && p.index < |f.scenes[c.scene].roots|)) ==>
      r == Outcome(f, c)
  {
    var roots := f.scenes[c.scene].roots;
    match p
    case BackToSceneList => Outcome(f, Cursor(EmptyScene, None, None))
    case ToggleRoot(i) => if i < |roots| then Outcome(ToggleActive(f, roots[i]), c) else Outcome(f, c)
    case OpenRoot(i) => if i < |roots| then Outcome(f, c.(node := Some(roots[i]), component := None)) else Outcome(f, c)
    case _ => Outcome(f, c)
  }

  /** The controls the node view draws for a node: back, the node's own
      checkbox, and the checkbox and descend button of each child and the
      checkbox and select button of each component. */
  predicate DrawnInNodeView(info: NodeInfo, p: Press) {
    || p.BackFromNode? || p.ToggleCurrentNode?
    || ((p.ToggleChild? || p.OpenChild?) && p.index < |info.children|)
    || ((p.ToggleComponent? || p.SelectComponent?) && p.index < |info.components|)
  }

  /** A press while a node is shown: back moves to exactly the node's parent,
      or clears the node when it has none; descending into a child selects it;
      both clear the component and keep the scene. Selecting a component
      changes the component only. Checkboxes flip one flag. */
  function NodeViewPress(f: Forest, c: Cursor, p: Press): (r: Outcome)
    requires ModeOf(f, c).NodeView?
    ensures p.IsCheckbox() ==> r.cursor == c
    ensures !p.IsCheckbox() ==> r.forest == f
    ensures r.cursor.scene == c.scene
    ensures r.cursor == c || r.cursor.component.None? ||
            (r.cursor.node == c.node && r.cursor.component.value in f.nodes[c.node.value].components && p.SelectComponent?)
    ensures p.BackFromNode? ==> r.cursor == Cursor(c.scene, f.nodes[c.node.value].parent, None)
    ensures p.OpenChild? && p.index < |f.nodes[c.node.value].children| ==>
      r.cursor == Cursor(c.scene, Some(f.nodes[c.node.value].children[p.index]), None)
    ensures p.SelectComponent? && p.index < |f.nodes[c.node.value].components| ==>
      r.cursor == c.(component := Some(f.nodes[c.node.value].components[p.index]))
    ensures p.ToggleCurrentNode? ==> r.forest == ToggleActive(f, c.node.value)
    ensures p.ToggleChild? && p.index < |f.nodes[c.node.value].children| ==>
      r.forest == ToggleActive(f, f.nodes[c.node.value].children[p.index])
    ensures p.ToggleComponent? && p.index < |f.nodes[c.node.value].components| ==>
      r.forest == ToggleEnabled(f, f.nodes[c.node.value].components[p.index])
    // a control not drawn here, or a row past its list, changes nothing
    ensures !DrawnInNodeView(f.nodes[c.node.value], p) ==> r == Outcome(f, c)
    ensures WellFormed(f) ==> WellFormed(r.forest)
  {
    var n := c.node.value;
    var info := f.nodes[n];
    match p
    case BackFromNode => Outcome(f, c.(node := info.parent, component := None))
    case ToggleCurrentNode => Outcome(ToggleActive(f, n), c)
    case ToggleChild(i) => if i < |info.children| then Outcome(ToggleActive(f, info.children[i]), c) else Outcome(f, c)
    case OpenChild(i) =>
      if i < |info.children| then Outcome(f, c.(node := Some(info.children[i]), component := None)) else Outcome(f, c)
    case ToggleComponent(i) =>
      if i < |info.components| then Outcome(ToggleEnabled(f, info.components[i]), c) else Outcome(f, c)
    case SelectComponent(i) =>
      if i < |info.components| then Outcome(f, c.(component := Some(info.components[i]))) else Outcome(f, c)
    case _ => Outcome(f, c)
  }

  /** One pass of the shown browser handling press `p`, dispatched on the
      render mode. A control that is not drawn in the current mode, or a row
      index past its list, changes nothing. */
  function Step(f: Forest, c: Cursor, p: Press): (r: Outcome)
    // checkboxes leave the cursor alone; buttons leave the scene graph alone
    ensures p.IsCheckbox() ==> r.cursor == c
    ensures !p.IsCheckbox() ==> r.forest == f
    ensures WellFormed(f) ==> WellFormed(r.forest)
    // every press keeps the nesting invariant
    ensures Nested(c) ==> Nested(r.cursor)
    // the scene changes only from the scene list, or by going back to it
    ensures r.cursor.scene != c.scene ==>
      ModeOf(f, c).SceneList? || (ModeOf(f, c).RootList? && p.BackToSceneList? && r.cursor == Start)
    // a new node is chosen only under a shown scene, and the scene stays
    ensures r.cursor.node.Some? && r.cursor.node != c.node ==> !ModeOf(f, c).SceneList? && r.cursor.scene == c.scene
    // a new component is chosen only in the node view, and scene and node stay
    ensures r.cursor.component.Some? && r.cursor.component != c.component ==>
      ModeOf(f, c).NodeView? && p.SelectComponent? && r.cursor.scene == c.scene && r.cursor.node == c.node &&
      r.cursor.component.value in f.nodes[c.node.value].components
  {
    match ModeOf(f, c)
    case SceneList => SceneListPress(f, c, p)
    case RootList => RootListPress(f, c, p)
    case NodeView(_) => NodeViewPress(f, c, p)
  }

  /** One `OnGUI` pass: a hidden browser returns at once. */
  function OnGui(f: Forest, c: Cursor, show: bool, p: Press): (r: Outcome)
    ensures !show ==> r == Outcome(f, c)
    ensures show ==> r == Step(f, c, p)
    ensures Nested(c) ==> Nested(r.cursor)
  {
    if show then Step(f, c, p) else Outcome(f, c)
  }

  /** Passes one after another, the scene graph carried along. */
  function Run(f: Forest, c: Cursor, presses: seq<Press>): Outcome
    decreases |presses|
  {
    if |presses| == 0 then Outcome(f, c)
    else
      var next := Step(f, c, presses[0]);
      Run(next.forest, next.cursor, presses[1..])
  }

  /** From the start cursor, no sequence of presses breaks the nesting
      invariant or the forest's shape. */
  lemma {:induction false} RunPreservesNesting(f: Forest, c: Cursor, presses: seq<Press>)
    requires Nested(c) && WellFormed(f)
    ensures Nested(Run(f, c, presses).cursor) && WellFormed(Run(f, c, presses).forest)
    decreases |presses|
  {
    if |presses| > 0 {
      var next := Step(f, c, presses[0]);
      RunPreservesNesting(next.forest, next.cursor, presses[1..]);
    }
  }

  /** The glyph on a node's descend button. */
  function DescendGlyph(f: Forest, n: NodeId): string
    requires n in f.nodes
  {
    if |f.nodes[n].children| > 0 then BlackWhiteRight else WhiteRight
  }

  /** The glyph on the back button above node `n`. */
  function BackGlyph(f: Forest, n: NodeId): string
    requires n in f.nodes
  {
    if f.nodes[n].parent.None? then WhiteLeft else BlackLeft
  }

  /** The glyph on a component's select button. */
  function ComponentGlyph(c: Cursor, k: ComponentId): string {
    if c.component == Some(k) then BlackRight else WhiteRight
  }
}
