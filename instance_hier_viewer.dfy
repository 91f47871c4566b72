/**
 * The instance hierarchy viewer of the terminal front end
 * (oombak_tui/src/components/instance_hier_viewer.rs): the loaded design's
 * instance tree, with a path for every instance and signal, shown as a
 * list in which instances expand and collapse and signals are marked for
 * adding to or removing from the probed set.
 *
 * The source shares its tree nodes between the tree and the list
 * (reference-counted, lock-protected nodes) and changes them in place
 * through the list. Here the tree is a value and a list item names its
 * node by the child indices that lead to it from the root.
 */
module InstanceHierViewers {
  import opened Wrappers
  import LegacyParser
  import SimDut
  import KeyMaps
  import Selectors
  import DropDowns

  datatype Marker = NotMarked | MarkedForAdd | MarkedForRemove

  datatype HierLeaf = HierLeaf(path: string, signal: LegacyParser.Signal, isAdded: bool, marker: Marker)

  datatype HierNode = HierNode(
    path: string,
    moduleName: string,
    children: seq<HierNode>,
    leaves: seq<HierLeaf>,
    isExpanded: bool)

  /** A list entry: the instance at an address, or one of its signals. */
  datatype HierItem = Instance(at: seq<nat>) | Signal(at: seq<nat>, leaf: nat)

  /** The path of a name under its parent: the name alone under the empty path. */
  function JoinPath(parentPath: string, name: string): string {
    if parentPath == "" then name else parentPath + "." + name
  }

  /** InstanceHierLeaf::new: its path, added when the path is probed, unmarked. */
  function NewLeaf(signal: LegacyParser.Signal, parentPath: string, probed: set<string>): HierLeaf {
    var path := JoinPath(parentPath, signal.name);
    HierLeaf(path, signal, path in probed, NotMarked)
  }

  /** InstanceHierNode::new: a collapsed node over the instance's children and signals. */
  function NewNode(instance: LegacyParser.InstanceNode, parentPath: string, probed: set<string>): HierNode
    decreases instance
  {
    var path := JoinPath(parentPath, instance.name);
    HierNode(
      path,
      instance.moduleName,
      seq(|instance.children|, i requires 0 <= i < |instance.children| => NewNode(instance.children[i], path, probed)),
      seq(|instance.signals|, j requires 0 <= j < |instance.signals| => NewLeaf(instance.signals[j], path, probed)),
      false)
  }

  /**
   * Paths join with a dot below a non-empty parent; a new node is
   * collapsed, its children and leaves are built in order under its path,
   * and a leaf is added exactly when its path is probed, and starts
   * unmarked.
   */
  lemma {:induction false} NewNodeSpec(instance: LegacyParser.InstanceNode, parentPath: string, probed: set<string>)
    ensures var n := NewNode(instance, parentPath, probed);
      && n.path == (if parentPath == "" then instance.name else parentPath + "." + instance.name)
      && n.moduleName == instance.moduleName && !n.isExpanded
      && |n.children| == |instance.children| && |n.leaves| == |instance.signals|
      && (forall i :: 0 <= i < |n.children| ==> n.children[i] == NewNode(instance.children[i], n.path, probed))
      && (forall j :: 0 <= j < |n.leaves| ==>
            && n.leaves[j].path == JoinPath(n.path, instance.signals[j].name)
            && n.leaves[j].signal == instance.signals[j]
            && (n.leaves[j].isAdded <==> n.leaves[j].path in probed)
            && n.leaves[j].marker == NotMarked)
  {
  }

  /** The root, built under the empty path, has the root instance's name as its path. */
  lemma {:induction false} RootPath(instance: LegacyParser.InstanceNode, probed: set<string>)
    ensures NewNode(instance, "", probed).path == instance.name
    ensures instance.name != "" ==> forall i :: 0 <= i < |instance.children| ==>
      NewNode(instance, "", probed).children[i].path == instance.name + "." + instance.children[i].name
  {
  }

  /** The node at an address, if the address leads to one. */
  function NodeAt(node: HierNode, at: seq<nat>): Option<HierNode>
    decreases |at|
  {
    if at == [] then Some(node)
    else if at[0] < |node.children| then NodeAt(node.children[at[0]], at[1..])
    else None
  }

  /** The item names a node of the tree, and for a signal one of that node's leaves. */
  predicate ItemValid(root: HierNode, item: HierItem) {
    && NodeAt(root, item.at).Some?
    && (item.Signal? ==> item.leaf < |NodeAt(root, item.at).value.leaves|)
  }

  /** The same item, addressed from `n` levels further down. */
  function Below(item: HierItem, n: nat): HierItem
    requires n <= |item.at|
  {
    match item
    case Instance(at) => Instance(at[n..])
    case Signal(at, leaf) => Signal(at[n..], leaf)
  }

  function LeafItems(at: seq<nat>, n: nat): (items: seq<HierItem>)
    ensures |items| == n && forall j :: 0 <= j < n ==> items[j] == Signal(at, j)
  {
    seq(n, j requires 0 <= j < n => Signal(at, j))
  }

  /**
   * The list entries of a node addressed `at`: the node, then, if it is
   * expanded, its leaves in order and each child's entries in order.
   */
  function Flatten(node: HierNode, at: seq<nat>): seq<HierItem>
    decreases node, 1, 0
  {
    [Instance(at)]
      + if node.isExpanded then LeafItems(at, |node.leaves|) + ChildItems(node, at, |node.children|) else []
  }

  /** The entries of the node's first n children. */
  function ChildItems(node: HierNode, at: seq<nat>, n: nat): seq<HierItem>
    requires n <= |node.children|
    decreases node, 0, n
  {
    if n == 0 then [] else ChildItems(node, at, n - 1) + Flatten(node.children[n - 1], at + [n - 1])
  }

  /**
   * traverse_hier_node: appends the node's entries, then, if it is
   * expanded, one entry per leaf and each child's entries.
   */
  method Traverse(node: HierNode, at: seq<nat>, items: seq<HierItem>) returns (r: seq<HierItem>)
    ensures r == items + Flatten(node, at)
    decreases node
  {
    r := items + [Instance(at)];
    if node.isExpanded {
      for j := 0 to |node.leaves|
        invariant r == items + [Instance(at)] + LeafItems(at, j)
      {
        r := r + [Signal(at, j)];
      }
      for i := 0 to |node.children|
        invariant r == items + [Instance(at)] + LeafItems(at, |node.leaves|) + ChildItems(node, at, i)
      {
        r := Traverse(node.children[i], at + [i], r);
      }
    }
  }

  /**
   * A node comes first in its entries; a collapsed node is its one entry;
   * an expanded node's leaves follow it in order.
   */
  lemma {:induction false} FlattenShape(node: HierNode, at: seq<nat>)
    ensures Flatten(node, at)[0] == Instance(at)
    ensures !node.isExpanded ==> Flatten(node, at) == [Instance(at)]
    ensures node.isExpanded ==>
      && |Flatten(node, at)| >= 1 + |node.leaves|
      && forall j :: 0 <= j < |node.leaves| ==> Flatten(node, at)[1 + j] == Signal(at, j)
  {
  }

  /**
   * Every entry of a node addressed `at` lies under `at` and, read from
   * there, names a node (and leaf) of that node's subtree.
   */
  lemma {:induction false} FlattenValid(node: HierNode, at: seq<nat>)
    ensures forall item | item in Flatten(node, at) ::
      |at| <= |item.at| && item.at[..|at|] == at && ItemValid(node, Below(item, |at|))
    decreases node, 1, 0
  {
    ChildItemsValid(node, at, |node.children|);
    forall item | item in Flatten(node, at)
      ensures |at| <= |item.at| && item.at[..|at|] == at && ItemValid(node, Below(item, |at|))
    {
      if item in LeafItems(at, |node.leaves|) {
        assert item.at == at && item.Signal?;
        assert Below(item, |at|).at == [];
      } else if item == Instance(at) {
        assert Below(item, |at|).at == [];
      }
    }
  }

  lemma {:induction false} ChildItemsValid(node: HierNode, at: seq<nat>, n: nat)
    requires n <= |node.children|
    ensures forall item | item in ChildItems(node, at, n) ::
      |at| <= |item.at| && item.at[..|at|] == at && ItemValid(node, Below(item, |at|))
    decreases node, 0, n
  {
    if n > 0 {
      var before, last := ChildItems(node, at, n - 1), Flatten(node.children[n - 1], at + [n - 1]);
      assert ChildItems(node, at, n) == before + last;
      ChildItemsValid(node, at, n - 1);
      FlattenValid(node.children[n - 1], at + [n - 1]);
      forall item: HierItem | item in before + last
        ensures |at| <= |item.at| && item.at[..|at|] == at && ItemValid(node, Below(item, |at|))
      {
        if item !in before {
          ChildStep(node, at, n - 1, item);
        }
      }
    }
  }

  /** One level down: an item valid below child i is valid below its parent. */
  lemma {:induction false} ChildStep(node: HierNode, at: seq<nat>, i: nat, item: HierItem)
    requires i < |node.children|
    requires |at + [i]| <= |item.at| && item.at[..|at + [i]|] == at + [i]
    requires ItemValid(node.children[i], Below(item, |at + [i]|))
    ensures |at| <= |item.at| && item.at[..|at|] == at && ItemValid(node, Below(item, |at|))
  {
    var rel := item.at[|at|..];
    assert item.at[..|at|] == (item.at[..|at| + 1])[..|at|];
    assert rel[0] == i;
    assert rel[1..] == item.at[|at| + 1..];
    assert NodeAt(node, rel) == NodeAt(node.children[i], rel[1..]);
  }

  /** Every entry of the root's list names a node, and a signal entry one of its leaves. */
  lemma {:induction false} RootItemsValid(root: HierNode)
    ensures forall item | item in Flatten(root, []) :: ItemValid(root, item)
  {
    FlattenValid(root, []);
    forall item | item in Flatten(root, [])
      ensures ItemValid(root, item)
    {
      assert item.at[0..] == item.at;
      assert Below(item, 0) == item;
    }
  }

  /** The tree with the node at `at` expanded or collapsed. */
  function ToggleAt(node: HierNode, at: seq<nat>): HierNode
    decreases |at|
  {
    if at == [] then node.(isExpanded := !node.isExpanded)
    else if at[0] < |node.children| then
      node.(children := node.children[at[0] := ToggleAt(node.children[at[0]], at[1..])])
    else node
  }

  /** The tree with leaf j of the node at `at` replaced. */
  function SetLeafAt(node: HierNode, at: seq<nat>, j: nat, leaf: HierLeaf): HierNode
    decreases |at|
  {
    if at == [] then
      if j < |node.leaves| then node.(leaves := node.leaves[j := leaf]) else node
    else if at[0] < |node.children| then
      node.(children := node.children[at[0] := SetLeafAt(node.children[at[0]], at[1..], j, leaf)])
    else node
  }

  /** Two trees with the same children and leaves counts all the way down. */
  predicate SameShape(a: HierNode, b: HierNode)
    decreases a
  {
    && |a.children| == |b.children| && |a.leaves| == |b.leaves|
    && forall i :: 0 <= i < |a.children| ==> SameShape(a.children[i], b.children[i])
  }

  lemma {:induction false} SameShapeItems(a: HierNode, b: HierNode, item: HierItem)
    requires SameShape(a, b)
    ensures ItemValid(a, item) <==> ItemValid(b, item)
    decreases |item.at|
  {
    if item.at != [] && item.at[0] < |a.children| {
      var i := item.at[0];
      var rest := match item case Instance(at) => Instance(at[1..]) case Signal(at, leaf) => Signal(at[1..], leaf);
      SameShapeItems(a.children[i], b.children[i], rest);
    }
  }

  /**
   * Toggling the node at a valid address flips its flag and nothing else
   * of it; toggling twice restores the tree; the tree keeps its shape.
   */
  lemma {:induction false} ToggleSpec(node: HierNode, at: seq<nat>)
    ensures SameShape(node, ToggleAt(node, at)) && ToggleAt(ToggleAt(node, at), at) == node
    ensures NodeAt(node, at).Some? ==>
      NodeAt(ToggleAt(node, at), at) == Some(NodeAt(node, at).value.(isExpanded := !NodeAt(node, at).value.isExpanded))
    decreases |at|
  {
    SameShapeRefl(node);
    if at != [] && at[0] < |node.children| {
      ToggleSpec(node.children[at[0]], at[1..]);
      forall i | 0 <= i < |node.children| && i != at[0]
        ensures SameShape(node.children[i], ToggleAt(node, at).children[i])
      {
      }
    }
  }

  /**
   * Replacing a leaf at a valid address replaces exactly that leaf, and
   * the tree keeps its shape.
   */
  lemma {:induction false} SetLeafSpec(node: HierNode, at: seq<nat>, j: nat, leaf: HierLeaf)
    ensures SameShape(node, SetLeafAt(node, at, j, leaf))
    ensures ItemValid(node, Signal(at, j)) ==>
      NodeAt(SetLeafAt(node, at, j, leaf), at) == Some(NodeAt(node, at).value.(leaves := NodeAt(node, at).value.leaves[j := leaf]))
    decreases |at|
  {
    SameShapeRefl(node);
    if at != [] && at[0] < |node.children| {
      SetLeafSpec(node.children[at[0]], at[1..], j, leaf);
      forall i | 0 <= i < |node.children| && i != at[0]
        ensures SameShape(node.children[i], SetLeafAt(node, at, j, leaf).children[i])
      {
      }
    }
  }

  lemma {:induction false} SameShapeRefl(node: HierNode)
    ensures SameShape(node, node)
    decreases node
  {
    forall i | 0 <= i < |node.children|
      ensures SameShape(node.children[i], node.children[i])
    {
      SameShapeRefl(node.children[i]);
    }
  }

  /**
   * Acting on a signal: an unmarked added signal is marked for removal and
   * its path joins the removal set; an unmarked signal not added is marked
   * for adding and its path joins the adding set; a marked signal is
   * unmarked and its path leaves that set.
   */
  function MarkerStep(leaf: HierLeaf, toAdd: set<string>, toRemove: set<string>): (HierLeaf, set<string>, set<string>) {
    match leaf.marker
    case NotMarked =>
      if leaf.isAdded then (leaf.(marker := MarkedForRemove), toAdd, toRemove + {leaf.path})
      else (leaf.(marker := MarkedForAdd), toAdd + {leaf.path}, toRemove)
    case MarkedForAdd => (leaf.(marker := NotMarked), toAdd - {leaf.path}, toRemove)
    case MarkedForRemove => (leaf.(marker := NotMarked), toAdd, toRemove - {leaf.path})
  }

  /**
   * The sets agree with the leaf's marker: its path is in a set exactly
   * when it is so marked, and only a signal not added is marked for adding,
   * only an added one for removal.
   */
  predicate MarkerAgrees(leaf: HierLeaf, toAdd: set<string>, toRemove: set<string>) {
    && (leaf.marker == MarkedForAdd ==> !leaf.isAdded)
    && (leaf.marker == MarkedForRemove ==> leaf.isAdded)
    && (leaf.path in toAdd <==> leaf.marker == MarkedForAdd)
    && (leaf.path in toRemove <==> leaf.marker == MarkedForRemove)
  }

  /**
   * A step changes only the marker and the leaf's own path in the sets,
   * keeps the sets agreeing with the marker, and acting twice restores the
   * leaf and both sets. An added signal can only be marked for removal and
   * one not added only for adding.
   */
  lemma {:induction false} MarkerStepSpec(leaf: HierLeaf, toAdd: set<string>, toRemove: set<string>)
    ensures var (l, a, r) := MarkerStep(leaf, toAdd, toRemove);
      && l == leaf.(marker := l.marker)
      && (leaf.marker == NotMarked && leaf.isAdded ==> l.marker == MarkedForRemove && a == toAdd && r == toRemove + {leaf.path})
      && (leaf.marker == NotMarked && !leaf.isAdded ==> l.marker == MarkedForAdd && a == toAdd + {leaf.path} && r == toRemove)
      && (leaf.marker == MarkedForAdd ==> l.marker == NotMarked && a == toAdd - {leaf.path} && r == toRemove)
      && (leaf.marker == MarkedForRemove ==> l.marker == NotMarked && a == toAdd && r == toRemove - {leaf.path})
      && (MarkerAgrees(leaf, toAdd, toRemove) ==> MarkerAgrees(l, a, r))
    ensures MarkerAgrees(leaf, toAdd, toRemove) ==>
      var (l, a, r) := MarkerStep(leaf, toAdd, toRemove);
      MarkerStep(l, a, r) == (leaf, toAdd, toRemove)
    ensures MarkerStep(leaf, toAdd, toRemove).0.marker != MarkedForAdd || !leaf.isAdded
    ensures MarkerStep(leaf, toAdd, toRemove).0.marker != MarkedForRemove || leaf.isAdded
  {
    if MarkerAgrees(leaf, toAdd, toRemove) {
      var p := leaf.path;
      if p in toAdd {
        assert toAdd - {p} + {p} == toAdd;
      } else {
        assert toAdd + {p} - {p} == toAdd;
      }
      if p in toRemove {
        assert toRemove - {p} + {p} == toRemove;
      } else {
        assert toRemove + {p} - {p} == toRemove;
      }
    }
  }

  /** The viewer's state. The list widget's selection only serves drawing. */
  datatype HierView = HierView(
    root: Option<HierNode>,
    probed: set<string>,
    items: seq<HierItem>,
    selected: Option<nat>,
    toAdd: set<string>,
    toRemove: set<string>)

  function NewView(): HierView {
    HierView(None, {}, [], None, {}, {})
  }

  /**
   * set_loaded_dut: the probed points become the probed set, the tree is
   * built from the design's root under the empty path, and the first entry
   * is selected. The list is not rebuilt until the next render.
   */
  function SetLoadedDut(v: HierView, dut: SimDut.LoadedDut): HierView {
    var probed := set p | p in dut.probedPoints;
    v.(probed := probed, root := Some(NewNode(dut.root, "", probed)), selected := Some(0))
  }

  /** What render keeps of the tree: the list of its entries, when there is a tree. */
  function Render(v: HierView): HierView {
    if v.root.Some? then v.(items := Flatten(v.root.value, [])) else v
  }

  /**
   * Acting on the selection indexes the list with it, and the entry it
   * finds must still name a node of the current tree (an entry listed
   * before a new design was loaded names a node of the old one).
   */
  predicate CanAct(v: HierView) {
    v.selected.Some? ==>
      && v.selected.value < |v.items| && v.root.Some?
      && ItemValid(v.root.value, v.items[v.selected.value])
  }

  /**
   * perform_action_on_selected: an instance is expanded or collapsed; a
   * signal takes its marker step; without a selection nothing changes.
   */
  function PerformAction(v: HierView): HierView
    requires CanAct(v)
  {
    if v.selected.None? then v
    else
      var root := v.root.value;
      match v.items[v.selected.value]
      case Instance(at) => v.(root := Some(ToggleAt(root, at)))
      case Signal(at, j) =>
        var (leaf, toAdd, toRemove) := MarkerStep(NodeAt(root, at).value.leaves[j], v.toAdd, v.toRemove);
        v.(root := Some(SetLeafAt(root, at, j, leaf)), toAdd := toAdd, toRemove := toRemove)
  }

  /** scroll_down computes the last entry as the count minus one, an underflow for an empty list. */
  predicate CanScrollDown(v: HierView) {
    v.selected.Some? ==> v.items != []
  }

  /** scroll_down: the next entry, saturating at usize::MAX and clamped to the last entry. */
  function ScrollDown(v: HierView): HierView
    requires CanScrollDown(v)
  {
    match v.selected
    case None => v
    case Some(idx) =>
      var next := DropDowns.SelectNext(Some(idx));
      var last := |v.items| - 1;
      v.(selected := Some(if last <= next then last else next))
  }

  /** scroll_up: the previous entry, stopping at 0. */
  function ScrollUp(v: HierView): HierView {
    match v.selected
    case None => v
    case Some(idx) => v.(selected := Some(if idx >= 1 then idx - 1 else 0))
  }

  /** clear_marked_signals: both pending sets emptied. */
  function ClearMarked(v: HierView): HierView {
    v.(toAdd := {}, toRemove := {})
  }

  /** The keys the viewer reacts to have their preconditions met. */
  predicate CanHandle(v: HierView, code: KeyMaps.KeyCode) {
    && (code == KeyMaps.Enter ==> CanAct(v))
    && (code == KeyMaps.Down || code == KeyMaps.Char('j') ==> CanScrollDown(v))
  }

  /**
   * handle_key_event: q sends the pending sets, clears them and gives the
   * focus back; Enter acts on the selection; down/j and up/k move it;
   * every key but q is handled.
   */
  function HandleKey(v: HierView, code: KeyMaps.KeyCode): (Selectors.HandleResult, HierView)
    requires CanHandle(v, code)
  {
    if code == KeyMaps.Char('q') then (Selectors.ReleaseFocus, ClearMarked(v))
    else if code == KeyMaps.Enter then (Selectors.Handled, PerformAction(v))
    else if code == KeyMaps.Down || code == KeyMaps.Char('j') then (Selectors.Handled, ScrollDown(v))
    else if code == KeyMaps.Up || code == KeyMaps.Char('k') then (Selectors.Handled, ScrollUp(v))
    else (Selectors.Handled, v)
  }

  /**
   * Loading a design gives a collapsed root whose path is the root
   * instance's name, selects the first entry, and after a render the list
   * is that root alone, which the selection names.
   */
  lemma {:induction false} SetLoadedDutSpec(v: HierView, dut: SimDut.LoadedDut)
    ensures var r := SetLoadedDut(v, dut);
      && r.root.Some? && r.root.value.path == dut.root.name && !r.root.value.isExpanded
      && (forall p :: p in r.probed <==> p in dut.probedPoints)
      && r.selected == Some(0) && r.toAdd == v.toAdd && r.toRemove == v.toRemove
      && Render(r).items == [Instance([])] && CanAct(Render(r)) && CanScrollDown(Render(r))
  {
  }

  /**
   * After a render every entry of the list names a node of the tree, so
   * acting on any selected entry is defined.
   */
  lemma {:induction false} RenderSpec(v: HierView)
    requires v.root.Some?
    ensures Render(v).items == Flatten(v.root.value, [])
    ensures forall k :: 0 <= k < |Render(v).items| ==> ItemValid(v.root.value, Render(v).items[k])
    ensures v.selected.Some? && v.selected.value < |Render(v).items| ==> CanAct(Render(v))
  {
    RootItemsValid(v.root.value);
  }

  /**
   * Acting on an instance entry toggles only that node's flag and leaves
   * the sets alone; acting on a signal entry takes its marker step and
   * changes only that leaf and the sets. The tree keeps its shape, so the
   * list still names its nodes, and acting on the same entry again
   * restores the tree and, when the sets agreed with the leaf, the sets.
   */
  lemma {:induction false} PerformActionSpec(v: HierView)
    requires CanAct(v) && v.selected.Some?
    ensures var r := PerformAction(v);
      var item := v.items[v.selected.value];
      && r.items == v.items && r.selected == v.selected && r.probed == v.probed && CanAct(r)
      && (item.Instance? ==>
            && r.toAdd == v.toAdd && r.toRemove == v.toRemove
            && NodeAt(r.root.value, item.at) == Some(NodeAt(v.root.value, item.at).value.(isExpanded := !NodeAt(v.root.value, item.at).value.isExpanded))
            && PerformAction(r) == v)
      && (item.Signal? ==>
            var before := NodeAt(v.root.value, item.at).value;
            var step := MarkerStep(before.leaves[item.leaf], v.toAdd, v.toRemove);
            && r.toAdd == step.1 && r.toRemove == step.2
            && NodeAt(r.root.value, item.at) == Some(before.(leaves := before.leaves[item.leaf := step.0]))
            && (MarkerAgrees(before.leaves[item.leaf], v.toAdd, v.toRemove) ==> PerformAction(r) == v))
  {
    var item := v.items[v.selected.value];
    var root := v.root.value;
    var r := PerformAction(v);
    match item
    case Instance(at) =>
      ToggleSpec(root, at);
      SameShapeItems(root, ToggleAt(root, at), item);
      ToggleSpec(ToggleAt(root, at), at);
    case Signal(at, j) =>
      var prior := NodeAt(root, at).value;
      var step := MarkerStep(prior.leaves[j], v.toAdd, v.toRemove);
      var root' := SetLeafAt(root, at, j, step.0);
      SetLeafSpec(root, at, j, step.0);
      SameShapeItems(root, root', item);
      if MarkerAgrees(prior.leaves[j], v.toAdd, v.toRemove) {
        MarkerStepSpec(prior.leaves[j], v.toAdd, v.toRemove);
        var back := MarkerStep(step.0, step.1, step.2);
        assert back == (prior.leaves[j], v.toAdd, v.toRemove);
        SetLeafSpec(root', at, j, prior.leaves[j]);
        SetLeafRestores(root, at, j, step.0);
      }
  }

  /** Putting a leaf's old value back undoes replacing it. */
  lemma {:induction false} SetLeafRestores(node: HierNode, at: seq<nat>, j: nat, leaf: HierLeaf)
    requires ItemValid(node, Signal(at, j))
    ensures SetLeafAt(SetLeafAt(node, at, j, leaf), at, j, NodeAt(node, at).value.leaves[j]) == node
    decreases |at|
  {
    if at != [] {
      SetLeafRestores(node.children[at[0]], at[1..], j, leaf);
    }
  }

  /**
   * scroll_down moves to the next entry and stops at the last; scroll_up
   * moves to the previous entry and stops at the first; both do nothing
   * without a selection, and keep a selection that names an entry naming
   * one (a vector holds at most usize::MAX entries).
   */
  lemma {:induction false} ScrollSpec(v: HierView)
    requires CanScrollDown(v) && |v.items| <= DropDowns.UsizeMax
    requires v.selected.Some? ==> v.selected.value < |v.items|
    ensures v.selected.None? ==> ScrollDown(v) == v && ScrollUp(v) == v
    ensures v.selected.Some? ==>
      var idx := v.selected.value;
      && ScrollDown(v).selected == Some(if idx + 1 < |v.items| then idx + 1 else idx)
      && ScrollUp(v).selected == Some(if idx >= 1 then idx - 1 else 0)
      && ScrollDown(v).selected.value < |v.items| && ScrollUp(v).selected.value < |v.items|
    ensures ScrollDown(v).items == v.items && ScrollUp(v).root == v.root
  {
  }

  /**
   * q gives the focus back with both pending sets emptied, the tree, list
   * and selection unchanged; every other key is handled.
   */
  lemma {:induction false} QuitSpec(v: HierView, code: KeyMaps.KeyCode)
    requires CanHandle(v, code)
    ensures HandleKey(v, KeyMaps.Char('q')) == (Selectors.ReleaseFocus, v.(toAdd := {}, toRemove := {}))
    ensures code != KeyMaps.Char('q') ==> HandleKey(v, code).0 == Selectors.Handled
    ensures HandleKey(v, KeyMaps.Char('x')) == (Selectors.Handled, v)
  {
  }

  /** The members of a set listed once each, in an unspecified order. */
  method ListOf(s: set<string>) returns (xs: seq<string>)
    ensures |xs| == |s| && (forall x :: x in xs <==> x in s)
    ensures forall a, b :: 0 <= a < b < |xs| ==> xs[a] != xs[b]
  {
    xs := [];
    var rest := s;
    while rest != {}
      invariant rest <= s && forall x :: x in xs <==> x in s && x !in rest
      invariant |xs| + |rest| == |s|
      invariant forall a, b :: 0 <= a < b < |xs| ==> xs[a] != xs[b]
      decreases |rest|
    {
      var x :| x in rest;
      xs := xs + [x];
      rest := rest - {x};
    }
  }

  /** The viewer component's state object. */
  class InstanceHierViewer {
    var root: Option<HierNode>
    var probed: set<string>
    var items: seq<HierItem>
    var selected: Option<nat>
    var toAdd: set<string>
    var toRemove: set<string>

    function Model(): HierView
      reads this
    {
      HierView(root, probed, items, selected, toAdd, toRemove)
    }

    constructor()
      ensures Model() == NewView()
    {
      root := None;
      probed := {};
      items := [];
      selected := None;
      toAdd := {};
      toRemove := {};
    }

    method LoadDut(dut: SimDut.LoadedDut)
      modifies this
      ensures Model() == SetLoadedDut(old(Model()), dut)
    {
      probed := set p | p in dut.probedPoints;
      root := Some(NewNode(dut.root, "", probed));
      selected := Some(0);
    }

    /** The list part of render: the tree's entries, rebuilt by traversal. */
    method RenderList()
      modifies this
      ensures Model() == Render(old(Model()))
    {
      if root.Some? {
        items := Traverse(root.value, [], []);
      }
    }

    method ActOnSelected()
      requires CanAct(Model())
      modifies this
      ensures Model() == PerformAction(old(Model()))
    {
      if selected.Some? {
        var r := root.value;
        match items[selected.value]
        case Instance(at) =>
          root := Some(ToggleAt(r, at));
        case Signal(at, j) =>
          var step := MarkerStep(NodeAt(r, at).value.leaves[j], toAdd, toRemove);
          root := Some(SetLeafAt(r, at, j, step.0));
          toAdd := step.1;
          toRemove := step.2;
      }
    }

    /** request_modify_probe_points: the pending sets as the request's lists. */
    method ModificationRequest() returns (request: SimDut.ProbePointsModification)
      ensures forall p :: p in request.toAdd <==> p in toAdd
      ensures forall p :: p in request.toRemove <==> p in toRemove
      ensures |request.toAdd| == |toAdd| && |request.toRemove| == |toRemove|
    {
      var adds := ListOf(toAdd);
      var removes := ListOf(toRemove);
      request := SimDut.ProbePointsModification(adds, removes);
    }

    method ClearMarkedSignals()
      modifies this
      ensures Model() == ClearMarked(old(Model()))
    {
      toAdd := {};
      toRemove := {};
    }

    method Down()
      requires CanScrollDown(Model())
      modifies this
      ensures Model() == ScrollDown(old(Model()))
    {
      if selected.Some? {
        var next := DropDowns.SelectNext(selected);
        var last := |items| - 1;
        selected := Some(if last <= next then last else next);
      }
    }

    method Up()
      modifies this
      ensures Model() == ScrollUp(old(Model()))
    {
      if selected.Some? {
        var idx := selected.value;
        selected := Some(if idx >= 1 then idx - 1 else 0);
      }
    }

    /** handle_key_event; on q also the request sent for the pending sets. */
    method HandleKeyEvent(code: KeyMaps.KeyCode) returns (r: Selectors.HandleResult, request: Option<SimDut.ProbePointsModification>)
      requires CanHandle(Model(), code)
      modifies this
      ensures (r, Model()) == HandleKey(old(Model()), code)
      ensures request.Some? <==> code == KeyMaps.Char('q')
      ensures request.Some? ==>
        (forall p :: p in request.value.toAdd <==> p in old(toAdd))
        && (forall p :: p in request.value.toRemove <==> p in old(toRemove))
    {
      request := None;
      if code == KeyMaps.Char('q') {
        var mods := ModificationRequest();
        request := Some(mods);
        ClearMarkedSignals();
        return Selectors.ReleaseFocus, request;
      } else if code == KeyMaps.Enter {
        ActOnSelected();
      } else if code == KeyMaps.Down || code == KeyMaps.Char('j') {
        Down();
      } else if code == KeyMaps.Up || code == KeyMaps.Char('k') {
        Up();
      }
      r := Selectors.Handled;
    }
  }
}
