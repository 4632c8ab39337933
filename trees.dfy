/**
 * The trees-and-graphs tab: three collapsible sections, and a sample binary
 * tree (a mission-control hierarchy) whose shape and traversal orders the
 * page describes in words.
 */
module TreesGraphsTab {

  /** The collapsible sections. */
  const SectionNames: set<string> := {"terminology", "types", "traversal"}

  /** All three sections start collapsed. */
  const InitialSections: map<string, bool> := map["terminology" := false, "types" := false, "traversal" := false]

  /**
   * `toggleSection(section)`: a copy of the flags with `section` flipped. A
   * flag that is missing reads as false, so it is added as open; every other
   * flag is copied unchanged.
   */
  function ToggleSection(expanded: map<string, bool>, section: string): (r: map<string, bool>)
    ensures r.Keys == expanded.Keys + {section}
    ensures r[section] <==> !(section in expanded && expanded[section])
    ensures forall s :: s in expanded && s != section ==> r[s] == expanded[s]
  {
    expanded[section := !(section in expanded && expanded[section])]
  }

  /** Toggling a present section twice gives the flags back. */
  lemma ToggleTwice(expanded: map<string, bool>, section: string)
    requires section in expanded
    ensures ToggleSection(ToggleSection(expanded, section), section) == expanded
  {
  }

  /** The section buttons only ever flip one of the three sections: the flags stay those of the three sections. */
  lemma ToggleKeepsSections(expanded: map<string, bool>, section: string)
    requires expanded.Keys == SectionNames && section in SectionNames
    ensures ToggleSection(expanded, section).Keys == SectionNames
  {
  }

  /** The flags after clicking the section buttons `clicks`, in order, starting from `expanded`. */
  function Toggled(expanded: map<string, bool>, clicks: seq<string>): map<string, bool>
    decreases |clicks|
  {
    if clicks == [] then expanded else Toggled(ToggleSection(expanded, clicks[0]), clicks[1..])
  }

  /** How often `section` occurs in `clicks`. */
  function Clicks(clicks: seq<string>, section: string): nat {
    if clicks == [] then 0 else (if clicks[0] == section then 1 else 0) + Clicks(clicks[1..], section)
  }

  /**
   * From the initial, all-collapsed flags, any run of clicks on the three
   * section buttons keeps exactly the three sections, and a section is open
   * exactly when its button was clicked an odd number of times.
   */
  lemma ToggledFromInitial(clicks: seq<string>)
    requires forall k :: 0 <= k < |clicks| ==> clicks[k] in SectionNames
    ensures Toggled(InitialSections, clicks).Keys == SectionNames
    ensures forall s :: s in SectionNames ==> (Toggled(InitialSections, clicks)[s] <==> Clicks(clicks, s) % 2 == 1)
  {
    forall s | s in SectionNames
      ensures Toggled(InitialSections, clicks).Keys == SectionNames
      ensures Toggled(InitialSections, clicks)[s] <==> Clicks(clicks, s) % 2 == 1
    {
      ToggledParity(InitialSections, clicks, s);
    }
  }

  /** Each click keeps the three sections, and flips a flag exactly when it is that section's. */
  lemma {:induction false} ToggledParity(expanded: map<string, bool>, clicks: seq<string>, s: string)
    requires expanded.Keys == SectionNames && s in SectionNames
    requires forall k :: 0 <= k < |clicks| ==> clicks[k] in SectionNames
    ensures Toggled(expanded, clicks).Keys == SectionNames
    ensures Toggled(expanded, clicks)[s] <==> (expanded[s] != (Clicks(clicks, s) % 2 == 1))
    decreases |clicks|
  {
    if clicks != [] {
      var next := ToggleSection(expanded, clicks[0]);
      ToggleKeepsSections(expanded, clicks[0]);
      assert forall k :: 0 <= k < |clicks[1..]| ==> clicks[1..][k] in SectionNames by {
        forall k | 0 <= k < |clicks[1..]| ensures clicks[1..][k] in SectionNames {
          assert clicks[1..][k] == clicks[k + 1];
        }
      }
      ToggledParity(next, clicks[1..], s);
    }
  }

  /** A binary tree of labelled nodes; `Nil` is JavaScript's `null` child. */
  datatype Tree = Nil | Node(value: string, left: Tree, right: Tree)

  function Leaf(value: string): Tree {
    Node(value, Nil, Nil)
  }

  /** The sample tree. Its inner labels are written over two lines. */
  const SampleTree: Tree :=
    Node("Mission\nControl",
      Node("Launch\nOperations", Leaf("Crew"), Leaf("Fuel")),
      Node("Flight\nDynamics", Leaf("Navigation"), Leaf("Telemetry")))

  /** The number of nodes. */
  function Size(t: Tree): nat {
    match t
    case Nil => 0
    case Node(_, l, r) => 1 + Size(l) + Size(r)
  }

  /** The number of edges on a longest path from the root down to a leaf (-1 for no tree). */
  function Height(t: Tree): int {
    match t
    case Nil => -1
    case Node(_, l, r) => 1 + (if Height(l) >= Height(r) then Height(l) else Height(r))
  }

  /** The labels of the nodes without children, left to right. */
  function Leaves(t: Tree): seq<string> {
    match t
    case Nil => []
    case Node(v, Nil, Nil) => [v]
    case Node(_, l, r) => Leaves(l) + Leaves(r)
  }

  /** Left subtree, node, right subtree. */
  function InOrder(t: Tree): seq<string> {
    match t
    case Nil => []
    case Node(v, l, r) => InOrder(l) + [v] + InOrder(r)
  }

  /** Node, left subtree, right subtree. */
  function PreOrder(t: Tree): seq<string> {
    match t
    case Nil => []
    case Node(v, l, r) => [v] + PreOrder(l) + PreOrder(r)
  }

  /** Left subtree, right subtree, node. */
  function PostOrder(t: Tree): seq<string> {
    match t
    case Nil => []
    case Node(v, l, r) => PostOrder(l) + PostOrder(r) + [v]
  }

  /** A measure of a queue of subtrees that every breadth-first step lowers. */
  function Weight(t: Tree): nat {
    match t
    case Nil => 1
    case Node(_, l, r) => 1 + Weight(l) + Weight(r)
  }

  function ForestWeight(queue: seq<Tree>): nat {
    if queue == [] then 0 else Weight(queue[0]) + ForestWeight(queue[1..])
  }

  lemma {:induction false} ForestWeightAppend(a: seq<Tree>, b: seq<Tree>)
    ensures ForestWeight(a + b) == ForestWeight(a) + ForestWeight(b)
  {
    if a == [] {
      assert a + b == b;
    } else {
      assert (a + b)[1..] == a[1..] + b;
      ForestWeightAppend(a[1..], b);
    }
  }

  /** Breadth-first: take the front subtree of the queue, visit its root and queue its children. */
  function Bfs(queue: seq<Tree>): seq<string>
    decreases ForestWeight(queue)
  {
    if queue == [] then []
    else match queue[0]
      case Nil => Bfs(queue[1..])
      case Node(v, l, r) =>
        ForestWeightAppend(queue[1..], [l, r]);
        ChildrenWeight(l, r);
        [v] + Bfs(queue[1..] + [l, r])
  }

  /** Level order, from the root down, each level left to right. */
  function LevelOrder(t: Tree): seq<string> {
    Bfs([t])
  }

  /** The three depth-first orders hold the same labels, each as often as the others. */
  lemma {:induction false} DepthFirstOrdersAgree(t: Tree)
    ensures multiset(PreOrder(t)) == multiset(InOrder(t)) == multiset(PostOrder(t))
  {
    match t
    case Nil =>
    case Node(v, l, r) =>
      DepthFirstOrdersAgree(l);
      DepthFirstOrdersAgree(r);
  }

  /** A traversal lists one label per node. */
  lemma {:induction false} InOrderVisitsEachNodeOnce(t: Tree)
    ensures |InOrder(t)| == Size(t)
  {
    match t
    case Nil =>
    case Node(v, l, r) =>
      InOrderVisitsEachNodeOnce(l);
      InOrderVisitsEachNodeOnce(r);
  }

  /** The labels of a queue of subtrees, as often as they occur. */
  function ForestLabels(queue: seq<Tree>): multiset<string> {
    if queue == [] then multiset{} else multiset(InOrder(queue[0])) + ForestLabels(queue[1..])
  }

  /** The weight of the two children a breadth-first step queues. */
  lemma ChildrenWeight(l: Tree, r: Tree)
    ensures ForestWeight([l, r]) == Weight(l) + Weight(r)
  {
    assert [l, r][1..] == [r];
    assert [r][1..] == [];
    assert ForestWeight([r]) == Weight(r) + ForestWeight([]);
  }

  /** The labels of the two children a breadth-first step queues. */
  lemma ChildrenLabels(l: Tree, r: Tree)
    ensures ForestLabels([l, r]) == multiset(InOrder(l)) + multiset(InOrder(r))
  {
    assert [l, r][1..] == [r];
    assert [r][1..] == [];
    assert ForestLabels([r]) == multiset(InOrder(r)) + ForestLabels([]);
  }

  lemma {:induction false} ForestLabelsAppend(a: seq<Tree>, b: seq<Tree>)
    ensures ForestLabels(a + b) == ForestLabels(a) + ForestLabels(b)
  {
    if a == [] {
      assert a + b == b;
    } else {
      assert (a + b)[1..] == a[1..] + b;
      ForestLabelsAppend(a[1..], b);
    }
  }

  /** Breadth-first visits every label of the queued subtrees, as often as it occurs. */
  lemma {:induction false} BfsVisitsAll(queue: seq<Tree>)
    ensures multiset(Bfs(queue)) == ForestLabels(queue)
    decreases ForestWeight(queue)
  {
    if queue != [] {
      match queue[0]
      case Nil =>
        BfsVisitsAll(queue[1..]);
      case Node(v, l, r) =>
        ForestWeightAppend(queue[1..], [l, r]);
        ChildrenWeight(l, r);
        BfsVisitsAll(queue[1..] + [l, r]);
        ForestLabelsAppend(queue[1..], [l, r]);
        ChildrenLabels(l, r);
    }
  }

  /** Level order lists the same labels as the depth-first orders. */
  lemma LevelOrderAgrees(t: Tree)
    ensures multiset(LevelOrder(t)) == multiset(InOrder(t))
  {
    BfsVisitsAll([t]);
    assert [t][1..] == [];
  }

  /** How the traversal lists on the page name the tree's labels. */
  function Label(value: string): string {
    if value == "Mission\nControl" then "Mission Control"
    else if value == "Launch\nOperations" then "Launch Ops"
    else if value == "Flight\nDynamics" then "Flight Dynamics"
    else value
  }

  function Labels(values: seq<string>): (r: seq<string>)
    ensures |r| == |values| && forall k :: 0 <= k < |r| ==> r[k] == Label(values[k])
  {
    if values == [] then [] else [Label(values[0])] + Labels(values[1..])
  }

  /** The properties listed under the tree: the root, the four leaves, a height of 2, and seven nodes. */
  lemma SampleTreeProperties()
    ensures Label(SampleTree.value) == "Mission Control"
    ensures Leaves(SampleTree) == ["Crew", "Fuel", "Navigation", "Telemetry"]
    ensures Height(SampleTree) == 2
    ensures Size(SampleTree) == 7
  {
  }

  /** The in-order list on the page is that of the sample tree. */
  lemma SampleInOrder()
    ensures Labels(InOrder(SampleTree)) == ["Crew", "Launch Ops", "Fuel", "Mission Control", "Navigation", "Flight Dynamics", "Telemetry"]
  {
    DepthFirstOfHeightTwo(SampleTree);
  }

  /** The pre-order list on the page is that of the sample tree. */
  lemma SamplePreOrder()
    ensures Labels(PreOrder(SampleTree)) == ["Mission Control", "Launch Ops", "Crew", "Fuel", "Flight Dynamics", "Navigation", "Telemetry"]
  {
    DepthFirstOfHeightTwo(SampleTree);
  }

  /** The post-order list on the page is that of the sample tree. */
  lemma SamplePostOrder()
    ensures Labels(PostOrder(SampleTree)) == ["Crew", "Fuel", "Launch Ops", "Navigation", "Telemetry", "Flight Dynamics", "Mission Control"]
  {
    DepthFirstOfHeightTwo(SampleTree);
  }

  /** One breadth-first step at a node: its label, then the rest of the queue with its children behind. */
  lemma BfsAtNode(t: Tree, rest: seq<Tree>)
    requires t.Node?
    ensures Bfs([t] + rest) == [t.value] + Bfs(rest + [t.left, t.right])
  {
    assert ([t] + rest)[0] == t && ([t] + rest)[1..] == rest;
  }

  /** A queue of empty subtrees visits nothing. */
  lemma {:induction false} BfsOfNils(queue: seq<Tree>)
    requires forall k :: 0 <= k < |queue| ==> queue[k] == Nil
    ensures Bfs(queue) == []
    decreases |queue|
  {
    if queue != [] {
      BfsOfNils(queue[1..]);
    }
  }

  /** A tree whose root has two children, each with two childless children. */
  predicate PerfectOfHeightTwo(t: Tree) {
    t.Node? && t.left.Node? && t.right.Node? &&
    t.left.left.Node? && t.left.left.left == Nil && t.left.left.right == Nil &&
    t.left.right.Node? && t.left.right.left == Nil && t.left.right.right == Nil &&
    t.right.left.Node? && t.right.left.left == Nil && t.right.left.right == Nil &&
    t.right.right.Node? && t.right.right.left == Nil && t.right.right.right == Nil
  }

  /** A childless node is each depth-first order on its own. */
  lemma OrdersOfLeaf(t: Tree)
    requires t.Node? && t.left == Nil && t.right == Nil
    ensures InOrder(t) == PreOrder(t) == PostOrder(t) == [t.value]
  {
    assert [] + [t.value] + [] == [t.value];
  }

  /** A node with two childless children: its depth-first orders, written out. */
  lemma OrdersOfCherry(t: Tree)
    requires t.Node? && t.left.Node? && t.left.left == Nil && t.left.right == Nil
    requires t.right.Node? && t.right.left == Nil && t.right.right == Nil
    ensures InOrder(t) == [t.left.value, t.value, t.right.value]
    ensures PreOrder(t) == [t.value, t.left.value, t.right.value]
    ensures PostOrder(t) == [t.left.value, t.right.value, t.value]
  {
    OrdersOfLeaf(t.left);
    OrdersOfLeaf(t.right);
  }

  /** The three depth-first orders of a tree of height two, written out. */
  lemma DepthFirstOfHeightTwo(t: Tree)
    requires PerfectOfHeightTwo(t)
    ensures InOrder(t) == [t.left.left.value, t.left.value, t.left.right.value, t.value,
      t.right.left.value, t.right.value, t.right.right.value]
    ensures PreOrder(t) == [t.value, t.left.value, t.left.left.value, t.left.right.value,
      t.right.value, t.right.left.value, t.right.right.value]
    ensures PostOrder(t) == [t.left.left.value, t.left.right.value, t.left.value,
      t.right.left.value, t.right.right.value, t.right.value, t.value]
  {
    OrdersOfCherry(t.left);
    OrdersOfCherry(t.right);
  }

  /** Level order visits such a tree a level at a time, each level left to right. */
  lemma LevelOrderOfHeightTwo(t: Tree)
    requires PerfectOfHeightTwo(t)
    ensures LevelOrder(t) == [t.value, t.left.value, t.right.value,
      t.left.left.value, t.left.right.value, t.right.left.value, t.right.right.value]
  {
    var a, b := t.left, t.right;
    var c, d, e, f := a.left, a.right, b.left, b.right;
    assert Bfs([t]) == [t.value] + Bfs([a, b]) by {
      BfsAtNode(t, []);
      assert [t] + [] == [t] && [] + [a, b] == [a, b];
    }
    assert Bfs([a, b]) == [a.value] + Bfs([b, c, d]) by {
      BfsAtNode(a, [b]);
      assert [a] + [b] == [a, b] && [b] + [c, d] == [b, c, d];
    }
    assert Bfs([b, c, d]) == [b.value] + Bfs([c, d, e, f]) by {
      BfsAtNode(b, [c, d]);
      assert [b] + [c, d] == [b, c, d] && [c, d] + [e, f] == [c, d, e, f];
    }
    LeafLevel(c, d, e, f);
  }

  /** `n` empty subtrees. */
  function Nils(n: nat): (r: seq<Tree>)
    ensures |r| == n && forall k :: 0 <= k < n ==> r[k] == Nil
  {
    seq(n, _ => Nil)
  }

  /** Childless nodes, then empty subtrees: breadth-first visits just their labels, in queue order. */
  lemma {:induction false} BfsOfLeaves(leaves: seq<Tree>, n: nat)
    requires forall k :: 0 <= k < |leaves| ==> leaves[k].Node? && leaves[k].left == Nil && leaves[k].right == Nil
    ensures Bfs(leaves + Nils(n)) == seq(|leaves|, k requires 0 <= k < |leaves| => leaves[k].value)
    decreases |leaves|
  {
    if leaves == [] {
      assert leaves + Nils(n) == Nils(n);
      BfsOfNils(Nils(n));
    } else {
      var rest := leaves[1..] + Nils(n);
      assert leaves + Nils(n) == [leaves[0]] + rest;
      BfsAtNode(leaves[0], rest);
      assert rest + [Nil, Nil] == leaves[1..] + Nils(n + 2);
      BfsOfLeaves(leaves[1..], n + 2);
    }
  }

  /** Four childless subtrees at the front of the queue: their labels, in order, are all that is left to visit. */
  lemma LeafLevel(c: Tree, d: Tree, e: Tree, f: Tree)
    requires c.Node? && c.left == Nil && c.right == Nil && d.Node? && d.left == Nil && d.right == Nil
    requires e.Node? && e.left == Nil && e.right == Nil && f.Node? && f.left == Nil && f.right == Nil
    ensures Bfs([c, d, e, f]) == [c.value, d.value, e.value, f.value]
  {
    BfsOfLeaves([c, d, e, f], 0);
    assert [c, d, e, f] + Nils(0) == [c, d, e, f];
  }

  /** The level-order list on the page is that of the sample tree. */
  lemma SampleLevelOrder()
    ensures Labels(LevelOrder(SampleTree)) == ["Mission Control", "Launch Ops", "Flight Dynamics", "Crew", "Fuel", "Navigation", "Telemetry"]
  {
    LevelOrderOfHeightTwo(SampleTree);
  }
}
