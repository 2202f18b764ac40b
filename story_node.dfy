/** The node model of the story tree: `StoryNode`, the beat table and the
    structural vocabulary (pre-order, paths, well-formedness) that the other
    modules state their contracts in. */
module StoryNodes {
  import opened Wrappers

  /** The narrative role of a child: 0 = INICIO, 1 = NUDO, 2 = DESENLACE. */
  type BeatIndex = i: nat | i < 3

  /** One sentence of the story and the three sentences it was expanded into. */
  datatype StoryNode = StoryNode(
    id: string,
    text: string,
    children: seq<StoryNode>,
    isExpanded: bool,
    parentId: Option<string>,
    beatIndex: Option<BeatIndex>)

  /** The `label` column of the beat table. */
  function BeatLabel(b: BeatIndex): (r: string)
    ensures (r == "INICIO") == (b == 0) && (r == "NUDO") == (b == 1) && (r == "DESENLACE") == (b == 2)
  {
    if b == 0 then "INICIO" else if b == 1 then "NUDO" else "DESENLACE"
  }

  /** The root built when a story starts from an (already trimmed) premise. */
  function NewRoot(premise: string): (root: StoryNode)
    ensures root.id == "root" && IsRoot(root) && WellFormed(root) && root.text == premise
    ensures root.children == [] && !root.isExpanded
  {
    StoryNode("root", premise, [], false, None, None)
  }

  /** All nodes of the tree, parent before children, children in order. */
  function PreOrder(t: StoryNode): (s: seq<StoryNode>)
    decreases t, 1
  {
    [t] + PreOrderFrom(t, 0)
  }

  /** The pre-order of the children of `t` from index `k` on. */
  function PreOrderFrom(t: StoryNode, k: nat): seq<StoryNode>
    decreases t, 0, |t.children| - k
  {
    if k >= |t.children| then [] else PreOrder(t.children[k]) + PreOrderFrom(t, k + 1)
  }

  /** Some node of the tree carries identity `id`. */
  predicate HasId(t: StoryNode, id: string)
    decreases t
  {
    t.id == id || exists k :: 0 <= k < |t.children| && HasId(t.children[k], id)
  }

  /** The node reached from `t` by following the child indices in `p`. */
  function At(t: StoryNode, p: seq<nat>): Option<StoryNode>
    decreases |p|
  {
    if p == [] then Some(t)
    else if p[0] < |t.children| then At(t.children[p[0]], p[1..])
    else None
  }

  /** `p` is a path of `t` and no node on it, from `t` to its end, has identity `id`. */
  predicate AvoidsAlong(t: StoryNode, p: seq<nat>, id: string)
    decreases |p|
  {
    t.id != id && (p == [] || (p[0] < |t.children| && AvoidsAlong(t.children[p[0]], p[1..], id)))
  }

  /** `p` is a path of `t` that ends at a node with identity `id` and no node
      before its end has that identity. */
  predicate FirstMatchAt(t: StoryNode, p: seq<nat>, id: string)
    decreases |p|
  {
    if p == [] then t.id == id
    else t.id != id && p[0] < |t.children| && FirstMatchAt(t.children[p[0]], p[1..], id)
  }

  /** Everything a node says about itself, without its subtree. */
  datatype NodeHeader = NodeHeader(
    id: string,
    text: string,
    isExpanded: bool,
    parentId: Option<string>,
    beatIndex: Option<BeatIndex>,
    childCount: nat)

  function Header(n: StoryNode): NodeHeader
  {
    NodeHeader(n.id, n.text, n.isExpanded, n.parentId, n.beatIndex, |n.children|)
  }

  /** The root of a story has no parent and no beat. */
  predicate IsRoot(t: StoryNode)
  {
    t.parentId.None? && t.beatIndex.None?
  }

  /** The local shape rules of a node: no children or exactly three, an
      expanded node has its three children, and child `i` carries beat `i`
      and names this node as its parent. */
  predicate ShapeOk(n: StoryNode)
  {
    && (|n.children| == 0 || |n.children| == 3)
    && (n.isExpanded ==> |n.children| == 3)
    && forall i :: 0 <= i < |n.children| ==>
         n.children[i].beatIndex == Some(i) && n.children[i].parentId == Some(n.id)
  }

  /** Every node of the tree keeps the shape rules. */
  predicate WellFormed(t: StoryNode)
    decreases t
  {
    ShapeOk(t) && forall k :: 0 <= k < |t.children| ==> WellFormed(t.children[k])
  }

  /** The pre-order of a child is a contiguous part of the pre-order of its parent. */
  lemma {:induction false} PreOrderFromContains(t: StoryNode, j: nat, k: nat, n: StoryNode)
    requires j <= k < |t.children|
    requires n in PreOrder(t.children[k])
    ensures n in PreOrderFrom(t, j)
    decreases k - j
  {
    if j < k {
      PreOrderFromContains(t, j + 1, k, n);
    }
  }

  lemma PreOrderOfChild(t: StoryNode, k: nat, n: StoryNode)
    requires k < |t.children|
    requires n in PreOrder(t.children[k])
    ensures n in PreOrder(t)
  {
    PreOrderFromContains(t, 0, k, n);
  }
}
