/** Applying an expansion result: the response-shape check of
    `callExpansionApi`, the child identities of `createChildId`, the child
    building of `setNodeChildren`, and the updater of `toggleNode`. */
module Expansion {
  import opened Wrappers
  import opened StoryNodes
  import opened TreeOps

  /** The `[string, string, string]` the expansion call resolves with. */
  type Triple = s: seq<string> | |s| == 3 witness ["", "", ""]

  /** The `expansions` field of the payload, once parsed as JSON. */
  datatype ExpansionsField = NotAnArray | AnArray(items: seq<string>)

  /** The model's reply text after code fences are stripped, as JSON.parse sees it. */
  datatype ParseResult = ParseFailure | Parsed(expansions: ExpansionsField)

  /** What the generation service does with one request: either something in
      the call throws (the network, reading the body, a reply text that is not
      a string) and the error's message is kept, or a response arrives with its
      HTTP status, its error text and its parsed payload. */
  datatype ApiOutcome =
    | Thrown(message: string)
    | Response(status: nat, errorText: string, payload: ParseResult)

  /** `response.ok`: a status in the 2xx range. */
  predicate IsOk(status: nat)
  {
    200 <= status <= 299
  }

  /** The decimal digits of `n`, as a template literal prints a number. */
  function Decimal(n: nat): string
    decreases n
  {
    if n < 10 then [Digit(n)] else Decimal(n / 10) + [Digit(n % 10)]
  }

  function Digit(d: nat): char
    requires d < 10
  {
    "0123456789"[d]
  }

  const InvalidFormatMessage := "Invalid response format: expected 3 expansions"
  const ParseFailureMessage := "Failed to parse model response as JSON"

  /** The part of `callExpansionApi` after the network call: a non-2xx status
      or an unparsable payload fails, and so does any `expansions` that is not
      an array of exactly three sentences; otherwise the three sentences are
      returned in order. A failure carries the message the caller shows. */
  function CheckExpansionResponse(outcome: ApiOutcome): (r: Result<Triple, string>)
    ensures r.Success? <==>
      outcome.Response? && IsOk(outcome.status) && outcome.payload.Parsed? &&
      outcome.payload.expansions.AnArray? && |outcome.payload.expansions.items| == 3
    ensures r.Success? ==> r.value == outcome.payload.expansions.items
    ensures outcome.Response? && IsOk(outcome.status) && outcome.payload.Parsed? && r.Failure? ==>
      r.error == InvalidFormatMessage
    ensures outcome.Response? && IsOk(outcome.status) && outcome.payload.ParseFailure? ==>
      r == Failure(ParseFailureMessage)
    ensures outcome.Response? && !IsOk(outcome.status) ==>
      r == Failure("API request failed: " + Decimal(outcome.status) + " - " + outcome.errorText)
    ensures outcome.Thrown? ==> r == Failure(outcome.message)
  {
    match outcome
    case Thrown(message) => Failure(message)
    case Response(status, errorText, payload) =>
      if !IsOk(status) then
        Failure("API request failed: " + Decimal(status) + " - " + errorText)
      else
        match payload
        case ParseFailure => Failure(ParseFailureMessage)
        case Parsed(NotAnArray) => Failure(InvalidFormatMessage)
        case Parsed(AnArray(items)) =>
          if |items| != 3 then Failure(InvalidFormatMessage) else Success(items)
  }

  /** `createChildId`: the parent's identity, the child's index and a salt
      standing for `Date.now()` and the random suffix, joined by dashes. */
  function CreateChildId(parentId: string, index: BeatIndex, salt: string): (r: string)
    ensures |r| == |parentId| + 3 + |salt|
    ensures r[..|parentId|] == parentId && r[|parentId|] == '-' && r[|parentId| + 2] == '-'
    ensures '0' <= r[|parentId| + 1] <= '2' && r[|parentId| + 1] == Digit(index)
    ensures r[|parentId| + 3..] == salt
  {
    parentId + "-" + [Digit(index)] + "-" + salt
  }

  /** Sibling identities never collide, whatever the salts, and a child's
      identity starts with its parent's identity followed by a dash. */
  lemma ChildIdsDistinct(parentId: string, i: BeatIndex, j: BeatIndex, si: string, sj: string)
    requires i != j
    ensures CreateChildId(parentId, i, si) != CreateChildId(parentId, j, sj)
    ensures CreateChildId(parentId, i, si)[..|parentId| + 1] == parentId + "-"
  {
    var a, b := CreateChildId(parentId, i, si), CreateChildId(parentId, j, sj);
    assert a[|parentId| + 1] == Digit(i) && b[|parentId| + 1] == Digit(j);
  }

  /** The three fresh children of `setNodeChildren`: child `i` has sentence
      `i`, beat `i`, the expanded node as parent, no children and is collapsed. */
  function FreshChildren(nodeId: string, expansions: Triple, salts: Triple): (cs: seq<StoryNode>)
    ensures |cs| == 3
    ensures forall i, j :: 0 <= i < j < 3 ==> cs[i].id != cs[j].id
  {
    var cs := seq(3, i requires 0 <= i < 3 =>
      StoryNode(CreateChildId(nodeId, i, salts[i]), expansions[i], [], false, Some(nodeId), Some(i)));
    forall i, j | 0 <= i < j < 3 ensures cs[i].id != cs[j].id {
      ChildIdsDistinct(nodeId, i, j, salts[i], salts[j]);
    }
    cs
  }

  /** The updater `setNodeChildren` passes to `updateNodeById`. */
  function ExpandWith(nodeId: string, expansions: Triple, salts: Triple): (f: StoryNode -> StoryNode)
    ensures forall n: StoryNode ::
              && f(n).id == n.id && f(n).text == n.text
              && f(n).parentId == n.parentId && f(n).beatIndex == n.beatIndex
              && f(n).isExpanded && f(n).children == FreshChildren(nodeId, expansions, salts)
  {
    (node: StoryNode) => node.(isExpanded := true, children := FreshChildren(nodeId, expansions, salts))
  }

  /** `setNodeChildren` applied to the current tree. */
  function SetNodeChildren(tree: StoryNode, nodeId: string, expansions: Triple, salts: Triple): (r: StoryNode)
    ensures r.id == tree.id && r.text == tree.text
    ensures r.parentId == tree.parentId && r.beatIndex == tree.beatIndex
    ensures tree.id != nodeId ==> r.isExpanded == tree.isExpanded && |r.children| == |tree.children|
  {
    UpdateNodeById(tree, nodeId, ExpandWith(nodeId, expansions, salts))
  }

  /** After `setNodeChildren` the target is expanded and has exactly three
      children, child `i` carrying sentence `i`, beat `i` and the target as
      parent, each a collapsed leaf; its own identity, text, parent and beat
      are those it had before. */
  lemma SetNodeChildrenAtTarget(tree: StoryNode, nodeId: string, expansions: Triple, salts: Triple)
    requires FindNodeById(tree, nodeId).Some?
    ensures var before := FindNodeById(tree, nodeId).value;
            var after := FindNodeById(SetNodeChildren(tree, nodeId, expansions, salts), nodeId);
            && after.Some?
            && after.value.isExpanded
            && |after.value.children| == 3
            && (forall i :: 0 <= i < 3 ==>
                  && after.value.children[i].text == expansions[i]
                  && after.value.children[i].beatIndex == Some(i)
                  && after.value.children[i].parentId == Some(nodeId)
                  && after.value.children[i].children == []
                  && !after.value.children[i].isExpanded)
            && (forall i, j :: 0 <= i < j < 3 ==> after.value.children[i].id != after.value.children[j].id)
            && after.value.id == before.id && after.value.text == before.text
            && after.value.parentId == before.parentId && after.value.beatIndex == before.beatIndex
  {
    FindAfterUpdate(tree, nodeId, ExpandWith(nodeId, expansions, salts));
  }

  /** A result that arrives for a node no longer in the tree changes nothing. */
  lemma SetNodeChildrenMissingIsNoOp(tree: StoryNode, nodeId: string, expansions: Triple, salts: Triple)
    requires FindNodeById(tree, nodeId).None?
    ensures SetNodeChildren(tree, nodeId, expansions, salts) == tree
  {
    FindNoneIffAbsent(tree, nodeId);
    UpdateAbsentIsIdentity(tree, nodeId, ExpandWith(nodeId, expansions, salts));
  }

  /** Applying an expansion keeps the tree well formed: siblings always come
      as a triple tagged with their positions. */
  lemma SetNodeChildrenKeepsWellFormed(tree: StoryNode, nodeId: string, expansions: Triple, salts: Triple)
    requires WellFormed(tree)
    ensures WellFormed(SetNodeChildren(tree, nodeId, expansions, salts))
    ensures IsRoot(tree) ==> IsRoot(SetNodeChildren(tree, nodeId, expansions, salts))
  {
    var f := ExpandWith(nodeId, expansions, salts);
    forall n | n in PreOrder(tree) && n.id == nodeId && WellFormed(n) ensures ShapeKept(n, f(n)) {
      var m := f(n);
      assert forall k :: 0 <= k < |m.children| ==> WellFormed(m.children[k]);
    }
    UpdatePreservesWellFormed(tree, nodeId, f);
  }

  /** The updater of `toggleNode` for a node that already has children. */
  function Toggled(node: StoryNode): (r: StoryNode)
    ensures r.isExpanded != node.isExpanded
    ensures r.(isExpanded := node.isExpanded) == node
  {
    node.(isExpanded := !node.isExpanded)
  }

  /** Toggling the same node twice gives back the tree it started from. */
  lemma ToggleTwiceRestores(tree: StoryNode, nodeId: string)
    ensures UpdateNodeById(UpdateNodeById(tree, nodeId, Toggled), nodeId, Toggled) == tree
  {
    UpdateUndo(tree, nodeId, Toggled, Toggled);
  }

  /** Toggling flips the target's flag and nothing else about it. */
  lemma ToggleAtTarget(tree: StoryNode, nodeId: string)
    requires FindNodeById(tree, nodeId).Some?
    ensures var before := FindNodeById(tree, nodeId).value;
            FindNodeById(UpdateNodeById(tree, nodeId, Toggled), nodeId) ==
              Some(before.(isExpanded := !before.isExpanded))
  {
    FindAfterUpdate(tree, nodeId, Toggled);
  }

  /** Toggling keeps the tree well formed when every node with that identity
      already has its children (a childless node is expanded instead). */
  lemma ToggleKeepsWellFormed(tree: StoryNode, nodeId: string)
    requires WellFormed(tree)
    requires forall n :: n in PreOrder(tree) && n.id == nodeId ==> n.children != []
    ensures WellFormed(UpdateNodeById(tree, nodeId, Toggled))
  {
    UpdatePreservesWellFormed(tree, nodeId, Toggled);
  }
}
