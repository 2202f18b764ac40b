/** The state of the story page and the intents that change it: the flag
    sets, `expandNode`, `toggleNode`, `regenerateNode`, `startNewStory` and
    `resetStory` (src/app/page.tsx). Each asynchronous operation is modelled
    by its synchronous steps; the generation service is an oracle from the
    sentence sent to the outcome of the call, and the time-and-random part of
    each child identity is a salt given by the caller. */
module Engine {
  import opened Wrappers
  import opened StoryNodes
  import opened TreeOps
  import opened Expansion

  /** The characters `String.prototype.trim` removes: the ECMAScript
      WhiteSpace and LineTerminator characters. */
  predicate IsTrimmable(c: char)
    ensures IsTrimmable(c) ==> !('0' <= c <= '9') && !('A' <= c <= 'Z') && !('a' <= c <= 'z')
    ensures c == ' ' || c == '\t' || c == '\n' || c == '\r' ==> IsTrimmable(c)
  {
    || c == '\U{0009}' || c == '\U{000B}' || c == '\U{000C}' || c == ' ' || c == '\U{00A0}'
    || c == '\U{FEFF}' || c == '\U{1680}' || ('\U{2000}' <= c <= '\U{200A}') || c == '\U{202F}'
    || c == '\U{205F}' || c == '\U{3000}'
    || c == '\n' || c == '\r' || c == '\U{2028}' || c == '\U{2029}'
  }

  /** The index of the first character of `s` at or after `i` that is not
      trimmable, or `|s|` when there is none. */
  function FirstKept(s: string, i: nat): (n: nat)
    requires i <= |s|
    ensures i <= n <= |s|
    ensures forall k :: i <= k < n ==> IsTrimmable(s[k])
    ensures n < |s| ==> !IsTrimmable(s[n])
    decreases |s| - i
  {
    if i == |s| || !IsTrimmable(s[i]) then i else FirstKept(s, i + 1)
  }

  /** The index just past the last character of `s[lo..j]` that is not
      trimmable, or `lo` when there is none. */
  function EndKept(s: string, lo: nat, j: nat): (n: nat)
    requires lo <= j <= |s|
    ensures lo <= n <= j
    ensures forall k :: n <= k < j ==> IsTrimmable(s[k])
    ensures n > lo ==> !IsTrimmable(s[n - 1])
    decreases j - lo
  {
    if j == lo || !IsTrimmable(s[j - 1]) then j else EndKept(s, lo, j - 1)
  }

  /** `String.prototype.trim`: the part of `s` between its leading and
      trailing whitespace, which begins and ends with a non-whitespace
      character and is empty exactly when `s` is all whitespace. */
  function Trim(s: string): (r: string)
    ensures exists i, j ::
              && 0 <= i <= j <= |s| && r == s[i..j]
              && (forall k :: 0 <= k < i ==> IsTrimmable(s[k]))
              && (forall k :: j <= k < |s| ==> IsTrimmable(s[k]))
    ensures r != [] ==> !IsTrimmable(r[0]) && !IsTrimmable(r[|r| - 1])
    ensures r == [] <==> forall k :: 0 <= k < |s| ==> IsTrimmable(s[k])
  {
    var i := FirstKept(s, 0);
    var j := EndKept(s, i, |s|);
    assert j > i ==> s[i..j][0] == s[i] && s[i..j][j - i - 1] == s[j - 1];
    s[i..j]
  }

  /** Trimming twice trims no more than trimming once. */
  lemma TrimIdempotent(s: string)
    ensures Trim(Trim(s)) == Trim(s)
  {
    var r := Trim(s);
    var i := FirstKept(r, 0);
    var j := EndKept(r, i, |r|);
    if r != [] {
      assert i == 0;
      assert j == |r|;
    }
  }

  /** `storyDataRef.current ? findNodeById(storyDataRef.current, id) : null`. */
  function Lookup(tree: Option<StoryNode>, id: string): (r: Option<StoryNode>)
    ensures r.Some? ==> tree.Some? && r.value.id == id && r.value in PreOrder(tree.value)
    ensures r.None? <==> (tree.None? || !HasId(tree.value, id))
  {
    if tree.Some? then
      FindNodeByIdSpec(tree.value, id);
      FindNoneIffAbsent(tree.value, id);
      FindNodeById(tree.value, id)
    else None
  }

  /** The result of applying one expansion outcome to the current tree:
      the three fresh children when the check passes and a tree exists,
      the tree as it was otherwise. */
  function Applied(tree: Option<StoryNode>, nodeId: string, outcome: ApiOutcome, salts: Triple): Option<StoryNode>
  {
    var r := CheckExpansionResponse(outcome);
    if r.Success? && tree.Some? then Some(SetNodeChildren(tree.value, nodeId, r.value, salts))
    else tree
  }

  /** The message left on the page by one expansion outcome. */
  function ErrorAfter(outcome: ApiOutcome, previous: Option<string>): Option<string>
  {
    var r := CheckExpansionResponse(outcome);
    if r.Failure? then Some(r.error) else previous
  }

  /** Which of the two in-flight sets a call marks. */
  datatype Flag = Expanding | Regenerating

  function FlagFor(isRegeneration: bool): (f: Flag)
    ensures f == Regenerating <==> isRegeneration
    ensures f == Expanding <==> !isRegeneration
  {
    if isRegeneration then Regenerating else Expanding
  }

  /** The state of the story page that the tree engine owns. */
  class TreeEngine {
    /** The committed tree (`storyData`). */
    var storyData: Option<StoryNode>
    /** `storyDataRef.current`: the tree as of the last completed render. */
    var storyDataRef: Option<StoryNode>
    /** Nodes with an expansion in flight. */
    var expandingNodes: set<string>
    /** Nodes with a regeneration in flight. */
    var regeneratingNodes: set<string>
    /** The last error message shown. */
    var error: Option<string>

    constructor ()
      ensures storyData == None && storyDataRef == None
      ensures expandingNodes == {} && regeneratingNodes == {} && error == None
    {
      storyData := None;
      storyDataRef := None;
      expandingNodes := {};
      regeneratingNodes := {};
      error := None;
    }

    function Flags(flag: Flag): set<string>
      reads this
    {
      if flag == Expanding then expandingNodes else regeneratingNodes
    }

    /** The effect that refreshes the ref once a render has committed. */
    method SyncRef()
      modifies this
      ensures storyDataRef == storyData
      ensures storyData == old(storyData) && error == old(error)
      ensures expandingNodes == old(expandingNodes) && regeneratingNodes == old(regeneratingNodes)
    {
      storyDataRef := storyData;
    }

    /** `addNodeFlag`: marks `nodeId` in one set and leaves the other alone. */
    method AddNodeFlag(flag: Flag, nodeId: string)
      modifies this
      ensures Flags(flag) == old(Flags(flag)) + {nodeId}
      ensures flag == Expanding ==> regeneratingNodes == old(regeneratingNodes)
      ensures flag == Regenerating ==> expandingNodes == old(expandingNodes)
      ensures storyData == old(storyData) && storyDataRef == old(storyDataRef) && error == old(error)
    {
      if flag == Expanding {
        var updated := expandingNodes;
        updated := updated + {nodeId};
        expandingNodes := updated;
      } else {
        var updated := regeneratingNodes;
        updated := updated + {nodeId};
        regeneratingNodes := updated;
      }
    }

    /** `removeNodeFlag`: unmarks `nodeId` in one set and leaves the other alone. */
    method RemoveNodeFlag(flag: Flag, nodeId: string)
      modifies this
      ensures Flags(flag) == old(Flags(flag)) - {nodeId}
      ensures flag == Expanding ==> regeneratingNodes == old(regeneratingNodes)
      ensures flag == Regenerating ==> expandingNodes == old(expandingNodes)
      ensures storyData == old(storyData) && storyDataRef == old(storyDataRef) && error == old(error)
    {
      if flag == Expanding {
        var updated := expandingNodes;
        updated := updated - {nodeId};
        expandingNodes := updated;
      } else {
        var updated := regeneratingNodes;
        updated := updated - {nodeId};
        regeneratingNodes := updated;
      }
    }

    /** The synchronous start of `expandNode`: look the node up in the ref;
        if it is missing do nothing, otherwise mark it, clear the error and
        return the sentence to send. */
    method BeginExpand(nodeId: string, isRegeneration: bool) returns (sentence: Option<string>)
      modifies this
      ensures var current := old(Lookup(storyDataRef, nodeId));
              sentence == if current.Some? then Some(current.value.text) else None
      ensures storyData == old(storyData) && storyDataRef == old(storyDataRef)
      ensures sentence.None? ==>
        error == old(error) && expandingNodes == old(expandingNodes) && regeneratingNodes == old(regeneratingNodes)
      ensures sentence.Some? ==>
                error == None && Flags(FlagFor(isRegeneration)) == old(Flags(FlagFor(isRegeneration))) + {nodeId}
      ensures !isRegeneration ==> regeneratingNodes == old(regeneratingNodes)
      ensures isRegeneration ==> expandingNodes == old(expandingNodes)
    {
      var currentNode := Lookup(storyDataRef, nodeId);
      if currentNode.None? {
        return None;
      }
      AddNodeFlag(FlagFor(isRegeneration), nodeId);
      error := None;
      sentence := Some(currentNode.value.text);
    }

    /** The part of `expandNode` after the call returns: apply the three
        sentences through `setNodeChildren` to the tree as it is now, or
        record the error and leave the tree alone; in both cases unmark. */
    method FinishExpand(nodeId: string, isRegeneration: bool, outcome: ApiOutcome, salts: Triple)
      modifies this
      ensures storyData == Applied(old(storyData), nodeId, outcome, salts)
      ensures CheckExpansionResponse(outcome).Failure? ==> storyData == old(storyData)
      ensures error == ErrorAfter(outcome, old(error))
      ensures Flags(FlagFor(isRegeneration)) == old(Flags(FlagFor(isRegeneration))) - {nodeId}
      ensures !isRegeneration ==> regeneratingNodes == old(regeneratingNodes)
      ensures isRegeneration ==> expandingNodes == old(expandingNodes)
      ensures storyDataRef == old(storyDataRef)
    {
      var expansions := CheckExpansionResponse(outcome);
      if expansions.Success? {
        if storyData.Some? {
          storyData := Some(SetNodeChildren(storyData.value, nodeId, expansions.value, salts));
        }
      } else {
        error := Some(expansions.error);
      }
      RemoveNodeFlag(FlagFor(isRegeneration), nodeId);
    }

    /** `expandNode`: a node missing from the ref leaves everything as it
        was; otherwise its own sentence goes to the generation service, the
        outcome is applied, and the node ends unmarked whatever the outcome. */
    method ExpandNode(nodeId: string, isRegeneration: bool, oracle: string -> ApiOutcome, salts: Triple)
      modifies this
      ensures var current := old(Lookup(storyDataRef, nodeId));
              current.None? ==>
                storyData == old(storyData) && error == old(error) &&
                expandingNodes == old(expandingNodes) && regeneratingNodes == old(regeneratingNodes)
      ensures var current := old(Lookup(storyDataRef, nodeId));
              current.Some? ==>
                var outcome := oracle(current.value.text);
                && storyData == Applied(old(storyData), nodeId, outcome, salts)
                && error == ErrorAfter(outcome, None)
                && Flags(FlagFor(isRegeneration)) == old(Flags(FlagFor(isRegeneration))) - {nodeId}
      ensures !isRegeneration ==> regeneratingNodes == old(regeneratingNodes)
      ensures isRegeneration ==> expandingNodes == old(expandingNodes)
      ensures storyDataRef == old(storyDataRef)
    {
      var sentence := BeginExpand(nodeId, isRegeneration);
      if sentence.None? {
        return;
      }
      FinishExpand(nodeId, isRegeneration, oracle(sentence.value), salts);
    }

    /** `toggleNode`: a node missing from the ref is ignored, a childless one
        is expanded, and any other has only its `isExpanded` flipped. */
    method ToggleNode(nodeId: string, oracle: string -> ApiOutcome, salts: Triple)
      modifies this
      ensures var current := old(Lookup(storyDataRef, nodeId));
              current.None? ==>
                storyData == old(storyData) && error == old(error) &&
                expandingNodes == old(expandingNodes) && regeneratingNodes == old(regeneratingNodes)
      ensures var current := old(Lookup(storyDataRef, nodeId));
              current.Some? && current.value.children == [] ==>
                var outcome := oracle(current.value.text);
                && storyData == Applied(old(storyData), nodeId, outcome, salts)
                && error == ErrorAfter(outcome, None)
                && expandingNodes == old(expandingNodes) - {nodeId}
      ensures var current := old(Lookup(storyDataRef, nodeId));
              current.Some? && current.value.children != [] ==>
                && storyData == (if old(storyData).Some?
                                 then Some(UpdateNodeById(old(storyData).value, nodeId, Toggled))
                                 else None)
                && error == old(error) && expandingNodes == old(expandingNodes)
      ensures regeneratingNodes == old(regeneratingNodes) && storyDataRef == old(storyDataRef)
    {
      var current := Lookup(storyDataRef, nodeId);
      if current.None? {
        return;
      }
      if |current.value.children| == 0 {
        ExpandNode(nodeId, false, oracle, salts);
        return;
      }
      if storyData.Some? {
        storyData := Some(UpdateNodeById(storyData.value, nodeId, Toggled));
      }
    }

    /** `regenerateNode`: the expansion path once more, from the node's own
        sentence, marking the regenerating set instead of the expanding one. */
    method RegenerateNode(nodeId: string, oracle: string -> ApiOutcome, salts: Triple)
      modifies this
      ensures var current := old(Lookup(storyDataRef, nodeId));
              current.None? ==>
                storyData == old(storyData) && error == old(error) && regeneratingNodes == old(regeneratingNodes)
      ensures var current := old(Lookup(storyDataRef, nodeId));
              current.Some? ==>
                var outcome := oracle(current.value.text);
                && storyData == Applied(old(storyData), nodeId, outcome, salts)
                && error == ErrorAfter(outcome, None)
                && regeneratingNodes == old(regeneratingNodes) - {nodeId}
      ensures expandingNodes == old(expandingNodes) && storyDataRef == old(storyDataRef)
    {
      ExpandNode(nodeId, true, oracle, salts);
    }

    /** `startNewStory` as written: the new root is committed to `storyData`,
        but the expansion that follows looks the root up in the ref, which
        still holds the tree of the last render. */
    method StartNewStoryAsWritten(input: string, oracle: string -> ApiOutcome, salts: Triple)
      modifies this
      ensures Trim(input) == [] ==>
        storyData == old(storyData) && error == old(error) && expandingNodes == old(expandingNodes)
      ensures Trim(input) != [] && old(Lookup(storyDataRef, "root")).None? ==>
        storyData == Some(NewRoot(Trim(input))) && error == None && expandingNodes == old(expandingNodes)
      ensures var stale := old(Lookup(storyDataRef, "root"));
              Trim(input) != [] && stale.Some? ==>
                var outcome := oracle(stale.value.text);
                && storyData == Applied(Some(NewRoot(Trim(input))), "root", outcome, salts)
                && error == ErrorAfter(outcome, None)
                && expandingNodes == old(expandingNodes) - {"root"}
      ensures regeneratingNodes == old(regeneratingNodes) && storyDataRef == old(storyDataRef)
    {
      var trimmed := Trim(input);
      if trimmed == [] {
        return;
      }
      storyData := Some(NewRoot(trimmed));
      error := None;
      ExpandNode("root", false, oracle, salts);
    }

    /** `startNewStory` with the ref brought up to date before the root is
        expanded, so that the root just built is the one expanded. */
    method StartNewStory(input: string, oracle: string -> ApiOutcome, salts: Triple)
      modifies this
      ensures Trim(input) == [] ==>
        storyData == old(storyData) && storyDataRef == old(storyDataRef) &&
        error == old(error) && expandingNodes == old(expandingNodes)
      ensures Trim(input) != [] ==>
        var premise := Trim(input);
        var outcome := oracle(premise);
        && storyData == Applied(Some(NewRoot(premise)), "root", outcome, salts)
        && storyDataRef == Some(NewRoot(premise))
        && error == ErrorAfter(outcome, None)
        && expandingNodes == old(expandingNodes) - {"root"}
      ensures regeneratingNodes == old(regeneratingNodes)
    {
      var trimmed := Trim(input);
      if trimmed == [] {
        return;
      }
      var rootNode := NewRoot(trimmed);
      storyData := Some(rootNode);
      storyDataRef := storyData;
      error := None;
      assert Lookup(storyDataRef, "root") == Some(rootNode);
      ExpandNode("root", false, oracle, salts);
    }

    /** `resetStory`: no tree, no operation marked, no error. */
    method ResetStory()
      modifies this
      ensures storyData == None && expandingNodes == {} && regeneratingNodes == {} && error == None
      ensures storyDataRef == old(storyDataRef)
    {
      storyData := None;
      expandingNodes := {};
      regeneratingNodes := {};
      error := None;
    }
  }

  /** The first start of a story, as written: on a page without a story the
      ref is empty, so the root is committed but never expanded and the
      generation service is never asked. */
  method FirstStartAsWritten(input: string, oracle: string -> ApiOutcome, salts: Triple)
    returns (tree: Option<StoryNode>, expanding: set<string>)
    ensures Trim(input) != [] ==> tree == Some(NewRoot(Trim(input)))
    ensures tree.Some? ==> tree.value.children == [] && !tree.value.isExpanded
    ensures expanding == {}
  {
    var page := new TreeEngine();
    page.StartNewStoryAsWritten(input, oracle, salts);
    tree, expanding := page.storyData, page.expandingNodes;
  }

  /** The first start of a story with the ref brought up to date: the root
      is expanded into the three sentences the service returns for the
      premise, or left a leaf with the error recorded. */
  method FirstStart(input: string, oracle: string -> ApiOutcome, salts: Triple)
    returns (tree: Option<StoryNode>, expanding: set<string>, error: Option<string>)
    ensures Trim(input) == [] ==> tree == None && error == None
    ensures Trim(input) != [] ==>
      var outcome := oracle(Trim(input));
      var check := CheckExpansionResponse(outcome);
      && tree.Some?
      && (check.Success? ==>
            var root := FindNodeById(tree.value, "root");
            && root.Some? && root.value.isExpanded && |root.value.children| == 3
            && (forall i :: 0 <= i < 3 ==> root.value.children[i].text == check.value[i]))
      && (check.Failure? ==> tree == Some(NewRoot(Trim(input))) && error == Some(check.error))
    ensures expanding == {}
  {
    var page := new TreeEngine();
    page.StartNewStory(input, oracle, salts);
    tree, expanding, error := page.storyData, page.expandingNodes, page.error;
    if Trim(input) != [] {
      var check := CheckExpansionResponse(oracle(Trim(input)));
      if check.Success? {
        var root := NewRoot(Trim(input));
        assert FindNodeById(root, "root") == Some(root);
        SetNodeChildrenAtTarget(root, "root", check.value, salts);
      }
    }
  }
}
