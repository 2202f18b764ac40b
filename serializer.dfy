/** The export of the story as indented text: `collectStoryText`. */
module Serializer {
  import opened Wrappers
  import opened StoryNodes

  /** `"  ".repeat(depth)`. */
  function Indent(depth: nat): (s: string)
    ensures |s| == 2 * depth && forall i :: 0 <= i < |s| ==> s[i] == ' '
  {
    if depth == 0 then "" else "  " + Indent(depth - 1)
  }

  /** The tag in front of a sentence: its beat label when it has a beat, the
      premise tag for a beat-less node at depth 0, nothing otherwise. */
  function Prefix(node: StoryNode, depth: nat): (r: string)
    ensures r != "" <==> node.beatIndex.Some? || depth == 0
    ensures r != "" ==> |r| >= 3 && r[0] == '[' && r[|r| - 2] == ']' && r[|r| - 1] == ' '
  {
    if node.beatIndex.Some? then "[" + BeatLabel(node.beatIndex.value) + "] "
    else if depth == 0 then "[PREMISE] "
    else ""
  }

  /** The line emitted for one visited node. */
  function Line(node: StoryNode, depth: nat): string
  {
    Indent(depth) + Prefix(node, depth) + node.text + "\n"
  }

  /** A line is the indentation, the tag, the sentence unchanged and a newline. */
  lemma LineParts(node: StoryNode, depth: nat)
    ensures var r := Line(node, depth);
      |r| == 2 * depth + |Prefix(node, depth)| + |node.text| + 1 &&
      r[..2 * depth] == Indent(depth) && r[|r| - 1] == '\n' &&
      r[2 * depth + |Prefix(node, depth)|..|r| - 1] == node.text
  {
  }

  /** One node visited by the walk, with the depth it is visited at. */
  datatype Visit = Visit(node: StoryNode, depth: nat)

  /** The nodes the walk visits, in order: the node, then, only when it is
      expanded, the visits of each child one level deeper. */
  function Visible(node: StoryNode, depth: nat): seq<Visit>
    decreases node, 1
  {
    [Visit(node, depth)] + (if node.isExpanded then VisibleChildren(node.children, depth + 1) else [])
  }

  /** The visits of a run of siblings, left to right. */
  function VisibleChildren(cs: seq<StoryNode>, depth: nat): seq<Visit>
    decreases cs, 0
  {
    if cs == [] then [] else VisibleChildren(cs[..|cs| - 1], depth) + Visible(cs[|cs| - 1], depth)
  }

  /** One line per visit, in visiting order. */
  function Lines(vs: seq<Visit>): (ls: seq<string>)
    ensures |ls| == |vs| && forall i :: 0 <= i < |vs| ==> ls[i] == Line(vs[i].node, vs[i].depth)
  {
    seq(|vs|, i requires 0 <= i < |vs| => Line(vs[i].node, vs[i].depth))
  }

  /** The lines joined, in order. */
  function Concat(ls: seq<string>): string
  {
    if ls == [] then "" else Concat(ls[..|ls| - 1]) + ls[|ls| - 1]
  }

  /** The exported text of the visits. */
  function Render(vs: seq<Visit>): string
  {
    Concat(Lines(vs))
  }

  lemma {:induction false} ConcatAppend(a: seq<string>, b: seq<string>)
    ensures Concat(a + b) == Concat(a) + Concat(b)
    decreases |b|
  {
    if b == [] {
      assert a + b == a;
    } else {
      var ab, init := a + b, b[..|b| - 1];
      assert ab[..|ab| - 1] == a + init;
      assert ab[|ab| - 1] == b[|b| - 1];
      ConcatAppend(a, init);
    }
  }

  lemma RenderAppend(a: seq<Visit>, b: seq<Visit>)
    ensures Render(a + b) == Render(a) + Render(b)
  {
    assert Lines(a + b) == Lines(a) + Lines(b);
    ConcatAppend(Lines(a), Lines(b));
  }

  /** The text of a single visit is its line. */
  lemma RenderOne(node: StoryNode, depth: nat)
    ensures Render([Visit(node, depth)]) == Line(node, depth)
  {
    assert Lines([Visit(node, depth)]) == [Line(node, depth)];
    assert Concat([Line(node, depth)]) == Concat([]) + Line(node, depth);
  }

  /** The text `collectStoryText` returns, by the shape of its recursion:
      the node's line, then, when it is expanded, each child's text one
      level deeper. */
  function StoryText(node: StoryNode, depth: nat): string
    decreases node, 1
  {
    Line(node, depth) + (if node.isExpanded then ChildrenText(node.children, depth + 1) else "")
  }

  /** The texts of a run of siblings, left to right. */
  function ChildrenText(cs: seq<StoryNode>, depth: nat): string
    decreases cs, 0
  {
    if cs == [] then "" else ChildrenText(cs[..|cs| - 1], depth) + StoryText(cs[|cs| - 1], depth)
  }

  /** The recursive text is the rendering of the visit order, line by line. */
  lemma {:induction false} StoryTextRendersVisits(node: StoryNode, depth: nat)
    ensures StoryText(node, depth) == Render(Visible(node, depth))
    decreases node, 1
  {
    RenderOne(node, depth);
    if node.isExpanded {
      ChildrenTextRendersVisits(node.children, depth + 1);
      RenderAppend([Visit(node, depth)], VisibleChildren(node.children, depth + 1));
    } else {
      assert Visible(node, depth) == [Visit(node, depth)];
    }
  }

  lemma {:induction false} ChildrenTextRendersVisits(cs: seq<StoryNode>, depth: nat)
    ensures ChildrenText(cs, depth) == Render(VisibleChildren(cs, depth))
    decreases cs, 0
  {
    if cs == [] {
      assert Lines([]) == [];
    } else {
      var init, last := cs[..|cs| - 1], cs[|cs| - 1];
      ChildrenTextRendersVisits(init, depth);
      StoryTextRendersVisits(last, depth);
      RenderAppend(VisibleChildren(init, depth), Visible(last, depth));
    }
  }

  /** The first line `collectStoryText` builds for `node`: indentation, tag, sentence. */
  method NodeLine(node: StoryNode, depth: nat) returns (line: string)
    ensures line == Line(node, depth)
  {
    var indent := Indent(depth);
    var prefix := "";
    if node.beatIndex.Some? {
      prefix := "[" + BeatLabel(node.beatIndex.value) + "] ";
    } else if depth == 0 {
      prefix := "[PREMISE] ";
    }
    line := indent + prefix + node.text + "\n";
  }

  /** The text of `node` and of its first `i` children grows by one child's text at a time. */
  lemma TextNextChild(node: StoryNode, depth: nat, i: nat)
    requires i < |node.children|
    ensures Line(node, depth) + ChildrenText(node.children[..i + 1], depth + 1) ==
            (Line(node, depth) + ChildrenText(node.children[..i], depth + 1)) + StoryText(node.children[i], depth + 1)
  {
    var cs := node.children[..i + 1];
    assert cs[..|cs| - 1] == node.children[..i] && cs[|cs| - 1] == node.children[i];
    AppendAssoc(Line(node, depth), ChildrenText(node.children[..i], depth + 1), StoryText(node.children[i], depth + 1));
  }

  /** The text before any child is the node's own line, and after every child
      it is the node's whole text; a collapsed node's text is its line. */
  lemma TextBounds(node: StoryNode, depth: nat)
    ensures Line(node, depth) + ChildrenText(node.children[..0], depth + 1) == Line(node, depth)
    ensures node.isExpanded ==>
              StoryText(node, depth) == Line(node, depth) + ChildrenText(node.children[..|node.children|], depth + 1)
    ensures !node.isExpanded ==> StoryText(node, depth) == Line(node, depth)
  {
    assert node.children[..0] == [];
    assert node.children[..|node.children|] == node.children;
  }

  /** `collectStoryText`: the line of `node`, then, when it is expanded, the
      text of each child in order, one level deeper; by
      `StoryTextRendersVisits` this is the rendering of `Visible(node, depth)`. */
  method CollectStoryText(node: StoryNode, depth: nat) returns (content: string)
    ensures content == StoryText(node, depth)
    decreases node
  {
    content := NodeLine(node, depth);
    TextBounds(node, depth);
    if node.isExpanded {
      var i := 0;
      while i < |node.children|
        invariant 0 <= i <= |node.children|
        invariant content == Line(node, depth) + ChildrenText(node.children[..i], depth + 1)
      {
        var sub := CollectStoryText(node.children[i], depth + 1);
        TextNextChild(node, depth, i);
        content := content + sub;
        i := i + 1;
      }
    }
  }

  /** A collapsed node contributes exactly its own line: its children, even
      when it holds three of them, never reach the output. */
  lemma CollapsedHidesChildren(node: StoryNode, depth: nat, others: seq<StoryNode>)
    requires !node.isExpanded
    ensures StoryText(node, depth) == Line(node, depth)
    ensures StoryText(node.(children := others), depth) == StoryText(node, depth)
    ensures Visible(node, depth) == [Visit(node, depth)]
  {
  }

  /** Every path from `t` along which each node before the end is expanded. */
  predicate OpenPath(t: StoryNode, p: seq<nat>)
    decreases |p|
  {
    p == [] || (t.isExpanded && p[0] < |t.children| && OpenPath(t.children[p[0]], p[1..]))
  }

  lemma {:induction false} OpenPathReaches(t: StoryNode, p: seq<nat>)
    requires OpenPath(t, p)
    ensures At(t, p).Some?
    decreases |p|
  {
    if p != [] {
      OpenPathReaches(t.children[p[0]], p[1..]);
    }
  }

  /** Every visit of the walk is a node reached by an open path, at the depth
      given by the path's length. */
  lemma {:induction false} VisitsFollowOpenPaths(t: StoryNode, depth: nat, v: Visit)
    requires v in Visible(t, depth)
    ensures exists p: seq<nat> :: OpenPath(t, p) && At(t, p) == Some(v.node) && v.depth == depth + |p|
    decreases t, 1
  {
    if v == Visit(t, depth) {
      var p: seq<nat> := [];
      assert OpenPath(t, p) && At(t, p) == Some(v.node) && v.depth == depth + |p|;
    } else {
      assert t.isExpanded && v in VisibleChildren(t.children, depth + 1);
      var k := ChildVisited(t.children, depth + 1, v);
      VisitsFollowOpenPaths(t.children[k], depth + 1, v);
      var q: seq<nat> :| OpenPath(t.children[k], q) && At(t.children[k], q) == Some(v.node) && v.depth == depth + 1 + |q|;
      var p: seq<nat> := [k] + q;
      assert p[1..] == q;
      assert OpenPath(t, p) && At(t, p) == Some(v.node) && v.depth == depth + |p|;
    }
  }

  /** A visit among the siblings' visits comes from one of the siblings. */
  lemma {:induction false} ChildVisited(cs: seq<StoryNode>, depth: nat, v: Visit) returns (k: nat)
    requires v in VisibleChildren(cs, depth)
    ensures k < |cs| && v in Visible(cs[k], depth)
    decreases |cs|
  {
    var init := cs[..|cs| - 1];
    if v in VisibleChildren(init, depth) {
      k := ChildVisited(init, depth, v);
      assert cs[k] == init[k];
    } else {
      k := |cs| - 1;
    }
  }

  /** Every node reached by an open path is visited, at the depth given by the
      path's length. */
  lemma {:induction false} OpenPathsAreVisited(t: StoryNode, depth: nat, p: seq<nat>)
    requires OpenPath(t, p)
    ensures At(t, p).Some? && Visit(At(t, p).value, depth + |p|) in Visible(t, depth)
    decreases |p|
  {
    OpenPathReaches(t, p);
    if p != [] {
      var k := p[0];
      OpenPathsAreVisited(t.children[k], depth + 1, p[1..]);
      SiblingVisitsIncluded(t.children, depth + 1, k, Visit(At(t, p).value, depth + |p|));
    }
  }

  lemma {:induction false} SiblingVisitsIncluded(cs: seq<StoryNode>, depth: nat, k: nat, v: Visit)
    requires k < |cs| && v in Visible(cs[k], depth)
    ensures v in VisibleChildren(cs, depth)
    decreases |cs|
  {
    if k < |cs| - 1 {
      var init := cs[..|cs| - 1];
      assert init[k] == cs[k];
      SiblingVisitsIncluded(init, depth, k, v);
    }
  }

  /** In a well-formed story, the root is the only node visited at depth 0
      and gets the premise tag; every other visited node carries the label of
      its beat, which is its position among its siblings. */
  lemma VisitedPrefixes(t: StoryNode, depth: nat, v: Visit)
    requires WellFormed(t)
    requires depth == 0 ==> IsRoot(t)
    requires depth > 0 ==> t.beatIndex.Some?
    requires v in Visible(t, depth)
    ensures v.depth == 0 ==> v.node == t && Prefix(v.node, 0) == "[PREMISE] "
    ensures v.depth > 0 ==>
              v.node.beatIndex.Some? && Prefix(v.node, v.depth) == "[" + BeatLabel(v.node.beatIndex.value) + "] "
  {
    VisitedBelowHaveBeats(t, depth, v);
  }

  /** A visit other than the first is deeper than `depth` and of a node with a beat. */
  lemma {:induction false} VisitedBelowHaveBeats(t: StoryNode, depth: nat, v: Visit)
    requires WellFormed(t)
    requires v in Visible(t, depth)
    ensures v == Visit(t, depth) || (v.depth > depth && v.node.beatIndex.Some?)
    decreases t, 1
  {
    if v != Visit(t, depth) {
      assert t.isExpanded && v in VisibleChildren(t.children, depth + 1);
      var k := ChildVisited(t.children, depth + 1, v);
      var c := t.children[k];
      assert ShapeOk(t) && WellFormed(c);
      assert c.beatIndex == Some(k);
      VisitedBelowHaveBeats(c, depth + 1, v);
    }
  }

  /** An expanded node whose three children are collapsed exports as its
      own line followed by the line of each child, in order. */
  lemma ExpandedTripleText(t: StoryNode, depth: nat)
    requires t.isExpanded && |t.children| == 3
    requires forall i :: 0 <= i < 3 ==> !t.children[i].isExpanded
    ensures StoryText(t, depth) ==
      ((Line(t, depth) + Line(t.children[0], depth + 1)) + Line(t.children[1], depth + 1)) + Line(t.children[2], depth + 1)
  {
    var kids := t.children;
    var l0, l1, l2, l3 := Line(t, depth), Line(kids[0], depth + 1), Line(kids[1], depth + 1), Line(kids[2], depth + 1);
    assert kids[..3] == kids && kids[..3][..2] == kids[..2] && kids[..2][..1] == kids[..1] && kids[..1][..0] == [];
    assert StoryText(kids[0], depth + 1) == l1 && StoryText(kids[1], depth + 1) == l2 && StoryText(kids[2], depth + 1) == l3;
    assert ChildrenText(kids[..1], depth + 1) == l1;
    assert ChildrenText(kids[..2], depth + 1) == ChildrenText(kids[..1], depth + 1) + l2;
    assert ChildrenText(kids, depth + 1) == ChildrenText(kids[..2], depth + 1) + l3;
    AppendAssoc(l0, l1 + l2, l3);
    AppendAssoc(l0, l1, l2);
  }

  /** Joining strings does not depend on grouping. */
  lemma AppendAssoc(a: string, b: string, c: string)
    ensures a + (b + c) == (a + b) + c
  {
    assert |a + (b + c)| == |(a + b) + c|;
  }

  /** A premise expanded once, its three children collapsed, exports as four
      lines: the premise tag at depth 0 and the three beat labels indented once. */
  lemma ExpandedPremiseExport(root: StoryNode)
    requires IsRoot(root) && root.isExpanded && |root.children| == 3
    requires forall i :: 0 <= i < 3 ==> !root.children[i].isExpanded && root.children[i].beatIndex == Some(i)
    ensures StoryText(root, 0) ==
      ("[PREMISE] " + root.text + "\n") +
      ("  [INICIO] " + root.children[0].text + "\n") +
      ("  [NUDO] " + root.children[1].text + "\n") +
      ("  [DESENLACE] " + root.children[2].text + "\n")
  {
    ExpandedTripleText(root, 0);
    PremiseLine(root);
    BeatLine(root.children[0], 0);
    BeatLine(root.children[1], 1);
    BeatLine(root.children[2], 2);
    BeatTags();
  }

  lemma PremiseLine(n: StoryNode)
    requires n.beatIndex.None?
    ensures Line(n, 0) == "[PREMISE] " + n.text + "\n"
  {
  }

  /** The line of a child of the premise. */
  lemma BeatLine(n: StoryNode, b: BeatIndex)
    requires n.beatIndex == Some(b)
    ensures Line(n, 1) == ("  [" + BeatLabel(b) + "] ") + n.text + "\n"
  {
    assert Indent(1) == "  ";
  }

  /** The indented tags of the three beats, written out. */
  lemma BeatTags()
    ensures "  [" + BeatLabel(0) + "] " == "  [INICIO] "
    ensures "  [" + BeatLabel(1) + "] " == "  [NUDO] "
    ensures "  [" + BeatLabel(2) + "] " == "  [DESENLACE] "
  {
  }
}
