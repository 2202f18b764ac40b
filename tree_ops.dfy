/** The locator and the mutator of the story tree: `findNodeById` and
    `updateNodeById` (src/app/page.tsx), with what they promise. */
module TreeOps {
  import opened Wrappers
  import opened StoryNodes

  /** The first node of `s` whose identity is `id`: the reference that the
      tree search is measured against. */
  function FirstWithId(s: seq<StoryNode>, id: string): (r: Option<StoryNode>)
    ensures r.None? <==> forall k :: 0 <= k < |s| ==> s[k].id != id
    ensures r.Some? ==>
      exists k :: 0 <= k < |s| && s[k] == r.value && r.value.id == id &&
        forall j :: 0 <= j < k ==> s[j].id != id
  {
    if s == [] then None
    else if s[0].id == id then Some(s[0])
    else
      var r := FirstWithId(s[1..], id);
      assert forall k :: 1 <= k < |s| ==> s[k] == s[1..][k - 1];
      r
  }

  lemma {:induction false} FirstWithIdAppend(a: seq<StoryNode>, b: seq<StoryNode>, id: string)
    ensures FirstWithId(a + b, id) ==
            if FirstWithId(a, id).Some? then FirstWithId(a, id) else FirstWithId(b, id)
  {
    if a != [] {
      assert (a + b)[1..] == a[1..] + b;
      FirstWithIdAppend(a[1..], b, id);
    } else {
      assert a + b == b;
    }
  }

  /** `findNodeById`: the node itself when it matches, otherwise the first
      match among its children, searched in order. */
  function FindNodeById(node: StoryNode, id: string): (r: Option<StoryNode>)
    ensures r.Some? ==> r.value.id == id
    decreases node, 1
  {
    if node.id == id then Some(node) else FindInChildren(node, 0, id)
  }

  /** The `for (const child of node.children)` loop of `findNodeById`, from child `k` on. */
  function FindInChildren(node: StoryNode, k: nat, id: string): (r: Option<StoryNode>)
    ensures r.Some? ==> r.value.id == id
    decreases node, 0, |node.children| - k
  {
    if k >= |node.children| then None
    else
      match FindNodeById(node.children[k], id)
      case Some(found) => Some(found)
      case None => FindInChildren(node, k + 1, id)
  }

  /** The search is pre-order and the first match wins. */
  lemma {:induction false} FindIsFirstPreOrderMatch(t: StoryNode, id: string)
    ensures FindNodeById(t, id) == FirstWithId(PreOrder(t), id)
    decreases t, 1
  {
    assert ([t] + PreOrderFrom(t, 0))[1..] == PreOrderFrom(t, 0);
    FindInChildrenIsFirstMatch(t, 0, id);
  }

  lemma {:induction false} FindInChildrenIsFirstMatch(t: StoryNode, k: nat, id: string)
    ensures FindInChildren(t, k, id) == FirstWithId(PreOrderFrom(t, k), id)
    decreases t, 0, |t.children| - k
  {
    if k < |t.children| {
      FirstWithIdAppend(PreOrder(t.children[k]), PreOrderFrom(t, k + 1), id);
      FindIsFirstPreOrderMatch(t.children[k], id);
      FindInChildrenIsFirstMatch(t, k + 1, id);
    }
  }

  /** The search fails exactly when no node of the tree has the identity. */
  lemma {:induction false} FindNoneIffAbsent(t: StoryNode, id: string)
    ensures FindNodeById(t, id).None? <==> !HasId(t, id)
    decreases t, 1
  {
    FindInChildrenNoneIffAbsent(t, 0, id);
  }

  lemma {:induction false} FindInChildrenNoneIffAbsent(t: StoryNode, k: nat, id: string)
    ensures FindInChildren(t, k, id).None? <==>
            forall j :: k <= j < |t.children| ==> !HasId(t.children[j], id)
    decreases t, 0, |t.children| - k
  {
    if k < |t.children| {
      FindNoneIffAbsent(t.children[k], id);
      FindInChildrenNoneIffAbsent(t, k + 1, id);
    }
  }

  /** The result of a successful search is a node of the tree with that identity,
      and every node of the tree that has the identity makes the search succeed. */
  lemma FindNodeByIdSpec(t: StoryNode, id: string)
    ensures FindNodeById(t, id).Some? ==>
      FindNodeById(t, id).value in PreOrder(t) && FindNodeById(t, id).value.id == id
    ensures (exists n :: n in PreOrder(t) && n.id == id) <==> FindNodeById(t, id).Some?
  {
    FindIsFirstPreOrderMatch(t, id);
    var s := PreOrder(t);
    if FindNodeById(t, id).None? {
      forall n | n in s ensures n.id != id {
        var k :| 0 <= k < |s| && s[k] == n;
      }
    }
  }

  /** `updateNodeById`: the matching node is replaced by `updater(node)`;
      every other node is copied with its children mapped recursively. */
  function UpdateNodeById(node: StoryNode, id: string, updater: StoryNode -> StoryNode): (r: StoryNode)
    ensures node.id == id ==> r == updater(node)
    ensures node.id != id ==> Header(r) == Header(node)
    decreases node
  {
    if node.id == id then updater(node)
    else node.(children := seq(|node.children|, i requires 0 <= i < |node.children| =>
                                 UpdateNodeById(node.children[i], id, updater)))
  }

  /** A stale update, for an identity the tree does not have, gives back the tree unchanged. */
  lemma {:induction false} UpdateAbsentIsIdentity(t: StoryNode, id: string, updater: StoryNode -> StoryNode)
    requires !HasId(t, id)
    ensures UpdateNodeById(t, id, updater) == t
    decreases t
  {
    var u := UpdateNodeById(t, id, updater);
    forall k | 0 <= k < |t.children| ensures u.children[k] == t.children[k] {
      UpdateAbsentIsIdentity(t.children[k], id, updater);
    }
    assert u.children == t.children;
  }

  /** Looking up the updated identity in the updated tree finds `updater`
      applied to what the lookup found before, provided `updater` keeps the
      identity (as every updater of the program does). */
  lemma {:induction false} FindAfterUpdate(t: StoryNode, id: string, updater: StoryNode -> StoryNode)
    requires FindNodeById(t, id).Some?
    requires updater(FindNodeById(t, id).value).id == id
    ensures FindNodeById(UpdateNodeById(t, id, updater), id) == Some(updater(FindNodeById(t, id).value))
    decreases t, 1
  {
    if t.id != id {
      FindInChildrenAfterUpdate(t, 0, id, updater);
    }
  }

  lemma {:induction false} FindInChildrenAfterUpdate(t: StoryNode, k: nat, id: string, updater: StoryNode -> StoryNode)
    requires t.id != id
    requires FindInChildren(t, k, id).Some?
    requires updater(FindInChildren(t, k, id).value).id == id
    ensures FindInChildren(UpdateNodeById(t, id, updater), k, id) ==
            Some(updater(FindInChildren(t, k, id).value))
    decreases t, 0, |t.children| - k
  {
    var u := UpdateNodeById(t, id, updater);
    var child := t.children[k];
    assert u.children[k] == UpdateNodeById(child, id, updater);
    if FindNodeById(child, id).Some? {
      FindAfterUpdate(child, id, updater);
    } else {
      FindNoneIffAbsent(child, id);
      UpdateAbsentIsIdentity(child, id, updater);
      FindInChildrenAfterUpdate(t, k + 1, id, updater);
    }
  }

  /** A node that neither is, nor lies below, a node with identity `id` keeps
      its position, its own fields and its number of children; if nothing in
      its subtree has the identity, the whole subtree is kept. */
  lemma {:induction false} UpdateKeepsUntargeted(t: StoryNode, id: string, updater: StoryNode -> StoryNode, p: seq<nat>)
    requires AvoidsAlong(t, p, id)
    ensures At(t, p).Some? && At(UpdateNodeById(t, id, updater), p).Some?
    ensures Header(At(UpdateNodeById(t, id, updater), p).value) == Header(At(t, p).value)
    ensures !HasId(At(t, p).value, id) ==> At(UpdateNodeById(t, id, updater), p) == At(t, p)
    decreases |p|
  {
    var u := UpdateNodeById(t, id, updater);
    if p == [] {
      if !HasId(t, id) {
        UpdateAbsentIsIdentity(t, id, updater);
      }
    } else {
      assert u.children[p[0]] == UpdateNodeById(t.children[p[0]], id, updater);
      UpdateKeepsUntargeted(t.children[p[0]], id, updater, p[1..]);
    }
  }

  /** The first node with identity `id` along a path is replaced by `updater`
      applied to it, at the same position. */
  lemma {:induction false} UpdateReplacesFirstMatch(t: StoryNode, id: string, updater: StoryNode -> StoryNode, p: seq<nat>)
    requires FirstMatchAt(t, p, id)
    ensures At(t, p).Some?
    ensures At(UpdateNodeById(t, id, updater), p) == Some(updater(At(t, p).value))
    decreases |p|
  {
    if p != [] {
      var u := UpdateNodeById(t, id, updater);
      assert u.children[p[0]] == UpdateNodeById(t.children[p[0]], id, updater);
      UpdateReplacesFirstMatch(t.children[p[0]], id, updater, p[1..]);
    }
  }

  /** Every path of the tree either avoids `id` or passes a first match of it
      on the way: the two lemmas above describe every node of the result. */
  lemma {:induction false} PathIsClassified(t: StoryNode, id: string, p: seq<nat>)
    requires At(t, p).Some?
    ensures AvoidsAlong(t, p, id) || exists q: seq<nat> :: q <= p && FirstMatchAt(t, q, id)
    decreases |p|
  {
    if t.id == id {
      var q: seq<nat> := [];
      assert q <= p && FirstMatchAt(t, q, id);
      assert exists q: seq<nat> :: q <= p && FirstMatchAt(t, q, id);
    } else if p != [] {
      PathIsClassified(t.children[p[0]], id, p[1..]);
      if !AvoidsAlong(t.children[p[0]], p[1..], id) {
        var q :| q <= p[1..] && FirstMatchAt(t.children[p[0]], q, id);
        var q' := [p[0]] + q;
        assert q'[1..] == q;
        assert FirstMatchAt(t, q', id);
        assert p == [p[0]] + p[1..];
        assert q' <= p;
        assert exists q: seq<nat> :: q <= p && FirstMatchAt(t, q, id);
      }
    }
  }

  /** Updating twice with mutually inverse updaters that keep the identity
      restores the tree. */
  lemma {:induction false} UpdateUndo(t: StoryNode, id: string, f: StoryNode -> StoryNode, g: StoryNode -> StoryNode)
    requires forall n: StoryNode :: n.id == id ==> f(n).id == id && g(f(n)) == n
    ensures UpdateNodeById(UpdateNodeById(t, id, f), id, g) == t
    decreases t
  {
    if t.id != id {
      var u := UpdateNodeById(t, id, f);
      var v := UpdateNodeById(u, id, g);
      forall k | 0 <= k < |t.children| ensures v.children[k] == t.children[k] {
        UpdateUndo(t.children[k], id, f, g);
      }
      assert v.children == t.children;
    }
  }

  /** What an updater must keep for the tree to stay well formed: the new node
      is well formed and keeps the identity, parent and beat of the old one. */
  predicate ShapeKept(before: StoryNode, after: StoryNode)
  {
    WellFormed(after) && after.id == before.id && after.parentId == before.parentId &&
    after.beatIndex == before.beatIndex
  }

  /** An update whose updater keeps the shape of every well-formed matching
      node keeps the tree well formed, and keeps the root's identity, parent and beat. */
  lemma {:induction false} UpdatePreservesWellFormed(t: StoryNode, id: string, updater: StoryNode -> StoryNode)
    requires WellFormed(t)
    requires forall n :: n in PreOrder(t) && n.id == id && WellFormed(n) ==> ShapeKept(n, updater(n))
    ensures ShapeKept(t, UpdateNodeById(t, id, updater))
    decreases t
  {
    var u := UpdateNodeById(t, id, updater);
    if t.id == id {
      assert t in PreOrder(t);
    } else {
      forall k | 0 <= k < |t.children|
        ensures ShapeKept(t.children[k], u.children[k])
      {
        forall n | n in PreOrder(t.children[k]) && n.id == id && WellFormed(n)
          ensures ShapeKept(n, updater(n))
        {
          PreOrderOfChild(t, k, n);
        }
        UpdatePreservesWellFormed(t.children[k], id, updater);
      }
      assert ShapeOk(u);
    }
  }
}
