/**
 * The transform system: world matrices pushed down the scene hierarchy.
 *
 * A node's world matrix is recomputed, as the parent's world times its local
 * matrix, exactly when its local matrix had to be rebuilt or its parent's
 * world was recomputed; a camera on a recomputed node gets the new world. The
 * recursive traversal `update_transform_recursive` is the reference: the
 * explicit-stack traversal is proved to leave the nodes and cameras exactly
 * as it does. The level-order batches group the handles by depth.
 *
 * The traversals never change the shape of the hierarchy, only pending flags,
 * world matrices and cameras. Every traversal takes a ghost rank witnessing
 * that the child links have no cycle; on a cyclic graph the source never
 * terminates.
 */
module TransformSystem {
  import opened Wrappers
  import opened SceneGraph

  /**
   * The node slot map and the camera side map. A camera is represented by
   * the world matrix its view-projection was last computed from.
   */
  datatype World = World(nodes: map<NodeHandle, Node>, cameras: map<NodeHandle, Affine>)

  /** `b` is `a` with at most pending flags and world matrices changed. */
  ghost predicate WorldsOnly(b: map<NodeHandle, Node>, a: map<NodeHandle, Node>)
  {
    && b.Keys == a.Keys
    && forall k :: k in b ==>
         && b[k].parent == a[k].parent && b[k].children == a[k].children
         && b[k].visible == a[k].visible && b[k].transform.local == a[k].transform.local
  }

  lemma RankedWorldsOnly(a: map<NodeHandle, Node>, b: map<NodeHandle, Node>, rank: map<NodeHandle, nat>)
    requires Ranked(a, rank) && WorldsOnly(b, a)
    ensures Ranked(b, rank)
  {
    forall h | h in b
      ensures h in rank && forall c :: c in b[h].children && c in rank ==> rank[c] < rank[h]
    {
      assert b[h].children == a[h].children;
    }
  }

  /** The world matrix of the node's parent, or the identity when it has none or the parent is gone. */
  function ParentWorld(nodes: map<NodeHandle, Node>, h: NodeHandle): (m: Affine)
    ensures h in nodes && nodes[h].parent.Some? && nodes[h].parent.value in nodes ==>
              m == nodes[nodes[h].parent.value].transform.world
    ensures !(h in nodes && nodes[h].parent.Some? && nodes[h].parent.value in nodes) ==> m == Identity
  {
    if h in nodes && nodes[h].parent.Some? && nodes[h].parent.value in nodes then
      nodes[nodes[h].parent.value].transform.world
    else Identity
  }

  /**
   * Phase 1 for one existing node: rebuild the local matrix if it is stale;
   * recompute the world matrix, and the node's camera, exactly when the local
   * matrix was rebuilt or the parent's world changed. Returns the new state,
   * the node's world matrix and whether it was recomputed.
   */
  function Visit(w: World, h: NodeHandle, parentWorld: Affine, parentChanged: bool): (r: (World, Affine, bool))
    requires h in w.nodes
    ensures r.2 <==> w.nodes[h].transform.pending || parentChanged
    ensures r.2 ==> r.1 == Product(parentWorld, w.nodes[h].transform.local)
    ensures !r.2 ==> r.1 == w.nodes[h].transform.world
    ensures WorldsOnly(r.0.nodes, w.nodes)
    ensures r.0.nodes[h].transform.world == r.1 && !r.0.nodes[h].transform.pending
    ensures forall k :: k in w.nodes && k != h ==> r.0.nodes[k] == w.nodes[k]
    ensures r.0.cameras.Keys == w.cameras.Keys
    ensures forall k :: k in w.cameras ==>
              r.0.cameras[k] == if k == h && r.2 then r.1 else w.cameras[k]
  {
    var t := w.nodes[h].transform;
    var update := t.pending || parentChanged;
    var world := if update then Product(parentWorld, t.local) else t.world;
    var cameras := if update && h in w.cameras then w.cameras[h := world] else w.cameras;
    (World(w.nodes[h := w.nodes[h].(transform := t.(pending := false, world := world))], cameras), world, update)
  }

  /** The children of a handle in the shape the traversal starts from. */
  function Children(shape: map<NodeHandle, Node>, h: NodeHandle): seq<NodeHandle>
  {
    if h in shape then shape[h].children else []
  }

  /**
   * `update_transform_recursive`: the node, then the subtrees of its
   * children in order. The children are read from `shape`, the hierarchy
   * the traversal started from; the traversal never changes them.
   */
  ghost function Tree(shape: map<NodeHandle, Node>, rank: map<NodeHandle, nat>, w: World, h: NodeHandle,
                      parentWorld: Affine, parentChanged: bool): World
    requires Ranked(shape, rank)
    decreases Measure(rank, h), 1
  {
    if h !in w.nodes then w
    else
      var v := Visit(w, h, parentWorld, parentChanged);
      ChildBound(shape, rank, h);
      Forest(shape, rank, v.0, Children(shape, h), v.1, v.2)
  }

  /** The subtrees of the handles, one after the other, all under the same parent world. */
  ghost function Forest(shape: map<NodeHandle, Node>, rank: map<NodeHandle, nat>, w: World, hs: seq<NodeHandle>,
                        parentWorld: Affine, parentChanged: bool): World
    requires Ranked(shape, rank)
    decreases SeqBound(rank, hs), 0, |hs|
  {
    if hs == [] then w
    else Tree(shape, rank, Forest(shape, rank, w, hs[..|hs| - 1], parentWorld, parentChanged), hs[|hs| - 1],
              parentWorld, parentChanged)
  }

  lemma ChildBound(shape: map<NodeHandle, Node>, rank: map<NodeHandle, nat>, h: NodeHandle)
    requires Ranked(shape, rank)
    ensures SeqBound(rank, Children(shape, h)) <= Measure(rank, h)
  {
    if h in shape {
      ChildrenBelow(shape, rank, h);
    }
  }

  /** `update_transform_recursive`, as the recursive method of the source. */
  method UpdateTransformRecursive(w: World, h: NodeHandle, parentWorld: Affine, parentChanged: bool,
                                  ghost shape: map<NodeHandle, Node>, ghost rank: map<NodeHandle, nat>)
    returns (r: World)
    requires Ranked(shape, rank) && WorldsOnly(w.nodes, shape)
    ensures r == Tree(shape, rank, w, h, parentWorld, parentChanged)
    ensures WorldsOnly(r.nodes, shape) && r.cameras.Keys == w.cameras.Keys
    decreases Measure(rank, h), 1
  {
    if h !in w.nodes {
      return w;
    }
    var v := Visit(w, h, parentWorld, parentChanged);
    var children := v.0.nodes[h].children;
    assert children == Children(shape, h);
    ChildBound(shape, rank, h);
    r := UpdateChildren(v.0, children, v.1, v.2, shape, rank);
  }

  /** Phase 2 of `update_transform_recursive`: the children in order, under the node's world. */
  method UpdateChildren(w: World, children: seq<NodeHandle>, world: Affine, update: bool,
                        ghost shape: map<NodeHandle, Node>, ghost rank: map<NodeHandle, nat>)
    returns (r: World)
    requires Ranked(shape, rank) && WorldsOnly(w.nodes, shape)
    ensures r == Forest(shape, rank, w, children, world, update)
    ensures WorldsOnly(r.nodes, shape) && r.cameras.Keys == w.cameras.Keys
    decreases SeqBound(rank, children), 0
  {
    r := w;
    for i := 0 to |children|
      invariant r == Forest(shape, rank, w, children[..i], world, update)
      invariant WorldsOnly(r.nodes, shape) && r.cameras.Keys == w.cameras.Keys
    {
      assert children[..i + 1][..i] == children[..i];
      r := UpdateTransformRecursive(r, children[i], world, update, shape, rank);
    }
    assert children[..|children|] == children;
  }

  /** `update_hierarchy`: every root in order, from the identity, with no parent change. */
  method UpdateHierarchy(w: World, roots: seq<NodeHandle>, ghost rank: map<NodeHandle, nat>) returns (r: World)
    requires Ranked(w.nodes, rank)
    ensures r == Forest(w.nodes, rank, w, roots, Identity, false)
  {
    RankedWorldsOnly(w.nodes, w.nodes, rank);
    r := UpdateChildren(w, roots, Identity, false, w.nodes, rank);
  }

  /** `update_subtree`: the subtree of an existing node, forced, under its parent's current world. */
  method UpdateSubtree(w: World, root: NodeHandle, ghost rank: map<NodeHandle, nat>) returns (r: World)
    requires Ranked(w.nodes, rank)
    ensures r == Tree(w.nodes, rank, w, root, ParentWorld(w.nodes, root), true)
  {
    if root !in w.nodes {
      return w;
    }
    var parentWorld := Identity;
    var parent := w.nodes[root].parent;
    if parent.Some? {
      if parent.value in w.nodes {
        parentWorld := w.nodes[parent.value].transform.world;
      }
    }
    r := UpdateTransformRecursive(w, root, parentWorld, true, w.nodes, rank);
  }

  // ---------------------------------------------------------------------
  // The explicit-stack traversal

  /** A stack entry: a handle, its parent's world matrix, and whether that world was recomputed. */
  datatype Item = Item(handle: NodeHandle, parentWorld: Affine, parentChanged: bool)

  /** What is left to do for a stack: the subtree of the top entry, then the rest of the stack. */
  ghost function RunStack(shape: map<NodeHandle, Node>, rank: map<NodeHandle, nat>, w: World, stack: seq<Item>): World
    requires Ranked(shape, rank)
    decreases |stack|
  {
    if stack == [] then w
    else
      var top := stack[|stack| - 1];
      RunStack(shape, rank, Tree(shape, rank, w, top.handle, top.parentWorld, top.parentChanged), stack[..|stack| - 1])
  }

  /** The entries pushed for the handles in reverse, so that the first handle ends on top. */
  function Pushed(hs: seq<NodeHandle>, parentWorld: Affine, parentChanged: bool): (s: seq<Item>)
    ensures |s| == |hs|
    ensures forall i :: 0 <= i < |hs| ==> s[i] == Item(hs[|hs| - 1 - i], parentWorld, parentChanged)
  {
    seq(|hs|, i requires 0 <= i < |hs| => Item(hs[|hs| - 1 - i], parentWorld, parentChanged))
  }

  lemma PushedFront(hs: seq<NodeHandle>, parentWorld: Affine, parentChanged: bool)
    requires hs != []
    ensures Pushed(hs, parentWorld, parentChanged)
            == Pushed(hs[1..], parentWorld, parentChanged) + [Item(hs[0], parentWorld, parentChanged)]
  {
  }

  lemma PushedBack(hs: seq<NodeHandle>, parentWorld: Affine, parentChanged: bool)
    requires hs != []
    ensures Pushed(hs, parentWorld, parentChanged)
            == [Item(hs[|hs| - 1], parentWorld, parentChanged)] + Pushed(hs[..|hs| - 1], parentWorld, parentChanged)
  {
  }

  /** Running a stack is running its upper part, then its lower part. */
  lemma {:induction false} RunStackAppend(shape: map<NodeHandle, Node>, rank: map<NodeHandle, nat>, w: World,
                                          a: seq<Item>, b: seq<Item>)
    requires Ranked(shape, rank)
    ensures RunStack(shape, rank, w, a + b) == RunStack(shape, rank, RunStack(shape, rank, w, b), a)
    decreases |b|
  {
    if b == [] {
      assert a + b == a;
    } else {
      var top := b[|b| - 1];
      assert (a + b)[..|a + b| - 1] == a + b[..|b| - 1];
      RunStackAppend(shape, rank, Tree(shape, rank, w, top.handle, top.parentWorld, top.parentChanged), a, b[..|b| - 1]);
    }
  }

  /** Pushing the handles of a list and running the stack runs the forest of the list. */
  lemma {:induction false} PushedIsForest(shape: map<NodeHandle, Node>, rank: map<NodeHandle, nat>, w: World,
                                          hs: seq<NodeHandle>, parentWorld: Affine, parentChanged: bool)
    requires Ranked(shape, rank)
    ensures RunStack(shape, rank, w, Pushed(hs, parentWorld, parentChanged))
            == Forest(shape, rank, w, hs, parentWorld, parentChanged)
    decreases |hs|
  {
    if hs != [] {
      var init := hs[..|hs| - 1];
      var top := [Item(hs[|hs| - 1], parentWorld, parentChanged)];
      PushedBack(hs, parentWorld, parentChanged);
      RunStackAppend(shape, rank, w, top, Pushed(init, parentWorld, parentChanged));
      PushedIsForest(shape, rank, w, init, parentWorld, parentChanged);
    }
  }

  /** The number of subtree entries the stack has still to visit. */
  ghost function Weight(nodes: map<NodeHandle, Node>, rank: map<NodeHandle, nat>, stack: seq<Item>): nat
    requires Ranked(nodes, rank)
    decreases |stack|
  {
    if stack == [] then 0
    else Weight(nodes, rank, stack[..|stack| - 1]) + |Subtree(nodes, rank, stack[|stack| - 1].handle)|
  }

  lemma {:induction false} WeightAppend(nodes: map<NodeHandle, Node>, rank: map<NodeHandle, nat>, a: seq<Item>, b: seq<Item>)
    requires Ranked(nodes, rank)
    ensures Weight(nodes, rank, a + b) == Weight(nodes, rank, a) + Weight(nodes, rank, b)
    decreases |b|
  {
    if b == [] {
      assert a + b == a;
    } else {
      assert (a + b)[..|a + b| - 1] == a + b[..|b| - 1];
      WeightAppend(nodes, rank, a, b[..|b| - 1]);
    }
  }

  lemma {:induction false} WeightPushed(nodes: map<NodeHandle, Node>, rank: map<NodeHandle, nat>, hs: seq<NodeHandle>,
                                        parentWorld: Affine, parentChanged: bool)
    requires Ranked(nodes, rank)
    ensures Weight(nodes, rank, Pushed(hs, parentWorld, parentChanged)) == |Subtrees(nodes, rank, hs)|
    decreases |hs|
  {
    if hs != [] {
      var init := hs[..|hs| - 1];
      var top := [Item(hs[|hs| - 1], parentWorld, parentChanged)];
      PushedBack(hs, parentWorld, parentChanged);
      WeightAppend(nodes, rank, top, Pushed(init, parentWorld, parentChanged));
      WeightPushed(nodes, rank, init, parentWorld, parentChanged);
    }
  }

  /** The stack after pushing the roots, in reverse. */
  method PushRoots(roots: seq<NodeHandle>) returns (stack: seq<Item>)
    ensures stack == Pushed(roots, Identity, false)
  {
    stack := [];
    var i := |roots|;
    while i > 0
      invariant 0 <= i <= |roots|
      invariant stack == Pushed(roots[i..], Identity, false)
    {
      i := i - 1;
      PushedFront(roots[i..], Identity, false);
      assert roots[i..][1..] == roots[i + 1..];
      stack := stack + [Item(roots[i], Identity, false)];
    }
  }

  /** Phase 2: the children pushed in reverse, each with the node's world and its update flag. */
  method PushChildren(stack: seq<Item>, children: seq<NodeHandle>, world: Affine, update: bool) returns (s: seq<Item>)
    ensures s == stack + Pushed(children, world, update)
  {
    s := stack;
    var i := |children|;
    while i > 0
      invariant 0 <= i <= |children|
      invariant s == stack + Pushed(children[i..], world, update)
    {
      i := i - 1;
      PushedFront(children[i..], world, update);
      assert children[i..][1..] == children[i + 1..];
      s := s + [Item(children[i], world, update)];
    }
  }

  /**
   * `update_hierarchy_iterative`: the roots pushed in reverse, then entries
   * popped until the stack is empty; each popped existing node is visited
   * and its children pushed in reverse. It leaves nodes and cameras exactly
   * as `update_hierarchy` does.
   */
  method UpdateHierarchyIterative(w0: World, roots: seq<NodeHandle>, ghost rank: map<NodeHandle, nat>) returns (w: World)
    requires Ranked(w0.nodes, rank)
    ensures w == Forest(w0.nodes, rank, w0, roots, Identity, false)
  {
    ghost var shape := w0.nodes;
    var stack := PushRoots(roots);
    PushedIsForest(shape, rank, w0, roots, Identity, false);
    w := w0;
    while stack != []
      invariant WorldsOnly(w.nodes, shape)
      invariant RunStack(shape, rank, w, stack) == Forest(shape, rank, w0, roots, Identity, false)
      decreases Weight(shape, rank, stack)
    {
      var top := stack[|stack| - 1];
      var rest := stack[..|stack| - 1];
      assert stack == rest + [top];
      if top.handle in w.nodes {
        var v := Visit(w, top.handle, top.parentWorld, top.parentChanged);
        var children := v.0.nodes[top.handle].children;
        PopVisitsTree(shape, rank, w, rest, top);
        stack := PushChildren(rest, children, v.1, v.2);
        w := v.0;
      } else {
        SubtreeStartsAtRoot(shape, rank, top.handle);
        stack := rest;
      }
    }
  }

  /** Popping an existing node, visiting it and pushing its children leaves the same work to do, and less of it. */
  lemma PopVisitsTree(shape: map<NodeHandle, Node>, rank: map<NodeHandle, nat>, w: World, rest: seq<Item>, top: Item)
    requires Ranked(shape, rank) && WorldsOnly(w.nodes, shape)
    requires top.handle in w.nodes
    ensures var v := Visit(w, top.handle, top.parentWorld, top.parentChanged);
      var pushed := rest + Pushed(v.0.nodes[top.handle].children, v.1, v.2);
      && RunStack(shape, rank, v.0, pushed) == RunStack(shape, rank, w, rest + [top])
      && Weight(shape, rank, pushed) < Weight(shape, rank, rest + [top])
  {
    var h := top.handle;
    var v := Visit(w, h, top.parentWorld, top.parentChanged);
    var cs := Children(shape, h);
    assert v.0.nodes[h].children == cs;
    RunStackAppend(shape, rank, v.0, rest, Pushed(cs, v.1, v.2));
    PushedIsForest(shape, rank, v.0, cs, v.1, v.2);
    assert (rest + [top])[..|rest|] == rest;
    WeightAppend(shape, rank, rest, Pushed(cs, v.1, v.2));
    WeightPushed(shape, rank, cs, v.1, v.2);
  }

  // ---------------------------------------------------------------------
  // What a traversal recomputes

  /** The node exists, its local matrix is current, its world is a product ending in its local, and its camera follows. */
  ghost predicate Recomputed(w: World, k: NodeHandle)
  {
    && k in w.nodes
    && !w.nodes[k].transform.pending
    && w.nodes[k].transform.world.Product?
    && w.nodes[k].transform.world.right == w.nodes[k].transform.local
    && (k in w.cameras ==> w.cameras[k] == w.nodes[k].transform.world)
  }

  /** A node's update visits only the subtree below it: every other node and camera is left as it was. */
  lemma {:induction false} TreeFrame(shape: map<NodeHandle, Node>, rank: map<NodeHandle, nat>, w: World, h: NodeHandle,
                                     parentWorld: Affine, parentChanged: bool)
    requires Ranked(shape, rank) && WorldsOnly(w.nodes, shape)
    ensures var r := Tree(shape, rank, w, h, parentWorld, parentChanged);
      && WorldsOnly(r.nodes, shape) && r.cameras.Keys == w.cameras.Keys
      && (forall k :: k in w.nodes && k !in Subtree(shape, rank, h) ==> r.nodes[k] == w.nodes[k])
      && (forall k :: k in w.cameras && k !in Subtree(shape, rank, h) ==> r.cameras[k] == w.cameras[k])
    decreases Measure(rank, h), 1
  {
    if h in w.nodes {
      var v := Visit(w, h, parentWorld, parentChanged);
      ChildBound(shape, rank, h);
      ForestFrame(shape, rank, v.0, Children(shape, h), v.1, v.2);
    }
  }

  lemma {:induction false} ForestFrame(shape: map<NodeHandle, Node>, rank: map<NodeHandle, nat>, w: World, hs: seq<NodeHandle>,
                                       parentWorld: Affine, parentChanged: bool)
    requires Ranked(shape, rank) && WorldsOnly(w.nodes, shape)
    ensures var r := Forest(shape, rank, w, hs, parentWorld, parentChanged);
      && WorldsOnly(r.nodes, shape) && r.cameras.Keys == w.cameras.Keys
      && (forall k :: k in w.nodes && k !in Subtrees(shape, rank, hs) ==> r.nodes[k] == w.nodes[k])
      && (forall k :: k in w.cameras && k !in Subtrees(shape, rank, hs) ==> r.cameras[k] == w.cameras[k])
    decreases SeqBound(rank, hs), 0, |hs|
  {
    if hs != [] {
      var init := hs[..|hs| - 1];
      ForestFrame(shape, rank, w, init, parentWorld, parentChanged);
      TreeFrame(shape, rank, Forest(shape, rank, w, init, parentWorld, parentChanged), hs[|hs| - 1],
                parentWorld, parentChanged);
    }
  }

  /**
   * A forced update, as `update_subtree` does, recomputes every existing node
   * of the subtree, and keeps every node that was already recomputed so.
   */
  lemma {:induction false} ForcedTree(shape: map<NodeHandle, Node>, rank: map<NodeHandle, nat>, w: World, h: NodeHandle,
                                      parentWorld: Affine)
    requires Ranked(shape, rank) && WorldsOnly(w.nodes, shape)
    ensures var r := Tree(shape, rank, w, h, parentWorld, true);
      forall k :: (k in Subtree(shape, rank, h) && k in w.nodes) || Recomputed(w, k) ==> Recomputed(r, k)
    decreases Measure(rank, h), 1
  {
    if h in w.nodes {
      var v := Visit(w, h, parentWorld, true);
      assert Recomputed(v.0, h);
      assert forall k :: Recomputed(w, k) ==> Recomputed(v.0, k);
      ChildBound(shape, rank, h);
      ForcedForest(shape, rank, v.0, Children(shape, h), v.1);
    }
  }

  lemma {:induction false} ForcedForest(shape: map<NodeHandle, Node>, rank: map<NodeHandle, nat>, w: World, hs: seq<NodeHandle>,
                                        parentWorld: Affine)
    requires Ranked(shape, rank) && WorldsOnly(w.nodes, shape)
    ensures var r := Forest(shape, rank, w, hs, parentWorld, true);
      forall k :: (k in Subtrees(shape, rank, hs) && k in w.nodes) || Recomputed(w, k) ==> Recomputed(r, k)
    decreases SeqBound(rank, hs), 0, |hs|
  {
    if hs != [] {
      var init := hs[..|hs| - 1];
      var w1 := Forest(shape, rank, w, init, parentWorld, true);
      ForestFrame(shape, rank, w, init, parentWorld, true);
      ForcedForest(shape, rank, w, init, parentWorld);
      ForcedTree(shape, rank, w1, hs[|hs| - 1], parentWorld);
    }
  }

  /** `update_subtree` recomputes the world of every existing node of the subtree and leaves the rest alone. */
  lemma UpdateSubtreeRecomputes(w: World, rank: map<NodeHandle, nat>, root: NodeHandle)
    requires Ranked(w.nodes, rank)
    ensures var r := Tree(w.nodes, rank, w, root, ParentWorld(w.nodes, root), true);
      && r.nodes.Keys == w.nodes.Keys
      && (forall k :: k in Subtree(w.nodes, rank, root) && k in w.nodes ==> Recomputed(r, k))
      && (forall k :: k in w.nodes && k !in Subtree(w.nodes, rank, root) ==> r.nodes[k] == w.nodes[k])
  {
    ForcedTree(w.nodes, rank, w, root, ParentWorld(w.nodes, root));
    TreeFrame(w.nodes, rank, w, root, ParentWorld(w.nodes, root), true);
  }

  /**
   * Nothing is recomputed without a cause: an unforced update of a subtree
   * whose local matrices are all current leaves every node and camera as it
   * was.
   */
  lemma {:induction false} CleanTreeUnchanged(shape: map<NodeHandle, Node>, rank: map<NodeHandle, nat>, w: World,
                                              h: NodeHandle, parentWorld: Affine)
    requires Ranked(shape, rank)
    requires forall k :: k in Subtree(shape, rank, h) && k in w.nodes ==> !w.nodes[k].transform.pending
    ensures Tree(shape, rank, w, h, parentWorld, false) == w
    decreases Measure(rank, h), 1
  {
    if h in w.nodes {
      var v := Visit(w, h, parentWorld, false);
      assert v.0.nodes == w.nodes;
      ChildBound(shape, rank, h);
      if h in shape {
        assert forall k :: k in Subtrees(shape, rank, Children(shape, h)) ==> k in Subtree(shape, rank, h);
      }
      CleanForestUnchanged(shape, rank, w, Children(shape, h), v.1);
    }
  }

  lemma {:induction false} CleanForestUnchanged(shape: map<NodeHandle, Node>, rank: map<NodeHandle, nat>, w: World,
                                                hs: seq<NodeHandle>, parentWorld: Affine)
    requires Ranked(shape, rank)
    requires forall k :: k in Subtrees(shape, rank, hs) && k in w.nodes ==> !w.nodes[k].transform.pending
    ensures Forest(shape, rank, w, hs, parentWorld, false) == w
    decreases SeqBound(rank, hs), 0, |hs|
  {
    if hs != [] {
      var init := hs[..|hs| - 1];
      CleanForestUnchanged(shape, rank, w, init, parentWorld);
      CleanTreeUnchanged(shape, rank, w, hs[|hs| - 1], parentWorld);
    }
  }

  // ---------------------------------------------------------------------
  // Level-order batches

  /** The next level: the children of every existing node of the level, level order kept. */
  function NextLevel(nodes: map<NodeHandle, Node>, level: seq<NodeHandle>): seq<NodeHandle>
    decreases |level|
  {
    if level == [] then []
    else NextLevel(nodes, level[..|level| - 1]) + Children(nodes, level[|level| - 1])
  }

  lemma {:induction false} NextLevelBelow(nodes: map<NodeHandle, Node>, rank: map<NodeHandle, nat>,
                                          level: seq<NodeHandle>, m: nat)
    requires Ranked(nodes, rank)
    requires forall i :: 0 <= i < |level| ==> Measure(rank, level[i]) <= m
    ensures forall j :: 0 <= j < |NextLevel(nodes, level)| ==> Measure(rank, NextLevel(nodes, level)[j]) < m
    decreases |level|
  {
    if level != [] {
      var init := level[..|level| - 1];
      var last := level[|level| - 1];
      NextLevelBelow(nodes, rank, init, m);
      ChildBound(nodes, rank, last);
      var n0 := NextLevel(nodes, init);
      var cs := Children(nodes, last);
      forall j | 0 <= j < |n0 + cs| ensures Measure(rank, (n0 + cs)[j]) < m {
        if j >= |n0| {
          assert (n0 + cs)[j] == cs[j - |n0|];
        }
      }
    }
  }

  /**
   * The levels from the given one down: the level itself, then the levels
   * from its next level, until a level is empty (which is not listed).
   */
  ghost function Levels(nodes: map<NodeHandle, Node>, rank: map<NodeHandle, nat>, level: seq<NodeHandle>): seq<seq<NodeHandle>>
    requires Ranked(nodes, rank)
    decreases SeqBound(rank, level)
  {
    if level == [] then []
    else
      NextLevelBelow(nodes, rank, level, SeqBound(rank, level) - 1);
      SeqBoundBelow(rank, NextLevel(nodes, level), SeqBound(rank, level) - 1);
      [level] + Levels(nodes, rank, NextLevel(nodes, level))
  }

  /** One unfolding of `Levels`, with the bound that makes it terminate. */
  lemma LevelsUnfold(nodes: map<NodeHandle, Node>, rank: map<NodeHandle, nat>, level: seq<NodeHandle>)
    requires Ranked(nodes, rank) && level != []
    ensures SeqBound(rank, NextLevel(nodes, level)) < SeqBound(rank, level)
    ensures Levels(nodes, rank, level) == [level] + Levels(nodes, rank, NextLevel(nodes, level))
  {
    NextLevelBelow(nodes, rank, level, SeqBound(rank, level) - 1);
    SeqBoundBelow(rank, NextLevel(nodes, level), SeqBound(rank, level) - 1);
  }

  /**
   * Batch 0 is the given level and the last batch has no children; there
   * are no batches exactly when the level is empty.
   */
  lemma {:induction false} LevelsEnds(nodes: map<NodeHandle, Node>, rank: map<NodeHandle, nat>, level: seq<NodeHandle>)
    requires Ranked(nodes, rank)
    ensures var ls := Levels(nodes, rank, level);
      && (ls == [] <==> level == [])
      && (ls != [] ==> ls[0] == level && NextLevel(nodes, ls[|ls| - 1]) == [])
    decreases SeqBound(rank, level)
  {
    if level != [] {
      var next := NextLevel(nodes, level);
      LevelsUnfold(nodes, rank, level);
      LevelsEnds(nodes, rank, next);
    }
  }

  /** Batch i + 1 is the next level of batch i. */
  lemma {:induction false} LevelsStep(nodes: map<NodeHandle, Node>, rank: map<NodeHandle, nat>, level: seq<NodeHandle>)
    requires Ranked(nodes, rank)
    ensures var ls := Levels(nodes, rank, level);
      forall i :: 0 <= i < |ls| - 1 ==> ls[i + 1] == NextLevel(nodes, ls[i])
    decreases SeqBound(rank, level)
  {
    if level != [] {
      var next := NextLevel(nodes, level);
      LevelsUnfold(nodes, rank, level);
      LevelsStep(nodes, rank, next);
      LevelsEnds(nodes, rank, next);
    }
  }

  /** No batch is empty. */
  lemma {:induction false} LevelsNonEmpty(nodes: map<NodeHandle, Node>, rank: map<NodeHandle, nat>, level: seq<NodeHandle>)
    requires Ranked(nodes, rank)
    ensures var ls := Levels(nodes, rank, level);
      forall i :: 0 <= i < |ls| ==> ls[i] != []
    decreases SeqBound(rank, level)
  {
    if level != [] {
      LevelsUnfold(nodes, rank, level);
      LevelsNonEmpty(nodes, rank, NextLevel(nodes, level));
    }
  }

  /** The sum of the batch sizes. */
  function Total(bs: seq<seq<NodeHandle>>): nat
    decreases |bs|
  {
    if bs == [] then 0 else |bs[0]| + Total(bs[1..])
  }

  lemma {:induction false} SubtreesAppend(nodes: map<NodeHandle, Node>, rank: map<NodeHandle, nat>,
                                          a: seq<NodeHandle>, b: seq<NodeHandle>)
    requires Ranked(nodes, rank)
    ensures Subtrees(nodes, rank, a + b) == Subtrees(nodes, rank, a) + Subtrees(nodes, rank, b)
    decreases |b|
  {
    if b == [] {
      assert a + b == a;
    } else {
      assert (a + b)[..|a + b| - 1] == a + b[..|b| - 1];
      SubtreesAppend(nodes, rank, a, b[..|b| - 1]);
    }
  }

  /** The subtrees of a level hold the level and the subtrees of its next level. */
  lemma {:induction false} SubtreesByLevel(nodes: map<NodeHandle, Node>, rank: map<NodeHandle, nat>, level: seq<NodeHandle>)
    requires Ranked(nodes, rank)
    ensures |Subtrees(nodes, rank, level)| == |level| + |Subtrees(nodes, rank, NextLevel(nodes, level))|
    decreases |level|
  {
    if level != [] {
      var init := level[..|level| - 1];
      var last := level[|level| - 1];
      SubtreesByLevel(nodes, rank, init);
      SubtreesAppend(nodes, rank, NextLevel(nodes, init), Children(nodes, last));
    }
  }

  /**
   * `total_nodes` of the batches from a level equals the number of entries
   * `collect_subtree` lists for the level's subtrees: a breadth-first and a
   * depth-first walk see the same nodes the same number of times.
   */
  lemma {:induction false} LevelsCount(nodes: map<NodeHandle, Node>, rank: map<NodeHandle, nat>, level: seq<NodeHandle>)
    requires Ranked(nodes, rank)
    ensures Total(Levels(nodes, rank, level)) == |Subtrees(nodes, rank, level)|
    decreases SeqBound(rank, level)
  {
    if level != [] {
      var next := NextLevel(nodes, level);
      LevelsUnfold(nodes, rank, level);
      LevelsCount(nodes, rank, next);
      SubtreesByLevel(nodes, rank, level);
      assert ([level] + Levels(nodes, rank, next))[1..] == Levels(nodes, rank, next);
    }
  }

  /** Every batch emptied, the number of batches kept. */
  function Cleared(bs: seq<seq<NodeHandle>>): (r: seq<seq<NodeHandle>>)
    ensures |r| == |bs| && forall i :: 0 <= i < |r| ==> r[i] == []
  {
    seq(|bs|, i => [])
  }

  /** `retain(|b| !b.is_empty())`: the non-empty batches, in order. */
  function NonEmpty(bs: seq<seq<NodeHandle>>): (r: seq<seq<NodeHandle>>)
    ensures forall i :: 0 <= i < |r| ==> r[i] != []
    decreases |bs|
  {
    if bs == [] then []
    else NonEmpty(bs[..|bs| - 1]) + (if bs[|bs| - 1] == [] then [] else [bs[|bs| - 1]])
  }

  lemma {:induction false} NonEmptyAppend(a: seq<seq<NodeHandle>>, b: seq<seq<NodeHandle>>)
    ensures NonEmpty(a + b) == NonEmpty(a) + NonEmpty(b)
    decreases |b|
  {
    if b == [] {
      assert a + b == a;
    } else {
      assert (a + b)[..|a + b| - 1] == a + b[..|b| - 1];
      NonEmptyAppend(a, b[..|b| - 1]);
    }
  }

  /** Retaining the non-empty batches drops every empty one and keeps a list with none. */
  lemma {:induction false} NonEmptyDropsEmpty(bs: seq<seq<NodeHandle>>)
    ensures (forall i :: 0 <= i < |bs| ==> bs[i] == []) ==> NonEmpty(bs) == []
    ensures (forall i :: 0 <= i < |bs| ==> bs[i] != []) ==> NonEmpty(bs) == bs
    decreases |bs|
  {
    if bs != [] {
      NonEmptyDropsEmpty(bs[..|bs| - 1]);
      assert bs[..|bs| - 1] + [bs[|bs| - 1]] == bs;
    }
  }

  /**
   * `build_level_order_batches` as written: with no roots the early return
   * skips the retain, so the batches of an earlier build stay, emptied.
   */
  ghost function BuiltBatches(previous: seq<seq<NodeHandle>>, nodes: map<NodeHandle, Node>, rank: map<NodeHandle, nat>,
                              roots: seq<NodeHandle>): seq<seq<NodeHandle>>
    requires Ranked(nodes, rank)
  {
    if roots == [] then Cleared(previous) else Levels(nodes, rank, roots)
  }

  /** Reusing an output that held one batch and building from no roots leaves one (empty) batch, not zero. */
  lemma EmptyRootsKeepStaleBatch()
    ensures Ranked(map[], map[])
    ensures BuiltBatches([[0]], map[], map[], []) == [[]]
    ensures Levels(map[], map[], []) == []
  {
  }

  /** `LevelOrderBatches`: the batches and the (never filled) parent list. */
  class LevelOrderBatches {
    var batches: seq<seq<NodeHandle>>
    var parentIndices: seq<Option<NodeHandle>>

    /** `new`: no batches. */
    constructor ()
      ensures batches == [] && parentIndices == []
    {
      batches := [];
      parentIndices := [];
    }

    /** `clear`: every batch emptied but kept, and the parent list emptied. */
    method Clear()
      modifies this
      ensures batches == Cleared(old(batches)) && parentIndices == []
    {
      for i := 0 to |batches|
        invariant |batches| == |old(batches)|
        invariant forall j :: 0 <= j < i ==> batches[j] == []
        invariant forall j :: i <= j < |batches| ==> batches[j] == old(batches)[j]
      {
        batches := batches[i := []];
      }
      parentIndices := [];
    }

    /** `total_nodes`. */
    function TotalNodes(): (n: nat)
      reads this
      ensures batches == [] ==> n == 0
      ensures batches != [] ==> n == |batches[0]| + Total(batches[1..])
    {
      Total(batches)
    }

    /** `depth`. */
    function Depth(): (d: nat)
      reads this
      ensures d == |batches|
    {
      |batches|
    }
  }

  /** The children loop of the breadth-first walk: the next level of the current one. */
  method CollectNextLevel(nodes: map<NodeHandle, Node>, current: seq<NodeHandle>) returns (next: seq<NodeHandle>)
    ensures next == NextLevel(nodes, current)
  {
    next := [];
    for i := 0 to |current|
      invariant next == NextLevel(nodes, current[..i])
    {
      assert current[..i + 1][..i] == current[..i];
      if current[i] in nodes {
        var children := nodes[current[i]].children;
        for j := 0 to |children|
          invariant next == NextLevel(nodes, current[..i]) + children[..j]
        {
          assert children[..j + 1] == children[..j] + [children[j]];
          next := next + [children[j]];
        }
        assert children[..|children|] == children;
      }
    }
    assert current[..|current|] == current;
  }

  lemma BatchesAssoc(a: seq<seq<NodeHandle>>, b: seq<seq<NodeHandle>>, c: seq<seq<NodeHandle>>)
    ensures (a + b) + c == a + (b + c)
  {
  }

  /** The level loop of `build_level_order_batches`: each level saved after the batches already there. */
  method SaveLevels(nodes: map<NodeHandle, Node>, roots: seq<NodeHandle>, output: LevelOrderBatches,
                    ghost rank: map<NodeHandle, nat>)
    requires Ranked(nodes, rank)
    modifies output
    ensures output.batches == old(output.batches) + Levels(nodes, rank, roots)
    ensures output.parentIndices == old(output.parentIndices)
  {
    var current := roots;
    while current != []
      invariant output.batches + Levels(nodes, rank, current) == old(output.batches) + Levels(nodes, rank, roots)
      invariant output.parentIndices == old(output.parentIndices)
      decreases SeqBound(rank, current)
    {
      var next := CollectNextLevel(nodes, current);
      LevelsUnfold(nodes, rank, current);
      ghost var saved := output.batches;
      if |output.batches| <= output.Depth() {
        output.batches := output.batches + [current];
      } else {
        assert false;
      }
      BatchesAssoc(saved, [current], Levels(nodes, rank, next));
      current := next;
    }
  }

  /** `retain(|b| !b.is_empty())` on the batches. */
  method RetainNonEmpty(output: LevelOrderBatches)
    modifies output
    ensures output.batches == NonEmpty(old(output.batches)) && output.parentIndices == old(output.parentIndices)
  {
    output.batches := NonEmpty(output.batches);
  }

  /**
   * `build_level_order_batches`, as written: from non-empty roots the
   * batches are exactly the levels; from no roots they are the emptied
   * batches of the previous build (see `EmptyRootsKeepStaleBatch`).
   */
  method BuildLevelOrderBatches(nodes: map<NodeHandle, Node>, roots: seq<NodeHandle>, output: LevelOrderBatches,
                                ghost rank: map<NodeHandle, nat>)
    requires Ranked(nodes, rank)
    modifies output
    ensures output.batches == BuiltBatches(old(output.batches), nodes, rank, roots)
    ensures output.parentIndices == []
  {
    ghost var previous := output.batches;
    output.Clear();
    if |roots| == 0 {
      return;
    }
    SaveLevels(nodes, roots, output, rank);
    RetainNonEmpty(output);
    NonEmptyAppend(Cleared(previous), Levels(nodes, rank, roots));
    NonEmptyDropsEmpty(Cleared(previous));
    LevelsNonEmpty(nodes, rank, roots);
    NonEmptyDropsEmpty(Levels(nodes, rank, roots));
  }

  /**
   * `build_level_order_batches` with the retain also run on the early
   * return: the batches are exactly the levels from the roots whatever the
   * output held before, so no roots give zero batches.
   */
  method BuildLevelOrderBatchesRetained(nodes: map<NodeHandle, Node>, roots: seq<NodeHandle>, output: LevelOrderBatches,
                                        ghost rank: map<NodeHandle, nat>)
    requires Ranked(nodes, rank)
    modifies output
    ensures output.batches == Levels(nodes, rank, roots)
    ensures output.parentIndices == []
  {
    ghost var previous := output.batches;
    output.Clear();
    NonEmptyDropsEmpty(Cleared(previous));
    if |roots| == 0 {
      RetainNonEmpty(output);
      return;
    }
    SaveLevels(nodes, roots, output, rank);
    RetainNonEmpty(output);
    NonEmptyAppend(Cleared(previous), Levels(nodes, rank, roots));
    LevelsNonEmpty(nodes, rank, roots);
    NonEmptyDropsEmpty(Levels(nodes, rank, roots));
  }

  // ---------------------------------------------------------------------
  // The batched update

  /** One node of a batch: visited under its parent's current world when it exists. */
  function BatchStep(w: World, h: NodeHandle, parentChanged: bool): World
  {
    if h in w.nodes then Visit(w, h, ParentWorld(w.nodes, h), parentChanged).0 else w
  }

  /** The nodes of one batch, in order. */
  function RunBatch(w: World, batch: seq<NodeHandle>, parentChanged: bool): World
    decreases |batch|
  {
    if batch == [] then w else BatchStep(RunBatch(w, batch[..|batch| - 1], parentChanged), batch[|batch| - 1], parentChanged)
  }

  /** The batches in order; batch 0 only follows local changes, every deeper batch is forced. */
  function RunLevels(w: World, bs: seq<seq<NodeHandle>>): World
    decreases |bs|
  {
    if bs == [] then w else RunBatch(RunLevels(w, bs[..|bs| - 1]), bs[|bs| - 1], |bs| - 1 > 0)
  }

  /** `update_hierarchy_batched`: the batches in order, each node of a batch in order. */
  method UpdateHierarchyBatched(w: World, batches: LevelOrderBatches) returns (r: World)
    ensures r == RunLevels(w, batches.batches)
  {
    var bs := batches.batches;
    r := w;
    for level := 0 to |bs|
      invariant r == RunLevels(w, bs[..level])
    {
      assert bs[..level + 1][..level] == bs[..level];
      var batch := bs[level];
      ghost var before := r;
      for i := 0 to |batch|
        invariant r == RunBatch(before, batch[..i], level > 0)
      {
        assert batch[..i + 1][..i] == batch[..i];
        var h := batch[i];
        if h in r.nodes {
          var parentWorld := Identity;
          var parent := r.nodes[h].parent;
          if parent.Some? {
            if parent.value in r.nodes {
              parentWorld := r.nodes[parent.value].transform.world;
            }
          }
          r := Visit(r, h, parentWorld, level > 0).0;
        }
      }
      assert batch[..|batch|] == batch;
    }
    assert bs[..|bs|] == bs;
  }

  /** A batch step keeps the node keys and every node already recomputed. */
  lemma BatchStepKeeps(w: World, h: NodeHandle, parentChanged: bool)
    ensures BatchStep(w, h, parentChanged).nodes.Keys == w.nodes.Keys
    ensures forall k :: Recomputed(w, k) ==> Recomputed(BatchStep(w, h, parentChanged), k)
  {
  }

  /** A forced batch recomputes each of its existing nodes, and keeps those already recomputed. */
  lemma {:induction false} ForcedBatch(w: World, batch: seq<NodeHandle>, parentChanged: bool)
    ensures RunBatch(w, batch, parentChanged).nodes.Keys == w.nodes.Keys
    ensures forall k :: Recomputed(w, k) ==> Recomputed(RunBatch(w, batch, parentChanged), k)
    ensures parentChanged ==> forall k :: k in batch && k in w.nodes ==> Recomputed(RunBatch(w, batch, parentChanged), k)
    decreases |batch|
  {
    if batch != [] {
      var init := batch[..|batch| - 1];
      ForcedBatch(w, init, parentChanged);
      BatchStepKeeps(RunBatch(w, init, parentChanged), batch[|batch| - 1], parentChanged);
      assert batch == init + [batch[|batch| - 1]];
    }
  }

  /**
   * Every existing node of a batch below the first is recomputed by the
   * batched update, because every level after the roots counts as a
   * changed parent.
   */
  lemma {:induction false} BatchedRecomputesDeeperLevels(w: World, bs: seq<seq<NodeHandle>>)
    ensures RunLevels(w, bs).nodes.Keys == w.nodes.Keys
    ensures forall k :: Recomputed(w, k) ==> Recomputed(RunLevels(w, bs), k)
    ensures forall l, k :: 1 <= l < |bs| && k in bs[l] && k in w.nodes ==> Recomputed(RunLevels(w, bs), k)
    decreases |bs|
  {
    if bs != [] {
      var init := bs[..|bs| - 1];
      BatchedRecomputesDeeperLevels(w, init);
      ForcedBatch(RunLevels(w, init), bs[|bs| - 1], |bs| - 1 > 0);
      forall l, k | 1 <= l < |bs| && k in bs[l] && k in w.nodes
        ensures Recomputed(RunLevels(w, bs), k)
      {
        if l < |bs| - 1 {
          assert bs[l] == init[l];
        }
      }
    }
  }
}
