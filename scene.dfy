/**
 * The scene graph: nodes in a slot map, each with an optional parent and an
 * ordered list of children, a list of root nodes, and per-node components
 * (names, meshes, cameras, lights, skins, morph weights) in side maps that
 * point into resource pools.
 *
 * Slot-map handles are modelled as naturals drawn from a counter that never
 * goes back, which is what versioned slot-map keys guarantee: a handle that
 * was issued and removed is never issued again. Matrices are symbolic: a
 * world matrix records the product it was computed as.
 */
module SceneGraph {
  import opened Wrappers

  type NodeHandle = nat
  type MeshKey = nat
  type CameraKey = nat
  type LightKey = nat
  /** The payload of a skin binding or a morph-weight list; never inspected here. */
  type Payload = nat

  /** An affine matrix, kept as the expression it was computed from. */
  datatype Affine = Identity | Matrix(id: nat) | Product(left: Affine, right: Affine)

  /**
   * `Transform` as the hierarchy update sees it: `pending` holds when the
   * position, rotation or scale differ from the values the local matrix was
   * last built from, or the transform was marked dirty; `local` is the
   * matrix those values give; `world` is the stored world matrix.
   */
  datatype Transform = Transform(pending: bool, local: Affine, world: Affine)

  /** `Transform::new`: identity matrices, forced to update once. */
  const NEW_TRANSFORM: Transform := Transform(true, Identity, Identity)

  datatype Node = Node(parent: Option<NodeHandle>, children: seq<NodeHandle>, transform: Transform, visible: bool)

  /** `Node::new`: no parent, no children, visible. */
  const NEW_NODE: Node := Node(None, [], NEW_TRANSFORM, true)

  /** The node slot map, the root list and the next handle the slot map would issue. */
  datatype Hierarchy = Hierarchy(nodes: map<NodeHandle, Node>, roots: seq<NodeHandle>, next: nat)

  /** `retain(|&h| h != x)`: every occurrence of `x` dropped, the order kept. */
  function Without(s: seq<NodeHandle>, x: NodeHandle): (r: seq<NodeHandle>)
    ensures forall y :: y in r <==> y in s && y != x
    ensures x !in s ==> r == s
    decreases |s|
  {
    if s == [] then []
    else if s[|s| - 1] == x then Without(s[..|s| - 1], x)
    else Without(s[..|s| - 1], x) + [s[|s| - 1]]
  }

  /** Every handle the hierarchy mentions was issued by the slot map. */
  ghost predicate Bounded(h: Hierarchy)
  {
    && (forall k :: k in h.nodes ==> k < h.next)
    && (forall k :: k in h.nodes && h.nodes[k].parent.Some? ==> h.nodes[k].parent.value < h.next)
    && (forall k, c :: k in h.nodes && c in h.nodes[k].children ==> c < h.next)
    && (forall r :: r in h.roots ==> r < h.next)
  }

  /** A root has no parent. */
  ghost predicate RootsHaveNoParent(h: Hierarchy)
  {
    forall r :: r in h.roots && r in h.nodes ==> h.nodes[r].parent.None?
  }

  /** A node whose parent exists is among that parent's children. */
  ghost predicate ParentsListChildren(h: Hierarchy)
  {
    forall p, k :: p in h.nodes && k in h.nodes && h.nodes[k].parent == Some(p) ==> k in h.nodes[p].children
  }

  /** Every existing child of a node names it as its parent. */
  ghost predicate ChildrenNameParent(h: Hierarchy)
  {
    forall p, c :: p in h.nodes && c in h.nodes[p].children && c in h.nodes ==> h.nodes[c].parent == Some(p)
  }

  /** Parent and child links agree. */
  ghost predicate Linked(h: Hierarchy)
  {
    RootsHaveNoParent(h) && ParentsListChildren(h) && ChildrenNameParent(h)
  }

  ghost predicate Valid(h: Hierarchy)
  {
    Bounded(h) && Linked(h)
  }

  /** `create_node`: a new node under the next handle, not added to the roots. */
  function WithNewNode(h: Hierarchy): Hierarchy
  {
    Hierarchy(h.nodes[h.next := NEW_NODE], h.roots, h.next + 1)
  }

  /** `add_node`: the given node under the next handle, appended to the roots. */
  function WithRoot(h: Hierarchy, node: Node): Hierarchy
  {
    Hierarchy(h.nodes[h.next := node], h.roots + [h.next], h.next + 1)
  }

  /**
   * `add_to_parent`: the node under the next handle, appended to the
   * parent's children when the parent exists; the node's parent is set to
   * the given handle either way.
   */
  function WithChild(h: Hierarchy, child: Node, parent: NodeHandle): Hierarchy
  {
    var k := h.next;
    var n1 := h.nodes[k := child];
    var n2 := if parent in n1 then n1[parent := n1[parent].(children := n1[parent].children + [k])] else n1;
    Hierarchy(n2[k := n2[k].(parent := Some(parent))], h.roots, h.next + 1)
  }

  /** Step 1 of `attach`: the child leaves its old parent's children, or the roots when it has no parent. */
  function Detach(h: Hierarchy, child: NodeHandle): (r: Hierarchy)
    ensures r.nodes.Keys == h.nodes.Keys && r.next == h.next
  {
    if child !in h.nodes then h
    else match h.nodes[child].parent
      case Some(oldParent) =>
        if oldParent in h.nodes then h.(nodes := h.nodes[oldParent := h.nodes[oldParent].(children := Without(h.nodes[oldParent].children, child))])
        else h
      case None => h.(roots := Without(h.roots, child))
  }

  /**
   * `attach`: a node attached to itself changes nothing. Otherwise the
   * child is detached, then appended to the parent's children, its parent
   * set and its transform marked dirty. When the parent does not exist the
   * child is appended to the roots and its node is left as it was.
   */
  function Attached(h: Hierarchy, child: NodeHandle, parent: NodeHandle): (r: Hierarchy)
    ensures r.nodes.Keys == h.nodes.Keys && r.next == h.next
  {
    if child == parent then h
    else
      var d := Detach(h, child);
      if parent !in d.nodes then d.(roots := d.roots + [child])
      else
        var n1 := d.nodes[parent := d.nodes[parent].(children := d.nodes[parent].children + [child])];
        if child !in n1 then d.(nodes := n1)
        else d.(nodes := n1[child := n1[child].(parent := Some(parent), transform := n1[child].transform.(pending := true))])
  }

  /** The attach the error branch evidently intends: a child appended to the roots has no parent. */
  function AttachedAsRoot(h: Hierarchy, child: NodeHandle, parent: NodeHandle): (r: Hierarchy)
    ensures r.nodes.Keys == h.nodes.Keys && r.next == h.next
  {
    var a := Attached(h, child, parent);
    if child != parent && parent !in h.nodes && child in h.nodes then
      a.(nodes := a.nodes[child := a.nodes[child].(parent := None)])
    else a
  }

  lemma CreateNodeKeepsValid(h: Hierarchy)
    requires Valid(h)
    ensures var r := WithNewNode(h);
      Valid(r) && h.next !in h.nodes && r.nodes[h.next] == NEW_NODE && h.next !in r.roots
      && r.nodes.Keys == h.nodes.Keys + {h.next}
  {
  }

  /** A root node added with no parent and no children keeps the links consistent. */
  lemma AddNodeKeepsValid(h: Hierarchy, node: Node)
    requires Valid(h) && node.parent.None? && node.children == []
    ensures var r := WithRoot(h, node);
      Valid(r) && h.next !in h.nodes && r.nodes[h.next] == node && h.next in r.roots
      && r.nodes.Keys == h.nodes.Keys + {h.next}
  {
    var r := WithRoot(h, node);
    assert forall x :: x in r.roots ==> x == h.next || x in h.roots;
  }

  /**
   * A childless node added under an issued parent is linked both ways when
   * the parent exists, and keeps the links consistent.
   */
  lemma AddToParentKeepsValid(h: Hierarchy, child: Node, parent: NodeHandle)
    requires Valid(h) && child.children == [] && parent < h.next
    ensures var r := WithChild(h, child, parent);
      && Valid(r) && h.next !in h.nodes && r.nodes[h.next].parent == Some(parent)
      && (parent in h.nodes ==> r.nodes[parent].children == h.nodes[parent].children + [h.next])
      && r.roots == h.roots && r.nodes.Keys == h.nodes.Keys + {h.next}
  {
    WithChildShape(h, child, parent);
    WithChildLinked(h, child, parent);
  }

  /** Where `add_to_parent` puts the new node. */
  lemma WithChildShape(h: Hierarchy, child: Node, parent: NodeHandle)
    requires Bounded(h) && child.children == [] && parent < h.next
    ensures var r := WithChild(h, child, parent);
      && Bounded(r) && h.next !in h.nodes && r.nodes[h.next].parent == Some(parent) && r.nodes[h.next].children == []
      && r.roots == h.roots && r.nodes.Keys == h.nodes.Keys + {h.next}
      && (forall k :: k in h.nodes ==> r.nodes[k].parent == h.nodes[k].parent)
      && (forall k :: k in h.nodes ==>
            r.nodes[k].children == if k == parent then h.nodes[k].children + [h.next] else h.nodes[k].children)
  {
  }

  lemma WithChildLinked(h: Hierarchy, child: Node, parent: NodeHandle)
    requires Valid(h) && child.children == [] && parent < h.next
    ensures Linked(WithChild(h, child, parent))
  {
    WithChildShape(h, child, parent);
    var r := WithChild(h, child, parent);
    forall p, c | p in r.nodes && c in r.nodes[p].children && c in r.nodes
      ensures r.nodes[c].parent == Some(p)
    {
      if c != h.next {
        assert c in h.nodes[p].children;
      }
    }
  }

  /**
   * `d` is `h` with `child` taken out of every child list and the roots,
   * nothing else removed, and no link added.
   */
  ghost predicate Detached(h: Hierarchy, d: Hierarchy, child: NodeHandle)
  {
    && d.nodes.Keys == h.nodes.Keys
    && child !in d.roots && (forall x :: x in d.roots ==> x in h.roots)
    && (forall k :: k in d.nodes ==> child !in d.nodes[k].children)
    && (forall k, c :: k in d.nodes && c in d.nodes[k].children ==> c in h.nodes[k].children)
    && (forall k, c :: k in h.nodes && c in h.nodes[k].children && c != child ==> c in d.nodes[k].children)
  }

  /**
   * `r` is the detached `d` with `child` appended to the children of
   * `newParent` and naming it, or appended to the roots with no parent.
   */
  ghost predicate Relinked(h: Hierarchy, d: Hierarchy, r: Hierarchy, child: NodeHandle, newParent: Option<NodeHandle>)
  {
    && d.nodes.Keys == h.nodes.Keys && r.nodes.Keys == h.nodes.Keys && r.next == h.next
    && r.roots == (if newParent.None? then d.roots + [child] else d.roots)
    && (forall k :: k in r.nodes ==>
          r.nodes[k].children == if Some(k) == newParent then d.nodes[k].children + [child] else d.nodes[k].children)
    && (forall k :: k in r.nodes ==> r.nodes[k].parent == if k == child then newParent else h.nodes[k].parent)
  }

  /** The detach step of `attach` on a linked node. */
  lemma DetachIsDetached(h: Hierarchy, child: NodeHandle)
    requires Linked(h) && child in h.nodes
    ensures Detached(h, Detach(h, child), child)
    ensures forall k :: k in h.nodes ==> Detach(h, child).nodes[k].parent == h.nodes[k].parent
  {
    DetachKeepsOthers(h, child);
    DetachRemovesChild(h, child);
  }

  /** Detaching removes no node, changes no parent link and no child but `child`, and adds no root. */
  lemma DetachKeepsOthers(h: Hierarchy, child: NodeHandle)
    ensures var d := Detach(h, child);
      && d.nodes.Keys == h.nodes.Keys
      && (forall x :: x in d.roots ==> x in h.roots)
      && (forall k :: k in h.nodes ==> d.nodes[k].parent == h.nodes[k].parent)
      && (forall k, c :: k in d.nodes && c in d.nodes[k].children ==> c in h.nodes[k].children)
      && (forall k, c :: k in h.nodes && c in h.nodes[k].children && c != child ==> c in d.nodes[k].children)
  {
  }

  /** A linked node, once detached, is in no child list and not among the roots. */
  lemma DetachRemovesChild(h: Hierarchy, child: NodeHandle)
    requires RootsHaveNoParent(h) && ChildrenNameParent(h) && child in h.nodes
    ensures var d := Detach(h, child);
      child !in d.roots && forall k :: k in d.nodes ==> child !in d.nodes[k].children
  {
  }

  /** `attach` between two distinct existing nodes relinks the child under the parent. */
  lemma AttachedRelinks(h: Hierarchy, child: NodeHandle, parent: NodeHandle)
    requires child in h.nodes && parent in h.nodes && child != parent
    requires forall k :: k in h.nodes ==> Detach(h, child).nodes[k].parent == h.nodes[k].parent
    ensures Relinked(h, Detach(h, child), Attached(h, child, parent), child, Some(parent))
    ensures Attached(h, child, parent).nodes[child].transform.pending
  {
  }

  /** The corrected error branch relinks the child as a root. */
  lemma AttachedAsRootRelinks(h: Hierarchy, child: NodeHandle, parent: NodeHandle)
    requires child in h.nodes && parent !in h.nodes && child != parent
    requires forall k :: k in h.nodes ==> Detach(h, child).nodes[k].parent == h.nodes[k].parent
    ensures Relinked(h, Detach(h, child), AttachedAsRoot(h, child, parent), child, None)
  {
  }

  lemma RelinkedBounded(h: Hierarchy, d: Hierarchy, r: Hierarchy, child: NodeHandle, newParent: Option<NodeHandle>)
    requires Bounded(h) && child in h.nodes && Detached(h, d, child) && Relinked(h, d, r, child, newParent)
    requires newParent.Some? ==> newParent.value < h.next
    ensures Bounded(r)
  {
  }

  lemma RelinkedRoots(h: Hierarchy, d: Hierarchy, r: Hierarchy, child: NodeHandle, newParent: Option<NodeHandle>)
    requires RootsHaveNoParent(h) && Detached(h, d, child) && Relinked(h, d, r, child, newParent)
    ensures RootsHaveNoParent(r)
  {
  }

  lemma RelinkedParents(h: Hierarchy, d: Hierarchy, r: Hierarchy, child: NodeHandle, newParent: Option<NodeHandle>)
    requires ParentsListChildren(h) && Detached(h, d, child) && Relinked(h, d, r, child, newParent)
    ensures ParentsListChildren(r)
  {
    forall q, k | q in r.nodes && k in r.nodes && r.nodes[k].parent == Some(q)
      ensures k in r.nodes[q].children
    {
      if k != child {
        assert k in d.nodes[q].children;
      }
    }
  }

  lemma RelinkedChildren(h: Hierarchy, d: Hierarchy, r: Hierarchy, child: NodeHandle, newParent: Option<NodeHandle>)
    requires ChildrenNameParent(h) && Detached(h, d, child) && Relinked(h, d, r, child, newParent)
    ensures ChildrenNameParent(r)
  {
    forall p, c | p in r.nodes && c in r.nodes[p].children && c in r.nodes
      ensures r.nodes[c].parent == Some(p)
    {
      if c != child {
        assert c in d.nodes[p].children;
      }
    }
  }

  /** Detaching a node and relinking it under an issued parent, or as a root, keeps a valid hierarchy valid. */
  lemma RelinkedValid(h: Hierarchy, d: Hierarchy, r: Hierarchy, child: NodeHandle, newParent: Option<NodeHandle>)
    requires Valid(h) && child in h.nodes && Detached(h, d, child) && Relinked(h, d, r, child, newParent)
    requires newParent.Some? ==> newParent.value < h.next
    ensures Valid(r)
  {
    RelinkedBounded(h, d, r, child, newParent);
    RelinkedRoots(h, d, r, child, newParent);
    RelinkedParents(h, d, r, child, newParent);
    RelinkedChildren(h, d, r, child, newParent);
  }

  /**
   * Re-attaching a linked node to another existing node: afterwards it is
   * a child of the new parent only, not a root, names the new parent, and
   * the links stay consistent.
   */
  lemma AttachKeepsValid(h: Hierarchy, child: NodeHandle, parent: NodeHandle)
    requires Valid(h) && child in h.nodes && parent in h.nodes && child != parent
    ensures var r := Attached(h, child, parent);
      && Valid(r) && r.nodes[child].parent == Some(parent) && r.nodes[child].transform.pending
      && child in r.nodes[parent].children
      && (forall k :: k in r.nodes && k != parent ==> child !in r.nodes[k].children)
      && child !in r.roots
  {
    DetachIsDetached(h, child);
    AttachedRelinks(h, child, parent);
    RelinkedValid(h, Detach(h, child), Attached(h, child, parent), child, Some(parent));
  }

  /**
   * The error branch of `attach`, as written: attaching a child that has an
   * existing parent to a missing parent moves it into the roots but leaves
   * its parent link pointing at the old parent, so the links no longer
   * agree.
   */
  lemma AttachToMissingParentLeavesStaleParent(h: Hierarchy, child: NodeHandle, parent: NodeHandle)
    requires Valid(h) && child in h.nodes && parent !in h.nodes
    requires h.nodes[child].parent.Some? && h.nodes[child].parent.value in h.nodes
    ensures var r := Attached(h, child, parent);
      child in r.roots && r.nodes[child].parent == h.nodes[child].parent && !Linked(r)
  {
    var r := Attached(h, child, parent);
    assert child in r.roots && child in r.nodes;
  }

  /** With the parent link cleared in the error branch, every attach of an existing node keeps the links consistent. */
  lemma AttachAsRootKeepsValid(h: Hierarchy, child: NodeHandle, parent: NodeHandle)
    requires Valid(h) && child in h.nodes && child != parent && parent < h.next
    ensures var r := AttachedAsRoot(h, child, parent);
      && Valid(r)
      && (parent !in h.nodes ==> child in r.roots && r.nodes[child].parent.None?)
      && (parent in h.nodes ==> r == Attached(h, child, parent))
  {
    if parent in h.nodes {
      AttachKeepsValid(h, child, parent);
    } else {
      DetachIsDetached(h, child);
      AttachedAsRootRelinks(h, child, parent);
      RelinkedValid(h, Detach(h, child), AttachedAsRoot(h, child, parent), child, None);
    }
  }

  /** `Measure(rank, h)` falls along every child link of a ranked node map. */
  function Measure(rank: map<NodeHandle, nat>, h: NodeHandle): nat
  {
    if h in rank then rank[h] + 1 else 0
  }

  /**
   * A rank witnessing that the nodes have no cycles: every node is ranked
   * above each of its ranked children. The recursive traversals of the
   * source loop forever without one, and `attach` as written can make a
   * cycle (`AttachUnderOwnChildMakesCycle`).
   */
  ghost predicate Ranked(nodes: map<NodeHandle, Node>, rank: map<NodeHandle, nat>)
  {
    forall h :: h in nodes ==> h in rank && forall c :: c in nodes[h].children && c in rank ==> rank[c] < rank[h]
  }

  /** One more than the largest measure in the list. */
  function SeqBound(rank: map<NodeHandle, nat>, hs: seq<NodeHandle>): (b: nat)
    ensures forall i :: 0 <= i < |hs| ==> Measure(rank, hs[i]) < b
    decreases |hs|
  {
    if hs == [] then 0
    else
      var b0 := SeqBound(rank, hs[..|hs| - 1]);
      var m := Measure(rank, hs[|hs| - 1]) + 1;
      if b0 < m then m else b0
  }

  lemma SeqBoundBelow(rank: map<NodeHandle, nat>, hs: seq<NodeHandle>, m: nat)
    requires forall i :: 0 <= i < |hs| ==> Measure(rank, hs[i]) < m
    ensures SeqBound(rank, hs) <= m
    decreases |hs|
  {
    if hs != [] {
      SeqBoundBelow(rank, hs[..|hs| - 1], m);
    }
  }

  lemma ChildrenBelow(nodes: map<NodeHandle, Node>, rank: map<NodeHandle, nat>, h: NodeHandle)
    requires Ranked(nodes, rank) && h in nodes
    ensures SeqBound(rank, nodes[h].children) <= Measure(rank, h)
  {
    var cs := nodes[h].children;
    forall i | 0 <= i < |cs| ensures Measure(rank, cs[i]) < Measure(rank, h) {
      assert cs[i] in cs;
    }
    SeqBoundBelow(rank, cs, Measure(rank, h));
  }

  /**
   * `collect_subtree`: the handle, then the subtrees of its children in
   * order; a handle with no node is listed and not descended into.
   */
  ghost function Subtree(nodes: map<NodeHandle, Node>, rank: map<NodeHandle, nat>, h: NodeHandle): seq<NodeHandle>
    requires Ranked(nodes, rank)
    decreases Measure(rank, h), 1
  {
    if h in nodes then
      ChildrenBelow(nodes, rank, h);
      [h] + Subtrees(nodes, rank, nodes[h].children)
    else [h]
  }

  ghost function Subtrees(nodes: map<NodeHandle, Node>, rank: map<NodeHandle, nat>, hs: seq<NodeHandle>): seq<NodeHandle>
    requires Ranked(nodes, rank)
    decreases SeqBound(rank, hs), 0, |hs|
  {
    if hs == [] then [] else Subtrees(nodes, rank, hs[..|hs| - 1]) + Subtree(nodes, rank, hs[|hs| - 1])
  }

  /** The handle a subtree starts with is its root. */
  lemma SubtreeStartsAtRoot(nodes: map<NodeHandle, Node>, rank: map<NodeHandle, nat>, h: NodeHandle)
    requires Ranked(nodes, rank)
    ensures |Subtree(nodes, rank, h)| > 0 && Subtree(nodes, rank, h)[0] == h
  {
  }

  /** A subtree holds every existing child of each existing node in it. */
  lemma {:induction false} SubtreeClosed(nodes: map<NodeHandle, Node>, rank: map<NodeHandle, nat>, h: NodeHandle,
                                         x: NodeHandle, c: NodeHandle)
    requires Ranked(nodes, rank) && x in Subtree(nodes, rank, h) && x in nodes && c in nodes[x].children
    ensures c in Subtree(nodes, rank, h)
    decreases Measure(rank, h), 1
  {
    if x != h {
      assert h in nodes;
      ChildrenBelow(nodes, rank, h);
      SubtreesClosed(nodes, rank, nodes[h].children, x, c);
    } else {
      ChildrenBelow(nodes, rank, h);
      SubtreesHoldEach(nodes, rank, nodes[h].children, c);
    }
  }

  lemma {:induction false} SubtreesClosed(nodes: map<NodeHandle, Node>, rank: map<NodeHandle, nat>, hs: seq<NodeHandle>,
                                          x: NodeHandle, c: NodeHandle)
    requires Ranked(nodes, rank) && x in Subtrees(nodes, rank, hs) && x in nodes && c in nodes[x].children
    ensures c in Subtrees(nodes, rank, hs)
    decreases SeqBound(rank, hs), 0, |hs|
  {
    var init := hs[..|hs| - 1];
    var last := hs[|hs| - 1];
    if x in Subtrees(nodes, rank, init) {
      SubtreesClosed(nodes, rank, init, x, c);
    } else {
      SubtreeClosed(nodes, rank, last, x, c);
    }
  }

  /** Each listed handle is in the subtrees of the list. */
  lemma {:induction false} SubtreesHoldEach(nodes: map<NodeHandle, Node>, rank: map<NodeHandle, nat>, hs: seq<NodeHandle>,
                                            c: NodeHandle)
    requires Ranked(nodes, rank) && c in hs
    ensures c in Subtrees(nodes, rank, hs)
    decreases |hs|
  {
    var init := hs[..|hs| - 1];
    var last := hs[|hs| - 1];
    if c == last {
      SubtreeStartsAtRoot(nodes, rank, last);
    } else {
      assert c in init by {
        assert hs == init + [last];
      }
      SubtreesHoldEach(nodes, rank, init, c);
    }
  }

  /** Every handle of a subtree measures at most its root. */
  lemma {:induction false} SubtreeBelowRoot(nodes: map<NodeHandle, Node>, rank: map<NodeHandle, nat>, h: NodeHandle,
                                            x: NodeHandle)
    requires Ranked(nodes, rank) && x in Subtree(nodes, rank, h)
    ensures Measure(rank, x) <= Measure(rank, h)
    decreases Measure(rank, h), 1
  {
    if x != h {
      assert h in nodes;
      ChildrenBelow(nodes, rank, h);
      SubtreesBelowBound(nodes, rank, nodes[h].children, x);
    }
  }

  lemma {:induction false} SubtreesBelowBound(nodes: map<NodeHandle, Node>, rank: map<NodeHandle, nat>, hs: seq<NodeHandle>,
                                              x: NodeHandle)
    requires Ranked(nodes, rank) && x in Subtrees(nodes, rank, hs)
    ensures Measure(rank, x) < SeqBound(rank, hs)
    decreases SeqBound(rank, hs), 0, |hs|
  {
    var init := hs[..|hs| - 1];
    var last := hs[|hs| - 1];
    if x in Subtrees(nodes, rank, init) {
      SubtreesBelowBound(nodes, rank, init, x);
    } else {
      SubtreeBelowRoot(nodes, rank, last, x);
    }
  }

  /**
   * Attaching a node under one of its own children, as `attach` allows:
   * the two nodes become each other's children, so no rank orders the
   * nodes, although the parent and child links still agree. Every
   * recursive traversal of the result, `collect_subtree` and so
   * `remove_node` among them, then never ends.
   */
  lemma AttachUnderOwnChildMakesCycle(h: Hierarchy, child: NodeHandle, parent: NodeHandle)
    requires child in h.nodes && parent in h.nodes && parent in h.nodes[child].children && child != parent
    ensures var r := Attached(h, child, parent);
      && child in r.nodes[parent].children && parent in r.nodes[child].children
      && (forall rank :: !Ranked(r.nodes, rank))
      && (Valid(h) ==> Valid(r))
  {
    var r := Attached(h, child, parent);
    DetachKeepsOthers(h, child);
    assert parent in r.nodes[child].children by {
      assert parent in Detach(h, child).nodes[child].children;
    }
    if Valid(h) {
      AttachKeepsValid(h, child, parent);
    }
  }

  /** Every child link `attach` leaves was there before, except the one from the new parent to the child. */
  lemma AttachedEdges(h: Hierarchy, child: NodeHandle, parent: NodeHandle)
    ensures var r := AttachedAsRoot(h, child, parent);
      forall k, c :: k in r.nodes && c in r.nodes[k].children ==> (k == parent && c == child) || c in h.nodes[k].children
  {
    DetachKeepsOthers(h, child);
  }

  /**
   * The rank that orders the nodes after `child`'s subtree moves elsewhere:
   * the subtree keeps its ranks, every other node is lifted above all of
   * them.
   */
  ghost function RankAfterAttach(nodes: map<NodeHandle, Node>, rank: map<NodeHandle, nat>, child: NodeHandle)
    : (r: map<NodeHandle, nat>)
    requires Ranked(nodes, rank)
    ensures r.Keys == nodes.Keys
  {
    var s := Subtree(nodes, rank, child);
    map k | k in nodes :: if k in s then rank[k] else rank[k] + Measure(rank, child)
  }

  /** The lifted rank still orders every child link the nodes had. */
  lemma RankAfterAttachOrdersOld(nodes: map<NodeHandle, Node>, rank: map<NodeHandle, nat>, child: NodeHandle,
                                 k: NodeHandle, c: NodeHandle)
    requires Ranked(nodes, rank) && k in nodes && c in nodes[k].children && c in nodes
    ensures RankAfterAttach(nodes, rank, child)[c] < RankAfterAttach(nodes, rank, child)[k]
  {
    var s := Subtree(nodes, rank, child);
    if k in s {
      SubtreeClosed(nodes, rank, child, k, c);
    } else if c in s {
      SubtreeBelowRoot(nodes, rank, child, c);
    }
  }

  /**
   * `attach` as evidently intended: a parent inside the child's own
   * subtree, the child itself included, is refused and nothing changes;
   * otherwise the attach with its error branch corrected.
   */
  ghost function AttachedChecked(h: Hierarchy, rank: map<NodeHandle, nat>, child: NodeHandle, parent: NodeHandle)
    : (r: Hierarchy)
    requires Ranked(h.nodes, rank)
    ensures r.nodes.Keys == h.nodes.Keys && r.next == h.next
  {
    if parent in Subtree(h.nodes, rank, child) then h else AttachedAsRoot(h, child, parent)
  }

  /**
   * The corrected attach never makes a cycle: the nodes stay ranked, by the
   * lifted rank, and an attach of an existing node to an issued handle
   * keeps the links consistent.
   */
  lemma AttachCheckedKeepsRanked(h: Hierarchy, rank: map<NodeHandle, nat>, child: NodeHandle, parent: NodeHandle)
    requires Ranked(h.nodes, rank)
    ensures var r := AttachedChecked(h, rank, child, parent);
      && Ranked(r.nodes, RankAfterAttach(h.nodes, rank, child))
      && (parent in Subtree(h.nodes, rank, child) ==> r == h)
      && (parent !in Subtree(h.nodes, rank, child) ==> r == AttachedAsRoot(h, child, parent))
      && (Valid(h) && child in h.nodes && parent < h.next ==> Valid(r))
  {
    var s := Subtree(h.nodes, rank, child);
    var rr := RankAfterAttach(h.nodes, rank, child);
    var r := AttachedChecked(h, rank, child, parent);
    SubtreeStartsAtRoot(h.nodes, rank, child);
    if parent !in s {
      AttachedEdges(h, child, parent);
      forall k, c | k in r.nodes && c in r.nodes[k].children && c in rr
        ensures rr[c] < rr[k]
      {
        if !(k == parent && c == child) {
          RankAfterAttachOrdersOld(h.nodes, rank, child, k, c);
        }
      }
      if Valid(h) && child in h.nodes && parent < h.next {
        AttachAsRootKeepsValid(h, child, parent);
      }
    } else {
      forall k, c | k in h.nodes && c in h.nodes[k].children && c in rr
        ensures rr[c] < rr[k]
      {
        RankAfterAttachOrdersOld(h.nodes, rank, child, k, c);
      }
    }
  }

  /** Step 2 of `remove_node`: the node leaves its parent's children, or the roots when it has no parent. */
  function Unlink(h: Hierarchy, handle: NodeHandle): (r: Hierarchy)
    ensures r.nodes.Keys == h.nodes.Keys && r.next == h.next
  {
    Detach(h, handle)
  }

  /** `remove_node` on the hierarchy: unlinked, then every node of the subtree removed. */
  ghost function Removed(h: Hierarchy, rank: map<NodeHandle, nat>, handle: NodeHandle): Hierarchy
    requires Ranked(h.nodes, rank)
  {
    var u := Unlink(h, handle);
    u.(nodes := u.nodes - Elems(Subtree(h.nodes, rank, handle)))
  }

  function Elems(s: seq<NodeHandle>): (r: set<NodeHandle>)
    ensures forall x :: x in r <==> x in s
  {
    set x | x in s
  }

  /**
   * Removing a node deletes it and every node below it, keeps every other
   * node, takes it out of the roots when it was one, and keeps the links
   * consistent.
   */
  lemma RemoveNodeKeepsValid(h: Hierarchy, rank: map<NodeHandle, nat>, handle: NodeHandle)
    requires Valid(h) && Ranked(h.nodes, rank)
    ensures var r := Removed(h, rank, handle);
      && Valid(r)
      && r.nodes.Keys == h.nodes.Keys - Elems(Subtree(h.nodes, rank, handle))
      && handle !in r.nodes
      && (handle in h.nodes ==> handle !in r.roots)
      && (forall x, c :: x in Subtree(h.nodes, rank, handle) && x in h.nodes && c in h.nodes[x].children ==> c !in r.nodes)
  {
    SubtreeStartsAtRoot(h.nodes, rank, handle);
    if handle in h.nodes {
      DetachIsDetached(h, handle);
    }
    forall x, c | x in Subtree(h.nodes, rank, handle) && x in h.nodes && c in h.nodes[x].children
      ensures c in Subtree(h.nodes, rank, handle)
    {
      SubtreeClosed(h.nodes, rank, handle, x, c);
    }
  }

  /** The pool keys the component map holds for the given nodes. */
  ghost function KeysOf(m: map<NodeHandle, nat>, s: set<NodeHandle>): set<nat>
  {
    set h | h in s && h in m :: m[h]
  }

  lemma KeysOfOne(m: map<NodeHandle, nat>, h: NodeHandle)
    ensures KeysOf(m, {h}) == if h in m then {m[h]} else {}
  {
  }

  lemma KeysOfStep(m0: map<NodeHandle, nat>, s: set<NodeHandle>, h: NodeHandle)
    ensures (m0 - s) - {h} == m0 - (s + {h})
    ensures h in m0 - s ==> KeysOf(m0 - s, {h}) == {m0[h]} && KeysOf(m0, s + {h}) == KeysOf(m0, s) + {m0[h]}
    ensures h !in m0 - s ==> KeysOf(m0 - s, {h}) == {} && KeysOf(m0, s + {h}) == KeysOf(m0, s)
  {
  }

  /** The component side maps and pools of a scene. */
  datatype Components = Components(
    names: map<NodeHandle, string>,
    meshes: map<NodeHandle, MeshKey>,
    cameras: map<NodeHandle, CameraKey>,
    lights: map<NodeHandle, LightKey>,
    skins: map<NodeHandle, Payload>,
    morphWeights: map<NodeHandle, Payload>,
    meshPool: set<MeshKey>,
    cameraPool: set<CameraKey>,
    lightPool: set<LightKey>)

  /**
   * The components left after removing the given nodes: their entries go
   * from every side map, and the meshes, cameras and lights they held go
   * from the pools.
   */
  ghost function DropComponents(c: Components, s: set<NodeHandle>): Components
  {
    Components(c.names - s, c.meshes - s, c.cameras - s, c.lights - s, c.skins - s, c.morphWeights - s,
               c.meshPool - KeysOf(c.meshes, s), c.cameraPool - KeysOf(c.cameras, s), c.lightPool - KeysOf(c.lights, s))
  }

  /** Dropping the nodes one at a time drops them all. */
  lemma DropComponentsStep(c: Components, s: set<NodeHandle>, h: NodeHandle)
    ensures DropComponents(DropComponents(c, s), {h}) == DropComponents(c, s + {h})
  {
    KeysOfStep(c.meshes, s, h);
    KeysOfStep(c.cameras, s, h);
    KeysOfStep(c.lights, s, h);
    assert (c.names - s) - {h} == c.names - (s + {h});
    assert (c.skins - s) - {h} == c.skins - (s + {h});
    assert (c.morphWeights - s) - {h} == c.morphWeights - (s + {h});
  }

  class Scene {
    const id: nat
    var nodes: map<NodeHandle, Node>
    var rootNodes: seq<NodeHandle>
    /** The slot map's next handle. */
    var nextHandle: nat
    /** The component side maps and the pools they point into. */
    var parts: Components

    function Graph(): Hierarchy
      reads this
    {
      Hierarchy(nodes, rootNodes, nextHandle)
    }

    /** `Scene::new` under the given scene id: nothing in it. */
    constructor (id: nat)
      ensures this.id == id && Graph() == Hierarchy(map[], [], 0) && Valid(Graph())
      ensures parts == Components(map[], map[], map[], map[], map[], map[], {}, {}, {})
    {
      this.id := id;
      nodes, rootNodes, nextHandle := map[], [], 0;
      parts := Components(map[], map[], map[], map[], map[], map[], {}, {}, {});
    }

    method Insert(node: Node) returns (handle: NodeHandle)
      modifies this
      ensures handle == old(nextHandle) && nextHandle == handle + 1 && nodes == old(nodes)[handle := node]
      ensures rootNodes == old(rootNodes) && parts == old(parts)
    {
      handle := nextHandle;
      nodes := nodes[handle := node];
      nextHandle := nextHandle + 1;
    }

    /** `create_node`. */
    method CreateNode() returns (handle: NodeHandle)
      modifies this
      ensures handle == old(nextHandle) && Graph() == WithNewNode(old(Graph())) && parts == old(parts)
    {
      handle := Insert(NEW_NODE);
    }

    /** `create_node_with_name`: the same, with the name recorded. */
    method CreateNodeWithName(name: string) returns (handle: NodeHandle)
      modifies this
      ensures handle == old(nextHandle) && Graph() == WithNewNode(old(Graph()))
      ensures parts == old(parts).(names := old(parts.names)[handle := name])
    {
      handle := Insert(NEW_NODE);
      parts := parts.(names := parts.names[handle := name]);
    }

    /** `add_node`. */
    method AddNode(node: Node) returns (handle: NodeHandle)
      modifies this
      ensures handle == old(nextHandle) && Graph() == WithRoot(old(Graph()), node) && parts == old(parts)
    {
      handle := Insert(node);
      rootNodes := rootNodes + [handle];
    }

    /** `add_to_parent`. */
    method AddToParent(child: Node, parent: NodeHandle) returns (handle: NodeHandle)
      modifies this
      ensures handle == old(nextHandle) && Graph() == WithChild(old(Graph()), child, parent) && parts == old(parts)
    {
      handle := Insert(child);
      if parent in nodes {
        nodes := nodes[parent := nodes[parent].(children := nodes[parent].children + [handle])];
      }
      nodes := nodes[handle := nodes[handle].(parent := Some(parent))];
    }

    /** `attach`. */
    method Attach(child: NodeHandle, parent: NodeHandle)
      modifies this
      ensures Graph() == Attached(old(Graph()), child, parent) && parts == old(parts)
    {
      if child == parent {
        return;
      }
      if child in nodes {
        var childNode := nodes[child];
        if childNode.parent.Some? {
          var oldParent := childNode.parent.value;
          if oldParent in nodes {
            nodes := nodes[oldParent := nodes[oldParent].(children := Without(nodes[oldParent].children, child))];
          }
        } else {
          rootNodes := Without(rootNodes, child);
        }
      }
      if parent in nodes {
        nodes := nodes[parent := nodes[parent].(children := nodes[parent].children + [child])];
      } else {
        rootNodes := rootNodes + [child];
        return;
      }
      if child in nodes {
        var c := nodes[child];
        nodes := nodes[child := c.(parent := Some(parent), transform := c.transform.(pending := true))];
      }
    }

    /**
     * `attach` as evidently intended: the child's subtree is collected and
     * a parent inside it refused; otherwise the attach, with a child that
     * falls back to the roots left without a parent.
     */
    method AttachChecked(child: NodeHandle, parent: NodeHandle, ghost rank: map<NodeHandle, nat>)
      requires Ranked(nodes, rank)
      modifies this
      ensures Graph() == AttachedChecked(old(Graph()), rank, child, parent) && parts == old(parts)
      ensures Ranked(nodes, RankAfterAttach(old(nodes), rank, child))
    {
      ghost var h0 := Graph();
      var subtree := CollectSubtree(child, [], rank);
      assert subtree == Subtree(h0.nodes, rank, child);
      SubtreeStartsAtRoot(h0.nodes, rank, child);
      AttachCheckedKeepsRanked(h0, rank, child, parent);
      if parent in subtree {
        return;
      }
      ghost var want := AttachedAsRoot(h0, child, parent);
      assert want == AttachedChecked(h0, rank, child, parent);
      Attach(child, parent);
      if parent !in nodes && child in nodes {
        nodes := nodes[child := nodes[child].(parent := None)];
      }
      assert Graph() == want;
    }

    /** `get_node`. */
    function GetNode(handle: NodeHandle): (r: Option<Node>)
      reads this
      ensures r.Some? <==> handle in nodes
      ensures r.Some? ==> r.value == nodes[handle]
    {
      if handle in nodes then Some(nodes[handle]) else None
    }

    /** `collect_subtree`: appends the subtree of the handle to `result`. */
    method CollectSubtree(handle: NodeHandle, result: seq<NodeHandle>, ghost rank: map<NodeHandle, nat>)
      returns (out: seq<NodeHandle>)
      requires Ranked(nodes, rank)
      ensures out == result + Subtree(nodes, rank, handle)
      decreases Measure(rank, handle)
    {
      out := result + [handle];
      if handle in nodes {
        var children := nodes[handle].children;
        ChildrenBelow(nodes, rank, handle);
        var i := 0;
        while i < |children|
          invariant 0 <= i <= |children|
          invariant out == result + [handle] + Subtrees(nodes, rank, children[..i])
        {
          assert children[i] in nodes[handle].children;
          assert children[..i + 1][..i] == children[..i];
          out := CollectSubtree(children[i], out, rank);
          i := i + 1;
        }
        assert children[..i] == children;
      }
    }

    /** The component cleanup of `remove_node` for one removed node, and the node itself. */
    method RemoveOne(h: NodeHandle)
      modifies this
      ensures nodes == old(nodes) - {h} && rootNodes == old(rootNodes) && nextHandle == old(nextHandle)
      ensures parts == DropComponents(old(parts), {h})
    {
      var c := parts;
      var meshPool := if h in c.meshes then c.meshPool - {c.meshes[h]} else c.meshPool;
      var cameraPool := if h in c.cameras then c.cameraPool - {c.cameras[h]} else c.cameraPool;
      var lightPool := if h in c.lights then c.lightPool - {c.lights[h]} else c.lightPool;
      KeysOfOne(c.meshes, h);
      KeysOfOne(c.cameras, h);
      KeysOfOne(c.lights, h);
      parts := Components(c.names - {h}, c.meshes - {h}, c.cameras - {h}, c.lights - {h}, c.skins - {h},
                          c.morphWeights - {h}, meshPool, cameraPool, lightPool);
      nodes := nodes - {h};
    }

    /**
     * `remove_node`: the subtree is collected, the node unlinked from its
     * parent or the roots, then every collected node and its components are
     * removed.
     */
    method RemoveNode(handle: NodeHandle, ghost rank: map<NodeHandle, nat>)
      requires Ranked(nodes, rank)
      modifies this
      ensures Graph() == Removed(old(Graph()), rank, handle)
      ensures parts == DropComponents(old(parts), Elems(Subtree(old(nodes), rank, handle)))
    {
      ghost var h0 := Graph();
      var toRemove := CollectSubtree(handle, [], rank);
      assert toRemove == Subtree(h0.nodes, rank, handle);
      UnlinkFromParent(handle);
      ghost var u := Graph();
      assert u == Unlink(h0, handle);
      RemoveAll(toRemove);
      assert Graph() == u.(nodes := u.nodes - Elems(toRemove));
    }

    /** Step 2 of `remove_node`. */
    method UnlinkFromParent(handle: NodeHandle)
      modifies this
      ensures Graph() == Unlink(old(Graph()), handle) && parts == old(parts)
    {
      if handle in nodes {
        var node := nodes[handle];
        if node.parent.Some? {
          var p := node.parent.value;
          if p in nodes {
            nodes := nodes[p := nodes[p].(children := Without(nodes[p].children, handle))];
          }
        } else {
          rootNodes := Without(rootNodes, handle);
        }
      }
    }

    /** Step 3 of `remove_node`: each listed node and its components removed, in order. */
    method RemoveAll(toRemove: seq<NodeHandle>)
      modifies this
      ensures nodes == old(nodes) - Elems(toRemove) && rootNodes == old(rootNodes) && nextHandle == old(nextHandle)
      ensures parts == DropComponents(old(parts), Elems(toRemove))
    {
      ghost var n0, c0 := nodes, parts;
      for i := 0 to |toRemove|
        invariant nodes == n0 - Elems(toRemove[..i]) && rootNodes == old(rootNodes) && nextHandle == old(nextHandle)
        invariant parts == DropComponents(c0, Elems(toRemove[..i]))
      {
        ghost var s := Elems(toRemove[..i]);
        assert Elems(toRemove[..i + 1]) == s + {toRemove[i]} by {
          assert toRemove[..i + 1] == toRemove[..i] + [toRemove[i]];
        }
        DropComponentsStep(c0, s, toRemove[i]);
        RemoveOne(toRemove[i]);
        assert (n0 - s) - {toRemove[i]} == n0 - (s + {toRemove[i]});
      }
      assert toRemove[..|toRemove|] == toRemove;
    }

    /**
     * `find_node_by_name`: some node carrying that name, in the side map's
     * unspecified iteration order, or none when no node carries it.
     */
    method FindNodeByName(name: string) returns (r: Option<NodeHandle>)
      ensures r.Some? ==> r.value in parts.names && parts.names[r.value] == name
      ensures r.None? <==> forall h :: h in parts.names ==> parts.names[h] != name
    {
      var names := parts.names;
      var remaining := names.Keys;
      while remaining != {}
        invariant remaining <= names.Keys
        invariant forall h :: h in names && h !in remaining ==> names[h] != name
        decreases |remaining|
      {
        var h :| h in remaining;
        if names[h] == name {
          return Some(h);
        }
        remaining := remaining - {h};
      }
      return None;
    }
  }
}
