/**
 What a traversal of the scene graph computes: adding a child appends that
 child's calls, and every callback receives the parent matrix times the
 local transforms on the path from the traversed node down to its own node.
 */
module SceneGraphProperties {
  import opened Options
  import opened SceneGraph

  /** The children's traversals concatenate. */
  lemma {:induction false} RenderChildrenAppend<M, C>(mul: (M, M) -> M, a: seq<Node<M, C>>, b: seq<Node<M, C>>, world: M)
    ensures RenderChildren(mul, a + b, world) == RenderChildren(mul, a, world) + RenderChildren(mul, b, world)
    decreases |a|
  {
    if |a| == 0 {
      assert a + b == b;
    } else {
      assert (a + b)[1..] == a[1..] + b;
      RenderChildrenAppend(mul, a[1..], b, world);
    }
  }

  /**
   After `add_child`, a traversal makes the calls it made before, followed by
   the new child's calls under the node's world matrix.
   */
  lemma AddChildTrace<M, C>(mul: (M, M) -> M, node: Node<M, C>, child: Node<M, C>, parent: M)
    ensures UpdateAndRender(mul, AddChild(node, child), parent)
         == UpdateAndRender(mul, node, parent) + UpdateAndRender(mul, child, mul(parent, node.transform))
  {
    var world := mul(parent, node.transform);
    var own := if node.renderCallback.Some? then [Call(node.renderCallback.value, world)] else [];
    var before, added := RenderChildren(mul, node.children, world), UpdateAndRender(mul, child, world);
    calc {
      UpdateAndRender(mul, AddChild(node, child), parent);
      own + RenderChildren(mul, node.children + [child], world);
      { RenderChildrenAppend(mul, node.children, [child], world); RenderSingle(mul, child, world); }
      own + (before + added);
      (own + before) + added;
    }
  }

  lemma RenderSingle<M, C>(mul: (M, M) -> M, child: Node<M, C>, world: M)
    ensures RenderChildren(mul, [child], world) == UpdateAndRender(mul, child, world)
  {
    assert [child][1..] == [];
  }

  /**
   The walk starts at the node itself: with a callback, the first call is that
   callback with `parent * transform`; without one, the walk is just its
   children's walks under that matrix.
   */
  lemma OwnCallFirst<M, C>(mul: (M, M) -> M, node: Node<M, C>, parent: M)
    ensures node.renderCallback.Some? ==>
      && |UpdateAndRender(mul, node, parent)| >= 1
      && UpdateAndRender(mul, node, parent)[0] == Call(node.renderCallback.value, mul(parent, node.transform))
    ensures node.renderCallback.None? ==>
      UpdateAndRender(mul, node, parent) == RenderChildren(mul, node.children, mul(parent, node.transform))
  {
  }

  /**
   Children are walked in order: for each child `i`, the walk is the node's
   own call (if any), then the walks of children `0` .. `i - 1`, then child
   `i`'s walk, then the walks of the children after it, all under the node's
   world matrix.
   */
  lemma ChildrenInOrder<M, C>(mul: (M, M) -> M, node: Node<M, C>, parent: M, i: nat)
    requires i < |node.children|
    ensures
      var world := mul(parent, node.transform);
      var own := if node.renderCallback.Some? then [Call(node.renderCallback.value, world)] else [];
      UpdateAndRender(mul, node, parent)
        == own + RenderChildren(mul, node.children[..i], world)
        + UpdateAndRender(mul, node.children[i], world)
        + RenderChildren(mul, node.children[i + 1..], world)
  {
    var world := mul(parent, node.transform);
    var before, child, rest := node.children[..i], node.children[i], node.children[i + 1..];
    assert node.children == before + ([child] + rest);
    RenderChildrenAppend(mul, before, [child] + rest, world);
    RenderChildrenAppend(mul, [child], rest, world);
    RenderSingle(mul, child, world);
  }

  /** A new node renders nothing; given a callback, it calls it once with the parent matrix. */
  lemma NewNodeTrace<M(!new), C>(mul: (M, M) -> M, identity: M, parent: M, callback: C)
    requires IsMonoid(mul, identity)
    ensures UpdateAndRender(mul, NewNode<M, C>(identity), parent) == []
    ensures UpdateAndRender(mul, NewNode<M, C>(identity).(renderCallback := Some(callback)), parent)
         == [Call(callback, parent)]
  {
  }

  /** A callback of the tree together with the local transforms from the root of the walk down to its node. */
  datatype Entry<M, C> = Entry(callback: C, chain: seq<M>)

  function PrependAll<M, C>(t: M, entries: seq<Entry<M, C>>): (r: seq<Entry<M, C>>)
    ensures |r| == |entries|
    ensures forall i | 0 <= i < |r| :: r[i] == Entry(entries[i].callback, [t] + entries[i].chain)
  {
    if |entries| == 0 then [] else [Entry(entries[0].callback, [t] + entries[0].chain)] + PrependAll(t, entries[1..])
  }

  /** The tree's callbacks in pre-order, each with its ancestry of transforms, the node's own last. */
  function Collect<M, C>(node: Node<M, C>): (entries: seq<Entry<M, C>>)
    ensures forall e <- entries :: |e.chain| >= 1 && e.chain[0] == node.transform
    decreases node, 1
  {
    var own := if node.renderCallback.Some? then [Entry(node.renderCallback.value, [node.transform])] else [];
    own + PrependAll(node.transform, CollectAll(node.children))
  }

  function CollectAll<M, C>(nodes: seq<Node<M, C>>): seq<Entry<M, C>>
    decreases nodes, 0
  {
    if |nodes| == 0 then [] else Collect(nodes[0]) + CollectAll(nodes[1..])
  }

  /** The running product `((parent * chain[0]) * chain[1]) * ...`, as the traversal builds it. */
  function Fold<M>(mul: (M, M) -> M, parent: M, chain: seq<M>): M
    decreases |chain|
  {
    if |chain| == 0 then parent else Fold(mul, mul(parent, chain[0]), chain[1..])
  }

  /** The product `chain[0] * (chain[1] * (... * identity))`. */
  function Product<M>(mul: (M, M) -> M, identity: M, chain: seq<M>): M
    decreases |chain|
  {
    if |chain| == 0 then identity else mul(chain[0], Product(mul, identity, chain[1..]))
  }

  /** The calls the entries stand for when the walk starts from `parent`. */
  function Play<M, C>(mul: (M, M) -> M, entries: seq<Entry<M, C>>, parent: M): (calls: seq<Call<M, C>>)
    ensures |calls| == |entries|
  {
    if |entries| == 0 then []
    else [Call(entries[0].callback, Fold(mul, parent, entries[0].chain))] + Play(mul, entries[1..], parent)
  }

  lemma {:induction false} PlayAppend<M, C>(mul: (M, M) -> M, a: seq<Entry<M, C>>, b: seq<Entry<M, C>>, parent: M)
    ensures Play(mul, a + b, parent) == Play(mul, a, parent) + Play(mul, b, parent)
    decreases |a|
  {
    if |a| == 0 {
      assert a + b == b;
    } else {
      assert (a + b)[1..] == a[1..] + b;
      PlayAppend(mul, a[1..], b, parent);
    }
  }

  lemma {:induction false} PlayPrepend<M, C>(mul: (M, M) -> M, t: M, entries: seq<Entry<M, C>>, parent: M)
    ensures Play(mul, PrependAll(t, entries), parent) == Play(mul, entries, mul(parent, t))
    decreases |entries|
  {
    if |entries| > 0 {
      var chain := [t] + entries[0].chain;
      assert chain[1..] == entries[0].chain;
      assert PrependAll(t, entries)[1..] == PrependAll(t, entries[1..]);
      PlayPrepend(mul, t, entries[1..], parent);
    }
  }

  /** The traversal makes exactly the calls `Collect` lists, each with the fold of its ancestry onto `parent`. */
  lemma {:induction false} TraceMatchesAncestry<M, C>(mul: (M, M) -> M, node: Node<M, C>, parent: M)
    ensures UpdateAndRender(mul, node, parent) == Play(mul, Collect(node), parent)
    decreases node, 1
  {
    var world := mul(parent, node.transform);
    var own := if node.renderCallback.Some? then [Entry(node.renderCallback.value, [node.transform])] else [];
    var rest := PrependAll(node.transform, CollectAll(node.children));
    PlayAppend(mul, own, rest, parent);
    PlayPrepend(mul, node.transform, CollectAll(node.children), parent);
    ChildrenMatchAncestry(mul, node.children, world);
    if node.renderCallback.Some? {
      assert [node.transform][1..] == [];
      assert Fold(mul, parent, [node.transform]) == world;
      assert Play(mul, own, parent) == [Call(node.renderCallback.value, world)];
    } else {
      assert Play(mul, own, parent) == [];
    }
  }

  lemma {:induction false} ChildrenMatchAncestry<M, C>(mul: (M, M) -> M, nodes: seq<Node<M, C>>, world: M)
    ensures RenderChildren(mul, nodes, world) == Play(mul, CollectAll(nodes), world)
    decreases nodes, 0
  {
    if |nodes| > 0 {
      TraceMatchesAncestry(mul, nodes[0], world);
      ChildrenMatchAncestry(mul, nodes[1..], world);
      PlayAppend(mul, Collect(nodes[0]), CollectAll(nodes[1..]), world);
    }
  }

  /** With an associative multiplication and its identity, folding a chain onto `parent` multiplies by the chain's product. */
  lemma {:induction false} FoldIsProduct<M(!new)>(mul: (M, M) -> M, identity: M, parent: M, chain: seq<M>)
    requires IsMonoid(mul, identity)
    ensures Fold(mul, parent, chain) == mul(parent, Product(mul, identity, chain))
    decreases |chain|
  {
    if |chain| > 0 {
      FoldIsProduct(mul, identity, mul(parent, chain[0]), chain[1..]);
      var rest := Product(mul, identity, chain[1..]);
      assert mul(mul(parent, chain[0]), rest) == mul(parent, mul(chain[0], rest));
    }
  }

  /**
   The `i`-th call of a traversal invokes the `i`-th callback in pre-order
   with `parent` times the product of the local transforms from the walked
   node down to that callback's node.
   */
  lemma WorldIsAncestorProduct<M(!new), C>(mul: (M, M) -> M, identity: M, node: Node<M, C>, parent: M, i: nat)
    requires IsMonoid(mul, identity)
    requires i < |Collect(node)|
    ensures |UpdateAndRender(mul, node, parent)| == |Collect(node)|
    ensures UpdateAndRender(mul, node, parent)[i]
         == Call(Collect(node)[i].callback, mul(parent, Product(mul, identity, Collect(node)[i].chain)))
  {
    TraceMatchesAncestry(mul, node, parent);
    PlayAt(mul, Collect(node), parent, i);
    FoldIsProduct(mul, identity, parent, Collect(node)[i].chain);
  }

  lemma {:induction false} PlayAt<M, C>(mul: (M, M) -> M, entries: seq<Entry<M, C>>, parent: M, i: nat)
    requires i < |entries|
    ensures Play(mul, entries, parent)[i] == Call(entries[i].callback, Fold(mul, parent, entries[i].chain))
    decreases i
  {
    if i > 0 {
      PlayAt(mul, entries[1..], parent, i - 1);
    }
  }

  /** Walking from the identity, a node's own callback receives the node's transform itself. */
  lemma RootCallbackSeesOwnTransform<M(!new), C>(mul: (M, M) -> M, identity: M, node: Node<M, C>)
    requires IsMonoid(mul, identity) && node.renderCallback.Some?
    ensures UpdateAndRender(mul, node, identity)[0] == Call(node.renderCallback.value, node.transform)
  {
  }
}
