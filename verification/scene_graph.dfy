/**
 The scene graph (`Node`): a tree of local transforms with optional render
 callbacks, walked in pre-order by `update_and_render`.

 The 4x4 matrices are abstracted to any type `M` with a multiplication
 `mul`; the properties that need it assume `mul` and `identity` form a
 monoid, which matrix multiplication with the identity matrix does. The
 render callback is opaque code: the model records each invocation as a
 `Call` of the callback with the world matrix it receives, so a traversal
 yields the sequence of calls it makes.
 */
module SceneGraph {
  import opened Options

  datatype Node<M, C> = Node(transform: M, children: seq<Node<M, C>>, renderCallback: Option<C>)

  /** One invocation of a render callback with its world matrix. */
  datatype Call<M, C> = Call(callback: C, world: M)

  ghost predicate IsMonoid<M(!new)>(mul: (M, M) -> M, identity: M) {
    && (forall a :: mul(identity, a) == a && mul(a, identity) == a)
    && (forall a, b, c :: mul(mul(a, b), c) == mul(a, mul(b, c)))
  }

  /** `Node::Node`: identity transform, no children, no callback. */
  function NewNode<M, C>(identity: M): (n: Node<M, C>)
    ensures n.transform == identity
    ensures n.children == []
    ensures n.renderCallback == None
  {
    Node(identity, [], None)
  }

  /** `Node::add_child`: the child goes after the existing children, which keep their order. */
  function AddChild<M, C>(node: Node<M, C>, child: Node<M, C>): (r: Node<M, C>)
    ensures |r.children| == |node.children| + 1
    ensures r.children[..|node.children|] == node.children
    ensures r.children[|node.children|] == child
    ensures r.transform == node.transform && r.renderCallback == node.renderCallback
  {
    node.(children := node.children + [child])
  }

  /** Number of nodes in the tree that carry a render callback. */
  function CallbackCount<M, C>(node: Node<M, C>): nat
    decreases node, 1
  {
    (if node.renderCallback.Some? then 1 else 0) + CallbackCountAll(node.children)
  }

  function CallbackCountAll<M, C>(nodes: seq<Node<M, C>>): nat
    decreases nodes, 0
  {
    if |nodes| == 0 then 0 else CallbackCount(nodes[0]) + CallbackCountAll(nodes[1..])
  }

  /**
   `Node::update_and_render(parent)`: the node's world matrix is
   `parent * transform`; its own callback, if any, is called with it first,
   then each child is walked, in order, with that world matrix as parent.
   */
  function UpdateAndRender<M, C>(mul: (M, M) -> M, node: Node<M, C>, parent: M): (calls: seq<Call<M, C>>)
    ensures |calls| == CallbackCount(node)
    decreases node, 1
  {
    var world := mul(parent, node.transform);
    var own := if node.renderCallback.Some? then [Call(node.renderCallback.value, world)] else [];
    own + RenderChildren(mul, node.children, world)
  }

  /** The children's traversals, one after the other, each with parent matrix `world`. */
  function RenderChildren<M, C>(mul: (M, M) -> M, children: seq<Node<M, C>>, world: M): (calls: seq<Call<M, C>>)
    ensures |calls| == CallbackCountAll(children)
    decreases children, 0
  {
    if |children| == 0 then []
    else UpdateAndRender(mul, children[0], world) + RenderChildren(mul, children[1..], world)
  }
}
