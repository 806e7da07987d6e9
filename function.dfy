/** Building operation nodes. `add`, `product` and `matmul` each allocate a
    fresh zero buffer for the node's output and keep references to the two
    operands; building computes nothing. */
module Functions {
  import opened Tensors
  import opened Graph
  import opened Semantics

  /** `r` is `s` with one fresh zero buffer of shape `dim` appended, and the
      node of `r` is an operation on `x` and `y` that owns that buffer. */
  predicate Built(s: Store, x: Node, y: Node, dim: Shape, r: (Store, Node))
  {
    var (s', n) := r;
    |s'| == |s| + 1 && s'[..|s|] == s && !n.Leaf? && n.x == x && n.y == y && n.z == |s|
    && s'[|s|].dim == dim && s'[|s|].Valid()
    && (forall i :: 0 <= i < |s'[|s|].value| ==> s'[|s|].value[i] == 0)
    && (forall i :: 0 <= i < |s'[|s|].grad| ==> s'[|s|].grad[i] == 0)
  }

  /** `add(x, y)`: the output takes the shape of x. */
  function Add(s: Store, x: Node, y: Node): (r: (Store, Node))
    requires x.Out() < |s|
    ensures Built(s, x, y, s[x.Out()].dim, r) && r.1.AddNode?
  {
    (s + [New(s[x.Out()].dim)], AddNode(x, y, |s|))
  }

  /** `product(x, y)`: the output takes the shape of x. */
  function Product(s: Store, x: Node, y: Node): (r: (Store, Node))
    requires x.Out() < |s|
    ensures Built(s, x, y, s[x.Out()].dim, r) && r.1.ProductNode?
  {
    (s + [New(s[x.Out()].dim)], ProductNode(x, y, |s|))
  }

  /** `matmul(x, y, dim)`: the output takes the two-axis shape the caller
      gives, whether or not it fits the operands. */
  function Matmul(s: Store, x: Node, y: Node, dim: Shape): (r: (Store, Node))
    requires |dim| == 2
    ensures Built(s, x, y, dim, r) && r.1.MatmulNode?
  {
    (s + [New(dim)], MatmulNode(x, y, |s|))
  }

  lemma {:induction false} InRangeGrow(n: Node, count: nat, count': nat)
    requires InRange(n, count) && count <= count'
    ensures InRange(n, count')
  {
    if !n.Leaf? {
      InRangeGrow(n.x, count, count');
      InRangeGrow(n.y, count, count');
    }
  }

  /** A built node names only buffers of the extended arena. */
  lemma BuiltInRange(s: Store, x: Node, y: Node, dim: Shape, r: (Store, Node))
    requires InRange(x, |s|) && InRange(y, |s|) && Built(s, x, y, dim, r)
    ensures InRange(r.1, |r.0|)
  {
    InRangeGrow(x, |s|, |r.0|);
    InRangeGrow(y, |s|, |r.0|);
  }

  /** Every node of a graph in range has its output in range. */
  lemma {:induction false} InRangeSubnodes(n: Node, count: nat)
    requires InRange(n, count)
    ensures forall m :: m in Subnodes(n) ==> m.Out() < count
  {
    if !n.Leaf? {
      InRangeSubnodes(n.x, count);
      InRangeSubnodes(n.y, count);
    }
  }

  /** Appending a buffer does not change the shape checks of a graph that
      does not reach it. */
  lemma {:induction false} WellFormedExtend(n: Node, dims: seq<Shape>, d: Shape)
    requires InRange(n, |dims|)
    ensures WellFormed(n, dims + [d]) <==> WellFormed(n, dims)
  {
    if !n.Leaf? {
      WellFormedExtend(n.x, dims, d);
      WellFormedExtend(n.y, dims, d);
      assert (dims + [d])[n.x.Out()] == dims[n.x.Out()];
      assert (dims + [d])[n.y.Out()] == dims[n.y.Out()];
      assert (dims + [d])[n.z] == dims[n.z];
    }
  }

  lemma AppendDims(s: Store, t: Tensor)
    ensures Dims(s + [t]) == Dims(s) + [t.dim]
  {
  }

  /** The node built by `add` or `product` runs the engine without a shape
      error exactly when its operands do and have the same shape. */
  lemma ElementwiseReady(s: Store, x: Node, y: Node, product: bool)
    requires StoreValid(s) && InRange(x, |s|) && InRange(y, |s|)
    ensures var (s', n) := if product then Product(s, x, y) else Add(s, x, y);
      Ready(n, s') <==> Ready(x, s) && Ready(y, s) && s[y.Out()].dim == s[x.Out()].dim
  {
    var d := s[x.Out()].dim;
    var (s', n) := if product then Product(s, x, y) else Add(s, x, y);
    AppendDims(s, New(d));
    WellFormedExtend(x, Dims(s), d);
    WellFormedExtend(y, Dims(s), d);
    assert StoreValid(s');
  }

  /** The node built by `matmul` runs the engine without a shape error
      exactly when its operands do and `[m, k]` times `[k, n]` gives the
      declared output shape `[m, n]`. */
  lemma MatmulReady(s: Store, x: Node, y: Node, dim: Shape)
    requires StoreValid(s) && InRange(x, |s|) && InRange(y, |s|) && |dim| == 2
    ensures var (s', n) := Matmul(s, x, y, dim);
      Ready(n, s') <==> Ready(x, s) && Ready(y, s) && MatmulShapes(s[x.Out()].dim, s[y.Out()].dim, dim)
  {
    var (s', n) := Matmul(s, x, y, dim);
    AppendDims(s, New(dim));
    WellFormedExtend(x, Dims(s), dim);
    WellFormedExtend(y, Dims(s), dim);
    assert StoreValid(s');
  }

  /** A node built over a fresh buffer is singly owned exactly when the
      graphs of its two operands together are: the fresh buffer belongs to
      no existing node. */
  lemma BuildOwned(n: Node, count: nat)
    requires !n.Leaf? && n.z == count && InRange(n.x, count) && InRange(n.y, count)
    ensures Owned(n) <==> OwnedAll(Subnodes(n.x) + Subnodes(n.y))
  {
    InRangeSubnodes(n.x, count);
    InRangeSubnodes(n.y, count);
    assert n !in Subnodes(n.x) + Subnodes(n.y);
  }
}
