/** The computation graph: a closed sum type over the four node kinds.
    Every buffer lives in one arena (a `Store`); a node names its output
    buffer by a handle into it, and an operation node holds its two
    children, so a child used twice (`product(&x, &x)`) is the same handle
    appearing twice. */
module Graph {
  import opened Tensors

  type Handle = nat

  /** The arena of buffers, indexed by handle. */
  type Store = seq<Tensor>

  datatype Node =
    | Leaf(t: Handle)
    | AddNode(x: Node, y: Node, z: Handle)
    | ProductNode(x: Node, y: Node, z: Handle)
    | MatmulNode(x: Node, y: Node, z: Handle)
  {
    /** The buffer this node exposes through `get_input` and `get_grad`. */
    function Out(): (h: Handle)
    {
      if Leaf? then t else z
    }
  }

  /** The fatal shape errors of the engine. */
  datatype ShapeError = ShapeMismatch | DimensionalityMismatch

  datatype Outcome = Pass | Fail(error: ShapeError)

  /** The shapes of the buffers of a store. */
  function Dims(s: Store): (d: seq<Shape>)
    ensures |d| == |s|
    ensures forall h :: 0 <= h < |s| ==> d[h] == s[h].dim
  {
    seq(|s|, h requires 0 <= h < |s| => s[h].dim)
  }

  /** Every buffer's value and gradient have the buffer's shape. */
  predicate StoreValid(s: Store)
  {
    forall h :: 0 <= h < |s| ==> s[h].Valid()
  }

  /** Every handle of `n` names a buffer of an arena of `count` buffers. */
  predicate InRange(n: Node, count: nat)
  {
    n.Out() < count &&
    (!n.Leaf? ==> n.x.Out() < count && n.y.Out() < count && InRange(n.x, count) && InRange(n.y, count))
  }

  /** The shape rule of a matrix product: [m, k] times [k, n] gives [m, n]. */
  predicate MatmulShapes(dx: Shape, dy: Shape, dz: Shape)
  {
    |dx| == 2 && |dy| == 2 && dx[1] == dy[0] && dz == [dx[0], dy[1]]
  }

  /** The shape conditions under which forward and backward run without a
      fatal error: elementwise operands and output share one shape, and
      matrix products are between 2-D arrays of matching sizes. */
  predicate WellFormed(n: Node, dims: seq<Shape>)
  {
    n.Out() < |dims| &&
    match n
    case Leaf(_) => true
    case AddNode(x, y, z) =>
      WellFormed(x, dims) && WellFormed(y, dims) && x.Out() < |dims| && y.Out() < |dims|
      && dims[x.Out()] == dims[z] && dims[y.Out()] == dims[z]
    case ProductNode(x, y, z) =>
      WellFormed(x, dims) && WellFormed(y, dims) && x.Out() < |dims| && y.Out() < |dims|
      && dims[x.Out()] == dims[z] && dims[y.Out()] == dims[z]
    case MatmulNode(x, y, z) =>
      WellFormed(x, dims) && WellFormed(y, dims) && x.Out() < |dims| && y.Out() < |dims|
      && MatmulShapes(dims[x.Out()], dims[y.Out()], dims[z])
  }

  function ElementwiseCheck(dx: Shape, dy: Shape, dz: Shape): (r: Outcome)
    ensures r == Pass <==> dx == dz && dy == dz
  {
    if dx == dz && dy == dz then Pass else Fail(ShapeMismatch)
  }

  /** The first fatal error that `forward` meets, in its order: the left
      child, the right child, then the node itself. A matrix product first
      views its operands and output as 2-D arrays (a rank other than 2 is a
      dimensionality error) and then multiplies them (mismatching sizes are
      a shape error). */
  function Validate(n: Node, dims: seq<Shape>): (r: Outcome)
    requires InRange(n, |dims|)
    ensures r == Pass <==> WellFormed(n, dims)
    ensures r.Fail? && r.error == DimensionalityMismatch ==> exists m :: m in Subnodes(n) && m.MatmulNode?
  {
    match n
    case Leaf(_) => Pass
    case AddNode(x, y, z) =>
      var vx := Validate(x, dims);
      var vy := Validate(y, dims);
      if vx.Fail? then vx else if vy.Fail? then vy
      else ElementwiseCheck(dims[x.Out()], dims[y.Out()], dims[z])
    case ProductNode(x, y, z) =>
      var vx := Validate(x, dims);
      var vy := Validate(y, dims);
      if vx.Fail? then vx else if vy.Fail? then vy
      else ElementwiseCheck(dims[x.Out()], dims[y.Out()], dims[z])
    case MatmulNode(x, y, z) =>
      var vx := Validate(x, dims);
      var vy := Validate(y, dims);
      var dx, dy, dz := dims[x.Out()], dims[y.Out()], dims[z];
      if vx.Fail? then vx else if vy.Fail? then vy
      else if |dx| != 2 || |dy| != 2 || |dz| != 2 then Fail(DimensionalityMismatch)
      else if dx[1] != dy[0] || dz != [dx[0], dy[1]] then Fail(ShapeMismatch)
      else Pass
  }

  /** The node and every node below it (a shared child counts once). */
  function Subnodes(n: Node): (ns: set<Node>)
  {
    if n.Leaf? then {n} else {n} + Subnodes(n.x) + Subnodes(n.y)
  }

  /** Handles of the leaves below `n`. */
  function LeafOuts(n: Node): (hs: set<Handle>)
  {
    if n.Leaf? then {n.t} else LeafOuts(n.x) + LeafOuts(n.y)
  }

  /** Output handles of the operation nodes below `n`, `n` included. */
  function OpOuts(n: Node): (hs: set<Handle>)
  {
    if n.Leaf? then {} else {n.z} + OpOuts(n.x) + OpOuts(n.y)
  }

  /** Handles whose gradient `backward` on `n` may add into. */
  function Below(n: Node): (hs: set<Handle>)
  {
    if n.Leaf? then {} else LeafOuts(n.x) + OpOuts(n.x) + LeafOuts(n.y) + OpOuts(n.y)
  }

  /** No matrix product below `n`. */
  predicate Elementwise(n: Node)
  {
    match n
    case Leaf(_) => true
    case AddNode(x, y, _) => Elementwise(x) && Elementwise(y)
    case ProductNode(x, y, _) => Elementwise(x) && Elementwise(y)
    case MatmulNode(_, _, _) => false
  }

  /** No operation node is reached along two paths: the operation nodes of
      the two children are apart, all the way down. Leaves may be shared. */
  predicate NoSharedOps(n: Node)
  {
    n.Leaf? || (NoSharedOps(n.x) && NoSharedOps(n.y) && OpOuts(n.x) !! OpOuts(n.y))
  }

  /** Single ownership: within a set of nodes, different nodes have
      different output buffers. */
  predicate OwnedAll(ns: set<Node>)
  {
    forall a, b :: a in ns && b in ns && a.Out() == b.Out() ==> a == b
  }

  /** Every buffer of the graph under `n` belongs to exactly one node: each
      operation node owns the output buffer allocated when it was built. */
  predicate Owned(n: Node)
  {
    OwnedAll(Subnodes(n))
  }

  function Rank(n: Node): (k: nat)
  {
    if n.Leaf? then 1 else 1 + Rank(n.x) + Rank(n.y)
  }

  lemma {:induction false} SubnodeRank(m: Node, n: Node)
    requires m in Subnodes(n)
    ensures Rank(m) <= Rank(n)
    ensures m != n ==> !n.Leaf? && Rank(m) < Rank(n)
  {
    if m != n {
      if m in Subnodes(n.x) {
        SubnodeRank(m, n.x);
      } else {
        SubnodeRank(m, n.y);
      }
    }
  }

  lemma {:induction false} LeafOutsAreLeaves(n: Node, h: Handle)
    requires h in LeafOuts(n)
    ensures Leaf(h) in Subnodes(n)
  {
    if !n.Leaf? {
      if h in LeafOuts(n.x) {
        LeafOutsAreLeaves(n.x, h);
      } else {
        LeafOutsAreLeaves(n.y, h);
      }
    }
  }

  lemma {:induction false} OpOutsAreOps(n: Node, h: Handle)
    requires h in OpOuts(n)
    ensures exists m :: m in Subnodes(n) && !m.Leaf? && m.Out() == h
  {
    if h != n.z {
      if h in OpOuts(n.x) {
        OpOutsAreOps(n.x, h);
      } else {
        OpOutsAreOps(n.y, h);
      }
    }
  }

  lemma {:induction false} SubnodeOut(m: Node, n: Node)
    requires m in Subnodes(n)
    ensures m.Out() in LeafOuts(n) + OpOuts(n)
    ensures m.Leaf? ==> m.Out() in LeafOuts(n)
    ensures !m.Leaf? ==> m.Out() in OpOuts(n)
  {
    if m != n {
      if m in Subnodes(n.x) {
        SubnodeOut(m, n.x);
      } else {
        SubnodeOut(m, n.y);
      }
    }
  }

  /** Under single ownership no buffer is both a leaf and an operation's
      output. */
  lemma LeafNotOp(n: Node, h: Handle)
    requires Owned(n) && h in LeafOuts(n)
    ensures h !in OpOuts(n)
  {
    LeafOutsAreLeaves(n, h);
    if h in OpOuts(n) {
      OpOutsAreOps(n, h);
      assert false;
    }
  }

  /** Under single ownership an operation node's output buffer is not a
      buffer of either child's graph. */
  lemma RootNotBelow(n: Node)
    requires Owned(n) && !n.Leaf?
    ensures n.z !in Below(n)
  {
    forall m | m in Subnodes(n.x) + Subnodes(n.y)
      ensures m.Out() != n.z
    {
      SubnodeRank(m, if m in Subnodes(n.x) then n.x else n.y);
      assert Rank(m) < Rank(n);
    }
    if n.z in Below(n) {
      var c := if n.z in LeafOuts(n.x) + OpOuts(n.x) then n.x else n.y;
      if n.z in LeafOuts(c) {
        LeafOutsAreLeaves(c, n.z);
      } else {
        OpOutsAreOps(c, n.z);
      }
      assert false;
    }
  }
}
