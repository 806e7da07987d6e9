/** What each `Node` operation does to the arena of buffers, as functions
    from the store before the call to the store after it. The methods of
    `Nodes.Arena` perform these updates in place. */
module Semantics {
  import opened Tensors
  import opened Matrices
  import opened Graph

  /** The node's shapes let forward and backward run without a fatal error. */
  predicate Ready(n: Node, s: Store)
  {
    StoreValid(s) && WellFormed(n, Dims(s))
  }

  /** Replace the value array of buffer `h` (`*borrow_z = ...`). */
  function WithValue(s: Store, h: Handle, v: seq<int>): (r: Store)
    requires StoreValid(s) && h < |s| && |v| == Size(s[h].dim)
    ensures |r| == |s| && Dims(r) == Dims(s) && StoreValid(r)
    ensures r[h].value == v && r[h].grad == s[h].grad
    ensures forall g :: 0 <= g < |s| && g != h ==> r[g] == s[g]
  {
    s[h := s[h].(value := v)]
  }

  /** Replace the gradient array of buffer `h`. */
  function WithGrad(s: Store, h: Handle, g: seq<int>): (r: Store)
    requires StoreValid(s) && h < |s| && |g| == Size(s[h].dim)
    ensures |r| == |s| && Dims(r) == Dims(s) && StoreValid(r)
    ensures r[h].grad == g && r[h].value == s[h].value
    ensures forall k :: 0 <= k < |s| && k != h ==> r[k] == s[k]
  {
    s[h := s[h].(grad := g)]
  }

  /** `*grad += g` on buffer `h`. */
  function AccumGrad(s: Store, h: Handle, g: seq<int>): (r: Store)
    requires StoreValid(s) && h < |s| && |g| == Size(s[h].dim)
    ensures |r| == |s| && Dims(r) == Dims(s) && StoreValid(r)
    ensures forall i :: 0 <= i < |g| ==> r[h].grad[i] == s[h].grad[i] + g[i]
    ensures r[h].value == s[h].value
    ensures forall k :: 0 <= k < |s| && k != h ==> r[k] == s[k]
  {
    WithGrad(s, h, ElemAdd(s[h].grad, g))
  }

  /** Product of a 2-D array of shape `da` and one of shape `db`. */
  function MatrixProduct(a: seq<int>, da: Shape, b: seq<int>, db: Shape): (c: seq<int>)
    requires |da| == 2 && |db| == 2 && da[1] == db[0] && |a| == Size(da) && |b| == Size(db)
    ensures |c| == Size([da[0], db[1]])
  {
    assert da == [da[0], da[1]] && db == [db[0], db[1]];
    SizeOfMatrix(da[0], da[1]);
    SizeOfMatrix(db[0], db[1]);
    SizeOfMatrix(da[0], db[1]);
    MatMul(a, b, da[0], da[1], db[1])
  }

  /** `reversed_axes` of a 2-D array of shape `da`. */
  function Reversed(a: seq<int>, da: Shape): (r: seq<int>)
    requires |da| == 2 && |a| == Size(da)
    ensures |r| == Size([da[1], da[0]])
  {
    assert da == [da[0], da[1]];
    SizeOfMatrix(da[0], da[1]);
    SizeOfMatrix(da[1], da[0]);
    Transpose(a, da[0], da[1])
  }

  /** The node's own part of `forward`, once both children are forwarded:
      Add and Product overwrite the output value with x + y or x * y;
      MatMul adds x * y into the output value it finds, or, with
      `overwrite`, stores it as Add and Product do (the corrected step). */
  function Combine(n: Node, s: Store, overwrite: bool := false): (r: Store)
    requires Ready(n, s) && !n.Leaf?
    ensures |r| == |s| && Dims(r) == Dims(s) && StoreValid(r)
    ensures forall h :: 0 <= h < |s| ==> r[h].grad == s[h].grad
    ensures forall h :: 0 <= h < |s| && h != n.z ==> r[h] == s[h]
  {
    var xv, yv := s[n.x.Out()].value, s[n.y.Out()].value;
    match n
    case AddNode(_, _, z) => WithValue(s, z, ElemAdd(xv, yv))
    case ProductNode(_, _, z) => WithValue(s, z, ElemMul(xv, yv))
    case MatmulNode(x, y, z) =>
      var p := MatrixProduct(xv, s[x.Out()].dim, yv, s[y.Out()].dim);
      WithValue(s, z, if overwrite then p else ElemAdd(s[z].value, p))
  }

  /** `forward`: x first, then y, then the node's own value. A leaf does
      nothing. Without `overwrite` this is the code as written; with it,
      MatMul's step stores its product instead of adding it. */
  function Forward(n: Node, s: Store, overwrite: bool := false): (r: Store)
    requires Ready(n, s)
    ensures |r| == |s| && Dims(r) == Dims(s) && StoreValid(r)
    ensures forall h :: 0 <= h < |s| ==> r[h].grad == s[h].grad
  {
    if n.Leaf? then s else Combine(n, Forward(n.y, Forward(n.x, s, overwrite), overwrite), overwrite)
  }

  /** dz * y^T: the gradient a matrix product passes to its left operand,
      for an output gradient of shape [m, n] and a right operand of shape
      [k, n]; its shape is [m, k]. */
  function LeftGrad(dzg: seq<int>, dz: Shape, yv: seq<int>, dy: Shape): (g: seq<int>)
    requires |dz| == 2 && |dy| == 2 && dz[1] == dy[1] && |dzg| == Size(dz) && |yv| == Size(dy)
    ensures |g| == Size([dz[0], dy[0]])
  {
    MatrixProduct(dzg, dz, Reversed(yv, dy), [dy[1], dy[0]])
  }

  /** x^T * dz: the gradient a matrix product passes to its right operand,
      for a left operand of shape [m, k] and an output gradient of shape
      [m, n]; its shape is [k, n]. */
  function RightGrad(xv: seq<int>, dx: Shape, dzg: seq<int>, dz: Shape): (g: seq<int>)
    requires |dx| == 2 && |dz| == 2 && dx[0] == dz[0] && |xv| == Size(dx) && |dzg| == Size(dz)
    ensures |g| == Size([dx[1], dz[1]])
  {
    MatrixProduct(Reversed(xv, dx), [dx[1], dx[0]], dzg, dz)
  }

  /** The two gradients of a matrix product agree under transposition: what
      y receives in z = x y, x^T dz, is the transpose of what the left
      operand y^T receives in the transposed product z^T = y^T x^T. */
  lemma MatmulGradTranspose(xv: seq<int>, dzg: seq<int>, m: nat, k: nat, n: nat)
    requires |xv| == Size([m, k]) && |dzg| == Size([m, n])
    ensures var lt := LeftGrad(Reversed(dzg, [m, n]), [n, m], Reversed(xv, [m, k]), [k, m]);
      RightGrad(xv, [m, k], dzg, [m, n]) == Reversed(lt, [n, k])
  {
    SizeOfMatrix(m, k);
    SizeOfMatrix(m, n);
    SizeOfMatrix(n, m);
    SizeOfMatrix(k, m);
    SizeOfMatrix(n, k);
    var xt, dzt := Transpose(xv, m, k), Transpose(dzg, m, n);
    TransposeTwice(xv, m, k);
    var lt := LeftGrad(dzt, [n, m], xt, [k, m]);
    assert lt == MatMul(dzt, xv, n, m, k);
    MatMulTranspose(dzt, xv, n, m, k);
    TransposeTwice(dzg, m, n);
    assert Reversed(lt, [n, k]) == MatMul(xt, dzg, k, m, n);
  }

  /** `+=` of the gradients a matrix product passes to x (at `xo`) and to y
      (at `yo`); both are computed before either is added. */
  function MatmulContribute(s: Store, xo: Handle, yo: Handle, z: Handle): (r: Store)
    requires StoreValid(s) && xo < |s| && yo < |s| && z < |s|
    requires MatmulShapes(s[xo].dim, s[yo].dim, s[z].dim)
    ensures |r| == |s| && Dims(r) == Dims(s) && StoreValid(r)
    ensures forall h :: 0 <= h < |s| ==> r[h].value == s[h].value
    ensures forall h :: 0 <= h < |s| && h != xo && h != yo ==> r[h] == s[h]
  {
    var dx, dy, dz := s[xo].dim, s[yo].dim, s[z].dim;
    assert [dz[0], dy[0]] == dx && [dx[1], dz[1]] == dy;
    var gx := LeftGrad(s[z].grad, dz, s[yo].value, dy);
    var gy := RightGrad(s[xo].value, dx, s[z].grad, dz);
    AccumGrad(AccumGrad(s, xo, gx), yo, gy)
  }

  /** The node's own part of `backward`: its chain-rule contribution added
      into x's gradient and then into y's. Add passes the output gradient
      dz on; Product passes dz * y (to x) and dz * x (to y), reading the
      children's values, not their gradients; MatMul passes dz * y^T and
      x^T * dz. */
  function Contribute(n: Node, s: Store): (r: Store)
    requires Ready(n, s) && !n.Leaf?
    ensures |r| == |s| && Dims(r) == Dims(s) && StoreValid(r)
    ensures forall h :: 0 <= h < |s| ==> r[h].value == s[h].value
    ensures forall h :: 0 <= h < |s| && h != n.x.Out() && h != n.y.Out() ==> r[h] == s[h]
  {
    var xo, yo, z := n.x.Out(), n.y.Out(), n.z;
    if n.AddNode? then
      var s1 := AccumGrad(s, xo, s[z].grad);
      AccumGrad(s1, yo, s1[z].grad)
    else if n.ProductNode? then
      var s1 := AccumGrad(s, xo, ElemMul(s[z].grad, s[yo].value));
      AccumGrad(s1, yo, ElemMul(s1[z].grad, s1[xo].value))
    else
      MatmulContribute(s, xo, yo, z)
  }

  /** `backward`: the node's own contribution, then x's backward, then
      y's. A leaf does nothing. */
  function Backward(n: Node, s: Store): (r: Store)
    requires Ready(n, s)
    ensures |r| == |s| && Dims(r) == Dims(s) && StoreValid(r)
    ensures forall h :: 0 <= h < |s| ==> r[h].value == s[h].value
  {
    if n.Leaf? then s else Backward(n.y, Backward(n.x, Contribute(n, s)))
  }

  /** `reset_grad` of the node whose output buffer is `h`. */
  function ResetGrad(s: Store, h: Handle): (r: Store)
    requires StoreValid(s) && h < |s|
    ensures |r| == |s| && Dims(r) == Dims(s) && StoreValid(r)
    ensures forall i :: 0 <= i < |r[h].grad| ==> r[h].grad[i] == 0
    ensures r[h].value == s[h].value
    ensures forall k :: 0 <= k < |s| && k != h ==> r[k] == s[k]
  {
    WithGrad(s, h, Fill(Size(s[h].dim), 0))
  }

  /** Buffers whose gradient `zero_grad` clears: the node's own and, for an
      operation node, those of its two direct children. */
  function Cleared(n: Node): (hs: set<Handle>)
  {
    if n.Leaf? then {n.t} else {n.x.Out(), n.y.Out(), n.z}
  }

  /** `zero_grad`: a leaf resets its own gradient; an operation node resets
      x's, y's and its own, and goes no deeper. */
  function ZeroGrad(n: Node, s: Store): (r: Store)
    requires StoreValid(s) && InRange(n, |s|)
    ensures |r| == |s| && Dims(r) == Dims(s) && StoreValid(r)
    ensures forall h :: 0 <= h < |s| ==> r[h].value == s[h].value
    ensures forall h, i :: h in Cleared(n) && 0 <= i < |r[h].grad| ==> r[h].grad[i] == 0
    ensures forall h :: 0 <= h < |s| && h !in Cleared(n) ==> r[h] == s[h]
  {
    if n.Leaf? then ResetGrad(s, n.t)
    else ResetGrad(ResetGrad(ResetGrad(s, n.x.Out()), n.y.Out()), n.z)
  }

  /** `set_grad`: the node's own gradient becomes all ones of its shape. */
  function SetGrad(n: Node, s: Store): (r: Store)
    requires StoreValid(s) && InRange(n, |s|)
    ensures |r| == |s| && Dims(r) == Dims(s) && StoreValid(r)
    ensures forall i :: 0 <= i < |r[n.Out()].grad| ==> r[n.Out()].grad[i] == 1
    ensures r[n.Out()].value == s[n.Out()].value
    ensures forall h :: 0 <= h < |s| && h != n.Out() ==> r[h] == s[h]
  {
    WithGrad(s, n.Out(), Fill(Size(s[n.Out()].dim), 1))
  }

  /** The value the expression under `n` denotes, computed from the leaves'
      current values alone. */
  function Eval(n: Node, s: Store): (v: seq<int>)
    requires Ready(n, s)
    ensures |v| == Size(s[n.Out()].dim)
  {
    match n
    case Leaf(t) => s[t].value
    case AddNode(x, y, _) => ElemAdd(Eval(x, s), Eval(y, s))
    case ProductNode(x, y, _) => ElemMul(Eval(x, s), Eval(y, s))
    case MatmulNode(x, y, _) => MatrixProduct(Eval(x, s), s[x.Out()].dim, Eval(y, s), s[y.Out()].dim)
  }

  /** The forward-mode derivative of each element of n's value with
      respect to the same element of the value of buffer `t`, on a graph of
      sums and elementwise products (where element i of a node depends on
      element i of its leaves only): 1 for the leaf `t` itself and 0 for
      any other leaf, then the sum rule and the product rule. */
  function Deriv(n: Node, s: Store, t: Handle): (d: seq<int>)
    requires Ready(n, s) && Elementwise(n)
    ensures |d| == Size(s[n.Out()].dim)
  {
    if n.Leaf? then Fill(Size(s[n.t].dim), if n.t == t then 1 else 0)
    else if n.AddNode? then ElemAdd(Deriv(n.x, s, t), Deriv(n.y, s, t))
    else ElemAdd(ElemMul(Deriv(n.x, s, t), Eval(n.y, s)), ElemMul(Eval(n.x, s), Deriv(n.y, s, t)))
  }

  // ---------------------------------------------------------------------
  // Structural facts

  lemma {:induction false} SubnodeFacts(m: Node, n: Node, dims: seq<Shape>)
    requires m in Subnodes(n)
    ensures Subnodes(m) <= Subnodes(n)
    ensures LeafOuts(m) <= LeafOuts(n) && OpOuts(m) <= OpOuts(n)
    ensures WellFormed(n, dims) ==> WellFormed(m, dims)
  {
    if m != n {
      var c := if m in Subnodes(n.x) then n.x else n.y;
      SubnodeFacts(m, c, dims);
    }
  }

  // ---------------------------------------------------------------------
  // Forward

  /** `forward` writes only the output buffers of the operation nodes
      below it; leaves and every other buffer keep their contents, and no
      gradient changes. */
  lemma {:induction false} ForwardFrame(n: Node, s: Store, overwrite: bool := false)
    requires Ready(n, s)
    ensures forall h :: 0 <= h < |s| && h !in OpOuts(n) ==> Forward(n, s, overwrite)[h] == s[h]
  {
    if !n.Leaf? {
      ForwardFrame(n.x, s, overwrite);
      ForwardFrame(n.y, Forward(n.x, s, overwrite), overwrite);
    }
  }

  /** The denotation of a node depends on its leaves' values only. */
  lemma {:induction false} EvalLeaves(n: Node, s: Store, s': Store)
    requires Ready(n, s) && StoreValid(s') && Dims(s') == Dims(s)
    requires forall t :: t in LeafOuts(n) && t < |s| ==> s'[t].value == s[t].value
    ensures Eval(n, s') == Eval(n, s)
  {
    if !n.Leaf? {
      EvalLeaves(n.x, s, s');
      EvalLeaves(n.y, s, s');
    }
  }

  lemma OwnedChildren(n: Node)
    requires Owned(n) && !n.Leaf?
    ensures Owned(n.x) && Owned(n.y)
  {
    assert Subnodes(n.x) <= Subnodes(n) && Subnodes(n.y) <= Subnodes(n);
  }

  /** `forward` on x writes no leaf of a singly-owned graph. */
  lemma LeftKeepsLeaves(n: Node, s: Store, overwrite: bool)
    requires Ready(n, s) && Owned(n) && !n.Leaf?
    ensures forall t :: t in LeafOuts(n) && t < |s| ==> Forward(n.x, s, overwrite)[t] == s[t]
  {
    ForwardFrame(n.x, s, overwrite);
    forall t | t in LeafOuts(n) && t < |s|
      ensures Forward(n.x, s, overwrite)[t] == s[t]
    {
      LeafNotOp(n, t);
    }
  }

  /** After `forward` on x and then on y, y's graph holds its denotation
      over the leaves' values before the call: x's forward writes no leaf. */
  lemma {:induction false} RightComputed(n: Node, s: Store, overwrite: bool)
    requires Ready(n, s) && Owned(n) && !n.Leaf? && (overwrite || (Elementwise(n.x) && Elementwise(n.y)))
    ensures forall m :: m in Subnodes(n.y) ==>
      Ready(m, s) && Forward(n.y, Forward(n.x, s, overwrite), overwrite)[m.Out()].value == Eval(m, s)
    decreases n, 0
  {
    var s1 := Forward(n.x, s, overwrite);
    OwnedChildren(n);
    ForwardComputes(n.y, s1, overwrite);
    LeftKeepsLeaves(n, s, overwrite);
    forall m | m in Subnodes(n.y)
      ensures Ready(m, s) && Eval(m, s1) == Eval(m, s)
    {
      SubnodeFacts(m, n, Dims(s));
      EvalLeaves(m, s, s1);
    }
  }

  /** After `forward` on x and then on y, x's graph holds its denotation:
      y's forward writes only buffers of nodes that y shares with x, and
      recomputes those to the same values. */
  lemma {:induction false} LeftComputed(n: Node, s: Store, overwrite: bool)
    requires Ready(n, s) && Owned(n) && !n.Leaf? && (overwrite || (Elementwise(n.x) && Elementwise(n.y)))
    ensures forall m :: m in Subnodes(n.x) ==>
      Ready(m, s) && Forward(n.y, Forward(n.x, s, overwrite), overwrite)[m.Out()].value == Eval(m, s)
    decreases n, 1
  {
    var s1 := Forward(n.x, s, overwrite);
    OwnedChildren(n);
    ForwardComputes(n.x, s, overwrite);
    RightComputed(n, s, overwrite);
    ForwardFrame(n.y, s1, overwrite);
    var s2 := Forward(n.y, s1, overwrite);
    forall m | m in Subnodes(n.x)
      ensures Ready(m, s) && s2[m.Out()].value == Eval(m, s)
    {
      if m !in Subnodes(n.y) {
        if m.Out() in OpOuts(n.y) {
          OpOutsAreOps(n.y, m.Out());
          assert false;
        }
        assert s2[m.Out()] == s1[m.Out()];
      }
    }
  }

  /** The node's own step computes its expression from its children's
      output values; MatMul as written adds it into the output value it
      finds, and with `overwrite` stores it. */
  lemma CombineEval(n: Node, s: Store, s2: Store, overwrite: bool := false)
    requires !n.Leaf? && Ready(n, s) && StoreValid(s2) && Dims(s2) == Dims(s)
    requires Ready(n.x, s) && Ready(n.y, s)
    requires s2[n.x.Out()].value == Eval(n.x, s) && s2[n.y.Out()].value == Eval(n.y, s)
    ensures (n.MatmulNode? && !overwrite) ==> Combine(n, s2, overwrite)[n.z].value == ElemAdd(s2[n.z].value, Eval(n, s))
    ensures (!n.MatmulNode? || overwrite) ==> Combine(n, s2, overwrite)[n.z].value == Eval(n, s)
  {
  }

  /** The node's own step writes no buffer of its children's graphs. */
  lemma CombineKeeps(n: Node, s2: Store, overwrite: bool)
    requires !n.Leaf? && Ready(n, s2) && Owned(n)
    ensures forall m :: m in Subnodes(n) && m != n ==> m.Out() < |s2| && Combine(n, s2, overwrite)[m.Out()] == s2[m.Out()]
  {
    RootNotBelow(n);
    forall m | m in Subnodes(n) && m != n
      ensures m.Out() != n.z && m.Out() < |s2|
    {
      SubnodeOut(m, if m in Subnodes(n.x) then n.x else n.y);
      SubnodeFacts(m, n, Dims(s2));
    }
  }

  /** On a singly-owned graph of sums and elementwise products, `forward`
      leaves in every node's output buffer the value of that node's
      expression over the leaves' values; the corrected `forward`
      (`overwrite`) does so on every singly-owned graph, matrix products
      and shared nodes included. */
  lemma {:induction false} ForwardComputes(n: Node, s: Store, overwrite: bool := false)
    requires Ready(n, s) && Owned(n) && (overwrite || Elementwise(n))
    ensures forall m :: m in Subnodes(n) ==> Ready(m, s) && Forward(n, s, overwrite)[m.Out()].value == Eval(m, s)
    decreases n, 2
  {
    if !n.Leaf? {
      var s2 := Forward(n.y, Forward(n.x, s, overwrite), overwrite);
      assert Forward(n, s, overwrite) == Combine(n, s2, overwrite);
      LeftComputed(n, s, overwrite);
      RightComputed(n, s, overwrite);
      assert n.x in Subnodes(n.x) && n.y in Subnodes(n.y);
      CombineKeeps(n, s2, overwrite);
      CombineEval(n, s, s2, overwrite);
    }
  }

  /** `forward` writes no leaf, so every node's denotation is the same
      before and after it. */
  lemma ForwardKeepsEval(n: Node, s: Store, m: Node, overwrite: bool := false)
    requires Ready(n, s) && Owned(n) && m in Subnodes(n)
    ensures Ready(m, s) && Eval(m, Forward(n, s, overwrite)) == Eval(m, s)
  {
    SubnodeFacts(m, n, Dims(s));
    ForwardFrame(n, s, overwrite);
    forall t | t in LeafOuts(m) && t < |s|
      ensures Forward(n, s, overwrite)[t].value == s[t].value
    {
      LeafNotOp(n, t);
    }
    EvalLeaves(m, s, Forward(n, s, overwrite));
  }

  /** A second `forward` leaves buffer `h` as the first one left it. */
  lemma ForwardAgainAt(n: Node, s: Store, h: Handle, overwrite: bool)
    requires Ready(n, s) && Owned(n) && (overwrite || Elementwise(n)) && h < |s|
    ensures Forward(n, Forward(n, s, overwrite), overwrite)[h] == Forward(n, s, overwrite)[h]
  {
    var r1 := Forward(n, s, overwrite);
    ForwardFrame(n, r1, overwrite);
    if h in OpOuts(n) {
      OpOutsAreOps(n, h);
      var m :| m in Subnodes(n) && !m.Leaf? && m.Out() == h;
      ForwardKeepsEval(n, s, m, overwrite);
      ForwardComputes(n, s, overwrite);
      ForwardComputes(n, r1, overwrite);
      assert Forward(n, r1, overwrite)[h].value == r1[h].value;
    }
  }

  /** With unchanged leaves a second `forward` on such a graph changes
      nothing: forward recomputes, and recomputing gives the same values.
      The corrected `forward` is idempotent on every singly-owned graph. */
  lemma ForwardIdempotent(n: Node, s: Store, overwrite: bool := false)
    requires Ready(n, s) && Owned(n) && (overwrite || Elementwise(n))
    ensures Forward(n, Forward(n, s, overwrite), overwrite) == Forward(n, s, overwrite)
  {
    forall h | 0 <= h < |s|
      ensures Forward(n, Forward(n, s, overwrite), overwrite)[h] == Forward(n, s, overwrite)[h]
    {
      ForwardAgainAt(n, s, h, overwrite);
    }
  }

  /** MatMul's `forward` adds x * y (the node's denotation) into the
      output value it finds there: from a zero output one call gives
      exactly the product. */
  lemma MatmulForward(n: Node, s: Store)
    requires n.MatmulNode? && Ready(n, s) && Owned(n) && Elementwise(n.x) && Elementwise(n.y)
    ensures Forward(n, s)[n.z].value == ElemAdd(s[n.z].value, Eval(n, s))
    ensures (forall i :: 0 <= i < |s[n.z].value| ==> s[n.z].value[i] == 0) ==> Forward(n, s)[n.z].value == Eval(n, s)
  {
    var s1 := Forward(n.x, s);
    var s2 := Forward(n.y, s1);
    assert Forward(n, s) == Combine(n, s2);
    LeftComputed(n, s, false);
    RightComputed(n, s, false);
    assert n.x in Subnodes(n.x) && n.y in Subnodes(n.y);
    assert s2[n.x.Out()].value == Eval(n.x, s) && s2[n.y.Out()].value == Eval(n.y, s);
    CombineEval(n, s, s2);
    ForwardFrame(n.x, s);
    ForwardFrame(n.y, s1);
    RootNotBelow(n);
    assert s2[n.z] == s[n.z];
    if forall i :: 0 <= i < |s[n.z].value| ==> s[n.z].value[i] == 0 {
      ElemAddZero(s[n.z].value, Eval(n, s));
    }
  }

  /** Two `forward` calls on a MatMul node over unchanged inputs add the
      product twice: the asymmetry with Add and Product. */
  lemma MatmulForwardTwice(n: Node, s: Store)
    requires n.MatmulNode? && Ready(n, s) && Owned(n) && Elementwise(n.x) && Elementwise(n.y)
    ensures |Forward(n, Forward(n, s))[n.z].value| == |Eval(n, s)|
    ensures forall i :: 0 <= i < |Eval(n, s)| ==>
      Forward(n, Forward(n, s))[n.z].value[i] == s[n.z].value[i] + 2 * Eval(n, s)[i]
  {
    var r1 := Forward(n, s);
    MatmulForward(n, s);
    MatmulForward(n, r1);
    ForwardFrame(n, s);
    forall t | t in LeafOuts(n) && t < |s|
      ensures r1[t].value == s[t].value
    {
      LeafNotOp(n, t);
    }
    EvalLeaves(n, s, r1);
  }

  // ---------------------------------------------------------------------
  // Backward

  lemma BelowInside(c: Node)
    ensures c.Out() in LeafOuts(c) + OpOuts(c)
    ensures Below(c) <= LeafOuts(c) + OpOuts(c)
  {
  }

  /** `backward` changes only gradients of buffers below the node; values
      never change. On a singly-owned operation node its own gradient is
      left as it was. */
  lemma {:induction false} BackwardFrame(n: Node, s: Store)
    requires Ready(n, s)
    ensures forall h :: 0 <= h < |s| && h !in Below(n) ==> Backward(n, s)[h] == s[h]
    ensures Owned(n) && !n.Leaf? ==> Backward(n, s)[n.z] == s[n.z]
  {
    if !n.Leaf? {
      var s2 := Contribute(n, s);
      var b := Backward(n.x, s2);
      BackwardFrame(n.x, s2);
      BackwardFrame(n.y, b);
      BelowInside(n.x);
      BelowInside(n.y);
      forall h | 0 <= h < |s| && h !in Below(n)
        ensures Backward(n, s)[h] == s[h]
      {
        assert h != n.x.Out() && h != n.y.Out() && h !in Below(n.x) && h !in Below(n.y);
        assert Backward(n, s)[h] == b[h] == s2[h];
      }
      if Owned(n) {
        RootNotBelow(n);
      }
    }
  }

  /** Add over two leaves: each leaf's gradient gains the output gradient
      once per edge, so an aliased leaf gains it twice. */
  lemma AddBackwardLeaves(a: Handle, b: Handle, z: Handle, s: Store)
    requires Ready(AddNode(Leaf(a), Leaf(b), z), s) && z != a && z != b
    ensures var r := Backward(AddNode(Leaf(a), Leaf(b), z), s);
            var g := s[z].grad;
            |r[a].grad| == |g| && |r[b].grad| == |g| &&
            (forall i :: 0 <= i < |g| ==> r[a].grad[i] == s[a].grad[i] + (if a == b then 2 else 1) * g[i]) &&
            (forall i :: 0 <= i < |g| ==> r[b].grad[i] == s[b].grad[i] + (if a == b then 2 else 1) * g[i]) &&
            r[z] == s[z]
  {
  }

  /** Product over two leaves: x's gradient gains the output gradient times
      y's value and y's gains it times x's value; an aliased leaf gains
      both. Values are read, never gradients. */
  lemma ProductBackwardLeaves(a: Handle, b: Handle, z: Handle, s: Store)
    requires Ready(ProductNode(Leaf(a), Leaf(b), z), s) && z != a && z != b
    ensures var r := Backward(ProductNode(Leaf(a), Leaf(b), z), s);
            var ga, gb := ElemMul(s[z].grad, s[b].value), ElemMul(s[z].grad, s[a].value);
            |ga| == |s[a].grad| && |gb| == |s[b].grad| &&
            (a != b ==> r[a].grad == ElemAdd(s[a].grad, ga) && r[b].grad == ElemAdd(s[b].grad, gb)) &&
            (a == b ==> r[a].grad == ElemAdd(ElemAdd(s[a].grad, ga), gb)) &&
            r[z] == s[z]
  {
    var n := ProductNode(Leaf(a), Leaf(b), z);
    var s1 := AccumGrad(s, a, ElemMul(s[z].grad, s[b].value));
    assert s1[z] == s[z] && s1[a].value == s[a].value;
    assert Backward(n, s) == Contribute(n, s);
  }

  /** MatMul over two leaves x [m,k] and y [k,n] with output gradient dz
      [m,n]: x's gradient gains dz * y^T and y's gains x^T * dz. */
  lemma MatmulBackwardLeaves(a: Handle, b: Handle, z: Handle, s: Store)
    requires Ready(MatmulNode(Leaf(a), Leaf(b), z), s) && z != a && z != b
    ensures var r := Backward(MatmulNode(Leaf(a), Leaf(b), z), s);
            var gx := LeftGrad(s[z].grad, s[z].dim, s[b].value, s[b].dim);
            var gy := RightGrad(s[a].value, s[a].dim, s[z].grad, s[z].dim);
            |gx| == |s[a].grad| && |gy| == |s[b].grad| &&
            (a != b ==> r[a].grad == ElemAdd(s[a].grad, gx) && r[b].grad == ElemAdd(s[b].grad, gy)) &&
            (a == b ==> r[a].grad == ElemAdd(ElemAdd(s[a].grad, gx), gy)) &&
            r[z] == s[z]
  {
    var n := MatmulNode(Leaf(a), Leaf(b), z);
    assert Backward(n, s) == Contribute(n, s);
    var dx, dy, dz := s[a].dim, s[b].dim, s[z].dim;
    assert [dz[0], dy[0]] == dx && [dx[1], dz[1]] == dy;
  }

  // ---------------------------------------------------------------------
  // Backward that passes each path's own contribution

  /** The gradient a node passes to x for an incoming gradient `dz`. */
  function DeltaX(n: Node, s: Store, dz: seq<int>): (g: seq<int>)
    requires Ready(n, s) && !n.Leaf? && |dz| == Size(s[n.z].dim)
    ensures |g| == Size(s[n.x.Out()].dim)
  {
    var xo, yo := n.x.Out(), n.y.Out();
    if n.AddNode? then dz
    else if n.ProductNode? then ElemMul(dz, s[yo].value)
    else
      assert [s[n.z].dim[0], s[yo].dim[0]] == s[xo].dim;
      LeftGrad(dz, s[n.z].dim, s[yo].value, s[yo].dim)
  }

  /** The gradient a node passes to y for an incoming gradient `dz`. */
  function DeltaY(n: Node, s: Store, dz: seq<int>): (g: seq<int>)
    requires Ready(n, s) && !n.Leaf? && |dz| == Size(s[n.z].dim)
    ensures |g| == Size(s[n.y.Out()].dim)
  {
    var xo, yo := n.x.Out(), n.y.Out();
    if n.AddNode? then dz
    else if n.ProductNode? then ElemMul(dz, s[xo].value)
    else
      assert [s[xo].dim[1], s[n.z].dim[1]] == s[yo].dim;
      RightGrad(s[xo].value, s[xo].dim, dz, s[n.z].dim)
  }

  /** A node's own step in the corrected pass: the two contributions for
      the incoming gradient `dz` added into x's and y's gradients. */
  function Spread(n: Node, s: Store, dz: seq<int>): (r: Store)
    requires Ready(n, s) && !n.Leaf? && |dz| == Size(s[n.z].dim)
    ensures |r| == |s| && Dims(r) == Dims(s) && StoreValid(r)
    ensures Ready(n.x, r) && Ready(n.y, r)
    ensures forall h :: 0 <= h < |s| ==> r[h].value == s[h].value
    ensures forall h :: 0 <= h < |s| && h != n.x.Out() && h != n.y.Out() ==> r[h] == s[h]
  {
    AccumGrad(AccumGrad(s, n.x.Out(), DeltaX(n, s, dz)), n.y.Out(), DeltaY(n, s, dz))
  }

  /** Backward as the chain rule means it: given the gradient `dz` that
      reaches `n` along one path, add the local contributions into x's and
      y's gradients and pass exactly those contributions on. Unlike
      `Backward`, a node never re-sends what reached it along other paths. */
  function BackwardFrom(n: Node, s: Store, dz: seq<int>): (r: Store)
    requires Ready(n, s) && |dz| == Size(s[n.Out()].dim)
    ensures |r| == |s| && Dims(r) == Dims(s) && StoreValid(r)
    ensures forall h :: 0 <= h < |s| ==> r[h].value == s[h].value
  {
    if n.Leaf? then s
    else
      var gx, gy := DeltaX(n, s, dz), DeltaY(n, s, dz);
      var s1 := Spread(n, s, dz);
      BackwardFrom(n.y, BackwardFrom(n.x, s1, gx), gy)
  }

  /** Two stores agree on everything but gradients. */
  predicate SameValues(s: Store, s': Store)
  {
    |s| == |s'| && forall h :: 0 <= h < |s| ==> s[h].value == s'[h].value && s[h].dim == s'[h].dim
  }

  /** `r` adds to the gradients of `s` what `r'` adds to those of `s'`. */
  predicate SameShift(s: Store, r: Store, s': Store, r': Store)
  {
    |r| == |s| && |s'| == |s| && |r'| == |s| &&
    (forall h :: 0 <= h < |s| ==>
      |r[h].grad| == |s[h].grad| && |s'[h].grad| == |s[h].grad| && |r'[h].grad| == |s[h].grad|) &&
    forall h, i :: 0 <= h < |s| && 0 <= i < |s[h].grad| ==>
      r[h].grad[i] - s[h].grad[i] == r'[h].grad[i] - s'[h].grad[i]
  }

  lemma ShiftCompose(s: Store, b: Store, c: Store, s': Store, b': Store, c': Store)
    requires SameShift(s, b, s', b') && SameShift(b, c, b', c')
    ensures SameShift(s, c, s', c')
  {
    forall h, i | 0 <= h < |s| && 0 <= i < |s[h].grad|
      ensures c[h].grad[i] - s[h].grad[i] == c'[h].grad[i] - s'[h].grad[i]
    {
      assert b[h].grad[i] - s[h].grad[i] == b'[h].grad[i] - s'[h].grad[i];
      assert c[h].grad[i] - b[h].grad[i] == c'[h].grad[i] - b'[h].grad[i];
    }
  }

  /** Adding the same two arrays into two stores shifts them alike. */
  lemma AccumShift(s: Store, s': Store, xo: Handle, yo: Handle, gx: seq<int>, gy: seq<int>)
    requires StoreValid(s) && StoreValid(s') && Dims(s') == Dims(s) && SameValues(s, s')
    requires xo < |s| && yo < |s| && |gx| == Size(s[xo].dim) && |gy| == Size(s[yo].dim)
    ensures var s1, s1' := AccumGrad(AccumGrad(s, xo, gx), yo, gy), AccumGrad(AccumGrad(s', xo, gx), yo, gy);
      SameShift(s, s1, s', s1') && SameValues(s1, s1')
  {
    assert Dims(s')[xo] == Dims(s)[xo] && Dims(s')[yo] == Dims(s)[yo];
    forall h | 0 <= h < |s| ensures |s'[h].grad| == |s[h].grad| {
      assert Dims(s')[h] == Dims(s)[h];
    }
  }

  /** The contributions a node passes on read values and shapes only. */
  lemma DeltaSame(n: Node, s: Store, s': Store, dz: seq<int>)
    requires Ready(n, s) && !n.Leaf? && |dz| == Size(s[n.z].dim)
    requires StoreValid(s') && Dims(s') == Dims(s) && SameValues(s, s')
    ensures Ready(n, s')
    ensures DeltaX(n, s', dz) == DeltaX(n, s, dz) && DeltaY(n, s', dz) == DeltaY(n, s, dz)
  {
    assert s'[n.x.Out()].value == s[n.x.Out()].value && s'[n.y.Out()].value == s[n.y.Out()].value;
    assert s'[n.x.Out()].dim == s[n.x.Out()].dim && s'[n.y.Out()].dim == s[n.y.Out()].dim;
    assert s'[n.z].dim == s[n.z].dim;
  }

  /** A node's own step shifts two stores that agree on values alike. */
  lemma SpreadShift(n: Node, s: Store, s': Store, dz: seq<int>)
    requires Ready(n, s) && !n.Leaf? && |dz| == Size(s[n.z].dim)
    requires StoreValid(s') && Dims(s') == Dims(s) && SameValues(s, s')
    ensures Ready(n, s') && SameShift(s, Spread(n, s, dz), s', Spread(n, s', dz))
    ensures SameValues(Spread(n, s, dz), Spread(n, s', dz))
  {
    DeltaSame(n, s, s', dz);
    AccumShift(s, s', n.x.Out(), n.y.Out(), DeltaX(n, s, dz), DeltaY(n, s, dz));
  }

  /** Stores that keep the values of two stores agreeing on values agree
      on values. */
  lemma ValuesBridge(s: Store, b: Store, s': Store, b': Store)
    requires SameValues(s, s') && |b| == |s| && |b'| == |s|
    requires Dims(b) == Dims(s) && Dims(b') == Dims(s')
    requires forall h :: 0 <= h < |s| ==> b[h].value == s[h].value
    requires forall h :: 0 <= h < |s'| ==> b'[h].value == s'[h].value
    ensures SameValues(b, b')
  {
    forall h | 0 <= h < |s|
      ensures b[h].value == b'[h].value && b[h].dim == b'[h].dim
    {
      assert Dims(b)[h] == Dims(s)[h] && Dims(b')[h] == Dims(s')[h];
    }
  }

  /** What `BackwardFrom` adds to each gradient depends on values and the
      incoming gradient only, never on the gradients already present. */
  lemma {:induction false} BackwardFromShift(n: Node, s: Store, s': Store, dz: seq<int>)
    requires Ready(n, s) && StoreValid(s') && Dims(s') == Dims(s) && SameValues(s, s')
    requires |dz| == Size(s[n.Out()].dim)
    ensures Ready(n, s') && SameShift(s, BackwardFrom(n, s, dz), s', BackwardFrom(n, s', dz))
  {
    if n.Leaf? {
      forall h | 0 <= h < |s| ensures |s'[h].grad| == |s[h].grad| {
        assert Dims(s')[h] == Dims(s)[h];
      }
    } else {
      var gx, gy := DeltaX(n, s, dz), DeltaY(n, s, dz);
      var s1, s1' := Spread(n, s, dz), Spread(n, s', dz);
      DeltaSame(n, s, s', dz);
      SpreadShift(n, s, s', dz);
      BackwardFromShift(n.x, s1, s1', gx);
      var b, b' := BackwardFrom(n.x, s1, gx), BackwardFrom(n.x, s1', gx);
      ValuesBridge(s1, b, s1', b');
      BackwardFromShift(n.y, b, b', gy);
      var c, c' := BackwardFrom(n.y, b, gy), BackwardFrom(n.y, b', gy);
      assert BackwardFrom(n, s, dz) == c && BackwardFrom(n, s', dz) == c';
      ShiftCompose(s, s1, b, s', s1', b');
      ShiftCompose(s, b, c, s', b', c');
    }
  }

  /** `BackwardFrom` changes only gradients of buffers below the node. */
  lemma {:induction false} BackwardFromFrame(n: Node, s: Store, dz: seq<int>)
    requires Ready(n, s) && |dz| == Size(s[n.Out()].dim)
    ensures forall h :: 0 <= h < |s| && h !in Below(n) ==> BackwardFrom(n, s, dz)[h] == s[h]
  {
    if !n.Leaf? {
      var gx, gy := DeltaX(n, s, dz), DeltaY(n, s, dz);
      var s1 := Spread(n, s, dz);
      var b := BackwardFrom(n.x, s1, gx);
      BackwardFromFrame(n.x, s1, gx);
      BackwardFromFrame(n.y, b, gy);
      BelowInside(n.x);
      BelowInside(n.y);
      forall h | 0 <= h < |s| && h !in Below(n)
        ensures BackwardFrom(n, s, dz)[h] == s[h]
      {
        assert h != n.x.Out() && h != n.y.Out() && h !in Below(n.x) && h !in Below(n.y);
        assert BackwardFrom(n, s, dz)[h] == b[h] == s1[h];
      }
    }
  }

  /** Seeded from its own gradient on a singly-owned graph of any depth and
      sharing, a second pass without `zero_grad` adds to every gradient
      exactly what the first pass added: two passes double the first
      pass's contributions. */
  lemma BackwardFromTwice(n: Node, s: Store)
    requires Ready(n, s) && Owned(n)
    ensures var r1 := BackwardFrom(n, s, s[n.Out()].grad);
            var r2 := BackwardFrom(n, r1, r1[n.Out()].grad);
            forall h, i :: 0 <= h < |s| && 0 <= i < |s[h].grad| ==>
              r2[h].grad[i] - r1[h].grad[i] == r1[h].grad[i] - s[h].grad[i]
  {
    var r1 := BackwardFrom(n, s, s[n.Out()].grad);
    BackwardFromFrame(n, s, s[n.Out()].grad);
    if !n.Leaf? {
      RootNotBelow(n);
    }
    assert r1[n.Out()].grad == s[n.Out()].grad;
    BackwardFromShift(n, r1, s, s[n.Out()].grad);
    var r2 := BackwardFrom(n, r1, r1[n.Out()].grad);
    assert SameShift(r1, r2, s, r1);
  }

  /** The sum rule, element by element. */
  lemma SumRule(dz: seq<int>, dx: seq<int>, dy: seq<int>)
    requires |dx| == |dz| && |dy| == |dz|
    ensures ElemAdd(ElemMul(dz, dx), ElemMul(dz, dy)) == ElemMul(dz, ElemAdd(dx, dy))
  {
    var lhs, rhs := ElemAdd(ElemMul(dz, dx), ElemMul(dz, dy)), ElemMul(dz, ElemAdd(dx, dy));
    forall i | 0 <= i < |dz|
      ensures lhs[i] == rhs[i]
    {
      assert dz[i] * (dx[i] + dy[i]) == dz[i] * dx[i] + dz[i] * dy[i];
    }
  }

  lemma ScalarProductRule(dz: int, ex: int, ey: int, dx: int, dy: int, u: int, v: int, w: int)
    requires u == (dz * ey) * dx && v == (dz * ex) * dy && w == dx * ey + ex * dy
    ensures u + v == dz * w
  {
    assert dz * w == dz * (dx * ey) + dz * (ex * dy);
  }

  /** The product rule, element by element: the gradients a product passes
      on (dz times the other factor) times the factors' derivatives. */
  lemma ProductRule(dz: seq<int>, ex: seq<int>, ey: seq<int>, dx: seq<int>, dy: seq<int>)
    requires |ex| == |dz| && |ey| == |dz| && |dx| == |dz| && |dy| == |dz|
    ensures ElemAdd(ElemMul(ElemMul(dz, ey), dx), ElemMul(ElemMul(dz, ex), dy))
         == ElemMul(dz, ElemAdd(ElemMul(dx, ey), ElemMul(ex, dy)))
  {
    var gx, gy := ElemMul(dz, ey), ElemMul(dz, ex);
    var u, v := ElemMul(gx, dx), ElemMul(gy, dy);
    var w := ElemAdd(ElemMul(dx, ey), ElemMul(ex, dy));
    var lhs, rhs := ElemAdd(u, v), ElemMul(dz, w);
    forall i | 0 <= i < |dz|
      ensures lhs[i] == rhs[i]
    {
      ScalarProductRule(dz[i], ex[i], ey[i], dx[i], dy[i], u[i], v[i], w[i]);
    }
  }

  /** The local chain rule: what a sum or a product passes to its two
      children, each times the child's derivative, adds up to the incoming
      gradient times the node's own derivative. */
  lemma LocalChainRule(n: Node, s: Store, s0: Store, dz: seq<int>, t: Handle, i: nat)
    requires Ready(n, s) && Elementwise(n) && !n.Leaf? && |dz| == Size(s[n.z].dim) && i < |dz|
    requires Ready(n, s0) && Dims(s0) == Dims(s)
    requires s[n.x.Out()].value == Eval(n.x, s0) && s[n.y.Out()].value == Eval(n.y, s0)
    ensures ElemAdd(ElemMul(DeltaX(n, s, dz), Deriv(n.x, s0, t)), ElemMul(DeltaY(n, s, dz), Deriv(n.y, s0, t)))
         == ElemMul(dz, Deriv(n, s0, t))
    ensures ElemMul(DeltaX(n, s, dz), Deriv(n.x, s0, t))[i] + ElemMul(DeltaY(n, s, dz), Deriv(n.y, s0, t))[i]
         == ElemMul(dz, Deriv(n, s0, t))[i]
  {
    var dx, dy := Deriv(n.x, s0, t), Deriv(n.y, s0, t);
    if n.AddNode? {
      SumRule(dz, dx, dy);
    } else {
      ProductRule(dz, Eval(n.x, s0), Eval(n.y, s0), dx, dy);
    }
  }

  /** What adding `g` into buffer `h` adds to buffer `t`. */
  function Share(h: Handle, g: seq<int>, t: Handle): (r: seq<int>)
    ensures |r| == |g|
    ensures h != t ==> forall i :: 0 <= i < |g| ==> r[i] == 0
  {
    if h == t then g else Fill(|g|, 0)
  }

  lemma AccumTwice(s: Store, xo: Handle, gx: seq<int>, yo: Handle, gy: seq<int>, t: Handle)
    requires StoreValid(s) && xo < |s| && yo < |s| && t < |s|
    requires |gx| == Size(s[xo].dim) && |gy| == Size(s[yo].dim)
    requires |gx| == |s[t].grad| && |gy| == |s[t].grad|
    ensures |AccumGrad(AccumGrad(s, xo, gx), yo, gy)[t].grad| == |gx|
    ensures forall i :: 0 <= i < |gx| ==>
      AccumGrad(AccumGrad(s, xo, gx), yo, gy)[t].grad[i]
        == s[t].grad[i] + Share(xo, gx, t)[i] + Share(yo, gy, t)[i]
  {
    var s1 := AccumGrad(s, xo, gx);
    assert forall i :: 0 <= i < |gx| ==> s1[t].grad[i] == s[t].grad[i] + Share(xo, gx, t)[i];
  }

  /** A leaf passes on `g` times its derivative: all of g if it is `t`. */
  lemma LeafShare(c: Node, s0: Store, g: seq<int>, t: Handle)
    requires Ready(c, s0) && c.Leaf? && |g| == Size(s0[c.t].dim)
    ensures forall i :: 0 <= i < |g| ==> ElemMul(g, Deriv(c, s0, t))[i] == Share(c.t, g, t)[i]
  {
  }

  /** Every node of n's graph holds in `s` its value over the leaves of
      `s0`, as `forward` leaves them (see ForwardComputes). */
  predicate Computed(n: Node, s: Store, s0: Store)
  {
    Ready(n, s) && Ready(n, s0) && Dims(s0) == Dims(s)
    && forall m :: m in Subnodes(n) ==> Ready(m, s0) && s[m.Out()].value == Eval(m, s0)
  }

  /** Computed passes to the children, and to any store with the same
      values and shapes. */
  lemma ComputedChildren(n: Node, s: Store, s0: Store, r: Store)
    requires !n.Leaf? && Computed(n, s, s0)
    requires |r| == |s| && Dims(r) == Dims(s) && StoreValid(r)
    requires forall h :: 0 <= h < |s| ==> r[h].value == s[h].value
    ensures Computed(n.x, r, s0) && Computed(n.y, r, s0)
    ensures r[n.x.Out()].value == Eval(n.x, s0) && r[n.y.Out()].value == Eval(n.y, s0)
  {
    assert n.x in Subnodes(n) && n.y in Subnodes(n);
    assert Subnodes(n.x) <= Subnodes(n) && Subnodes(n.y) <= Subnodes(n);
  }

  /** What the pass through a child `c` adds to element i of buffer `t`,
      together with that child's share of the spread, is g times c's
      derivative there: through a leaf the share is all of it, through an
      operation its own pass. */
  lemma ChildPass(c: Node, r: Store, s0: Store, g: seq<int>, t: Handle, i: nat)
    requires Elementwise(c) && Computed(c, r, s0) && |g| == Size(r[c.Out()].dim)
    requires t < |r| && t !in OpOuts(c) && r[t].dim == r[c.Out()].dim && i < |g|
    ensures |r[t].grad| == |g|
    ensures BackwardFrom(c, r, g)[t].grad[i] + Share(c.Out(), g, t)[i] == r[t].grad[i] + ElemMul(g, Deriv(c, s0, t))[i]
    decreases c, 2
  {
    if c.Leaf? {
      LeafShare(c, s0, g, t);
    } else {
      BackwardFromDerivative(c, r, s0, g, t, i);
    }
  }

  /** The first half of the corrected pass (the spread, then x's pass)
      adds to element i of `t` y's share of the spread and dz's part
      through x times x's derivative. */
  lemma PassX(n: Node, s: Store, s0: Store, dz: seq<int>, t: Handle, i: nat)
    requires Elementwise(n) && !n.Leaf? && Computed(n, s, s0) && |dz| == Size(s[n.z].dim)
    requires t < |s| && t !in OpOuts(n) && s[t].dim == s[n.z].dim && i < |dz|
    ensures var gx, gy := DeltaX(n, s, dz), DeltaY(n, s, dz);
      var b := BackwardFrom(n.x, Spread(n, s, dz), gx);
      && |b[t].grad| == |dz| && |s[t].grad| == |dz|
      && b[t].grad[i] == s[t].grad[i] + Share(n.y.Out(), gy, t)[i] + ElemMul(gx, Deriv(n.x, s0, t))[i]
    decreases n, 0
  {
    var gx, gy := DeltaX(n, s, dz), DeltaY(n, s, dz);
    var s1 := Spread(n, s, dz);
    assert s1 == AccumGrad(AccumGrad(s, n.x.Out(), gx), n.y.Out(), gy);
    AccumTwice(s, n.x.Out(), gx, n.y.Out(), gy, t);
    ComputedChildren(n, s, s0, s1);
    assert OpOuts(n.x) <= OpOuts(n);
    ChildPass(n.x, s1, s0, gx, t, i);
  }

  /** The second half (y's pass, from any store `b` with the values and
      shapes of `s`) adds to element i of `t` dz's part through y times
      y's derivative, less y's share already spread. */
  lemma PassY(n: Node, s: Store, b: Store, s0: Store, dz: seq<int>, t: Handle, i: nat)
    requires Elementwise(n) && !n.Leaf? && Computed(n, s, s0) && |dz| == Size(s[n.z].dim)
    requires t < |s| && t !in OpOuts(n) && s[t].dim == s[n.z].dim && i < |dz|
    requires |b| == |s| && Dims(b) == Dims(s) && StoreValid(b)
    requires forall h :: 0 <= h < |s| ==> b[h].value == s[h].value
    ensures var gy := DeltaY(n, s, dz);
      && |b[t].grad| == |dz| && |BackwardFrom(n.y, b, gy)[t].grad| == |dz|
      && BackwardFrom(n.y, b, gy)[t].grad[i] + Share(n.y.Out(), gy, t)[i] == b[t].grad[i] + ElemMul(gy, Deriv(n.y, s0, t))[i]
    decreases n, 0
  {
    ComputedChildren(n, s, s0, b);
    assert OpOuts(n.y) <= OpOuts(n);
    ChildPass(n.y, b, s0, DeltaY(n, s, dz), t, i);
  }

  /** The chain rule for the corrected pass: on a graph of sums and
      elementwise products whose buffers hold their nodes' values over the
      leaves of `s0` (as `forward` leaves them), the pass from an incoming
      gradient `dz` adds to element i of the gradient of every buffer `t`
      that no operation of the graph owns exactly dz[i] times the
      derivative of the node with respect to `t` at i (zero for a buffer
      the graph does not use). */
  lemma {:induction false} BackwardFromDerivative(n: Node, s: Store, s0: Store, dz: seq<int>, t: Handle, i: nat)
    requires Elementwise(n) && !n.Leaf? && Computed(n, s, s0) && |dz| == Size(s[n.z].dim)
    requires t < |s| && t !in OpOuts(n) && s[t].dim == s[n.z].dim && i < |dz|
    ensures |BackwardFrom(n, s, dz)[t].grad| == |dz| && |s[t].grad| == |dz|
    ensures BackwardFrom(n, s, dz)[t].grad[i] == s[t].grad[i] + ElemMul(dz, Deriv(n, s0, t))[i]
    decreases n, 1
  {
    var gx, gy := DeltaX(n, s, dz), DeltaY(n, s, dz);
    var b := BackwardFrom(n.x, Spread(n, s, dz), gx);
    assert BackwardFrom(n, s, dz) == BackwardFrom(n.y, b, gy);
    PassX(n, s, s0, dz, t, i);
    PassY(n, s, b, s0, dz, t, i);
    ComputedChildren(n, s, s0, s);
    LocalChainRule(n, s, s0, dz, t, i);
  }

  /** What the chain rule means for the engine: after `forward`, the
      corrected pass from a seed of ones adds to element i of every buffer
      that no operation owns the derivative of the root there. */
  lemma ForwardBackwardDerivative(n: Node, s: Store, t: Handle, i: nat)
    requires Ready(n, s) && Owned(n) && Elementwise(n) && !n.Leaf?
    requires t < |s| && t !in OpOuts(n) && s[t].dim == s[n.z].dim && i < Size(s[n.z].dim)
    ensures var f := Forward(n, s);
      BackwardFrom(n, f, Fill(Size(s[n.z].dim), 1))[t].grad[i] == s[t].grad[i] + Deriv(n, s, t)[i]
  {
    var f, one := Forward(n, s), Fill(Size(s[n.z].dim), 1);
    ForwardComputes(n, s);
    assert Ready(n, f) && f[t] == s[t].(value := f[t].value) && f[n.z].dim == s[n.z].dim;
    assert Computed(n, f, s);
    BackwardFromDerivative(n, f, s, one, t, i);
    assert ElemMul(one, Deriv(n, s, t))[i] == Deriv(n, s, t)[i];
  }

  /** Where the source is right, the correction changes nothing: on a
      singly-owned node whose children are leaves, `backward` and
      `BackwardFrom` seeded with the node's gradient give the same store. */
  lemma OneLevelAgrees(n: Node, s: Store)
    requires Ready(n, s) && !n.Leaf? && n.x.Leaf? && n.y.Leaf? && Owned(n)
    ensures Backward(n, s) == BackwardFrom(n, s, s[n.z].grad)
  {
    RootNotBelow(n);
    var gx, gy := DeltaX(n, s, s[n.z].grad), DeltaY(n, s, s[n.z].grad);
    var r := AccumGrad(AccumGrad(s, n.x.Out(), gx), n.y.Out(), gy);
    assert BackwardFrom(n, s, s[n.z].grad) == r;
    assert Backward(n, s) == Contribute(n, s);
  }

  /** The code's own step of `backward`, for children of any kind: x's
      gradient gains `DeltaX` of the node's gradient and y's gains `DeltaY`
      (a buffer that is both children gains both), exactly the corrected
      pass's step. The code reads the node's gradient after adding into
      x's, so this needs the node's buffer to be neither child's. */
  lemma ContributeGains(n: Node, s: Store)
    requires Ready(n, s) && !n.Leaf? && n.z != n.x.Out() && n.z != n.y.Out()
    ensures Contribute(n, s) == Spread(n, s, s[n.z].grad)
    ensures var r, xo, yo := Contribute(n, s), n.x.Out(), n.y.Out();
      var gx, gy := DeltaX(n, s, s[n.z].grad), DeltaY(n, s, s[n.z].grad);
      |gx| == |s[xo].grad| && |gy| == |s[yo].grad| &&
      (xo != yo ==> r[xo].grad == ElemAdd(s[xo].grad, gx) && r[yo].grad == ElemAdd(s[yo].grad, gy)) &&
      (xo == yo ==> r[xo].grad == ElemAdd(ElemAdd(s[xo].grad, gx), gy))
  {
    var xo, yo, z := n.x.Out(), n.y.Out(), n.z;
    if !n.MatmulNode? {
      var s1 := AccumGrad(s, xo, DeltaX(n, s, s[z].grad));
      assert s1[z] == s[z] && s1[xo].value == s[xo].value;
    }
  }

  /** In a singly-owned graph whose children share no operation node, an
      operation buffer of one child is no buffer the other child's pass
      touches. */
  lemma OpsApart(n: Node)
    requires Owned(n) && !n.Leaf? && OpOuts(n.x) !! OpOuts(n.y)
    ensures forall h :: h in OpOuts(n.y) ==> h !in Below(n.x) && h != n.x.Out()
    ensures forall h :: h in OpOuts(n.x) ==> h != n.y.Out()
  {
    BelowInside(n.x);
    BelowInside(n.y);
    forall h | h in OpOuts(n.y) && h in LeafOuts(n.x)
      ensures false
    {
      LeafNotOp(n, h);
    }
    if n.y.Out() in LeafOuts(n.y) {
      LeafNotOp(n, n.y.Out());
    }
  }

  /** Every operation node strictly below `n` has a zero gradient, as on a
      fresh graph. */
  predicate InteriorZero(n: Node, s: Store)
  {
    !n.Leaf? ==>
      forall h, i :: h in OpOuts(n.x) + OpOuts(n.y) && 0 <= h < |s| && 0 <= i < |s[h].grad| ==> s[h].grad[i] == 0
  }

  /** Where the code is right: on a singly-owned graph in which no
      operation node is reached along two paths and every operation node
      below the root has a zero gradient, `backward` is the corrected pass
      seeded with the root's gradient. Leaves may be shared. */
  lemma {:induction false} TreeAgrees(n: Node, s: Store)
    requires Ready(n, s) && Owned(n) && NoSharedOps(n) && InteriorZero(n, s)
    ensures Backward(n, s) == BackwardFrom(n, s, s[n.Out()].grad)
  {
    if !n.Leaf? {
      var dz := s[n.z].grad;
      var xo, yo := n.x.Out(), n.y.Out();
      var gx, gy := DeltaX(n, s, dz), DeltaY(n, s, dz);
      RootNotBelow(n);
      BelowInside(n.x);
      BelowInside(n.y);
      OwnedChildren(n);
      ContributeGains(n, s);
      var s1 := Contribute(n, s);
      TreeStepX(n, s);
      TreeAgrees(n.x, s1);
      var b := Backward(n.x, s1);
      BackwardFrame(n.x, s1);
      TreeStepY(n, s, b);
      TreeAgrees(n.y, b);
      assert Backward(n, s) == Backward(n.y, b);
    }
  }

  /** The first child's part of `TreeAgrees`: after the root's step, x's
      graph meets the lemma's conditions and x's buffer holds exactly the
      contribution the corrected pass sends x. */
  lemma TreeStepX(n: Node, s: Store)
    requires Ready(n, s) && Owned(n) && NoSharedOps(n) && InteriorZero(n, s) && !n.Leaf?
    ensures Ready(n.x, Contribute(n, s)) && InteriorZero(n.x, Contribute(n, s))
    ensures var s1 := Contribute(n, s);
      BackwardFrom(n.x, s1, s1[n.x.Out()].grad) == BackwardFrom(n.x, s1, DeltaX(n, s, s[n.z].grad))
  {
    var xo, yo := n.x.Out(), n.y.Out();
    var gx := DeltaX(n, s, s[n.z].grad);
    RootNotBelow(n);
    BelowInside(n.x);
    BelowInside(n.y);
    OpsApart(n);
    ContributeGains(n, s);
    var s1 := Contribute(n, s);
    TreeZeroX(n, s);
    if !n.x.Leaf? {
      assert xo in OpOuts(n.x) && xo != yo;
      ElemAddZero(s[xo].grad, gx);
      assert s1[xo].grad == gx;
    }
  }

  /** The root's step adds into no operation buffer below x. */
  lemma TreeZeroX(n: Node, s: Store)
    requires Ready(n, s) && Owned(n) && NoSharedOps(n) && InteriorZero(n, s) && !n.Leaf?
    ensures InteriorZero(n.x, Contribute(n, s))
  {
    var xo, yo := n.x.Out(), n.y.Out();
    var s1 := Contribute(n, s);
    if !n.x.Leaf? {
      OpsApart(n);
      RootNotBelow(n.x);
      forall h, i | h in OpOuts(n.x.x) + OpOuts(n.x.y) && 0 <= h < |s1| && 0 <= i < |s1[h].grad|
        ensures s1[h].grad[i] == 0
      {
        assert h in Below(n.x) && h in OpOuts(n.x);
        assert h != xo && h != yo;
        assert s1[h] == s[h];
      }
    }
  }

  /** The second child's part of `TreeAgrees`: after the root's step and
      x's pass, y's graph meets the lemma's conditions and y's buffer holds
      exactly the contribution the corrected pass sends y. */
  lemma TreeStepY(n: Node, s: Store, b: Store)
    requires Ready(n, s) && Owned(n) && NoSharedOps(n) && InteriorZero(n, s) && !n.Leaf?
    requires StoreValid(b) && Dims(b) == Dims(s)
    requires forall h :: 0 <= h < |s| && h !in Below(n.x) ==> b[h] == Contribute(n, s)[h]
    ensures Ready(n.y, b) && InteriorZero(n.y, b)
    ensures BackwardFrom(n.y, b, b[n.y.Out()].grad) == BackwardFrom(n.y, b, DeltaY(n, s, s[n.z].grad))
  {
    var xo, yo := n.x.Out(), n.y.Out();
    var gy := DeltaY(n, s, s[n.z].grad);
    RootNotBelow(n);
    BelowInside(n.x);
    BelowInside(n.y);
    OpsApart(n);
    ContributeGains(n, s);
    var s1 := Contribute(n, s);
    if !n.y.Leaf? {
      RootNotBelow(n.y);
      assert yo in OpOuts(n.y) && xo != yo && yo !in Below(n.x);
      ElemAddZero(s[yo].grad, gy);
      assert b[yo].grad == s1[yo].grad == gy;
      forall h, i | h in OpOuts(n.y.x) + OpOuts(n.y.y) && 0 <= h < |b| && 0 <= i < |b[h].grad|
        ensures b[h].grad[i] == 0
      {
        assert h in Below(n.y) && h in OpOuts(n.y);
        assert b[h] == s1[h] == s[h];
      }
    }
  }

  /** On a node whose children are leaves, a second `backward` without
      `zero_grad` adds to every gradient exactly what the first one added:
      there the code coincides with the corrected pass. */
  lemma OneLevelBackwardTwice(n: Node, s: Store)
    requires Ready(n, s) && !n.Leaf? && n.x.Leaf? && n.y.Leaf? && Owned(n)
    ensures forall h, i :: 0 <= h < |s| && 0 <= i < |s[h].grad| ==>
      Backward(n, Backward(n, s))[h].grad[i] - Backward(n, s)[h].grad[i]
      == Backward(n, s)[h].grad[i] - s[h].grad[i]
  {
    OneLevelAgrees(n, s);
    OneLevelAgrees(n, Backward(n, s));
    BackwardFromTwice(n, s);
  }
}
