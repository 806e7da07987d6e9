/** The engine as the program runs it: one arena object owns every buffer,
    and each `Node` operation updates buffers in place (the `UnsafeCell`
    writes of the source). Every method is specified by the function of
    `Semantics` that describes its effect on the whole arena, and every
    property proved there holds of these methods. */
module Nodes {
  import opened Tensors
  import opened Graph
  import S = Semantics
  import F = Functions

  class Arena {
    /** The buffers, indexed by handle. */
    var bufs: Store

    constructor ()
      ensures bufs == []
    {
      bufs := [];
    }

    /** `Tensor::new(dim)`: a fresh buffer with zero value and gradient. */
    method NewTensor(dim: Shape) returns (h: Handle)
      modifies this
      ensures h == |old(bufs)| && bufs == old(bufs) + [New(dim)]
    {
      h := |bufs|;
      bufs := bufs + [New(dim)];
    }

    /** A caller's write of a whole array through `get_input`. */
    method SetInput(h: Handle, v: seq<int>)
      requires h < |bufs| && |v| == |bufs[h].value|
      modifies this
      ensures bufs == old(bufs)[h := old(bufs)[h].(value := v)]
    {
      bufs := bufs[h := bufs[h].(value := v)];
    }

    /** `shape()`: the shape of the node's output buffer. */
    function Shape(n: Node): (d: Shape)
      reads this
      requires n.Out() < |bufs|
    {
      bufs[n.Out()].dim
    }

    /** `add(&x, &y)`. */
    method Add(x: Node, y: Node) returns (n: Node)
      requires x.Out() < |bufs|
      modifies this
      ensures (bufs, n) == F.Add(old(bufs), x, y)
    {
      var h := NewTensor(Shape(x));
      n := AddNode(x, y, h);
    }

    /** `product(&x, &y)`. */
    method Product(x: Node, y: Node) returns (n: Node)
      requires x.Out() < |bufs|
      modifies this
      ensures (bufs, n) == F.Product(old(bufs), x, y)
    {
      var h := NewTensor(Shape(x));
      n := ProductNode(x, y, h);
    }

    /** `matmul(&x, &y, &dim)`. */
    method Matmul(x: Node, y: Node, dim: Shape) returns (n: Node)
      requires |dim| == 2
      modifies this
      ensures (bufs, n) == F.Matmul(old(bufs), x, y, dim)
    {
      var h := NewTensor(dim);
      n := MatmulNode(x, y, h);
    }

    /** `reset_grad()`: the node's own gradient becomes zeros. */
    method ResetGrad(n: Node)
      requires StoreValid(bufs) && n.Out() < |bufs|
      modifies this
      ensures bufs == S.ResetGrad(old(bufs), n.Out())
    {
      var h := n.Out();
      bufs := bufs[h := bufs[h].(grad := Fill(Size(bufs[h].dim), 0))];
    }

    /** `zero_grad()`. */
    method ZeroGrad(n: Node)
      requires StoreValid(bufs) && InRange(n, |bufs|)
      modifies this
      ensures bufs == S.ZeroGrad(n, old(bufs))
    {
      if n.Leaf? {
        ResetGrad(n);
      } else {
        ResetGrad(n.x);
        ResetGrad(n.y);
        ResetGrad(n);
      }
    }

    /** `set_grad()`: the node's own gradient becomes ones. */
    method SetGrad(n: Node)
      requires StoreValid(bufs) && InRange(n, |bufs|)
      modifies this
      ensures bufs == S.SetGrad(n, old(bufs))
    {
      var h := n.Out();
      bufs := bufs[h := bufs[h].(grad := Fill(Size(bufs[h].dim), 1))];
    }

    /** `forward()`: x's forward, y's forward, then the node's own value. */
    method Forward(n: Node)
      requires S.Ready(n, bufs)
      modifies this
      ensures bufs == S.Forward(n, old(bufs))
      decreases n
    {
      if !n.Leaf? {
        Forward(n.x);
        Forward(n.y);
        var xv, yv, z := bufs[n.x.Out()].value, bufs[n.y.Out()].value, n.z;
        match n
        case AddNode(_, _, _) =>
          bufs := bufs[z := bufs[z].(value := ElemAdd(xv, yv))];
        case ProductNode(_, _, _) =>
          bufs := bufs[z := bufs[z].(value := ElemMul(xv, yv))];
        case MatmulNode(x, y, _) =>
          var p := S.MatrixProduct(xv, bufs[x.Out()].dim, yv, bufs[y.Out()].dim);
          bufs := bufs[z := bufs[z].(value := ElemAdd(bufs[z].value, p))];
      }
    }

    /** `backward()`: the node's contributions added into x's and y's
        gradients, then x's backward, then y's. */
    method Backward(n: Node)
      requires S.Ready(n, bufs)
      modifies this
      ensures bufs == S.Backward(n, old(bufs))
      decreases n
    {
      if !n.Leaf? {
        var xo, yo, z := n.x.Out(), n.y.Out(), n.z;
        if n.AddNode? {
          bufs := bufs[xo := bufs[xo].(grad := ElemAdd(bufs[xo].grad, bufs[z].grad))];
          bufs := bufs[yo := bufs[yo].(grad := ElemAdd(bufs[yo].grad, bufs[z].grad))];
        } else if n.ProductNode? {
          bufs := bufs[xo := bufs[xo].(grad := ElemAdd(bufs[xo].grad, ElemMul(bufs[z].grad, bufs[yo].value)))];
          bufs := bufs[yo := bufs[yo].(grad := ElemAdd(bufs[yo].grad, ElemMul(bufs[z].grad, bufs[xo].value)))];
        } else {
          var dx, dy, dz := bufs[xo].dim, bufs[yo].dim, bufs[z].dim;
          assert [dz[0], dy[0]] == dx && [dx[1], dz[1]] == dy;
          var gx := S.LeftGrad(bufs[z].grad, dz, bufs[yo].value, dy);
          var gy := S.RightGrad(bufs[xo].value, dx, bufs[z].grad, dz);
          bufs := bufs[xo := bufs[xo].(grad := ElemAdd(bufs[xo].grad, gx))];
          bufs := bufs[yo := bufs[yo].(grad := ElemAdd(bufs[yo].grad, gy))];
        }
        assert bufs == S.Contribute(n, old(bufs));
        Backward(n.x);
        Backward(n.y);
      }
    }

    /** The corrected pass: `dz` is the gradient reaching `n` along one
        path; each child gets, and passes on, only its share of `dz`. */
    method BackwardFrom(n: Node, dz: seq<int>)
      requires S.Ready(n, bufs) && |dz| == Size(bufs[n.Out()].dim)
      modifies this
      ensures bufs == S.BackwardFrom(n, old(bufs), dz)
      decreases n
    {
      if !n.Leaf? {
        var xo, yo := n.x.Out(), n.y.Out();
        var gx, gy := S.DeltaX(n, bufs, dz), S.DeltaY(n, bufs, dz);
        bufs := S.AccumGrad(S.AccumGrad(bufs, xo, gx), yo, gy);
        BackwardFrom(n.x, gx);
        BackwardFrom(n.y, gy);
      }
    }
  }
}
