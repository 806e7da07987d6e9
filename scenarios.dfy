/** The programs of the repository's own tests, run on the arena, with the
    results those tests assert stated as postconditions; and the two
    programs that show where `backward` departs from the chain rule. */
module Scenarios {
  import opened Tensors
  import opened Graph
  import S = Semantics
  import F = Functions
  import opened Matrices
  import opened Nodes

  lemma ScalarFacts()
    ensures Fill(1, 0) == [0] && Fill(1, 1) == [1]
    ensures New([]) == Tensor([0], [0], [])
  {
    assert Fill(1, 0) == [0] && Fill(1, 1) == [1];
  }

  // ---------------------------------------------------------------------
  // y = x * x + x (the integration test)

  /** The graph of y = x * x + x over buffers x = 0, tmp = 1, y = 2. */
  function ThreeElemGraph(): (n: Node)
  {
    AddNode(ProductNode(Leaf(0), Leaf(0), 1), Leaf(0), 2)
  }

  /** x = 3, the two outputs zero, y's gradient seeded with one. */
  function ThreeElemSeeded(): (s: Store)
  {
    [Tensor([3], [0], []), Tensor([0], [0], []), Tensor([0], [1], [])]
  }

  /** Three scalar buffers are ready for the graph. */
  lemma ThreeElemReady(s: Store)
    requires |s| == 3
    requires forall h :: 0 <= h < 3 ==> |s[h].value| == 1 && |s[h].grad| == 1 && s[h].dim == []
    ensures S.Ready(ThreeElemGraph(), s)
  {
    assert Size([]) == 1;
    assert StoreValid(s);
    var d := Dims(s);
    assert d == [[], [], []];
    assert WellFormed(Leaf(0), d);
    assert WellFormed(ProductNode(Leaf(0), Leaf(0), 1), d);
  }

  lemma ThreeElemForward()
    ensures S.Ready(ThreeElemGraph(), ThreeElemSeeded())
    ensures S.Forward(ThreeElemGraph(), ThreeElemSeeded())
         == [Tensor([3], [0], []), Tensor([9], [0], []), Tensor([12], [1], [])]
  {
    var s := ThreeElemSeeded();
    var p := ProductNode(Leaf(0), Leaf(0), 1);
    assert ElemMul([3], [3]) == [9] && ElemAdd([9], [3]) == [12];
    assert S.Forward(p, s) == S.Combine(p, s);
    var s1 := [Tensor([3], [0], []), Tensor([9], [0], []), Tensor([0], [1], [])];
    assert S.Combine(p, s) == s1;
    assert S.Forward(ThreeElemGraph(), s) == S.Combine(ThreeElemGraph(), s1);
  }

  /** The sum's own backward step in y = tmp + x: both tmp's and x's
      gradients gain y's. */
  lemma ThreeAddStep(s: Store, c: int, g: int)
    requires s == [Tensor([3], [c], []), Tensor([9], [g], []), Tensor([12], [1], [])]
    ensures S.Ready(ThreeElemGraph(), s)
    ensures S.Contribute(ThreeElemGraph(), s)
         == [Tensor([3], [c + 1], []), Tensor([9], [g + 1], []), Tensor([12], [1], [])]
  {
    ThreeElemReady(s);
    assert ElemAdd([g], [1]) == [g + 1] && ElemAdd([c], [1]) == [c + 1];
  }

  /** One backward pass after forward: tmp's gradient is 1 and x's is
      1 (from the sum) + 2 * 3 (from the product). */
  lemma ThreeElemBackward(s: Store)
    requires s == [Tensor([3], [0], []), Tensor([9], [0], []), Tensor([12], [1], [])]
    ensures S.Ready(ThreeElemGraph(), s)
    ensures S.Backward(ThreeElemGraph(), s)
         == [Tensor([3], [7], []), Tensor([9], [1], []), Tensor([12], [1], [])]
  {
    var p := ProductNode(Leaf(0), Leaf(0), 1);
    ThreeAddStep(s, 0, 0);
    var s1 := [Tensor([3], [1], []), Tensor([9], [1], []), Tensor([12], [1], [])];
    SquareStep(s1, 1, 1, 12);
    assert S.Backward(ThreeElemGraph(), s) == S.Backward(Leaf(0), S.Backward(p, s1));
  }

  /** A second backward pass without zero_grad: tmp's accumulated gradient
      (now 2) is propagated again, so x's gradient becomes 20. */
  lemma ThreeElemBackwardAgain(s: Store)
    requires s == [Tensor([3], [7], []), Tensor([9], [1], []), Tensor([12], [1], [])]
    ensures S.Ready(ThreeElemGraph(), s)
    ensures S.Backward(ThreeElemGraph(), s)
         == [Tensor([3], [20], []), Tensor([9], [2], []), Tensor([12], [1], [])]
  {
    var p := ProductNode(Leaf(0), Leaf(0), 1);
    ThreeAddStep(s, 7, 1);
    var s1 := [Tensor([3], [8], []), Tensor([9], [2], []), Tensor([12], [1], [])];
    SquareStep(s1, 2, 8, 12);
    assert S.Backward(ThreeElemGraph(), s) == S.Backward(Leaf(0), S.Backward(p, s1));
  }

  /** The test's graph shares only its leaf x, so no operation node is
      reached along two paths; its one interior operation, tmp, has a zero
      gradient exactly when `g` is zero. */
  lemma ThreeElemTree(c: int, g: int)
    ensures var s := [Tensor([3], [c], []), Tensor([9], [g], []), Tensor([12], [1], [])];
      S.Ready(ThreeElemGraph(), s) && Owned(ThreeElemGraph()) && NoSharedOps(ThreeElemGraph()) &&
      (S.InteriorZero(ThreeElemGraph(), s) <==> g == 0)
  {
    var s := [Tensor([3], [c], []), Tensor([9], [g], []), Tensor([12], [1], [])];
    var p := ProductNode(Leaf(0), Leaf(0), 1);
    ThreeElemReady(s);
    assert Subnodes(p) == {p, Leaf(0)};
    assert Subnodes(ThreeElemGraph()) == {ThreeElemGraph(), p, Leaf(0)};
    assert OpOuts(p) == {1} && OpOuts(Leaf(0)) == {};
    assert 1 in OpOuts(p) + OpOuts(Leaf(0)) && s[1].grad[0] == g;
  }

  /** The test's expected 7 is the derivative of x*x + x at x = 3. */
  lemma ThreeElemDerivative(c: int, g: int)
    ensures var s := [Tensor([3], [c], []), Tensor([9], [g], []), Tensor([12], [1], [])];
      S.Ready(ThreeElemGraph(), s) && Elementwise(ThreeElemGraph()) && S.Deriv(ThreeElemGraph(), s, 0) == [7]
  {
    var s := [Tensor([3], [c], []), Tensor([9], [g], []), Tensor([12], [1], [])];
    var p := ProductNode(Leaf(0), Leaf(0), 1);
    ThreeElemReady(s);
    assert S.Deriv(Leaf(0), s, 0) == [1];
    assert S.Eval(Leaf(0), s) == [3];
    assert S.Deriv(p, s, 0) == [6];
  }

  /** The test's first pass, from a zero gradient on tmp, is the corrected
      pass: there the code follows the chain rule. The second pass, which
      finds tmp's gradient at 1, is not. */
  lemma ThreeElemFirstPassAgrees()
    ensures var s := [Tensor([3], [0], []), Tensor([9], [0], []), Tensor([12], [1], [])];
      S.Ready(ThreeElemGraph(), s) &&
      S.Backward(ThreeElemGraph(), s) == S.BackwardFrom(ThreeElemGraph(), s, [1])
  {
    var s := [Tensor([3], [0], []), Tensor([9], [0], []), Tensor([12], [1], [])];
    ThreeElemTree(0, 0);
    S.TreeAgrees(ThreeElemGraph(), s);
  }

  /** `tests/three_elem_graph.rs`: y = x * x + x at x = 3 gives y == 12
      and dy/dx == 7. */
  method ThreeElem() returns (y: seq<int>, xGrad: seq<int>)
    ensures y == [12] && xGrad == [7]
  {
    ScalarFacts();
    var g := new Arena();
    var x := g.NewTensor([]);
    g.SetInput(x, [3]);
    var tmp := g.Product(Leaf(x), Leaf(x));
    var yn := g.Add(tmp, Leaf(x));
    assert yn == ThreeElemGraph();
    g.ZeroGrad(yn);
    g.SetGrad(yn);
    assert g.bufs == ThreeElemSeeded();
    ThreeElemForward();
    g.Forward(yn);
    ThreeElemBackward(g.bufs);
    g.Backward(yn);
    y := g.bufs[yn.Out()].value;
    xGrad := g.bufs[x].grad;
  }

  // ---------------------------------------------------------------------
  // y = (x * x + x) + x: the test's reset loop, run twice

  /** The graph of y = a + x, a = tmp + x, tmp = x * x, over buffers
      x = 0, tmp = 1, a = 2 and y = 3. */
  function DeepGraph(): (n: Node)
  {
    AddNode(AddNode(ProductNode(Leaf(0), Leaf(0), 1), Leaf(0), 2), Leaf(0), 3)
  }

  /** Four scalar buffers. */
  predicate DeepScalars(s: Store)
  {
    |s| == 4 && forall h :: 0 <= h < 4 ==> |s[h].value| == 1 && |s[h].grad| == 1 && s[h].dim == []
  }

  /** The arena after forward at x = 3 (tmp = 9, a = 12, y = 15), with
      y's gradient one and the others `c`, `g` and `a`. */
  function DeepStore(c: int, g: int, a: int): (s: Store)
  {
    DeepArena(c, g, a, 1, 9, 12, 15)
  }

  lemma DeepReady(s: Store)
    requires DeepScalars(s)
    ensures S.Ready(DeepGraph(), s) && Owned(DeepGraph()) && Elementwise(DeepGraph())
  {
    assert Size([]) == 1;
    assert StoreValid(s);
    var d := Dims(s);
    assert d == [[], [], [], []];
    var p := ProductNode(Leaf(0), Leaf(0), 1);
    var a := AddNode(p, Leaf(0), 2);
    assert WellFormed(Leaf(0), d) && WellFormed(p, d) && WellFormed(a, d);
    assert Subnodes(p) == {p, Leaf(0)};
    assert Subnodes(a) == {a, p, Leaf(0)};
    assert Subnodes(DeepGraph()) == {DeepGraph(), a, p, Leaf(0)};
  }

  /** An arena of the same size and shapes as four scalar buffers is four
      scalar buffers. */
  lemma DeepScalarsKept(s: Store, r: Store)
    requires DeepScalars(s) && |r| == |s| && Dims(r) == Dims(s) && StoreValid(r)
    ensures DeepScalars(r)
  {
    assert Size([]) == 1;
    forall h | 0 <= h < 4
      ensures |r[h].value| == 1 && |r[h].grad| == 1 && r[h].dim == []
    {
      assert r[h].dim == Dims(r)[h] == Dims(s)[h] == [];
      assert r[h].Valid();
    }
  }

  /** One round of the test's calls on the graph: `zero_grad`, `set_grad`,
      `forward`, then `backward` as written, or the corrected pass seeded
      with the root's gradient. */
  function DeepCycle(s: Store, corrected: bool): (r: Store)
    requires DeepScalars(s)
    ensures DeepScalars(r)
  {
    var n := DeepGraph();
    DeepReady(s);
    var z := S.SetGrad(n, S.ZeroGrad(n, s));
    DeepScalarsKept(s, z);
    DeepReady(z);
    var f := S.Forward(n, z);
    DeepScalarsKept(s, f);
    DeepReady(f);
    var r := if corrected then S.BackwardFrom(n, f, f[n.Out()].grad) else S.Backward(n, f);
    DeepScalarsKept(s, r);
    r
  }

  /** Any four scalar buffers with x = 3: gradients `c`, `g`, `a`, `d` and
      output values `u`, `v`, `w`. */
  function DeepArena(c: int, g: int, a: int, d: int, u: int, v: int, w: int): (s: Store)
  {
    [Tensor([3], [c], []), Tensor([u], [g], []), Tensor([v], [a], []), Tensor([w], [d], [])]
  }

  /** `zero_grad` on y clears y's, a's and x's gradients only; `set_grad`
      then seeds y's with one. tmp keeps whatever gradient it had. */
  lemma DeepReset(c: int, g: int, a: int, d: int, u: int, v: int, w: int)
    ensures DeepScalars(DeepArena(c, g, a, d, u, v, w))
    ensures S.Ready(DeepGraph(), DeepArena(c, g, a, d, u, v, w))
    ensures S.SetGrad(DeepGraph(), S.ZeroGrad(DeepGraph(), DeepArena(c, g, a, d, u, v, w)))
         == DeepArena(0, g, 0, 1, u, v, w)
  {
    ScalarFacts();
    var s := DeepArena(c, g, a, d, u, v, w);
    assert DeepScalars(s);
    DeepReady(s);
    var s1 := [Tensor([3], [c], []), Tensor([u], [g], []), Tensor([v], [0], []), Tensor([w], [d], [])];
    assert S.ResetGrad(s, 2) == s1;
    var s2 := [Tensor([3], [0], []), Tensor([u], [g], []), Tensor([v], [0], []), Tensor([w], [d], [])];
    assert S.ResetGrad(s1, 0) == s2;
    var s3 := DeepArena(0, g, 0, 0, u, v, w);
    assert S.ResetGrad(s2, 3) == s3;
    assert S.ZeroGrad(DeepGraph(), s) == s3;
  }

  /** Each node's own forward step at x = 3: tmp = 9, then a = 12, then
      y = 15, whatever the outputs held before. */
  lemma DeepForwardSteps(g: int, u: int, v: int, w: int)
    ensures S.Ready(DeepGraph(), DeepArena(0, g, 0, 1, u, v, w))
    ensures S.Combine(DeepGraph().x.x, DeepArena(0, g, 0, 1, u, v, w)) == DeepArena(0, g, 0, 1, 9, v, w)
    ensures S.Ready(DeepGraph(), DeepArena(0, g, 0, 1, 9, v, w))
    ensures S.Combine(DeepGraph().x, DeepArena(0, g, 0, 1, 9, v, w)) == DeepArena(0, g, 0, 1, 9, 12, w)
    ensures S.Ready(DeepGraph(), DeepArena(0, g, 0, 1, 9, 12, w))
    ensures S.Combine(DeepGraph(), DeepArena(0, g, 0, 1, 9, 12, w)) == DeepStore(0, g, 0)
  {
    assert DeepScalars(DeepArena(0, g, 0, 1, u, v, w));
    assert DeepScalars(DeepArena(0, g, 0, 1, 9, v, w));
    assert DeepScalars(DeepArena(0, g, 0, 1, 9, 12, w));
    DeepReady(DeepArena(0, g, 0, 1, u, v, w));
    DeepReady(DeepArena(0, g, 0, 1, 9, v, w));
    DeepReady(DeepArena(0, g, 0, 1, 9, 12, w));
    assert ElemMul([3], [3]) == [9] && ElemAdd([9], [3]) == [12] && ElemAdd([12], [3]) == [15];
  }

  /** Forward at x = 3 stores tmp = 9, a = 12 and y = 15, whatever the
      outputs held before, and changes no gradient. */
  lemma DeepForward(g: int, u: int, v: int, w: int)
    ensures S.Ready(DeepGraph(), DeepArena(0, g, 0, 1, u, v, w))
    ensures S.Forward(DeepGraph(), DeepArena(0, g, 0, 1, u, v, w)) == DeepStore(0, g, 0)
  {
    var p := ProductNode(Leaf(0), Leaf(0), 1);
    var a := AddNode(p, Leaf(0), 2);
    var s := DeepArena(0, g, 0, 1, u, v, w);
    DeepForwardSteps(g, u, v, w);
    var s1 := DeepArena(0, g, 0, 1, 9, v, w);
    assert S.Forward(p, s) == s1;
    var s2 := DeepArena(0, g, 0, 1, 9, 12, w);
    assert S.Forward(a, s) == s2;
  }

  lemma DeepStoreReady(c: int, g: int, a: int)
    ensures DeepScalars(DeepStore(c, g, a)) && S.Ready(DeepGraph(), DeepStore(c, g, a))
  {
    assert DeepScalars(DeepStore(c, g, a));
    DeepReady(DeepStore(c, g, a));
  }

  /** tmp = x * x at x = 3 over the four buffers: x gains 2 * 3 times
      tmp's gradient `g`, as written. */
  lemma DeepSquareStep(c: int, g: int, a: int)
    ensures S.Ready(ProductNode(Leaf(0), Leaf(0), 1), DeepStore(c, g, a))
    ensures S.Backward(ProductNode(Leaf(0), Leaf(0), 1), DeepStore(c, g, a)) == DeepStore(c + 6 * g, g, a)
  {
    var p := ProductNode(Leaf(0), Leaf(0), 1);
    DeepStoreReady(c, g, a);
    assert ElemMul([g], [3]) == [3 * g];
    assert ElemAdd([c], [3 * g]) == [c + 3 * g] && ElemAdd([c + 3 * g], [3 * g]) == [c + 6 * g];
    assert S.Backward(p, DeepStore(c, g, a)) == S.Contribute(p, DeepStore(c, g, a));
  }

  /** The two sums' own backward steps: y sends its 1 to a and x, then a
      sends its 1 to tmp and x. */
  lemma DeepAddSteps(g: int)
    ensures S.Ready(DeepGraph(), DeepStore(0, g, 0))
    ensures S.Contribute(DeepGraph(), DeepStore(0, g, 0)) == DeepStore(1, g, 1)
    ensures S.Ready(DeepGraph().x, DeepStore(1, g, 1))
    ensures S.Contribute(DeepGraph().x, DeepStore(1, g, 1)) == DeepStore(2, g + 1, 1)
  {
    DeepStoreReady(0, g, 0);
    DeepStoreReady(1, g, 1);
    assert ElemAdd([0], [1]) == [1] && ElemAdd([1], [1]) == [2] && ElemAdd([g], [1]) == [g + 1];
  }

  /** Backward as written from the forwarded, reset arena: tmp sends its
      whole gradient g + 1 on, so x's gradient is 2 + 6 * (g + 1). */
  lemma DeepBackward(g: int)
    ensures S.Ready(DeepGraph(), DeepStore(0, g, 0))
    ensures S.Backward(DeepGraph(), DeepStore(0, g, 0)) == DeepStore(8 + 6 * g, g + 1, 1)
  {
    var p := ProductNode(Leaf(0), Leaf(0), 1);
    var a := AddNode(p, Leaf(0), 2);
    DeepAddSteps(g);
    DeepSquareStep(2, g + 1, 1);
    assert S.Backward(a, DeepStore(1, g, 1)) == S.Backward(Leaf(0), S.Backward(p, DeepStore(2, g + 1, 1)));
    assert S.Backward(DeepGraph(), DeepStore(0, g, 0)) == S.Backward(Leaf(0), S.Backward(a, DeepStore(1, g, 1)));
  }

  /** The corrected pass of tmp = x * x from an incoming 1: x gains 2 * 3,
      whatever tmp's own gradient is. */
  lemma DeepSquareFromStep(c: int, g: int, a: int)
    ensures S.Ready(ProductNode(Leaf(0), Leaf(0), 1), DeepStore(c, g, a))
    ensures S.BackwardFrom(ProductNode(Leaf(0), Leaf(0), 1), DeepStore(c, g, a), [1]) == DeepStore(c + 6, g, a)
  {
    var p := ProductNode(Leaf(0), Leaf(0), 1);
    DeepStoreReady(c, g, a);
    assert ElemMul([1], [3]) == [3];
    assert S.DeltaX(p, DeepStore(c, g, a), [1]) == [3] && S.DeltaY(p, DeepStore(c, g, a), [1]) == [3];
    assert ElemAdd([c], [3]) == [c + 3] && ElemAdd([c + 3], [3]) == [c + 6];
    assert S.Spread(p, DeepStore(c, g, a), [1]) == DeepStore(c + 6, g, a);
  }

  /** The corrected sums' steps spread the same 1s as the code's. */
  lemma DeepSpreadSteps(g: int)
    ensures S.Ready(DeepGraph(), DeepStore(0, g, 0))
    ensures S.Spread(DeepGraph(), DeepStore(0, g, 0), [1]) == DeepStore(1, g, 1)
    ensures S.DeltaX(DeepGraph(), DeepStore(0, g, 0), [1]) == [1]
    ensures S.Ready(DeepGraph().x, DeepStore(1, g, 1))
    ensures S.Spread(DeepGraph().x, DeepStore(1, g, 1), [1]) == DeepStore(2, g + 1, 1)
    ensures S.DeltaX(DeepGraph().x, DeepStore(1, g, 1), [1]) == [1]
  {
    DeepStoreReady(0, g, 0);
    DeepStoreReady(1, g, 1);
    assert ElemAdd([0], [1]) == [1] && ElemAdd([1], [1]) == [2] && ElemAdd([g], [1]) == [g + 1];
  }

  /** The corrected pass from the same arena: tmp is sent only the 1 that
      arrives from a, so x's gradient is 8, whatever `g` is. */
  lemma DeepBackwardFrom(g: int)
    ensures S.Ready(DeepGraph(), DeepStore(0, g, 0))
    ensures S.BackwardFrom(DeepGraph(), DeepStore(0, g, 0), [1]) == DeepStore(8, g + 1, 1)
  {
    var p := ProductNode(Leaf(0), Leaf(0), 1);
    var a := AddNode(p, Leaf(0), 2);
    DeepSpreadSteps(g);
    DeepSquareFromStep(2, g + 1, 1);
    var r := S.BackwardFrom(p, DeepStore(2, g + 1, 1), [1]);
    assert S.BackwardFrom(a, DeepStore(1, g, 1), [1]) == S.BackwardFrom(Leaf(0), r, S.DeltaY(a, DeepStore(1, g, 1), [1]));
    assert S.BackwardFrom(DeepGraph(), DeepStore(0, g, 0), [1])
        == S.BackwardFrom(Leaf(0), S.BackwardFrom(a, DeepStore(1, g, 1), [1]), S.DeltaY(DeepGraph(), DeepStore(0, g, 0), [1]));
  }

  /** One round from any four scalar buffers with x = 3: as written, x's
      gradient is 8 only when tmp's leftover gradient `g` is zero, and
      8 + 6g otherwise; corrected, it is 8, which is dy/dx = 2x + 2. Both
      leave tmp's gradient at g + 1. */
  lemma DeepCycleGrad(c: int, g: int, a: int, d: int, u: int, v: int, w: int)
    ensures DeepScalars(DeepArena(c, g, a, d, u, v, w))
    ensures DeepCycle(DeepArena(c, g, a, d, u, v, w), false) == DeepStore(8 + 6 * g, g + 1, 1)
    ensures DeepCycle(DeepArena(c, g, a, d, u, v, w), true) == DeepStore(8, g + 1, 1)
    ensures DeepCycle(DeepArena(c, g, a, d, u, v, w), false)[0].grad == [8 + 6 * g]
  {
    var n := DeepGraph();
    var s := DeepArena(c, g, a, d, u, v, w);
    DeepReset(c, g, a, d, u, v, w);
    DeepForward(g, u, v, w);
    DeepBackward(g);
    DeepBackwardFrom(g);
    assert DeepCycle(s, false) == S.Backward(n, DeepStore(0, g, 0));
    assert DeepCycle(s, true) == S.BackwardFrom(n, DeepStore(0, g, 0), [1]);
  }

  /** As written, two rounds of the test's loop of `zero_grad`, `set_grad`,
      `forward` and `backward`, from any four scalar buffers with x = 3 and
      tmp's gradient `g`: x's gradient is 8 + 6g after the first round and
      14 + 6g after the second, because `zero_grad` leaves tmp's gradient
      and `backward` sends it down again. From the fresh arena (g = 0) the
      rounds give 8, which is dy/dx, and then 14. */
  lemma DeepResetTwice(c: int, g: int, a: int, d: int, u: int, v: int, w: int)
    ensures DeepScalars(DeepArena(c, g, a, d, u, v, w))
    ensures DeepCycle(DeepArena(c, g, a, d, u, v, w), false)[0].grad == [8 + 6 * g]
    ensures DeepCycle(DeepCycle(DeepArena(c, g, a, d, u, v, w), false), false)[0].grad == [14 + 6 * g]
  {
    DeepCycleGrad(c, g, a, d, u, v, w);
    DeepCycleGrad(8 + 6 * g, g + 1, 1, 1, 9, 12, 15);
  }

  /** Corrected, every round of the same loop gives x's gradient 8,
      whatever tmp's gradient was. */
  lemma DeepResetTwiceFixed(c: int, g: int, a: int, d: int, u: int, v: int, w: int)
    ensures DeepScalars(DeepArena(c, g, a, d, u, v, w))
    ensures DeepCycle(DeepArena(c, g, a, d, u, v, w), true)[0].grad == [8]
    ensures DeepCycle(DeepCycle(DeepArena(c, g, a, d, u, v, w), true), true)[0].grad == [8]
  {
    DeepCycleGrad(c, g, a, d, u, v, w);
    var r1 := DeepCycle(DeepArena(c, g, a, d, u, v, w), true);
    assert r1 == DeepArena(8, g + 1, 1, 1, 9, 12, 15);
    DeepCycleGrad(8, g + 1, 1, 1, 9, 12, 15);
    assert DeepCycle(r1, true) == DeepArena(8, g + 2, 1, 1, 9, 12, 15);
  }

  // ---------------------------------------------------------------------
  // y = p + p with p = x * x: an operation node reached along two paths

  /** The graph of y = p + p, p = x * x, over buffers x = 0, p = 1, y = 2. */
  function SharedGraph(): (n: Node)
  {
    AddNode(ProductNode(Leaf(0), Leaf(0), 1), ProductNode(Leaf(0), Leaf(0), 1), 2)
  }

  /** After forward at x = 3 (p = 9, y = 18), y's gradient seeded with one. */
  function SharedForwarded(): (s: Store)
  {
    [Tensor([3], [0], []), Tensor([9], [0], []), Tensor([18], [1], [])]
  }

  lemma SharedReady(s: Store)
    requires |s| == 3
    requires forall h :: 0 <= h < 3 ==> |s[h].value| == 1 && |s[h].grad| == 1 && s[h].dim == []
    ensures S.Ready(SharedGraph(), s)
  {
    assert Size([]) == 1;
    assert StoreValid(s);
    var d := Dims(s);
    assert d == [[], [], []];
    assert WellFormed(Leaf(0), d);
    assert WellFormed(ProductNode(Leaf(0), Leaf(0), 1), d);
  }

  lemma SharedOwned()
    ensures Owned(SharedGraph())
  {
    var p := ProductNode(Leaf(0), Leaf(0), 1);
    assert Subnodes(p) == {p, Leaf(0)};
    assert Subnodes(SharedGraph()) == {SharedGraph(), p, Leaf(0)};
  }

  /** Backward of p = x * x at x = 3 over buffers x = 0, p = 1: x gains
      2 * p's gradient * 3; the third buffer, holding `y`, is untouched. */
  lemma SquareStep(s: Store, g: int, c: int, y: int)
    requires s == [Tensor([3], [c], []), Tensor([9], [g], []), Tensor([y], [1], [])]
    ensures S.Ready(ProductNode(Leaf(0), Leaf(0), 1), s)
    ensures S.Backward(ProductNode(Leaf(0), Leaf(0), 1), s)
         == [Tensor([3], [c + 6 * g], []), Tensor([9], [g], []), Tensor([y], [1], [])]
  {
    var p := ProductNode(Leaf(0), Leaf(0), 1);
    SharedReady(s);
    assert ElemMul([g], [3]) == [3 * g];
    assert ElemAdd([c], [3 * g]) == [c + 3 * g] && ElemAdd([c + 3 * g], [3 * g]) == [c + 6 * g];
    assert S.Backward(p, s) == S.Contribute(p, s);
  }

  /** The root's own step, in both passes: p's gradient gains one along
      each of the two paths. */
  lemma SharedAddStep(s: Store, g: int)
    requires s == [Tensor([3], [0], []), Tensor([9], [g], []), Tensor([18], [1], [])]
    ensures S.Ready(SharedGraph(), s)
    ensures S.Contribute(SharedGraph(), s) == [Tensor([3], [0], []), Tensor([9], [g + 2], []), Tensor([18], [1], [])]
    ensures S.Spread(SharedGraph(), s, [1]) == [Tensor([3], [0], []), Tensor([9], [g + 2], []), Tensor([18], [1], [])]
    ensures S.DeltaX(SharedGraph(), s, [1]) == [1] && S.DeltaY(SharedGraph(), s, [1]) == [1]
  {
    SharedReady(s);
    assert ElemAdd([g], [1]) == [g + 1] && ElemAdd([g + 1], [1]) == [g + 2];
  }

  /** p's backward run once per path, each time with p's full gradient 2. */
  lemma SquareTwice(s: Store)
    requires s == [Tensor([3], [0], []), Tensor([9], [2], []), Tensor([18], [1], [])]
    ensures S.Ready(ProductNode(Leaf(0), Leaf(0), 1), s)
    ensures var p := ProductNode(Leaf(0), Leaf(0), 1);
      S.Ready(p, S.Backward(p, s)) &&
      S.Backward(p, S.Backward(p, s)) == [Tensor([3], [24], []), Tensor([9], [2], []), Tensor([18], [1], [])]
  {
    SquareStep(s, 2, 0, 18);
    SquareStep([Tensor([3], [12], []), Tensor([9], [2], []), Tensor([18], [1], [])], 2, 12, 18);
  }

  /** As written: p receives 1 from each path (2 in all) and is then
      backpropagated once per path, each time with the full 2, so x's
      gradient is 2 * (2 * 2 * 3) = 24, twice d(2x^2)/dx = 4x = 12. */
  lemma SharedBackwardOvercounts()
    ensures S.Ready(SharedGraph(), SharedForwarded()) && Owned(SharedGraph())
    ensures S.Backward(SharedGraph(), SharedForwarded())[0].grad == [24]
  {
    var s := SharedForwarded();
    SharedAddStep(s, 0);
    SquareTwice(S.Contribute(SharedGraph(), s));
    SharedOwned();
  }

  /** The corrected pass of p = x * x at x = 3 for an incoming gradient of
      one: x gains 2 * 3, whatever p's accumulated gradient `g` is. */
  lemma SquareFromStep(s: Store, g: int, c: int, y: int)
    requires s == [Tensor([3], [c], []), Tensor([9], [g], []), Tensor([y], [1], [])]
    ensures S.Ready(ProductNode(Leaf(0), Leaf(0), 1), s)
    ensures S.BackwardFrom(ProductNode(Leaf(0), Leaf(0), 1), s, [1])
         == [Tensor([3], [c + 6], []), Tensor([9], [g], []), Tensor([y], [1], [])]
  {
    var p := ProductNode(Leaf(0), Leaf(0), 1);
    SharedReady(s);
    assert ElemMul([1], [3]) == [3];
    assert S.DeltaX(p, s, [1]) == [3] && S.DeltaY(p, s, [1]) == [3];
    assert ElemAdd([c], [3]) == [c + 3] && ElemAdd([c + 3], [3]) == [c + 6];
    assert S.Spread(p, s, [1]) == [Tensor([3], [c + 6], []), Tensor([9], [g], []), Tensor([y], [1], [])];
  }

  /** Corrected: each path passes on only its own contribution, so x's
      gradient is d(2x^2)/dx = 4x = 12 at x = 3. */
  lemma SharedBackwardFromChainRule()
    ensures S.Ready(SharedGraph(), SharedForwarded())
    ensures S.BackwardFrom(SharedGraph(), SharedForwarded(), [1])[0].grad == [12]
  {
    var s := SharedForwarded();
    var p := ProductNode(Leaf(0), Leaf(0), 1);
    SharedAddStep(s, 0);
    var s1 := [Tensor([3], [0], []), Tensor([9], [2], []), Tensor([18], [1], [])];
    SquareFromStep(s1, 2, 0, 18);
    var s2 := [Tensor([3], [6], []), Tensor([9], [2], []), Tensor([18], [1], [])];
    SquareFromStep(s2, 2, 6, 18);
    assert S.BackwardFrom(SharedGraph(), s, [1]) == S.BackwardFrom(p, S.BackwardFrom(p, s1, [1]), [1]);
  }

  /** Forward of y = p + p at x = 3 from fresh buffers: p = 9, y = 18. */
  lemma SharedForward()
    ensures S.Ready(SharedGraph(), [Tensor([3], [0], []), New([]), New([])])
    ensures S.Forward(SharedGraph(), [Tensor([3], [0], []), New([]), New([])])
         == [Tensor([3], [0], []), Tensor([9], [0], []), Tensor([18], [0], [])]
  {
    ScalarFacts();
    var s := [Tensor([3], [0], []), New([]), New([])];
    var p := ProductNode(Leaf(0), Leaf(0), 1);
    SharedReady(s);
    assert ElemMul([3], [3]) == [9] && ElemAdd([9], [9]) == [18];
    var s1 := [Tensor([3], [0], []), Tensor([9], [0], []), New([])];
    assert S.Forward(p, s) == s1;
    assert S.Forward(p, s1) == s1;
  }

  /** The shared-node graph built in an arena, forwarded at x = 3 and
      seeded. */
  method SharedBuild() returns (g: Arena, n: Node)
    ensures fresh(g) && n == SharedGraph() && g.bufs == SharedForwarded()
  {
    ScalarFacts();
    g := new Arena();
    var x := g.NewTensor([]);
    g.SetInput(x, [3]);
    var p := g.Product(Leaf(x), Leaf(x));
    n := g.Add(p, p);
    assert n == SharedGraph() && g.bufs == [Tensor([3], [0], []), New([]), New([])];
    SharedForward();
    g.Forward(n);
    SharedReady(g.bufs);
    g.SetGrad(n);
  }

  /** The arena's two passes on y = p + p, p = x * x at x = 3: as written
      x's gradient is 24, with each path's own share it is 12. */
  method SharedTest() returns (asWritten: seq<int>, corrected: seq<int>)
    ensures asWritten == [24] && corrected == [12]
  {
    var g, n := SharedBuild();
    SharedBackwardOvercounts();
    g.Backward(n);
    asWritten := g.bufs[0].grad;
    var h, m := SharedBuild();
    SharedBackwardFromChainRule();
    h.BackwardFrom(m, h.bufs[m.Out()].grad);
    corrected := h.bufs[0].grad;
  }

  // ---------------------------------------------------------------------
  // r = m + m, m = x y: a matrix product reached along two paths

  /** r = m + m with m = matmul(&x, &y, &[1, 1]), over buffers x = 0,
      y = 1, m = 2 and r = 3. */
  function SharedMatGraph(): (n: Node)
  {
    var m := MatmulNode(Leaf(0), Leaf(1), 2);
    AddNode(m, m, 3)
  }

  /** x = [[2]], y = [[3]], and the two outputs fresh. */
  function SharedMatStore(): (s: Store)
  {
    [Tensor([2], [0], [1, 1]), Tensor([3], [0], [1, 1]), Tensor([0], [0], [1, 1]), Tensor([0], [0], [1, 1])]
  }

  /** The product of two 1 x 1 matrices. */
  lemma OneByOne(a: int, b: int)
    ensures MatMul([a], [b], 1, 1, 1) == [a * b]
  {
    FlatSplit(0, 1, 1);
    assert RowOf([a], 1, 1, 0) == [a] && ColOf([b], 1, 1, 0) == [b];
    assert Dot([a], [b]) == a * b + Dot([], []);
  }

  /** Four 1 x 1 buffers are ready for the graph, which is singly owned. */
  lemma SharedMatReady(s: Store)
    requires |s| == 4
    requires forall h :: 0 <= h < 4 ==> |s[h].value| == 1 && |s[h].grad| == 1 && s[h].dim == [1, 1]
    ensures S.Ready(SharedMatGraph(), s) && Owned(SharedMatGraph())
  {
    SizeOfMatrix(1, 1);
    assert StoreValid(s);
    var d := Dims(s);
    assert d == [[1, 1], [1, 1], [1, 1], [1, 1]];
    var m := MatmulNode(Leaf(0), Leaf(1), 2);
    assert WellFormed(Leaf(0), d) && WellFormed(Leaf(1), d);
    assert MatmulShapes(d[0], d[1], d[2]);
    assert WellFormed(m, d);
    assert Subnodes(m) == {m, Leaf(0), Leaf(1)};
    assert Subnodes(SharedMatGraph()) == {SharedMatGraph(), m, Leaf(0), Leaf(1)};
  }

  /** m's forward at x = [[2]], y = [[3]]: as written it adds x y = 6 into
      the output value `c` it finds; corrected it stores 6. */
  lemma SharedMatStep(s: Store, c: int, d: int, overwrite: bool)
    requires s == [Tensor([2], [0], [1, 1]), Tensor([3], [0], [1, 1]), Tensor([c], [0], [1, 1]), Tensor([d], [0], [1, 1])]
    ensures S.Ready(SharedMatGraph(), s)
    ensures S.Forward(MatmulNode(Leaf(0), Leaf(1), 2), s, overwrite)
         == s[2 := Tensor([if overwrite then 6 else c + 6], [0], [1, 1])]
  {
    SharedMatReady(s);
    var m := MatmulNode(Leaf(0), Leaf(1), 2);
    OneByOne(2, 3);
    assert S.MatrixProduct([2], [1, 1], [3], [1, 1]) == [6];
    assert ElemAdd([c], [6]) == [c + 6];
    assert S.Forward(m, s, overwrite) == S.Combine(m, s, overwrite);
  }

  /** As written: `forward` runs m's step once along each path, and each
      run adds x y = 6 into m's output, so one forward from fresh outputs
      leaves m = 12 and r = 24 where the expressions denote 6 and 12. */
  lemma SharedMatmulForward()
    ensures S.Ready(SharedMatGraph(), SharedMatStore())
    ensures var r := S.Forward(SharedMatGraph(), SharedMatStore());
      r[2].value == [12] && r[3].value == [24]
  {
    var s := SharedMatStore();
    var m := MatmulNode(Leaf(0), Leaf(1), 2);
    SharedMatStep(s, 0, 0, false);
    var s1 := s[2 := Tensor([6], [0], [1, 1])];
    SharedMatStep(s1, 6, 0, false);
    var s2 := s[2 := Tensor([12], [0], [1, 1])];
    SharedMatReady(s2);
    assert ElemAdd([12], [12]) == [24];
    assert S.Forward(SharedMatGraph(), s) == S.Combine(SharedMatGraph(), s2);
  }

  /** Corrected: m's step stores its product, so the second run along the
      other path recomputes the same value: m = 6 and r = 12. */
  lemma SharedMatmulForwardFixed()
    ensures S.Ready(SharedMatGraph(), SharedMatStore())
    ensures var r := S.Forward(SharedMatGraph(), SharedMatStore(), true);
      r[2].value == [6] && r[3].value == [12]
  {
    var s := SharedMatStore();
    var m := MatmulNode(Leaf(0), Leaf(1), 2);
    SharedMatStep(s, 0, 0, true);
    var s1 := s[2 := Tensor([6], [0], [1, 1])];
    SharedMatStep(s1, 6, 0, true);
    SharedMatReady(s1);
    assert ElemAdd([6], [6]) == [12];
    assert S.Forward(SharedMatGraph(), s, true) == S.Combine(SharedMatGraph(), s1, true);
  }

  // ---------------------------------------------------------------------
  // add_test and product_test: two [10] leaves

  lemma FillArith(n: nat, a: int, b: int)
    ensures ElemAdd(Fill(n, a), Fill(n, b)) == Fill(n, a + b)
    ensures ElemMul(Fill(n, a), Fill(n, b)) == Fill(n, a * b)
  {
    assert forall i :: 0 <= i < n ==> ElemAdd(Fill(n, a), Fill(n, b))[i] == Fill(n, a + b)[i];
    assert forall i :: 0 <= i < n ==> ElemMul(Fill(n, a), Fill(n, b))[i] == Fill(n, a * b)[i];
  }

  lemma VectorFacts()
    ensures Size([10]) == 10
    ensures New([10]) == Tensor(Fill(10, 0), Fill(10, 0), [10])
  {
    assert [10][1..] == [];
  }

  /** Leaves x = 0 and y = 1 filled with `a` and `b`; output 2 filled with
      `c`, with gradient filled with `g`. */
  function PairStore(a: int, b: int, c: int, g: int): (s: Store)
  {
    [Tensor(Fill(10, a), Fill(10, 0), [10]), Tensor(Fill(10, b), Fill(10, 0), [10]),
     Tensor(Fill(10, c), Fill(10, g), [10])]
  }

  function PairGraph(product: bool): (n: Node)
  {
    if product then ProductNode(Leaf(0), Leaf(1), 2) else AddNode(Leaf(0), Leaf(1), 2)
  }

  lemma PairReady(product: bool, s: Store)
    requires |s| == 3
    requires forall h :: 0 <= h < 3 ==> |s[h].value| == 10 && |s[h].grad| == 10 && s[h].dim == [10]
    ensures S.Ready(PairGraph(product), s)
  {
    VectorFacts();
    assert StoreValid(s);
    assert Dims(s) == [[10], [10], [10]];
  }

  lemma PairForward(product: bool, a: int, b: int)
    ensures S.Ready(PairGraph(product), PairStore(a, b, 0, 0))
    ensures S.Forward(PairGraph(product), PairStore(a, b, 0, 0))
         == PairStore(a, b, if product then a * b else a + b, 0)
  {
    var s := PairStore(a, b, 0, 0);
    PairReady(product, s);
    FillArith(10, a, b);
    assert S.Forward(PairGraph(product), s) == S.Combine(PairGraph(product), s);
  }

  lemma PairSeed(product: bool, a: int, b: int, c: int)
    ensures StoreValid(PairStore(a, b, c, 0)) && InRange(PairGraph(product), 3)
    ensures S.SetGrad(PairGraph(product), PairStore(a, b, c, 0)) == PairStore(a, b, c, 1)
  {
    PairReady(product, PairStore(a, b, c, 0));
  }

  lemma PairBackward(product: bool, a: int, b: int, c: int)
    ensures S.Ready(PairGraph(product), PairStore(a, b, c, 1))
    ensures S.Backward(PairGraph(product), PairStore(a, b, c, 1))[0].grad == Fill(10, if product then b else 1)
    ensures S.Backward(PairGraph(product), PairStore(a, b, c, 1))[1].grad == Fill(10, if product then a else 1)
  {
    var s := PairStore(a, b, c, 1);
    PairReady(product, s);
    var r := S.Backward(PairGraph(product), s);
    if product {
      S.ProductBackwardLeaves(0, 1, 2, s);
    } else {
      S.AddBackwardLeaves(0, 1, 2, s);
    }
    assert r[0].grad == Fill(10, if product then b else 1);
    assert r[1].grad == Fill(10, if product then a else 1);
  }

  /** The run of both pair tests on the model: forward, `set_grad`, then
      `backward`, from leaves filled with `a` and `b`. */
  lemma PairRun(product: bool, a: int, b: int)
    ensures S.Ready(PairGraph(product), PairStore(a, b, 0, 0))
    ensures StoreValid(PairForwarded(product, a, b))
         && InRange(PairGraph(product), |PairForwarded(product, a, b)|)
    ensures S.Ready(PairGraph(product), PairSeeded(product, a, b))
    ensures S.Backward(PairGraph(product), PairSeeded(product, a, b))[2].value
         == Fill(10, if product then a * b else a + b)
    ensures S.Backward(PairGraph(product), PairSeeded(product, a, b))[0].grad
         == Fill(10, if product then b else 1)
  {
    var c := if product then a * b else a + b;
    PairForward(product, a, b);
    PairSeed(product, a, b, c);
    PairBackward(product, a, b, c);
    assert PairSeeded(product, a, b) == PairStore(a, b, c, 1);
  }

  /** The arena after the pair graph's forward pass. */
  function PairForwarded(product: bool, a: int, b: int): (s: Store)
    requires S.Ready(PairGraph(product), PairStore(a, b, 0, 0))
  {
    S.Forward(PairGraph(product), PairStore(a, b, 0, 0))
  }

  /** The arena after forward and `set_grad` of the pair graph. */
  function PairSeeded(product: bool, a: int, b: int): (s: Store)
    requires S.Ready(PairGraph(product), PairStore(a, b, 0, 0))
    requires StoreValid(PairForwarded(product, a, b))
    requires InRange(PairGraph(product), |PairForwarded(product, a, b)|)
  {
    S.SetGrad(PairGraph(product), PairForwarded(product, a, b))
  }

  /** `add_test` (src/node.rs): x = 10, y = 5 everywhere gives x + y = 15
      everywhere and dz/dx = 1. */
  method AddTest() returns (z: seq<int>, xGrad: seq<int>)
    ensures z == Fill(10, 15) && xGrad == Fill(10, 1)
  {
    VectorFacts();
    var g := new Arena();
    var x := g.NewTensor([10]);
    var y := g.NewTensor([10]);
    g.SetInput(x, Fill(10, 10));
    g.SetInput(y, Fill(10, 5));
    var n := g.Add(Leaf(x), Leaf(y));
    assert n == PairGraph(false) && g.bufs == PairStore(10, 5, 0, 0);
    PairRun(false, 10, 5);
    g.Forward(n);
    g.SetGrad(n);
    g.Backward(n);
    z := g.bufs[n.Out()].value;
    xGrad := g.bufs[x].grad;
  }

  /** `product_test` (src/node.rs): x = 2, y = 5 everywhere gives x * y = 10
      everywhere and dz/dx = y = 5. */
  method ProductTest() returns (z: seq<int>, xGrad: seq<int>)
    ensures z == Fill(10, 10) && xGrad == Fill(10, 5)
  {
    VectorFacts();
    var g := new Arena();
    var x := g.NewTensor([10]);
    var y := g.NewTensor([10]);
    var n := g.Product(Leaf(x), Leaf(y));
    assert g.bufs == PairStore(0, 0, 0, 0);
    g.SetInput(x, Fill(10, 2));
    g.SetInput(y, Fill(10, 5));
    assert n == PairGraph(true) && g.bufs == PairStore(2, 5, 0, 0);
    PairRun(true, 2, 5);
    g.Forward(n);
    g.SetGrad(n);
    g.Backward(n);
    z := g.bufs[n.Out()].value;
    xGrad := g.bufs[x].grad;
  }

  // ---------------------------------------------------------------------
  // matmul_test: [1, 3] times [3, 5]

  /** x = [[1, 2, 3]]. */
  function RowX(): (v: seq<int>)
  {
    seq(3, i => i + 1)
  }

  /** y: three rows [1, 2, 3, 4, 5]. */
  function RowsY(): (v: seq<int>)
  {
    seq(15, i => i % 5 + 1)
  }

  lemma DotFirst(u: seq<int>, v: seq<int>)
    requires |u| == |v| && 0 < |u|
    ensures Dot(u, v) == u[0] * v[0] + Dot(u[1..], v[1..])
  {
  }

  lemma Dot3(u: seq<int>, v: seq<int>)
    requires |u| == 3 && |v| == 3
    ensures Dot(u, v) == u[0] * v[0] + u[1] * v[1] + u[2] * v[2]
  {
    DotFirst(u, v);
    DotFirst(u[1..], v[1..]);
    DotFirst(u[2..], v[2..]);
    assert u[1..][1..] == u[2..] && v[1..][1..] == v[2..];
    assert u[2..][1..] == [] && v[2..][1..] == [];
  }

  lemma Dot5(u: seq<int>, v: seq<int>)
    requires |u| == 5 && |v| == 5
    ensures Dot(u, v) == u[0] * v[0] + u[1] * v[1] + u[2] * v[2] + u[3] * v[3] + u[4] * v[4]
  {
    DotFirst(u, v);
    DotFirst(u[1..], v[1..]);
    assert u[1..][1..] == u[2..] && v[1..][1..] == v[2..];
    Dot3(u[2..], v[2..]);
  }

  /** Column j of y is three copies of j + 1. */
  lemma ColOfRowsY(j: nat)
    requires j < 5
    ensures ColOf(RowsY(), 3, 5, j) == [j + 1, j + 1, j + 1]
  {
    forall p | 0 <= p < 3
      ensures ColOf(RowsY(), 3, 5, j)[p] == j + 1
    {
      FlatIndex(p, j, 3, 5);
    }
  }

  /** Entry j of x * y is 1 (j + 1) + 2 (j + 1) + 3 (j + 1). */
  lemma MatmulTestEntry(j: nat)
    requires j < 5
    ensures |MatMul(RowX(), RowsY(), 1, 3, 5)| == 5
    ensures MatMul(RowX(), RowsY(), 1, 3, 5)[j] == 6 * (j + 1)
  {
    MatMulAt(RowX(), RowsY(), 1, 3, 5, 0, j);
    FlatIndex(0, j, 1, 5);
    assert RowOf(RowX(), 1, 3, 0) == [1, 2, 3];
    ColOfRowsY(j);
    Dot3([1, 2, 3], [j + 1, j + 1, j + 1]);
  }

  /** x * y = [[6, 12, 18, 24, 30]]. */
  lemma MatmulTestProduct()
    ensures S.MatrixProduct(RowX(), [1, 3], RowsY(), [3, 5]) == [6, 12, 18, 24, 30]
  {
    SizeOfMatrix(1, 3);
    SizeOfMatrix(3, 5);
    SizeOfMatrix(1, 5);
    var c := S.MatrixProduct(RowX(), [1, 3], RowsY(), [3, 5]);
    assert c == MatMul(RowX(), RowsY(), 1, 3, 5);
    forall j | 0 <= j < 5
      ensures c[j] == 6 * (j + 1)
    {
      MatmulTestEntry(j);
    }
  }

  lemma OnesRow()
    ensures RowOf(Fill(5, 1), 1, 5, 0) == [1, 1, 1, 1, 1]
  {
    forall q | 0 <= q < 5
      ensures RowOf(Fill(5, 1), 1, 5, 0)[q] == 1
    {
      FlatIndex(0, q, 1, 5);
    }
  }

  lemma RowOfRowsY(k: nat)
    requires k < 3
    ensures RowOf(RowsY(), 3, 5, k) == [1, 2, 3, 4, 5]
  {
    forall q | 0 <= q < 5
      ensures RowOf(RowsY(), 3, 5, k)[q] == q + 1
    {
      FlatIndex(k, q, 3, 5);
    }
  }

  lemma MatmulTestLeftEntry(o: seq<int>, t: seq<int>, k: nat)
    requires o == Fill(5, 1) && t == Transpose(RowsY(), 3, 5) && k < 3
    ensures |t| == 5 * 3 && MatMul(o, t, 1, 5, 3)[k] == 15
  {
    MatMulAt(o, t, 1, 5, 3, 0, k);
    FlatIndex(0, k, 1, 3);
    ColOfTranspose(RowsY(), 3, 5, k);
    RowOfRowsY(k);
    OnesRow();
    Dot5([1, 1, 1, 1, 1], [1, 2, 3, 4, 5]);
  }

  /** dz * y^T with dz = ones [1, 5]: each entry of x's gradient is
      1 + 2 + 3 + 4 + 5 = 15. */
  lemma MatmulTestLeftGrad()
    ensures S.LeftGrad(Fill(5, 1), [1, 5], RowsY(), [3, 5]) == [15, 15, 15]
  {
    SizeOfMatrix(1, 5);
    SizeOfMatrix(3, 5);
    SizeOfMatrix(5, 3);
    SizeOfMatrix(1, 3);
    var t := S.Reversed(RowsY(), [3, 5]);
    assert t == Transpose(RowsY(), 3, 5);
    var c := S.LeftGrad(Fill(5, 1), [1, 5], RowsY(), [3, 5]);
    assert c == MatMul(Fill(5, 1), t, 1, 5, 3);
    MatmulTestLeftEntry(Fill(5, 1), t, 0);
    MatmulTestLeftEntry(Fill(5, 1), t, 1);
    MatmulTestLeftEntry(Fill(5, 1), t, 2);
  }

  /** x^T * dz with dz = ones [1, 5]: row k of y's gradient is x's k-th
      entry, k + 1, five times. */
  lemma MatmulTestRightGrad()
    ensures S.RightGrad(RowX(), [1, 3], Fill(5, 1), [1, 5]) == seq(15, i => i / 5 + 1)
  {
    SizeOfMatrix(1, 5);
    SizeOfMatrix(1, 3);
    SizeOfMatrix(3, 1);
    SizeOfMatrix(3, 5);
    var t := S.Reversed(RowX(), [1, 3]);
    assert t == Transpose(RowX(), 1, 3);
    var c := S.RightGrad(RowX(), [1, 3], Fill(5, 1), [1, 5]);
    assert c == MatMul(t, Fill(5, 1), 3, 1, 5);
    forall idx | 0 <= idx < 15
      ensures c[idx] == idx / 5 + 1
    {
      FlatSplit(idx, 3, 5);
      var k, j := idx / 5, idx % 5;
      FlatIndex(k, j, 3, 5);
      MatMulAt(t, Fill(5, 1), 3, 1, 5, k, j);
      RowOfTranspose(RowX(), 1, 3, k);
      FlatIndex(0, k, 1, 3);
      assert ColOf(RowX(), 1, 3, k) == [k + 1];
      FlatIndex(0, j, 1, 5);
      assert ColOf(Fill(5, 1), 1, 5, j) == [1];
    }
  }

  function MatGraph(): (n: Node)
  {
    MatmulNode(Leaf(0), Leaf(1), 2)
  }

  /** x, y and a zero output of shape [1, 5]; the output gradient `g`. */
  function MatStore(zv: seq<int>, g: seq<int>): (s: Store)
  {
    [Tensor(RowX(), Fill(3, 0), [1, 3]), Tensor(RowsY(), Fill(15, 0), [3, 5]), Tensor(zv, g, [1, 5])]
  }

  lemma MatReady(zv: seq<int>, g: seq<int>)
    requires |zv| == 5 && |g| == 5
    ensures S.Ready(MatGraph(), MatStore(zv, g)) && Owned(MatGraph())
  {
    SizeOfMatrix(1, 3);
    SizeOfMatrix(3, 5);
    SizeOfMatrix(1, 5);
    var s := MatStore(zv, g);
    assert StoreValid(s);
    assert Dims(s) == [[1, 3], [3, 5], [1, 5]];
    assert Subnodes(MatGraph()) == {MatGraph(), Leaf(0), Leaf(1)};
  }

  lemma MatmulTestForward()
    ensures S.Ready(MatGraph(), MatStore(Fill(5, 0), Fill(5, 0)))
    ensures S.Forward(MatGraph(), MatStore(Fill(5, 0), Fill(5, 0))) == MatStore([6, 12, 18, 24, 30], Fill(5, 0))
  {
    var s := MatStore(Fill(5, 0), Fill(5, 0));
    MatReady(Fill(5, 0), Fill(5, 0));
    S.MatmulForward(MatGraph(), s);
    MatmulTestProduct();
    assert S.Eval(MatGraph(), s) == [6, 12, 18, 24, 30];
    S.ForwardFrame(MatGraph(), s);
    var r := S.Forward(MatGraph(), s);
    assert r[0] == s[0] && r[1] == s[1];
    assert r[2].grad == s[2].grad && r[2].dim == s[2].dim;
  }

  lemma MatSeed()
    ensures StoreValid(MatStore([6, 12, 18, 24, 30], Fill(5, 0))) && InRange(MatGraph(), 3)
    ensures S.SetGrad(MatGraph(), MatStore([6, 12, 18, 24, 30], Fill(5, 0)))
         == MatStore([6, 12, 18, 24, 30], Fill(5, 1))
  {
    MatReady([6, 12, 18, 24, 30], Fill(5, 0));
    SizeOfMatrix(1, 5);
  }

  lemma MatmulTestBackward()
    ensures S.Ready(MatGraph(), MatStore([6, 12, 18, 24, 30], Fill(5, 1)))
    ensures var r := S.Backward(MatGraph(), MatStore([6, 12, 18, 24, 30], Fill(5, 1)));
      r[0].grad == [15, 15, 15] && r[1].grad == seq(15, i => i / 5 + 1)
  {
    var s := MatStore([6, 12, 18, 24, 30], Fill(5, 1));
    MatReady([6, 12, 18, 24, 30], Fill(5, 1));
    S.MatmulBackwardLeaves(0, 1, 2, s);
    MatmulTestLeftGrad();
    MatmulTestRightGrad();
    ElemAddZero(Fill(3, 0), [15, 15, 15]);
    ElemAddZero(Fill(15, 0), seq(15, i => i / 5 + 1));
  }

  /** `matmul_test` (src/node.rs): [[1, 2, 3]] times three rows
      [1, 2, 3, 4, 5] is [[6, 12, 18, 24, 30]]; from a seed of ones, x's
      gradient is ones * y^T = [[15, 15, 15]] and y's is x^T * ones, rows of
      1s, 2s and 3s. */
  method MatmulTest() returns (z: seq<int>, xGrad: seq<int>, yGrad: seq<int>)
    ensures z == [6, 12, 18, 24, 30]
    ensures xGrad == [15, 15, 15]
    ensures |yGrad| == 15 && forall i :: 0 <= i < 15 ==> yGrad[i] == i / 5 + 1
  {
    var g, n := MatmulTestBuild();
    MatmulTestForward();
    g.Forward(n);
    MatSeed();
    g.SetGrad(n);
    MatmulTestBackward();
    g.Backward(n);
    z := g.bufs[n.Out()].value;
    xGrad := g.bufs[0].grad;
    yGrad := g.bufs[1].grad;
  }

  /** The buffers and the node of `matmul_test`, before any input. */
  method MatmulTestAlloc() returns (g: Arena, n: Node)
    ensures fresh(g) && n == MatGraph() && g.bufs == [New([1, 3]), New([3, 5]), New([1, 5])]
  {
    g := new Arena();
    var x := g.NewTensor([1, 3]);
    var y := g.NewTensor([3, 5]);
    n := g.Matmul(Leaf(x), Leaf(y), [1, 5]);
  }

  /** Adding inputs `u` and `v` into the fresh buffers of x and y. */
  lemma MatInputs(b: Store, u: seq<int>, v: seq<int>)
    requires b == [New([1, 3]), New([3, 5]), New([1, 5])] && |u| == 3 && |v| == 15
    ensures |b[0].value| == 3 && |b[1].value| == 15
    ensures var b1 := b[0 := b[0].(value := ElemAdd(b[0].value, u))];
      |b1[1].value| == 15 &&
      b1[1 := b1[1].(value := ElemAdd(b1[1].value, v))]
      == [Tensor(u, Fill(3, 0), [1, 3]), Tensor(v, Fill(15, 0), [3, 5]), Tensor(Fill(5, 0), Fill(5, 0), [1, 5])]
  {
    SizeOfMatrix(1, 3);
    SizeOfMatrix(3, 5);
    SizeOfMatrix(1, 5);
    ElemAddZero(Fill(3, 0), u);
    ElemAddZero(Fill(15, 0), v);
  }

  /** The graph of `matmul_test` with its inputs written. */
  method MatmulTestBuild() returns (g: Arena, n: Node)
    ensures fresh(g) && n == MatGraph() && g.bufs == MatStore(Fill(5, 0), Fill(5, 0))
  {
    g, n := MatmulTestAlloc();
    MatInputs(g.bufs, RowX(), RowsY());
    g.SetInput(0, ElemAdd(g.bufs[0].value, RowX()));
    g.SetInput(1, ElemAdd(g.bufs[1].value, RowsY()));
  }
}
