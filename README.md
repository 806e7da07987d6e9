# autograd: a Dafny model of the graph engine

The model covers the reverse-mode differentiation engine of `autograd`.
A computation graph is built from leaf tensors and three operation nodes:
`add`, `product` (elementwise) and `matmul` (2-D matrix product). The
graph supports these calls:
- `forward` computes node values;
- `set_grad` seeds the root's gradient with ones;
- `backward` propagates gradients from the root down to the leaves;
- `zero_grad` clears the gradients of the node and of its two direct
  children, and goes no deeper.

Each tensor holds a value array (the field the source calls `input`), a
gradient array and a shape.

The model follows the program's structure:

- `Tensors` (tensor.dfy) covers buffers:
  - a buffer is a value array, a gradient array and a shape;
  - arrays are flattened row-major into `seq<int>`;
  - the module defines elementwise sum and product, `zeros`/`ones` (`Fill`) and `Tensor::new`.
- `Matrices` (matrix.dfy) holds row-major matrices, the matrix product and
  transposition. It specifies the array library's `general_mat_mul` and
  `reversed_axes` by their entries.
- `Graph` (graph.dfy) covers the graph itself:
  - the arena of buffers (`Store`) and handles;
  - the closed sum type `Node` over leaf, add, product and matmul;
  - the shape conditions under which the engine runs without a fatal
    error: `WellFormed`, and `Validate`, which reports the first error;
  - single ownership of buffers (`Owned`).
- `Semantics` (semantics.dfy) gives the effect of each node operation on
  the whole arena as a function: `Forward`, `Backward`, `ZeroGrad`,
  `SetGrad` and `ResetGrad`. It proves what the engine computes about them.
- `Functions` (function.rs's constructors, function.dfy): `add`, `product`
  and `matmul` each allocate one fresh zero buffer. The module proves when
  the built graph is free of shape errors and singly owned.
- `Nodes` (node.dfy) is the engine as it runs:
  - an `Arena` object owns every buffer;
  - each method updates the buffers in place, as the unsafe cell writes of
    the source do;
  - each method is proved equal to its `Semantics` function.
- `Scenarios` (scenarios.dfy) replays the calls of the repository's tests
  through the `Arena` and proves their results. It also proves the
  results of three further graphs: `SharedGraph` and `SharedMatGraph`,
  each with an operation node reached along two paths, and `DeepGraph`,
  on which the tests' reset loop is run twice.

The tests fix what the engine is meant to compute: the gradients of the
chain rule. tests/three_elem_graph.rs:21 expects x's gradient after one
`backward` of y = x * x + x at x = 3 to be 7, which is dy/dx there. Where
the chain rule and the code disagree, the model follows the code:

- **Shared operation nodes.** By the chain rule, each path from the root
  contributes its own part, and a node passes on to its children only the
  part that arrived along the current path. The code instead passes an
  operation node's whole accumulated gradient down every time the node is
  reached. So when an operation node is reached along two paths, every
  buffer below it is over-counted, a leaf included: y = p + p with
  p = x * x at x = 3 gives x the gradient 24 instead of 12.
- **Repeated backward.** `backward` adds into gradients with `+=`, and
  `zero_grad` exists to clear them, so gradients accumulate across calls.
  The derivative is linear in the seed, so a second `backward` without
  `zero_grad` should add what the first added, doubling every gradient.
  The code does so only for a single operation over leaves. Deeper graphs
  gain more on the second call, because the interior gradients left by the
  first pass are propagated again.
- **Shallow `zero_grad` in a reset loop.** The test resets with
  `zero_grad`, `set_grad`, `forward` and `backward`, in that order. Run
  twice, that loop should give the same gradients each time. But
  `zero_grad` clears only the root's and its direct children's
  gradients, and `backward` re-sends every interior gradient it finds.
  So on a graph three levels deep, the second round over-counts. On
  y = (x * x + x) + x at x = 3, x's gradient is 8 (dy/dx) after the first
  round and 14 after the second.
- **Shared matmul in forward.** `add` and `product` store their result,
  but `matmul` adds its product into its output, and `forward` runs a node
  once along each path to it. So a matmul reached along two paths is wrong
  after a single `forward`.

All four are listed under Findings. `Nodes.Arena.Backward` and the default
`Semantics.Forward` are the code as written. `Semantics.BackwardFrom` and
`Nodes.Arena.BackwardFrom` are the corrected backward pass, and
`Semantics.Forward` with `overwrite` set is the corrected forward.

## Model

| member | source | states |
|---|---|---|
| Tensors.New | src/tensor.rs:15-22 | a fresh buffer has the given shape, and value and gradient are zero arrays of that shape's size (one element for the scalar shape) |
| Tensors.Fill | src/node.rs:32-37 | `zeros`/`ones`: an array of the given length whose every entry is the constant |
| Tensors.ElemAdd | src/node.rs:87 | elementwise sum: same length, entry i is a[i] + b[i] |
| Tensors.ElemMul | src/node.rs:144 | elementwise product: same length, entry i is a[i] * b[i] |
| Tensors.ElemAddZero | src/node.rs:207 | adding into a zero array yields the added array, so matmul's accumulate into a fresh output is the product |
| Matrices.MatMulAt | src/node.rs:206 | entry (i, j) of the product is the dot product of row i of the left operand and column j of the right one |
| Matrices.TransposeAt | src/node.rs:220-221 | entry (j, i) of the transposed matrix is entry (i, j) of the original |
| Matrices.TransposeTwice | src/node.rs:220-221 | transposing twice gives back the matrix |
| Matrices.RowOfTranspose | src/node.rs:220-221 | row j of the transpose is column j of the original |
| Matrices.ColOfTranspose | src/node.rs:220-221 | column i of the transpose is row i of the original |
| Matrices.DotComm | src/node.rs:220-221 | the dot product is symmetric |
| Matrices.MatMulTranspose | src/node.rs:220-221 | (A B)^T = B^T A^T for the matrix product and transposition that matmul's backward uses |
| Semantics.MatmulGradTranspose | src/node.rs:213-221 | matmul's two gradients agree under transposition: y's gradient x^T dz in z = x y is the transpose of the left operand's gradient in z^T = y^T x^T |
| Graph.Validate | src/node.rs:196-209 | the first fatal shape error of forward is reported exactly when the graph is not well formed; a dimensionality error arises only where a matmul node is present |
| Graph.SubnodeRank | src/function.rs:18-22 | every node below a node is strictly smaller, so graphs are acyclic by construction |
| Graph.LeafNotOp | src/function.rs:10-15 | in a singly owned graph no leaf buffer is an operation's output buffer |
| Graph.RootNotBelow | src/function.rs:10-15 | in a singly owned graph an operation's output buffer is not one of its descendants' buffers |
| Semantics.Forward | src/node.rs:80-89 | the forward pass, as written or with matmul storing its product, changes no gradient and keeps the arena's size and shapes |
| Semantics.Combine | src/node.rs:196-209 | a node's own step writes only the node's output value and no gradient |
| Semantics.ForwardFrame | src/node.rs:137-146 | forward writes only the output buffers of the graph's operation nodes; leaf values are untouched |
| Semantics.CombineEval | src/node.rs:80-89 | once the children hold their values, add and product store the node's value; matmul as written adds it to its old output, and corrected stores it |
| Semantics.ForwardComputes | src/node.rs:80-89 | after forward every node's buffer holds the node's mathematical value: as written on a singly owned graph of adds and products, corrected on every singly owned graph |
| Semantics.ForwardIdempotent | src/node.rs:137-146 | forward run twice equals forward run once: as written for adds and products, corrected for every singly owned graph |
| Semantics.MatmulForward | src/node.rs:196-209 | matmul's forward adds the matrix product of its operands' values into its old output, which on a fresh zero output is the product itself |
| Semantics.MatmulForwardTwice | src/node.rs:207 | a second matmul forward adds the product a second time (accumulation, not overwrite) |
| Semantics.AccumGrad | src/node.rs:96-97 | the gradient of one buffer gains the added array entrywise, and nothing else changes |
| Semantics.Contribute | src/node.rs:148-157 | a node's own backward step changes only its children's gradients and no value |
| Semantics.Backward | src/node.rs:91-101 | the backward pass (as written) changes no value and keeps the arena's size and shapes |
| Semantics.BackwardFrame | src/node.rs:211-228 | backward writes only the gradients of buffers below the root; an owned root's own buffer is unchanged |
| Semantics.AddBackwardLeaves | src/node.rs:91-101 | add over two leaves: each leaf's gradient gains the output gradient, twice when both operands are the same leaf |
| Semantics.ProductBackwardLeaves | src/node.rs:148-160 | product over two leaves: x's gradient gains dz ⊙ y and y's gains dz ⊙ x (elementwise products); when both operands are the same leaf it gains both; the output buffer is unchanged |
| Semantics.MatmulBackwardLeaves | src/node.rs:211-228 | matmul over two leaves: x gains dz y^T and y gains x^T dz (both, for one shared leaf) |
| Semantics.OneLevelBackwardTwice | src/node.rs:91-101 | for one operation over leaves, a second backward adds exactly what the first added |
| Semantics.ResetGrad | src/node.rs:32-37 | `reset_grad`: that buffer's gradient becomes zeros of its shape, and nothing else changes |
| Semantics.ZeroGrad | src/node.rs:103-107 | `zero_grad` zeroes the gradients of the node's own buffer and its two children's buffers (a leaf's only), and nothing else |
| Semantics.SetGrad | src/node.rs:109-113 | `set_grad`: the root's gradient becomes ones, and nothing else changes |
| Semantics.BackwardFrom | src/node.rs:91-101 | the corrected pass changes no value and keeps the arena's size and shapes |
| Semantics.BackwardFromFrame | src/node.rs:148-160 | the corrected pass writes only gradients below the node |
| Semantics.BackwardFromShift | src/node.rs:96-97 | what the corrected pass adds to each gradient depends only on the values, not on the gradients it starts from |
| Semantics.BackwardFromTwice | src/node.rs:91-101 | on every singly owned graph, a second corrected pass adds exactly what the first added (two passes double the gradient gained) |
| Semantics.OneLevelAgrees | src/node.rs:91-101 | for one operation over leaves the corrected pass and the code as written coincide |
| Semantics.ContributeGains | src/node.rs:91-101 | a node's own backward step adds its local gradient for the node's gradient into x's and y's gradients (both, when x and y are one buffer), and is the corrected pass's spread |
| Semantics.TreeAgrees | src/node.rs:91-101 | on a singly owned graph where no operation node is reached along two paths and every interior gradient is zero, `backward` as written equals the corrected pass seeded with the root's gradient |
| Semantics.LocalChainRule | src/node.rs:148-160 | what a sum or product passes to each child, times that child's derivative, adds up to the incoming gradient times the node's derivative (sum and product rules) |
| Semantics.BackwardFromDerivative | src/node.rs:148-160 | the chain rule: on a graph of adds and products whose buffers hold their values, the corrected pass from dz adds dz times the root's derivative to every element of every buffer no operation owns |
| Semantics.ForwardBackwardDerivative | src/node.rs:80-101 | after forward, the corrected pass from a seed of ones adds to each such buffer the root's derivative with respect to it |
| Functions.Add | src/function.rs:7-16 | `add` appends one fresh zero buffer of x's shape and returns an add node over x and y owning it |
| Functions.Product | src/function.rs:7-16 | `product` appends one fresh zero buffer of x's shape and returns a product node over x and y owning it |
| Functions.Matmul | src/function.rs:30-39 | `matmul` appends one fresh zero buffer of the caller's shape and returns a matmul node owning it |
| Functions.BuiltInRange | src/function.rs:10-15 | a built node names only buffers of the extended arena |
| Functions.WellFormedExtend | src/function.rs:10 | appending a buffer does not change the shape checks of an existing graph |
| Functions.ElementwiseReady | src/function.rs:7-16 | a built add or product runs without shape error exactly when both operands do and have the same shape |
| Functions.MatmulReady | src/function.rs:30-39 | a built matmul runs without shape error exactly when both operands do and [m, k] times [k, n] gives the declared [m, n] |
| Functions.BuildOwned | src/function.rs:10-15 | a node over a fresh buffer is singly owned exactly when its operands' graphs together are |
| Nodes.Arena.constructor | src/tensor.rs:8-12 | an arena, the holder of every `Tensor` buffer, starts with no buffers |
| Nodes.Arena.NewTensor | src/tensor.rs:15-22 | appends `Tensor::new(dim)` and returns its handle |
| Nodes.Arena.SetInput | src/node.rs:24-26 | a write through `get_input` replaces that buffer's value and nothing else |
| Nodes.Arena.Add | src/function.rs:7-16 | the arena and node after `add` are those of `Functions.Add` |
| Nodes.Arena.Product | src/function.rs:7-16 | the arena and node after `product` are those of `Functions.Product` |
| Nodes.Arena.Matmul | src/function.rs:30-39 | the arena and node after `matmul` are those of `Functions.Matmul` |
| Nodes.Arena.ResetGrad | src/node.rs:69-74 | the arena after `reset_grad` is `Semantics.ResetGrad` of the old one |
| Nodes.Arena.ZeroGrad | src/node.rs:103-107 | the arena after `zero_grad` is `Semantics.ZeroGrad` of the old one |
| Nodes.Arena.SetGrad | src/node.rs:109-113 | the arena after `set_grad` is `Semantics.SetGrad` of the old one |
| Nodes.Arena.Forward | src/node.rs:80-89 | the arena after the in-place `forward` is `Semantics.Forward` of the old one |
| Nodes.Arena.Backward | src/node.rs:91-101 | the arena after the in-place `backward` is `Semantics.Backward` of the old one |
| Nodes.Arena.BackwardFrom | src/node.rs:148-160 | the arena after the corrected in-place pass is `Semantics.BackwardFrom` of the old one |
| Scenarios.ThreeElem | tests/three_elem_graph.rs:3-23 | y = x * x + x at x = 3 gives y = 12 and dy/dx = 7 |
| Scenarios.ThreeElemBackwardAgain | tests/three_elem_graph.rs:17 | a second backward on that graph takes x's gradient from 7 to 20, not 14 |
| Scenarios.ThreeElemDerivative | tests/three_elem_graph.rs:21 | the derivative of x * x + x at x = 3 is 7, the test's expected gradient |
| Scenarios.ThreeElemTree | tests/three_elem_graph.rs:10-12 | the test's graph is singly owned with no shared operation node, and its interior gradient is zero exactly when tmp's is |
| Scenarios.ThreeElemFirstPassAgrees | tests/three_elem_graph.rs:14-17 | on the test's graph after `zero_grad` and `set_grad`, the first `backward` as written equals the corrected pass |
| Scenarios.AddTest | src/node.rs:251-267 | x = 10, y = 5 over [10] gives 15 everywhere, and x's gradient is ones |
| Scenarios.ProductTest | src/node.rs:269-288 | x = 2, y = 5 over [10] gives 10 everywhere, and x's gradient is 5 everywhere |
| Scenarios.MatmulTest | src/node.rs:290-308 | [[1, 2, 3]] times three rows [1..5] gives [[6, 12, 18, 24, 30]]; x's gradient is [[15, 15, 15]] and y's is rows of 1s, 2s and 3s |
| Scenarios.MatmulTestProduct | src/node.rs:303 | the matrix product of the test's inputs is [6, 12, 18, 24, 30] |
| Scenarios.MatmulTestLeftGrad | src/node.rs:220 | ones times y^T is [15, 15, 15] |
| Scenarios.MatmulTestRightGrad | src/node.rs:221 | x^T times ones is the 3 x 5 matrix of rows of 1s, 2s and 3s |
| Scenarios.SharedBackwardOvercounts | src/node.rs:91-101 | y = p + p, p = x * x at x = 3: backward as written gives x's gradient 24 |
| Scenarios.SharedBackwardFromChainRule | src/node.rs:148-160 | the same graph under the corrected pass gives d(2x^2)/dx = 12 |
| Scenarios.SharedTest | src/node.rs:91-101 | the arena run on that graph gives 24 as written and 12 under the corrected pass |
| Scenarios.SharedMatmulForward | src/node.rs:207 | m = matmul(x, y) with x = [[2]], y = [[3]] and r = add(&m, &m): one forward as written leaves m = 12 and r = 24 |
| Scenarios.SharedMatmulForwardFixed | src/node.rs:196-209 | the corrected forward on that graph leaves m = 6 and r = 12 |
| Scenarios.DeepCycleGrad | tests/three_elem_graph.rs:14-17 | one round of `zero_grad`, `set_grad`, `forward`, `backward` on y = (x * x + x) + x at x = 3 from any arena: as written x's gradient is 8 + 6g, where g is tmp's leftover gradient; corrected it is 8; both leave tmp's gradient at g + 1 |
| Scenarios.DeepResetTwice | src/node.rs:103-107 | as written, two rounds give x's gradient 8 + 6g and then 14 + 6g, so 8 and then 14 from fresh buffers |
| Scenarios.DeepResetTwiceFixed | src/node.rs:103-107 | under the corrected pass, both rounds give 8 |

## Left out

- Floating point: the element type `f32` is modelled as unbounded `int`. The tests' values are small integers, so rounding never arises in them.
- Broadcasting: an add or product whose operands' shapes differ from the output's is treated as a shape error, not broadcast. Outputs take x's shape, and the tests use equal shapes.
- Fatal errors: the `unwrap` of `into_dimensionality` and the panic of `general_mat_mul` on mismatched sizes are modelled as the precondition `Ready`, together with `Graph.Validate`, which names the error. No abort is modelled.
- Aliasing: the unsafe cells, raw pointers and lifetimes become handles into one arena. Graphs whose buffers live outside that arena are not modelled.
- Tensor storage: `Tensor` is a value inside the arena, not an object with array fields. The arena is the one object updated in place.
- Nodes.Arena.SetInput: requires an array of the buffer's current length. Through `get_input` a caller may write any array of any shape, and writes that change a buffer's size are not modelled.
- Pointers: `get_input`/`get_grad` are reads of `bufs[n.Out()]`. A caller's write through them is `Nodes.Arena.SetInput` (a whole value array) or the test's `+=`. Gradient writes are only those of the engine.
- `Nodes.Arena.Shape`: it is a field read without a contract of its own. Every operation is proved to keep all shapes.
- lib.rs, the `Float` trait and the `NdArray` alias are not part of this model. Neither are `println!` and `Debug`.
- Sharing: `add`, `product` and `matmul` always allocate a fresh output buffer. But an operation's output `z` is a public `Tensor` field (src/function.rs:21, 44), and a `Tensor` is itself a node (src/node.rs:22). Passing it as a leaf, as in `add(&tmp.z, &tmp)`, builds a graph in which a leaf and an operation own one buffer. Only such graphs are not singly owned, and the lemmas that need single ownership require `Owned`.
- Semantics.ForwardComputes: for the code as written, proved only for graphs of adds and products. Any matmul anywhere in the graph is outside it, because a matmul reached along two paths accumulates its product (see Findings). A matmul whose operands are such graphs is covered by `Semantics.MatmulForward`. The corrected forward is proved on every singly owned graph.
- Semantics.BackwardFromDerivative: the chain rule is proved for graphs of adds and products only. Matmul's local gradients are proved by `Semantics.MatmulBackwardLeaves`, and a matmul inside a deeper graph is not related to a derivative. The statement covers buffers that no operation owns, which are the leaves, since an operation's own buffer also receives the seed.
- Semantics.OneLevelBackwardTwice: doubling is proved only for a single operation over leaves. As written, deeper graphs do not double (see Findings).
- Scenarios.MatmulTest: the repository's test prints its results and asserts nothing. The values stated are the ones the engine computes.

## Findings

| source | as written | input that shows it | evidently intended | confidence | as-written member | corrected member |
|---|---|---|---|---|---|---|
| src/node.rs:91-101 | each `backward` passes the node's whole accumulated gradient to its children, so an operation node reached along two paths is backpropagated twice with the sum of both paths | x = 3, p = product(&x, &x), y = add(&p, &p), after forward and `set_grad`: x's gradient becomes 24 | each path passes on only its own contribution: d(2x^2)/dx = 12 | not executed | Scenarios.SharedBackwardOvercounts | Semantics.BackwardFrom |
| src/node.rs:148-160 | a second `backward` without `zero_grad` re-propagates the interior gradients left by the first pass | y = x * x + x at x = 3, backward twice: x's gradient goes 7, then 20 | a second pass adds what the first added (7, then 14) | not executed | Scenarios.ThreeElemBackwardAgain | Semantics.BackwardFrom |
| src/node.rs:103-107 | `zero_grad` clears only the node's and its direct children's gradients, and `backward` re-sends each interior node's accumulated gradient | y = (x * x + x) + x at x = 3 with tmp = x * x and a = tmp + x; two rounds of `zero_grad`, `set_grad`, `forward`, `backward`: x's gradient is 8, then 14, because tmp keeps the 1 of the first round | each round gives dy/dx = 8 | not executed | Scenarios.DeepResetTwice | Semantics.BackwardFrom |
| src/node.rs:196-209 | matmul's forward adds its product into its output, and forward runs a node once along each path to it | m = matmul(&x, &y, &[1, 1]) with x = [[2]], y = [[3]], r = add(&m, &m), one forward from fresh outputs: m = 12, r = 24 | the output holds the product, as add and product store theirs: m = 6, r = 12 | not executed | Scenarios.SharedMatmulForward | Semantics.Forward |

`Semantics.BackwardFrom` passes each child the gradient arriving along the
current path. The intended properties are proved of it:
- `Semantics.BackwardFromDerivative` and `Semantics.ForwardBackwardDerivative` prove the chain rule on graphs of adds and products;
- `Semantics.BackwardFromTwice` proves the doubling for every singly owned graph;
- `Scenarios.SharedBackwardFromChainRule` and `Scenarios.SharedTest` prove the value 12;
- `Scenarios.DeepResetTwiceFixed` proves every round of the reset loop gives 8, because it never reads an interior gradient;
- `Semantics.TreeAgrees` proves it equals the code on graphs with no shared operation node and zero interior gradients, such as the test's first pass.

It runs in place as `Nodes.Arena.BackwardFrom`. The corrected forward is
`Semantics.Forward` with `overwrite` set. `Semantics.ForwardComputes` and
`Semantics.ForwardIdempotent` prove of it that every node holds its value
on every singly owned graph and that a second forward changes nothing, and
`Scenarios.SharedMatmulForwardFixed` proves m = 6 and r = 12.
