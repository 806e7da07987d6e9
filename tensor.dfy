/** Buffers of the engine: a shape together with a value array and a
    gradient array of that shape. Arrays are flattened in row-major order,
    so an array of shape `dim` is a sequence of `Size(dim)` numbers. */
module Tensors {

  /** Ordered axis sizes of an array. */
  type Shape = seq<nat>

  /** Number of elements of an array of shape `dim`: the product of the
      axis sizes, so that the empty shape is a scalar with one element. */
  function Size(dim: Shape): (k: nat)
  {
    if |dim| == 0 then 1 else dim[0] * Size(dim[1..])
  }

  lemma SizeOfMatrix(rows: nat, cols: nat)
    ensures Size([rows, cols]) == rows * cols
  {
    assert [cols][1..] == [];
    assert Size([cols]) == cols;
    assert [rows, cols][1..] == [cols];
  }

  /** An array of `n` copies of `c` (the library's `zeros` and `ones`). */
  function Fill(n: nat, c: int): (r: seq<int>)
    ensures |r| == n
    ensures forall i :: 0 <= i < n ==> r[i] == c
  {
    seq(n, _ => c)
  }

  /** Elementwise sum of two arrays of the same shape. */
  function ElemAdd(a: seq<int>, b: seq<int>): (r: seq<int>)
    requires |a| == |b|
    ensures |r| == |a|
    ensures forall i :: 0 <= i < |a| ==> r[i] == a[i] + b[i]
  {
    if |a| == 0 then [] else [a[0] + b[0]] + ElemAdd(a[1..], b[1..])
  }

  /** Elementwise (Hadamard) product of two arrays of the same shape. */
  function ElemMul(a: seq<int>, b: seq<int>): (r: seq<int>)
    requires |a| == |b|
    ensures |r| == |a|
    ensures forall i :: 0 <= i < |a| ==> r[i] == a[i] * b[i]
  {
    if |a| == 0 then [] else [a[0] * b[0]] + ElemMul(a[1..], b[1..])
  }

  /** A buffer. `value` is the field the source calls `input`. */
  datatype Tensor = Tensor(value: seq<int>, grad: seq<int>, dim: Shape)
  {
    /** Both arrays have the shape stored in `dim`. */
    predicate Valid()
    {
      |value| == Size(dim) && |grad| == Size(dim)
    }
  }

  /** `Tensor::new(dim)`: value and gradient are zero arrays of shape `dim`. */
  function New(dim: Shape): (t: Tensor)
    ensures t.Valid() && t.dim == dim
    ensures forall i :: 0 <= i < |t.value| ==> t.value[i] == 0
    ensures forall i :: 0 <= i < |t.grad| ==> t.grad[i] == 0
    ensures dim == [] ==> |t.value| == 1 && |t.grad| == 1
  {
    var zeros := Fill(Size(dim), 0);
    Tensor(zeros, zeros, dim)
  }

  /** Adding into a zero array gives the added array. */
  lemma ElemAddZero(a: seq<int>, b: seq<int>)
    requires |a| == |b| && forall i :: 0 <= i < |a| ==> a[i] == 0
    ensures ElemAdd(a, b) == b
  {
    assert forall i :: 0 <= i < |a| ==> ElemAdd(a, b)[i] == b[i];
  }
}
