/** Shape tuples as the engine splices them. */
module Shapes {
  import opened Wrappers
  import opened Tensors

  /**
   * `RNNCell.get_output_shape_for`: a cell with an `output_dim` replaces the
   * last entry of the input shape by it (`input_shape[:-1] + (output_dim,)`,
   * so an empty shape becomes `(output_dim,)`); a cell without one keeps the
   * input shape.
   */
  function CellOutputShape(outputDim: Option<int>, inputShape: seq<Dim>): (r: seq<Dim>)
    ensures outputDim.None? ==> r == inputShape
    ensures outputDim.Some? ==>
      && |r| == (if inputShape == [] then 1 else |inputShape|)
      && r[|r| - 1] == Lit(outputDim.value)
      && r[..|r| - 1] == inputShape[..|r| - 1]
  {
    match outputDim
    case None => inputShape
    case Some(d) => (if inputShape == [] then [] else inputShape[..|inputShape| - 1]) + [Lit(d)]
  }

  /** Applying a cell's output shape twice is applying it once. */
  lemma CellOutputShapeIdempotent(outputDim: Option<int>, inputShape: seq<Dim>)
    ensures CellOutputShape(outputDim, CellOutputShape(outputDim, inputShape)) == CellOutputShape(outputDim, inputShape)
  {
    if outputDim.Some? {
      var once := CellOutputShape(outputDim, inputShape);
      var twice := CellOutputShape(outputDim, once);
      assert |twice| == |once|;
      assert twice[..|once| - 1] == once[..|once| - 1];
      assert twice == twice[..|once| - 1] + [twice[|once| - 1]];
      assert once == once[..|once| - 1] + [once[|once| - 1]];
    }
  }

  /**
   * `(shape[0], time) + shape[1:]`: a per-step shape with a time axis put in
   * at index 1 (the container's input shape on its first `add`, and its
   * output shape when it returns sequences).
   */
  function InsertTime(shape: seq<Dim>, time: Dim): (r: seq<Dim>)
    requires |shape| >= 1
    ensures |r| == |shape| + 1
    ensures r[0] == shape[0] && r[1] == time
    ensures forall i :: 1 <= i < |shape| ==> r[i + 1] == shape[i]
  {
    [shape[0], time] + shape[1..]
  }

  /** The per-step shape of a shape with a time axis at index 1. */
  function DropTime(shape: seq<Dim>): (r: seq<Dim>)
    requires |shape| >= 2
  {
    [shape[0]] + shape[2..]
  }

  /** Taking the time axis out again gives back the per-step shape. */
  lemma DropInsertTime(shape: seq<Dim>, time: Dim)
    requires |shape| >= 1
    ensures DropTime(InsertTime(shape, time)) == shape
  {
    var r := InsertTime(shape, time);
    assert forall i :: 0 <= i < |shape| ==> DropTime(r)[i] == shape[i];
  }
}
