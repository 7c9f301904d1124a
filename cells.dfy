/**
 * `RNNCell`: a layer that declares its states and a step function, owns
 * trainable and non-trainable weights, and is called by the container one
 * time step at a time.
 */
module Cells {
  import opened Wrappers
  import opened Tensors
  import opened StateSpecs
  import opened Pipeline

  // ---------------------------------------------------------------------------
  // Weights

  /** A weight regularizer, known by the name it was looked up with. */
  datatype Regularizer = Regularizer(name: string)

  /** A regularizer after `set_param`: bound to the weight it penalises. */
  datatype BoundRegularizer = BoundRegularizer(regularizer: Regularizer, param: Tensor)

  /** A `weight` object: its tensor, its optional regularizer, and whether training updates it. */
  datatype Weight = Weight(value: Tensor, regularizer: Option<Regularizer>, trainable: bool)

  /** What a `weight` is built from. */
  datatype WeightSource =
    | Length(n: int)              // an int: the shape of a vector
    | ShapeTuple(dims: seq<int>)  // a tuple or list: a shape
    | Array(literal: NdArray)     // a numpy array: the initial value
    | Existing(t: Tensor)         // anything else: used as the value itself

  /** An entry given to the `weights` setter: a `weight` object, or anything a `weight` is built from. */
  datatype WeightEntry = Wrapped(w: Weight) | Raw(source: WeightSource)

  /**
   * The `weight` constructor: an int is the one-entry shape `(n,)`; a shape
   * is filled by the named initializer; a numpy array becomes a variable;
   * anything else is the value as it is.
   */
  function MakeWeight(source: WeightSource, init: string, regularizer: Option<Regularizer>, trainable: bool): (w: Weight)
    ensures w.regularizer == regularizer && w.trainable == trainable
    ensures source.Length? ==> w.value == Initialized(init, [source.n])
    ensures source.ShapeTuple? ==> w.value == Initialized(init, source.dims)
    ensures source.Array? ==> w.value == Variable(source.literal)
    ensures source.Existing? ==> w.value == source.t
  {
    var value :=
      match source
      case Length(n) => Initialized(init, [n])
      case ShapeTuple(dims) => Initialized(init, dims)
      case Array(a) => Variable(a)
      case Existing(t) => t;
    Weight(value, regularizer, trainable)
  }

  /** `weight(value)` with its defaults: Glorot-uniform initialisation, no regularizer, trainable. */
  function DefaultWeight(source: WeightSource): Weight {
    MakeWeight(source, "glorot_uniform", None, true)
  }

  /** An int `n` builds the same weight as the shape `(n,)`. */
  lemma LengthIsOneEntryShape(n: int, init: string, regularizer: Option<Regularizer>, trainable: bool)
    ensures MakeWeight(Length(n), init, regularizer, trainable) == MakeWeight(ShapeTuple([n]), init, regularizer, trainable)
  {
  }

  /** The setter's view of an entry: a `weight` as it is, anything else wrapped with the defaults. */
  function AsWeight(e: WeightEntry): Weight {
    match e
    case Wrapped(w) => w
    case Raw(source) => DefaultWeight(source)
  }

  /** The values of all entries, in order. */
  function Values(ws: seq<WeightEntry>): seq<Tensor> {
    if ws == [] then [] else Values(ws[..|ws| - 1]) + [AsWeight(ws[|ws| - 1]).value]
  }

  /** The values of the trainable entries, in order. */
  function Trainable(ws: seq<WeightEntry>): seq<Tensor> {
    if ws == [] then []
    else
      var w := AsWeight(ws[|ws| - 1]);
      Trainable(ws[..|ws| - 1]) + (if w.trainable then [w.value] else [])
  }

  /** The values of the other entries, in order. */
  function Frozen(ws: seq<WeightEntry>): seq<Tensor> {
    if ws == [] then []
    else
      var w := AsWeight(ws[|ws| - 1]);
      Frozen(ws[..|ws| - 1]) + (if w.trainable then [] else [w.value])
  }

  /** The regularizers of the entries that have one, each bound to its entry's value, in order. */
  function Regularizers(ws: seq<WeightEntry>): seq<BoundRegularizer> {
    if ws == [] then []
    else
      var w := AsWeight(ws[|ws| - 1]);
      Regularizers(ws[..|ws| - 1]) + (if w.regularizer.Some? then [BoundRegularizer(w.regularizer.value, w.value)] else [])
  }

  /** The number of entries that carry a regularizer. */
  function RegularizedCount(ws: seq<WeightEntry>): nat {
    if ws == [] then 0
    else RegularizedCount(ws[..|ws| - 1]) + (if AsWeight(ws[|ws| - 1]).regularizer.Some? then 1 else 0)
  }

  /**
   * The trainable and the non-trainable values split the entries: together
   * they number the entries and hold exactly the entries' values.
   */
  lemma {:induction false} WeightsPartition(ws: seq<WeightEntry>)
    ensures |Trainable(ws)| + |Frozen(ws)| == |ws| == |Values(ws)|
    ensures multiset(Trainable(ws)) + multiset(Frozen(ws)) == multiset(Values(ws))
  {
    if ws != [] {
      WeightsPartition(ws[..|ws| - 1]);
    }
  }

  /** When every entry is trainable, the trainable values are all values, in order, and none is frozen. */
  lemma {:induction false} AllTrainable(ws: seq<WeightEntry>)
    requires forall i :: 0 <= i < |ws| ==> AsWeight(ws[i]).trainable
    ensures Trainable(ws) == Values(ws) && Frozen(ws) == []
  {
    if ws != [] {
      AllTrainable(ws[..|ws| - 1]);
    }
  }

  /** There is one bound regularizer per regularized entry, each bound to one of the entries' values. */
  lemma {:induction false} RegularizersBound(ws: seq<WeightEntry>)
    ensures |Regularizers(ws)| == RegularizedCount(ws) <= |ws|
    ensures forall k :: 0 <= k < |Regularizers(ws)| ==> Regularizers(ws)[k].param in multiset(Values(ws))
  {
    if ws != [] {
      var front := ws[..|ws| - 1];
      RegularizersBound(front);
      assert multiset(Values(front)) <= multiset(Values(ws));
    }
  }

  // ---------------------------------------------------------------------------
  // The arguments `_step` passes to `step`

  /** An argument of `step`: a tensor, or a list of tensors. */
  datatype Arg = TensorArg(t: Tensor) | ListArg(ts: seq<Tensor>)

  /** `[x, states, weights]`, followed by `constants` when the cell has them. */
  function Available(x: Tensor, states: seq<Tensor>, weights: seq<Tensor>, constants: Option<seq<Tensor>>): seq<Arg> {
    [TensorArg(x), ListArg(states), ListArg(weights)] + (if constants.Some? then [ListArg(constants.value)] else [])
  }

  /**
   * The arguments `step` is called with: the first `arity` of the available
   * ones (`args[:arity]`, so all of them when `step` takes more).
   */
  function StepArgs(x: Tensor, states: seq<Tensor>, weights: seq<Tensor>, constants: Option<seq<Tensor>>, arity: nat): (r: seq<Arg>)
    ensures |r| == Min(arity, if constants.Some? then 4 else 3)
    ensures 1 <= |r| ==> r[0] == TensorArg(x)
    ensures 2 <= |r| ==> r[1] == ListArg(states)
    ensures 3 <= |r| ==> r[2] == ListArg(weights)
    ensures 4 <= |r| ==> constants.Some? && r[3] == ListArg(constants.value)
  {
    PySlice(Available(x, states, weights, constants), 0, arity)
  }

  /** A `step` that takes more arguments than there are gets all of them; giving it more arity changes nothing. */
  lemma StepArgsSaturate(x: Tensor, states: seq<Tensor>, weights: seq<Tensor>, constants: Option<seq<Tensor>>, arity: nat)
    requires arity >= 4
    ensures StepArgs(x, states, weights, constants, arity) == Available(x, states, weights, constants)
    ensures StepArgs(x, states, weights, constants, arity) == StepArgs(x, states, weights, constants, arity + 1)
  {
  }

  // ---------------------------------------------------------------------------
  // The cell

  /**
   * The batch input shape a cell declares: `batch_input_shape` wins; otherwise
   * `input_dim` wins over `input_shape`, and a batch axis of unknown size leads.
   */
  function DeclaredShape(batchShape: Option<seq<Dim>>, inputDim: Option<int>, inputShape: Option<seq<Dim>>): (r: seq<Dim>)
    ensures batchShape.Some? ==> r == batchShape.value
    ensures batchShape.None? && inputDim.Some? ==> r == [Unknown, Lit(inputDim.value)]
    ensures batchShape.None? && inputDim.None? && inputShape.Some? ==>
      |r| == |inputShape.value| + 1 && r[0] == Unknown && r[1..] == inputShape.value
    ensures batchShape.None? && inputDim.None? && inputShape.None? ==> r == []
  {
    if batchShape.Some? then batchShape.value
    else if inputDim.Some? then [Unknown, Lit(inputDim.value)]
    else if inputShape.Some? then [Unknown] + inputShape.value
    else []
  }

  class RNNCell {
    /** The declared states (`self.states`). */
    const specs: seq<Spec>
    /** The number of parameters `step` takes. */
    const arity: nat
    /** The cell's `step`, applied to the arguments `_step` selects. */
    const stepFn: seq<Arg> -> (Tensor, seq<Tensor>)
    /** `output_dim`, when the cell has one. */
    const outputDim: Option<int>
    /** The batch input shape, empty when the cell declares none. */
    const batchInputShape: seq<Dim>

    var trainableWeights: seq<Tensor>
    var nonTrainableWeights: seq<Tensor>
    var regularizers: seq<BoundRegularizer>
    /** `self.constants`, when set. */
    var constants: Option<seq<Tensor>>

    constructor (specs: seq<Spec>, arity: nat, stepFn: seq<Arg> -> (Tensor, seq<Tensor>), outputDim: Option<int>,
                 batchShape: Option<seq<Dim>>, inputDim: Option<int>, inputShape: Option<seq<Dim>>,
                 constants: Option<seq<Tensor>>)
      ensures this.specs == specs && this.arity == arity && this.stepFn == stepFn && this.outputDim == outputDim
      ensures batchInputShape == DeclaredShape(batchShape, inputDim, inputShape)
      ensures trainableWeights == [] && nonTrainableWeights == [] && regularizers == []
      ensures this.constants == constants
    {
      this.specs := specs;
      this.arity := arity;
      this.stepFn := stepFn;
      this.outputDim := outputDim;
      batchInputShape := DeclaredShape(batchShape, inputDim, inputShape);
      trainableWeights := [];
      nonTrainableWeights := [];
      regularizers := [];
      this.constants := constants;
    }

    /** The `weights` getter: trainable weights, then non-trainable ones. */
    function Weights(): (w: seq<Tensor>)
      reads this
      ensures |w| == |trainableWeights| + |nonTrainableWeights|
      ensures w[..|trainableWeights|] == trainableWeights && w[|trainableWeights|..] == nonTrainableWeights
    {
      trainableWeights + nonTrainableWeights
    }

    /**
     * The `weights` setter: the three lists are rebuilt from the entries
     * alone, each entry wrapped as a `weight` when it is not one.
     */
    method SetWeights(ws: seq<WeightEntry>)
      modifies this
      ensures trainableWeights == Trainable(ws)
      ensures nonTrainableWeights == Frozen(ws)
      ensures regularizers == Regularizers(ws)
      ensures |Weights()| == |ws| && multiset(Weights()) == multiset(Values(ws))
      ensures constants == old(constants)
    {
      trainableWeights := [];
      nonTrainableWeights := [];
      regularizers := [];
      for i := 0 to |ws|
        invariant trainableWeights == Trainable(ws[..i])
        invariant nonTrainableWeights == Frozen(ws[..i])
        invariant regularizers == Regularizers(ws[..i])
        invariant constants == old(constants)
      {
        assert ws[..i + 1][..i] == ws[..i];
        var w := AsWeight(ws[i]);
        if w.trainable {
          trainableWeights := trainableWeights + [w.value];
        } else {
          nonTrainableWeights := nonTrainableWeights + [w.value];
        }
        if w.regularizer.Some? {
          regularizers := regularizers + [BoundRegularizer(w.regularizer.value, w.value)];
        }
      }
      assert ws[..|ws|] == ws;
      WeightsPartition(ws);
    }

    /** `_step`: `step` applied to the arguments it takes, with the cell's current weights and constants. */
    function CallStep(x: Tensor, states: seq<Tensor>): (r: (Tensor, seq<Tensor>))
      reads this
      ensures arity == 0 ==> r == stepFn([])
      ensures arity == 1 ==> r == stepFn([TensorArg(x)])
      ensures arity == 2 ==> r == stepFn([TensorArg(x), ListArg(states)])
      ensures arity == 3 ==> r == stepFn([TensorArg(x), ListArg(states), ListArg(Weights())])
      ensures arity >= 4 && constants.None? ==> r == stepFn([TensorArg(x), ListArg(states), ListArg(Weights())])
      ensures arity >= 4 && constants.Some? ==>
        r == stepFn([TensorArg(x), ListArg(states), ListArg(Weights()), ListArg(constants.value)])
    {
      var args := StepArgs(x, states, Weights(), constants, arity);
      assert arity == 1 ==> args == [TensorArg(x)];
      assert arity == 2 ==> args == [TensorArg(x), ListArg(states)];
      assert arity >= 4 && constants.Some? ==>
        args == [TensorArg(x), ListArg(states), ListArg(Weights()), ListArg(constants.value)];
      stepFn(args)
    }

    /**
     * The cell as the container sees it: its declared states, its `_step`
     * with the weights and constants it has now, its input shape and output
     * dimension.
     */
    function AsUnit(): (u: Unit)
      reads this
      ensures u.Cell? && u.specs == specs && u.inputShape == batchInputShape && u.outputDim == outputDim
      ensures forall x, states :: u.step(x, states) == CallStep(x, states)
    {
      var weights := Weights();
      var consts := constants;
      Cell(specs, (x: Tensor, states: seq<Tensor>) => stepFn(StepArgs(x, states, weights, consts, arity)),
           batchInputShape, outputDim)
    }
  }
}
