/**
 * `RecurrentContainer`: an ordered list of layers run one time step at a
 * time, with one flat vector holding the states of all its cells.
 */
module Container {
  import opened Wrappers
  import opened Tensors
  import opened StateSpecs
  import opened Shapes
  import opened Pipeline

  /** The options the container hands to the backend's scan over time. */
  datatype ScanOptions = ScanOptions(goBackwards: bool, mask: Option<Tensor>, unroll: bool, inputLength: Dim)

  /** What the scan returns: the last output, all outputs, and the states after the last step. */
  datatype ScanResult = ScanResult(last: Tensor, outputs: Tensor, finals: seq<Tensor>)

  /** The backend's scan over time (`K.rnn`), given as a parameter. */
  type Scan = (StepFn, Tensor, seq<Tensor>, ScanOptions) -> ScanResult

  /** The container's `step` as the function the scan applies at every time step. */
  function CompositeOf(units: seq<Unit>): (f: StepFn)
    ensures forall x, states :: f(x, states) == Composite(units, x, states)
  {
    (x: Tensor, states: seq<Tensor>) => Composite(units, x, states)
  }

  /**
   * The inner loop of `reset_states` for one cell: one buffer per spec, in
   * spec order; the first refused spec raises.
   */
  method BuildCell(specs: seq<Spec>, batchSize: Dim, inputLength: Dim) returns (r: Result<seq<Tensor>, Error>)
    ensures r == PersistSpecs(specs, batchSize, inputLength)
  {
    var own: seq<Tensor> := [];
    var j := 0;
    while j < |specs|
      invariant 0 <= j <= |specs|
      invariant PersistSpecs(specs[..j], batchSize, inputLength) == Ok(own)
    {
      var spec := specs[j];
      if !(spec.ShapeSpec? || spec.Literal?) {
        PersistSpecsFailsAt(specs, batchSize, inputLength, j, NotStaticSpec);
        PersistSpecsPrefixError(specs, batchSize, inputLength, j + 1);
        return Err(NotStaticSpec);
      }
      var t;
      if spec.Literal? {
        t := Variable(spec.value);
      } else {
        var shape := StaticShape(spec.dims, batchSize, inputLength);
        if shape.Err? {
          PersistSpecsFailsAt(specs, batchSize, inputLength, j, shape.error);
          PersistSpecsPrefixError(specs, batchSize, inputLength, j + 1);
          return Err(shape.error);
        }
        t := ZeroVariable(shape.value);
      }
      PersistSpecsGrows(specs, batchSize, inputLength, j);
      own := own + [t];
      j := j + 1;
    }
    assert specs[..|specs|] == specs;
    return Ok(own);
  }

  /**
   * The outer loop of `reset_states`: the buffers of every cell, in layer
   * order; the first refused spec raises.
   */
  method BuildStates(units: seq<Unit>, batchSize: Dim, inputLength: Dim) returns (r: Result<seq<Tensor>, Error>)
    ensures r == PersistentStates(units, batchSize, inputLength)
  {
    var acc: seq<Tensor> := [];
    var i := 0;
    while i < |units|
      invariant 0 <= i <= |units|
      invariant PersistRun(units, batchSize, inputLength, i) == Ok(acc)
    {
      if units[i].Cell? {
        var own := BuildCell(units[i].specs, batchSize, inputLength);
        if own.Err? {
          PersistRunFailsAt(units, batchSize, inputLength, i, own.error);
          PersistRunError(units, batchSize, inputLength, i + 1, |units|);
          return Err(own.error);
        }
        acc := acc + own.value;
      }
      i := i + 1;
    }
    return Ok(acc);
  }

  class RecurrentContainer {
    const returnSequences: bool
    const goBackwards: bool
    const stateful: bool
    /** `input_length`: `Unknown` when not given. */
    const inputLength: Dim
    const unroll: bool

    /** The layers of the inner sequential model, in the order they were added. */
    var layers: seq<Unit>
    /** The shape of the container's input spec, set by the first `add`. */
    var inputSpec: Option<seq<Dim>>
    /** The persistent states of stateful mode, set by `reset_states`. */
    var states: Option<seq<Tensor>>
    /** The (persistent state, final state) pairs of the last stateful call. */
    var updates: seq<(Tensor, Tensor)>

    /** The input spec, once set, has a batch axis and a time axis; a non-empty model has one. */
    predicate Valid()
      reads this
    {
      && (inputSpec.Some? ==> |inputSpec.value| >= 2)
      && (layers != [] ==> inputSpec.Some?)
    }

    constructor (returnSequences: bool, goBackwards: bool, stateful: bool, inputLength: Dim, unroll: bool)
      ensures Valid()
      ensures this.returnSequences == returnSequences && this.goBackwards == goBackwards
      ensures this.stateful == stateful && this.inputLength == inputLength && this.unroll == unroll
      ensures layers == [] && inputSpec == None && states == None && updates == []
    {
      this.returnSequences := returnSequences;
      this.goBackwards := goBackwards;
      this.stateful := stateful;
      this.inputLength := inputLength;
      this.unroll := unroll;
      layers := [];
      inputSpec := None;
      states := None;
      updates := [];
    }

    /** What `reset_states` would build from the current layers and input spec. */
    function Rebuilt(): Result<seq<Tensor>, Error>
      reads this
      requires Valid()
    {
      if inputSpec.None? then Err(NoInputSpec)
      else PersistentStates(layers, inputSpec.value[0], inputSpec.value[1])
    }

    /** `reset_states`'s effect: the new buffers on success, the previous ones kept on failure. */
    predicate ResetDone(o: Outcome<Error>, previous: Option<seq<Tensor>>)
      reads this
      requires Valid()
    {
      && (Rebuilt().Ok? ==> o == Pass && states == Some(Rebuilt().value))
      && (Rebuilt().Err? ==> o == Fail(Rebuilt().error) && states == previous)
    }

    /**
     * `reset_states`: the buffers are built from the input spec's batch size
     * and input length, and `self.states` is only assigned once all of them
     * are.
     */
    method ResetStates() returns (o: Outcome<Error>)
      requires Valid()
      modifies this
      ensures Valid()
      ensures layers == old(layers) && inputSpec == old(inputSpec) && updates == old(updates)
      ensures ResetDone(o, old(states))
    {
      if inputSpec.None? {
        return Fail(NoInputSpec);
      }
      var built := BuildStates(layers, inputSpec.value[0], inputSpec.value[1]);
      if built.Err? {
        return Fail(built.error);
      }
      states := Some(built.value);
      return Pass;
    }

    /**
     * `add`: the layer is appended; the first layer must declare its input
     * shape, and the container's input shape is that shape with the time
     * axis put in at index 1; a stateful container then rebuilds its
     * buffers.
     */
    method Add(u: Unit) returns (o: Outcome<Error>)
      requires Valid()
      modifies this
      ensures Valid()
      ensures old(layers) == [] && u.inputShape == [] ==>
        o == Fail(NoInputShape) && layers == old(layers) && inputSpec == old(inputSpec) && states == old(states)
      ensures !(old(layers) == [] && u.inputShape == []) ==>
        && layers == old(layers) + [u]
        && inputSpec == (if old(layers) == [] then Some(InsertTime(u.inputShape, inputLength)) else old(inputSpec))
        && (stateful ==> ResetDone(o, old(states)))
        && (!stateful ==> o == Pass && states == old(states))
      ensures updates == old(updates)
    {
      if layers == [] && u.inputShape == [] {
        return Fail(NoInputShape);
      }
      layers := layers + [u];
      if |layers| == 1 {
        inputSpec := Some(InsertTime(u.inputShape, inputLength));
      }
      o := Pass;
      if stateful {
        o := ResetStates();
      }
    }

    /** `pop`: the last layer is removed; a stateful container then rebuilds its buffers. */
    method Pop() returns (o: Outcome<Error>)
      requires Valid()
      modifies this
      ensures Valid()
      ensures old(layers) == [] ==> o == Fail(EmptyModel) && layers == old(layers) && states == old(states)
      ensures old(layers) != [] ==>
        && layers == old(layers)[..|old(layers)| - 1]
        && (stateful ==> ResetDone(o, old(states)))
        && (!stateful ==> o == Pass && states == old(states))
      ensures inputSpec == old(inputSpec) && updates == old(updates)
    {
      if layers == [] {
        return Fail(EmptyModel);
      }
      layers := layers[..|layers| - 1];
      o := Pass;
      if stateful {
        o := ResetStates();
      }
    }

    /**
     * `output_shape`: the per-step output shape of the layers, with the
     * input's time axis put back in at index 1 when the container returns
     * sequences.
     */
    function OutputShape(): (r: Result<seq<Dim>, Error>)
      reads this
      requires Valid()
      ensures r.Ok? <==> inputSpec.Some? && layers != [] && (returnSequences ==> ModelShape(layers) != [])
      ensures r.Ok? && returnSequences ==>
        && |r.value| == |ModelShape(layers)| + 1
        && r.value[1] == inputSpec.value[1]
        && DropTime(r.value) == ModelShape(layers)
      ensures r.Ok? && !returnSequences ==> r.value == ModelShape(layers)
      ensures inputSpec.None? ==> r == Err(NoInputSpec)
    {
      if inputSpec.None? then Err(NoInputSpec)
      else if layers == [] then Err(EmptyModel)
      else
        var shape := ModelShape(layers);
        if !returnSequences then Ok(shape)
        else if shape == [] then Err(IndexOutOfRange)
        else
          DropInsertTime(shape, inputSpec.value[1]);
          Ok(InsertTime(shape, inputSpec.value[1]))
    }

    /**
     * `step`: the input goes through the layers in order; each cell reads
     * and rewrites its slice of the state list, at an index advanced past
     * the states of the cells before it.
     */
    method Step(x: Tensor, given: seq<Tensor>) returns (y: Tensor, result: seq<Tensor>)
      ensures (y, result) == Composite(layers, x, given)
    {
      y := x;
      result := given;
      var index: nat := 0;
      var i := 0;
      while i < |layers|
        invariant 0 <= i <= |layers|
        invariant Run(layers, x, given, i) == Progress(y, result, index)
      {
        match layers[i] {
          case Cell(specs, step, _, _) =>
            var hi := index + |specs|;
            var r := step(y, PySlice(result, index, hi));
            result := PyAssign(result, index, hi, r.1);
            y := r.0;
            index := hi;
          case Plain(apply, _, _) =>
            y := apply(y);
        }
        i := i + 1;
      }
    }

    /**
     * `get_initial_states`: sizes missing from the input spec are read from
     * the input at run time; each cell's specs are resolved against the
     * running input, which each layer then advances by one call.
     */
    method GetInitialStates(x: Tensor) returns (r: Result<seq<Tensor>, Error>)
      requires Valid()
      ensures inputSpec.None? ==> r == Err(NoInputSpec)
      ensures inputSpec.Some? ==> r == Ok(InitialStates(layers, x, inputSpec.value))
    {
      if inputSpec.None? {
        return Err(NoInputSpec);
      }
      var shape := inputSpec.value;
      var inputLength := SizeOrRuntime(shape[1], 1);
      var batchSize := SizeOrRuntime(shape[0], 0);
      var initial: seq<Tensor> := [];
      var input := FirstTimestep(x);
      for i := 0 to |layers|
        invariant WarmupRun(layers, FirstTimestep(x), batchSize, inputLength, i) == Warmup(initial, input)
      {
        match layers[i] {
          case Cell(specs, step, _, _) =>
            var own: seq<Tensor> := [];
            for j := 0 to |specs|
              invariant own == Resolve(specs[..j], input, batchSize, inputLength)
            {
              assert specs[..j + 1][..j] == specs[..j];
              own := own + Flatten(StateFromInfo(specs[j], input, batchSize, inputLength));
            }
            assert specs[..|specs|] == specs;
            initial := initial + own;
            input := step(input, own).0;
          case Plain(apply, _, _) =>
            input := apply(input);
        }
      }
      return Ok(initial);
    }

    /**
     * `call`: the scan runs the composite step from the persistent states
     * (stateful) or from fresh initial states; a stateful call then records
     * the pair (persistent state `i`, final state `i`) for every final
     * state, and raises once a final state has no persistent partner.
     */
    method Call(x: Tensor, mask: Option<Tensor>, scan: Scan) returns (r: Result<Tensor, Error>)
      requires Valid()
      modifies this
      ensures layers == old(layers) && inputSpec == old(inputSpec) && states == old(states)
      ensures inputSpec.None? ==> r == Err(NoInputSpec) && updates == old(updates)
      ensures inputSpec.Some? && stateful && states.None? ==> r == Err(NoPersistentStates) && updates == old(updates)
      ensures inputSpec.Some? && !(stateful && states.None?) ==>
        var initial := if stateful then states.value else InitialStates(layers, x, inputSpec.value);
        var res := scan(CompositeOf(layers), x, initial, ScanOptions(goBackwards, mask, unroll, inputSpec.value[1]));
        && (stateful ==> updates == UpdatePairs(states.value, res.finals))
        && (!stateful ==> updates == old(updates))
        && (r.Err? <==> stateful && |res.finals| > |states.value|)
        && (r.Err? ==> r.error == IndexOutOfRange)
        && (r.Ok? ==> r.value == if returnSequences then res.outputs else res.last)
    {
      if inputSpec.None? {
        return Err(NoInputSpec);
      }
      var initial;
      if stateful {
        if states.None? {
          return Err(NoPersistentStates);
        }
        initial := states.value;
      } else {
        var built := GetInitialStates(x);
        initial := built.value;
      }
      var res := scan(CompositeOf(layers), x, initial, ScanOptions(goBackwards, mask, unroll, inputSpec.value[1]));
      if stateful {
        var persistent := states.value;
        var finals := res.finals;
        updates := [];
        var i := 0;
        while i < |finals|
          invariant 0 <= i <= |finals| && i <= |persistent|
          invariant updates == UpdatePairs(persistent[..i], finals[..i])
          invariant layers == old(layers) && inputSpec == old(inputSpec) && states == old(states)
        {
          if i >= |persistent| {
            UpdatePairsTruncate(persistent, finals, i);
            return Err(IndexOutOfRange);
          }
          UpdatePairsExtend(persistent, finals, i);
          updates := updates + [(persistent[i], finals[i])];
          i := i + 1;
        }
        UpdatePairsTruncate(persistent, finals, i);
      }
      if returnSequences {
        return Ok(res.outputs);
      }
      return Ok(res.last);
    }
  }
}
