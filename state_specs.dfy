/**
 * Declared cell states and how the container turns them into tensors:
 * `_get_state_from_info` for a fresh forward pass and the per-spec part of
 * `reset_states` for stateful mode.
 */
module StateSpecs {
  import opened Wrappers
  import opened Tensors

  /** What one state spec resolves to: a tensor, or a list that the caller flattens. */
  datatype StateValue = Single(t: Tensor) | Several(ts: seq<Tensor>)

  /** A state a cell declares in its `states` list. */
  datatype Spec =
    | ShapeSpec(dims: seq<Dim>, isTuple: bool)  // a shape, written as a tuple (isTuple) or as a list
    | Literal(value: NdArray)                    // a numpy array
    | Callable(f: Tensor -> StateValue)          // computes the state from the first time step
    | Given(t: Tensor)                           // anything else, taken as it is

  /**
   * Sentinel substitution: every `-1` and `'batch_size'` becomes the batch
   * size, every `'input_length'` the input length, everything else stays.
   */
  function Substitute(dims: seq<Dim>, batchSize: Dim, inputLength: Dim): (r: seq<Dim>)
    ensures |r| == |dims|
    ensures forall i :: 0 <= i < |dims| && IsBatchSentinel(dims[i]) ==> r[i] == batchSize
    ensures forall i :: 0 <= i < |dims| && dims[i] == InputLength ==> r[i] == inputLength
    ensures forall i :: 0 <= i < |dims| && !IsSentinel(dims[i]) ==> r[i] == dims[i]
  {
    if dims == [] then []
    else
      var d := dims[0];
      [if IsBatchSentinel(d) then batchSize else if d == InputLength then inputLength else d]
        + Substitute(dims[1..], batchSize, inputLength)
  }

  /** Once the sizes themselves are no sentinels, substitution leaves none behind and is idempotent. */
  lemma SubstituteResolvesAll(dims: seq<Dim>, batchSize: Dim, inputLength: Dim)
    requires !IsSentinel(batchSize) && !IsSentinel(inputLength)
    ensures forall i :: 0 <= i < |dims| ==> !IsSentinel(Substitute(dims, batchSize, inputLength)[i])
    ensures Substitute(Substitute(dims, batchSize, inputLength), batchSize, inputLength)
         == Substitute(dims, batchSize, inputLength)
  {
    var once := Substitute(dims, batchSize, inputLength);
    var twice := Substitute(once, batchSize, inputLength);
    assert forall i :: 0 <= i < |dims| ==> twice[i] == once[i];
  }

  /** A list of shape entries, each standing where a tensor is expected. */
  function Entries(dims: seq<Dim>): (r: seq<Tensor>)
    ensures |r| == |dims|
    ensures forall i :: 0 <= i < |dims| ==> r[i] == Entry(dims[i])
  {
    if dims == [] then [] else [Entry(dims[0])] + Entries(dims[1..])
  }

  /**
   * `_get_state_from_info`: a callable is applied to the first time step;
   * only a TUPLE shape is substituted and turned into zeros; a numpy literal
   * becomes a variable; anything else, a list shape included, is passed
   * through as it is.
   */
  function StateFromInfo(spec: Spec, input: Tensor, batchSize: Dim, inputLength: Dim): (v: StateValue)
    ensures spec.Callable? ==> v == spec.f(input)
    ensures spec.ShapeSpec? && spec.isTuple ==> v == Single(Zeros(Substitute(spec.dims, batchSize, inputLength)))
    ensures spec.ShapeSpec? && spec.isTuple ==>
      |v.t.shape| == |spec.dims|
      && (!IsSentinel(batchSize) && !IsSentinel(inputLength) ==>
            forall i :: 0 <= i < |v.t.shape| ==> !IsSentinel(v.t.shape[i]))
    ensures spec.ShapeSpec? && !spec.isTuple ==> v == Several(Entries(spec.dims)) && |v.ts| == |spec.dims|
    ensures spec.Literal? ==> v == Single(Variable(spec.value))
    ensures spec.Given? ==> v == Single(spec.t)
  {
    match spec
    case Callable(f) => f(input)
    case ShapeSpec(dims, isTuple) =>
      if isTuple then Single(Zeros(Substitute(dims, batchSize, inputLength)))
      else Several(Entries(dims))
    case Literal(a) => Single(Variable(a))
    case Given(t) => Single(t)
  }

  /** A shape entry stateful mode accepts: a sentinel only when its size is an int. */
  predicate Admissible(d: Dim, batchSize: Dim, inputLength: Dim) {
    (IsBatchSentinel(d) ==> batchSize.Lit?) && (d == InputLength ==> inputLength.Lit?)
  }

  /** The error the stateful check raises for an entry it rejects. */
  function Rejection(d: Dim): Error {
    if IsBatchSentinel(d) then BatchSizeNotStatic else InputLengthNotStatic
  }

  /**
   * The stateful check of a shape's entries, in order: the first entry that
   * is a sentinel whose size is not an int raises.
   */
  function StaticCheck(dims: seq<Dim>, batchSize: Dim, inputLength: Dim): (e: Option<Error>)
    ensures e.None? <==> forall i :: 0 <= i < |dims| ==> Admissible(dims[i], batchSize, inputLength)
    ensures e.Some? ==>
      exists i :: && 0 <= i < |dims|
                  && !Admissible(dims[i], batchSize, inputLength)
                  && (forall k :: 0 <= k < i ==> Admissible(dims[k], batchSize, inputLength))
                  && e.value == Rejection(dims[i])
  {
    if dims == [] then None
    else if !Admissible(dims[0], batchSize, inputLength) then Some(Rejection(dims[0]))
    else
      var rest := StaticCheck(dims[1..], batchSize, inputLength);
      if rest.Some? then
        var i :| 0 <= i < |dims[1..]|
          && !Admissible(dims[1..][i], batchSize, inputLength)
          && (forall k :: 0 <= k < i ==> Admissible(dims[1..][k], batchSize, inputLength))
          && rest.value == Rejection(dims[1..][i]);
        assert !Admissible(dims[i + 1], batchSize, inputLength);
        rest
      else
        assert forall i :: 1 <= i < |dims| ==> dims[i] == dims[1..][i - 1];
        rest
  }

  /** The static check reports exactly the first rejected entry. */
  lemma {:induction false} FirstRejection(dims: seq<Dim>, batchSize: Dim, inputLength: Dim, i: nat)
    requires i < |dims| && !Admissible(dims[i], batchSize, inputLength)
    requires forall k :: 0 <= k < i ==> Admissible(dims[k], batchSize, inputLength)
    ensures StaticCheck(dims, batchSize, inputLength) == Some(Rejection(dims[i]))
  {
    if i > 0 {
      FirstRejection(dims[1..], batchSize, inputLength, i - 1);
    }
  }

  /**
   * One persistent state buffer (the body of the loop in `reset_states`):
   * a literal becomes a variable; a shape, tuple or list, must pass the
   * static check and becomes a zero-filled variable of the substituted
   * shape; a callable or a tensor is refused.
   */
  function Persist(spec: Spec, batchSize: Dim, inputLength: Dim): (r: Result<Tensor, Error>)
    ensures r.Ok? <==>
      || spec.Literal?
      || (spec.ShapeSpec? && forall i :: 0 <= i < |spec.dims| ==> Admissible(spec.dims[i], batchSize, inputLength))
    ensures (spec.Callable? || spec.Given?) ==> r == Err(NotStaticSpec)
    ensures spec.ShapeSpec? && r.Err? ==> r.error == StaticCheck(spec.dims, batchSize, inputLength).value
    ensures spec.Literal? ==> r == Ok(Variable(spec.value))
    ensures spec.ShapeSpec? && r.Ok? ==>
      r.value.ZeroVariable? && r.value.shape == Substitute(spec.dims, batchSize, inputLength)
  {
    match spec
    case Literal(a) => Ok(Variable(a))
    case ShapeSpec(dims, _) =>
      var check := StaticCheck(dims, batchSize, inputLength);
      if check.Some? then Err(check.value) else Ok(ZeroVariable(Substitute(dims, batchSize, inputLength)))
    case Callable(_) => Err(NotStaticSpec)
    case Given(_) => Err(NotStaticSpec)
  }

  /**
   * The sentinel loop of `reset_states`: entries are replaced one by one and
   * the first rejected entry raises.
   */
  method StaticShape(dims: seq<Dim>, batchSize: Dim, inputLength: Dim) returns (r: Result<seq<Dim>, Error>)
    ensures r.Ok? <==> StaticCheck(dims, batchSize, inputLength).None?
    ensures r.Ok? ==> r.value == Substitute(dims, batchSize, inputLength)
    ensures r.Err? ==> r.error == StaticCheck(dims, batchSize, inputLength).value
  {
    ghost var target := Substitute(dims, batchSize, inputLength);
    var state := dims;
    var i := 0;
    while i < |state|
      invariant 0 <= i <= |dims| && |state| == |dims|
      invariant forall k :: 0 <= k < i ==> Admissible(dims[k], batchSize, inputLength)
      invariant forall k :: 0 <= k < i ==> state[k] == target[k]
      invariant forall k :: i <= k < |dims| ==> state[k] == dims[k]
    {
      if !Admissible(state[i], batchSize, inputLength) {
        FirstRejection(dims, batchSize, inputLength, i);
      }
      if IsBatchSentinel(state[i]) {
        if !batchSize.Lit? {
          return Err(BatchSizeNotStatic);
        }
        state := state[i := batchSize];
      } else if state[i] == InputLength {
        if !inputLength.Lit? {
          return Err(InputLengthNotStatic);
        }
        state := state[i := inputLength];
      }
      i := i + 1;
    }
    assert state == target;
    r := Ok(state);
  }
}
