/**
 * The values the recurrent engine passes around without looking inside them:
 * entries of shape tuples, tensors of the backend, numpy literals, and the
 * errors the engine raises.
 */
module Tensors {

  /** One entry of a shape tuple. */
  datatype Dim =
    | Lit(n: int)         // an integer; Lit(-1) is read as the batch-size sentinel
    | BatchSize           // the string 'batch_size'
    | InputLength         // the string 'input_length'
    | Unknown             // None, or any other entry that is neither an integer nor a sentinel
    | ShapeOf(axis: nat)  // K.shape(x)[axis]: a size only known when the graph runs

  /** The entries the engine replaces by the batch size: `-1` and `'batch_size'`. */
  predicate IsBatchSentinel(d: Dim) {
    d == Lit(-1) || d == BatchSize
  }

  /** Any entry that substitution replaces. */
  predicate IsSentinel(d: Dim) {
    IsBatchSentinel(d) || d == InputLength
  }

  /** A numpy array literal, known only by identity. */
  datatype NdArray = NdArray(id: nat)

  /**
   * A backend tensor. Only the way a tensor was built is recorded; its
   * contents are never inspected.
   */
  datatype Tensor =
    | Symbolic(id: nat)                          // built elsewhere: an input, a layer output
    | Zeros(shape: seq<Dim>)                     // the backend's `zeros` of a shape
    | Variable(value: NdArray)                   // K.variable of a numpy literal
    | ZeroVariable(shape: seq<Dim>)              // K.variable(np.zeros(shape))
    | FirstTimestep(of: Tensor)                  // x[:, 0], the first step of a sequence
    | Entry(dim: Dim)                            // a bare shape entry used where a tensor belongs
    | Initialized(init: string, dims: seq<int>)  // an initializer applied to a shape

  /**
   * The exceptions the engine raises, one per cause. The three static-shape
   * causes all surface as the same `AssertionError` in the program; the
   * model tells them apart.
   */
  datatype Error =
    | NotStaticSpec         // stateful mode met a state spec that is neither a shape nor a literal
    | BatchSizeNotStatic    // stateful mode met a batch sentinel while the batch size is not an int
    | InputLengthNotStatic  // stateful mode met 'input_length' while the input length is not an int
    | NoInputSpec           // the container's input spec was never set (no layer was ever added)
    | EmptyModel            // the layer list is empty
    | NoInputShape          // the first layer added declares no input shape
    | NoPersistentStates    // stateful call before any persistent state was built
    | IndexOutOfRange       // a Python index past the end of a list or tuple
}
