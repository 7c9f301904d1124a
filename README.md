# recurrentshop engine, modelled in Dafny

This project models the orchestration core of recurrentshop's `engine.py`:

- an `RNNCell` declares its per-step states, owns its weights and exposes a step function;
- a `RecurrentContainer` runs an ordered list of layers one time step at a time;
- the states of all cells live in one flat vector, and each cell owns a fixed window of it.

Tensors are opaque: only the way a tensor was built is recorded (`Tensors.Tensor`). Layers form a closed datatype, `Pipeline.Unit`: either a `Cell` (declared state specs and `_step`) or a `Plain` layer (its `call`). The `_isRNN` test is `Unit.Cell?`.

Modules:

- `Wrappers`: Option, Result and Outcome.
- `Tensors`: shape entries `Dim`, tensors, numpy literals, and the engine's errors.
- `Shapes`: `get_output_shape_for` of a cell, and the time-axis splice used by `add` and `output_shape`.
- `StateSpecs`: state specs, sentinel substitution, `_get_state_from_info`, and the per-spec part of `reset_states`, including its static-shape loop.
- `Pipeline`: what the container computes from its layer list, as functions, with the properties proved about them:
  - the composite step (`Run`/`Composite`) and its reference reading (`Called`/`Fed`);
  - the warm-up pass that builds the initial states (`WarmupRun`/`InitialStates`);
  - the persistent buffers (`PersistRun`/`PersistentStates`);
  - the update pairs and the model's shape.
- `Cells`: the `weight` constructor, the `weights` setter's partition, the argument selection of `_step`, and the `RNNCell` class.
- `Container`: the `RecurrentContainer` class. Its `Step`, `GetInitialStates`, `ResetStates`/`BuildStates` and `Call` loops are proved equal to the `Pipeline` functions. `Add` and `Pop` state the whole new state.

Behaviour of the source that the model keeps on purpose:

- A literal `-1` in a shape is read as the batch-size sentinel, both in `reset_states` and in `_get_state_from_info`.
- Outside stateful mode, only a shape written as a tuple is substituted and zero-filled. A shape written as a list passes through unchanged, and because it is a list, the warm-up splices each of its entries in as a separate "state" (`StateFromInfo` gives `Several`). `reset_states` accepts both forms.
- Outside stateful mode, sentinels are substituted by whatever the sizes are, including `K.shape(x)[...]` for sizes missing from the input spec. Only stateful mode requires integer sizes.
- `call` in stateful mode appends the pair `(self.states[i], states[i])` for every final state. If there are more final states than persistent ones, it raises `IndexError` after recording the pairs it could form (`Container.RecurrentContainer.Call`, `Err(IndexOutOfRange)`).
- The three static-shape asserts of `reset_states` raise the same `AssertionError` with the same message. The model tells them apart (`NotStaticSpec`, `BatchSizeNotStatic`, `InputLengthNotStatic`), a refinement of what the program reports.
- `pop` keeps the container's input spec. `reset_states` on a container that never had a layer fails, because there is no input spec.

## Model

| member | source | states |
|---|---|---|
| Shapes.CellOutputShape | recurrentshop/engine.py:99-103 | With `output_dim`, the last entry becomes `output_dim` and every earlier entry is kept (an empty shape becomes one entry). Without it, the shape is unchanged. |
| Shapes.CellOutputShapeIdempotent | recurrentshop/engine.py:99-103 | Applying a cell's output shape twice equals applying it once. |
| Shapes.InsertTime | recurrentshop/engine.py:125-128 | `(shape[0], t) + shape[1:]` is one entry longer, has `t` at index 1, and keeps every other entry in order. |
| Shapes.DropInsertTime | recurrentshop/engine.py:144-151 | Removing the time axis again gives back the per-step shape. |
| StateSpecs.Substitute | recurrentshop/engine.py:234-239 | Keeps the length. Maps `-1` and `'batch_size'` to the batch size and `'input_length'` to the input length. Leaves every other entry unchanged. |
| StateSpecs.SubstituteResolvesAll | recurrentshop/engine.py:219-226 | With sizes that are not sentinels, no sentinel is left, and substituting again changes nothing. |
| StateSpecs.StateFromInfo | recurrentshop/engine.py:230-248 | A callable is applied to the input. A tuple becomes zeros of exactly the substituted shape: same length, and no sentinel left when the sizes have none. A numpy literal becomes a variable. A list is passed through entry by entry, and any other value as it is. |
| StateSpecs.StaticCheck | recurrentshop/engine.py:219-226 | Passes iff every sentinel entry has an int size. Otherwise reports the error of the first rejected entry. |
| StateSpecs.FirstRejection | recurrentshop/engine.py:219-226 | The first entry that is rejected is exactly the one whose error is raised. |
| StateSpecs.Persist | recurrentshop/engine.py:214-227 | A spec is accepted iff it is a literal, or a shape whose sentinels all have int sizes. Callables and tensors raise the static-shape error. A shape becomes a zero variable of the substituted shape. |
| StateSpecs.StaticShape | recurrentshop/engine.py:219-226 | The entry-by-entry loop succeeds iff the static check passes. It then returns the substituted shape; otherwise it raises the static check's error. |
| Pipeline.PySlice | recurrentshop/engine.py:162 | Python's `s[lo:hi]` is the sub-sequence `s[lo..hi]` whenever the bounds lie inside the list. |
| Pipeline.PyAssign | recurrentshop/engine.py:163 | Python's `s[lo:hi] = t` replaces exactly the window `[lo, hi)` by `t` whenever the bounds lie inside the list. |
| Pipeline.OffsetMonotone | recurrentshop/engine.py:158-164 | State offsets never decrease along the layer list. |
| Pipeline.IndexIsOffset | recurrentshop/engine.py:158-164 | After `n` layers, `state_index` is the number of states declared by those layers. |
| Pipeline.PlainLayersKeepStates | recurrentshop/engine.py:165-166 | Across any stretch of plain layers, including one after a cell, the states and the state index are those the stretch was given, and each plain layer is applied to the previous output. |
| Pipeline.CellReadsItsWindow | recurrentshop/engine.py:160-164 | When every cell returns as many states as it declares and the vector holds at least all declared states, each cell is called with the previous layer's output and the slice `states[off:off+k]` of the given vector, where `off` counts the states declared before it. |
| Pipeline.CompositeLayout | recurrentshop/engine.py:156-167 | When every cell returns as many states as it declares and the vector holds at least all declared states: the vector keeps its length; each cell's window holds what that cell returned; positions past all cells' states are unchanged; and the output is the last layer's output. |
| Pipeline.ResolveSingles | recurrentshop/engine.py:196-201 | When each spec resolves to one tensor, a cell gets one state per spec, in spec order. |
| Pipeline.WarmupWindows | recurrentshop/engine.py:194-205 | After `n` layers, the initial states number the states those layers declare. Each cell's resolved states sit in its window. |
| Pipeline.InitialStatesLayout | recurrentshop/engine.py:185-206 | When every spec resolves to one tensor, there is one initial state per declared state. The state of spec `j` of cell `i` is at `Offset(i) + j`, resolved against the input that cell sees in the warm-up. |
| Pipeline.PersistSpecsPrefixError | recurrentshop/engine.py:214-227 | Once some spec of a cell raises, the whole cell raises that error. |
| Pipeline.PersistSpecsLayout | recurrentshop/engine.py:214-227 | A cell's buffers are built iff each of its specs is accepted; then there is one buffer per spec, in order. Otherwise the error is that of the first refused spec. |
| Pipeline.PersistRunError | recurrentshop/engine.py:212-227 | Once the first layers raise, every longer run raises the same error. |
| Pipeline.PersistRunOk | recurrentshop/engine.py:212-227 | The buffers of the first `n` layers are built iff each of their cells builds. Otherwise some cell's error is raised. |
| Pipeline.PersistentWindows | recurrentshop/engine.py:211-228 | The built buffers number the declared states, and each cell's buffers sit in its window. |
| Pipeline.PersistentStatesLayout | recurrentshop/engine.py:208-228 | `reset_states` succeeds iff every spec of every cell is accepted. Then there is one buffer per declared state, with spec `j` of cell `i` at `Offset(i) + j`. Otherwise the error is that of a refused spec. |
| Pipeline.PersistentMatchesInitial | recurrentshop/engine.py:171-174 | The stateful and fresh initial vectors given to the scan have the same length: the number of declared states. |
| Pipeline.SizeOrRuntime | recurrentshop/engine.py:187-192 | A size missing from the input spec is read from `K.shape(x)` at that axis; a size present is kept. The result is never missing. |
| Pipeline.ModelShape | recurrentshop/engine.py:147 | When the last layer is a cell with `output_dim`, the model's shape ends with `output_dim`. |
| Pipeline.ModelShapeAppend | recurrentshop/engine.py:147 | The model's shape after one more layer is that layer's output shape for the model's shape before it. |
| Pipeline.UpdatePairs | recurrentshop/engine.py:176-179 | One pair per index both lists have; pair `i` is `(persistent[i], final[i])`. |
| Pipeline.UpdatePairsExtend | recurrentshop/engine.py:178-179 | Pairing one more index appends exactly that index's pair. |
| Pipeline.UpdatePairsTruncate | recurrentshop/engine.py:178-179 | Only indexes present in both lists are paired. |
| Cells.MakeWeight | recurrentshop/engine.py:36-50 | An int `n` is the shape `(n,)`, and a shape is filled by the named initializer. A numpy array becomes a variable; anything else is the value itself. The regularizer and the trainable flag are kept. |
| Cells.LengthIsOneEntryShape | recurrentshop/engine.py:37-38 | An int builds the same weight as its one-entry shape. |
| Cells.WeightsPartition | recurrentshop/engine.py:84-97 | The trainable and non-trainable values together number the entries and hold exactly the entries' values. |
| Cells.AllTrainable | recurrentshop/engine.py:88-94 | When every entry is trainable, the trainable list is all values in input order and nothing is frozen. |
| Cells.RegularizersBound | recurrentshop/engine.py:95-97 | There is one bound regularizer per regularized entry, each bound to one of the entries' values. |
| Cells.StepArgs | recurrentshop/engine.py:61-68 | `step` receives the first `min(arity, available)` of `[x, states, weights, constants?]`, in that order. Constants are present only when set. |
| Cells.StepArgsSaturate | recurrentshop/engine.py:67 | A `step` that takes four or more parameters receives every available argument. More arity changes nothing. |
| Cells.DeclaredShape | recurrentshop/engine.py:55-59 | A `batch_input_shape` keyword is taken as it is. Otherwise `input_dim` wins over `input_shape`, giving `(None, input_dim)`, then `(None,) + input_shape`, or none is declared. |
| Cells.RNNCell.constructor | recurrentshop/engine.py:55-59 | A new cell has its declared shape, its states and step, and no weights. |
| Cells.RNNCell.SetWeights | recurrentshop/engine.py:83-97 | The three lists are rebuilt from the entries alone: trainable values, other values, and bound regularizers, each in input order. The getter then returns exactly the entries' values. |
| Cells.RNNCell.Weights | recurrentshop/engine.py:74-81 | The getter lists the trainable weights first, then the non-trainable ones, and nothing else. |
| Cells.RNNCell.CallStep | recurrentshop/engine.py:61-68 | `step` is called with `x` and `states`, then the getter's weights, then the constants when set, cut to the number of parameters `step` takes. |
| Cells.RNNCell.AsUnit | recurrentshop/engine.py:61-68 | The container calls the cell's `_step` with the cell's declared states, input shape and output dimension. |
| Container.BuildCell | recurrentshop/engine.py:214-227 | The per-spec loop of `reset_states` builds exactly one cell's buffers, or raises the error of its first refused spec. |
| Container.BuildStates | recurrentshop/engine.py:211-227 | The per-layer loop of `reset_states` builds exactly the persistent buffers, or raises the error of the first refused spec. |
| Container.RecurrentContainer.constructor | recurrentshop/engine.py:108-117 | A new container has its flags, no layers, no input spec and no persistent states. |
| Container.RecurrentContainer.ResetStates | recurrentshop/engine.py:208-228 | On success, `self.states` becomes the rebuilt buffers. On failure, it is left as it was, and without an input spec the call raises. Nothing else changes. |
| Container.RecurrentContainer.Add | recurrentshop/engine.py:119-131 | Appends the layer. The first layer must declare an input shape, which becomes the container's, with `input_length` at index 1. A stateful container then rebuilds its buffers. |
| Container.RecurrentContainer.Pop | recurrentshop/engine.py:133-138 | Removes the last layer; an empty model raises. A stateful container then rebuilds its buffers. |
| Container.RecurrentContainer.OutputShape | recurrentshop/engine.py:144-151 | The model's per-step shape, with the input's time axis at index 1 exactly when sequences are returned. Without an input spec or a layer, it raises. |
| Container.RecurrentContainer.Step | recurrentshop/engine.py:156-167 | The loop computes exactly the composite step. |
| Container.RecurrentContainer.GetInitialStates | recurrentshop/engine.py:185-206 | The loops compute exactly the warm-up's initial states, with missing sizes read from the input at run time. |
| Container.RecurrentContainer.Call | recurrentshop/engine.py:169-183 | Starts the scan from the persistent or the fresh states and records `UpdatePairs(self.states, finals)` when stateful. It raises when a final state has no persistent partner, and returns all outputs or the last one. |

## Left out

- `K.rnn`, the scan over time, is a parameter of `Call` (`Container.Scan`). Direction, masking, unrolling and the number of steps are the backend's business.
- Tensor creation is opaque: `K.variable`, `np.zeros`, the backend's `zeros` chosen by the global backend name, the initializers, and `_get_first_timestep` (`FirstTimestep(x)`). A zero tensor records only the shape it was built from.
- StateSpecs.Persist: does not model `np.zeros` raising on a shape entry that is not a non-negative int (such as `None`, `-2`, or a batch size of `-1` substituted for a sentinel); such a shape is built as a zero variable.
- Pipeline.SizeOrRuntime: `Dim.Unknown` stands for `None` and also for any other entry that is neither an int nor a sentinel, so the model reads such an entry from `K.shape(x)` as well; the source does that only for `None`.
- StateSpecs.StateFromInfo: does not model the backend's `zeros` raising on a shape entry it cannot use; such a shape is built as zeros.
- `getargspec` is replaced by a declared arity. A `step` whose parameters do not fit the arguments it receives is not modelled, because that failure happens inside the user's function.
- Keras `Sequential`, `Layer`, `InputSpec` and `build` are not part of this model. In particular, the shape compatibility checks Keras makes when a later layer is added are left out. A layer's input shape is the batch input shape it declares.
- The `initializations.get` and `regularizers.get` lookups are foreign calls: an initializer is known by its name and a regularizer by its name. An initializer given as a function is not modelled.
- Cells.RNNCell.SetWeights: records each regularizer bound to its own entry's value. It does not model `set_param` mutating a regularizer object shared by several entries, where the last binding wins for all of them.
- Cells.RNNCell.AsUnit: the container holds a snapshot of the cell taken when it is added. A later change to the cell's weights or constants is seen by the source through aliasing, but not by the model.
- `get_config`/`from_config`: they depend on Keras serialisation, which is not part of this model.
- The weight passthrough properties with no-op setters (`trainable_weights`, `non_trainable_weights`, `weights`, `regularizers` of the container), `input_shape`, and the container's `get_output_shape_for`: they only delegate, to the inner model or to `output_shape`.
- `initial_weights` and `supports_masking`: the container stores them, but nothing in this file uses them.
- Asserts removed by `python -O`: the model always raises where the source asserts.
- Container.RecurrentContainer.Call: does not model errors raised inside the scan or by the layers themselves.
