/**
 * What `RecurrentContainer` computes from its ordered layer list, as
 * functions: the composite step, the warm-up pass that builds initial states,
 * the persistent state buffers of stateful mode, and the per-step output
 * shape. The container's methods are proved against these.
 */
module Pipeline {
  import opened Wrappers
  import opened Tensors
  import opened StateSpecs
  import opened Shapes

  /** A step as the container calls it: input and state slice in, output and new states out. */
  type StepFn = (Tensor, seq<Tensor>) -> (Tensor, seq<Tensor>)

  /**
   * A layer of the container: a recurrent cell (its declared states and its
   * `_step`) or a plain layer (its `call`). `inputShape` is the layer's batch
   * input shape, empty when it declares none.
   */
  datatype Unit =
    | Cell(specs: seq<Spec>, step: StepFn, inputShape: seq<Dim>, outputDim: Option<int>)
    | Plain(apply: Tensor -> Tensor, inputShape: seq<Dim>, shapeFor: seq<Dim> -> seq<Dim>)

  function Min(a: int, b: int): int { if a <= b then a else b }

  function Max(a: int, b: int): int { if a <= b then b else a }

  /** Python's `s[lo:hi]` for non-negative bounds: both are clamped to the list. */
  function PySlice<T>(s: seq<T>, lo: nat, hi: nat): (r: seq<T>)
    ensures lo <= hi <= |s| ==> r == s[lo..hi]
  {
    var a := Min(lo, |s|);
    var b := Min(hi, |s|);
    if a <= b then s[a..b] else []
  }

  /** Python's `s[lo:hi] = t` for non-negative bounds: the list grows or shrinks to fit `t`. */
  function PyAssign<T>(s: seq<T>, lo: nat, hi: nat, t: seq<T>): (r: seq<T>)
    ensures lo <= hi <= |s| ==> r == s[..lo] + t + s[hi..]
  {
    var a := Min(lo, |s|);
    var b := Max(a, Min(hi, |s|));
    s[..a] + t + s[b..]
  }

  // ---------------------------------------------------------------------------
  // Where each cell's states live in the flat state vector

  /** The number of states a layer owns: `len(layer.states)` for a cell, none for a plain layer. */
  function Width(u: Unit): nat {
    if u.Cell? then |u.specs| else 0
  }

  /** Where the states of layer `i` start: the number of states declared by the layers before it. */
  function Offset(units: seq<Unit>, i: nat): nat
    requires i <= |units|
  {
    if i == 0 then 0 else Offset(units, i - 1) + Width(units[i - 1])
  }

  /** The total number of declared states of the cells in `units`. */
  function StateCount(units: seq<Unit>): nat {
    Offset(units, |units|)
  }

  lemma OffsetNext(units: seq<Unit>, i: nat)
    requires i < |units|
    ensures Offset(units, i + 1) == Offset(units, i) + Width(units[i])
  {
  }

  /** Offsets never decrease along the layer list. */
  lemma {:induction false} OffsetMonotone(units: seq<Unit>, i: nat, n: nat)
    requires i <= n <= |units|
    ensures Offset(units, i) <= Offset(units, n)
  {
    if i < n {
      OffsetMonotone(units, i, n - 1);
      OffsetNext(units, n - 1);
    }
  }

  // ---------------------------------------------------------------------------
  // The composite step (RecurrentContainer.step)

  /** The loop variables of the composite step: running input, state list, state index. */
  datatype Progress = Progress(x: Tensor, states: seq<Tensor>, index: nat)

  /**
   * One pass of the loop body: a cell is called on the slice
   * `states[index : index + len(specs)]`, its new states are slice-assigned
   * back and the index moves past them; a plain layer maps the input only.
   */
  function Advance(u: Unit, p: Progress): Progress {
    match u
    case Cell(specs, step, _, _) =>
      var hi := p.index + |specs|;
      var r := step(p.x, PySlice(p.states, p.index, hi));
      Progress(r.0, PyAssign(p.states, p.index, hi, r.1), hi)
    case Plain(apply, _, _) =>
      Progress(apply(p.x), p.states, p.index)
  }

  /** The loop variables after the first `n` layers. */
  function Run(units: seq<Unit>, x: Tensor, states: seq<Tensor>, n: nat): Progress
    requires n <= |units|
  {
    if n == 0 then Progress(x, states, 0) else Advance(units[n - 1], Run(units, x, states, n - 1))
  }

  /** The composite step: the last layer's output and the state list after all layers. */
  function Composite(units: seq<Unit>, x: Tensor, states: seq<Tensor>): (Tensor, seq<Tensor>) {
    var p := Run(units, x, states, |units|);
    (p.x, p.states)
  }

  /** The state index always equals the number of states declared by the layers already passed. */
  lemma {:induction false} IndexIsOffset(units: seq<Unit>, x: Tensor, states: seq<Tensor>, n: nat)
    requires n <= |units|
    ensures Run(units, x, states, n).index == Offset(units, n)
  {
    if n > 0 {
      IndexIsOffset(units, x, states, n - 1);
      OffsetNext(units, n - 1);
    }
  }

  /**
   * Plain layers read and write no state: across any stretch of plain layers,
   * wherever it starts, the states and the state index are those the stretch
   * was given, and each plain layer is applied to the previous output.
   */
  lemma {:induction false} PlainLayersKeepStates(units: seq<Unit>, x: Tensor, states: seq<Tensor>, m: nat, n: nat)
    requires m <= n <= |units|
    requires forall i :: m <= i < n ==> units[i].Plain?
    ensures Run(units, x, states, n).states == Run(units, x, states, m).states
    ensures Run(units, x, states, n).index == Run(units, x, states, m).index
    ensures m < n ==> Run(units, x, states, n).x == units[n - 1].apply(Run(units, x, states, n - 1).x)
  {
    if m < n {
      PlainLayersKeepStates(units, x, states, m, n - 1);
    }
  }

  /**
   * The reference reading of the composite step: layer `n` is fed the output
   * of layer `n - 1`, and a cell reads the window
   * `[Offset(n), Offset(n) + len(specs))` of the vector the step was GIVEN.
   * Returns the layer's output and the states it returned.
   */
  function Called(units: seq<Unit>, x: Tensor, states: seq<Tensor>, n: nat): (Tensor, seq<Tensor>)
    requires n < |units|
    decreases n, 1
  {
    var input := Fed(units, x, states, n);
    match units[n]
    case Cell(specs, step, _, _) => step(input, PySlice(states, Offset(units, n), Offset(units, n) + |specs|))
    case Plain(apply, _, _) => (apply(input), [])
  }

  /** The input layer `n` is fed in the reference reading. */
  function Fed(units: seq<Unit>, x: Tensor, states: seq<Tensor>, n: nat): Tensor
    requires n <= |units|
    decreases n, 0
  {
    if n == 0 then x else Called(units, x, states, n - 1).0
  }

  /**
   * Every cell returns exactly as many states as it declares, and the vector
   * holds at least the declared states of all cells.
   */
  predicate KeepsWidth(units: seq<Unit>, x: Tensor, states: seq<Tensor>) {
    && StateCount(units) <= |states|
    && forall i :: 0 <= i < |units| ==> KeepsWidthAt(units, x, states, i)
  }

  /** Layer `i` returns as many states as it declares. */
  predicate KeepsWidthAt(units: seq<Unit>, x: Tensor, states: seq<Tensor>, i: nat)
    requires i < |units|
  {
    |Called(units, x, states, i).1| == Width(units[i])
  }

  /** The window of layer `i` in `out` holds what layer `i` returned in the reference reading. */
  predicate WindowHolds(units: seq<Unit>, x: Tensor, states: seq<Tensor>, out: seq<Tensor>, i: nat)
    requires i < |units|
  {
    && Offset(units, i) + Width(units[i]) <= |out|
    && out[Offset(units, i)..Offset(units, i) + Width(units[i])] == Called(units, x, states, i).1
  }

  /** Writing `ns` over `s[off : off + |ns|]` keeps the length and everything outside the window. */
  lemma Splice<T>(s: seq<T>, off: nat, ns: seq<T>)
    requires off + |ns| <= |s|
    ensures |s[..off] + ns + s[off + |ns|..]| == |s|
    ensures (s[..off] + ns + s[off + |ns|..])[..off] == s[..off]
    ensures (s[..off] + ns + s[off + |ns|..])[off..off + |ns|] == ns
    ensures (s[..off] + ns + s[off + |ns|..])[off + |ns|..] == s[off + |ns|..]
  {
  }

  /** A window that ends before `off` reads the same in any list with the same first `off` entries. */
  lemma SameWindow<T>(s: seq<T>, t: seq<T>, off: nat, lo: nat, hi: nat)
    requires lo <= hi <= off <= |s| && off <= |t| && s[..off] == t[..off]
    ensures s[lo..hi] == t[lo..hi]
  {
    forall k | 0 <= k < hi - lo
      ensures s[lo..hi][k] == t[lo..hi][k]
    {
      assert s[..off][lo + k] == t[..off][lo + k];
    }
  }

  /** A window that ends before layer `m`'s survives a write that leaves the first `Offset(m)` entries alone. */
  lemma WindowKept(units: seq<Unit>, x: Tensor, states: seq<Tensor>, before: seq<Tensor>, after: seq<Tensor>, i: nat, m: nat)
    requires i < m < |units| && WindowHolds(units, x, states, before, i)
    requires Offset(units, m) <= |before| && Offset(units, m) <= |after|
    requires after[..Offset(units, m)] == before[..Offset(units, m)]
    ensures WindowHolds(units, x, states, after, i)
  {
    OffsetNext(units, i);
    OffsetMonotone(units, i + 1, m);
    SameWindow(after, before, Offset(units, m), Offset(units, i), Offset(units, i) + Width(units[i]));
  }

  /**
   * One layer of the composite step, when the layers before it laid the
   * vector out as the reference reading says: the layer is called exactly as
   * in the reference reading, and its returned states replace its window.
   */
  lemma LayerStep(units: seq<Unit>, x: Tensor, states: seq<Tensor>, m: nat)
    requires m < |units| && KeepsWidth(units, x, states)
    requires Offset(units, m) + Width(units[m]) <= |states|
    requires Run(units, x, states, m).index == Offset(units, m)
    requires Run(units, x, states, m).x == Fed(units, x, states, m)
    requires |Run(units, x, states, m).states| == |states|
    requires Run(units, x, states, m).states[Offset(units, m)..] == states[Offset(units, m)..]
    ensures |Called(units, x, states, m).1| == Width(units[m])
    ensures Run(units, x, states, m + 1).states
         == Run(units, x, states, m).states[..Offset(units, m)]
            + Called(units, x, states, m).1
            + Run(units, x, states, m).states[Offset(units, m) + Width(units[m])..]
    ensures Run(units, x, states, m + 1).x == Fed(units, x, states, m + 1)
  {
    assert KeepsWidthAt(units, x, states, m);
    var p := Run(units, x, states, m).states;
    var off := Offset(units, m);
    var k := Width(units[m]);
    assert PySlice(p, off, off + k) == states[off..off + k] by {
      assert p[off..][..k] == states[off..][..k];
    }
  }

  /**
   * The composite step after `n` layers, when every cell keeps its width: the
   * vector keeps its length, is untouched from the current offset on, and the
   * running input is the reference reading's.
   */
  lemma {:induction false} RunFrame(units: seq<Unit>, x: Tensor, states: seq<Tensor>, n: nat)
    requires n <= |units| && KeepsWidth(units, x, states)
    ensures Offset(units, n) <= |states|
    ensures Run(units, x, states, n).index == Offset(units, n)
    ensures Run(units, x, states, n).x == Fed(units, x, states, n)
    ensures |Run(units, x, states, n).states| == |states|
    ensures Run(units, x, states, n).states[Offset(units, n)..] == states[Offset(units, n)..]
  {
    OffsetMonotone(units, n, |units|);
    IndexIsOffset(units, x, states, n);
    if n > 0 {
      var m := n - 1;
      RunFrame(units, x, states, m);
      OffsetNext(units, m);
      var p := Run(units, x, states, m).states;
      var off := Offset(units, m);
      var k := Width(units[m]);
      var ns := Called(units, x, states, m).1;
      LayerStep(units, x, states, m);
      Splice(p, off, ns);
      calc {
        Run(units, x, states, n).states[off + k..];
        p[off + k..];
        p[off..][k..];
        states[off..][k..];
        states[off + k..];
      }
    }
  }

  /** After `n` layers, the window of each layer passed holds what it returned in the reference reading. */
  lemma {:induction false} RunWindows(units: seq<Unit>, x: Tensor, states: seq<Tensor>, n: nat)
    requires n <= |units| && KeepsWidth(units, x, states)
    ensures forall i :: 0 <= i < n ==> WindowHolds(units, x, states, Run(units, x, states, n).states, i)
  {
    if n > 0 {
      var m := n - 1;
      RunWindows(units, x, states, m);
      RunFrame(units, x, states, m);
      RunFrame(units, x, states, n);
      OffsetNext(units, m);
      var p := Run(units, x, states, m).states;
      var q := Run(units, x, states, n).states;
      var ns := Called(units, x, states, m).1;
      LayerStep(units, x, states, m);
      Splice(p, Offset(units, m), ns);
      assert WindowHolds(units, x, states, q, m);
      forall i | 0 <= i < m
        ensures WindowHolds(units, x, states, q, i)
      {
        WindowKept(units, x, states, p, q, i, m);
      }
    }
  }

  /**
   * The composite step when every cell keeps its width: the state vector keeps
   * its length, each cell's window holds exactly the states that cell returned
   * when called on its window of the given vector, positions past all cells'
   * states are unchanged, and the output is the last layer's output.
   */
  lemma CompositeLayout(units: seq<Unit>, x: Tensor, states: seq<Tensor>)
    requires KeepsWidth(units, x, states)
    ensures |Composite(units, x, states).1| == |states|
    ensures Composite(units, x, states).0 == Fed(units, x, states, |units|)
    ensures forall i :: 0 <= i < |units| ==>
      Offset(units, i) + Width(units[i]) <= |states| &&
      Composite(units, x, states).1[Offset(units, i)..Offset(units, i) + Width(units[i])]
        == Called(units, x, states, i).1
    ensures Composite(units, x, states).1[StateCount(units)..] == states[StateCount(units)..]
  {
    RunFrame(units, x, states, |units|);
    RunWindows(units, x, states, |units|);
    var out := Composite(units, x, states).1;
    forall i | 0 <= i < |units|
      ensures Offset(units, i) + Width(units[i]) <= |states|
      ensures out[Offset(units, i)..Offset(units, i) + Width(units[i])] == Called(units, x, states, i).1
    {
      assert WindowHolds(units, x, states, out, i);
    }
  }

  /**
   * Each cell is called with the output of the layer before it and with the
   * slice `states[off : off + k]` of the vector the step was given, `off`
   * being the number of states declared before it.
   */
  lemma CellReadsItsWindow(units: seq<Unit>, x: Tensor, states: seq<Tensor>, n: nat)
    requires n < |units| && units[n].Cell? && KeepsWidth(units, x, states)
    ensures Run(units, x, states, n).x == Fed(units, x, states, n)
    ensures Run(units, x, states, n).index == Offset(units, n)
    ensures Offset(units, n) + Width(units[n]) <= |states|
    ensures PySlice(Run(units, x, states, n).states, Offset(units, n), Offset(units, n) + Width(units[n]))
         == states[Offset(units, n)..Offset(units, n) + Width(units[n])]
  {
    RunFrame(units, x, states, n);
    OffsetNext(units, n);
    OffsetMonotone(units, n + 1, |units|);
    SameSuffixSlice(Run(units, x, states, n).states, states, Offset(units, n), Width(units[n]));
  }

  /** Two lists of equal length that agree from `off` on agree on the window `[off, off + k)`. */
  lemma SameSuffixSlice<T>(p: seq<T>, s: seq<T>, off: nat, k: nat)
    requires |p| == |s| && off + k <= |s| && p[off..] == s[off..]
    ensures PySlice(p, off, off + k) == s[off..off + k]
  {
    assert p[off..][..k] == s[off..][..k];
  }

  // ---------------------------------------------------------------------------
  // Initial states for a fresh forward pass (RecurrentContainer.get_initial_states)

  /** A resolved state as the warm-up appends it: a list is spliced in, anything else appended. */
  function Flatten(v: StateValue): seq<Tensor> {
    match v
    case Single(t) => [t]
    case Several(ts) => ts
  }

  /** One cell's initial states: its specs resolved in order against the running input. */
  function Resolve(specs: seq<Spec>, input: Tensor, batchSize: Dim, inputLength: Dim): seq<Tensor> {
    if specs == [] then []
    else
      Resolve(specs[..|specs| - 1], input, batchSize, inputLength)
        + Flatten(StateFromInfo(specs[|specs| - 1], input, batchSize, inputLength))
  }

  /** When every spec resolves to one tensor, a cell gets one state per spec, in spec order. */
  lemma {:induction false} ResolveSingles(specs: seq<Spec>, input: Tensor, batchSize: Dim, inputLength: Dim)
    requires forall j :: 0 <= j < |specs| ==> StateFromInfo(specs[j], input, batchSize, inputLength).Single?
    ensures |Resolve(specs, input, batchSize, inputLength)| == |specs|
    ensures forall j :: 0 <= j < |specs| ==>
      Resolve(specs, input, batchSize, inputLength)[j] == StateFromInfo(specs[j], input, batchSize, inputLength).t
  {
    if specs != [] {
      var front := specs[..|specs| - 1];
      ResolveSingles(front, input, batchSize, inputLength);
      assert forall j :: 0 <= j < |front| ==> front[j] == specs[j];
    }
  }

  /** The warm-up loop's variables: the initial states so far and the running input. */
  datatype Warmup = Warmup(initial: seq<Tensor>, input: Tensor)

  /**
   * The warm-up loop after `n` layers: a cell appends its resolved states and
   * advances the input by one call of its step on them; a plain layer only
   * advances the input.
   */
  function WarmupRun(units: seq<Unit>, first: Tensor, batchSize: Dim, inputLength: Dim, n: nat): Warmup
    requires n <= |units|
  {
    if n == 0 then Warmup([], first)
    else
      var w := WarmupRun(units, first, batchSize, inputLength, n - 1);
      match units[n - 1]
      case Cell(specs, step, _, _) =>
        var own := Resolve(specs, w.input, batchSize, inputLength);
        Warmup(w.initial + own, step(w.input, own).0)
      case Plain(apply, _, _) =>
        Warmup(w.initial, apply(w.input))
  }

  /** A size read from the input spec, or the matching entry of `K.shape(x)` when it is None. */
  function SizeOrRuntime(d: Dim, axis: nat): (r: Dim)
    ensures r != Unknown
    ensures d != Unknown ==> r == d
    ensures d == Unknown ==> r == ShapeOf(axis)
  {
    if d == Unknown then ShapeOf(axis) else d
  }

  /** `get_initial_states(x)` for a container whose input spec has shape `shape`. */
  function InitialStates(units: seq<Unit>, x: Tensor, shape: seq<Dim>): seq<Tensor>
    requires |shape| >= 2
  {
    WarmupRun(units, FirstTimestep(x), SizeOrRuntime(shape[0], 0), SizeOrRuntime(shape[1], 1), |units|).initial
  }

  /** Every spec of every cell resolves to one tensor against the input that cell sees. */
  predicate AllSingle(units: seq<Unit>, first: Tensor, batchSize: Dim, inputLength: Dim) {
    forall i, j :: 0 <= i < |units| && units[i].Cell? && 0 <= j < |units[i].specs| ==>
      StateFromInfo(units[i].specs[j], WarmupRun(units, first, batchSize, inputLength, i).input, batchSize, inputLength).Single?
  }

  /** The window of layer `i` in `out` holds that cell's resolved states. */
  predicate WarmupWindow(units: seq<Unit>, first: Tensor, batchSize: Dim, inputLength: Dim, out: seq<Tensor>, i: nat)
    requires i < |units|
  {
    && Offset(units, i) + Width(units[i]) <= |out|
    && (units[i].Cell? ==>
          out[Offset(units, i)..Offset(units, i) + Width(units[i])]
            == Resolve(units[i].specs, WarmupRun(units, first, batchSize, inputLength, i).input, batchSize, inputLength))
  }

  /** The initial states layer `m` appends in the warm-up: its resolved states, or none. */
  function Own(units: seq<Unit>, first: Tensor, batchSize: Dim, inputLength: Dim, m: nat): seq<Tensor>
    requires m < |units|
  {
    match units[m]
    case Cell(specs, _, _, _) => Resolve(specs, WarmupRun(units, first, batchSize, inputLength, m).input, batchSize, inputLength)
    case Plain(_, _, _) => []
  }

  lemma WarmupStep(units: seq<Unit>, first: Tensor, batchSize: Dim, inputLength: Dim, m: nat)
    requires m < |units| && AllSingle(units, first, batchSize, inputLength)
    ensures WarmupRun(units, first, batchSize, inputLength, m + 1).initial
         == WarmupRun(units, first, batchSize, inputLength, m).initial + Own(units, first, batchSize, inputLength, m)
    ensures |Own(units, first, batchSize, inputLength, m)| == Width(units[m])
  {
    if units[m].Cell? {
      ResolveSingles(units[m].specs, WarmupRun(units, first, batchSize, inputLength, m).input, batchSize, inputLength);
    }
  }

  /** Appending after `Offset(m)` keeps the window of an earlier layer. */
  lemma WarmupWindowKept(units: seq<Unit>, first: Tensor, batchSize: Dim, inputLength: Dim,
                         before: seq<Tensor>, after: seq<Tensor>, i: nat, m: nat)
    requires i < m < |units| && WarmupWindow(units, first, batchSize, inputLength, before, i)
    requires |before| == Offset(units, m) <= |after| && after[..|before|] == before
    ensures WarmupWindow(units, first, batchSize, inputLength, after, i)
  {
    OffsetNext(units, i);
    OffsetMonotone(units, i + 1, m);
    SameWindow(after, before, |before|, Offset(units, i), Offset(units, i) + Width(units[i]));
  }

  /**
   * When every spec resolves to one tensor, the initial states after `n`
   * layers number the states declared by those layers, and each cell's
   * resolved states sit in its window: layer order first, then spec order;
   * plain layers contribute nothing.
   */
  lemma {:induction false} WarmupWindows(units: seq<Unit>, first: Tensor, batchSize: Dim, inputLength: Dim, n: nat)
    requires n <= |units| && AllSingle(units, first, batchSize, inputLength)
    ensures |WarmupRun(units, first, batchSize, inputLength, n).initial| == Offset(units, n)
    ensures forall i :: 0 <= i < n ==>
      WarmupWindow(units, first, batchSize, inputLength, WarmupRun(units, first, batchSize, inputLength, n).initial, i)
  {
    if n > 0 {
      var m := n - 1;
      WarmupWindows(units, first, batchSize, inputLength, m);
      OffsetNext(units, m);
      WarmupStep(units, first, batchSize, inputLength, m);
      var before := WarmupRun(units, first, batchSize, inputLength, m).initial;
      var own := Own(units, first, batchSize, inputLength, m);
      var now := before + own;
      assert now[..|before|] == before;
      assert now[|before|..|before| + |own|] == own;
      assert WarmupWindow(units, first, batchSize, inputLength, now, m);
      forall i | 0 <= i < m
        ensures WarmupWindow(units, first, batchSize, inputLength, now, i)
      {
        WarmupWindowKept(units, first, batchSize, inputLength, before, now, i, m);
      }
    }
  }

  /**
   * When every spec resolves to one tensor, the initial state vector has one
   * entry per declared state: the state of spec `j` of layer `i` sits at
   * `Offset(i) + j`, which is where the composite step reads it.
   */
  lemma {:induction false} InitialStatesLayout(units: seq<Unit>, x: Tensor, shape: seq<Dim>)
    requires |shape| >= 2
    requires AllSingle(units, FirstTimestep(x), SizeOrRuntime(shape[0], 0), SizeOrRuntime(shape[1], 1))
    ensures |InitialStates(units, x, shape)| == StateCount(units)
    ensures forall i :: 0 <= i < |units| && units[i].Cell? ==> Offset(units, i) + |units[i].specs| <= StateCount(units)
    ensures forall i, j :: 0 <= i < |units| && units[i].Cell? && 0 <= j < |units[i].specs| ==>
      InitialStates(units, x, shape)[Offset(units, i) + j]
        == StateFromInfo(units[i].specs[j],
                         WarmupRun(units, FirstTimestep(x), SizeOrRuntime(shape[0], 0), SizeOrRuntime(shape[1], 1), i).input,
                         SizeOrRuntime(shape[0], 0), SizeOrRuntime(shape[1], 1)).t
  {
    WarmupLayout(units, FirstTimestep(x), SizeOrRuntime(shape[0], 0), SizeOrRuntime(shape[1], 1));
  }

  /** `InitialStatesLayout` for any first timestep and sizes. */
  lemma {:induction false} WarmupLayout(units: seq<Unit>, first: Tensor, batchSize: Dim, inputLength: Dim)
    requires AllSingle(units, first, batchSize, inputLength)
    ensures |WarmupRun(units, first, batchSize, inputLength, |units|).initial| == StateCount(units)
    ensures forall i :: 0 <= i < |units| && units[i].Cell? ==> Offset(units, i) + |units[i].specs| <= StateCount(units)
    ensures forall i, j :: 0 <= i < |units| && units[i].Cell? && 0 <= j < |units[i].specs| ==>
      WarmupRun(units, first, batchSize, inputLength, |units|).initial[Offset(units, i) + j]
        == StateFromInfo(units[i].specs[j], WarmupRun(units, first, batchSize, inputLength, i).input, batchSize, inputLength).t
  {
    WarmupWindows(units, first, batchSize, inputLength, |units|);
    forall i | 0 <= i < |units| && units[i].Cell?
      ensures Offset(units, i) + |units[i].specs| <= StateCount(units)
    {
      WarmupBound(units, first, batchSize, inputLength, i);
    }
    forall i, j | 0 <= i < |units| && units[i].Cell? && 0 <= j < |units[i].specs|
      ensures WarmupRun(units, first, batchSize, inputLength, |units|).initial[Offset(units, i) + j]
          == StateFromInfo(units[i].specs[j], WarmupRun(units, first, batchSize, inputLength, i).input, batchSize, inputLength).t
    {
      WarmupEntry(units, first, batchSize, inputLength, i, j);
    }
  }

  lemma WarmupBound(units: seq<Unit>, first: Tensor, batchSize: Dim, inputLength: Dim, i: nat)
    requires i < |units| && units[i].Cell?
    requires |WarmupRun(units, first, batchSize, inputLength, |units|).initial| == Offset(units, |units|)
    requires WarmupWindow(units, first, batchSize, inputLength, WarmupRun(units, first, batchSize, inputLength, |units|).initial, i)
    ensures Offset(units, i) + |units[i].specs| <= StateCount(units)
  {
  }

  /** The entry for spec `j` of cell `i` in the complete warm-up. */
  lemma WarmupEntry(units: seq<Unit>, first: Tensor, batchSize: Dim, inputLength: Dim, i: nat, j: nat)
    requires i < |units| && units[i].Cell? && j < |units[i].specs|
    requires AllSingle(units, first, batchSize, inputLength)
    requires |WarmupRun(units, first, batchSize, inputLength, |units|).initial| == Offset(units, |units|)
    requires WarmupWindow(units, first, batchSize, inputLength, WarmupRun(units, first, batchSize, inputLength, |units|).initial, i)
    ensures Offset(units, i) + j < StateCount(units)
    ensures WarmupRun(units, first, batchSize, inputLength, |units|).initial[Offset(units, i) + j]
         == StateFromInfo(units[i].specs[j], WarmupRun(units, first, batchSize, inputLength, i).input, batchSize, inputLength).t
  {
    var out := WarmupRun(units, first, batchSize, inputLength, |units|).initial;
    ResolveSingles(units[i].specs, WarmupRun(units, first, batchSize, inputLength, i).input, batchSize, inputLength);
    assert out[Offset(units, i) + j] == out[Offset(units, i)..Offset(units, i) + Width(units[i])][j];
  }

  // ---------------------------------------------------------------------------
  // Persistent state buffers (RecurrentContainer.reset_states)

  /** One cell's buffers, built in spec order; the first refused spec raises. */
  function PersistSpecs(specs: seq<Spec>, batchSize: Dim, inputLength: Dim): Result<seq<Tensor>, Error> {
    if specs == [] then Ok([])
    else
      match PersistSpecs(specs[..|specs| - 1], batchSize, inputLength)
      case Err(e) => Err(e)
      case Ok(ts) =>
        match Persist(specs[|specs| - 1], batchSize, inputLength)
        case Err(e) => Err(e)
        case Ok(t) => Ok(ts + [t])
  }

  /** The buffers of the first `n` layers, cell by cell; the first refused spec raises. */
  function PersistRun(units: seq<Unit>, batchSize: Dim, inputLength: Dim, n: nat): Result<seq<Tensor>, Error>
    requires n <= |units|
  {
    if n == 0 then Ok([])
    else
      match PersistRun(units, batchSize, inputLength, n - 1)
      case Err(e) => Err(e)
      case Ok(ts) =>
        match units[n - 1]
        case Plain(_, _, _) => Ok(ts)
        case Cell(specs, _, _, _) =>
          match PersistSpecs(specs, batchSize, inputLength)
          case Err(e) => Err(e)
          case Ok(own) => Ok(ts + own)
  }

  /** All buffers `reset_states` builds. */
  function PersistentStates(units: seq<Unit>, batchSize: Dim, inputLength: Dim): Result<seq<Tensor>, Error> {
    PersistRun(units, batchSize, inputLength, |units|)
  }

  /** Once a prefix of the specs raises, all of them raise the same error. */
  lemma {:induction false} PersistSpecsPrefixError(specs: seq<Spec>, batchSize: Dim, inputLength: Dim, m: nat)
    requires m <= |specs| && PersistSpecs(specs[..m], batchSize, inputLength).Err?
    ensures PersistSpecs(specs, batchSize, inputLength) == PersistSpecs(specs[..m], batchSize, inputLength)
    decreases |specs|
  {
    if m == |specs| {
      assert specs[..m] == specs;
    } else {
      var front := specs[..|specs| - 1];
      assert front[..m] == specs[..m];
      PersistSpecsPrefixError(front, batchSize, inputLength, m);
    }
  }

  /**
   * A cell's buffers are built iff every one of its specs is accepted; then
   * there is one buffer per spec, in spec order; otherwise the error is that
   * of the first refused spec.
   */
  lemma {:induction false} PersistSpecsLayout(specs: seq<Spec>, batchSize: Dim, inputLength: Dim)
    ensures PersistSpecs(specs, batchSize, inputLength).Ok?
        <==> forall j :: 0 <= j < |specs| ==> Persist(specs[j], batchSize, inputLength).Ok?
    ensures PersistSpecs(specs, batchSize, inputLength).Ok? ==>
      && |PersistSpecs(specs, batchSize, inputLength).value| == |specs|
      && forall j :: 0 <= j < |specs| ==>
           PersistSpecs(specs, batchSize, inputLength).value[j] == Persist(specs[j], batchSize, inputLength).value
    ensures PersistSpecs(specs, batchSize, inputLength).Err? ==>
      exists j :: && 0 <= j < |specs|
                  && Persist(specs[j], batchSize, inputLength) == Err(PersistSpecs(specs, batchSize, inputLength).error)
                  && forall k :: 0 <= k < j ==> Persist(specs[k], batchSize, inputLength).Ok?
  {
    if specs != [] {
      var front := specs[..|specs| - 1];
      PersistSpecsLayout(front, batchSize, inputLength);
      assert forall j :: 0 <= j < |front| ==> front[j] == specs[j];
      var last := |specs| - 1;
      if PersistSpecs(front, batchSize, inputLength).Ok? && Persist(specs[last], batchSize, inputLength).Err? {
        assert Persist(specs[last], batchSize, inputLength) == Err(PersistSpecs(specs, batchSize, inputLength).error);
      }
    }
  }

  /** Once the first `m` layers raise, every longer run raises the same error. */
  lemma {:induction false} PersistRunError(units: seq<Unit>, batchSize: Dim, inputLength: Dim, m: nat, n: nat)
    requires m <= n <= |units| && PersistRun(units, batchSize, inputLength, m).Err?
    ensures PersistRun(units, batchSize, inputLength, n) == PersistRun(units, batchSize, inputLength, m)
    decreases n
  {
    if m < n {
      PersistRunError(units, batchSize, inputLength, m, n - 1);
    }
  }

  /** The first `n` layers build their buffers iff each of their cells does; otherwise some cell's error is raised. */
  lemma {:induction false} PersistRunOk(units: seq<Unit>, batchSize: Dim, inputLength: Dim, n: nat)
    requires n <= |units|
    ensures PersistRun(units, batchSize, inputLength, n).Ok?
        <==> forall i :: 0 <= i < n && units[i].Cell? ==> PersistSpecs(units[i].specs, batchSize, inputLength).Ok?
    ensures PersistRun(units, batchSize, inputLength, n).Err? ==>
      exists i :: && 0 <= i < n && units[i].Cell?
                  && PersistSpecs(units[i].specs, batchSize, inputLength) == Err(PersistRun(units, batchSize, inputLength, n).error)
  {
    if n > 0 {
      PersistRunOk(units, batchSize, inputLength, n - 1);
    }
  }

  /** Specs accepted up to `j` and accepted at `j` extend the buffers by the buffer of spec `j`. */
  lemma PersistSpecsGrows(specs: seq<Spec>, batchSize: Dim, inputLength: Dim, j: nat)
    requires j < |specs| && PersistSpecs(specs[..j], batchSize, inputLength).Ok?
    requires Persist(specs[j], batchSize, inputLength).Ok?
    ensures PersistSpecs(specs[..j + 1], batchSize, inputLength)
         == Ok(PersistSpecs(specs[..j], batchSize, inputLength).value + [Persist(specs[j], batchSize, inputLength).value])
  {
    var front := specs[..j + 1];
    assert front[..|front| - 1] == specs[..j];
    assert front[|front| - 1] == specs[j];
  }

  /** Specs accepted up to `j` and refused at `j` make the first `j + 1` specs raise. */
  lemma PersistSpecsFailsAt(specs: seq<Spec>, batchSize: Dim, inputLength: Dim, j: nat, e: Error)
    requires j < |specs| && PersistSpecs(specs[..j], batchSize, inputLength).Ok?
    requires Persist(specs[j], batchSize, inputLength) == Err(e)
    ensures PersistSpecs(specs[..j + 1], batchSize, inputLength) == Err(e)
  {
    var front := specs[..j + 1];
    assert front[..|front| - 1] == specs[..j];
    assert front[|front| - 1] == specs[j];
  }

  /** Layers accepted up to `i` and a cell refused at `i` make the first `i + 1` layers raise. */
  lemma PersistRunFailsAt(units: seq<Unit>, batchSize: Dim, inputLength: Dim, i: nat, e: Error)
    requires i < |units| && units[i].Cell? && PersistRun(units, batchSize, inputLength, i).Ok?
    requires PersistSpecs(units[i].specs, batchSize, inputLength) == Err(e)
    ensures PersistRun(units, batchSize, inputLength, i + 1) == Err(e)
  {
  }

  /** The window of layer `i` in `out` holds that cell's buffers. */
  predicate PersistWindow(units: seq<Unit>, batchSize: Dim, inputLength: Dim, out: seq<Tensor>, i: nat)
    requires i < |units|
  {
    && Offset(units, i) + Width(units[i]) <= |out|
    && (units[i].Cell? ==>
          && PersistSpecs(units[i].specs, batchSize, inputLength).Ok?
          && out[Offset(units, i)..Offset(units, i) + Width(units[i])]
               == PersistSpecs(units[i].specs, batchSize, inputLength).value)
  }

  /** A successful run over `m + 1` layers extends the run over `m` by layer `m`'s buffers. */
  lemma PersistStep(units: seq<Unit>, batchSize: Dim, inputLength: Dim, m: nat)
    requires m < |units| && PersistRun(units, batchSize, inputLength, m + 1).Ok?
    ensures PersistRun(units, batchSize, inputLength, m).Ok?
    ensures units[m].Plain? ==>
      PersistRun(units, batchSize, inputLength, m + 1).value == PersistRun(units, batchSize, inputLength, m).value
    ensures units[m].Cell? ==>
      && PersistSpecs(units[m].specs, batchSize, inputLength).Ok?
      && |PersistSpecs(units[m].specs, batchSize, inputLength).value| == |units[m].specs|
      && PersistRun(units, batchSize, inputLength, m + 1).value
           == PersistRun(units, batchSize, inputLength, m).value + PersistSpecs(units[m].specs, batchSize, inputLength).value
  {
    if units[m].Cell? {
      PersistSpecsLayout(units[m].specs, batchSize, inputLength);
    }
  }

  /** Appending after `Offset(m)` keeps the window of an earlier layer. */
  lemma PersistWindowKept(units: seq<Unit>, batchSize: Dim, inputLength: Dim,
                          before: seq<Tensor>, after: seq<Tensor>, i: nat, m: nat)
    requires i < m < |units| && PersistWindow(units, batchSize, inputLength, before, i)
    requires |before| == Offset(units, m) <= |after| && after[..|before|] == before
    ensures PersistWindow(units, batchSize, inputLength, after, i)
  {
    OffsetNext(units, i);
    OffsetMonotone(units, i + 1, m);
    SameWindow(after, before, |before|, Offset(units, i), Offset(units, i) + Width(units[i]));
  }

  /** Built buffers after `n` layers number the states of those layers, each cell's in its window. */
  lemma {:induction false} PersistentWindows(units: seq<Unit>, batchSize: Dim, inputLength: Dim, n: nat)
    requires n <= |units| && PersistRun(units, batchSize, inputLength, n).Ok?
    ensures |PersistRun(units, batchSize, inputLength, n).value| == Offset(units, n)
    ensures forall i :: 0 <= i < n ==>
      PersistWindow(units, batchSize, inputLength, PersistRun(units, batchSize, inputLength, n).value, i)
  {
    if n > 0 {
      var m := n - 1;
      PersistStep(units, batchSize, inputLength, m);
      PersistentWindows(units, batchSize, inputLength, m);
      OffsetNext(units, m);
      var before := PersistRun(units, batchSize, inputLength, m).value;
      var now := PersistRun(units, batchSize, inputLength, n).value;
      var own := now[|before|..];
      assert now == before + own;
      assert now[..|before|] == before;
      assert PersistWindow(units, batchSize, inputLength, now, m);
      forall i | 0 <= i < m
        ensures PersistWindow(units, batchSize, inputLength, now, i)
      {
        PersistWindowKept(units, batchSize, inputLength, before, now, i, m);
      }
    }
  }

  /** `reset_states` builds its buffers iff every spec of every cell is accepted. */
  lemma PersistentStatesOk(units: seq<Unit>, batchSize: Dim, inputLength: Dim)
    ensures PersistentStates(units, batchSize, inputLength).Ok?
        <==> forall i, j :: 0 <= i < |units| && units[i].Cell? && 0 <= j < |units[i].specs| ==>
               Persist(units[i].specs[j], batchSize, inputLength).Ok?
  {
    PersistRunOk(units, batchSize, inputLength, |units|);
    forall i | 0 <= i < |units| && units[i].Cell? {
      PersistSpecsLayout(units[i].specs, batchSize, inputLength);
    }
  }

  /** A failing `reset_states` raises the error of some refused spec. */
  lemma PersistentStatesErr(units: seq<Unit>, batchSize: Dim, inputLength: Dim)
    requires PersistentStates(units, batchSize, inputLength).Err?
    ensures exists i, j :: && 0 <= i < |units| && units[i].Cell? && 0 <= j < |units[i].specs|
                           && Persist(units[i].specs[j], batchSize, inputLength) == Err(PersistentStates(units, batchSize, inputLength).error)
  {
    var e := PersistentStates(units, batchSize, inputLength).error;
    PersistRunOk(units, batchSize, inputLength, |units|);
    var i :| && 0 <= i < |units| && units[i].Cell?
             && PersistSpecs(units[i].specs, batchSize, inputLength) == Err(e);
    PersistSpecsLayout(units[i].specs, batchSize, inputLength);
    var j :| && 0 <= j < |units[i].specs|
             && Persist(units[i].specs[j], batchSize, inputLength) == Err(e)
             && forall k :: 0 <= k < j ==> Persist(units[i].specs[k], batchSize, inputLength).Ok?;
  }

  /** The buffer of spec `j` of cell `i`, once `reset_states` succeeded. */
  lemma PersistEntry(units: seq<Unit>, batchSize: Dim, inputLength: Dim, i: nat, j: nat)
    requires i < |units| && units[i].Cell? && j < |units[i].specs|
    requires PersistentStates(units, batchSize, inputLength).Ok?
    requires PersistWindow(units, batchSize, inputLength, PersistentStates(units, batchSize, inputLength).value, i)
    ensures Offset(units, i) + j < |PersistentStates(units, batchSize, inputLength).value|
    ensures Persist(units[i].specs[j], batchSize, inputLength).Ok?
    ensures PersistentStates(units, batchSize, inputLength).value[Offset(units, i) + j]
         == Persist(units[i].specs[j], batchSize, inputLength).value
  {
    var out := PersistentStates(units, batchSize, inputLength).value;
    PersistSpecsLayout(units[i].specs, batchSize, inputLength);
    assert out[Offset(units, i) + j] == out[Offset(units, i)..Offset(units, i) + Width(units[i])][j];
  }

  /**
   * `reset_states` succeeds iff every spec of every cell is accepted; then
   * there is one buffer per declared state, the buffer of spec `j` of layer
   * `i` at `Offset(i) + j`; otherwise the error is that of a refused spec.
   */
  lemma {:induction false} PersistentStatesLayout(units: seq<Unit>, batchSize: Dim, inputLength: Dim)
    ensures PersistentStates(units, batchSize, inputLength).Ok?
        <==> forall i, j :: 0 <= i < |units| && units[i].Cell? && 0 <= j < |units[i].specs| ==>
               Persist(units[i].specs[j], batchSize, inputLength).Ok?
    ensures PersistentStates(units, batchSize, inputLength).Ok? ==>
      |PersistentStates(units, batchSize, inputLength).value| == StateCount(units)
    ensures PersistentStates(units, batchSize, inputLength).Ok? ==>
      forall i :: 0 <= i < |units| && units[i].Cell? ==>
        Offset(units, i) + |units[i].specs| <= |PersistentStates(units, batchSize, inputLength).value|
    ensures PersistentStates(units, batchSize, inputLength).Ok? ==>
      forall i, j :: 0 <= i < |units| && units[i].Cell? && 0 <= j < |units[i].specs| ==>
        PersistentStates(units, batchSize, inputLength).value[Offset(units, i) + j]
          == Persist(units[i].specs[j], batchSize, inputLength).value
    ensures PersistentStates(units, batchSize, inputLength).Err? ==>
      exists i, j :: && 0 <= i < |units| && units[i].Cell? && 0 <= j < |units[i].specs|
                     && Persist(units[i].specs[j], batchSize, inputLength) == Err(PersistentStates(units, batchSize, inputLength).error)
  {
    PersistentStatesOk(units, batchSize, inputLength);
    if PersistentStates(units, batchSize, inputLength).Ok? {
      PersistentWindows(units, batchSize, inputLength, |units|);
      forall i | 0 <= i < |units| && units[i].Cell?
        ensures Offset(units, i) + |units[i].specs| <= |PersistentStates(units, batchSize, inputLength).value|
      {
        assert PersistWindow(units, batchSize, inputLength, PersistentStates(units, batchSize, inputLength).value, i);
      }
      forall i, j | 0 <= i < |units| && units[i].Cell? && 0 <= j < |units[i].specs|
        ensures PersistentStates(units, batchSize, inputLength).value[Offset(units, i) + j]
             == Persist(units[i].specs[j], batchSize, inputLength).value
      {
        PersistEntry(units, batchSize, inputLength, i, j);
      }
    } else {
      PersistentStatesErr(units, batchSize, inputLength);
    }
  }

  /**
   * Stateful and fresh runs hand the scan state vectors of the same layout:
   * when the persistent buffers are built and every spec resolves to one
   * tensor, both vectors have one entry per declared state.
   */
  lemma PersistentMatchesInitial(units: seq<Unit>, x: Tensor, shape: seq<Dim>)
    requires |shape| >= 2
    requires PersistentStates(units, shape[0], shape[1]).Ok?
    requires AllSingle(units, FirstTimestep(x), SizeOrRuntime(shape[0], 0), SizeOrRuntime(shape[1], 1))
    ensures |PersistentStates(units, shape[0], shape[1]).value| == |InitialStates(units, x, shape)| == StateCount(units)
  {
    PersistentStatesLayout(units, shape[0], shape[1]);
    InitialStatesLayout(units, x, shape);
  }

  // ---------------------------------------------------------------------------
  // The persisted-state updates of a stateful call, and the model's shape

  /** The pairs `(self.states[i], states[i])` for every index both lists have. */
  function UpdatePairs(persistent: seq<Tensor>, finals: seq<Tensor>): (r: seq<(Tensor, Tensor)>)
    ensures |r| == Min(|persistent|, |finals|)
    ensures forall i :: 0 <= i < |r| ==> r[i] == (persistent[i], finals[i])
  {
    if persistent == [] || finals == [] then []
    else [(persistent[0], finals[0])] + UpdatePairs(persistent[1..], finals[1..])
  }

  /** Pairing one more index of both lists appends that index's pair. */
  lemma UpdatePairsExtend(persistent: seq<Tensor>, finals: seq<Tensor>, i: nat)
    requires i < |persistent| && i < |finals|
    ensures UpdatePairs(persistent[..i + 1], finals[..i + 1]) == UpdatePairs(persistent[..i], finals[..i]) + [(persistent[i], finals[i])]
  {
    var longer := UpdatePairs(persistent[..i + 1], finals[..i + 1]);
    var shorter := UpdatePairs(persistent[..i], finals[..i]);
    assert forall k :: 0 <= k < |longer| ==> longer[k] == (shorter + [(persistent[i], finals[i])])[k];
  }

  /** Only the indexes both lists have are paired: cutting both to the shorter length changes nothing. */
  lemma UpdatePairsTruncate(persistent: seq<Tensor>, finals: seq<Tensor>, n: nat)
    requires n == Min(|persistent|, |finals|)
    ensures UpdatePairs(persistent[..n], finals[..n]) == UpdatePairs(persistent, finals)
  {
    var cut := UpdatePairs(persistent[..n], finals[..n]);
    var full := UpdatePairs(persistent, finals);
    assert forall k :: 0 <= k < |cut| ==> cut[k] == full[k];
  }

  /** A layer's output shape for a given input shape. */
  function UnitOutputShape(u: Unit, shape: seq<Dim>): seq<Dim> {
    match u
    case Cell(_, _, _, outputDim) => CellOutputShape(outputDim, shape)
    case Plain(_, _, shapeFor) => shapeFor(shape)
  }

  /** The shape after the first `n` layers, starting from the first layer's input shape. */
  function ShapeAfter(units: seq<Unit>, n: nat): seq<Dim>
    requires 1 <= |units| && n <= |units|
  {
    if n == 0 then units[0].inputShape else UnitOutputShape(units[n - 1], ShapeAfter(units, n - 1))
  }

  /** The per-step output shape of the layer list (`self.model.output_shape`). */
  function ModelShape(units: seq<Unit>): (r: seq<Dim>)
    requires units != []
    ensures var last := units[|units| - 1];
      last.Cell? && last.outputDim.Some? ==> r != [] && r[|r| - 1] == Lit(last.outputDim.value)
  {
    ShapeAfter(units, |units|)
  }

  /** Appending a layer leaves the shapes after the earlier layers as they were. */
  lemma {:induction false} ShapeAfterPrefix(units: seq<Unit>, u: Unit, n: nat)
    requires 1 <= |units| && n <= |units|
    ensures ShapeAfter(units + [u], n) == ShapeAfter(units, n)
  {
    if n > 0 {
      ShapeAfterPrefix(units, u, n - 1);
      assert (units + [u])[n - 1] == units[n - 1];
    } else {
      assert (units + [u])[0] == units[0];
    }
  }

  /** The model's shape after one more layer is that layer's output shape for the model's shape before it. */
  lemma ModelShapeAppend(units: seq<Unit>, u: Unit)
    requires units != []
    ensures ModelShape(units + [u]) == UnitOutputShape(u, ModelShape(units))
  {
    ShapeAfterPrefix(units, u, |units|);
    assert (units + [u])[|units|] == u;
  }
}
