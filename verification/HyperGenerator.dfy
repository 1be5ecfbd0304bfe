/** The operation list of the hyper-stream family: several residual streams read and injected around every organ. */
module HyperGenerator {
  import opened Options
  import opened ProgramCheck
  import opened ProgramFlow
  import opened ProgramGenerators

  const EMBED := Kernel("embedding.lookup.v1", 1)
  const INITIALIZE := Kernel("state.hyper-connection.initialize.v1", 1)
  const PLE := Kernel("embedding.ngram-ple.v1", 1)
  const READ := Kernel("state.hyper-connection.read.v1", 1)
  const INJECT := Kernel("state.hyper-connection.inject.v1", 1)
  const SPARSE := Kernel("block.sparse-attention.qsa.output-gated.v1", 1)
  const RECURRENT := Kernel("block.recurrent-linear-attention.split-gated-delta.no-residual.v1", 2)
  const ROUTER := Kernel("router.linear-topk.shared-swiglu.no-residual.v1", 1)
  const EXPERTS := Kernel("moe.swiglu.routed.merge-shared.no-residual.v1", 1)
  const REDUCE := Kernel("state.hyper-connection.reduce.v1", 1)
  const HEAD := Kernel("head.token-select.no-norm.v1", 1)

  function BlockKernel(full: bool): Kernel { if full then SPARSE else RECURRENT }

  function Embed(): Operation {
    Operation(None, EMBED, None, 0,
              [Port(TokenIds, RequestTokens, TokenBatch)], [Port(HiddenRole, EmbeddingHidden, HiddenBatch)])
  }

  function Initialize(): Operation {
    Operation(None, INITIALIZE, None, 0,
              [Port(HiddenRole, EmbeddingHidden, HiddenBatch)], [Port(HyperRole, Hyper(0), HyperBatch)])
  }

  function PleEmbedding(l: nat): Operation {
    Operation(Some(l), PLE, None, 0,
              [Port(HyperRole, Hyper(l), HyperBatch), Port(TokenIds, RequestTokens, TokenBatch)],
              [Port(HyperRole, At(l, AfterPle), HyperBatch)])
  }

  /** The streams that a layer's attention reads. */
  function Current(ple: bool, l: nat): Value { if ple then At(l, AfterPle) else Hyper(l) }

  /** Reads the streams into what an organ works on, what is kept of them and how its output is injected. */
  function Read(source: Value, l: nat, hidden: Organ, retained: Organ, injection: Organ): Operation {
    Operation(Some(l), READ, None, 0, [Port(HyperRole, source, HyperBatch)],
              [Port(HiddenRole, At(l, hidden), HiddenBatch),
               Port(Retained, At(l, retained), HyperBatch),
               Port(Injection, At(l, injection), InjectionBatch)])
  }

  function AttentionRead(source: Value, l: nat): Operation {
    Read(source, l, AttentionReadHidden, AttentionReadRetained, AttentionReadInjection)
  }

  function Block(full: bool, l: nat): Operation {
    Operation(Some(l), BlockKernel(full), None, 0,
              [Port(HiddenRole, At(l, AttentionReadHidden), HiddenBatch),
               Port(Positions, RequestPositions, PositionBatch)],
              [Port(HiddenRole, At(l, AttentionOutput), HiddenBatch)])
  }

  function AttentionInject(l: nat): Operation {
    Operation(Some(l), INJECT, None, 0,
              [Port(Retained, At(l, AttentionReadRetained), HyperBatch),
               Port(HiddenRole, At(l, AttentionOutput), HiddenBatch),
               Port(Injection, At(l, AttentionReadInjection), InjectionBatch)],
              [Port(HyperRole, At(l, AfterAttention), HyperBatch)])
  }

  function MlpRead(l: nat): Operation {
    Read(At(l, AfterAttention), l, MlpReadHidden, MlpReadRetained, MlpReadInjection)
  }

  function Router(l: nat): Operation {
    Operation(Some(l), ROUTER, Some(DECODER), l, [Port(HiddenRole, At(l, MlpReadHidden), HiddenBatch)],
              [Port(ExpertInputRole, At(l, ExpertInput), HiddenBatch),
               Port(RouteIndicesRole, At(l, RouteIndices), RouteIndexBatch),
               Port(RouteWeightsRole, At(l, RouteWeights), RouteWeightBatch),
               Port(SharedOutputRole, At(l, SharedOutput), HiddenBatch)])
  }

  function Experts(l: nat): Operation {
    Operation(Some(l), EXPERTS, Some(DECODER), l,
              [Port(ExpertInputRole, At(l, ExpertInput), HiddenBatch),
               Port(RouteIndicesRole, At(l, RouteIndices), RouteIndexBatch),
               Port(RouteWeightsRole, At(l, RouteWeights), RouteWeightBatch),
               Port(SharedOutputRole, At(l, SharedOutput), HiddenBatch)],
              [Port(HiddenRole, At(l, MlpOutput), HiddenBatch)])
  }

  function MlpInject(l: nat): Operation {
    Operation(Some(l), INJECT, None, 0,
              [Port(Retained, At(l, MlpReadRetained), HyperBatch),
               Port(HiddenRole, At(l, MlpOutput), HiddenBatch),
               Port(Injection, At(l, MlpReadInjection), InjectionBatch)],
              [Port(HyperRole, Hyper(l + 1), HyperBatch)])
  }

  function Reduce(n: nat): Operation {
    Operation(None, REDUCE, None, 0, [Port(HyperRole, Hyper(n), HyperBatch)], [Port(HiddenRole, FinalHidden, HiddenBatch)])
  }

  function Head(): Operation {
    Operation(None, HEAD, None, 0, [Port(HiddenRole, FinalHidden, HiddenBatch)], [Port(TokenIds, ResponseTokens, TokenBatch)])
  }

  function PleHalf(ple: bool, l: nat): seq<Operation> { if ple then [PleEmbedding(l)] else [] }

  function AttentionHalf(ple: bool, full: bool, l: nat): seq<Operation> {
    [AttentionRead(Current(ple, l), l), Block(full, l), AttentionInject(l)]
  }

  function MlpHalf(l: nat): seq<Operation> { [MlpRead(l), Router(l), Experts(l), MlpInject(l)] }

  function LayerOperations(ple: bool, full: bool, l: nat): seq<Operation> {
    PleHalf(ple, l) + AttentionHalf(ple, full, l) + MlpHalf(l)
  }

  /** `types` says of each layer whether its attention is full; `ple` holds one-based layers with an n-gram embedding. */
  function Layers(types: seq<bool>, ple: set<nat>): nat -> seq<Operation> {
    (l: nat) => LayerOperations(l + 1 in ple, l < |types| && types[l], l)
  }

  function Operations(types: seq<bool>, ple: set<nat>): seq<Operation> {
    [Embed(), Initialize()] + Body(Layers(types, ple), |types|) + [Reduce(|types|), Head()]
  }

  /** The kernels a program names are those of its operations. */
  function Hypers(types: seq<bool>, ple: set<nat>): Program {
    var ops, n := Operations(types, ple), |types|;
    Program(set op | op in ops :: op.kernel, map[DECODER := Component(n, ROUTER, EXPERTS)],
            seq(n, l requires 0 <= l < n => Layer(BlockKernel(types[l]), Some(DECODER), l)), ops, TEXT_INPUTS, TEXT_OUTPUTS)
  }

  /** Values of layer `l` and of what precedes it. */
  predicate Within(m: Values, l: nat) {
    (forall v :: v in m ==> Early(v, l) || (v.Local? && v.layer == l)) &&
    RequestPositions in m && m[RequestPositions] == PositionBatch && RequestTokens in m && m[RequestTokens] == TokenBatch
  }

  lemma PleRuns(ple: bool, m: Values, l: nat) returns (after: Values)
    requires Boundary(m, l, Hyper(l), HyperBatch)
    ensures Run(m, Events(PleHalf(ple, l))) == Some(after) && Within(after, l)
    ensures Has(after, Port(HyperRole, Current(ple, l), HyperBatch))
    ensures forall o :: o != AfterPle ==> Local(l, o) !in after
  {
    hide Run, Events;
    NoOperations(m);
    if ple {
      after := ThenOne(m, [], m, PleEmbedding(l));
      assert [] + [PleEmbedding(l)] == PleHalf(ple, l);
    } else {
      after := m;
    }
  }

  lemma ReadRuns(m: Values, source: Value, l: nat, hidden: Organ, retained: Organ, injection: Organ) returns (after: Values)
    requires Has(m, Port(HyperRole, source, HyperBatch)) && hidden != retained && hidden != injection && retained != injection
    requires At(l, hidden) !in m && At(l, retained) !in m && At(l, injection) !in m
    ensures Run(m, Events([] + [Read(source, l, hidden, retained, injection)])) == Some(after)
    ensures after == m[At(l, hidden) := HiddenBatch][At(l, retained) := HyperBatch][At(l, injection) := InjectionBatch]
  {
    hide Run, Events;
    NoOperations(m);
    after := Then(m, [], m, Read(source, l, hidden, retained, injection));
  }

  lemma AttentionRuns(ple: bool, full: bool, m: Values, l: nat) returns (after: Values)
    requires Within(m, l) && Has(m, Port(HyperRole, Current(ple, l), HyperBatch))
    requires forall o :: o != AfterPle ==> Local(l, o) !in m
    ensures Run(m, Events(AttentionHalf(ple, full, l))) == Some(after)
    ensures after == m[At(l, AttentionReadHidden) := HiddenBatch][At(l, AttentionReadRetained) := HyperBatch]
                      [At(l, AttentionReadInjection) := InjectionBatch][At(l, AttentionOutput) := HiddenBatch]
                      [At(l, AfterAttention) := HyperBatch]
  {
    hide Run, Events, Read;
    var read, block, inject := AttentionRead(Current(ple, l), l), Block(full, l), AttentionInject(l);
    var a := ReadRuns(m, Current(ple, l), l, AttentionReadHidden, AttentionReadRetained, AttentionReadInjection);
    var b := ThenOne(m, [] + [read], a, block);
    after := ThenOne(m, [] + [read] + [block], b, inject);
    assert [] + [read] + [block] + [inject] == AttentionHalf(ple, full, l);
  }

  /** The organs that the second half of a layer writes. */
  predicate OfMlp(o: Organ) {
    o in {MlpReadHidden, MlpReadRetained, MlpReadInjection, ExpertInput, RouteIndices, RouteWeights, SharedOutput, MlpOutput}
  }

  lemma MlpReadRuns(m: Values, l: nat) returns (after: Values)
    requires Has(m, Port(HyperRole, At(l, AfterAttention), HyperBatch)) && forall o :: OfMlp(o) ==> Local(l, o) !in m
    ensures Run(m, Events([] + [MlpRead(l)] + [Router(l)])) == Some(after)
    ensures after == m[At(l, MlpReadHidden) := HiddenBatch][At(l, MlpReadRetained) := HyperBatch]
                      [At(l, MlpReadInjection) := InjectionBatch][At(l, ExpertInput) := HiddenBatch]
                      [At(l, RouteIndices) := RouteIndexBatch][At(l, RouteWeights) := RouteWeightBatch]
                      [At(l, SharedOutput) := HiddenBatch]
  {
    hide Run, Events, Read, Router;
    var a := ReadRuns(m, At(l, AfterAttention), l, MlpReadHidden, MlpReadRetained, MlpReadInjection);
    after := RouterRuns([] + [MlpRead(l)], m, a, l);
  }

  lemma RouterRuns(done: seq<Operation>, m: Values, mid: Values, l: nat) returns (after: Values)
    requires Run(m, Events(done)) == Some(mid) && Has(mid, Port(HiddenRole, At(l, MlpReadHidden), HiddenBatch))
    requires forall o :: o in {ExpertInput, RouteIndices, RouteWeights, SharedOutput} ==> Local(l, o) !in mid
    ensures Run(m, Events(done + [Router(l)])) == Some(after)
    ensures after == mid[At(l, ExpertInput) := HiddenBatch][At(l, RouteIndices) := RouteIndexBatch]
                        [At(l, RouteWeights) := RouteWeightBatch][At(l, SharedOutput) := HiddenBatch]
  {
    hide Run, Events;
    after := Then(m, done, mid, Router(l));
  }

  lemma MlpWriteRuns(done: seq<Operation>, m: Values, mid: Values, l: nat) returns (after: Values)
    requires Run(m, Events(done)) == Some(mid)
    requires Has(mid, Port(ExpertInputRole, At(l, ExpertInput), HiddenBatch))
    requires Has(mid, Port(RouteIndicesRole, At(l, RouteIndices), RouteIndexBatch))
    requires Has(mid, Port(RouteWeightsRole, At(l, RouteWeights), RouteWeightBatch))
    requires Has(mid, Port(SharedOutputRole, At(l, SharedOutput), HiddenBatch))
    requires Has(mid, Port(Retained, At(l, MlpReadRetained), HyperBatch))
    requires Has(mid, Port(Injection, At(l, MlpReadInjection), InjectionBatch))
    requires At(l, MlpOutput) !in mid && Hyper(l + 1) !in mid
    ensures Run(m, Events(done + [Experts(l)] + [MlpInject(l)])) == Some(after)
    ensures after == mid[At(l, MlpOutput) := HiddenBatch][Hyper(l + 1) := HyperBatch]
  {
    hide Run, Events;
    var c := ThenOne(m, done, mid, Experts(l));
    after := ThenOne(m, done + [Experts(l)], c, MlpInject(l));
  }

  lemma MlpRuns(m: Values, l: nat) returns (after: Values)
    requires Within(m, l) && Has(m, Port(HyperRole, At(l, AfterAttention), HyperBatch))
    requires forall o :: OfMlp(o) ==> Local(l, o) !in m
    ensures Run(m, Events(MlpHalf(l))) == Some(after) && Boundary(after, l + 1, Hyper(l + 1), HyperBatch)
  {
    hide Run, Events, MlpRead, Router, Experts, MlpInject;
    var done := [] + [MlpRead(l)] + [Router(l)];
    var b := MlpReadRuns(m, l);
    after := MlpWriteRuns(done, m, b, l);
    assert done + [Experts(l)] + [MlpInject(l)] == MlpHalf(l);
  }

  lemma LayerRuns(ple: bool, full: bool, m: Values, l: nat) returns (after: Values)
    requires Boundary(m, l, Hyper(l), HyperBatch)
    ensures Run(m, Events(LayerOperations(ple, full, l))) == Some(after)
    ensures Boundary(after, l + 1, Hyper(l + 1), HyperBatch)
  {
    hide Run, Events, PleHalf, AttentionHalf, MlpHalf;
    var a := PleRuns(ple, m, l);
    var b := AttentionRuns(ple, full, a, l);
    ThenOperations(m, PleHalf(ple, l), a, AttentionHalf(ple, full, l));
    after := MlpRuns(b, l);
    ThenOperations(m, PleHalf(ple, l) + AttentionHalf(ple, full, l), b, MlpHalf(l));
  }

  lemma {:induction false} BodyRuns(types: seq<bool>, ple: set<nat>, m: Values, n: nat) returns (after: Values)
    requires m == map[RequestTokens := TokenBatch, RequestPositions := PositionBatch]
    ensures Run(m, Events([Embed(), Initialize()] + Body(Layers(types, ple), n))) == Some(after)
    ensures Boundary(after, n, Hyper(n), HyperBatch)
  {
    hide Run, Events, LayerOperations;
    var start, f := [Embed(), Initialize()], Layers(types, ple);
    if n == 0 {
      NoOperations(m);
      var a := ThenOne(m, [], m, Embed());
      after := ThenOne(m, [] + [Embed()], a, Initialize());
      assert [] + [Embed()] + [Initialize()] == start + Body(f, 0);
    } else {
      var mid := BodyRuns(types, ple, m, n - 1);
      after := LayerRuns(n in ple, n - 1 < |types| && types[n - 1], mid, n - 1);
      ThenOperations(m, start + Body(f, n - 1), mid, f(n - 1));
      assert start + Body(f, n - 1) + f(n - 1) == start + Body(f, n);
    }
  }

  lemma HyperRuns(types: seq<bool>, ple: set<nat>)
    ensures Run(map[], Trace(Hypers(types, ple))).Some?
  {
    hide Run, Events, Body, Layers;
    var n := |types|;
    var done := [Embed(), Initialize()] + Body(Layers(types, ple), n);
    var start := TextStart();
    var mid := BodyRuns(types, ple, start, n);
    var a := ThenOne(start, done, mid, Reduce(n));
    var after := ThenOne(start, done + [Reduce(n)], a, Head());
    assert done + [Reduce(n)] + [Head()] == Operations(types, ple);
    ProgramRuns(Hypers(types, ple), start, after);
  }

  /** Every operation's kernel is named. */
  lemma Named(types: seq<bool>, ple: set<nat>, op: Operation)
    requires op in Operations(types, ple)
    ensures op.kernel in Hypers(types, ple).required
  {
    hide Operations;
  }

  /** What the check asks of an operation of layer `l` besides its kernel. */
  predicate Roomy(p: Program, l: nat) {
    l < |p.layers| && DECODER in p.components && l < p.components[DECODER].layerCount
  }

  lemma AttentionIsOk(p: Program, ple: bool, full: bool, l: nat, op: Operation)
    requires op in PleHalf(ple, l) || op in AttentionHalf(ple, full, l)
    requires Roomy(p, l) && op.kernel in p.required
    ensures OperationOk(p, op) && op.layer == Some(l)
  {}

  lemma MlpIsOk(p: Program, l: nat, op: Operation)
    requires op in MlpHalf(l) && Roomy(p, l) && op.kernel in p.required
    ensures OperationOk(p, op) && op.layer == Some(l)
  {}

  /** Operations of a layer, of which there are those of all its organs. */
  lemma LayerIsOk(types: seq<bool>, ple: set<nat>, l: nat)
    requires l < |types|
    ensures
      var p, ops := Hypers(types, ple), Layers(types, ple)(l);
      AllOk(p, ops) && AllOf(ops, l)
  {
    var p, ops := Hypers(types, ple), Layers(types, ple)(l);
    LayerInBody(Layers(types, ple), |types|, l);
    assert Roomy(p, l);
    hide Body, OperationOk, PleHalf, AttentionHalf, MlpHalf, Roomy;
    forall op | op in ops
      ensures OperationOk(p, op) && op.layer == Some(l)
    {
      Named(types, ple, op);
      if op in MlpHalf(l) {
        MlpIsOk(p, l, op);
      } else {
        AttentionIsOk(p, l + 1 in ple, types[l], l, op);
      }
    }
  }

  lemma LayerIsServed(types: seq<bool>, ple: set<nat>, l: nat)
    requires l < |types|
    ensures
      var p, ops := Hypers(types, ple), Layers(types, ple)(l);
      LayerOk(p, p.layers[l]) && ServedBy(p, l, ops)
  {
    var p, ops := Hypers(types, ple), Layers(types, ple)(l);
    LayerInBody(Layers(types, ple), |types|, l);
    var block := Block(types[l], l);
    assert block in AttentionHalf(l + 1 in ple, types[l], l) by {
      assert AttentionHalf(l + 1 in ple, types[l], l)[1] == block;
    }
    assert Router(l) in MlpHalf(l) && Experts(l) in MlpHalf(l) by {
      assert MlpHalf(l)[1] == Router(l) && MlpHalf(l)[2] == Experts(l);
    }
    hide Body, AttentionHalf, MlpHalf, PleHalf;
    assert block in ops && Router(l) in ops && Experts(l) in ops;
    Named(types, ple, block);
  }

  lemma EndsOk(types: seq<bool>, ple: set<nat>)
    requires types != []
    ensures
      var p, n := Hypers(types, ple), |types|;
      AllOk(p, [Embed(), Initialize()]) && AllOk(p, [Reduce(n), Head()]) &&
      NoLayer([Embed(), Initialize()]) && NoLayer([Reduce(n), Head()]) && Declared(p) &&
      p.operations == [Embed(), Initialize()] + Body(Layers(types, ple), n) + [Reduce(n), Head()]
  {
    hide Body, OperationOk, LayerOk, MappingOk;
    var p, n := Hypers(types, ple), |types|;
    var ops := Operations(types, ple);
    forall op | op in [Embed(), Initialize()] || op in [Reduce(n), Head()]
      ensures OperationOk(p, op)
    {
      assert op in ops;
      Named(types, ple, op);
      EndOk(p, op, n);
    }
    RoutedKernels(types, ple);
    forall x | x in p.layers
      ensures LayerOk(p, x)
    {
      var l :| 0 <= l < n && p.layers[l] == x;
      LayerIsServed(types, ple, l);
    }
  }

  lemma EndOk(p: Program, op: Operation, n: nat)
    requires op in [Embed(), Initialize()] || op in [Reduce(n), Head()]
    requires op.kernel in p.required
    ensures OperationOk(p, op)
  {}

  /** With a layer there is a router and an expert operation. */
  lemma RoutedKernels(types: seq<bool>, ple: set<nat>)
    requires types != []
    ensures ROUTER in Hypers(types, ple).required && EXPERTS in Hypers(types, ple).required
  {
    LayerInBody(Layers(types, ple), |types|, 0);
    assert Router(0) in MlpHalf(0) && Experts(0) in MlpHalf(0) by {
      assert MlpHalf(0)[1] == Router(0) && MlpHalf(0)[2] == Experts(0);
    }
    hide Body, MlpHalf, AttentionHalf, PleHalf;
    assert Router(0) in Operations(types, ple) && Experts(0) in Operations(types, ple);
    Named(types, ple, Router(0));
    Named(types, ple, Experts(0));
  }

  /**
   Accepted for every pattern of layer types and every set of embedding layers.  The adapter reads the number of
   layers as a positive integer before it builds anything.
  */
  lemma HyperAccepted(types: seq<bool>, ple: set<nat>)
    requires types != []
    ensures Accepted(Hypers(types, ple))
  {
    hide Run, Events, Body, OperationOk, Serves, Declared, Accepted, AllOk, AllOf, NoLayer, ServedBy, LayerOk, Operations, Layers;
    var p, f, n := Hypers(types, ple), Layers(types, ple), |types|;
    HyperRuns(types, ple);
    EndsOk(types, ple);
    forall l: nat | l < n
      ensures AllOk(p, f(l)) && AllOf(f(l), l) && LayerOk(p, p.layers[l]) && ServedBy(p, l, f(l))
    {
      LayerIsOk(types, ple, l);
      LayerIsServed(types, ple, l);
    }
    LayeredIsAccepted(p, [Embed(), Initialize()], f, [Reduce(n), Head()]);
  }

  /** Appends the operations of one layer and moves the current streams on. */
  method AppendLayer(ops: seq<Operation>, current: Value, ple: bool, full: bool, l: nat)
    returns (more: seq<Operation>, next: Value)
    requires current == Hyper(l)
    ensures more == ops + LayerOperations(ple, full, l) && next == Hyper(l + 1)
  {
    hide MlpRead, Router, Experts, MlpInject, Block, AttentionInject, AttentionRead, PleEmbedding;
    more, next := ops, current;
    if ple {
      more := more + [PleEmbedding(l)];
      next := At(l, AfterPle);
    }
    assert more == ops + PleHalf(ple, l) && next == Current(ple, l);
    more := more + [AttentionRead(next, l)];
    more := more + [Block(full, l), AttentionInject(l)];
    assert more == ops + PleHalf(ple, l) + AttentionHalf(ple, full, l);
    more := more + [MlpRead(l), Router(l), Experts(l), MlpInject(l)];
    next := Hyper(l + 1);
  }

  /** The list as it is built, the current streams moving from layer to layer. */
  method BuildHyper(types: seq<bool>, ple: set<nat>) returns (ops: seq<Operation>)
    ensures ops == Operations(types, ple)
  {
    hide LayerOperations, Embed, Initialize, Reduce, Head;
    ops := [Embed(), Initialize()];
    var current := Hyper(0);
    for l := 0 to |types|
      invariant ops == [Embed(), Initialize()] + Body(Layers(types, ple), l) && current == Hyper(l)
    {
      ops, current := AppendLayer(ops, current, l + 1 in ple, types[l], l);
    }
    ops := ops + [Reduce(|types|), Head()];
  }
}
