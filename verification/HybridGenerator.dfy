/** The operation list of the hybrid family: full or recurrent attention by layer, dense or routed feed-forward. */
module HybridGenerator {
  import opened Options
  import opened ProgramCheck
  import opened ProgramFlow
  import opened ProgramGenerators

  const EMBED := Kernel("embedding.lookup.fp4-block32.v1", 1)
  const VISION := Kernel("vision.patch-transformer-merge.fp4-block32.v1", 1)
  const FULL := Kernel("block.full-attention.output-gated.v1", 1)
  const RECURRENT := Kernel("block.recurrent-linear-attention.split-gated-delta.v1", 1)
  const ROUTER := Kernel("router.linear-topk.shared-swiglu.v1", 1)
  const EXPERTS := Kernel("moe.swiglu.routed.merge-shared.v1", 1)
  const FEED_FORWARD := Kernel("ffn.swiglu.dense.fp4-block32.v1", 1)
  const HEAD := Kernel("head.rmsnorm.token-select.fp4-block32.v1", 1)

  const INPUTS := [Port(TokenIds, RequestTokens, TokenBatch), Port(Positions, RequestPositions, PositionBatch),
                   Port(Media, RequestMultimodal, MultimodalBatch)]

  function BlockKernel(full: bool): Kernel { if full then FULL else RECURRENT }

  function Embed(): Operation {
    Operation(None, EMBED, None, 0, [Port(TokenIds, RequestTokens, TokenBatch)], [Port(HiddenRole, HiddenText, HiddenBatch)])
  }

  function Vision(): Operation {
    Operation(None, VISION, None, 0,
              [Port(HiddenRole, HiddenText, HiddenBatch), Port(Media, RequestMultimodal, MultimodalBatch)],
              [Port(HiddenRole, Hidden(0), HiddenBatch)])
  }

  function Attention(full: bool, l: nat): Operation {
    Operation(Some(l), BlockKernel(full), None, 0,
              [Port(HiddenRole, Hidden(l), HiddenBatch), Port(Positions, RequestPositions, PositionBatch)],
              [Port(HiddenRole, At(l, AfterAttention), HiddenBatch)])
  }

  function Router(l: nat): Operation {
    Operation(Some(l), ROUTER, Some(DECODER), l,
              [Port(HiddenRole, At(l, AfterAttention), HiddenBatch)],
              [Port(ExpertInputRole, At(l, ExpertInput), HiddenBatch),
               Port(RouteIndicesRole, At(l, RouteIndices), RouteIndexBatch),
               Port(RouteWeightsRole, At(l, RouteWeights), RouteWeightBatch),
               Port(ResidualRole, At(l, Residual), HiddenBatch),
               Port(SharedOutputRole, At(l, SharedOutput), HiddenBatch)])
  }

  function Experts(l: nat): Operation {
    Operation(Some(l), EXPERTS, Some(DECODER), l,
              [Port(ExpertInputRole, At(l, ExpertInput), HiddenBatch),
               Port(RouteIndicesRole, At(l, RouteIndices), RouteIndexBatch),
               Port(RouteWeightsRole, At(l, RouteWeights), RouteWeightBatch),
               Port(ResidualRole, At(l, Residual), HiddenBatch),
               Port(SharedOutputRole, At(l, SharedOutput), HiddenBatch)],
              [Port(HiddenRole, Hidden(l + 1), HiddenBatch)])
  }

  function FeedForward(l: nat): Operation {
    Operation(Some(l), FEED_FORWARD, None, 0,
              [Port(HiddenRole, At(l, AfterAttention), HiddenBatch)], [Port(HiddenRole, Hidden(l + 1), HiddenBatch)])
  }

  function Head(n: nat): Operation {
    Operation(None, HEAD, None, 0, [Port(HiddenRole, Hidden(n), HiddenBatch)], [Port(TokenIds, ResponseTokens, TokenBatch)])
  }

  function LayerOperations(full: bool, routed: bool, l: nat): seq<Operation> {
    if routed then [Attention(full, l), Router(l), Experts(l)] else [Attention(full, l), FeedForward(l)]
  }

  /** `types` says of each layer whether its attention is full. */
  function Layers(types: seq<bool>, routed: bool): nat -> seq<Operation> {
    (l: nat) => LayerOperations(l < |types| && types[l], routed, l)
  }

  function Operations(types: seq<bool>, routed: bool): seq<Operation> {
    [Embed(), Vision()] + Body(Layers(types, routed), |types|) + [Head(|types|)]
  }

  function LayerTopology(full: bool, routed: bool, l: nat): Layer {
    if routed then Layer(BlockKernel(full), Some(DECODER), l) else Layer(BlockKernel(full), None, 0)
  }

  function Hybrid(types: seq<bool>, routed: bool): Program {
    var n := |types|;
    Program({EMBED, VISION, FULL, RECURRENT, HEAD} + (if routed then {ROUTER, EXPERTS} else {FEED_FORWARD}),
            if routed then map[DECODER := Component(n, ROUTER, EXPERTS)] else map[],
            seq(n, l requires 0 <= l < n => LayerTopology(types[l], routed, l)),
            Operations(types, routed), INPUTS, TEXT_OUTPUTS)
  }

  method BuildHybrid(types: seq<bool>, routed: bool) returns (ops: seq<Operation>)
    ensures ops == Operations(types, routed)
  {
    ops := [Embed()];
    ops := ops + [Vision()];
    assert ops == [Embed(), Vision()] + Body(Layers(types, routed), 0);
    for l := 0 to |types|
      invariant ops == [Embed(), Vision()] + Body(Layers(types, routed), l)
    {
      ghost var before := ops;
      ops := ops + [Attention(types[l], l)];
      if routed {
        ops := ops + [Router(l), Experts(l)];
      } else {
        ops := ops + [FeedForward(l)];
      }
      assert ops == before + Layers(types, routed)(l);
    }
    ops := ops + [Head(|types|)];
  }

  lemma RouterRuns(done: seq<Operation>, m: Values, mid: Values, l: nat) returns (after: Values)
    requires Run(m, Events(done)) == Some(mid) && Has(mid, Port(HiddenRole, At(l, AfterAttention), HiddenBatch))
    requires forall o :: o != AfterAttention ==> Local(l, o) !in mid
    ensures Run(m, Events(done + [Router(l)])) == Some(after)
    ensures after == mid[At(l, ExpertInput) := HiddenBatch][At(l, RouteIndices) := RouteIndexBatch]
                        [At(l, RouteWeights) := RouteWeightBatch][At(l, Residual) := HiddenBatch]
                        [At(l, SharedOutput) := HiddenBatch]
  {
    hide Run, Events;
    after := Then(m, done, mid, Router(l));
  }

  /** The feed-forward half of a layer, after its attention. */
  lemma RoutedRuns(done: seq<Operation>, m: Values, mid: Values, l: nat) returns (after: Values)
    requires Run(m, Events(done)) == Some(mid)
    requires Boundary(mid - {At(l, AfterAttention)}, l, Hidden(l), HiddenBatch)
    requires Has(mid, Port(HiddenRole, At(l, AfterAttention), HiddenBatch))
    ensures Run(m, Events(done + [Router(l)] + [Experts(l)])) == Some(after)
    ensures Boundary(after, l + 1, Hidden(l + 1), HiddenBatch)
  {
    hide Run, Events, Router;
    NewHalf(mid, l);
    var b := RouterRuns(done, m, mid, l);
    after := ThenOne(m, done + [Router(l)], b, Experts(l));
  }

  /** After the attention of a layer only its own output is new. */
  lemma NewHalf(mid: Values, l: nat)
    requires Boundary(mid - {At(l, AfterAttention)}, l, Hidden(l), HiddenBatch)
    ensures forall v :: v in mid ==> v == At(l, AfterAttention) || Early(v, l)
    ensures forall o :: o != AfterAttention ==> Local(l, o) !in mid
  {
    forall v | v in mid
      ensures v == At(l, AfterAttention) || Early(v, l)
    {
      assert v != At(l, AfterAttention) ==> v in mid - {At(l, AfterAttention)};
    }
  }

  lemma LayerRuns(full: bool, routed: bool, m: Values, l: nat) returns (after: Values)
    requires Boundary(m, l, Hidden(l), HiddenBatch)
    ensures Run(m, Events(LayerOperations(full, routed, l))) == Some(after)
    ensures Boundary(after, l + 1, Hidden(l + 1), HiddenBatch)
  {
    hide Run, Events;
    var attention := Attention(full, l);
    NoOperations(m);
    var a := ThenOne(m, [], m, attention);
    if routed {
      assert a - {At(l, AfterAttention)} == m;
      after := RoutedRuns([] + [attention], m, a, l);
      assert [] + [attention] + [Router(l)] + [Experts(l)] == LayerOperations(full, routed, l);
    } else {
      after := ThenOne(m, [] + [attention], a, FeedForward(l));
      assert [] + [attention] + [FeedForward(l)] == LayerOperations(full, routed, l);
    }
  }

  lemma Start() returns (m: Values)
    ensures Run(map[], Writes(INPUTS)) == Some(m)
    ensures m == map[RequestTokens := TokenBatch, RequestPositions := PositionBatch, RequestMultimodal := MultimodalBatch]
  {
    hide Run, Writes;
    var a := AddFirst(map[], INPUTS);
    var b := AddFirst(a, INPUTS[1..]);
    assert INPUTS[1..][1..] == INPUTS[2..];
    m := AddFirst(b, INPUTS[2..]);
    assert INPUTS[2..][1..] == [];
    NothingWritten(m);
  }

  lemma PrologueRuns(m: Values) returns (after: Values)
    requires m == map[RequestTokens := TokenBatch, RequestPositions := PositionBatch, RequestMultimodal := MultimodalBatch]
    ensures Run(m, Events([Embed(), Vision()])) == Some(after) && Boundary(after, 0, Hidden(0), HiddenBatch)
  {
    hide Run, Events;
    NoOperations(m);
    var a := ThenOne(m, [], m, Embed());
    after := ThenOne(m, [] + [Embed()], a, Vision());
    assert [] + [Embed()] + [Vision()] == [Embed(), Vision()];
  }

  lemma {:induction false} BodyRuns(types: seq<bool>, routed: bool, m: Values, n: nat) returns (after: Values)
    requires m == map[RequestTokens := TokenBatch, RequestPositions := PositionBatch, RequestMultimodal := MultimodalBatch]
    ensures Run(m, Events([Embed(), Vision()] + Body(Layers(types, routed), n))) == Some(after)
    ensures Boundary(after, n, Hidden(n), HiddenBatch)
  {
    hide Run, Events, LayerOperations;
    var start, f := [Embed(), Vision()], Layers(types, routed);
    if n == 0 {
      after := PrologueRuns(m);
      assert start + Body(f, 0) == start;
    } else {
      var mid := BodyRuns(types, routed, m, n - 1);
      after := LayerRuns(n - 1 < |types| && types[n - 1], routed, mid, n - 1);
      ThenOperations(m, start + Body(f, n - 1), mid, f(n - 1));
      assert start + Body(f, n - 1) + f(n - 1) == start + Body(f, n);
    }
  }

  lemma HybridRuns(types: seq<bool>, routed: bool)
    ensures Run(map[], Trace(Hybrid(types, routed))).Some?
  {
    hide Run, Events, Body;
    var n := |types|;
    var start := Start();
    var mid := BodyRuns(types, routed, start, n);
    var after := ThenOne(start, [Embed(), Vision()] + Body(Layers(types, routed), n), mid, Head(n));
    ProgramRuns(Hybrid(types, routed), start, after);
  }

  lemma LayerIsOk(types: seq<bool>, routed: bool, l: nat)
    requires l < |types|
    ensures
      var p, ops := Hybrid(types, routed), Layers(types, routed)(l);
      AllOk(p, ops) && AllOf(ops, l) && LayerOk(p, p.layers[l]) && ServedBy(p, l, ops)
  {
    OperationsAreOk(types, routed, l);
    hide Operations, OperationOk;
    var ops := Layers(types, routed)(l);
    assert ops[0] in ops && ops[1] in ops && (routed ==> ops[2] in ops);
  }

  lemma OperationsAreOk(types: seq<bool>, routed: bool, l: nat)
    requires l < |types|
    ensures AllOk(Hybrid(types, routed), Layers(types, routed)(l)) && AllOf(Layers(types, routed)(l), l)
  {
    hide Operations;
  }

  lemma EndsOk(types: seq<bool>, routed: bool)
    ensures
      var p, n := Hybrid(types, routed), |types|;
      AllOk(p, [Embed(), Vision()]) && AllOk(p, [Head(n)]) && NoLayer([Embed(), Vision()]) && NoLayer([Head(n)]) &&
      Declared(p) && p.operations == [Embed(), Vision()] + Body(Layers(types, routed), n) + [Head(n)]
  {
    hide Body;
    assert |Operations(types, routed)| > 0;
    hide Operations;
    forall x | x in Hybrid(types, routed).layers
      ensures LayerOk(Hybrid(types, routed), x)
    {}
  }

  /** Accepted for every pattern of layer types, dense or routed. */
  lemma HybridAccepted(types: seq<bool>, routed: bool)
    ensures Accepted(Hybrid(types, routed))
  {
    hide Run, Events, Body, OperationOk, Serves, Declared, Accepted, AllOk, AllOf, NoLayer, ServedBy, LayerOk, Operations, Layers;
    var p, f, n := Hybrid(types, routed), Layers(types, routed), |types|;
    HybridRuns(types, routed);
    EndsOk(types, routed);
    forall l: nat | l < n
      ensures AllOk(p, f(l)) && AllOf(f(l), l) && LayerOk(p, p.layers[l]) && ServedBy(p, l, f(l))
    {
      LayerIsOk(types, routed, l);
    }
    LayeredIsAccepted(p, [Embed(), Vision()], f, [Head(n)]);
  }
}
