/** The operation lists of three model families, and that the check accepts them for every number and kind of layers. */
module ProgramGenerators {
  import opened Options
  import opened ProgramCheck
  import opened ProgramFlow

  function At(layer: nat, organ: Organ): Value { Local(layer, organ) }

  // Values are written before their layer ends

  /** What may be available when layer `n` starts. */
  predicate Early(v: Value, n: nat) {
    match v
    case Hidden(k) => k <= n
    case Hyper(k) => k <= n
    case Local(k, _) => k < n
    case ResponseTokens => false
    case FinalHidden => false
    case _ => true
  }

  predicate Boundary(m: Values, n: nat, stream: Value, abi: Abi) {
    (forall v :: v in m ==> Early(v, n)) && stream in m && m[stream] == abi &&
    RequestPositions in m && m[RequestPositions] == PositionBatch &&
    RequestTokens in m && m[RequestTokens] == TokenBatch
  }

  // The first family: full attention and routed experts in every layer

  const DECODER := "decoder"
  const OLMOE_EMBED := Kernel("embedding.lookup.int8-row.v1", 1)
  const OLMOE_BLOCK := Kernel("block.full-attention.causal.v1", 1)
  const OLMOE_ROUTER := Kernel("router.linear.topk.v1", 1)
  const OLMOE_EXPERTS := Kernel("moe.swiglu.routed.v1", 1)
  const OLMOE_HEAD := Kernel("head.rmsnorm.argmax.int8-row.v1", 1)

  function OlmoeEmbed(): Operation {
    Operation(None, OLMOE_EMBED, None, 0, [Port(TokenIds, RequestTokens, TokenBatch)], [Port(HiddenRole, Hidden(0), HiddenBatch)])
  }

  function OlmoeBlock(l: nat): Operation {
    Operation(Some(l), OLMOE_BLOCK, None, 0,
              [Port(HiddenRole, Hidden(l), HiddenBatch), Port(Positions, RequestPositions, PositionBatch)],
              [Port(HiddenRole, At(l, AfterBlock), HiddenBatch)])
  }

  function OlmoeRouter(l: nat): Operation {
    Operation(Some(l), OLMOE_ROUTER, Some(DECODER), l,
              [Port(HiddenRole, At(l, AfterBlock), HiddenBatch)],
              [Port(ExpertInputRole, At(l, ExpertInput), HiddenBatch),
               Port(RouteIndicesRole, At(l, RouteIndices), RouteIndexBatch),
               Port(RouteWeightsRole, At(l, RouteWeights), RouteWeightBatch),
               Port(ResidualRole, At(l, Residual), HiddenBatch)])
  }

  function OlmoeExperts(l: nat): Operation {
    Operation(Some(l), OLMOE_EXPERTS, Some(DECODER), l,
              [Port(ExpertInputRole, At(l, ExpertInput), HiddenBatch),
               Port(RouteIndicesRole, At(l, RouteIndices), RouteIndexBatch),
               Port(RouteWeightsRole, At(l, RouteWeights), RouteWeightBatch),
               Port(ResidualRole, At(l, Residual), HiddenBatch)],
              [Port(HiddenRole, Hidden(l + 1), HiddenBatch)])
  }

  function OlmoeHead(n: nat): Operation {
    Operation(None, OLMOE_HEAD, None, 0, [Port(HiddenRole, Hidden(n), HiddenBatch)], [Port(TokenIds, ResponseTokens, TokenBatch)])
  }

  function OlmoeLayer(l: nat): seq<Operation> { [OlmoeBlock(l), OlmoeRouter(l), OlmoeExperts(l)] }

  const TEXT_INPUTS := [Port(TokenIds, RequestTokens, TokenBatch), Port(Positions, RequestPositions, PositionBatch)]
  const TEXT_OUTPUTS := [Port(NextTokenIds, ResponseTokens, TokenBatch)]

  function OlmoeOperations(n: nat): seq<Operation> { [OlmoeEmbed()] + Body(OlmoeLayer, n) + [OlmoeHead(n)] }

  function Olmoe(n: nat): Program {
    Program({OLMOE_EMBED, OLMOE_BLOCK, OLMOE_ROUTER, OLMOE_EXPERTS, OLMOE_HEAD},
            map[DECODER := Component(n, OLMOE_ROUTER, OLMOE_EXPERTS)],
            seq(n, l requires l >= 0 => Layer(OLMOE_BLOCK, Some(DECODER), l)),
            OlmoeOperations(n), TEXT_INPUTS, TEXT_OUTPUTS)
  }

  method BuildOlmoe(n: nat) returns (ops: seq<Operation>)
    ensures ops == OlmoeOperations(n)
  {
    ops := [OlmoeEmbed()];
    for l := 0 to n
      invariant ops == [OlmoeEmbed()] + Body(OlmoeLayer, l)
    {
      ops := ops + OlmoeLayer(l);
    }
    ops := ops + [OlmoeHead(n)];
  }

  lemma OlmoeLayerRuns(m: Values, l: nat) returns (after: Values)
    requires Boundary(m, l, Hidden(l), HiddenBatch)
    ensures Run(m, Events(OlmoeLayer(l))) == Some(after) && Boundary(after, l + 1, Hidden(l + 1), HiddenBatch)
  {
    hide Run, Events, OlmoeRouter;
    var block, router, experts := OlmoeBlock(l), OlmoeRouter(l), OlmoeExperts(l);
    NoOperations(m);
    var a := ThenOne(m, [], m, block);
    var b := OlmoeRouterRuns([] + [block], m, a, l);
    after := ThenOne(m, [] + [block] + [router], b, experts);
    assert [] + [block] + [router] + [experts] == OlmoeLayer(l);
  }

  lemma OlmoeRouterRuns(done: seq<Operation>, m: Values, mid: Values, l: nat) returns (after: Values)
    requires Run(m, Events(done)) == Some(mid) && Has(mid, Port(HiddenRole, At(l, AfterBlock), HiddenBatch))
    requires forall o :: o != AfterBlock ==> Local(l, o) !in mid
    ensures Run(m, Events(done + [OlmoeRouter(l)])) == Some(after)
    ensures after == mid[At(l, ExpertInput) := HiddenBatch][At(l, RouteIndices) := RouteIndexBatch]
                        [At(l, RouteWeights) := RouteWeightBatch][At(l, Residual) := HiddenBatch]
  {
    hide Run, Events;
    after := Then(m, done, mid, OlmoeRouter(l));
  }

  lemma NoOperations(m: Values)
    ensures Run(m, Events([])) == Some(m)
  {}

  lemma TextStart() returns (m: Values)
    ensures Run(map[], Writes(TEXT_INPUTS)) == Some(m) && m == map[RequestTokens := TokenBatch, RequestPositions := PositionBatch]
  {
    hide Run, Writes;
    var a := AddFirst(map[], TEXT_INPUTS);
    m := AddFirst(a, TEXT_INPUTS[1..]);
    assert TEXT_INPUTS[1..][1..] == [];
    NothingWritten(m);
  }

  lemma {:induction false} OlmoeBodyRuns(m: Values, n: nat) returns (after: Values)
    requires m == map[RequestTokens := TokenBatch, RequestPositions := PositionBatch]
    ensures Run(m, Events([OlmoeEmbed()] + Body(OlmoeLayer, n))) == Some(after)
    ensures Boundary(after, n, Hidden(n), HiddenBatch)
  {
    hide Run, Events;
    if n == 0 {
      NoOperations(m);
      after := ThenOne(m, [], m, OlmoeEmbed());
      assert [] + [OlmoeEmbed()] == [OlmoeEmbed()] + Body(OlmoeLayer, 0);
    } else {
      var mid := OlmoeBodyRuns(m, n - 1);
      after := OlmoeLayerRuns(mid, n - 1);
      ThenOperations(m, [OlmoeEmbed()] + Body(OlmoeLayer, n - 1), mid, OlmoeLayer(n - 1));
      assert [OlmoeEmbed()] + Body(OlmoeLayer, n - 1) + OlmoeLayer(n - 1) == [OlmoeEmbed()] + Body(OlmoeLayer, n);
    }
  }

  lemma OlmoeLayerOk(n: nat, l: nat)
    requires l < n
    ensures AllOk(Olmoe(n), OlmoeLayer(l)) && AllOf(OlmoeLayer(l), l)
    ensures LayerOk(Olmoe(n), Olmoe(n).layers[l]) && ServedBy(Olmoe(n), l, OlmoeLayer(l))
  {
    hide OlmoeOperations;
    var ops := OlmoeLayer(l);
    assert ops[0] in ops && ops[1] in ops && ops[2] in ops;
  }

  lemma OlmoeRuns(n: nat)
    ensures Run(map[], Trace(Olmoe(n))).Some?
  {
    hide Run, Events, Body;
    var start := TextStart();
    var mid := OlmoeBodyRuns(start, n);
    var after := ThenOne(start, [OlmoeEmbed()] + Body(OlmoeLayer, n), mid, OlmoeHead(n));
    ProgramRuns(Olmoe(n), start, after);
  }

  lemma OlmoeEndsOk(n: nat)
    ensures AllOk(Olmoe(n), [OlmoeEmbed()]) && AllOk(Olmoe(n), [OlmoeHead(n)])
    ensures NoLayer([OlmoeEmbed()]) && NoLayer([OlmoeHead(n)])
    ensures Declared(Olmoe(n)) && Olmoe(n).operations == [OlmoeEmbed()] + Body(OlmoeLayer, n) + [OlmoeHead(n)]
  {
    hide Body;
    assert |OlmoeOperations(n)| > 0;
    hide OlmoeOperations;
    forall x | x in Olmoe(n).layers
      ensures LayerOk(Olmoe(n), x)
    {}
  }

  /** Accepted for every number of layers. */
  lemma OlmoeAccepted(n: nat)
    ensures Accepted(Olmoe(n))
  {
    hide Run, Events, Body, OperationOk, Serves, Declared, Accepted, AllOk, AllOf, NoLayer, ServedBy, LayerOk, OlmoeOperations;
    var p := Olmoe(n);
    OlmoeRuns(n);
    OlmoeEndsOk(n);
    forall l: nat | l < n
      ensures AllOk(p, OlmoeLayer(l)) && AllOf(OlmoeLayer(l), l) && LayerOk(p, p.layers[l]) && ServedBy(p, l, OlmoeLayer(l))
    {
      OlmoeLayerOk(n, l);
    }
    LayeredIsAccepted(p, [OlmoeEmbed()], OlmoeLayer, [OlmoeHead(n)]);
  }
}
