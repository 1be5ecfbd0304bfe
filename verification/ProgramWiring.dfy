/**
 How the operations of a program are wired.  Under each role an operation reads what was last written under that role,
 and whatever is written is read before something else is written under the same role.
*/
module ProgramWiring {
  import opened Options
  import opened ProgramCheck
  import opened ProgramFlow
  import opened ProgramGenerators
  import Hybrid = HybridGenerator
  import Streams = HyperGenerator

  /** The port last written under each role, and the roles whose last port has not been read. */
  datatype Stage = Stage(latest: map<Role, Port>, unread: set<Role>)

  function Roles(ports: seq<Port>): set<Role> { set p | p in ports :: p.role }

  function PortOf(ports: seq<Port>, r: Role): Port
    requires r in Roles(ports)
  {
    if ports[0].role == r then ports[0]
    else
      assert exists p :: p in ports[1..] && p.role == r;
      PortOf(ports[1..], r)
  }

  /** It reads the latest ports, and overwrites none that was not read. */
  predicate Wired(st: Stage, op: Operation) {
    (forall p :: p in op.inputs ==> p.role in st.latest && st.latest[p.role] == p) &&
    DistinctRoles(op.outputs) && Roles(op.outputs) !! st.unread - Roles(op.inputs)
  }

  function After(st: Stage, op: Operation): Stage {
    Stage(map r | r in st.latest.Keys + Roles(op.outputs) ::
            if r in Roles(op.outputs) then PortOf(op.outputs, r) else st.latest[r],
          st.unread - Roles(op.inputs) + Roles(op.outputs))
  }

  /** Operation by operation, from some stage on. */
  predicate AllWired(st: Stage, ops: seq<Operation>) {
    ops == [] || (AllWired(st, ops[..|ops| - 1]) && Wired(AfterAll(st, ops[..|ops| - 1]), ops[|ops| - 1]))
  }

  function AfterAll(st: Stage, ops: seq<Operation>): Stage {
    if ops == [] then st else After(AfterAll(st, ops[..|ops| - 1]), ops[|ops| - 1])
  }

  function Start(inputs: seq<Port>): Stage
  {
    Stage(map r | r in Roles(inputs) :: PortOf(inputs, r), {})
  }

  /**
   The whole program: wired from its inputs to its outputs, which have the values last written under the role of
   token identifiers; nothing else is left unread.
  */
  predicate WellWired(p: Program) {
    var end := AfterAll(Start(p.inputs), p.operations);
    AllWired(Start(p.inputs), p.operations) && end.unread == {TokenIds} && TokenIds in end.latest &&
    forall o :: o in p.outputs ==> o.value == end.latest[TokenIds].value && o.abi == end.latest[TokenIds].abi
  }

  // What that says of one operation

  /** The port was written by the last earlier operation that writes under its role, or is a program input. */
  predicate Nearest(inputs: seq<Port>, ops: seq<Operation>, i: nat, p: Port) {
    i <= |ops| &&
    ((p in inputs && forall k :: 0 <= k < i ==> p.role !in Roles(ops[k].outputs)) ||
     exists j :: 0 <= j < i && WrittenLast(ops, j, i, p))
  }

  predicate WrittenLast(ops: seq<Operation>, j: nat, i: nat, p: Port) {
    j < i <= |ops| && p in ops[j].outputs && forall k :: j < k < i ==> p.role !in Roles(ops[k].outputs)
  }

  lemma PortIsOf(ports: seq<Port>, r: Role)
    requires r in Roles(ports)
    ensures PortOf(ports, r) in ports && PortOf(ports, r).role == r
  {
    if ports[0].role != r {
      assert exists p :: p in ports[1..] && p.role == r;
      PortIsOf(ports[1..], r);
    }
  }

  lemma {:induction false} LatestIsNearest(inputs: seq<Port>, ops: seq<Operation>, i: nat, r: Role)
    requires i <= |ops| && r in AfterAll(Start(inputs), ops[..i]).latest
    ensures
      var p := AfterAll(Start(inputs), ops[..i]).latest[r];
      p.role == r && Nearest(inputs, ops, i, p)
  {
    if i == 0 {
      PortIsOf(inputs, r);
    } else {
      assert ops[..i][..i - 1] == ops[..i - 1];
      if r in Roles(ops[i - 1].outputs) {
        PortIsOf(ops[i - 1].outputs, r);
        assert WrittenLast(ops, i - 1, i, PortOf(ops[i - 1].outputs, r));
      } else {
        LatestIsNearest(inputs, ops, i - 1, r);
        var p := AfterAll(Start(inputs), ops[..i - 1]).latest[r];
        var m := i - 1;
        if j :| 0 <= j < m && WrittenLast(ops, j, m, p) {
          assert WrittenLast(ops, j, i, p);
        }
      }
    }
  }

  lemma {:induction false} PrefixWired(st: Stage, ops: seq<Operation>, i: nat)
    requires AllWired(st, ops) && i < |ops|
    ensures Wired(AfterAll(st, ops[..i]), ops[i])
    decreases |ops|
  {
    var n := |ops| - 1;
    if i < n {
      assert ops[..n][..i] == ops[..i] && ops[..n][i] == ops[i];
      PrefixWired(st, ops[..n], i);
    }
  }

  /** Every port that an operation of a wired program reads was written last under its role. */
  lemma ReadsNearest(p: Program, i: nat, port: Port)
    requires WellWired(p) && i < |p.operations| && port in p.operations[i].inputs
    ensures Nearest(p.inputs, p.operations, i, port)
  {
    hide AfterAll, AllWired, Nearest, Start;
    PrefixWired(Start(p.inputs), p.operations, i);
    LatestIsNearest(p.inputs, p.operations, i, port.role);
  }

  // One operation after the other

  /** What an operation leaves behind, port by port. */
  lemma AfterOne(st: Stage, op: Operation)
    requires DistinctRoles(op.outputs)
    ensures After(st, op).latest.Keys == st.latest.Keys + Roles(op.outputs)
    ensures forall p :: p in op.outputs ==> After(st, op).latest[p.role] == p
    ensures forall r :: r in st.latest && r !in Roles(op.outputs) ==> After(st, op).latest[r] == st.latest[r]
  {
    forall p | p in op.outputs
      ensures p.role in Roles(op.outputs) && PortOf(op.outputs, p.role) == p
    {
      PortIsOf(op.outputs, p.role);
    }
  }

  lemma ThenWired(st: Stage, done: seq<Operation>, op: Operation) returns (after: Stage)
    requires AllWired(st, done) && Wired(AfterAll(st, done), op)
    ensures AllWired(st, done + [op]) && after == AfterAll(st, done + [op]) == After(AfterAll(st, done), op)
    ensures after.latest.Keys == AfterAll(st, done).latest.Keys + Roles(op.outputs)
    ensures forall p :: p in op.outputs ==> after.latest[p.role] == p
    ensures forall r :: r in AfterAll(st, done).latest && r !in Roles(op.outputs) ==>
      after.latest[r] == AfterAll(st, done).latest[r]
    ensures after.unread == AfterAll(st, done).unread - Roles(op.inputs) + Roles(op.outputs)
  {
    assert (done + [op])[..|done|] == done;
    after := AfterAll(st, done + [op]);
    AfterOne(AfterAll(st, done), op);
  }

  lemma {:induction false} WiredJoins(st: Stage, a: seq<Operation>, b: seq<Operation>)
    requires AllWired(st, a) && AllWired(AfterAll(st, a), b)
    ensures AllWired(st, a + b) && AfterAll(st, a + b) == AfterAll(AfterAll(st, a), b)
    decreases |b|
  {
    hide Wired, After;
    if b == [] {
      assert a + b == a;
    } else {
      var n := |b| - 1;
      assert (a + b)[..|a| + n] == a + b[..n] && (a + b)[|a| + n] == b[n];
      WiredJoins(st, a, b[..n]);
    }
  }

  lemma NoneWired(st: Stage)
    ensures AllWired(st, []) && AfterAll(st, []) == st
  {}

  /** Exactly these ports are written and not read yet, and the program inputs are as they were. */
  predicate Holding(st: Stage, inputs: seq<Port>, held: seq<Port>) {
    st.unread == Roles(held) && Keeps(st, held) && Keeps(st, inputs)
  }

  predicate Keeps(st: Stage, ports: seq<Port>) {
    forall p :: p in ports ==> p.role in st.latest && st.latest[p.role] == p
  }

  /** An operation that reads of what is held and of the program inputs, and leaves the rest of what is held. */
  predicate Takes(inputs: seq<Port>, held: seq<Port>, op: Operation, kept: seq<Port>) {
    (forall p :: p in op.inputs ==> p in held || p in inputs) && (forall p :: p in held ==> p in op.inputs || p in kept) &&
    (forall p :: p in kept ==> p in held && p.role !in Roles(op.inputs) && p.role !in Roles(op.outputs)) &&
    DistinctRoles(op.outputs) && forall p :: p in inputs ==> p.role !in Roles(op.outputs)
  }

  lemma TakesOn(st: Stage, inputs: seq<Port>, held: seq<Port>, op: Operation, kept: seq<Port>)
    requires Holding(st, inputs, held) && Takes(inputs, held, op, kept)
    ensures Wired(st, op) && Holding(After(st, op), inputs, op.outputs + kept)
  {
    AfterOne(st, op);
    assert st.unread - Roles(op.inputs) == Roles(kept) by {
      forall r
        ensures r in st.unread - Roles(op.inputs) <==> r in Roles(kept)
      {}
    }
    assert Roles(op.outputs + kept) == Roles(op.outputs) + Roles(kept);
  }

  /** The same behind operations already wired. */
  lemma OneMoreTakes(st: Stage, done: seq<Operation>, inputs: seq<Port>, held: seq<Port>, op: Operation, kept: seq<Port>)
    requires AllWired(st, done) && Holding(AfterAll(st, done), inputs, held) && Takes(inputs, held, op, kept)
    ensures AllWired(st, done + [op]) && Holding(AfterAll(st, done + [op]), inputs, op.outputs + kept)
  {
    hide Holding, Takes, Wired, After;
    assert (done + [op])[..|done|] == done;
    TakesOn(AfterAll(st, done), inputs, held, op, kept);
  }

  /** Two operations in a row. */
  lemma TwoTake(st: Stage, inputs: seq<Port>, held: seq<Port>, a: Operation, kept: seq<Port>, b: Operation, rest: seq<Port>)
    requires Holding(st, inputs, held) && Takes(inputs, held, a, kept) && Takes(inputs, a.outputs + kept, b, rest)
    ensures AllWired(st, [a, b]) && Holding(AfterAll(st, [a, b]), inputs, b.outputs + rest)
  {
    NoneWired(st);
    hide AllWired, AfterAll, Holding, Takes;
    OneMoreTakes(st, [], inputs, held, a, kept);
    OneMoreTakes(st, [] + [a], inputs, a.outputs + kept, b, rest);
    assert [] + [a] + [b] == [a, b];
  }

  lemma StartKeeps(inputs: seq<Port>)
    requires DistinctRoles(inputs)
    ensures Holding(Start(inputs), inputs, [])
  {
    forall p | p in inputs
      ensures p.role in Roles(inputs) && PortOf(inputs, p.role) == p
    {
      PortIsOf(inputs, p.role);
    }
  }

  /** Layers in a row, each of which hands the stream on to the next. */
  lemma {:induction false} BodyWired(st: Stage, inputs: seq<Port>, f: nat -> seq<Operation>, stream: nat -> Port, n: nat)
    requires Holding(st, inputs, [stream(0)])
    requires forall l: nat, s :: l < n && Holding(s, inputs, [stream(l)]) ==>
      AllWired(s, f(l)) && Holding(AfterAll(s, f(l)), inputs, [stream(l + 1)])
    ensures AllWired(st, Body(f, n)) && Holding(AfterAll(st, Body(f, n)), inputs, [stream(n)])
  {
    hide AllWired, AfterAll, Holding;
    if n == 0 {
      NoneWired(st);
    } else {
      BodyWired(st, inputs, f, stream, n - 1);
      WiredJoins(st, Body(f, n - 1), f(n - 1));
    }
  }

  /** The operations before the layers, the layers, and those behind them. */
  lemma AroundWired(p: Program, before: seq<Operation>, body: seq<Operation>, after: seq<Operation>)
    requires p.operations == before + body + after
    requires
      var start := Start(p.inputs);
      AllWired(start, before) && AllWired(AfterAll(start, before), body) &&
      AllWired(AfterAll(AfterAll(start, before), body), after)
    ensures
      var start := Start(p.inputs);
      AllWired(start, p.operations) &&
      AfterAll(start, p.operations) == AfterAll(AfterAll(AfterAll(start, before), body), after)
  {
    hide AllWired, AfterAll, Start;
    WiredJoins(Start(p.inputs), before, body);
    WiredJoins(Start(p.inputs), before + body, after);
  }

  /** The last operation answers with tokens. */
  predicate Answers(st: Stage) {
    st.unread == {TokenIds} && TokenIds in st.latest && st.latest[TokenIds] == Port(TokenIds, ResponseTokens, TokenBatch)
  }

  /** An operation that reads all that is held and answers. */
  lemma LastAnswers(st: Stage, done: seq<Operation>, inputs: seq<Port>, held: seq<Port>, op: Operation)
    requires AllWired(st, done) && Holding(AfterAll(st, done), inputs, held)
    requires op.inputs == held && op.outputs == [Port(TokenIds, ResponseTokens, TokenBatch)]
    ensures AllWired(st, done + [op]) && Answers(AfterAll(st, done + [op]))
  {
    assert (done + [op])[..|done|] == done;
    AfterOne(AfterAll(st, done), op);
    assert op.outputs[0] in op.outputs;
  }

  // The first family

  function HiddenPort(l: nat): Port { Port(HiddenRole, Hidden(l), HiddenBatch) }

  lemma OlmoeLayerWired(st: Stage, l: nat)
    requires Holding(st, TEXT_INPUTS, [HiddenPort(l)])
    ensures AllWired(st, OlmoeLayer(l)) && Holding(AfterAll(st, OlmoeLayer(l)), TEXT_INPUTS, [HiddenPort(l + 1)])
  {
    NoneWired(st);
    var block, router, experts := OlmoeBlock(l), OlmoeRouter(l), OlmoeExperts(l);
    OlmoeBlockTakes(l);
    OlmoeRouterTakes(l);
    OlmoeExpertsTake(l);
    hide AllWired, AfterAll, Holding, Takes;
    OneMoreTakes(st, [], TEXT_INPUTS, [HiddenPort(l)], block, []);
    assert block.outputs + [] == block.outputs && router.outputs + [] == router.outputs;
    OneMoreTakes(st, [] + [block], TEXT_INPUTS, block.outputs, router, []);
    OneMoreTakes(st, [] + [block] + [router], TEXT_INPUTS, router.outputs, experts, []);
    assert experts.outputs + [] == [HiddenPort(l + 1)];
    assert [] + [block] + [router] + [experts] == OlmoeLayer(l);
  }

  lemma OlmoeBlockTakes(l: nat)
    ensures Takes(TEXT_INPUTS, [HiddenPort(l)], OlmoeBlock(l), [])
  {
    assert TEXT_INPUTS[1] in TEXT_INPUTS;
  }

  lemma OlmoeRouterTakes(l: nat)
    ensures Takes(TEXT_INPUTS, OlmoeBlock(l).outputs, OlmoeRouter(l), [])
  {}

  lemma OlmoeExpertsTake(l: nat)
    ensures Takes(TEXT_INPUTS, OlmoeRouter(l).outputs, OlmoeExperts(l), [])
  {}

  /** Whatever the number of layers. */
  lemma OlmoeWired(n: nat)
    ensures WellWired(Olmoe(n))
  {
    hide AllWired, AfterAll, Start, Body, Holding, OlmoeLayer;
    var p, start := Olmoe(n), Start(TEXT_INPUTS);
    var first, body := AfterAll(start, [OlmoeEmbed()]), Body(OlmoeLayer, n);
    OlmoePrologueWired();
    forall l: nat, s | l < n && Holding(s, TEXT_INPUTS, [HiddenPort(l)])
      ensures AllWired(s, OlmoeLayer(l)) && Holding(AfterAll(s, OlmoeLayer(l)), TEXT_INPUTS, [HiddenPort(l + 1)])
    {
      OlmoeLayerWired(s, l);
    }
    BodyWired(first, TEXT_INPUTS, OlmoeLayer, HiddenPort, n);
    var last := AfterAll(first, body);
    NoneWired(last);
    LastAnswers(last, [], TEXT_INPUTS, [HiddenPort(n)], OlmoeHead(n));
    assert [] + [OlmoeHead(n)] == [OlmoeHead(n)];
    AroundWired(p, [OlmoeEmbed()], body, [OlmoeHead(n)]);
  }

  lemma OlmoePrologueWired()
    ensures
      var start := Start(TEXT_INPUTS);
      AllWired(start, [OlmoeEmbed()]) && Holding(AfterAll(start, [OlmoeEmbed()]), TEXT_INPUTS, [HiddenPort(0)])
  {
    var start := Start(TEXT_INPUTS);
    assert TEXT_INPUTS[0] in TEXT_INPUTS;
    assert Takes(TEXT_INPUTS, [], OlmoeEmbed(), []);
    hide AllWired, AfterAll, Start, Takes, Holding;
    StartKeeps(TEXT_INPUTS);
    NoneWired(start);
    OneMoreTakes(start, [], TEXT_INPUTS, [], OlmoeEmbed(), []);
    assert [] + [OlmoeEmbed()] == [OlmoeEmbed()] && OlmoeEmbed().outputs + [] == [HiddenPort(0)];
  }

  // The hybrid family

  lemma HybridLayerWired(full: bool, routed: bool, st: Stage, l: nat)
    requires Holding(st, Hybrid.INPUTS, [HiddenPort(l)])
    ensures
      var ops := Hybrid.LayerOperations(full, routed, l);
      AllWired(st, ops) && Holding(AfterAll(st, ops), Hybrid.INPUTS, [HiddenPort(l + 1)])
  {
    NoneWired(st);
    var attention, router, experts, dense := Hybrid.Attention(full, l), Hybrid.Router(l), Hybrid.Experts(l), Hybrid.FeedForward(l);
    AttentionTakes(full, l);
    RouterTakes(full, l);
    ExpertsTake(l);
    FeedForwardTakes(full, l);
    hide AllWired, AfterAll, Holding, Takes;
    OneMoreTakes(st, [], Hybrid.INPUTS, [HiddenPort(l)], attention, []);
    assert attention.outputs + [] == attention.outputs && router.outputs + [] == router.outputs;
    assert experts.outputs + [] == [HiddenPort(l + 1)] && dense.outputs + [] == [HiddenPort(l + 1)];
    if routed {
      OneMoreTakes(st, [] + [attention], Hybrid.INPUTS, attention.outputs, router, []);
      OneMoreTakes(st, [] + [attention] + [router], Hybrid.INPUTS, router.outputs, experts, []);
      assert [] + [attention] + [router] + [experts] == Hybrid.LayerOperations(full, routed, l);
    } else {
      OneMoreTakes(st, [] + [attention], Hybrid.INPUTS, attention.outputs, dense, []);
      assert [] + [attention] + [dense] == Hybrid.LayerOperations(full, routed, l);
    }
  }

  lemma AttentionTakes(full: bool, l: nat)
    ensures Takes(Hybrid.INPUTS, [HiddenPort(l)], Hybrid.Attention(full, l), [])
  {}

  lemma RouterTakes(full: bool, l: nat)
    ensures Takes(Hybrid.INPUTS, Hybrid.Attention(full, l).outputs, Hybrid.Router(l), [])
  {}

  lemma ExpertsTake(l: nat)
    ensures Takes(Hybrid.INPUTS, Hybrid.Router(l).outputs, Hybrid.Experts(l), [])
  {}

  lemma FeedForwardTakes(full: bool, l: nat)
    ensures Takes(Hybrid.INPUTS, Hybrid.Attention(full, l).outputs, Hybrid.FeedForward(l), [])
  {}

  lemma HybridPrologueWired()
    ensures
      var start, ops := Start(Hybrid.INPUTS), [Hybrid.Embed(), Hybrid.Vision()];
      AllWired(start, ops) && Holding(AfterAll(start, ops), Hybrid.INPUTS, [HiddenPort(0)])
  {
    var start, embed, vision := Start(Hybrid.INPUTS), Hybrid.Embed(), Hybrid.Vision();
    HybridStartTakes();
    hide AllWired, AfterAll, Start, Takes, Holding;
    StartKeeps(Hybrid.INPUTS);
    NoneWired(start);
    OneMoreTakes(start, [], Hybrid.INPUTS, [], embed, []);
    assert embed.outputs + [] == embed.outputs && vision.outputs + [] == [HiddenPort(0)];
    OneMoreTakes(start, [] + [embed], Hybrid.INPUTS, embed.outputs, vision, []);
    assert [] + [embed] + [vision] == [embed, vision];
  }

  lemma HybridStartTakes()
    ensures Takes(Hybrid.INPUTS, [], Hybrid.Embed(), [])
    ensures Takes(Hybrid.INPUTS, Hybrid.Embed().outputs, Hybrid.Vision(), [])
  {
    assert Hybrid.INPUTS[0] in Hybrid.INPUTS && Hybrid.INPUTS[2] in Hybrid.INPUTS;
  }

  /** Whatever the layer types, dense or routed. */
  lemma HybridWired(types: seq<bool>, routed: bool)
    ensures WellWired(Hybrid.Hybrid(types, routed))
  {
    hide AllWired, AfterAll, Start, Body, Holding, Hybrid.LayerOperations;
    var p, start, n := Hybrid.Hybrid(types, routed), Start(Hybrid.INPUTS), |types|;
    var before, f := [Hybrid.Embed(), Hybrid.Vision()], Hybrid.Layers(types, routed);
    var first, body := AfterAll(start, before), Body(f, n);
    HybridPrologueWired();
    forall l: nat, s | l < n && Holding(s, Hybrid.INPUTS, [HiddenPort(l)])
      ensures AllWired(s, f(l)) && Holding(AfterAll(s, f(l)), Hybrid.INPUTS, [HiddenPort(l + 1)])
    {
      HybridLayerWired(l < |types| && types[l], routed, s, l);
    }
    BodyWired(first, Hybrid.INPUTS, f, HiddenPort, n);
    var last := AfterAll(first, body);
    NoneWired(last);
    LastAnswers(last, [], Hybrid.INPUTS, [HiddenPort(n)], Hybrid.Head(n));
    assert [] + [Hybrid.Head(n)] == [Hybrid.Head(n)];
    AroundWired(p, before, body, [Hybrid.Head(n)]);
  }

  // The hyper-stream family

  function StreamsPort(source: Value): Port { Port(HyperRole, source, HyperBatch) }

  function HyperPort(l: nat): Port { StreamsPort(Hyper(l)) }

  /** What is set aside while an organ works. */
  function Aside(l: nat, retained: Organ, injection: Organ): seq<Port> {
    [Port(Retained, At(l, retained), HyperBatch), Port(Injection, At(l, injection), InjectionBatch)]
  }

  lemma PleTakes(l: nat)
    ensures Takes(TEXT_INPUTS, [HyperPort(l)], Streams.PleEmbedding(l), [])
  {
    assert TEXT_INPUTS[0] in TEXT_INPUTS;
  }

  lemma ReadTakes(source: Value, l: nat, hidden: Organ, retained: Organ, injection: Organ)
    ensures Takes(TEXT_INPUTS, [StreamsPort(source)], Streams.Read(source, l, hidden, retained, injection), [])
  {}

  lemma BlockTakes(source: Value, full: bool, l: nat)
    ensures
      var aside := Aside(l, AttentionReadRetained, AttentionReadInjection);
      Takes(TEXT_INPUTS, Streams.AttentionRead(source, l).outputs, Streams.Block(full, l), aside)
  {
    assert TEXT_INPUTS[1] in TEXT_INPUTS;
  }

  lemma AttentionInjectTakes(full: bool, l: nat)
    ensures
      var aside := Aside(l, AttentionReadRetained, AttentionReadInjection);
      Takes(TEXT_INPUTS, Streams.Block(full, l).outputs + aside, Streams.AttentionInject(l), [])
  {}

  lemma StreamsRouterTakes(l: nat)
    ensures
      var aside := Aside(l, MlpReadRetained, MlpReadInjection);
      Takes(TEXT_INPUTS, Streams.MlpRead(l).outputs, Streams.Router(l), aside)
  {
    RouterRoles(l);
    hide Roles;
  }

  lemma RouterRoles(l: nat)
    ensures Roles(Streams.Router(l).inputs) == {HiddenRole}
    ensures Roles(Streams.Router(l).outputs) == {ExpertInputRole, RouteIndicesRole, RouteWeightsRole, SharedOutputRole}
  {
    HoldsRoles(Streams.Router(l).outputs);
    HoldsRoles(Streams.Router(l).inputs);
  }

  lemma StreamsExpertsTake(l: nat)
    ensures
      var aside := Aside(l, MlpReadRetained, MlpReadInjection);
      Takes(TEXT_INPUTS, Streams.Router(l).outputs + aside, Streams.Experts(l), aside)
  {}

  lemma MlpInjectTakes(l: nat)
    ensures
      var aside := Aside(l, MlpReadRetained, MlpReadInjection);
      Takes(TEXT_INPUTS, Streams.Experts(l).outputs + aside, Streams.MlpInject(l), [])
  {}

  lemma PleWired(ple: bool, st: Stage, l: nat)
    requires Holding(st, TEXT_INPUTS, [HyperPort(l)])
    ensures
      var ops := Streams.PleHalf(ple, l);
      AllWired(st, ops) && Holding(AfterAll(st, ops), TEXT_INPUTS, [StreamsPort(Streams.Current(ple, l))])
  {
    NoneWired(st);
    var op := Streams.PleEmbedding(l);
    PleTakes(l);
    hide AllWired, AfterAll, Holding, Takes;
    if ple {
      OneMoreTakes(st, [], TEXT_INPUTS, [HyperPort(l)], op, []);
      assert [] + [op] == Streams.PleHalf(ple, l) && op.outputs + [] == op.outputs;
    }
  }

  lemma AttentionWired(ple: bool, full: bool, st: Stage, l: nat)
    requires Holding(st, TEXT_INPUTS, [StreamsPort(Streams.Current(ple, l))])
    ensures
      var ops := Streams.AttentionHalf(ple, full, l);
      AllWired(st, ops) && Holding(AfterAll(st, ops), TEXT_INPUTS, [StreamsPort(At(l, AfterAttention))])
  {
    hide *;
    var source := Streams.Current(ple, l);
    var read, block, inject := Streams.AttentionRead(source, l), Streams.Block(full, l), Streams.AttentionInject(l);
    var aside := Aside(l, AttentionReadRetained, AttentionReadInjection);
    AttentionTakesAll(ple, full, l);
    assert read.outputs + [] == read.outputs;
    TwoTake(st, TEXT_INPUTS, [StreamsPort(source)], read, [], block, aside);
    OneMoreTakes(st, [read, block], TEXT_INPUTS, block.outputs + aside, inject, []);
  }

  lemma AttentionTakesAll(ple: bool, full: bool, l: nat)
    ensures
      var source, aside := Streams.Current(ple, l), Aside(l, AttentionReadRetained, AttentionReadInjection);
      Takes(TEXT_INPUTS, [StreamsPort(source)], Streams.AttentionRead(source, l), []) &&
      Takes(TEXT_INPUTS, Streams.AttentionRead(source, l).outputs, Streams.Block(full, l), aside) &&
      Takes(TEXT_INPUTS, Streams.Block(full, l).outputs + aside, Streams.AttentionInject(l), []) &&
      [Streams.AttentionRead(source, l), Streams.Block(full, l)] + [Streams.AttentionInject(l)] ==
      Streams.AttentionHalf(ple, full, l)
    ensures Streams.AttentionInject(l).outputs + [] == [StreamsPort(At(l, AfterAttention))]
  {
    hide Takes, Aside, TEXT_INPUTS, Streams.Block, Streams.Read;
    ReadTakes(Streams.Current(ple, l), l, AttentionReadHidden, AttentionReadRetained, AttentionReadInjection);
    BlockTakes(Streams.Current(ple, l), full, l);
    AttentionInjectTakes(full, l);
  }

  lemma MlpWired(st: Stage, l: nat)
    requires Holding(st, TEXT_INPUTS, [StreamsPort(At(l, AfterAttention))])
    ensures
      var ops := Streams.MlpHalf(l);
      AllWired(st, ops) && Holding(AfterAll(st, ops), TEXT_INPUTS, [HyperPort(l + 1)])
  {
    hide *;
    var read, router, experts, inject := Streams.MlpRead(l), Streams.Router(l), Streams.Experts(l), Streams.MlpInject(l);
    var aside := Aside(l, MlpReadRetained, MlpReadInjection);
    MlpTakes(l);
    assert read.outputs + [] == read.outputs;
    TwoTake(st, TEXT_INPUTS, [StreamsPort(At(l, AfterAttention))], read, [], router, aside);
    TwoTake(AfterAll(st, [read, router]), TEXT_INPUTS, router.outputs + aside, experts, aside, inject, []);
    WiredJoins(st, [read, router], [experts, inject]);
  }

  lemma MlpTakes(l: nat)
    ensures
      var aside := Aside(l, MlpReadRetained, MlpReadInjection);
      Takes(TEXT_INPUTS, [StreamsPort(At(l, AfterAttention))], Streams.MlpRead(l), []) &&
      Takes(TEXT_INPUTS, Streams.MlpRead(l).outputs, Streams.Router(l), aside) &&
      Takes(TEXT_INPUTS, Streams.Router(l).outputs + aside, Streams.Experts(l), aside) &&
      Takes(TEXT_INPUTS, Streams.Experts(l).outputs + aside, Streams.MlpInject(l), [])
    ensures Streams.MlpInject(l).outputs + [] == [HyperPort(l + 1)]
    ensures [Streams.MlpRead(l), Streams.Router(l)] + [Streams.Experts(l), Streams.MlpInject(l)] == Streams.MlpHalf(l)
  {
    hide Takes, Aside, TEXT_INPUTS, Streams.Router, Streams.Experts, Streams.Read;
    ReadTakes(At(l, AfterAttention), l, MlpReadHidden, MlpReadRetained, MlpReadInjection);
    StreamsRouterTakes(l);
    StreamsExpertsTake(l);
    MlpInjectTakes(l);
  }

  lemma HyperLayerWired(ple: bool, full: bool, st: Stage, l: nat)
    requires Holding(st, TEXT_INPUTS, [HyperPort(l)])
    ensures
      var ops := Streams.LayerOperations(ple, full, l);
      AllWired(st, ops) && Holding(AfterAll(st, ops), TEXT_INPUTS, [HyperPort(l + 1)])
  {
    hide AllWired, AfterAll, Holding, Streams.PleHalf, Streams.AttentionHalf, Streams.MlpHalf;
    var a, b, c := Streams.PleHalf(ple, l), Streams.AttentionHalf(ple, full, l), Streams.MlpHalf(l);
    PleWired(ple, st, l);
    AttentionWired(ple, full, AfterAll(st, a), l);
    WiredJoins(st, a, b);
    MlpWired(AfterAll(st, a + b), l);
    WiredJoins(st, a + b, c);
  }

  lemma HyperPrologueWired()
    ensures
      var start, ops := Start(TEXT_INPUTS), [Streams.Embed(), Streams.Initialize()];
      AllWired(start, ops) && Holding(AfterAll(start, ops), TEXT_INPUTS, [HyperPort(0)])
  {
    var start, embed, initialize := Start(TEXT_INPUTS), Streams.Embed(), Streams.Initialize();
    HyperStartTakes();
    hide AllWired, AfterAll, Start, Takes, Holding;
    StartKeeps(TEXT_INPUTS);
    NoneWired(start);
    OneMoreTakes(start, [], TEXT_INPUTS, [], embed, []);
    assert embed.outputs + [] == embed.outputs && initialize.outputs + [] == [HyperPort(0)];
    OneMoreTakes(start, [] + [embed], TEXT_INPUTS, embed.outputs, initialize, []);
    assert [] + [embed] + [initialize] == [embed, initialize];
  }

  lemma HyperStartTakes()
    ensures Takes(TEXT_INPUTS, [], Streams.Embed(), [])
    ensures Takes(TEXT_INPUTS, Streams.Embed().outputs, Streams.Initialize(), [])
  {
    assert TEXT_INPUTS[0] in TEXT_INPUTS;
  }

  lemma HyperEpilogueWired(st: Stage, n: nat)
    requires Holding(st, TEXT_INPUTS, [HyperPort(n)])
    ensures
      var ops := [Streams.Reduce(n), Streams.Head()];
      AllWired(st, ops) && Answers(AfterAll(st, ops))
  {
    var reduce, head := Streams.Reduce(n), Streams.Head();
    assert Takes(TEXT_INPUTS, [HyperPort(n)], reduce, []);
    NoneWired(st);
    hide AllWired, AfterAll, Takes, Holding, Answers;
    OneMoreTakes(st, [], TEXT_INPUTS, [HyperPort(n)], reduce, []);
    assert reduce.outputs + [] == head.inputs;
    LastAnswers(st, [] + [reduce], TEXT_INPUTS, head.inputs, head);
    assert [] + [reduce] + [head] == [reduce, head];
  }

  /** Whatever the layer types, with any layers that have an n-gram embedding. */
  lemma HyperWired(types: seq<bool>, ple: set<nat>)
    ensures WellWired(Streams.Hypers(types, ple))
  {
    hide AllWired, AfterAll, Start, Body, Holding, Streams.LayerOperations;
    var p, start, n := Streams.Hypers(types, ple), Start(TEXT_INPUTS), |types|;
    var before, f, after := [Streams.Embed(), Streams.Initialize()], Streams.Layers(types, ple), [Streams.Reduce(n), Streams.Head()];
    var first, body := AfterAll(start, before), Body(f, n);
    HyperPrologueWired();
    forall l: nat, s | l < n && Holding(s, TEXT_INPUTS, [HyperPort(l)])
      ensures AllWired(s, f(l)) && Holding(AfterAll(s, f(l)), TEXT_INPUTS, [HyperPort(l + 1)])
    {
      HyperLayerWired(l + 1 in ple, l < |types| && types[l], s, l);
    }
    BodyWired(first, TEXT_INPUTS, f, HyperPort, n);
    HyperEpilogueWired(AfterAll(first, body), n);
    AroundWired(p, before, body, after);
  }

  // What the operations of a layer are for

  /** The kernels of a family's blocks, routers and experts. */
  datatype Kinds = Kinds(full: Kernel, recurrent: Kernel, router: Kernel, experts: Kernel)

  const ROUTING := {ExpertInputRole, RouteIndicesRole, RouteWeightsRole}

  /** A block of the type of its layer, which reads the positions of the request. */
  predicate IsBlock(kinds: Kinds, full: bool, l: nat, op: Operation) {
    op.layer == Some(l) && op.kernel == (if full then kinds.full else kinds.recurrent) &&
    Port(Positions, RequestPositions, PositionBatch) in op.inputs && Roles(op.outputs) == {HiddenRole}
  }

  /** A router writes what the experts work on, which of them do and with what weight. */
  predicate IsRouter(kinds: Kinds, l: nat, op: Operation) {
    op.layer == Some(l) && op.kernel == kinds.router && op.component == Some(DECODER) && op.componentLayer == l &&
    ROUTING <= Roles(op.outputs)
  }

  predicate IsExperts(kinds: Kinds, l: nat, op: Operation) {
    op.layer == Some(l) && op.kernel == kinds.experts && op.component == Some(DECODER) && op.componentLayer == l &&
    ROUTING <= Roles(op.inputs) && Roles(op.outputs) == {HiddenRole}
  }

  predicate Staffed(kinds: Kinds, full: bool, routed: bool, l: nat, ops: seq<Operation>) {
    (exists op :: op in ops && IsBlock(kinds, full, l, op)) &&
    (routed ==> (exists op :: op in ops && IsRouter(kinds, l, op)) && exists op :: op in ops && IsExperts(kinds, l, op))
  }

  /** Every layer has a block of its type and, if it is routed, a router and experts. */
  predicate AllStaffed(kinds: Kinds, types: seq<bool>, routed: bool, ops: seq<Operation>) {
    forall l :: 0 <= l < |types| ==> Staffed(kinds, types[l], routed, l, ops)
  }

  lemma StaffedMore(kinds: Kinds, full: bool, routed: bool, l: nat, few: seq<Operation>, many: seq<Operation>)
    requires Staffed(kinds, full, routed, l, few) && forall op :: op in few ==> op in many
    ensures Staffed(kinds, full, routed, l, many)
  {
    hide IsBlock, IsRouter, IsExperts;
  }

  const OLMOE_KINDS := Kinds(OLMOE_BLOCK, OLMOE_BLOCK, OLMOE_ROUTER, OLMOE_EXPERTS)
  const HYBRID_KINDS := Kinds(Hybrid.FULL, Hybrid.RECURRENT, Hybrid.ROUTER, Hybrid.EXPERTS)
  const HYPER_KINDS := Kinds(Streams.SPARSE, Streams.RECURRENT, Streams.ROUTER, Streams.EXPERTS)

  lemma HoldsRoles(ports: seq<Port>)
    ensures forall i :: 0 <= i < |ports| ==> ports[i].role in Roles(ports)
  {}

  lemma OlmoeStaffed(n: nat)
    ensures AllStaffed(OLMOE_KINDS, seq(n, _ => true), true, Olmoe(n).operations)
  {
    hide Body, Staffed, OlmoeLayer;
    forall l | 0 <= l < n
      ensures Staffed(OLMOE_KINDS, true, true, l, OlmoeOperations(n))
    {
      LayerInBody(OlmoeLayer, n, l);
      OlmoeLayerStaffed(l);
      StaffedMore(OLMOE_KINDS, true, true, l, OlmoeLayer(l), OlmoeOperations(n));
    }
  }

  lemma OlmoeLayerStaffed(l: nat)
    ensures Staffed(OLMOE_KINDS, true, true, l, OlmoeLayer(l))
  {
    var ops := OlmoeLayer(l);
    HoldsRoles(ops[1].outputs);
    HoldsRoles(ops[2].inputs);
    assert ops[0].inputs[1] in ops[0].inputs;
    assert IsBlock(OLMOE_KINDS, true, l, ops[0]) && IsRouter(OLMOE_KINDS, l, ops[1]) && IsExperts(OLMOE_KINDS, l, ops[2]);
  }

  lemma HybridStaffed(types: seq<bool>, routed: bool)
    ensures AllStaffed(HYBRID_KINDS, types, routed, Hybrid.Hybrid(types, routed).operations)
  {
    hide Body, Staffed, Hybrid.LayerOperations;
    var ops := Hybrid.Operations(types, routed);
    forall l | 0 <= l < |types|
      ensures Staffed(HYBRID_KINDS, types[l], routed, l, ops)
    {
      LayerInBody(Hybrid.Layers(types, routed), |types|, l);
      HybridLayerStaffed(types[l], routed, l);
      StaffedMore(HYBRID_KINDS, types[l], routed, l, Hybrid.LayerOperations(types[l], routed, l), ops);
    }
  }

  lemma HybridLayerStaffed(full: bool, routed: bool, l: nat)
    ensures Staffed(HYBRID_KINDS, full, routed, l, Hybrid.LayerOperations(full, routed, l))
  {
    var ops := Hybrid.LayerOperations(full, routed, l);
    assert ops[0].inputs[1] in ops[0].inputs && IsBlock(HYBRID_KINDS, full, l, ops[0]);
    if routed {
      HoldsRoles(ops[1].outputs);
      HoldsRoles(ops[2].inputs);
      assert IsRouter(HYBRID_KINDS, l, ops[1]) && IsExperts(HYBRID_KINDS, l, ops[2]);
    }
  }

  lemma HyperStaffed(types: seq<bool>, ple: set<nat>)
    ensures AllStaffed(HYPER_KINDS, types, true, Streams.Hypers(types, ple).operations)
  {
    hide Body, Staffed, Streams.LayerOperations;
    var ops := Streams.Operations(types, ple);
    forall l | 0 <= l < |types|
      ensures Staffed(HYPER_KINDS, types[l], true, l, ops)
    {
      LayerInBody(Streams.Layers(types, ple), |types|, l);
      HyperLayerStaffed(l + 1 in ple, types[l], l);
      StaffedMore(HYPER_KINDS, types[l], true, l, Streams.LayerOperations(l + 1 in ple, types[l], l), ops);
    }
  }

  lemma HyperLayerStaffed(ple: bool, full: bool, l: nat)
    ensures Staffed(HYPER_KINDS, full, true, l, Streams.LayerOperations(ple, full, l))
  {
    var attention, mlp := Streams.AttentionHalf(ple, full, l), Streams.MlpHalf(l);
    var block, router, experts := attention[1], mlp[1], mlp[2];
    HoldsRoles(router.outputs);
    HoldsRoles(experts.inputs);
    assert block.inputs[1] in block.inputs && IsBlock(HYPER_KINDS, full, l, block);
    assert IsRouter(HYPER_KINDS, l, router) && IsExperts(HYPER_KINDS, l, experts);
    assert block in attention && router in mlp && experts in mlp;
  }

  // Which layers embed the tokens of the request

  predicate Embeds(l: nat, op: Operation) {
    op.layer == Some(l) && Port(TokenIds, RequestTokens, TokenBatch) in op.inputs
  }

  lemma {:induction false} InBody(f: nat -> seq<Operation>, n: nat, op: Operation) returns (l: nat)
    requires op in Body(f, n)
    ensures l < n && op in f(l)
  {
    if op in f(n - 1) {
      l := n - 1;
    } else {
      l := InBody(f, n - 1, op);
    }
  }

  lemma LayerEmbeds(ple: bool, full: bool, l: nat, op: Operation)
    requires op in Streams.LayerOperations(ple, full, l)
    ensures op.layer == Some(l) && (Embeds(l, op) ==> ple && op.kernel == Streams.PLE)
  {
    hide Streams.PLE, Streams.READ, Streams.INJECT, Streams.BlockKernel, Streams.ROUTER, Streams.EXPERTS;
    assert op in Streams.PleHalf(ple, l) || op in Streams.AttentionHalf(ple, full, l) || op in Streams.MlpHalf(l);
  }

  /** Exactly the layers listed, counted from one, read the tokens of the request again, by the embedding kernel alone. */
  lemma HyperEmbeds(types: seq<bool>, ple: set<nat>, l: nat)
    requires l < |types|
    ensures
      var ops := Streams.Operations(types, ple);
      ((exists op :: op in ops && Embeds(l, op)) <==> l + 1 in ple) &&
      forall op :: op in ops && Embeds(l, op) ==> op.kernel == Streams.PLE
  {
    hide Body, Streams.LayerOperations, Embeds, Streams.PLE;
    var ops, f := Streams.Operations(types, ple), Streams.Layers(types, ple);
    forall op | op in ops && Embeds(l, op)
      ensures l + 1 in ple && op.kernel == Streams.PLE
    {
      InnerOperation(types, ple, l, op);
      var k := InBody(f, |types|, op);
      LayerEmbeds(k + 1 in ple, types[k], k, op);
      EmbedsLayer(l, op);
    }
    if l + 1 in ple {
      PleIsThere(types[l], l);
      LayerInBody(f, |types|, l);
    }
  }

  lemma EmbedsLayer(l: nat, op: Operation)
    requires Embeds(l, op)
    ensures op.layer == Some(l)
  {}

  lemma InnerOperation(types: seq<bool>, ple: set<nat>, l: nat, op: Operation)
    requires op in Streams.Operations(types, ple) && Embeds(l, op)
    ensures op in Body(Streams.Layers(types, ple), |types|)
  {
    hide Body, Streams.Layers;
    forall e | e in [Streams.Embed(), Streams.Initialize()] || e in [Streams.Reduce(|types|), Streams.Head()]
      ensures e.layer.None?
    {}
  }

  lemma PleIsThere(full: bool, l: nat)
    ensures Streams.PleEmbedding(l) in Streams.LayerOperations(true, full, l) && Embeds(l, Streams.PleEmbedding(l))
  {
    hide Streams.AttentionHalf, Streams.MlpHalf;
    assert Streams.PleHalf(true, l)[0] == Streams.PleEmbedding(l);
    assert Streams.PleEmbedding(l).inputs[1] in Streams.PleEmbedding(l).inputs;
  }
}
