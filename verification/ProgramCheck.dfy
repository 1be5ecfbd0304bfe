/**
 The runtime program of a container and the check its descriptor goes through: kernels, layers, components
 and, above all, data flow between the values that operations read and write.
 */
module ProgramCheck {
  import opened Options

  /** Encodings of values. */
  datatype Abi = TokenBatch | PositionBatch | HiddenBatch | MultimodalBatch | RouteIndexBatch | RouteWeightBatch
               | HyperBatch | InjectionBatch

  /** Values that belong to one layer. */
  datatype Organ =
    | AfterBlock | AfterAttention | AfterPle | ExpertInput | RouteIndices | RouteWeights | Residual | SharedOutput
    | AttentionReadHidden | AttentionReadRetained | AttentionReadInjection | AttentionOutput
    | MlpReadHidden | MlpReadRetained | MlpReadInjection | MlpOutput

  /** The values of a program, by name. */
  datatype Value =
    | RequestTokens | RequestPositions | RequestMultimodal | ResponseTokens
    | EmbeddingHidden | FinalHidden | HiddenText | Hidden(boundary: nat) | Hyper(boundary: nat)
    | Local(layer: nat, organ: Organ)

  datatype Role = TokenIds | NextTokenIds | Positions | Media | HiddenRole | HyperRole | Retained | Injection
                | ExpertInputRole | RouteIndicesRole | RouteWeightsRole | ResidualRole | SharedOutputRole

  datatype Port = Port(role: Role, value: Value, abi: Abi)

  datatype Kernel = Kernel(capability: string, abi: nat)

  datatype Component = Component(layerCount: nat, router: Kernel, execution: Kernel)

  datatype Layer = Layer(block: Kernel, component: Option<string>, componentLayer: nat)

  datatype Operation = Operation(layer: Option<nat>, kernel: Kernel, component: Option<string>, componentLayer: nat,
                                 inputs: seq<Port>, outputs: seq<Port>)

  datatype Program = Program(required: set<Kernel>, components: map<string, Component>, layers: seq<Layer>,
                             operations: seq<Operation>, inputs: seq<Port>, outputs: seq<Port>)

  // Data flow

  datatype Event = Read(value: Value, abi: Abi) | Write(value: Value, abi: Abi)

  type Values = map<Value, Abi>

  function Step(m: Values, e: Event): Option<Values> {
    match e
    case Read(v, a) => if v in m && m[v] == a then Some(m) else None
    case Write(v, a) => if v in m then None else Some(m[v := a])
  }

  /** The values available after some events, unless one reads what is not there or writes what is. */
  function Run(m: Values, events: seq<Event>): Option<Values>
    decreases |events|
  {
    if events == [] then Some(m)
    else
      var next := Step(m, events[0]);
      if next.None? then None else Run(next.value, events[1..])
  }

  function Reads(ports: seq<Port>): (e: seq<Event>)
    ensures |e| == |ports| && forall i :: 0 <= i < |e| ==> e[i] == Read(ports[i].value, ports[i].abi)
  {
    if ports == [] then [] else [Read(ports[0].value, ports[0].abi)] + Reads(ports[1..])
  }

  function Writes(ports: seq<Port>): (e: seq<Event>)
    ensures |e| == |ports| && forall i :: 0 <= i < |e| ==> e[i] == Write(ports[i].value, ports[i].abi)
  {
    if ports == [] then [] else [Write(ports[0].value, ports[0].abi)] + Writes(ports[1..])
  }

  function OperationEvents(op: Operation): seq<Event> { Reads(op.inputs) + Writes(op.outputs) }

  function Events(ops: seq<Operation>): seq<Event> {
    if ops == [] then [] else Events(ops[..|ops| - 1]) + OperationEvents(ops[|ops| - 1])
  }

  /** What a run of the program does, from its inputs to its outputs. */
  function Trace(p: Program): seq<Event> { Writes(p.inputs) + Events(p.operations) + Reads(p.outputs) }

  // What the check is for

  /** Every value read was written before, with the encoding it is read in. */
  predicate ReadsAreWritten(events: seq<Event>) {
    forall k :: 0 <= k < |events| && events[k].Read? ==> Write(events[k].value, events[k].abi) in events[..k]
  }

  /** No value is written twice. */
  predicate WrittenOnce(events: seq<Event>) {
    forall j, k :: 0 <= j < k < |events| && events[j].Write? && events[k].Write? ==> events[j].value != events[k].value
  }

  lemma {:induction false} RunJoins(m: Values, a: seq<Event>, b: seq<Event>)
    ensures Run(m, a + b) == if Run(m, a).None? then None else Run(Run(m, a).value, b)
    decreases |a|
  {
    if a == [] {
      assert a + b == b;
    } else {
      assert (a + b)[0] == a[0] && (a + b)[1..] == a[1..] + b;
      if Step(m, a[0]).Some? {
        RunJoins(Step(m, a[0]).value, a[1..], b);
      }
    }
  }

  /** The available values are exactly the writes so far. */
  ghost predicate Holds(m: Values, events: seq<Event>) {
    forall v, a :: v in m && m[v] == a <==> Write(v, a) in events
  }

  lemma RunLast(m: Values, events: seq<Event>, e: Event)
    ensures Run(m, events + [e]) == if Run(m, events).None? then None else Step(Run(m, events).value, e)
  {
    RunJoins(m, events, [e]);
    var after := Run(m, events);
    if after.Some? {
      assert [e][1..] == [];
    }
  }

  /** The data-flow check accepts exactly the traces that read only what was written and write nothing twice. */
  lemma {:induction false} FlowIsSound(events: seq<Event>)
    ensures Run(map[], events).Some? <==> ReadsAreWritten(events) && WrittenOnce(events)
    ensures Run(map[], events).Some? ==> Holds(Run(map[], events).value, events)
  {
    if events != [] {
      var n := |events| - 1;
      var before, last := events[..n], events[n];
      assert events == before + [last];
      FlowIsSound(before);
      RunLast(map[], before, last);
      SoundLast(before, last);
      if Run(map[], before).Some? {
        HoldsLast(Run(map[], before).value, before, last);
      }
    }
  }

  lemma HoldsLast(m: Values, before: seq<Event>, last: Event)
    requires Holds(m, before)
    ensures Step(m, last).Some? ==> Holds(Step(m, last).value, before + [last])
    ensures Step(m, last).Some? <==>
      if last.Read? then Write(last.value, last.abi) in before
      else forall j :: 0 <= j < |before| && before[j].Write? ==> before[j].value != last.value
  {
    if last.Write? {
      if last.value in m {
        var w := Write(last.value, m[last.value]);
        assert w in before;
        var j :| 0 <= j < |before| && before[j] == w;
      } else {
        forall j | 0 <= j < |before| && before[j].Write?
          ensures before[j].value != last.value
        {
          assert Write(before[j].value, before[j].abi) in before;
        }
      }
    }
  }

  lemma SoundLast(before: seq<Event>, last: Event)
    ensures
      var events := before + [last];
      ReadsAreWritten(events) && WrittenOnce(events) <==>
      ReadsAreWritten(before) && WrittenOnce(before) &&
      if last.Read? then Write(last.value, last.abi) in before
      else forall j :: 0 <= j < |before| && before[j].Write? ==> before[j].value != last.value
  {
    var events, n := before + [last], |before|;
    assert events[..n] == before && events[n] == last;
    forall k | 0 <= k < n
      ensures events[..k] == before[..k] && events[k] == before[k]
    {}
    ReadsLast(before, last);
    WritesLast(before, last);
  }

  lemma ReadsLast(before: seq<Event>, last: Event)
    ensures ReadsAreWritten(before + [last]) <==>
      ReadsAreWritten(before) && (last.Read? ==> Write(last.value, last.abi) in before)
  {
    var events, n := before + [last], |before|;
    assert events[..n] == before && events[n] == last;
    forall k | 0 <= k < n
      ensures events[..k] == before[..k] && events[k] == before[k]
    {}
    if ReadsAreWritten(events) {
      forall k | 0 <= k < n && before[k].Read?
        ensures Write(before[k].value, before[k].abi) in before[..k]
      {
        assert events[k].Read?;
      }
    }
  }

  lemma WritesLast(before: seq<Event>, last: Event)
    ensures WrittenOnce(before + [last]) <==>
      WrittenOnce(before) &&
      (last.Write? ==> forall j :: 0 <= j < |before| && before[j].Write? ==> before[j].value != last.value)
  {
    var events, n := before + [last], |before|;
    assert events[n] == last;
    if WrittenOnce(events) {
      forall j, k | 0 <= j < k < n && before[j].Write? && before[k].Write?
        ensures before[j].value != before[k].value
      {
        assert events[j] == before[j] && events[k] == before[k];
      }
      forall j | last.Write? && 0 <= j < n && before[j].Write?
        ensures before[j].value != last.value
      {
        assert events[j] == before[j];
      }
    }
  }

  // The other conditions

  predicate DistinctRoles(ports: seq<Port>) {
    forall i, j :: 0 <= i < j < |ports| ==> ports[i].role != ports[j].role
  }

  predicate ComponentOk(p: Program, c: string)
    requires c in p.components
  {
    p.components[c].router in p.required && p.components[c].execution in p.required
  }

  /** A component-local index goes with a component and only with one. */
  predicate MappingOk(p: Program, component: Option<string>, componentLayer: nat) {
    if component.Some? then component.value in p.components && componentLayer < p.components[component.value].layerCount
    else componentLayer == 0
  }

  predicate LayerOk(p: Program, l: Layer) { l.block in p.required && MappingOk(p, l.component, l.componentLayer) }

  predicate OperationOk(p: Program, op: Operation) {
    op.kernel in p.required && (op.layer.Some? ==> op.layer.value < |p.layers|) &&
    (op.component.Some? ==> op.layer.Some?) && MappingOk(p, op.component, op.componentLayer) &&
    (op.inputs != [] || op.outputs != []) && DistinctRoles(op.inputs) && DistinctRoles(op.outputs)
  }

  /** Operations that belong to layers come in the order of the layers. */
  predicate LayersAscend(ops: seq<Operation>) {
    forall i, j :: 0 <= i < j < |ops| && ops[i].layer.Some? && ops[j].layer.Some? ==> ops[i].layer.value <= ops[j].layer.value
  }

  /** Some operation of a layer runs a kernel for a component. */
  predicate Serves(ops: seq<Operation>, layer: nat, kernel: Kernel, component: Option<string>, componentLayer: nat) {
    exists op :: op in ops && op.layer == Some(layer) && op.kernel == kernel &&
      (component.Some? ==> op.component == component && op.componentLayer == componentLayer)
  }

  predicate LayerServed(p: Program, n: nat)
    requires n < |p.layers| && LayerOk(p, p.layers[n])
  {
    var l := p.layers[n];
    Serves(p.operations, n, l.block, None, 0) &&
    (l.component.Some? ==>
       Serves(p.operations, n, p.components[l.component.value].router, l.component, l.componentLayer) &&
       Serves(p.operations, n, p.components[l.component.value].execution, l.component, l.componentLayer))
  }

  predicate EndpointsOk(p: Program) {
    p.inputs != [] && p.outputs != [] && DistinctRoles(p.inputs) && DistinctRoles(p.outputs)
  }

  predicate Declared(p: Program) {
    EndpointsOk(p) && (forall c :: c in p.components ==> ComponentOk(p, c)) &&
    (forall l :: l in p.layers ==> LayerOk(p, l)) && p.operations != []
  }

  /** What the descriptor check accepts. */
  predicate Accepted(p: Program) {
    Declared(p) && (forall op :: op in p.operations ==> OperationOk(p, op)) && LayersAscend(p.operations) &&
    Run(map[], Trace(p)).Some? && (forall n :: 0 <= n < |p.layers| ==> LayerServed(p, n))
  }

  /** An accepted program reads only what is written before, as it was written, and writes no value twice. */
  lemma AcceptedIsSound(p: Program)
    requires Accepted(p)
    ensures ReadsAreWritten(Trace(p)) && WrittenOnce(Trace(p))
  {
    FlowIsSound(Trace(p));
  }

  // The check itself

  method CheckReads(m: Values, ports: seq<Port>) returns (ok: bool)
    ensures Run(m, Reads(ports)) == if ok then Some(m) else None
  {
    var rest := ports;
    while rest != []
      invariant Run(m, Reads(ports)) == Run(m, Reads(rest))
      decreases |rest|
    {
      assert Reads(rest)[1..] == Reads(rest[1..]);
      if !(rest[0].value in m && m[rest[0].value] == rest[0].abi) { return false; }
      rest := rest[1..];
    }
    ok := true;
  }

  method AddWrites(m: Values, ports: seq<Port>) returns (r: Option<Values>)
    ensures r == Run(m, Writes(ports))
  {
    var available, rest := m, ports;
    while rest != []
      invariant Run(m, Writes(ports)) == Run(available, Writes(rest))
      decreases |rest|
    {
      assert Writes(rest)[1..] == Writes(rest[1..]);
      if rest[0].value in available { return None; }
      available := available[rest[0].value := rest[0].abi];
      rest := rest[1..];
    }
    r := Some(available);
  }

  lemma EventsPrefix(ops: seq<Operation>, i: nat)
    requires i < |ops|
    ensures Events(ops[..i + 1]) == Events(ops[..i]) + OperationEvents(ops[i])
  {
    assert ops[..i + 1][..i] == ops[..i];
  }

  lemma {:induction false} EventsSplit(ops: seq<Operation>, i: nat) returns (rest: seq<Event>)
    requires i <= |ops|
    ensures Events(ops) == Events(ops[..i]) + rest
  {
    if i == |ops| {
      rest := [];
      assert ops[..i] == ops;
    } else {
      var n := |ops| - 1;
      var less := EventsSplit(ops[..n], i);
      assert ops[..n][..i] == ops[..i] && ops[..n + 1] == ops;
      EventsPrefix(ops, n);
      hide Events;
      rest := less + OperationEvents(ops[n]);
    }
  }

  /** A fault in the flow of a prefix is a fault of the program. */
  lemma PrefixFault(p: Program, i: nat)
    requires i <= |p.operations| && Run(map[], Writes(p.inputs) + Events(p.operations[..i])).None?
    ensures Run(map[], Trace(p)).None?
  {
    hide Run, Events, Writes, Reads;
    var rest := EventsSplit(p.operations, i);
    var prefix := Writes(p.inputs) + Events(p.operations[..i]);
    assert Trace(p) == prefix + (rest + Reads(p.outputs));
    RunJoins(map[], prefix, rest + Reads(p.outputs));
  }

  predicate NotBefore(op: Operation, layer: int) { op.layer.Some? ==> op.layer.value >= layer }

  /** The checks on one operation, in its place. */
  method CheckOperation(p: Program, i: nat, previous: int, available: Values) returns (next: Option<Values>)
    requires i < |p.operations|
    requires Run(map[], Writes(p.inputs) + Events(p.operations[..i])) == Some(available)
    ensures next.Some? <==> (OperationOk(p, p.operations[i]) && NotBefore(p.operations[i], previous) &&
                             Run(map[], Writes(p.inputs) + Events(p.operations[..i + 1])).Some?)
    ensures next.Some? ==> Run(map[], Writes(p.inputs) + Events(p.operations[..i + 1])) == next
  {
    var op := p.operations[i];
    var prefix := Writes(p.inputs) + Events(p.operations[..i]);
    EventsPrefix(p.operations, i);
    assert Writes(p.inputs) + Events(p.operations[..i + 1]) == prefix + OperationEvents(op);
    RunJoins(map[], prefix, OperationEvents(op));
    RunJoins(available, Reads(op.inputs), Writes(op.outputs));
    hide Run, Reads, Writes, Events;
    if op.layer.Some? && (op.layer.value < previous || op.layer.value >= |p.layers|) { return None; }
    if !OperationOk(p, op) { return None; }
    var ok := CheckReads(available, op.inputs);
    if !ok { return None; }
    next := AddWrites(available, op.outputs);
  }

  /** Decides acceptance in one pass over the operations. */
  method CheckProgram(p: Program) returns (ok: bool)
    ensures ok <==> Accepted(p)
  {
    hide Run, Reads, Writes, Events, OperationOk, LayerServed, Serves;
    if !Declared(p) { return false; }
    var start := AddWrites(map[], p.inputs);
    assert Trace(p) == Writes(p.inputs) + (Events(p.operations) + Reads(p.outputs));
    RunJoins(map[], Writes(p.inputs), Events(p.operations) + Reads(p.outputs));
    if start.None? { return false; }
    var available, previous: int := start.value, -1;
    assert Writes(p.inputs) + Events(p.operations[..0]) == Writes(p.inputs) by { NoEvents(p.operations); }
    for i := 0 to |p.operations|
      invariant Run(map[], Writes(p.inputs) + Events(p.operations[..i])) == Some(available)
      invariant forall j :: 0 <= j < i ==> OperationOk(p, p.operations[j])
      invariant forall j :: 0 <= j < i && p.operations[j].layer.Some? ==> p.operations[j].layer.value <= previous
      invariant previous == -1 || exists j :: 0 <= j < i && p.operations[j].layer.Some? && p.operations[j].layer.value == previous
      invariant LayersAscend(p.operations[..i])
    {
      var next := CheckOperation(p, i, previous, available);
      if next.None? {
        if Run(map[], Writes(p.inputs) + Events(p.operations[..i + 1])).None? {
          PrefixFault(p, i + 1);
        }
        return false;
      }
      available := next.value;
      if p.operations[i].layer.Some? {
        previous := p.operations[i].layer.value;
      }
    }
    assert p.operations[..|p.operations|] == p.operations;
    RunJoins(map[], Writes(p.inputs) + Events(p.operations), Reads(p.outputs));
    ok := CheckReads(available, p.outputs);
    if !ok { return; }
    ok := forall n :: 0 <= n < |p.layers| ==> LayerServed(p, n);
  }

  lemma NoEvents(ops: seq<Operation>)
    ensures Events(ops[..0]) == []
  {
    assert ops[..0] == [];
  }
}
