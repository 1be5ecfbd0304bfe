/** How a program that is built layer by layer passes the check, one operation and one layer at a time. */
module ProgramFlow {
  import opened Options
  import opened ProgramCheck

  // One operation

  predicate Has(m: Values, p: Port) { p.value in m && m[p.value] == p.abi }

  predicate ReadsOk(m: Values, ports: seq<Port>) { forall p :: p in ports ==> Has(m, p) }

  lemma {:induction false} ReadsRun(m: Values, ports: seq<Port>)
    requires forall p :: p in ports ==> Has(m, p)
    ensures Run(m, Reads(ports)) == Some(m)
  {
    if ports != [] {
      assert Reads(ports)[1..] == Reads(ports[1..]);
      assert ports[0] in ports;
      ReadsRun(m, ports[1..]);
    }
  }

  lemma AddFirst(m: Values, ports: seq<Port>) returns (next: Values)
    requires ports != [] && ports[0].value !in m
    ensures next == m[ports[0].value := ports[0].abi]
    ensures Run(m, Writes(ports)) == Run(next, Writes(ports[1..]))
  {
    next := m[ports[0].value := ports[0].abi];
    assert Writes(ports)[1..] == Writes(ports[1..]);
  }

  lemma NothingWritten(m: Values)
    ensures Run(m, Writes([])) == Some(m)
  {}

  /** One more operation at the end. */
  lemma ThenEvents(m: Values, done: seq<Operation>, mid: Values, op: Operation)
    requires Run(m, Events(done)) == Some(mid) && Run(mid, Reads(op.inputs)) == Some(mid)
    ensures Run(m, Events(done + [op])) == Run(mid, Writes(op.outputs))
  {
    hide Run, Reads, Writes;
    assert (done + [op])[..|done|] == done;
    RunJoins(m, Events(done), OperationEvents(op));
    RunJoins(mid, Reads(op.inputs), Writes(op.outputs));
  }

  // One more operation, with any number of new outputs

  /** Values that are not there yet, each named once. */
  predicate Fresh(m: Values, ports: seq<Port>) {
    (forall i :: 0 <= i < |ports| ==> ports[i].value !in m) &&
    forall i, j :: 0 <= i < j < |ports| ==> ports[i].value != ports[j].value
  }

  function Names(ports: seq<Port>): set<Value> { set p | p in ports :: p.value }

  /** Nothing but the ports was added. */
  predicate Added(m: Values, ports: seq<Port>, after: Values) {
    after.Keys == m.Keys + Names(ports) && (forall v :: v in m ==> v in after && after[v] == m[v]) &&
    forall i :: 0 <= i < |ports| ==> ports[i].value in after && after[ports[i].value] == ports[i].abi
  }

  lemma {:induction false} WritesRun(m: Values, ports: seq<Port>) returns (after: Values)
    requires Fresh(m, ports)
    ensures Run(m, Writes(ports)) == Some(after) && Added(m, ports, after)
    decreases |ports|
  {
    hide Run, Writes;
    if ports == [] {
      NothingWritten(m);
      after := m;
    } else {
      var next := AddFirst(m, ports);
      after := WritesRun(next, ports[1..]);
      assert ports == [ports[0]] + ports[1..];
      assert forall i :: 0 < i < |ports| ==> ports[i] == ports[1..][i - 1];
    }
  }

  /** The operations so far and one more, whose inputs are there and whose outputs are new. */
  lemma Then(m: Values, done: seq<Operation>, mid: Values, op: Operation) returns (after: Values)
    requires Run(m, Events(done)) == Some(mid) && ReadsOk(mid, op.inputs) && Fresh(mid, op.outputs)
    ensures Run(m, Events(done + [op])) == Some(after) && Added(mid, op.outputs, after)
    ensures |op.outputs| == 1 ==> after == mid[op.outputs[0].value := op.outputs[0].abi]
  {
    hide Run, Events, Reads, Writes;
    ReadsRun(mid, op.inputs);
    after := WritesRun(mid, op.outputs);
    ThenEvents(m, done, mid, op);
    if |op.outputs| == 1 {
      assert op.outputs == [op.outputs[0]] && op.outputs[0].value in Names(op.outputs);
    }
  }

  /** Adds nothing to `Then`: the same for a single output, for callers that need not see what `Added` says. */
  lemma ThenOne(m: Values, done: seq<Operation>, mid: Values, op: Operation) returns (after: Values)
    requires Run(m, Events(done)) == Some(mid) && ReadsOk(mid, op.inputs) && |op.outputs| == 1 && op.outputs[0].value !in mid
    ensures Run(m, Events(done + [op])) == Some(after) && after == mid[op.outputs[0].value := op.outputs[0].abi]
  {
    hide Run, Events, ReadsOk, Added;
    after := Then(m, done, mid, op);
  }

  lemma {:induction false} EventsJoin(a: seq<Operation>, b: seq<Operation>)
    ensures Events(a + b) == Events(a) + Events(b)
  {
    hide Events, OperationEvents;
    if b == [] {
      NoEvents(b);
      assert a + b == a && b[..0] == b;
    } else {
      var ab, n := a + b, |b| - 1;
      assert ab[..|a| + n] == a + b[..n] && ab[..|a| + n + 1] == ab && b[..n + 1] == b;
      EventsPrefix(ab, |a| + n);
      EventsPrefix(b, n);
      EventsJoin(a, b[..n]);
    }
  }

  lemma ThenOperations(m: Values, a: seq<Operation>, mid: Values, b: seq<Operation>)
    requires Run(m, Events(a)) == Some(mid)
    ensures Run(m, Events(a + b)) == Run(mid, Events(b))
  {
    hide Run, Events;
    EventsJoin(a, b);
    RunJoins(m, Events(a), Events(b));
  }

  /** A program runs if its operations run on its inputs and leave its outputs. */
  lemma ProgramRuns(p: Program, start: Values, after: Values)
    requires Run(map[], Writes(p.inputs)) == Some(start) && Run(start, Events(p.operations)) == Some(after)
    requires ReadsOk(after, p.outputs)
    ensures Run(map[], Trace(p)).Some?
  {
    hide Run, Events, Reads, Writes;
    RunJoins(map[], Writes(p.inputs), Events(p.operations));
    RunJoins(map[], Writes(p.inputs) + Events(p.operations), Reads(p.outputs));
    ReadsRun(after, p.outputs);
  }

  // Layers in a row

  function Body(f: nat -> seq<Operation>, n: nat): seq<Operation> {
    if n == 0 then [] else Body(f, n - 1) + f(n - 1)
  }

  predicate AllOk(p: Program, ops: seq<Operation>) { forall op :: op in ops ==> OperationOk(p, op) }

  predicate AllOf(ops: seq<Operation>, layer: nat) { forall op :: op in ops ==> op.layer == Some(layer) }

  predicate NoLayer(ops: seq<Operation>) { forall op :: op in ops ==> op.layer.None? }

  predicate LayersBelow(ops: seq<Operation>, n: nat) {
    forall op :: op in ops ==> op.layer.Some? && op.layer.value < n
  }

  lemma {:induction false} BodyOk(p: Program, f: nat -> seq<Operation>, n: nat)
    requires forall l: nat :: l < n ==> AllOk(p, f(l))
    ensures AllOk(p, Body(f, n))
  {
    if n > 0 {
      BodyOk(p, f, n - 1);
      assert AllOk(p, f(n - 1));
    }
  }

  lemma {:induction false} BodyAscends(f: nat -> seq<Operation>, n: nat)
    requires forall l: nat :: l < n ==> AllOf(f(l), l)
    ensures LayersAscend(Body(f, n)) && LayersBelow(Body(f, n), n)
  {
    if n > 0 {
      BodyAscends(f, n - 1);
      var a, b := Body(f, n - 1), f(n - 1);
      assert AllOf(b, n - 1);
      forall i, j | 0 <= i < j < |a + b|
        ensures (a + b)[i].layer.value <= (a + b)[j].layer.value
        ensures (a + b)[i].layer.Some? && (a + b)[j].layer.Some?
      {
        assert i < |a| ==> (a + b)[i] == a[i] && a[i] in a;
        assert i >= |a| ==> (a + b)[i] == b[i - |a|] && b[i - |a|] in b;
        assert j < |a| ==> (a + b)[j] == a[j] && a[j] in a;
        assert j >= |a| ==> (a + b)[j] == b[j - |a|] && b[j - |a|] in b;
      }
    }
  }

  lemma AscendsAround(before: seq<Operation>, body: seq<Operation>, after: seq<Operation>)
    requires NoLayer(before) && NoLayer(after) && LayersAscend(body)
    ensures LayersAscend(before + body + after)
  {
    var ops := before + body + after;
    forall i, j | 0 <= i < j < |ops| && ops[i].layer.Some? && ops[j].layer.Some?
      ensures ops[i].layer.value <= ops[j].layer.value
    {
      Inside(before, body, after, i);
      Inside(before, body, after, j);
    }
  }

  lemma Inside(before: seq<Operation>, body: seq<Operation>, after: seq<Operation>, i: nat)
    requires NoLayer(before) && NoLayer(after) && i < |before + body + after| && (before + body + after)[i].layer.Some?
    ensures |before| <= i < |before| + |body| && (before + body + after)[i] == body[i - |before|]
  {
    Placed(before, body, after, i);
  }

  lemma Placed(a: seq<Operation>, b: seq<Operation>, c: seq<Operation>, i: nat)
    requires i < |a + b + c|
    ensures
      var op := (a + b + c)[i];
      if i < |a| then op in a else if i < |a| + |b| then op == b[i - |a|] else op in c
  {
    var ops := a + b + c;
    if i < |a| {
      assert ops[i] == a[i];
    } else if i >= |a| + |b| {
      assert ops[i] == c[i - |a| - |b|];
    }
  }

  /** A layer's operations are among those of the program. */
  lemma {:induction false} LayerInBody(f: nat -> seq<Operation>, n: nat, l: nat)
    requires l < n
    ensures forall op :: op in f(l) ==> op in Body(f, n)
  {
    if l + 1 < n {
      LayerInBody(f, n - 1, l);
    }
  }

  lemma ServesMore(few: seq<Operation>, many: seq<Operation>, layer: nat, kernel: Kernel, c: Option<string>, k: nat)
    requires Serves(few, layer, kernel, c, k) && forall op :: op in few ==> op in many
    ensures Serves(many, layer, kernel, c, k)
  {}

  /** The conditions other than data flow, layer by layer. */
  ghost predicate LayeredOk(p: Program, before: seq<Operation>, f: nat -> seq<Operation>, after: seq<Operation>) {
    p.operations == before + Body(f, |p.layers|) + after && Declared(p) &&
    AllOk(p, before) && AllOk(p, after) && NoLayer(before) && NoLayer(after) &&
    (forall l: nat :: l < |p.layers| ==> AllOk(p, f(l)) && AllOf(f(l), l)) &&
    forall l: nat :: l < |p.layers| ==> LayerOk(p, p.layers[l]) && ServedBy(p, l, f(l))
  }

  predicate ServedBy(p: Program, n: nat, ops: seq<Operation>)
    requires n < |p.layers| && LayerOk(p, p.layers[n])
  {
    var l := p.layers[n];
    Serves(ops, n, l.block, None, 0) &&
    (l.component.Some? ==>
       Serves(ops, n, p.components[l.component.value].router, l.component, l.componentLayer) &&
       Serves(ops, n, p.components[l.component.value].execution, l.component, l.componentLayer))
  }

  lemma LayeredIsAccepted(p: Program, before: seq<Operation>, f: nat -> seq<Operation>, after: seq<Operation>)
    requires LayeredOk(p, before, f, after) && Run(map[], Trace(p)).Some?
    ensures Accepted(p)
  {
    hide Run, Trace, OperationOk, Serves, Declared, LayerOk;
    var n := |p.layers|;
    var body := Body(f, n);
    BodyOk(p, f, n);
    BodyAscends(f, n);
    AscendsAround(before, body, after);
    forall op | op in p.operations
      ensures OperationOk(p, op)
    {
      assert op in before || op in body || op in after;
    }
    forall l | 0 <= l < n
      ensures LayerServed(p, l)
    {
      LayerInBody(f, n, l);
      LayerServedBy(p, l, f(l));
    }
  }

  lemma LayerServedBy(p: Program, n: nat, ops: seq<Operation>)
    requires n < |p.layers| && LayerOk(p, p.layers[n]) && ServedBy(p, n, ops)
    requires forall op :: op in ops ==> op in p.operations
    ensures LayerServed(p, n)
  {
    hide Serves, LayerOk;
    var l := p.layers[n];
    ServesMore(ops, p.operations, n, l.block, None, 0);
    if l.component.Some? {
      assert LayerOk(p, l);
      MappedComponent(p, l);
      var c := p.components[l.component.value];
      ServesMore(ops, p.operations, n, c.router, l.component, l.componentLayer);
      ServesMore(ops, p.operations, n, c.execution, l.component, l.componentLayer);
    }
  }

  lemma MappedComponent(p: Program, l: Layer)
    requires LayerOk(p, l) && l.component.Some?
    ensures l.component.value in p.components
  {}
}
