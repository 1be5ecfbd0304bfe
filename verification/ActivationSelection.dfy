/**
 Calibrated FP4 selection for one output row.  A calibration matrix turns the difference between decoded
 and source weights into an output residual; both selections only ever lower its squared length.
 */
module ActivationSelection {
  import opened BlockFormats
  import opened LinearRows
  import opened Ranking

  /** Squared length of the calibration product of (decoded - source). */
  function OutputError(a: seq<Row>, decoded: Row, source: Row): real
    requires |decoded| == |source| && Matrix(a, |source|)
  {
    Norm2(Product(a, Minus(decoded, source)))
  }

  // Scales: covering codes are taken back block by block

  /** The row in which the selected blocks use the covering scale and the others the baseline. */
  function Mixed(covering: Row, baseline: Row, selected: seq<bool>): (r: Row)
    requires |covering| == |baseline| == BLOCK * |selected|
    ensures |r| == |covering|
    ensures forall j :: 0 <= j < |r| ==> r[j] == if selected[j / BLOCK] then covering[j] else baseline[j]
  {
    seq(|covering|, j requires 0 <= j < |covering| => if selected[j / BLOCK] then covering[j] else baseline[j])
  }

  /** What flipping one block adds to the decoded row. */
  function BlockDelta(covering: Row, baseline: Row, blocks: nat, b: nat): (r: Row)
    requires |covering| == |baseline| == BLOCK * blocks && b < blocks
    ensures |r| == |covering|
    ensures forall j :: 0 <= j < |r| ==> r[j] == if j / BLOCK == b then covering[j] - baseline[j] else 0.0
  {
    seq(|covering|, j requires 0 <= j < |covering| => if j / BLOCK == b then covering[j] - baseline[j] else 0.0)
  }

  /** Flipping a block moves the residual by the output delta of that block. */
  lemma FlipMovesResidual(a: seq<Row>, covering: Row, baseline: Row, source: Row, selected: seq<bool>, b: nat)
    requires |covering| == |baseline| == |source| == BLOCK * |selected| && Matrix(a, |source|)
    requires b < |selected| && !selected[b]
    ensures
      Product(a, Minus(Mixed(covering, baseline, selected[b := true]), source)) ==
      Plus(Product(a, Minus(Mixed(covering, baseline, selected), source)),
           Product(a, BlockDelta(covering, baseline, |selected|, b)))
  {
    hide Product, Dot;
    var before := Minus(Mixed(covering, baseline, selected), source);
    var delta := BlockDelta(covering, baseline, |selected|, b);
    assert Minus(Mixed(covering, baseline, selected[b := true]), source) == Plus(before, delta);
    ProductSum(a, before, delta);
  }

  /** Which blocks were flipped, each once, and the errors before and after each flip: every flip lowers it. */
  ghost predicate Trail(selected: seq<bool>, flips: seq<nat>, errors: seq<real>) {
    |errors| == |flips| + 1 && (forall i, j :: 0 <= i < j < |flips| ==> flips[i] != flips[j]) &&
    (forall b :: 0 <= b < |selected| ==> (selected[b] <==> b in flips)) &&
    (forall i :: 0 <= i < |flips| ==> flips[i] < |selected| && errors[i + 1] < errors[i]) &&
    errors[|flips|] <= errors[0]
  }

  lemma TrailGrows(selected: seq<bool>, flips: seq<nat>, errors: seq<real>, b: nat, error: real)
    requires Trail(selected, flips, errors) && b < |selected| && !selected[b] && error < errors[|flips|]
    ensures Trail(selected[b := true], flips + [b], errors + [error])
  {
    var more := flips + [b];
    forall c | 0 <= c < |selected|
      ensures selected[b := true][c] <==> c in more
    {
      assert more[|flips|] == b;
      assert c in more <==> c in flips || c == b;
    }
  }

  /** The error with these blocks flipped. */
  function ErrorWith(a: seq<Row>, covering: Row, baseline: Row, source: Row, selected: seq<bool>): real
    requires |covering| == |baseline| == |source| == BLOCK * |selected| && Matrix(a, |source|)
  {
    OutputError(a, Mixed(covering, baseline, selected), source)
  }

  function NoneSelected(blocks: nat): (s: seq<bool>)
    ensures |s| == blocks && forall b :: 0 <= b < blocks ==> !s[b]
  {
    seq(blocks, _ => false)
  }

  /** What flipping each block alone takes off the error of the baseline. */
  function IsolatedGains(a: seq<Row>, covering: Row, baseline: Row, source: Row, blocks: nat): (g: seq<Rank>)
    requires |covering| == |baseline| == |source| == BLOCK * blocks && Matrix(a, |source|)
    ensures |g| == blocks
    ensures forall b :: 0 <= b < blocks ==>
      g[b] == Rank(true, ErrorWith(a, covering, baseline, source, NoneSelected(blocks)) -
                         ErrorWith(a, covering, baseline, source, NoneSelected(blocks)[b := true]))
  {
    hide Mixed;
    seq(blocks, b requires 0 <= b < blocks =>
      Rank(true, ErrorWith(a, covering, baseline, source, NoneSelected(blocks)) -
                 ErrorWith(a, covering, baseline, source, NoneSelected(blocks)[b := true])))
  }

  /** Those of the selected blocks that are among the first `k` of an order. */
  function Among(selected: seq<bool>, order: seq<nat>, k: nat): (s: seq<bool>)
    requires k <= |order|
    ensures |s| == |selected| && forall b :: 0 <= b < |s| ==> s[b] == (selected[b] && b in order[..k])
  {
    seq(|selected|, b requires 0 <= b < |selected| => selected[b] && b in order[..k])
  }

  /** A block is flipped exactly when it may be and that lowers the error left by the flips before it. */
  ghost predicate GreedyAt(a: seq<Row>, covering: Row, baseline: Row, source: Row, useCandidate: seq<bool>, order: seq<nat>,
                           selected: seq<bool>, k: nat)
    requires |covering| == |baseline| == |source| == BLOCK * |selected| && Matrix(a, |source|)
    requires |useCandidate| == |selected| && k < |order| && order[k] < |selected|
  {
    var before := Among(selected, order, k);
    selected[order[k]] <==>
    (useCandidate[order[k]] &&
     ErrorWith(a, covering, baseline, source, before[order[k] := true]) < ErrorWith(a, covering, baseline, source, before))
  }

  ghost predicate Greedy(a: seq<Row>, covering: Row, baseline: Row, source: Row, useCandidate: seq<bool>, order: seq<nat>,
                         selected: seq<bool>)
    requires |covering| == |baseline| == |source| == BLOCK * |selected| && Matrix(a, |source|)
    requires |useCandidate| == |selected| && IsOrder(order, |selected|)
  {
    forall k :: 0 <= k < |order| ==> GreedyAt(a, covering, baseline, source, useCandidate, order, selected, k)
  }

  /** Every block in turn, in the order of the isolated gains. */
  ghost predicate ScaleSelection(a: seq<Row>, covering: Row, baseline: Row, source: Row, useCandidate: seq<bool>,
                                 selected: seq<bool>)
    requires |covering| == |baseline| == |source| == BLOCK * |useCandidate| && Matrix(a, |source|)
  {
    |selected| == |useCandidate| &&
    exists order :: IsRanking(IsolatedGains(a, covering, baseline, source, |selected|), order) &&
                    Greedy(a, covering, baseline, source, useCandidate, order, selected)
  }

  /** What has been decided stays decided. */
  lemma GreedyGrows(a: seq<Row>, covering: Row, baseline: Row, source: Row, useCandidate: seq<bool>, order: seq<nat>,
                    before: seq<bool>, after: seq<bool>, n: nat)
    requires |covering| == |baseline| == |source| == BLOCK * |before| && Matrix(a, |source|)
    requires |useCandidate| == |before| && IsOrder(order, |before|) && n < |order|
    requires after == before || after == before[order[n] := true]
    requires forall k :: 0 <= k < n ==> GreedyAt(a, covering, baseline, source, useCandidate, order, before, k)
    ensures forall k :: 0 <= k < n ==> GreedyAt(a, covering, baseline, source, useCandidate, order, after, k)
  {
    forall k | 0 <= k < n
      ensures GreedyAt(a, covering, baseline, source, useCandidate, order, after, k)
    {
      assert GreedyAt(a, covering, baseline, source, useCandidate, order, before, k);
      assert Among(after, order, k) == Among(before, order, k);
    }
  }

  lemma AmongFirst(order: seq<nat>, selected: seq<bool>, n: nat)
    requires n <= |order| && forall b :: 0 <= b < |selected| && selected[b] ==> b in order[..n]
    ensures Among(selected, order, n) == selected
  {}

  /**
   The greedy loop over blocks in the order of their isolated gain.  The baseline uses the candidate scale
   in the blocks marked `useCandidate`; only these may return to the covering scale.
   */
  method SelectScales(a: seq<Row>, covering: Row, candidate: Row, source: Row, useCandidate: seq<bool>)
    returns (selected: seq<bool>, residual: Row, currentError: real, ghost flips: seq<nat>, ghost errors: seq<real>)
    requires |covering| == |candidate| == |source| == BLOCK * |useCandidate| && Matrix(a, |source|)
    ensures |selected| == |useCandidate| && forall b :: 0 <= b < |selected| && selected[b] ==> useCandidate[b]
    ensures
      var baseline := Mixed(candidate, covering, useCandidate);
      residual == Product(a, Minus(Mixed(covering, baseline, selected), source)) &&
      currentError == OutputError(a, Mixed(covering, baseline, selected), source) &&
      Trail(selected, flips, errors) && errors[0] == OutputError(a, baseline, source) && errors[|flips|] == currentError
    ensures ScaleSelection(a, covering, Mixed(candidate, covering, useCandidate), source, useCandidate, selected)
  {
    hide Product, Dot, Norm2, Descending, Greedy, GreedyAt, Trail, Mixed, IsolatedGains, Minus, BlockDelta, Plus, Matrix;
    hide ErrorWith, OutputError, IsResidual, IsRanking, ScaleSelection, Sorted;
    var blocks := |useCandidate|;
    var baseline := Mixed(candidate, covering, useCandidate);
    selected := NoneSelected(blocks);
    residual := Product(a, Minus(baseline, source));
    var outputDeltas := seq(blocks, b requires 0 <= b < blocks => Product(a, BlockDelta(covering, baseline, blocks, b)));
    currentError := Norm2(residual);
    var ranks := seq(blocks, b requires 0 <= b < blocks => Rank(true, currentError - Norm2(Plus(residual, outputDeltas[b]))));
    GainsAreIsolated(a, covering, baseline, source, residual, outputDeltas, ranks);
    var order := Sorted(ranks, blocks);
    SortedIsRanking(ranks);
    flips, errors := [], [currentError];
    NoneFlipped(a, covering, baseline, source, currentError);
    for rank := 0 to blocks
      invariant |selected| == blocks && |residual| == |a|
      invariant forall b :: 0 <= b < blocks && selected[b] ==> useCandidate[b] && b in order[..rank]
      invariant IsResidual(a, covering, baseline, source, selected, residual, currentError)
      invariant |errors| == |flips| + 1 && errors[0] == OutputError(a, baseline, source) && errors[|flips|] == currentError
      invariant Trail(selected, flips, errors)
      invariant forall k :: 0 <= k < rank ==> GreedyAt(a, covering, baseline, source, useCandidate, order, selected, k)
    {
      var b := order[rank];
      NotYet(order, blocks, rank);
      var nextResidual := Plus(residual, outputDeltas[b]);
      var nextError := Norm2(nextResidual);
      ghost var was := selected;
      ResidualMoves(a, covering, baseline, source, selected, residual, currentError, b);
      if useCandidate[b] && nextError < currentError {
        residual, currentError := nextResidual, nextError;
        TrailGrows(selected, flips, errors, b, nextError);
        selected, flips, errors := selected[b := true], flips + [b], errors + [nextError];
      }
      DecidedNow(a, covering, baseline, source, useCandidate, order, was, selected, rank);
      GreedyGrows(a, covering, baseline, source, useCandidate, order, was, selected, rank);
    }
    AllDecided(a, covering, baseline, source, useCandidate, order, selected);
    ResidualMeans(a, covering, baseline, source, selected, residual, currentError);
  }

  /** The output residual with these blocks flipped, and its squared length. */
  ghost predicate IsResidual(a: seq<Row>, covering: Row, baseline: Row, source: Row, selected: seq<bool>, residual: Row,
                             error: real)
    requires |covering| == |baseline| == |source| == BLOCK * |selected| && Matrix(a, |source|)
  {
    residual == Product(a, Minus(Mixed(covering, baseline, selected), source)) && error == Norm2(residual)
  }

  lemma ResidualMeans(a: seq<Row>, covering: Row, baseline: Row, source: Row, selected: seq<bool>, residual: Row, error: real)
    requires |covering| == |baseline| == |source| == BLOCK * |selected| && Matrix(a, |source|)
    requires IsResidual(a, covering, baseline, source, selected, residual, error)
    ensures residual == Product(a, Minus(Mixed(covering, baseline, selected), source))
    ensures error == OutputError(a, Mixed(covering, baseline, selected), source) ==
            ErrorWith(a, covering, baseline, source, selected)
  {}

  /** Where the loop starts. */
  lemma NoneFlipped(a: seq<Row>, covering: Row, baseline: Row, source: Row, error: real)
    requires |source| % BLOCK == 0
    requires |covering| == |baseline| == |source| && Matrix(a, |source|)
    requires error == Norm2(Product(a, Minus(baseline, source)))
    ensures
      var none := NoneSelected(|source| / BLOCK);
      IsResidual(a, covering, baseline, source, none, Product(a, Minus(baseline, source)), error) &&
      Trail(none, [], [error]) && error == OutputError(a, baseline, source)
  {
    hide Product, Norm2;
    assert Mixed(covering, baseline, NoneSelected(|source| / BLOCK)) == baseline;
  }

  /** The next step of the residual, in terms of errors. */
  lemma ResidualMoves(a: seq<Row>, covering: Row, baseline: Row, source: Row, selected: seq<bool>, residual: Row, error: real,
                      b: nat)
    requires |covering| == |baseline| == |source| == BLOCK * |selected| && Matrix(a, |source|)
    requires IsResidual(a, covering, baseline, source, selected, residual, error) && b < |selected| && !selected[b]
    ensures |residual| == |a| && error == ErrorWith(a, covering, baseline, source, selected)
    ensures
      var next := Plus(residual, Product(a, BlockDelta(covering, baseline, |selected|, b)));
      IsResidual(a, covering, baseline, source, selected[b := true], next, Norm2(next)) && |next| == |a| &&
      Norm2(next) == ErrorWith(a, covering, baseline, source, selected[b := true])
  {
    hide Product, Norm2, Mixed, BlockDelta;
    FlipMovesResidual(a, covering, baseline, source, selected, b);
  }

  lemma AllDecided(a: seq<Row>, covering: Row, baseline: Row, source: Row, useCandidate: seq<bool>, order: seq<nat>,
                   selected: seq<bool>)
    requires |covering| == |baseline| == |source| == BLOCK * |selected| && Matrix(a, |source|)
    requires |useCandidate| == |selected| == |order| && IsOrder(order, |selected|)
    requires IsRanking(IsolatedGains(a, covering, baseline, source, |selected|), order)
    requires forall k :: 0 <= k < |order| ==> GreedyAt(a, covering, baseline, source, useCandidate, order, selected, k)
    ensures ScaleSelection(a, covering, baseline, source, useCandidate, selected)
  {
    hide IsRanking, GreedyAt, IsolatedGains;
    assert Greedy(a, covering, baseline, source, useCandidate, order, selected);
  }

  /** The outcome is determined. */
  lemma OneScaleSelection(a: seq<Row>, covering: Row, baseline: Row, source: Row, useCandidate: seq<bool>, x: seq<bool>,
                          y: seq<bool>)
    requires |covering| == |baseline| == |source| == BLOCK * |useCandidate| && Matrix(a, |source|)
    requires ScaleSelection(a, covering, baseline, source, useCandidate, x)
    requires ScaleSelection(a, covering, baseline, source, useCandidate, y)
    ensures x == y
  {
    hide GreedyAt, IsolatedGains, Descending;
    var gains := IsolatedGains(a, covering, baseline, source, |x|);
    var order :| IsRanking(gains, order) && Greedy(a, covering, baseline, source, useCandidate, order, x);
    var other :| IsRanking(gains, other) && Greedy(a, covering, baseline, source, useCandidate, other, y);
    assert forall v :: v in order <==> v in other;
    RankingUnique(gains, order, other);
    SameSoFar(a, covering, baseline, source, useCandidate, order, x, y, |order|);
    assert order[..|order|] == order;
    AmongFirst(order, x, |order|);
    AmongFirst(order, y, |order|);
  }

  lemma {:induction false} SameSoFar(a: seq<Row>, covering: Row, baseline: Row, source: Row, useCandidate: seq<bool>,
                                     order: seq<nat>, x: seq<bool>, y: seq<bool>, n: nat)
    requires |covering| == |baseline| == |source| == BLOCK * |useCandidate| && Matrix(a, |source|)
    requires |x| == |y| == |useCandidate| && IsOrder(order, |x|) && n <= |order|
    requires Greedy(a, covering, baseline, source, useCandidate, order, x)
    requires Greedy(a, covering, baseline, source, useCandidate, order, y)
    ensures Among(x, order, n) == Among(y, order, n)
  {
    hide ErrorWith;
    if n > 0 {
      SameSoFar(a, covering, baseline, source, useCandidate, order, x, y, n - 1);
      assert GreedyAt(a, covering, baseline, source, useCandidate, order, x, n - 1);
      assert GreedyAt(a, covering, baseline, source, useCandidate, order, y, n - 1);
      NotYet(order, |x|, n - 1);
      forall b | 0 <= b < |x|
        ensures Among(x, order, n)[b] == Among(y, order, n)[b]
      {
        assert b in order[..n] ==> b == order[n - 1] || b in order[..n - 1];
        assert Among(x, order, n - 1)[b] == Among(y, order, n - 1)[b];
      }
    }
  }

  /** The gains computed from residuals are the isolated ones. */
  lemma GainsAreIsolated(a: seq<Row>, covering: Row, baseline: Row, source: Row, residual: Row, outputDeltas: seq<Row>,
                         ranks: seq<Rank>)
    requires |covering| == |baseline| == |source| == BLOCK * |outputDeltas| && Matrix(a, |source|)
    requires residual == Product(a, Minus(baseline, source)) && |ranks| == |outputDeltas|
    requires forall b :: 0 <= b < |ranks| ==>
      outputDeltas[b] == Product(a, BlockDelta(covering, baseline, |ranks|, b)) &&
      ranks[b] == Rank(true, Norm2(residual) - Norm2(Plus(residual, outputDeltas[b])))
    ensures ranks == IsolatedGains(a, covering, baseline, source, |ranks|)
  {
    hide Product, Dot, Norm2, BlockDelta;
    var none := NoneSelected(|ranks|);
    assert Mixed(covering, baseline, none) == baseline;
    forall b | 0 <= b < |ranks|
      ensures ranks[b] == IsolatedGains(a, covering, baseline, source, |ranks|)[b]
    {
      FlipMovesResidual(a, covering, baseline, source, none, b);
    }
  }

  /** The decision on the next block, in terms of errors. */
  lemma DecidedNow(a: seq<Row>, covering: Row, baseline: Row, source: Row, useCandidate: seq<bool>, order: seq<nat>,
                   was: seq<bool>, selected: seq<bool>, k: nat)
    requires |covering| == |baseline| == |source| == BLOCK * |was| && Matrix(a, |source|)
    requires |useCandidate| == |was| && IsOrder(order, |was|) && k < |order|
    requires forall b :: 0 <= b < |was| && was[b] ==> b in order[..k]
    requires
      var flip := useCandidate[order[k]] && ErrorWith(a, covering, baseline, source, was[order[k] := true]) <
                                            ErrorWith(a, covering, baseline, source, was);
      selected == if flip then was[order[k] := true] else was
    ensures GreedyAt(a, covering, baseline, source, useCandidate, order, selected, k)
  {
    hide ErrorWith;
    AmongFirst(order, was, k);
    assert order[k] !in order[..k];
    assert Among(selected, order, k) == was;
  }

  // Payload codes: single indices move to a neighbour

  const CANDIDATES := 64

  /** One output row: a level index, a sign and a scale code per column. */
  datatype CodeRow = CodeRow(indices: seq<nat>, negative: seq<bool>, codes: seq<nat>)

  ghost predicate ValidRow(r: CodeRow, width: nat) {
    |r.indices| == |r.negative| == |r.codes| == width && forall j :: 0 <= j < width ==> r.indices[j] < 8
  }

  function ValueAt(r: CodeRow, j: nat, k: nat): real
    requires j < |r.negative| == |r.codes|
  {
    ValueOf(E2M1, k, r.negative[j], r.codes[j])
  }

  function DecodedRow(r: CodeRow): (d: Row)
    requires |r.indices| == |r.negative| == |r.codes|
    ensures |d| == |r.indices| && forall j :: 0 <= j < |d| ==> d[j] == ValueAt(r, j, r.indices[j])
  {
    seq(|r.indices|, j requires 0 <= j < |r.indices| => ValueAt(r, j, r.indices[j]))
  }

  function Lower(k: nat): nat { if k == 0 then 0 else k - 1 }

  function Higher(k: nat): nat { if k >= 7 then 7 else k + 1 }

  /** Twice the step times its correlation with the residual, plus the squared step times the energy. */
  function Objective(d: real, correlation: real, energy: real): real {
    2.0 * Times(d, correlation) + Times(d, Times(d, energy))
  }

  /** The isolated objective is exactly the change of the squared error. */
  lemma ObjectiveIsErrorChange(a: seq<Row>, row: Row, source: Row, j: nat, d: real)
    requires |row| == |source| && Matrix(a, |row|) && j < |row|
    ensures
      var residual, column := Product(a, Minus(row, source)), Column(a, |row|, j);
      OutputError(a, row[j := row[j] + d], source) - OutputError(a, row, source) ==
      Objective(d, Dot(residual, column), Norm2(column))
  {
    hide Product, Dot, Times, Norm2;
    RowUpdate(a, row, source, j, d);
    Norm2Step(Product(a, Minus(row, source)), d, Column(a, |row|, j));
  }

  lemma RowUpdate(a: seq<Row>, row: Row, source: Row, j: nat, d: real)
    requires |row| == |source| && Matrix(a, |row|) && j < |row|
    ensures Product(a, Minus(row[j := row[j] + d], source)) ==
            Plus(Product(a, Minus(row, source)), Stretch(d, Column(a, |row|, j)))
  {
    hide Product, Dot, Times;
    var m := Minus(row, source);
    assert Minus(row[j := row[j] + d], source) == m[j := m[j] + d];
    ProductUpdate(a, m, j, d);
  }

  /** The better neighbour of one column: its index, its step, its gain and whether it may be used. */
  datatype Choice = Choice(index: nat, delta: real, rank: Rank)

  function Choose(r: CodeRow, j: nat, correlation: real, energy: real, columns: nat): (c: Choice)
    requires j < |r.indices| == |r.negative| == |r.codes| && r.indices[j] < 8
    ensures c.index < 8 && c.index <= r.indices[j] + 1 && r.indices[j] <= c.index + 1
    ensures c.delta == ValueAt(r, j, c.index) - ValueAt(r, j, r.indices[j])
    ensures c.rank.gain == -Objective(c.delta, correlation, energy)
    ensures c.rank.eligible <==> c.delta != 0.0 && c.rank.gain > 0.0 && j < columns
    ensures
      var lower := Objective(ValueAt(r, j, Lower(r.indices[j])) - ValueAt(r, j, r.indices[j]), correlation, energy);
      var upper := Objective(ValueAt(r, j, Higher(r.indices[j])) - ValueAt(r, j, r.indices[j]), correlation, energy);
      -c.rank.gain <= lower && -c.rank.gain <= upper &&
      (c.index == Lower(r.indices[j]) || (c.index == Higher(r.indices[j]) && upper < lower))
  {
    hide ValueOf, Objective;
    var baseline := ValueAt(r, j, r.indices[j]);
    var lowerDelta := ValueAt(r, j, Lower(r.indices[j])) - baseline;
    var upperDelta := ValueAt(r, j, Higher(r.indices[j])) - baseline;
    var lowerObjective := Objective(lowerDelta, correlation, energy);
    var upperObjective := Objective(upperDelta, correlation, energy);
    var useUpper := upperObjective < lowerObjective;
    var delta := if useUpper then upperDelta else lowerDelta;
    var gain := if useUpper then -upperObjective else -lowerObjective;
    Choice(if useUpper then Higher(r.indices[j]) else Lower(r.indices[j]), delta,
           Rank(delta != 0.0 && gain > 0.0 && j < columns, gain))
  }

  function Choices(a: seq<Row>, r: CodeRow, source: Row, columns: nat): (c: seq<Choice>)
    requires ValidRow(r, |source|) && Matrix(a, |source|)
    ensures |c| == |source|
    ensures forall j :: 0 <= j < |c| ==>
      c[j] == Choose(r, j, Dot(Product(a, Minus(DecodedRow(r), source)), Column(a, |source|, j)),
                     Norm2(Column(a, |source|, j)), columns)
  {
    hide Dot, Norm2, Choose;
    var residual := Product(a, Minus(DecodedRow(r), source));
    seq(|source|, j requires 0 <= j < |source| =>
      Choose(r, j, Dot(residual, Column(a, |source|, j)), Norm2(Column(a, |source|, j)), columns))
  }

  function Ranks(choices: seq<Choice>): (ranks: seq<Rank>)
    ensures |ranks| == |choices| && forall j :: 0 <= j < |ranks| ==> ranks[j] == choices[j].rank
  {
    seq(|choices|, j requires 0 <= j < |choices| => choices[j].rank)
  }

  /** The row after the first `k` choices of an order. */
  function Applied(r: CodeRow, choices: seq<Choice>, order: seq<nat>, k: nat): (r': CodeRow)
    requires ValidRow(r, |choices|) && k <= |order| && IsOrder(order, |choices|)
    requires forall j :: 0 <= j < |choices| ==> choices[j].index < 8
    ensures ValidRow(r', |choices|) && r'.negative == r.negative && r'.codes == r.codes
    ensures forall j :: 0 <= j < |choices| && j !in order[..k] ==> r'.indices[j] == r.indices[j]
    ensures forall j :: 0 <= j < |choices| && j in order[..k] ==> r'.indices[j] == choices[j].index
  {
    if k == 0 then r
    else
      var p := Applied(r, choices, order, k - 1);
      assert order[..k] == order[..k - 1] + [order[k - 1]];
      p.(indices := p.indices[order[k - 1] := choices[order[k - 1]].index])
  }

  /** Each choice adds its step times its column to the residual. */
  lemma AppliedStep(a: seq<Row>, r: CodeRow, source: Row, choices: seq<Choice>, order: seq<nat>, k: nat)
    requires ValidRow(r, |source|) && |choices| == |source| && Matrix(a, |source|)
    requires k < |order| && IsOrder(order, |source|)
    requires forall j :: 0 <= j < |choices| ==>
      choices[j].index < 8 && choices[j].delta == ValueAt(r, j, choices[j].index) - ValueAt(r, j, r.indices[j])
    ensures
      Product(a, Minus(DecodedRow(Applied(r, choices, order, k + 1)), source)) ==
      Plus(Product(a, Minus(DecodedRow(Applied(r, choices, order, k)), source)),
           Stretch(choices[order[k]].delta, Column(a, |source|, order[k])))
  {
    hide Product, Dot, Times, ValueOf;
    var p, j := Applied(r, choices, order, k), order[k];
    assert j !in order[..k];
    var row := DecodedRow(p);
    assert DecodedRow(Applied(r, choices, order, k + 1)) == row[j := row[j] + choices[j].delta];
    RowUpdate(a, row, source, j, choices[j].delta);
  }

  /** Errors of all prefixes of an order, by running sums of the contributions. */
  method PrefixErrors(a: seq<Row>, r: CodeRow, source: Row, choices: seq<Choice>, order: seq<nat>)
    returns (errors: seq<real>)
    requires ValidRow(r, |source|) && |choices| == |source| && Matrix(a, |source|) && IsOrder(order, |source|)
    requires forall j :: 0 <= j < |choices| ==>
      choices[j].index < 8 && choices[j].delta == ValueAt(r, j, choices[j].index) - ValueAt(r, j, r.indices[j])
    ensures |errors| == |order|
    ensures forall k :: 0 <= k < |errors| ==>
      errors[k] == OutputError(a, DecodedRow(Applied(r, choices, order, k + 1)), source)
  {
    hide Product, Dot, Times, Norm2, Applied, DecodedRow, ValueAt;
    AppliedNone(r, choices, order);
    var running := Product(a, Minus(DecodedRow(r), source));
    errors := [];
    for k := 0 to |order|
      invariant |errors| == k
      invariant running == Product(a, Minus(DecodedRow(Applied(r, choices, order, k)), source))
      invariant forall i :: 0 <= i < k ==>
        errors[i] == OutputError(a, DecodedRow(Applied(r, choices, order, i + 1)), source)
    {
      AppliedStep(a, r, source, choices, order, k);
      running := Plus(running, Stretch(choices[order[k]].delta, Column(a, |source|, order[k])));
      errors := errors + [Norm2(running)];
    }
  }

  lemma AppliedNone(r: CodeRow, choices: seq<Choice>, order: seq<nat>)
    requires ValidRow(r, |choices|) && IsOrder(order, |choices|)
    requires forall j :: 0 <= j < |choices| ==> choices[j].index < 8
    ensures Applied(r, choices, order, 0) == r
  {}

  method ArgMin(errors: seq<real>) returns (best: nat)
    requires errors != []
    ensures best < |errors| && forall k :: 0 <= k < |errors| ==> errors[best] <= errors[k]
    ensures forall k :: 0 <= k < best ==> errors[best] < errors[k]
  {
    best := 0;
    for k := 1 to |errors|
      invariant best < k
      invariant forall i :: 0 <= i < k ==> errors[best] <= errors[i]
      invariant forall i :: 0 <= i < best ==> errors[best] < errors[i]
    {
      if errors[k] < errors[best] {
        best := k;
      }
    }
  }

  function PrefixError(a: seq<Row>, r: CodeRow, source: Row, choices: seq<Choice>, order: seq<nat>, k: nat): real
    requires ValidRow(r, |source|) && |choices| == |source| && Matrix(a, |source|) && IsOrder(order, |source|) && k <= |order|
    requires forall j :: 0 <= j < |choices| ==> choices[j].index < 8
  {
    OutputError(a, DecodedRow(Applied(r, choices, order, k)), source)
  }

  /** The shortest of the best prefixes of at least one choice has `n` of them. */
  ghost predicate FirstBest(a: seq<Row>, r: CodeRow, source: Row, choices: seq<Choice>, order: seq<nat>, n: nat)
    requires ValidRow(r, |source|) && |choices| == |source| && Matrix(a, |source|) && IsOrder(order, |source|)
    requires forall j :: 0 <= j < |choices| ==> choices[j].index < 8
  {
    1 <= n <= |order| &&
    (forall k :: 1 <= k <= |order| ==>
       PrefixError(a, r, source, choices, order, n) <= PrefixError(a, r, source, choices, order, k)) &&
    forall k :: 1 <= k < n ==> PrefixError(a, r, source, choices, order, n) < PrefixError(a, r, source, choices, order, k)
  }

  /** That prefix is applied if all of it is eligible and it lowers the error. */
  ghost predicate BestPrefix(a: seq<Row>, r: CodeRow, source: Row, choices: seq<Choice>, order: seq<nat>, r': CodeRow)
    requires ValidRow(r, |source|) && |choices| == |source| && Matrix(a, |source|) && IsOrder(order, |source|)
    requires forall j :: 0 <= j < |choices| ==> choices[j].index < 8
  {
    (order == [] && r' == r) ||
    exists n: nat :: FirstBest(a, r, source, choices, order, n) &&
      r' == (if choices[order[n - 1]].rank.eligible &&
                PrefixError(a, r, source, choices, order, n) < OutputError(a, DecodedRow(r), source)
             then Applied(r, choices, order, n) else r)
  }

  function Leading(order: seq<nat>): seq<nat> { if |order| > CANDIDATES then order[..CANDIDATES] else order }

  /** The best prefix of the 64 highest isolated gains. */
  ghost predicate PayloadSelection(a: seq<Row>, r: CodeRow, source: Row, columns: nat, r': CodeRow)
    requires ValidRow(r, |source|) && Matrix(a, |source|)
  {
    var choices := Choices(a, r, source, columns);
    exists order :: IsRanking(Ranks(choices), order) && BestPrefix(a, r, source, choices, Leading(order), r')
  }

  /** The best prefix of the 64 highest isolated gains, if it lowers the error of the whole row. */
  method SelectPayloadCodes(a: seq<Row>, r: CodeRow, source: Row, columns: nat) returns (r': CodeRow)
    requires ValidRow(r, |source|) && Matrix(a, |source|)
    ensures ValidRow(r', |source|) && r'.negative == r.negative && r'.codes == r.codes
    ensures forall j :: 0 <= j < |source| && r'.indices[j] != r.indices[j] ==>
      var choice := Choices(a, r, source, columns)[j];
      choice.rank.eligible && r'.indices[j] == choice.index && j < columns &&
      r'.indices[j] <= r.indices[j] + 1 && r.indices[j] <= r'.indices[j] + 1
    ensures r' == r || OutputError(a, DecodedRow(r'), source) < OutputError(a, DecodedRow(r), source)
    ensures PayloadSelection(a, r, source, columns, r')
  {
    hide Product, Dot, Times, Norm2, Choose, Sorted, EligibleCount, Applied, ValueAt, DecodedRow, BestPrefix, Descending;
    hide OutputError;
    var choices := Choices(a, r, source, columns);
    var ranks := Ranks(choices);
    var sorted := Sorted(ranks, |source|);
    SortedIsOrder(ranks, |source|);
    var order := Leading(sorted);
    LeadingIsOrder(ranks, sorted);
    var eligible := EligibleCount(ranks, order);
    var errors := PrefixErrors(a, r, source, choices, order);
    r' := r;
    if order != [] {
      var best := ArgMin(errors);
      EligibleFirst(ranks, order, best);
      if eligible > 0 && best < eligible && errors[best] < OutputError(a, DecodedRow(r), source) {
        r' := Applied(r, choices, order, best + 1);
        forall j | j in order[..best + 1]
          ensures ranks[j].eligible
        {
          var k :| 0 <= k <= best && order[k] == j;
          EligibleFirst(ranks, order, k);
        }
      }
      PrefixIsBest(a, r, source, choices, order, errors, best, r');
    } else {
      NoPrefix(a, r, source, choices);
    }
  }

  lemma LeadingIsOrder(ranks: seq<Rank>, order: seq<nat>)
    requires IsOrder(order, |ranks|) && Descending(ranks, order)
    ensures IsOrder(Leading(order), |ranks|) && Descending(ranks, Leading(order))
  {}

  lemma NoPrefix(a: seq<Row>, r: CodeRow, source: Row, choices: seq<Choice>)
    requires ValidRow(r, |source|) && |choices| == |source| && Matrix(a, |source|)
    requires forall j :: 0 <= j < |choices| ==> choices[j].index < 8
    ensures BestPrefix(a, r, source, choices, [], r)
  {}

  lemma PrefixIsBest(a: seq<Row>, r: CodeRow, source: Row, choices: seq<Choice>, order: seq<nat>, errors: seq<real>, best: nat,
                     r': CodeRow)
    requires ValidRow(r, |source|) && |choices| == |source| && Matrix(a, |source|) && IsOrder(order, |source|)
    requires forall j :: 0 <= j < |choices| ==> choices[j].index < 8
    requires |errors| == |order| && best < |errors|
    requires forall k :: 0 <= k < |errors| ==> errors[k] == PrefixError(a, r, source, choices, order, k + 1)
    requires forall k :: 0 <= k < |errors| ==> errors[best] <= errors[k]
    requires forall k :: 0 <= k < best ==> errors[best] < errors[k]
    requires r' == if choices[order[best]].rank.eligible && errors[best] < OutputError(a, DecodedRow(r), source)
                   then Applied(r, choices, order, best + 1) else r
    ensures BestPrefix(a, r, source, choices, order, r')
  {
    hide PrefixError, Applied, OutputError, DecodedRow, FirstBest;
    PrefixIsFirst(a, r, source, choices, order, errors, best);
  }

  lemma PrefixIsFirst(a: seq<Row>, r: CodeRow, source: Row, choices: seq<Choice>, order: seq<nat>, errors: seq<real>, best: nat)
    requires ValidRow(r, |source|) && |choices| == |source| && Matrix(a, |source|) && IsOrder(order, |source|)
    requires forall j :: 0 <= j < |choices| ==> choices[j].index < 8
    requires |errors| == |order| && best < |errors|
    requires forall k :: 0 <= k < |errors| ==> errors[k] == PrefixError(a, r, source, choices, order, k + 1)
    requires forall k :: 0 <= k < |errors| ==> errors[best] <= errors[k]
    requires forall k :: 0 <= k < best ==> errors[best] < errors[k]
    ensures FirstBest(a, r, source, choices, order, best + 1)
  {
    hide PrefixError, Matrix, ValidRow;
    forall k | 1 <= k <= |order|
      ensures PrefixError(a, r, source, choices, order, k) == errors[k - 1]
    {}
  }

  /** The outcome is determined. */
  lemma OnePayloadSelection(a: seq<Row>, r: CodeRow, source: Row, columns: nat, x: CodeRow, y: CodeRow)
    requires ValidRow(r, |source|) && Matrix(a, |source|)
    requires PayloadSelection(a, r, source, columns, x) && PayloadSelection(a, r, source, columns, y)
    ensures x == y
  {
    hide FirstBest, PrefixError, Choices, Ranks, Descending, Applied, DecodedRow, OutputError;
    var choices := Choices(a, r, source, columns);
    var ranks := Ranks(choices);
    var order :| IsRanking(ranks, order) && BestPrefix(a, r, source, choices, Leading(order), x);
    var other :| IsRanking(ranks, other) && BestPrefix(a, r, source, choices, Leading(other), y);
    assert forall v :: v in order <==> v in other;
    RankingUnique(ranks, order, other);
    OneFirstBest(a, r, source, choices, Leading(order));
  }

  lemma OneFirstBest(a: seq<Row>, r: CodeRow, source: Row, choices: seq<Choice>, order: seq<nat>)
    requires ValidRow(r, |source|) && |choices| == |source| && Matrix(a, |source|) && IsOrder(order, |source|)
    requires forall j :: 0 <= j < |choices| ==> choices[j].index < 8
    ensures forall m: nat, n: nat ::
      FirstBest(a, r, source, choices, order, m) && FirstBest(a, r, source, choices, order, n) ==>
      m == n && order != []
  {
    hide PrefixError;
    forall m: nat, n: nat | FirstBest(a, r, source, choices, order, m) && FirstBest(a, r, source, choices, order, n)
      ensures m == n && order != []
    {
      assert PrefixError(a, r, source, choices, order, m) == PrefixError(a, r, source, choices, order, n);
    }
  }
}
