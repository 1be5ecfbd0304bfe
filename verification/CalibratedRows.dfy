/**
 Writing one calibrated FP4 row: scale choice per block, both selections over the whole row, and packing.
 Whatever they select, the gate accepts every stored block and the output error is at most the baseline's.
 */
module CalibratedRows {
  import opened BlockFormats
  import opened BlockOracle
  import opened BlockWriter
  import opened Mxfp6Writer
  import opened LinearRows
  import opened ActivationSelection

  function BlockOf(source: Row, b: nat): (block: seq<real>)
    requires BLOCK * (b + 1) <= |source|
    ensures |block| == BLOCK
  {
    source[BLOCK * b..BLOCK * (b + 1)]
  }

  /** How many columns of block `b` are not padding. */
  function LogicalCount(columns: nat, b: nat): nat {
    if columns <= BLOCK * b then 0 else if columns >= BLOCK * (b + 1) then BLOCK else columns - BLOCK * b
  }

  /** Each value of a row encoded at the scale code of its block. */
  function EncodedRow(source: Row, codes: seq<nat>): (r: CodeRow)
    requires |source| == BLOCK * |codes|
    ensures ValidRow(r, |source|)
    ensures forall j :: 0 <= j < |source| ==>
      r.codes[j] == codes[j / BLOCK] && r.negative[j] == (source[j] < 0.0) &&
      r.indices[j] == IndexFor(E2M1, source[j], codes[j / BLOCK])
  {
    CodeRow(seq(|source|, j requires 0 <= j < |source| => IndexFor(E2M1, source[j], codes[j / BLOCK])),
            seq(|source|, j requires 0 <= j < |source| => source[j] < 0.0),
            seq(|source|, j requires 0 <= j < |source| => codes[j / BLOCK]))
  }

  function Pick(x: seq<nat>, y: seq<nat>, first: seq<bool>): (z: seq<nat>)
    requires |x| == |y| == |first|
    ensures |z| == |x| && forall b :: 0 <= b < |z| ==> z[b] == if first[b] then x[b] else y[b]
  {
    seq(|x|, b requires 0 <= b < |x| => if first[b] then x[b] else y[b])
  }

  /** Mixing two decoded rows block by block decodes the row with the mixed scale codes. */
  lemma MixedDecodes(source: Row, x: seq<nat>, y: seq<nat>, first: seq<bool>)
    requires |source| == BLOCK * |x| && |x| == |y| == |first|
    ensures Mixed(DecodedRow(EncodedRow(source, x)), DecodedRow(EncodedRow(source, y)), first) ==
            DecodedRow(EncodedRow(source, Pick(x, y, first)))
  {
    hide IndexFor, ValueOf;
  }

  /** Block `b` of a row, as the gate sees it. */
  function PayloadOf(r: CodeRow, code: nat, b: nat): (p: Payload)
    requires |r.indices| == |r.negative| && BLOCK * (b + 1) <= |r.indices|
    ensures |p.indices| == |p.negative| == BLOCK
  {
    Payload(code, r.indices[BLOCK * b..BLOCK * (b + 1)], r.negative[BLOCK * b..BLOCK * (b + 1)])
  }

  /** The scale codes of a row under a policy. */
  function PolicyCodes(policy: Policy, source: Row, blocks: nat): (codes: seq<nat>)
    requires |source| == BLOCK * blocks
    ensures |codes| == blocks && forall b :: 0 <= b < blocks ==> codes[b] == Fp4Code(policy, BlockOf(source, b))
  {
    seq(blocks, b requires 0 <= b < blocks => Fp4Code(policy, BlockOf(source, b)))
  }

  /** What the writer may store for a row: legal scale codes, and the nearest codes or their neighbours. */
  ghost predicate Legal(source: Row, columns: nat, codes: seq<nat>, r: CodeRow)
    requires |source| == BLOCK * |codes| && ValidRow(r, |source|)
  {
    forall b :: 0 <= b < |codes| ==> LegalBlock(source, columns, codes, r, b)
  }

  ghost predicate LegalBlock(source: Row, columns: nat, codes: seq<nat>, r: CodeRow, b: nat)
    requires |source| == BLOCK * |codes| && ValidRow(r, |source|) && b < |codes|
  {
    (codes[b] == Fp4Code(MinError, BlockOf(source, b)) || codes[b] == Fp4Code(Covering, BlockOf(source, b))) &&
    NearestOrAdjacent(PayloadOf(r, codes[b], b), EncodeAt(E2M1, BlockOf(source, b), codes[b]), LogicalCount(columns, b))
  }

  /** The blocks whose lower code has the lower error. */
  function Lowered(covering: seq<nat>, baseline: seq<nat>): (l: seq<bool>)
    requires |covering| == |baseline|
    ensures |l| == |covering| && forall b :: 0 <= b < |l| ==> (l[b] <==> baseline[b] != covering[b])
  {
    seq(|covering|, b requires 0 <= b < |covering| => baseline[b] != covering[b])
  }

  /** Some of the lowered blocks get their covering code back, as the selection of scales says. */
  ghost predicate ScalesChosen(a: seq<Row>, source: Row, codes: seq<nat>)
    requires |source| == BLOCK * |codes| && Matrix(a, |source|)
  {
    var covering, baseline := PolicyCodes(Covering, source, |codes|), PolicyCodes(MinError, source, |codes|);
    exists selected: seq<bool> ::
      |selected| == |codes| && codes == Pick(covering, baseline, selected) &&
      ScaleSelection(a, DecodedRow(EncodedRow(source, covering)), DecodedRow(EncodedRow(source, baseline)), source,
                     Lowered(covering, baseline), selected)
  }

  /** What calibration makes of a row: the codes of both selections. */
  ghost predicate Calibrated(a: seq<Row>, source: Row, columns: nat, selectPayload: bool, codes: seq<nat>, r: CodeRow)
    requires |source| == BLOCK * |codes| && Matrix(a, |source|)
  {
    ScalesChosen(a, source, codes) &&
    if selectPayload then PayloadSelection(a, EncodedRow(source, codes), source, columns, r) else r == EncodedRow(source, codes)
  }

  /** Both selections for one row. */
  method CalibrateRow(a: seq<Row>, source: Row, columns: nat, blocks: nat, selectPayload: bool)
    returns (codes: seq<nat>, r: CodeRow)
    requires |source| == BLOCK * blocks && Matrix(a, |source|)
    ensures |codes| == blocks && ValidRow(r, |source|) && Legal(source, columns, codes, r)
    ensures !selectPayload ==> r == EncodedRow(source, codes)
    ensures Calibrated(a, source, columns, selectPayload, codes, r) && r.codes == EncodedRow(source, codes).codes
    ensures OutputError(a, DecodedRow(r), source) <=
            OutputError(a, DecodedRow(EncodedRow(source, PolicyCodes(MinError, source, blocks))), source)
  {
    hide EncodedRow, DecodedRow, MaxAbs, UnitError, CoveringCode, MinErrorCode, OutputError, Product, ScaleSelection;
    hide PayloadSelection, Mixed;
    var covering: seq<nat>, candidate: seq<nat>, useCandidate: seq<bool> := [], [], [];
    for b := 0 to blocks
      invariant |covering| == |candidate| == |useCandidate| == b
      invariant forall i :: 0 <= i < b ==> covering[i] == Fp4Code(Covering, BlockOf(source, i))
      invariant forall i :: 0 <= i < b ==> useCandidate[i] ==> candidate[i] != covering[i]
      invariant forall i :: 0 <= i < b ==>
        (if useCandidate[i] then candidate[i] else covering[i]) == Fp4Code(MinError, BlockOf(source, i))
    {
      var block := BlockOf(source, b);
      var code := CoveringCode(MaxAbs(block));
      var lower := if code - 1 < MIN_CODE then MIN_CODE else code - 1;
      VectorisedChoiceAgrees(block);
      covering, candidate := covering + [code], candidate + [lower];
      useCandidate := useCandidate + [lower != code && UnitError(block, code, 2.0) < UnitError(block, code, 1.0)];
    }
    ghost var baseline := PolicyCodes(MinError, source, blocks);
    assert covering == PolicyCodes(Covering, source, blocks);
    var before := Pick(candidate, covering, useCandidate);
    assert before == baseline && useCandidate == Lowered(covering, baseline);
    var coveringRow, candidateRow := DecodedRow(EncodedRow(source, covering)), DecodedRow(EncodedRow(source, candidate));
    MixedDecodes(source, candidate, covering, useCandidate);
    var selected, _, _, _, _ := SelectScales(a, coveringRow, candidateRow, source, useCandidate);
    codes := Pick(covering, before, selected);
    assert ScalesChosen(a, source, codes);
    MixedDecodes(source, covering, before, selected);
    r := EncodedRow(source, codes);
    NearestIsLegal(source, columns, codes);
    if selectPayload {
      ghost var nearest := r;
      r := SelectPayloadCodes(a, r, source, columns);
      AdjacentIsLegal(source, columns, codes, nearest, r);
    }
  }

  /** There is one calibrated form of a row. */
  lemma OneCalibration(a: seq<Row>, source: Row, columns: nat, selectPayload: bool, x: seq<nat>, p: CodeRow, y: seq<nat>,
                       q: CodeRow)
    requires |source| == BLOCK * |x| && |x| == |y| && Matrix(a, |source|)
    requires Calibrated(a, source, columns, selectPayload, x, p) && Calibrated(a, source, columns, selectPayload, y, q)
    ensures x == y && p == q
  {
    hide ScaleSelection, PayloadSelection, EncodedRow, DecodedRow, PolicyCodes, Pick, Lowered;
    var covering, baseline := PolicyCodes(Covering, source, |x|), PolicyCodes(MinError, source, |x|);
    var first, second := DecodedRow(EncodedRow(source, covering)), DecodedRow(EncodedRow(source, baseline));
    forall s: seq<bool>, t: seq<bool> | ScaleSelection(a, first, second, source, Lowered(covering, baseline), s) &&
                                        ScaleSelection(a, first, second, source, Lowered(covering, baseline), t)
      ensures s == t
    {
      OneScaleSelection(a, first, second, source, Lowered(covering, baseline), s, t);
    }
    if selectPayload {
      OnePayloadSelection(a, EncodedRow(source, x), source, columns, p, q);
    }
  }

  lemma NearestIsLegal(source: Row, columns: nat, codes: seq<nat>)
    requires |source| == BLOCK * |codes|
    requires forall b :: 0 <= b < |codes| ==>
      codes[b] == Fp4Code(MinError, BlockOf(source, b)) || codes[b] == Fp4Code(Covering, BlockOf(source, b))
    ensures Legal(source, columns, codes, EncodedRow(source, codes))
  {
    hide Fp4Code;
    forall b | 0 <= b < |codes|
      ensures LegalBlock(source, columns, codes, EncodedRow(source, codes), b)
    {
      EncodedBlock(source, codes, b);
    }
  }

  /** A block of the encoded row is the encoded block. */
  lemma EncodedBlock(source: Row, codes: seq<nat>, b: nat)
    requires |source| == BLOCK * |codes| && b < |codes|
    ensures PayloadOf(EncodedRow(source, codes), codes[b], b) == EncodeAt(E2M1, BlockOf(source, b), codes[b])
  {
    hide IndexFor, NegativeFor;
    var r, block := EncodedRow(source, codes), BlockOf(source, b);
    forall i | 0 <= i < BLOCK
      ensures r.indices[BLOCK * b + i] == IndexFor(E2M1, block[i], codes[b])
      ensures r.negative[BLOCK * b + i] == NegativeFor(block[i], codes[b])
    {
      assert (BLOCK * b + i) / BLOCK == b;
      SignOfQuotient(block[i], codes[b]);
    }
  }

  lemma AdjacentIsLegal(source: Row, columns: nat, codes: seq<nat>, nearest: CodeRow, r: CodeRow)
    requires |source| == BLOCK * |codes| && ValidRow(nearest, |source|) && ValidRow(r, |source|)
    requires nearest == EncodedRow(source, codes) && Legal(source, columns, codes, nearest)
    requires r.negative == nearest.negative
    requires forall j :: 0 <= j < |source| && r.indices[j] != nearest.indices[j] ==>
      j < columns && r.indices[j] <= nearest.indices[j] + 1 && nearest.indices[j] <= r.indices[j] + 1
    ensures Legal(source, columns, codes, r)
  {
    hide EncodedRow, EncodeAt, Fp4Code;
    forall b | 0 <= b < |codes|
      ensures LegalBlock(source, columns, codes, r, b)
    {
      assert LegalBlock(source, columns, codes, nearest, b);
      EncodedBlock(source, codes, b);
    }
  }

  /** The bytes of a block lie together in the bytes of its row. */
  lemma BlockBytes(r: CodeRow, blocks: nat, code: nat, b: nat)
    requires ValidRow(r, BLOCK * blocks) && b < blocks
    ensures
      var row := Fp4Bytes(Payload(0, r.indices, r.negative));
      |row| == BLOCK / 2 * blocks && Fp4Bytes(PayloadOf(r, code, b)) == row[BLOCK / 2 * b..BLOCK / 2 * (b + 1)]
  {
    hide Fp4Bytes, JoinNibbles, Code4;
    var row, block := Payload(0, r.indices, r.negative), PayloadOf(r, code, b);
    PackedPair(row, 0);
    PackedPair(block, 0);
    forall i | 0 <= i < BLOCK / 2
      ensures Fp4Bytes(block)[i] == Fp4Bytes(row)[BLOCK / 2 * b + i]
    {
      PackedPair(block, i);
      PackedPair(row, BLOCK / 2 * b + i);
    }
  }

  lemma PackedPair(p: Payload, i: nat)
    requires |p.indices| == |p.negative| && 2 * i + 1 < |p.indices|
    requires forall j :: 0 <= j < |p.indices| ==> p.indices[j] < 8
    ensures |Fp4Bytes(p)| == |p.indices| / 2
    ensures Fp4Bytes(p)[i] ==
            JoinNibbles(Code4(p.indices[2 * i], p.negative[2 * i]), Code4(p.indices[2 * i + 1], p.negative[2 * i + 1]))
  {
    hide Code4, JoinNibbles;
  }

  /** The stored row, read back block by block by the gate: nothing is flagged. */
  method GateAcceptsCalibrated(a: seq<Row>, source: Row, columns: nat, blocks: nat, selectPayload: bool)
    returns (payloadMismatches: nat, scaleMismatches: nat)
    requires |source| == BLOCK * blocks && Matrix(a, |source|)
    ensures payloadMismatches == 0 && scaleMismatches == 0
  {
    hide Fp4Bytes, OutputError, DecodedRow, EncodedRow, Legal, BlockOf, PayloadOf, Calibrated;
    var codes, r := CalibrateRow(a, source, columns, blocks, selectPayload);
    var row := PackBytes(r.indices, r.negative);
    assert row == Fp4Bytes(Payload(0, r.indices, r.negative));
    payloadMismatches, scaleMismatches := 0, 0;
    for b := 0 to blocks
      invariant payloadMismatches == 0 && scaleMismatches == 0
    {
      BlockBytes(r, blocks, codes[b], b);
      var payloadMismatch, scaleMismatch :=
        QualifyStored(source, columns, codes, r, b, selectPayload, row[BLOCK / 2 * b..BLOCK / 2 * (b + 1)]);
      payloadMismatches := payloadMismatches + if payloadMismatch then 1 else 0;
      scaleMismatches := scaleMismatches + if scaleMismatch then 1 else 0;
    }
  }

  /** The gate on one stored block of a calibrated row. */
  method QualifyStored(source: Row, columns: nat, codes: seq<nat>, ghost r: CodeRow, b: nat, selectPayload: bool,
                       stored: seq<bv8>)
    returns (payloadMismatch: bool, scaleMismatch: bool)
    requires |source| == BLOCK * |codes| && ValidRow(r, |source|) && b < |codes|
    requires Legal(source, columns, codes, r) && (!selectPayload ==> r == EncodedRow(source, codes))
    requires stored == Fp4Bytes(PayloadOf(r, codes[b], b))
    ensures !payloadMismatch && !scaleMismatch
  {
    hide Fp4Bytes, CoveringCode, MinErrorCode, EncodeAt, AdjacentCodes, UnpackNibbles, EncodedRow, PayloadOf, BlockOf;
    BlockIsAccepted(source, columns, codes, r, b, selectPayload);
    assert LegalBlock(source, columns, codes, r, b);
    payloadMismatch, scaleMismatch :=
      QualifyFp4Block(BlockOf(source, b), LogicalCount(columns, b), stored, codes[b], true, true, selectPayload);
  }

  lemma BlockIsAccepted(source: Row, columns: nat, codes: seq<nat>, r: CodeRow, b: nat, selectPayload: bool)
    requires |source| == BLOCK * |codes| && ValidRow(r, |source|) && b < |codes|
    requires Legal(source, columns, codes, r) && (!selectPayload ==> r == EncodedRow(source, codes))
    ensures
      var stored, nearest := PayloadOf(r, codes[b], b), EncodeAt(E2M1, BlockOf(source, b), codes[b]);
      if selectPayload
      then AdjacentCodes(UnpackNibbles(Fp4Bytes(stored)), UnpackNibbles(Fp4Bytes(nearest)), LogicalCount(columns, b))
      else Fp4Bytes(stored) == Fp4Bytes(nearest)
  {
    hide Fp4Bytes, Fp4Code, EncodeAt, AdjacentCodes, UnpackNibbles, EncodedRow;
    assert LegalBlock(source, columns, codes, r, b);
    EncodedBlock(source, codes, b);
    if selectPayload {
      CalibratedIsAccepted(PayloadOf(r, codes[b], b), EncodeAt(E2M1, BlockOf(source, b), codes[b]), LogicalCount(columns, b));
    }
  }
}
