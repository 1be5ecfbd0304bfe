/**
 Writing a block and qualifying it: the writer's loops, the gate's loops and the bytes both come to, and
 the acceptance of blocks whose codes were chosen by calibration.
 */
module BlockWriter {
  import opened PowersOfTwo
  import opened BlockFormats
  import opened BlockProjection
  import opened BlockOracle
  import opened BlockMeaning

  /** The stored bytes of an FP4 payload. */
  function Fp4Bytes(p: Payload): seq<bv8>
    requires |p.indices| == |p.negative| && forall i :: 0 <= i < |p.indices| ==> p.indices[i] < 8
  {
    PackNibbles(Nibbles(p))
  }

  function PolicyOf(optimizeMse: bool): Policy { if optimizeMse then MinError else Covering }

  /** The dependency-free writer, one block. */
  method WriteFp4Block(chunk: seq<real>, optimizeMse: bool) returns (payload: seq<bv8>, code: nat)
    ensures code == Fp4Code(PolicyOf(optimizeMse), chunk)
    ensures payload == Fp4Bytes(EncodeFp4(PolicyOf(optimizeMse), chunk))
    ensures Represents(E2M1, chunk, EncodeFp4(PolicyOf(optimizeMse), chunk))
    ensures if optimizeMse then LowerError(chunk, code) else Covers(MaxAbs(chunk), code)
  {
    Fp4Means(chunk, optimizeMse);
    hide Nearest, Fp4Code, Nibbles, Represents, LowerError, Covers;
    code := Fp4Code(PolicyOf(optimizeMse), chunk);
    var indices, signs := [], [];
    for i := 0 to |chunk|
      invariant |indices| == |signs| == i
      invariant forall j :: 0 <= j < i ==> indices[j] == IndexFor(E2M1, chunk[j], code)
      invariant forall j :: 0 <= j < i ==> signs[j] == NegativeFor(chunk[j], code)
    {
      var quotient := chunk[i] / Scale(code);
      var k := NearestIndex(E2M1, Abs(quotient));
      indices, signs := indices + [k], signs + [quotient < 0.0];
    }
    ghost var p := EncodeFp4(PolicyOf(optimizeMse), chunk);
    assert indices == p.indices && signs == p.negative;
    payload := PackBytes(indices, signs);
  }

  lemma Fp4Means(chunk: seq<real>, optimizeMse: bool)
    ensures Represents(E2M1, chunk, EncodeFp4(PolicyOf(optimizeMse), chunk))
    ensures
      var code := Fp4Code(PolicyOf(optimizeMse), chunk);
      if optimizeMse then LowerError(chunk, code) else Covers(MaxAbs(chunk), code)
  {
    hide MinErrorCode, CoveringCode, Represents, LowerError, Covers, MaxAbs;
    TablesAreLevelTables();
    EncodingRepresents(E2M1, chunk, Fp4Code(PolicyOf(optimizeMse), chunk));
    MinErrorIsLower(chunk);
    CoveringCovers(MaxAbs(chunk));
  }

  /** Filling the byte array two codes at a time. */
  method PackBytes(indices: seq<nat>, negative: seq<bool>) returns (payload: seq<bv8>)
    requires |indices| == |negative| && forall i :: 0 <= i < |indices| ==> indices[i] < 8
    ensures forall code :: payload == Fp4Bytes(Payload(code, indices, negative))
  {
    hide Code4, JoinNibbles;
    var packed := new bv8[|indices| / 2];
    for pair := 0 to packed.Length
      invariant forall i :: 0 <= i < pair ==>
        packed[i] == JoinNibbles(Code4(indices[2 * i], negative[2 * i]), Code4(indices[2 * i + 1], negative[2 * i + 1]))
    {
      packed[pair] := JoinNibbles(Code4(indices[2 * pair], negative[2 * pair]),
                                  Code4(indices[2 * pair + 1], negative[2 * pair + 1]));
    }
    payload := packed[..];
    forall code
      ensures payload == Fp4Bytes(Payload(code, indices, negative))
    {}
  }

  // The gate

  method OracleFp4Error(values: seq<real>, code: nat) returns (e: real)
    ensures e == SquaredError(E2M1, values, code)
  {
    hide SquaredError, IndexFor, Square, MaxAbs;
    NoError(code);
    e := 0.0;
    for i := 0 to |values|
      invariant values[..0] == [] && e == SquaredError(E2M1, values[..i], code)
    {
      var d := OracleDeviation(values[i], code);
      ErrorGrows(values, i, code);
      e := e + Square(d);
    }
    assert values[..|values|] == values;
  }

  method OracleDeviation(v: real, code: nat) returns (d: real)
    ensures d == Deviation(E2M1, v, code)
  {
    hide Nearest;
    var k := OracleFp4Index(Abs(v / Scale(code)));
    d := E2M1[k] * Scale(code) - Abs(v);
  }

  lemma NoError(code: nat)
    ensures SquaredError(E2M1, [], code) == 0.0
  {}

  lemma ErrorGrows(values: seq<real>, i: nat, code: nat)
    requires i < |values|
    ensures SquaredError(E2M1, values[..i + 1], code) ==
            SquaredError(E2M1, values[..i], code) + Square(Deviation(E2M1, values[i], code))
  {
    hide Deviation, Square;
    var longer := values[..i + 1];
    assert longer[..|longer| - 1] == values[..i] && longer[|longer| - 1] == values[i];
  }

  method ExpectedFp4AtCode(values: seq<real>, code: nat) returns (payload: seq<bv8>)
    ensures payload == Fp4Bytes(EncodeAt(E2M1, values, code))
  {
    hide Nearest, Code4, JoinNibbles;
    var nibbles := [];
    for i := 0 to |values|
      invariant |nibbles| == i
      invariant forall j :: 0 <= j < i ==>
        nibbles[j] == Code4(IndexFor(E2M1, values[j], code), NegativeFor(values[j], code))
    {
      var quotient := values[i] / Scale(code);
      var k := OracleFp4Index(Abs(quotient));
      nibbles := nibbles + [Code4(k, quotient < 0.0)];
    }
    assert nibbles == Nibbles(EncodeAt(E2M1, values, code));
    payload := PackNibbles(nibbles);
  }

  /** The gate's own encoding of a block: the same bytes and scale code as the writer's. */
  method ExpectedFp4(values: seq<real>, optimizeMse: bool) returns (payload: seq<bv8>, code: nat)
    ensures code == Fp4Code(PolicyOf(optimizeMse), values)
    ensures payload == Fp4Bytes(EncodeFp4(PolicyOf(optimizeMse), values))
  {
    hide Nearest, CoveringCode, SquaredError;
    code := CoveringCode(MaxAbs(values));
    var candidate := if code - 1 < MIN_CODE then MIN_CODE else code - 1;
    if optimizeMse && candidate != code {
      var low := OracleFp4Error(values, candidate);
      var high := OracleFp4Error(values, code);
      if low < high {
        code := candidate;
      }
    }
    payload := ExpectedFp4AtCode(values, code);
  }

  /** The nearest-or-adjacent contract for calibrated payloads, nibble by nibble. */
  predicate AdjacentCodes(actual: seq<bv8>, nearest: seq<bv8>, logical: nat) {
    |actual| == |nearest| == BLOCK && forall i :: 0 <= i < BLOCK ==> AdjacentCode(actual[i], nearest[i], i < logical)
  }

  predicate AdjacentCode(actual: bv8, expected: bv8, logical: bool) {
    if logical then
      actual & 8 == expected & 8 && -1 <= ((actual & 7) as int) - ((expected & 7) as int) <= 1
    else actual == expected
  }

  method ValidAdjacentFp4Payload(payload: seq<bv8>, nearest: seq<bv8>, logical: nat) returns (ok: bool)
    requires |nearest| == BLOCK / 2
    ensures ok <==> AdjacentCodes(UnpackNibbles(payload), UnpackNibbles(nearest), logical)
  {
    hide AdjacentCode, UnpackNibbles;
    var actual, expected := UnpackNibbles(payload), UnpackNibbles(nearest);
    if |actual| != BLOCK {
      return false;
    }
    for i := 0 to BLOCK
      invariant forall j :: 0 <= j < i ==> AdjacentCode(actual[j], expected[j], j < logical)
    {
      if !AdjacentCode(actual[i], expected[i], i < logical) {
        return false;
      }
    }
    return true;
  }

  /** The acceptance decision for one stored block. */
  method QualifyFp4Block(source: seq<real>, logical: nat, payload: seq<bv8>, scale: nat,
                         optimizeMse: bool, activationAware: bool, payloadAware: bool)
    returns (payloadMismatch: bool, scaleMismatch: bool)
    requires |source| == BLOCK
    ensures
      var chosen := Fp4Code(PolicyOf(optimizeMse), source);
      var legal := scale == chosen || (activationAware && scale == CoveringCode(MaxAbs(source)));
      var nearest := Fp4Bytes(EncodeAt(E2M1, source, if legal then scale else chosen));
      scaleMismatch == !legal &&
      payloadMismatch == !(if payloadAware then AdjacentCodes(UnpackNibbles(payload), UnpackNibbles(nearest), logical)
                           else payload == nearest)
  {
    hide Fp4Code, CoveringCode, Nibbles, UnpackNibbles, AdjacentCodes;
    var expectedPayload, expectedScale := ExpectedFp4(source, optimizeMse);
    var legal := scale == expectedScale;
    if activationAware {
      var _, coveringScale := ExpectedFp4(source, false);
      CoveringPolicy(source);
      legal := scale == expectedScale || scale == coveringScale;
      if legal {
        expectedPayload := ExpectedFp4AtCode(source, scale);
      }
    }
    if payloadAware {
      var ok := ValidAdjacentFp4Payload(payload, expectedPayload, logical);
      payloadMismatch := !ok;
    } else {
      payloadMismatch := payload != expectedPayload;
    }
    scaleMismatch := !legal;
  }

  lemma CoveringPolicy(source: seq<real>)
    ensures Fp4Code(PolicyOf(false), source) == CoveringCode(MaxAbs(source))
  {}

  /** Every block the writer stores passes the gate. */
  method GateAcceptsWriter(chunk: seq<real>, optimizeMse: bool) returns (payloadMismatch: bool, scaleMismatch: bool)
    requires |chunk| == BLOCK
    ensures !payloadMismatch && !scaleMismatch
  {
    hide Fp4Code, Fp4Bytes, CoveringCode, EncodeAt;
    var payload, code := WriteFp4Block(chunk, optimizeMse);
    payloadMismatch, scaleMismatch := QualifyFp4Block(chunk, BLOCK, payload, code, optimizeMse, false, false);
  }

  /** What calibration may do to a block: move a level index by one, never a sign, never the padding. */
  ghost predicate NearestOrAdjacent(p: Payload, nearest: Payload, logical: nat) {
    p.code == nearest.code && p.negative == nearest.negative && |p.indices| == |nearest.indices| == |p.negative| &&
    (forall i :: 0 <= i < |p.indices| ==> p.indices[i] < 8 && nearest.indices[i] < 8) &&
    forall i :: 0 <= i < |p.indices| ==>
      if i < logical then p.indices[i] <= nearest.indices[i] + 1 && nearest.indices[i] <= p.indices[i] + 1
      else p.indices[i] == nearest.indices[i]
  }

  /** Such a block is accepted, as far as the payload goes; the scale must be one of the two legal codes. */
  lemma CalibratedIsAccepted(p: Payload, nearest: Payload, logical: nat)
    requires NearestOrAdjacent(p, nearest, logical) && |p.indices| == BLOCK
    ensures AdjacentCodes(UnpackNibbles(Fp4Bytes(p)), UnpackNibbles(Fp4Bytes(nearest)), logical)
  {
    hide Code4, UnpackNibbles, PackNibbles, AdjacentCode;
    var a, b := Nibbles(p), Nibbles(nearest);
    forall i | 0 <= i < BLOCK
      ensures a[i] < 16 && b[i] < 16 && AdjacentCode(a[i], b[i], i < logical)
    {
      AdjacentNibbles(p.indices[i], nearest.indices[i], p.negative[i], i < logical);
    }
    UnpackPack(a);
    UnpackPack(b);
  }

  lemma AdjacentNibbles(k: nat, n: nat, negative: bool, logical: bool)
    requires k < 8 && n < 8 && if logical then k <= n + 1 && n <= k + 1 else k == n
    ensures Code4(k, negative) < 16 && Code4(n, negative) < 16
    ensures AdjacentCode(Code4(k, negative), Code4(n, negative), logical)
  {
    hide Code4;
    Code4Parts(k, negative);
    Code4Parts(n, negative);
    SignBit(Code4(k, negative), Code4(n, negative));
  }

  lemma SignBit(a: bv8, b: bv8)
    ensures a & 8 == b & 8 <==> (a & 8 != 0 <==> b & 8 != 0)
  {}

  // The reference decoder

  /** The sixteen E2M1 values by nibble. */
  const FP4_VALUES: seq<real> := [
    0.0, 0.5, 1.0, 1.5, 2.0, 3.0, 4.0, 6.0, 0.0, -0.5, -1.0, -1.5, -2.0, -3.0, -4.0, -6.0
  ]

  lemma Code4Means(k: nat, negative: bool)
    requires k < 8
    ensures (Code4(k, negative) as int) == k + if negative then 8 else 0
    ensures FP4_VALUES[k + if negative then 8 else 0] == Signed(negative, E2M1[k])
  {
    if k == 0 {} else if k == 1 {} else if k == 2 {} else if k == 3 {}
    else if k == 4 {} else if k == 5 {} else if k == 6 {} else {}
  }

  /** Unpacking and scaling stored bytes gives the decoded values of the payload. */
  method DecodeFp4Block(packed: seq<bv8>, scale: nat, ghost p: Payload) returns (values: seq<real>)
    requires ValidPayload(E2M1, p) && |p.indices| % 2 == 0 && scale == p.code && packed == Fp4Bytes(p)
    ensures values == Decode(E2M1, p)
  {
    hide Code4, UnpackNibbles, PackNibbles, Scale;
    var codes := UnpackNibbles(packed);
    forall i | 0 <= i < |p.indices|
      ensures Nibbles(p)[i] < 16
    {
      Code4Parts(p.indices[i], p.negative[i]);
    }
    UnpackPack(Nibbles(p));
    values := [];
    for i := 0 to |codes|
      invariant |values| == i
      invariant forall j :: 0 <= j < i ==> values[j] == ValueOf(E2M1, p.indices[j], p.negative[j], p.code)
    {
      Code4Means(p.indices[i], p.negative[i]);
      SignedScale(p.negative[i], E2M1[p.indices[i]], Scale(scale));
      values := values + [FP4_VALUES[codes[i] as int] * Scale(scale)];
    }
  }

  lemma SignedScale(negative: bool, x: real, s: real)
    ensures Signed(negative, x) * s == Signed(negative, x * s)
  {}
}
