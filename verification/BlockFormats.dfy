/**
 Block-scaled number formats: 32 values share a power-of-two scale, each is stored as a sign and the
 index of a magnitude level.  FP4 (E2M1) and MXFP6 (E3M2) differ in the level table and in how the scale
 of a block is chosen; IEEE rounding of the source values themselves is not modelled.
 */
module BlockFormats {
  import opened PowersOfTwo

  const MIN_CODE := 1
  const MAX_CODE := 254
  const BIAS := 127
  const BLOCK := 32

  const E2M1: seq<real> := [0.0, 0.5, 1.0, 1.5, 2.0, 3.0, 4.0, 6.0]

  const E3M2: seq<real> := [
    0.0, 0.0625, 0.125, 0.1875, 0.25, 0.3125, 0.375, 0.4375,
    0.5, 0.625, 0.75, 0.875, 1.0, 1.25, 1.5, 1.75,
    2.0, 2.5, 3.0, 3.5, 4.0, 5.0, 6.0, 7.0,
    8.0, 10.0, 12.0, 14.0, 16.0, 20.0, 24.0, 28.0]

  function Abs(x: real): (a: real)
    ensures a >= 0.0 && (a == x || a == -x)
  {
    if x < 0.0 then -x else x
  }

  /** A table of magnitudes: from zero upwards, and of even length (so that ties are decided). */
  ghost predicate LevelTable(levels: seq<real>) {
    |levels| >= 2 && |levels| % 2 == 0 && levels[0] == 0.0 &&
    forall i, j :: 0 <= i < j < |levels| ==> levels[i] < levels[j]
  }

  // Rounding to the nearest level

  /** How far level `j` is from `m`; meaningless outside the table. */
  function Distance(levels: seq<real>, m: real, j: int): real {
    if 0 <= j < |levels| then Abs(levels[j] - m) else 0.0
  }

  /** `k` is the index of a level nearest to `m`; where two are equally near it is the even one. */
  ghost predicate IsNearest(levels: seq<real>, m: real, k: int) {
    0 <= k < |levels| &&
    forall j :: 0 <= j < |levels| && j != k ==>
      Distance(levels, m, k) < Distance(levels, m, j) || (Distance(levels, m, k) == Distance(levels, m, j) && k % 2 == 0)
  }

  /** The first level from `u` on that is not below `m`, or the table's length. */
  function Upper(levels: seq<real>, m: real, u: nat): (r: nat)
    requires u <= |levels|
    ensures u <= r <= |levels|
    ensures forall i :: u <= i < r ==> levels[i] < m
    ensures r < |levels| ==> levels[r] >= m
    decreases |levels| - u
  {
    if u < |levels| && levels[u] < m then Upper(levels, m, u + 1) else u
  }

  function Nearest(levels: seq<real>, m: real): (k: nat)
    requires |levels| >= 2
    ensures k < |levels|
  {
    var upper := Upper(levels, m, 1);
    if upper == |levels| then |levels| - 1
    else
      var low, high := m - levels[upper - 1], levels[upper] - m;
      if high < low || (high == low && upper % 2 == 0) then upper else upper - 1
  }

  /** The search is exact: it returns the nearest level, ties to even, and nothing else does. */
  lemma NearestIsNearest(levels: seq<real>, m: real)
    requires LevelTable(levels) && m >= 0.0
    ensures IsNearest(levels, m, Nearest(levels, m))
  {
    hide Upper;
    var u := Upper(levels, m, 1);
    assert levels[u - 1] <= m by { assert u - 1 == 0 || levels[u - 1] < m; }
  }

  lemma NearestUnique(levels: seq<real>, m: real, k: int)
    requires LevelTable(levels) && m >= 0.0 && IsNearest(levels, m, k)
    ensures k == Nearest(levels, m)
  {
    hide Nearest;
    NearestIsNearest(levels, m);
    var n := Nearest(levels, m);
    assert n != k ==> Distance(levels, m, (n + k) / 2) < Distance(levels, m, n);
  }

  lemma NearestOfLevel(levels: seq<real>, k: nat)
    requires LevelTable(levels) && k < |levels|
    ensures Nearest(levels, levels[k]) == k
  {
    hide Nearest;
    assert levels[k] >= 0.0 by { assert k == 0 || levels[0] < levels[k]; }
    NearestUnique(levels, levels[k], k);
  }

  /** The encoder's search loop. */
  method NearestIndex(levels: seq<real>, magnitude: real) returns (k: nat)
    requires |levels| >= 2
    ensures k == Nearest(levels, magnitude)
  {
    var upper := 1;
    while upper < |levels| && levels[upper] < magnitude
      invariant 1 <= upper <= |levels|
      invariant Upper(levels, magnitude, upper) == Upper(levels, magnitude, 1)
    {
      upper := upper + 1;
    }
    if upper == |levels| {
      return |levels| - 1;
    }
    var lower := upper - 1;
    var lowDistance := magnitude - levels[lower];
    var highDistance := levels[upper] - magnitude;
    if highDistance < lowDistance || (highDistance == lowDistance && upper % 2 == 0) {
      return upper;
    }
    return lower;
  }

  // Encoding at a given scale code, and decoding

  datatype Payload = Payload(code: nat, indices: seq<nat>, negative: seq<bool>)

  ghost predicate ValidPayload(levels: seq<real>, p: Payload) {
    MIN_CODE <= p.code <= MAX_CODE && |p.indices| == |p.negative| &&
    forall i :: 0 <= i < |p.indices| ==> p.indices[i] < |levels|
  }

  function Scale(code: int): (s: real)
    ensures s > 0.0
  {
    Pow2(code - BIAS)
  }

  function Signed(negative: bool, x: real): real { if negative then -x else x }

  /** The level index and the sign chosen for one value. */
  function IndexFor(levels: seq<real>, v: real, code: int): (k: nat)
    requires |levels| >= 2
    ensures k < |levels|
  {
    Nearest(levels, Abs(v / Scale(code)))
  }

  predicate NegativeFor(v: real, code: int) { v / Scale(code) < 0.0 }

  function EncodeAt(levels: seq<real>, block: seq<real>, code: nat): Payload
    requires |levels| >= 2
  {
    Payload(code,
            seq(|block|, i requires 0 <= i < |block| => IndexFor(levels, block[i], code)),
            seq(|block|, i requires 0 <= i < |block| => NegativeFor(block[i], code)))
  }

  /** The number that a level index and a sign stand for; zero outside the table. */
  function ValueOf(levels: seq<real>, k: int, negative: bool, code: int): real {
    if 0 <= k < |levels| then Signed(negative, levels[k] * Scale(code)) else 0.0
  }

  ghost function Decode(levels: seq<real>, p: Payload): seq<real>
    requires |p.indices| == |p.negative|
  {
    seq(|p.indices|, i requires 0 <= i < |p.indices| => ValueOf(levels, p.indices[i], p.negative[i], p.code))
  }

  function MaxAbs(block: seq<real>): (m: real)
    ensures m >= 0.0
    ensures forall i :: 0 <= i < |block| ==> Abs(block[i]) <= m
    ensures m > 0.0 ==> exists i :: 0 <= i < |block| && Abs(block[i]) == m
  {
    if block == [] then 0.0
    else
      var m, last := MaxAbs(block[..|block| - 1]), Abs(block[|block| - 1]);
      if last > m then last else m
  }

  function Clamp(e: int): (code: nat)
    ensures MIN_CODE <= code <= MAX_CODE
  {
    if e + BIAS < MIN_CODE then MIN_CODE else if e + BIAS > MAX_CODE then MAX_CODE else e + BIAS
  }

  /** FP4: the smallest power of two whose largest level 6 covers the block maximum. */
  function CoveringCode(maximum: real): (code: nat)
    requires maximum >= 0.0
    ensures MIN_CODE <= code <= MAX_CODE
  {
    if maximum == 0.0 then BIAS else Clamp(CeilLog2(maximum / 6.0))
  }

  /** MXFP6: the power of two of the block maximum, relative to the level 16 = 2^4. */
  function FloorCode(maximum: real): (code: nat)
    requires maximum >= 0.0
    ensures MIN_CODE <= code <= MAX_CODE
  {
    if maximum == 0.0 then BIAS else Clamp(FloorLog2(maximum) - 4)
  }

  /** Squared error of a block at a scale code, in the value domain. */
  function SquaredError(levels: seq<real>, block: seq<real>, code: nat): (e: real)
    requires |levels| >= 2
    ensures e >= 0.0
  {
    if block == [] then 0.0
    else
      SquaredError(levels, block[..|block| - 1], code) + Square(Deviation(levels, block[|block| - 1], code))
  }

  /** The signed rounding error of one magnitude. */
  function Deviation(levels: seq<real>, v: real, code: nat): real
    requires |levels| >= 2
  {
    levels[IndexFor(levels, v, code)] * Scale(code) - Abs(v)
  }

  function Times(a: real, b: real): (r: real)
    ensures a > 0.0 && b > 0.0 ==> r > 0.0
    ensures a < 0.0 && b < 0.0 ==> r > 0.0
    ensures a == 0.0 || b == 0.0 ==> r == 0.0
  {
    a * b
  }

  function Square(d: real): (q: real)
    ensures q >= 0.0 && (d == 0.0 <==> q == 0.0)
  {
    Times(d, d)
  }

  /** FP4 with the MSE policy: the covering code, or the next lower one if its error is strictly less. */
  function MinErrorCode(block: seq<real>): (code: nat)
    ensures MIN_CODE <= code <= MAX_CODE
  {
    var covering := CoveringCode(MaxAbs(block));
    var candidate := if covering - 1 < MIN_CODE then MIN_CODE else covering - 1;
    if candidate != covering && SquaredError(E2M1, block, candidate) < SquaredError(E2M1, block, covering)
    then candidate else covering
  }

  datatype Policy = Covering | MinError

  function Fp4Code(policy: Policy, block: seq<real>): (code: nat)
    ensures MIN_CODE <= code <= MAX_CODE
  {
    if policy == Covering then CoveringCode(MaxAbs(block)) else MinErrorCode(block)
  }

  function EncodeFp4(policy: Policy, block: seq<real>): Payload { EncodeAt(E2M1, block, Fp4Code(policy, block)) }

  function EncodeMxfp6(block: seq<real>): Payload { EncodeAt(E3M2, block, FloorCode(MaxAbs(block))) }

  lemma EncodeAtValid(levels: seq<real>, block: seq<real>, code: nat)
    requires |levels| >= 2 && MIN_CODE <= code <= MAX_CODE
    ensures ValidPayload(levels, EncodeAt(levels, block, code))
    ensures |EncodeAt(levels, block, code).indices| == |block|
  {}
}
