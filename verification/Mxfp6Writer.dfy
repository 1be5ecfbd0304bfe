/** MXFP6 blocks: the writer and the gate's literal oracle, and the vectorised forms of the scale rules. */
module Mxfp6Writer {
  import opened PowersOfTwo
  import opened BlockFormats
  import opened BlockProjection
  import opened BlockOracle
  import opened BlockMeaning

  function Codes6(p: Payload): (codes: seq<bv24>)
    requires |p.indices| == |p.negative| && forall i :: 0 <= i < |p.indices| ==> p.indices[i] < 32
    ensures |codes| == |p.indices|
  {
    seq(|p.indices|, i requires 0 <= i < |p.indices| => Code6(p.indices[i], p.negative[i]))
  }

  function Mxfp6Bytes(p: Payload): seq<bv8>
    requires |p.indices| == |p.negative| && |p.indices| % 4 == 0
    requires forall i :: 0 <= i < |p.indices| ==> p.indices[i] < 32
  {
    PackCodes6(Codes6(p))
  }

  lemma Code6Parts(k: nat, negative: bool)
    requires k < 32
    ensures Code6(k, negative) < 64
    ensures (Code6(k, negative) & 0x1f) as int == k && (Code6(k, negative) & 0x20 != 0 <==> negative)
  {
    Code6Bits(k as bv24);
  }

  lemma Code6Bits(k: bv24)
    requires k < 32
    ensures k | 0x20 < 64 && (k | 0x20) & 0x1f == k && (k | 0x20) & 0x20 != 0
    ensures k | 0 == k && k & 0x1f == k && k & 0x20 == 0
  {}

  /** The sign test of the writer looks at the value, not at the quotient. */
  lemma SignOfQuotient(v: real, code: int)
    ensures NegativeFor(v, code) <==> v < 0.0
  {
    hide Scale;
    QuotientSign(v, Scale(code));
  }

  method WriteMxfp6Block(chunk: seq<real>) returns (payload: seq<bv8>, code: nat)
    requires |chunk| == BLOCK
    ensures code == FloorCode(MaxAbs(chunk))
    ensures payload == Mxfp6Bytes(EncodeMxfp6(chunk))
    ensures Represents(E3M2, chunk, EncodeMxfp6(chunk)) && Leads(MaxAbs(chunk), code)
  {
    Mxfp6Means(chunk);
    hide Represents, Leads;
    hide Nearest, Code6, FloorCode, NegativeFor, WordByte, Word6;
    code := FloorCode(MaxAbs(chunk));
    var codes := [];
    for i := 0 to |chunk|
      invariant |codes| == i
      invariant forall j :: 0 <= j < i ==>
        codes[j] == Code6(IndexFor(E3M2, chunk[j], code), NegativeFor(chunk[j], code))
    {
      var k := NearestIndex(E3M2, Abs(chunk[i] / Scale(code)));
      SignOfQuotient(chunk[i], code);
      codes := codes + [Code6(k, chunk[i] < 0.0)];
    }
    assert codes == Codes6(EncodeMxfp6(chunk));
    payload := PackWords(codes);
  }

  lemma Mxfp6Means(chunk: seq<real>)
    ensures Represents(E3M2, chunk, EncodeMxfp6(chunk)) && Leads(MaxAbs(chunk), FloorCode(MaxAbs(chunk)))
  {
    hide Represents, Leads, MaxAbs, FloorCode;
    TablesAreLevelTables();
    EncodingRepresents(E3M2, chunk, FloorCode(MaxAbs(chunk)));
    FloorLeads(MaxAbs(chunk));
  }

  method PackWords(codes: seq<bv24>) returns (payload: seq<bv8>)
    requires |codes| % 4 == 0
    ensures payload == PackCodes6(codes)
  {
    hide WordByte, Word6;
    var packed := new bv8[|codes| / 4 * 3];
    for group := 0 to |codes| / 4
      invariant forall i :: 0 <= i < 3 * group ==> packed[i] == PackCodes6(codes)[i]
    {
      var word := Word6(codes[4 * group], codes[4 * group + 1], codes[4 * group + 2], codes[4 * group + 3]);
      packed[3 * group] := WordByte(word, 0);
      packed[3 * group + 1] := WordByte(word, 1);
      packed[3 * group + 2] := WordByte(word, 2);
      assert 3 * group / 3 == group && (3 * group + 1) / 3 == group && (3 * group + 2) / 3 == group;
    }
    payload := packed[..];
  }

  /** The gate's oracle also decodes what it encodes. */
  method OracleMxfp6Block(values: seq<real>) returns (payload: seq<bv8>, code: nat, decoded: seq<real>)
    requires |values| == BLOCK
    ensures code == FloorCode(MaxAbs(values))
    ensures payload == Mxfp6Bytes(EncodeMxfp6(values))
    ensures decoded == Decode(E3M2, EncodeMxfp6(values))
  {
    hide Nearest, Code6, FloorCode, NegativeFor, WordByte, Word6;
    code := FloorCode(MaxAbs(values));
    var codes: seq<bv24> := [];
    decoded := [];
    for i := 0 to |values|
      invariant |codes| == |decoded| == i
      invariant forall j :: 0 <= j < i ==>
        codes[j] == Code6(IndexFor(E3M2, values[j], code), NegativeFor(values[j], code))
      invariant forall j :: 0 <= j < i ==>
        decoded[j] == ValueOf(E3M2, IndexFor(E3M2, values[j], code), NegativeFor(values[j], code), code)
    {
      var best := OracleMxfp6Index(Abs(values[i] / Scale(code)));
      SignOfQuotient(values[i], code);
      codes := codes + [Code6(best, values[i] < 0.0)];
      decoded := decoded + [OracleValue(best, values[i] < 0.0, code)];
    }
    assert codes == Codes6(EncodeMxfp6(values));
    payload := PackWords(codes);
  }

  function OracleValue(best: nat, negative: bool, code: nat): (x: real)
    requires best < 32
    ensures x == ValueOf(E3M2, best, negative, code)
  {
    SignedProduct(negative, E3M2[best], Scale(code));
    (if negative then -1.0 else 1.0) * E3M2[best] * Scale(code)
  }

  lemma SignedProduct(negative: bool, x: real, s: real)
    ensures (if negative then -1.0 else 1.0) * x * s == Signed(negative, x * s)
  {}

  // The runtime's decoder, which reads the stored bytes

  /** Code `k` of four in a word. */
  function ItemOf(word: bv24, k: int): bv24 {
    if k == 0 then word & 0x3f else if k == 1 then (word >> 6) & 0x3f else if k == 2 then (word >> 12) & 0x3f
    else (word >> 18) & 0x3f
  }

  function JoinBytes(a: bv8, b: bv8, c: bv8): bv24 { (a as bv24) | ((b as bv24) << 8) | ((c as bv24) << 16) }

  function RuntimeCode(packed: seq<bv8>, column: nat): bv24
    requires column / 4 * 3 + 2 < |packed|
  {
    var at := column / 4 * 3;
    ItemOf(JoinBytes(packed[at], packed[at + 1], packed[at + 2]), column % 4)
  }

  function PowerOfTwo(e: nat): nat { if e == 0 then 1 else 2 * PowerOfTwo(e - 1) }

  /** Sixteen times a magnitude, from its exponent and mantissa bits: the runtime has no table of levels. */
  function MagnitudeTimes16(k: nat): nat {
    if k / 4 == 0 then k % 4 else (4 + k % 4) * PowerOfTwo(k / 4 - 1)
  }

  function CodeTimes16(code: bv24): int {
    var magnitude := MagnitudeTimes16((code & 0x1f) as int);
    if code & 0x20 != 0 then 0 - magnitude else magnitude
  }

  /** The exponent and mantissa bits mean the levels of the encoder's table. */
  lemma MagnitudeIsLevel(k: nat)
    requires k < 32
    ensures MagnitudeTimes16(k) as real == 16.0 * E3M2[k]
  {
    Powers();
    hide PowerOfTwo;
    if k < 8 {
      if k == 0 {} else if k == 1 {} else if k == 2 {} else if k == 3 {} else if k == 4 {} else if k == 5 {} else if k == 6 {} else {}
    } else if k < 16 {
      if k == 8 {} else if k == 9 {} else if k == 10 {} else if k == 11 {} else if k == 12 {} else if k == 13 {} else if k == 14 {} else {}
    } else if k < 24 {
      if k == 16 {} else if k == 17 {} else if k == 18 {} else if k == 19 {} else if k == 20 {} else if k == 21 {} else if k == 22 {} else {}
    } else {
      if k == 24 {} else if k == 25 {} else if k == 26 {} else if k == 27 {} else if k == 28 {} else if k == 29 {} else if k == 30 {} else {}
    }
  }

  lemma Powers()
    ensures PowerOfTwo(0) == 1 && PowerOfTwo(1) == 2 && PowerOfTwo(2) == 4 && PowerOfTwo(3) == 8
    ensures PowerOfTwo(4) == 16 && PowerOfTwo(5) == 32 && PowerOfTwo(6) == 64
  {}

  lemma CodeMeans(k: nat, negative: bool)
    requires k < 32
    ensures CodeTimes16(Code6(k, negative)) as real == 16.0 * Signed(negative, E3M2[k])
  {
    hide MagnitudeTimes16, Code6;
    Code6Parts(k, negative);
    MagnitudeIsLevel(k);
  }

  lemma ReadBack(a: bv24, b: bv24, c: bv24, d: bv24, k: nat)
    requires a < 64 && b < 64 && c < 64 && d < 64 && k < 4
    ensures
      var word := Word6(a, b, c, d);
      ItemOf(JoinBytes(WordByte(word, 0), WordByte(word, 1), WordByte(word, 2)), k) ==
      if k == 0 then a else if k == 1 then b else if k == 2 then c else d
  {
    hide WordByte, Word6;
    var word := Word6(a, b, c, d);
    WordBytesRead(word);
    Word6Reads(a, b, c, d);
  }

  /** Reading a packed code gives it back. */
  lemma RuntimeReads(codes: seq<bv24>, i: nat)
    requires |codes| % 4 == 0 && i < |codes| && forall j :: 0 <= j < |codes| ==> codes[j] < 64
    ensures i / 4 * 3 + 2 < |PackCodes6(codes)| && RuntimeCode(PackCodes6(codes), i) == codes[i]
  {
    hide WordByte, Word6, ItemOf, JoinBytes;
    var at, g, packed := i / 4 * 3, i / 4 * 4, PackCodes6(codes);
    ReadBack(codes[g], codes[g + 1], codes[g + 2], codes[g + 3], i % 4);
    assert at / 3 == (at + 1) / 3 == (at + 2) / 3 == i / 4 && at % 3 == 0 && (at + 1) % 3 == 1 && (at + 2) % 3 == 2;
    assert g + i % 4 == i;
  }

  /** One value, as the runtime computes it from its code. */
  lemma ReadsValue(p: Payload, i: nat)
    requires ValidPayload(E3M2, p) && |p.indices| % 4 == 0 && i < |p.indices|
    ensures |Mxfp6Bytes(p)| / 3 * 4 == |p.indices| && i / 4 * 3 + 2 < |Mxfp6Bytes(p)|
    ensures CodeTimes16(RuntimeCode(Mxfp6Bytes(p), i)) as real * (1.0 / 16.0) * Scale(p.code) ==
            ValueOf(E3M2, p.indices[i], p.negative[i], p.code)
  {
    hide Code6, PackCodes6, Scale, RuntimeCode, CodeTimes16;
    var codes := Codes6(p);
    forall j | 0 <= j < |codes|
      ensures codes[j] < 64
    {
      Code6Parts(p.indices[j], p.negative[j]);
    }
    RuntimeReads(codes, i);
    CodeMeans(p.indices[i], p.negative[i]);
    SixteenthScaled(CodeTimes16(codes[i]), p.negative[i], E3M2[p.indices[i]], Scale(p.code));
  }

  /** The runtime reads from stored bytes the values of the block. */
  method DecodeMxfp6Block(packed: seq<bv8>, scale: nat, ghost p: Payload) returns (values: seq<real>)
    requires ValidPayload(E3M2, p) && |p.indices| % 4 == 0 && scale == p.code && packed == Mxfp6Bytes(p)
    ensures values == Decode(E3M2, p)
  {
    hide Scale, RuntimeCode, CodeTimes16, Mxfp6Bytes, ValueOf, ValidPayload;
    values := [];
    BlockBytes(p);
    for i := 0 to |packed| / 3 * 4
      invariant |values| == i && |packed| / 3 * 4 == |p.indices| == |p.negative| && ValidPayload(E3M2, p)
      invariant forall j :: 0 <= j < i ==> values[j] == ValueOf(E3M2, p.indices[j], p.negative[j], p.code)
    {
      ReadsValue(p, i);
      values := values + [CodeTimes16(RuntimeCode(packed, i)) as real * (1.0 / 16.0) * Scale(scale)];
    }
  }

  lemma BlockBytes(p: Payload)
    requires ValidPayload(E3M2, p) && |p.indices| % 4 == 0
    ensures |Mxfp6Bytes(p)| / 3 * 4 == |p.indices| == |p.negative|
  {
    hide WordByte, Word6;
  }

  lemma SixteenthScaled(integer: int, negative: bool, x: real, s: real)
    requires integer as real == 16.0 * Signed(negative, x)
    ensures integer as real * (1.0 / 16.0) * s == Signed(negative, x * s)
  {
    assert integer as real * (1.0 / 16.0) == Signed(negative, x);
    assert (0.0 - x) * s == 0.0 - x * s;
  }

  // Vectorised scale rules

  /** `frexp` gives a mantissa in [1/2, 1): the two exponent formulas are the rounded logarithms. */
  lemma FrexpIsLogarithm(x: real, mantissa: real, exponent: int)
    requires x > 0.0 && 0.5 <= mantissa < 1.0 && x == Times(mantissa, Pow2(exponent))
    ensures (if mantissa == 0.5 then exponent - 1 else exponent) == CeilLog2(x)
    ensures exponent - 1 == FloorLog2(x)
  {
    hide Pow2, CeilLog2, FloorLog2, Times;
    var p, half := Pow2(exponent), Pow2(exponent - 1);
    Pow2Next(exponent - 1);
    Pow2Next(exponent - 2);
    MantissaBounds(mantissa, p);
    assert half <= x < p && (mantissa > 0.5 ==> half < x);
    if mantissa == 0.5 {
      CeilLog2Unique(x, exponent - 1);
    } else {
      CeilLog2Unique(x, exponent);
    }
    FloorLog2Unique(x, exponent - 1);
  }

  lemma MantissaBounds(m: real, p: real)
    requires 0.5 <= m < 1.0 && p > 0.0
    ensures p / 2.0 <= Times(m, p) < p && (m > 0.5 ==> Times(m, p) > p / 2.0) && (m == 0.5 ==> Times(m, p) == p / 2.0)
  {
    hide Times;
    TimesMonotone(0.5, m, p);
    TimesMonotone(m, 1.0, p);
    TimesConstants(p);
  }

  lemma TimesMonotone(x: real, y: real, s: real)
    requires s > 0.0
    ensures x < y ==> Times(x, s) < Times(y, s)
  {
    ProductMonotone(x, y, s);
  }

  lemma TimesConstants(p: real)
    ensures Times(0.5, p) == p / 2.0 && Times(1.0, p) == p
  {}

  /** Squared error in units of the covering scale, the indices being those of `factor` times the magnitude. */
  function UnitError(block: seq<real>, covering: nat, factor: real): real
    requires factor > 0.0
  {
    if block == [] then 0.0
    else
      UnitError(block[..|block| - 1], covering, factor) + Square(UnitDeviation(E2M1, block[|block| - 1], covering, factor))
  }

  function UnitDeviation(levels: seq<real>, v: real, covering: nat, factor: real): real
    requires factor > 0.0 && |levels| >= 2
  {
    var magnitude := Abs(v / Scale(covering));
    levels[Nearest(levels, factor * magnitude)] / factor - magnitude
  }

  /** The errors compared by the vectorised path are the block errors over the squared covering scale. */
  lemma {:induction false} UnitErrorAgrees(block: seq<real>, covering: nat, candidate: nat)
    requires candidate == covering || candidate + 1 == covering
    ensures
      var factor := if candidate == covering then 1.0 else 2.0;
      SquaredError(E2M1, block, candidate) == Times(UnitError(block, covering, factor), Square(Scale(covering)))
  {
    hide Scale, Nearest, Deviation, Square, UnitDeviation, Times;
    var factor := if candidate == covering then 1.0 else 2.0;
    if block != [] {
      var front, v := block[..|block| - 1], block[|block| - 1];
      UnitErrorAgrees(front, covering, candidate);
      DeviationInUnits(E2M1, v, covering, candidate);
      SquareOfProduct(UnitDeviation(E2M1, v, covering, factor), Scale(covering));
      Distribute(UnitError(front, covering, factor), Square(UnitDeviation(E2M1, v, covering, factor)), Square(Scale(covering)));
    }
  }

  lemma DeviationInUnits(levels: seq<real>, v: real, covering: nat, candidate: nat)
    requires |levels| >= 2
    requires candidate == covering || candidate + 1 == covering
    ensures
      var factor := if candidate == covering then 1.0 else 2.0;
      Deviation(levels, v, candidate) == Times(UnitDeviation(levels, v, covering, factor), Scale(covering))
  {
    hide Nearest, Scale, Times;
    var factor := if candidate == covering then 1.0 else 2.0;
    var s, t := Scale(covering), Scale(candidate);
    ScaleRatio(covering, candidate);
    QuotientSign(v, s);
    QuotientSign(v, t);
    FactorOut(Abs(v), s, t, factor);
    LevelInUnits(levels[IndexFor(levels, v, candidate)], factor, t, s, Abs(v));
  }

  lemma ScaleRatio(covering: nat, candidate: nat)
    requires candidate == covering || candidate + 1 == covering
    ensures Scale(covering) == (if candidate == covering then 1.0 else 2.0) * Scale(candidate)
  {
    hide Pow2;
    Pow2Next(candidate - BIAS);
  }

  lemma FactorOut(a: real, s: real, t: real, factor: real)
    requires t > 0.0 && factor > 0.0 && s == factor * t
    ensures a / t == factor * (a / s)
  {
    assert s > 0.0;
    TimesBack(a, s);
    assert a == (factor * (a / s)) * t;
  }

  lemma LevelInUnits(l: real, factor: real, t: real, s: real, a: real)
    requires s > 0.0 && (factor == 1.0 || factor == 2.0) && s == factor * t
    ensures l * t - a == Times(l / factor - a / s, s)
  {
    TimesBack(a, s);
    Minus(l / factor, a / s, s);
    if factor == 2.0 {
      assert (l / 2.0) * (2.0 * t) == l * t;
    }
  }

  lemma Minus(x: real, y: real, s: real)
    ensures Times(x - y, s) == x * s - y * s
  {}

  lemma SquareOfProduct(d: real, s: real)
    ensures Square(Times(d, s)) == Times(Square(d), Square(s))
  {
    assert (d * s) * (d * s) == d * (s * (d * s));
    assert s * (d * s) == d * (s * s);
    assert d * (d * (s * s)) == (d * d) * (s * s);
  }

  lemma Distribute(a: real, b: real, c: real)
    ensures Times(a + b, c) == Times(a, c) + Times(b, c)
  {}

  /** So the vectorised path keeps exactly the blocks that the scalar rule keeps. */
  lemma VectorisedChoiceAgrees(block: seq<real>)
    ensures
      var covering := CoveringCode(MaxAbs(block));
      var candidate := if covering - 1 < MIN_CODE then MIN_CODE else covering - 1;
      MinErrorCode(block) ==
      if candidate != covering && UnitError(block, covering, 2.0) < UnitError(block, covering, 1.0)
      then candidate else covering
  {
    hide CoveringCode, SquaredError, UnitError, MaxAbs, Scale, Times, Square;
    var covering := CoveringCode(MaxAbs(block));
    if covering > MIN_CODE {
      UnitErrorAgrees(block, covering, covering);
      UnitErrorAgrees(block, covering, covering - 1);
      Cancel(UnitError(block, covering, 2.0), UnitError(block, covering, 1.0), Square(Scale(covering)));
    }
  }

  lemma Cancel(a: real, b: real, c: real)
    requires c > 0.0
    ensures Times(a, c) < Times(b, c) <==> a < b
  {
    TimesMonotone(a, b, c);
    TimesMonotone(b, a, c);
  }
}
