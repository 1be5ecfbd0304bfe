/**
 Decoded blocks are fixed points: encoding the values of any stored payload and decoding again gives the
 same values, although the second encoding may choose another scale code.
 */
module BlockProjection {
  import opened PowersOfTwo
  import opened BlockFormats

  lemma TablesAreLevelTables()
    ensures LevelTable(E2M1)
    ensures LevelTable(E3M2)
  {
    StepsUp(E2M1);
    assert forall i :: 0 <= i < 31 ==> E3M2[i] < E3M2[i + 1];
    StepsUp(E3M2);
  }

  lemma {:induction false} StepsUp(levels: seq<real>)
    requires forall i :: 0 <= i < |levels| - 1 ==> levels[i] < levels[i + 1]
    ensures forall i, j :: 0 <= i < j < |levels| ==> levels[i] < levels[j]
  {
    if levels != [] {
      var front := levels[..|levels| - 1];
      StepsUp(front);
      forall i, j | 0 <= i < j < |levels|
        ensures levels[i] < levels[j]
      {
        assert j < |front| ==> front[i] < front[j];
        assert j == |front| && i < j - 1 ==> front[i] < front[j - 1];
      }
    }
  }

  /** Twice a level below half the limit is again a level. */
  ghost predicate Doubling(levels: seq<real>, limit: real) {
    forall i :: 0 <= i < |levels| && 2.0 * levels[i] < limit ==> LevelAt(levels, 2.0 * levels[i])
  }

  ghost predicate LevelAt(levels: seq<real>, m: real) { exists k :: 0 <= k < |levels| && levels[k] == m }

  lemma DoublingE2M1()
    ensures Doubling(E2M1, 8.0)
  {
    var L := E2M1;
    assert L[0] == 2.0 * L[0] && L[2] == 2.0 * L[1] && L[4] == 2.0 * L[2] && L[5] == 2.0 * L[3];
    assert L[6] == 2.0 * L[4] && L[7] == 2.0 * L[5];
  }

  lemma DoublingE3M2()
    ensures Doubling(E3M2, 32.0)
  {
    var L := E3M2;
    forall i | 0 <= i < |L| && 2.0 * L[i] < 32.0
      ensures LevelAt(L, 2.0 * L[i])
    {
      var j := if i < 4 then 2 * i else i + 4;
      if i < 8 { assert L[j] == 2.0 * L[i]; }
      else if i < 16 { assert L[j] == 2.0 * L[i]; }
      else if i < 24 { assert L[j] == 2.0 * L[i]; }
      else if i < 28 { assert L[j] == 2.0 * L[i]; }
    }
  }

  /** A magnitude at a scale that is `d` powers of two lower. */
  function Scaled(x: real, d: nat): real { x * Pow2(d) }

  lemma ScaledSteps(x: real, d: nat)
    requires x >= 0.0
    ensures Scaled(x, d) >= 0.0 && Scaled(x, 0) == x && Scaled(x, d + 1) == 2.0 * Scaled(x, d)
  {
    Pow2Next(d);
    HalveProduct(x, Pow2(d), Pow2(d + 1));
  }

  lemma {:induction false} LevelTimesPower(levels: seq<real>, limit: real, k: nat, d: nat)
    requires LevelTable(levels) && Doubling(levels, limit)
    requires k < |levels| && Scaled(levels[k], d) < limit
    ensures LevelAt(levels, Scaled(levels[k], d))
  {
    hide Scaled;
    LevelNonNegative(levels, k);
    if d == 0 {
      ScaledSteps(levels[k], 0);
    } else {
      hide Doubling, LevelTable;
      ScaledSteps(levels[k], d - 1);
      LevelTimesPower(levels, limit, k, d - 1);
      DoubleLevel(levels, limit, Scaled(levels[k], d - 1));
    }
  }

  lemma DoubleLevel(levels: seq<real>, limit: real, m: real)
    requires Doubling(levels, limit) && LevelAt(levels, m) && 2.0 * m < limit
    ensures LevelAt(levels, 2.0 * m)
  {}

  lemma LevelNonNegative(levels: seq<real>, k: nat)
    requires LevelTable(levels) && k < |levels|
    ensures levels[k] >= 0.0
  {
    assert k == 0 || levels[0] < levels[k];
  }

  lemma HalveProduct(x: real, p: real, q: real)
    requires x >= 0.0 && p > 0.0 && q == 2.0 * p
    ensures x * q == 2.0 * (x * p) && x * p >= 0.0
  {}

  /** Every value of the block is a level at this scale code. */
  ghost predicate Exact(levels: seq<real>, block: seq<real>, code: nat) {
    forall i :: 0 <= i < |block| ==> LevelAt(levels, Abs(block[i]) / Scale(code))
  }

  /** An exact block is decoded to itself, and its error is zero. */
  lemma ExactDecodes(levels: seq<real>, block: seq<real>, code: nat)
    requires LevelTable(levels) && Exact(levels, block, code)
    ensures Decode(levels, EncodeAt(levels, block, code)) == block
    ensures SquaredError(levels, block, code) == 0.0
  {
    hide IndexFor, NegativeFor, ValueOf, LevelAt, Deviation, SquaredError;
    forall i | 0 <= i < |block|
      ensures Decode(levels, EncodeAt(levels, block, code))[i] == block[i]
    {
      ExactValue(levels, block[i], code);
    }
    ExactHasNoError(levels, block, code);
  }

  lemma ExactValue(levels: seq<real>, v: real, code: nat)
    requires LevelTable(levels) && LevelAt(levels, Abs(v) / Scale(code))
    ensures Deviation(levels, v, code) == 0.0
    ensures ValueOf(levels, IndexFor(levels, v, code), NegativeFor(v, code), code) == v
  {
    hide Nearest, Pow2;
    var s := Scale(code);
    var k :| 0 <= k < |levels| && levels[k] == Abs(v) / s;
    QuotientSign(v, s);
    NearestOfLevel(levels, k);
    TimesBack(Abs(v), s);
  }

  lemma TimesBack(a: real, s: real)
    requires s > 0.0
    ensures (a / s) * s == a
  {}

  lemma QuotientSign(v: real, s: real)
    requires s > 0.0
    ensures Abs(v / s) == Abs(v) / s && (v / s < 0.0 <==> v < 0.0)
  {
    assert (v / s) * s == v;
    assert (-v) / s == -(v / s);
  }

  lemma {:induction false} ExactHasNoError(levels: seq<real>, block: seq<real>, code: nat)
    requires LevelTable(levels) && Exact(levels, block, code)
    ensures SquaredError(levels, block, code) == 0.0
  {
    hide Deviation, LevelAt;
    if block != [] {
      var front := block[..|block| - 1];
      ExactValue(levels, block[|block| - 1], code);
      assert forall i :: 0 <= i < |front| ==> front[i] == block[i];
      ExactHasNoError(levels, front, code);
    }
  }

  /**
   Decoded values stay exact at any lower scale code at which the largest of them stays below the limit
   of the table.
   */
  lemma DecodedIsExact(levels: seq<real>, limit: real, p: Payload, code: nat)
    requires LevelTable(levels) && Doubling(levels, limit) && ValidPayload(levels, p)
    requires code <= p.code && MaxAbs(Decode(levels, p)) / Scale(code) < limit
    ensures Exact(levels, Decode(levels, p), code)
  {
    hide MaxAbs, Pow2, LevelAt, ValueOf, Scale;
    var y := Decode(levels, p);
    forall i | 0 <= i < |y|
      ensures LevelAt(levels, Abs(y[i]) / Scale(code))
    {
      QuotientMonotone(Abs(y[i]), MaxAbs(y), Scale(code));
      ValueIsLevel(levels, limit, p.indices[i], p.negative[i], p.code, code);
    }
  }

  lemma ValueIsLevel(levels: seq<real>, limit: real, k: nat, negative: bool, wide: nat, narrow: nat)
    requires LevelTable(levels) && Doubling(levels, limit) && k < |levels| && narrow <= wide
    requires Abs(ValueOf(levels, k, negative, wide)) / Scale(narrow) < limit
    ensures LevelAt(levels, Abs(ValueOf(levels, k, negative, wide)) / Scale(narrow))
  {
    hide ValueOf, Scale, Scaled, Doubling, LevelTable, LevelAt;
    LevelNonNegative(levels, k);
    ValueScaled(levels, k, negative, wide, narrow);
    LevelTimesPower(levels, limit, k, wide - narrow);
  }

  lemma ValueScaled(levels: seq<real>, k: nat, negative: bool, wide: nat, narrow: nat)
    requires k < |levels| && levels[k] >= 0.0 && narrow <= wide
    ensures Abs(ValueOf(levels, k, negative, wide)) / Scale(narrow) == Scaled(levels[k], wide - narrow)
  {
    hide Pow2;
    Pow2Add(narrow - BIAS, wide - narrow);
    SignedAbs(negative, levels[k], Scale(wide));
    Rescale(levels[k], Scale(wide), Scale(narrow), Pow2(wide - narrow));
  }

  lemma SignedAbs(negative: bool, x: real, s: real)
    requires x >= 0.0 && s > 0.0
    ensures Abs(Signed(negative, x * s)) == x * s
  {
    assert x * s >= 0.0;
  }

  lemma Rescale(x: real, wide: real, narrow: real, ratio: real)
    requires narrow > 0.0 && wide == narrow * ratio
    ensures (x * wide) / narrow == x * ratio
  {
    assert x * wide == (x * ratio) * narrow;
  }

  lemma QuotientMonotone(a: real, b: real, s: real)
    requires a <= b && s > 0.0
    ensures a / s <= b / s
  {
    TimesBack(a, s);
    TimesBack(b, s);
    ProductMonotone(b / s, a / s, s);
  }

  lemma ProductMonotone(x: real, y: real, s: real)
    requires s > 0.0
    ensures x < y ==> x * s < y * s
  {}

  /** The scale chosen for decoded values: never above their own, and the values stay below the limit. */
  lemma CoveringCodeFits(maximum: real, code: nat)
    requires 0.0 < maximum <= 6.0 * Scale(code) && MIN_CODE <= code <= MAX_CODE
    ensures CoveringCode(maximum) <= code && maximum / Scale(CoveringCode(maximum)) < 8.0
  {
    hide Pow2, CeilLog2;
    var e, c := CeilLog2(maximum / 6.0), CoveringCode(maximum);
    if e > code - BIAS {
      Pow2Below(code - BIAS, e - 1);
    }
    Pow2Below(e, c - BIAS);
    QuotientBelow(maximum, 6.0, Scale(c));
  }

  lemma FloorCodeFits(maximum: real, code: nat)
    requires 0.0 < maximum <= 28.0 * Scale(code) && MIN_CODE <= code <= MAX_CODE
    ensures FloorCode(maximum) <= code && maximum / Scale(FloorCode(maximum)) < 32.0
  {
    hide Pow2, FloorLog2;
    var e, c := FloorLog2(maximum), FloorCode(maximum);
    Sixteenfold(code - BIAS);
    if e > code - BIAS + 4 {
      Pow2Below(code - BIAS + 5, e);
    }
    Pow2Below(e - 4, c - BIAS);
    Sixteenfold(e - 4);
    QuotientBelow(maximum, 32.0, Scale(c));
  }

  lemma Sixteenfold(e: int)
    ensures Pow2(e + 4) == 16.0 * Pow2(e) && Pow2(e + 5) == 32.0 * Pow2(e)
  {
    hide Pow2;
    Pow2Next(e);
    Pow2Next(e + 1);
    Pow2Next(e + 2);
    Pow2Next(e + 3);
    Pow2Next(e + 4);
  }

  lemma QuotientBelow(m: real, top: real, s: real)
    requires s > 0.0
    ensures m <= top * s ==> m / s <= top
    ensures m < top * s ==> m / s < top
  {
    TimesBack(m, s);
    ProductMonotone(top, m / s, s);
    ProductMonotone(m / s, top, s);
  }

  /** No decoded value exceeds the top level at the scale of the payload. */
  lemma DecodedMaximum(levels: seq<real>, p: Payload)
    requires LevelTable(levels) && ValidPayload(levels, p)
    ensures MaxAbs(Decode(levels, p)) <= levels[|levels| - 1] * Scale(p.code)
  {
    hide MaxAbs, Scale, ValueOf;
    var y := Decode(levels, p);
    TopNonNegative(levels, p.code);
    if MaxAbs(y) > 0.0 {
      var i :| 0 <= i < |y| && Abs(y[i]) == MaxAbs(y);
      ValueBelowTop(levels, p.indices[i], p.negative[i], p.code);
    }
  }

  lemma TopNonNegative(levels: seq<real>, code: nat)
    requires LevelTable(levels)
    ensures 0.0 <= levels[|levels| - 1] * Scale(code)
  {
    LevelNonNegative(levels, |levels| - 1);
    SignedAbs(false, levels[|levels| - 1], Scale(code));
  }

  lemma ValueBelowTop(levels: seq<real>, k: nat, negative: bool, code: nat)
    requires LevelTable(levels) && k < |levels|
    ensures Abs(ValueOf(levels, k, negative, code)) <= levels[|levels| - 1] * Scale(code)
  {
    hide Scale;
    LevelNonNegative(levels, k);
    SignedAbs(negative, levels[k], Scale(code));
    var top := levels[|levels| - 1];
    assert k == |levels| - 1 || levels[k] < top;
    ProductMonotone(levels[k], top, Scale(code));
  }

  lemma ZeroIsExact(levels: seq<real>, block: seq<real>, code: nat)
    requires LevelTable(levels) && MaxAbs(block) == 0.0
    ensures Exact(levels, block, code)
  {
    hide MaxAbs, Scale;
    forall i | 0 <= i < |block|
      ensures LevelAt(levels, Abs(block[i]) / Scale(code))
    {
      assert Abs(block[i]) <= MaxAbs(block);
      assert levels[0] == Abs(block[i]) / Scale(code);
    }
  }

  /** FP4: the values of any stored block, whatever its codes, are exact at the code chosen for them. */
  lemma Fp4DecodedIsExact(p: Payload)
    requires ValidPayload(E2M1, p)
    ensures Exact(E2M1, Decode(E2M1, p), CoveringCode(MaxAbs(Decode(E2M1, p))))
  {
    hide MaxAbs, Scale, CoveringCode, Decode, Exact;
    var y := Decode(E2M1, p);
    TablesAreLevelTables();
    if MaxAbs(y) == 0.0 {
      ZeroIsExact(E2M1, y, CoveringCode(0.0));
    } else {
      DecodedMaximum(E2M1, p);
      CoveringCodeFits(MaxAbs(y), p.code);
      DoublingE2M1();
      DecodedIsExact(E2M1, 8.0, p, CoveringCode(MaxAbs(y)));
    }
  }

  /** Under either scale policy, encoding decoded values loses nothing. */
  lemma Fp4FixedPoint(policy: Policy, p: Payload)
    requires ValidPayload(E2M1, p)
    ensures Decode(E2M1, EncodeFp4(policy, Decode(E2M1, p))) == Decode(E2M1, p)
  {
    hide MaxAbs, Scale, CoveringCode, Decode, Exact, SquaredError, EncodeAt;
    TablesAreLevelTables();
    Fp4DecodedIsExact(p);
    ExactDecodes(E2M1, Decode(E2M1, p), CoveringCode(MaxAbs(Decode(E2M1, p))));
  }

  /** Encode-decode is a projection, for every block of reals. */
  lemma Fp4Projection(first: Policy, second: Policy, block: seq<real>)
    ensures
      var once := Decode(E2M1, EncodeFp4(first, block));
      Decode(E2M1, EncodeFp4(second, once)) == once
  {
    EncodeAtValid(E2M1, block, Fp4Code(first, block));
    Fp4FixedPoint(second, EncodeFp4(first, block));
  }

  lemma Mxfp6FixedPoint(p: Payload)
    requires ValidPayload(E3M2, p)
    ensures Decode(E3M2, EncodeMxfp6(Decode(E3M2, p))) == Decode(E3M2, p)
  {
    hide MaxAbs, Scale, FloorCode, Decode, Exact, SquaredError, EncodeAt;
    var y := Decode(E3M2, p);
    TablesAreLevelTables();
    if MaxAbs(y) == 0.0 {
      ZeroIsExact(E3M2, y, FloorCode(0.0));
    } else {
      DecodedMaximum(E3M2, p);
      FloorCodeFits(MaxAbs(y), p.code);
      DoublingE3M2();
      DecodedIsExact(E3M2, 32.0, p, FloorCode(MaxAbs(y)));
    }
    ExactDecodes(E3M2, y, FloorCode(MaxAbs(y)));
  }

  lemma Mxfp6Projection(block: seq<real>)
    ensures
      var once := Decode(E3M2, EncodeMxfp6(block));
      Decode(E3M2, EncodeMxfp6(once)) == once
  {
    EncodeAtValid(E3M2, block, FloorCode(MaxAbs(block)));
    Mxfp6FixedPoint(EncodeMxfp6(block));
  }
}
