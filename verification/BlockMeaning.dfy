/**
 What the encoders choose, without their formulas: the scale code of a block by bounds on its maximum, the levels as
 nearest values, and the error as a squared distance.
*/
module BlockMeaning {
  import opened PowersOfTwo
  import opened BlockFormats
  import opened BlockProjection
  import opened LinearRows

  // Scale codes

  /** Six units of the scale cover the maximum, and of the next lower scale they do not, as far as the codes go. */
  ghost predicate Covers(maximum: real, code: nat) {
    MIN_CODE <= code <= MAX_CODE && (maximum == 0.0 ==> code == 127) &&
    (maximum > 0.0 ==>
       (code < MAX_CODE ==> maximum <= 6.0 * Scale(code)) && (code > MIN_CODE ==> 6.0 * Scale(code - 1) < maximum))
  }

  lemma CoveringCovers(maximum: real)
    requires maximum >= 0.0
    ensures Covers(maximum, CoveringCode(maximum))
  {
    hide Pow2, CeilLog2;
    if maximum > 0.0 {
      var e, code := CeilLog2(maximum / 6.0), CoveringCode(maximum);
      if code < MAX_CODE {
        Pow2Below(e, code - BIAS);
      }
      if code > MIN_CODE {
        Pow2Below(code - 1 - BIAS, e - 1);
      }
    }
  }

  lemma CoversOnce(maximum: real, c: nat, d: nat)
    requires maximum >= 0.0 && Covers(maximum, c) && Covers(maximum, d)
    ensures c == d
  {
    hide Pow2;
    if c < d {
      Pow2Below(c - BIAS, d - 1 - BIAS);
    } else if d < c {
      Pow2Below(d - BIAS, c - 1 - BIAS);
    }
  }

  /** The maximum lies between sixteen and thirty-two units of the scale, as far as the codes go. */
  ghost predicate Leads(maximum: real, code: nat) {
    MIN_CODE <= code <= MAX_CODE && (maximum == 0.0 ==> code == 127) &&
    (maximum > 0.0 ==>
       (code < MAX_CODE ==> maximum < 32.0 * Scale(code)) && (code > MIN_CODE ==> 16.0 * Scale(code) <= maximum))
  }

  lemma FloorLeads(maximum: real)
    requires maximum >= 0.0
    ensures Leads(maximum, FloorCode(maximum))
  {
    hide Pow2, FloorLog2;
    if maximum > 0.0 {
      var e, code := FloorLog2(maximum), FloorCode(maximum);
      Sixteenfold(code - BIAS);
      Pow2Next(code - BIAS + 4);
      if code < MAX_CODE {
        Pow2Below(e + 1, code - BIAS + 5);
      }
      if code > MIN_CODE {
        Pow2Below(code - BIAS + 4, e);
      }
    }
  }

  /** The lower error of the covering scale and the next lower one; a tie keeps the covering one. */
  ghost predicate LowerError(block: Row, code: nat) {
    exists c: nat :: Covers(MaxAbs(block), c) &&
      if code == c then c > MIN_CODE ==> ErrorAt(block, c) <= ErrorAt(block, c - 1)
      else code == c - 1 && code >= MIN_CODE && ErrorAt(block, code) < ErrorAt(block, c)
  }

  /** The squared distance of a block from what is stored of it at a code. */
  ghost function ErrorAt(block: Row, code: nat): real {
    Norm2(Minus(Decode(E2M1, EncodeAt(E2M1, block, code)), block))
  }

  lemma MinErrorIsLower(block: Row)
    ensures LowerError(block, MinErrorCode(block))
  {
    hide SquaredError, CoveringCode, Covers, Norm2, MaxAbs, EncodeAt, Decode, ErrorAt;
    var c := CoveringCode(MaxAbs(block));
    CoveringCovers(MaxAbs(block));
    ErrorAtIs(block, c);
    if c > MIN_CODE {
      ErrorAtIs(block, c - 1);
    }
    var code := MinErrorCode(block);
    assert if code == c then c > MIN_CODE ==> ErrorAt(block, c) <= ErrorAt(block, c - 1)
           else code == c - 1 && code >= MIN_CODE && ErrorAt(block, code) < ErrorAt(block, c);
  }

  lemma ErrorAtIs(block: Row, code: nat)
    ensures ErrorAt(block, code) == SquaredError(E2M1, block, code)
  {
    ErrorIsDistance(E2M1, block, code);
  }

  lemma {:induction false} ErrorIsDistance(levels: seq<real>, block: Row, code: nat)
    requires |levels| >= 2
    ensures SquaredError(levels, block, code) == Norm2(Minus(Decode(levels, EncodeAt(levels, block, code)), block))
  {
    hide Times, Deviation, IndexFor, NegativeFor, ValueOf;
    if block != [] {
      var n := |block| - 1;
      var d, front := Decode(levels, EncodeAt(levels, block, code)), block[..n];
      ErrorIsDistance(levels, front, code);
      assert Minus(d, block)[..n] == Minus(Decode(levels, EncodeAt(levels, front, code)), front);
      OneError(levels, block[n], code);
    }
  }

  lemma OneError(levels: seq<real>, v: real, code: nat)
    requires |levels| >= 2
    ensures
      var d := ValueOf(levels, IndexFor(levels, v, code), NegativeFor(v, code), code) - v;
      Square(Deviation(levels, v, code)) == Times(d, d)
  {
    hide Nearest, Scale;
    QuotientSign(v, Scale(code));
  }

  // Levels

  /** How far the value of a level is from a value of the same sign. */
  function Off(levels: seq<real>, k: int, v: real, code: nat): real {
    if 0 <= k < |levels| then Abs(levels[k] * Scale(code) - Abs(v)) else 0.0
  }

  /** The level comes nearest to the value; of two that come as near it is the even one. */
  ghost predicate ComesNearest(levels: seq<real>, k: nat, v: real, code: nat) {
    k < |levels| &&
    forall j :: 0 <= j < |levels| && j != k ==>
      Off(levels, k, v, code) < Off(levels, j, v, code) || (Off(levels, k, v, code) == Off(levels, j, v, code) && k % 2 == 0)
  }

  /** Each value of a block is stored with its sign and the level that comes nearest at the code. */
  ghost predicate Represents(levels: seq<real>, block: seq<real>, p: Payload) {
    |p.indices| == |p.negative| == |block| &&
    forall i :: 0 <= i < |block| ==>
      (p.negative[i] <==> block[i] < 0.0) && ComesNearest(levels, p.indices[i], block[i], p.code)
  }

  lemma EncodingRepresents(levels: seq<real>, block: seq<real>, code: nat)
    requires LevelTable(levels)
    ensures Represents(levels, block, EncodeAt(levels, block, code))
  {
    hide Nearest, ComesNearest, Scale, IndexFor;
    forall i | 0 <= i < |block|
      ensures ComesNearest(levels, IndexFor(levels, block[i], code), block[i], code)
      ensures NegativeFor(block[i], code) <==> block[i] < 0.0
    {
      QuotientSign(block[i], Scale(code));
      IndexComesNearest(levels, block[i], code);
    }
  }

  lemma IndexComesNearest(levels: seq<real>, v: real, code: nat)
    requires LevelTable(levels)
    ensures ComesNearest(levels, IndexFor(levels, v, code), v, code)
  {
    assert |levels| >= 2;
    hide Nearest, Scale, LevelTable, Abs;
    var s := Scale(code);
    QuotientSign(v, s);
    NearestIsNearest(levels, Abs(v / s));
    var k := IndexFor(levels, v, code);
    forall j | 0 <= j < |levels| && j != k
      ensures Off(levels, k, v, code) < Off(levels, j, v, code) ||
              (Off(levels, k, v, code) == Off(levels, j, v, code) && k % 2 == 0)
    {
      NoFarther(levels, k, j, v, code);
    }
  }

  lemma NoFarther(levels: seq<real>, k: nat, j: nat, v: real, code: nat)
    requires k < |levels| && j < |levels| && j != k && IsNearest(levels, Abs(v / Scale(code)), k)
    ensures Off(levels, k, v, code) < Off(levels, j, v, code) ||
            (Off(levels, k, v, code) == Off(levels, j, v, code) && k % 2 == 0)
  {
    hide Scale, Abs, Off;
    var m, s := Abs(v / Scale(code)), Scale(code);
    OffIsDistance(levels, k, v, code);
    OffIsDistance(levels, j, v, code);
    var near, far := Distance(levels, m, k), Distance(levels, m, j);
    assert near < far || (near == far && k % 2 == 0);
    ProductMonotone(near, far, s);
  }

  lemma OffIsDistance(levels: seq<real>, j: nat, v: real, code: nat)
    requires j < |levels|
    ensures Off(levels, j, v, code) == Distance(levels, Abs(v / Scale(code)), j) * Scale(code)
  {
    hide Scale, Abs;
    QuotientSign(v, Scale(code));
    Unscaled(levels[j], Abs(v), Scale(code));
  }

  lemma Unscaled(x: real, a: real, s: real)
    requires s > 0.0
    ensures Abs(x * s - a) == Abs(x - a / s) * s
  {
    TimesBack(a, s);
    var d := x - a / s;
    assert x * s - a == d * s;
    assert d >= 0.0 ==> d * s >= 0.0;
    assert d < 0.0 ==> d * s < 0.0;
  }
}
