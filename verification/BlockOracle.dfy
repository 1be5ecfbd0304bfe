/**
 The quality gate's independent encoders: a table of midpoints for FP4 and a search for the least key for
 MXFP6.  They give the same bytes and scale codes as the writer's encoders.
 */
module BlockOracle {
  import opened PowersOfTwo
  import opened BlockFormats
  import opened BlockProjection

  // Level indices

  const BOUNDARIES: seq<real> := [0.25, 0.75, 1.25, 1.75, 2.5, 3.5, 5.0]

  /** The gate's FP4 index: the first boundary the magnitude does not pass. */
  method OracleFp4Index(magnitude: real) returns (k: nat)
    requires magnitude >= 0.0
    ensures k == Nearest(E2M1, magnitude)
  {
    TablesAreLevelTables();
    for index := 0 to |BOUNDARIES|
      invariant index > 0 ==> magnitude > BOUNDARIES[index - 1] || (magnitude == BOUNDARIES[index - 1] && index % 2 == 0)
    {
      var boundary := BOUNDARIES[index];
      if magnitude < boundary || (magnitude == boundary && index % 2 == 0) {
        BetweenBoundaries(magnitude, index);
        return index;
      }
    }
    BetweenBoundaries(magnitude, 7);
    return 7;
  }

  lemma BetweenBoundaries(m: real, k: nat)
    requires m >= 0.0 && k <= 7
    requires k > 0 ==> m > BOUNDARIES[k - 1] || (m == BOUNDARIES[k - 1] && k % 2 == 0)
    requires k < 7 ==> m < BOUNDARIES[k] || (m == BOUNDARIES[k] && k % 2 == 0)
    ensures k == Nearest(E2M1, m)
  {
    hide Nearest;
    TablesAreLevelTables();
    assert forall i :: 0 <= i < 7 ==> BOUNDARIES[i] == (E2M1[i] + E2M1[i + 1]) / 2.0;
    NearestByMidpoints(E2M1, m, k);
  }

  /** An index is nearest when the magnitude lies between the midpoints to its neighbours. */
  lemma NearestByMidpoints(levels: seq<real>, m: real, k: nat)
    requires LevelTable(levels) && m >= 0.0 && k < |levels|
    requires k > 0 ==>
      var mid := (levels[k - 1] + levels[k]) / 2.0;
      m > mid || (m == mid && k % 2 == 0)
    requires k < |levels| - 1 ==>
      var mid := (levels[k] + levels[k + 1]) / 2.0;
      m < mid || (m == mid && k % 2 == 0)
    ensures k == Nearest(levels, m)
  {
    hide Nearest;
    forall j | 0 <= j < |levels| && j != k
      ensures Distance(levels, m, k) < Distance(levels, m, j) ||
              (Distance(levels, m, k) == Distance(levels, m, j) && k % 2 == 0)
    {
      if j < k {
        assert levels[j] <= levels[k - 1];
      } else {
        assert levels[j] >= levels[k + 1];
      }
    }
    NearestUnique(levels, m, k);
  }

  /** The gate's MXFP6 index: the least (distance, lowest code bit) over all 32 codes. */
  method OracleMxfp6Index(magnitude: real) returns (best: nat)
    requires magnitude >= 0.0
    ensures best == Nearest(E3M2, magnitude)
  {
    hide Nearest;
    TablesAreLevelTables();
    NearestHasLeastKey(E3M2, magnitude);
    ghost var n := Nearest(E3M2, magnitude);
    best := 0;
    for code := 1 to 32
      invariant best < code
      invariant forall j :: 0 <= j < code && j != best ==> !KeyLess(E3M2, magnitude, j, best)
    {
      ghost var before := best;
      if KeyLess(E3M2, magnitude, code, best) {
        best := code;
      }
      forall j | 0 <= j <= code && j != best
        ensures !KeyLess(E3M2, magnitude, j, best)
      {
        assert j != code && j != before ==> !KeyLess(E3M2, magnitude, j, before);
      }
    }
    assert |E3M2| == 32;
    assert best != n ==> KeyLess(E3M2, magnitude, n, best);
  }

  /** Order of the keys `(|level - m|, code & 1)`. */
  predicate KeyLess(levels: seq<real>, m: real, j: int, k: int) {
    Distance(levels, m, j) < Distance(levels, m, k) ||
    (Distance(levels, m, j) == Distance(levels, m, k) && j % 2 < k % 2)
  }

  lemma NearestHasLeastKey(levels: seq<real>, m: real)
    requires LevelTable(levels) && m >= 0.0
    ensures forall j :: 0 <= j < |levels| && j != Nearest(levels, m) ==> KeyLess(levels, m, Nearest(levels, m), j)
  {
    hide Nearest;
    NearestIsNearest(levels, m);
    var n := Nearest(levels, m);
    forall j | 0 <= j < |levels| && j != n
      ensures KeyLess(levels, m, n, j)
    {
      if Distance(levels, m, n) == Distance(levels, m, j) && j % 2 == 0 {
        assert IsNearest(levels, m, j);
        NearestUnique(levels, m, j);
        assert false;
      }
    }
  }

  // Bytes

  /** A nibble or six-bit code: level index with the sign bit above it. */
  function Code4(k: nat, negative: bool): bv8
    requires k < 8
  {
    (k as bv8) | (if negative then 8 else 0)
  }

  function Code6(k: nat, negative: bool): bv24
    requires k < 32
  {
    (k as bv24) | (if negative then 0x20 else 0)
  }

  lemma Code4Parts(k: nat, negative: bool)
    requires k < 8
    ensures (Code4(k, negative) & 7) as int == k && (Code4(k, negative) & 8 != 0 <==> negative) && Code4(k, negative) < 16
  {
    if k == 0 {} else if k == 1 {} else if k == 2 {} else if k == 3 {}
    else if k == 4 {} else if k == 5 {} else if k == 6 {} else {}
  }

  /** The payload of one FP4 block: two nibbles a byte, the first one low. */
  function Nibbles(p: Payload): (codes: seq<bv8>)
    requires |p.indices| == |p.negative| && forall i :: 0 <= i < |p.indices| ==> p.indices[i] < 8
    ensures |codes| == |p.indices|
  {
    seq(|p.indices|, i requires 0 <= i < |p.indices| => Code4(p.indices[i], p.negative[i]))
  }

  function JoinNibbles(low: bv8, high: bv8): bv8 { low | (high << 4) }

  function LowNibble(b: bv8): bv8 { b & 0x0f }

  function HighNibble(b: bv8): bv8 { b >> 4 }

  function PackNibbles(codes: seq<bv8>): (packed: seq<bv8>)
    ensures |packed| == |codes| / 2
  {
    seq(|codes| / 2, i requires 0 <= i < |codes| / 2 => JoinNibbles(codes[2 * i], codes[2 * i + 1]))
  }

  function UnpackNibbles(packed: seq<bv8>): (codes: seq<bv8>)
    ensures |codes| == 2 * |packed|
  {
    seq(2 * |packed|, i requires 0 <= i < 2 * |packed| =>
      if i % 2 == 0 then LowNibble(packed[i / 2]) else HighNibble(packed[i / 2]))
  }

  lemma NibblePair(low: bv8, high: bv8)
    requires low < 16 && high < 16
    ensures LowNibble(JoinNibbles(low, high)) == low && HighNibble(JoinNibbles(low, high)) == high
  {}

  lemma UnpackPack(codes: seq<bv8>)
    requires |codes| % 2 == 0 && forall i :: 0 <= i < |codes| ==> codes[i] < 16
    ensures UnpackNibbles(PackNibbles(codes)) == codes
  {
    forall i | 0 <= i < |codes|
      ensures UnpackNibbles(PackNibbles(codes))[i] == codes[i]
    {
      NibblePair(codes[i / 2 * 2], codes[i / 2 * 2 + 1]);
    }
  }

  /** Four six-bit codes make a little-endian 24-bit word. */
  function Word6(a: bv24, b: bv24, c: bv24, d: bv24): bv24 { a | (b << 6) | (c << 12) | (d << 18) }

  /** Byte `k` of a word, lowest first. */
  function WordByte(word: bv24, k: int): bv8 {
    if k == 0 then (word & 0xff) as bv8 else if k == 1 then ((word >> 8) & 0xff) as bv8 else ((word >> 16) & 0xff) as bv8
  }

  function PackCodes6(codes: seq<bv24>): (packed: seq<bv8>)
    requires |codes| % 4 == 0
    ensures |packed| == |codes| / 4 * 3
  {
    seq(|codes| / 4 * 3, i requires 0 <= i < |codes| / 4 * 3 =>
      var g := i / 3 * 4;
      WordByte(Word6(codes[g], codes[g + 1], codes[g + 2], codes[g + 3]), i % 3))
  }

  /** The writer's `|` and the gate's sum agree on six-bit codes. */
  lemma Word6IsSum(a: bv24, b: bv24, c: bv24, d: bv24)
    requires a < 64 && b < 64 && c < 64 && d < 64
    ensures Word6(a, b, c, d) == a + (b << 6) + (c << 12) + (d << 18)
  {
    TwoCodes(a, b);
    ThreeCodes(a | (b << 6), c);
    FourCodes(a | (b << 6) | (c << 12), d);
  }

  lemma TwoCodes(a: bv24, b: bv24)
    requires a < 64 && b < 64
    ensures a | (b << 6) == a + (b << 6) && a | (b << 6) < 4096
  {}

  lemma ThreeCodes(w: bv24, c: bv24)
    requires w < 4096 && c < 64
    ensures w | (c << 12) == w + (c << 12) && w | (c << 12) < 262144
  {}

  lemma FourCodes(w: bv24, d: bv24)
    requires w < 262144 && d < 64
    ensures w | (d << 18) == w + (d << 18)
  {}

  lemma Word6Reads(a: bv24, b: bv24, c: bv24, d: bv24)
    requires a < 64 && b < 64 && c < 64 && d < 64
    ensures
      var word := Word6(a, b, c, d);
      word & 0x3f == a && (word >> 6) & 0x3f == b && (word >> 12) & 0x3f == c && (word >> 18) & 0x3f == d
  {}

  lemma WordBytesRead(word: bv24)
    ensures word == (WordByte(word, 0) as bv24) | ((WordByte(word, 1) as bv24) << 8) | ((WordByte(word, 2) as bv24) << 16)
  {}
}
