/**
 The layout of records in a pack: a header, then sections that start on section boundaries, then padding to
 the pack alignment.  Sizes are computed by one set of functions, written by another and checked by a third.
 */
module RecordLayout {
  import opened Options
  import opened Products

  const HEADER: nat := 256
  const SECTION: nat := 256

  /** The next multiple of a positive alignment. */
  function AlignUp(v: nat, a: nat): nat
    requires a > 0
  {
    QuotientNatural(v + a - 1, a);
    Times((v + a - 1) / a, a)
  }

  lemma AlignUpFacts(v: nat, a: nat)
    requires a > 0
    ensures v <= AlignUp(v, a) < v + a && AlignUp(v, a) % a == 0
  {
    var n := v + a - 1;
    var q, r := n / a, n % a;
    QuotientNatural(n, a);
    assert n == q * a + r && 0 <= r < a;
    MultipleRemainder(q, a);
  }

  // Sections one after the other

  datatype Section = Section(offset: nat, bytes: nat)

  /** Where sections of given sizes lie after `cursor` bytes of a record. */
  function Place(cursor: nat, sizes: seq<nat>): (s: seq<Section>)
    ensures |s| == |sizes| && forall i :: 0 <= i < |s| ==> s[i].bytes == sizes[i]
    decreases |sizes|
  {
    if sizes == [] then []
    else
      var at := AlignUp(cursor, SECTION);
      [Section(at, sizes[0])] + Place(at + sizes[0], sizes[1..])
  }

  function EndOf(cursor: nat, sizes: seq<nat>): nat
    decreases |sizes|
  {
    if sizes == [] then cursor else EndOf(AlignUp(cursor, SECTION) + sizes[0], sizes[1..])
  }

  function RecordBytes(sizes: seq<nat>, alignment: nat): nat
    requires alignment > 0
  {
    AlignUp(EndOf(HEADER, sizes), alignment)
  }

  /** Sections are aligned, in order, apart from one another and within the record. */
  predicate Orderly(s: seq<Section>, from: nat, end: nat) {
    s == [] ||
    (s[0].offset % SECTION == 0 && s[0].offset >= from && s[0].offset + s[0].bytes <= end &&
     Orderly(s[1..], s[0].offset + s[0].bytes, end))
  }

  lemma {:induction false} PlacedOrderly(cursor: nat, sizes: seq<nat>, end: nat)
    requires EndOf(cursor, sizes) <= end
    ensures Orderly(Place(cursor, sizes), cursor, end) && cursor <= EndOf(cursor, sizes)
    decreases |sizes|
  {
    if sizes != [] {
      AlignUpFacts(cursor, SECTION);
      var at := AlignUp(cursor, SECTION);
      hide AlignUp;
      PlacedOrderly(at + sizes[0], sizes[1..], end);
      assert Place(cursor, sizes)[1..] == Place(at + sizes[0], sizes[1..]);
    }
  }

  lemma {:induction false} OrderlyMeansDisjoint(s: seq<Section>, from: nat, end: nat, i: nat, j: nat)
    requires Orderly(s, from, end) && i < j < |s|
    ensures s[i].offset + s[i].bytes <= s[j].offset && from <= s[i].offset && s[j].offset + s[j].bytes <= end
    decreases |s|
  {
    if i == 0 {
      OrderlyAt(s[1..], s[0].offset + s[0].bytes, end, j - 1);
    } else {
      OrderlyMeansDisjoint(s[1..], s[0].offset + s[0].bytes, end, i - 1, j - 1);
    }
  }

  lemma {:induction false} OrderlyAt(s: seq<Section>, from: nat, end: nat, j: nat)
    requires Orderly(s, from, end) && j < |s|
    ensures from <= s[j].offset && s[j].offset % SECTION == 0 && s[j].offset + s[j].bytes <= end
    decreases |s|
  {
    if j > 0 {
      OrderlyAt(s[1..], s[0].offset + s[0].bytes, end, j - 1);
    }
  }

  // What the sections of each encoding hold

  datatype Abi = Raw(elementBytes: nat) | Int8 | Fp4 | Relu2 | Nvfp4 | Mxfp6

  const GROUP: nat := 32
  const NATIVE_GROUP: nat := 16

  predicate ExpertLegal(abi: Abi, gated: bool, hidden: nat, intermediate: nat) {
    abi in {Int8, Fp4, Relu2, Nvfp4} && gated == (abi != Relu2) &&
    (abi != Int8 ==> hidden % GROUP == 0 && intermediate % GROUP == 0)
  }

  /** What the validator accepts; for native matrices that is more than is ever written. */
  predicate ExpertReadable(abi: Abi, gated: bool, hidden: nat, intermediate: nat) {
    abi in {Int8, Fp4, Relu2, Nvfp4} && gated == (abi != Relu2) &&
    (abi == Nvfp4 ==> hidden % NATIVE_GROUP == 0 && intermediate % NATIVE_GROUP == 0) &&
    (abi == Fp4 || abi == Relu2 ==> hidden % GROUP == 0 && intermediate % GROUP == 0)
  }

  lemma LegalIsReadable(abi: Abi, gated: bool, hidden: nat, intermediate: nat)
    requires ExpertLegal(abi, gated, hidden, intermediate)
    ensures ExpertReadable(abi, gated, hidden, intermediate)
  {}

  function FirstRows(abi: Abi, intermediate: nat): nat { if abi == Relu2 then intermediate else 2 * intermediate }

  /** Bytes of the gate and up codes, their scales, the down codes and their scales. */
  function ExpertSections(abi: Abi, hidden: nat, intermediate: nat): (s: seq<nat>)
    ensures |s| == 4
  {
    var elements := Times(hidden, intermediate);
    match abi
    case Int8 => [2 * elements, 2 * intermediate * 4, elements, hidden * 4]
    case Nvfp4 =>
      [elements, 2 * (elements / NATIVE_GROUP + 8), elements / 2, elements / NATIVE_GROUP + 8]
    case _ =>
      var first := if abi == Relu2 then elements else 2 * elements;
      [first / 2, first / GROUP, elements / 2, elements / GROUP]
  }

  /** The size function of the writer: a cursor over the four sections. */
  function ExpertRecordSize(hidden: nat, intermediate: nat, alignment: nat, abi: Abi, gated: bool): Option<nat>
    requires alignment > 0
  {
    if !ExpertLegal(abi, gated, hidden, intermediate) then None
    else
      var s := ExpertSections(abi, hidden, intermediate);
      var c0 := HEADER + s[0];
      var c1 := AlignUp(c0, SECTION) + s[1];
      var c2 := AlignUp(c1, SECTION) + s[2];
      var c3 := AlignUp(c2, SECTION) + s[3];
      Some(AlignUp(c3, alignment))
  }

  lemma HeaderAligned()
    ensures AlignUp(HEADER, SECTION) == HEADER
  {
    AlignUpFacts(HEADER, SECTION);
  }

  /** The size function gives the length of the layout. */
  lemma ExpertSizeIsLayout(hidden: nat, intermediate: nat, alignment: nat, abi: Abi, gated: bool)
    requires alignment > 0 && ExpertLegal(abi, gated, hidden, intermediate)
    ensures ExpertRecordSize(hidden, intermediate, alignment, abi, gated) ==
            Some(RecordBytes(ExpertSections(abi, hidden, intermediate), alignment))
  {
    hide AlignUp, ExpertSections, ExpertLegal, EndOf;
    HeaderAligned();
    FourSections(ExpertSections(abi, hidden, intermediate));
  }

  lemma FourSections(s: seq<nat>)
    requires |s| == 4
    ensures EndOf(HEADER, s) ==
            AlignUp(AlignUp(AlignUp(AlignUp(HEADER, SECTION) + s[0], SECTION) + s[1], SECTION) + s[2], SECTION) + s[3]
  {
    hide AlignUp;
    assert s[1..][1..] == s[2..] && s[2..][1..] == s[3..] && s[3..][1..] == [];
    assert EndOf(HEADER, s) == EndOf(AlignUp(HEADER, SECTION) + s[0], s[1..]);
    var c := AlignUp(HEADER, SECTION) + s[0];
    assert EndOf(c, s[1..]) == EndOf(AlignUp(c, SECTION) + s[1], s[2..]);
    var d := AlignUp(c, SECTION) + s[1];
    assert EndOf(d, s[2..]) == EndOf(AlignUp(d, SECTION) + s[2], s[3..]);
  }

  // Dense matrices

  function Product(shape: seq<nat>): nat { if shape == [] then 1 else Times(shape[0], Product(shape[1..])) }

  function Columns(shape: seq<nat>): nat
    requires shape != []
  {
    shape[|shape| - 1]
  }

  /** All dimensions but the last; one row for a vector. */
  function Rows(shape: seq<nat>): nat
    requires shape != []
  {
    Product(shape[..|shape| - 1])
  }

  predicate DenseLegal(abi: Abi, shape: seq<nat>) {
    1 <= |shape| <= 5 &&
    (abi.Raw? ==> abi.elementBytes in {2, 4, 8}) && (abi == Int8 || abi == Nvfp4 ==> |shape| == 2) &&
    (abi == Nvfp4 ==> Columns(shape) % NATIVE_GROUP == 0) && abi != Relu2
  }

  function PaddedElements(shape: seq<nat>): nat
    requires shape != []
  {
    Times(Rows(shape), AlignUp(Columns(shape), GROUP))
  }

  function DataBytes(abi: Abi, shape: seq<nat>): nat
    requires DenseLegal(abi, shape)
  {
    match abi
    case Raw(bytes) => Times(Product(shape), bytes)
    case Int8 => Product(shape)
    case Fp4 => PaddedElements(shape) / 2
    case Mxfp6 => PaddedElements(shape) * 3 / 4
    case Nvfp4 => Times(shape[0], shape[1]) / 2
  }

  /** `sidecar` is the size of the two global scales of a native matrix. */
  function ScaleBytes(abi: Abi, shape: seq<nat>, sidecar: nat): nat
    requires DenseLegal(abi, shape)
  {
    match abi
    case Raw(_) => 0
    case Int8 => shape[0] * 4
    case Fp4 => PaddedElements(shape) / GROUP
    case Mxfp6 => PaddedElements(shape) / GROUP
    case Nvfp4 => Times(shape[0], shape[1]) / NATIVE_GROUP + sidecar
  }

  /** Scales that are empty get no section. */
  function DenseSections(abi: Abi, shape: seq<nat>, sidecar: nat): seq<nat>
    requires DenseLegal(abi, shape)
  {
    var scales := ScaleBytes(abi, shape, sidecar);
    [DataBytes(abi, shape)] + if scales == 0 then [] else [scales]
  }

  /** The size function of the writer: data, then scales if there are any. */
  function DenseRecordSize(abi: Abi, shape: seq<nat>, sidecar: nat, alignment: nat): nat
    requires alignment > 0 && DenseLegal(abi, shape)
  {
    var cursor := HEADER + DataBytes(abi, shape);
    var scales := ScaleBytes(abi, shape, sidecar);
    AlignUp(if scales != 0 then AlignUp(cursor, SECTION) + scales else cursor, alignment)
  }

  lemma DenseSizeIsLayout(abi: Abi, shape: seq<nat>, sidecar: nat, alignment: nat)
    requires alignment > 0 && DenseLegal(abi, shape)
    ensures DenseRecordSize(abi, shape, sidecar, alignment) == RecordBytes(DenseSections(abi, shape, sidecar), alignment)
  {
    HeaderAligned();
    hide AlignUp, DataBytes, ScaleBytes;
    var s := DenseSections(abi, shape, sidecar);
    var cursor := HEADER + s[0];
    assert EndOf(HEADER, s) == EndOf(cursor, s[1..]);
    if |s| == 2 {
      assert s[1..][1..] == [];
      assert EndOf(cursor, s[1..]) == EndOf(AlignUp(cursor, SECTION) + s[1], []);
    } else {
      assert s[1..] == [];
    }
  }
}
