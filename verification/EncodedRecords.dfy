/**
 From matrices to records: what the block encoders produce has the sizes that the record layout calls for and
 scales that the validator accepts, so every quantized matrix that is written is valid.
 */
module EncodedRecords {
  import opened Options
  import opened Products
  import opened RecordLayout
  import opened RecordFiles
  import Blocks = BlockFormats
  import BlockMeaning
  import BlockWriter
  import Mxfp6Writer
  import LinearRows
  import ActivationSelection
  import CalibratedRows

  type Row = seq<real>

  datatype Coding = Fp4Coding(optimizeMse: bool) | Mxfp6Coding

  function AbiOf(coding: Coding): Abi { if coding.Fp4Coding? then Fp4 else Mxfp6 }

  function BlockSize(coding: Coding): nat { if coding.Fp4Coding? then 16 else 24 }

  // What is stored for a block, a row and a matrix

  function Cells(bytes: seq<bv8>): (c: seq<Cell>)
    ensures |c| == |bytes|
  {
    seq(|bytes|, i requires 0 <= i < |bytes| => Byte(bytes[i] as nat))
  }

  function BlockCode(coding: Coding, block: Row): (code: nat)
    ensures 1 <= code <= 254
  {
    match coding
    case Fp4Coding(mse) => Blocks.Fp4Code(BlockWriter.PolicyOf(mse), block)
    case Mxfp6Coding => Blocks.FloorCode(Blocks.MaxAbs(block))
  }

  function BlockCells(coding: Coding, block: Row): (c: seq<Cell>)
    requires |block| == GROUP
    ensures |c| == BlockSize(coding)
  {
    match coding
    case Fp4Coding(mse) => Cells(BlockWriter.Fp4Bytes(Blocks.EncodeFp4(BlockWriter.PolicyOf(mse), block)))
    case Mxfp6Coding => Cells(Mxfp6Writer.Mxfp6Bytes(Blocks.EncodeMxfp6(block)))
  }

  predicate InBlocks(blocks: seq<Row>) { forall i :: 0 <= i < |blocks| ==> |blocks[i]| == GROUP }

  function CodesOf(coding: Coding, blocks: seq<Row>): (c: seq<Cell>)
    requires InBlocks(blocks)
    ensures |c| == if coding.Fp4Coding? then 16 * |blocks| else 24 * |blocks|
  {
    hide BlockCells;
    if blocks == [] then []
    else
      var n := |blocks| - 1;
      CodesOf(coding, blocks[..n]) + BlockCells(coding, blocks[n])
  }

  function ScalesOf(coding: Coding, blocks: seq<Row>): (c: seq<Cell>)
    ensures |c| == |blocks| && CodesFine(c)
  {
    seq(|blocks|, i requires 0 <= i < |blocks| => Byte(BlockCode(coding, blocks[i])))
  }

  /** Blocks of a row, the last one filled up with zeros. */
  function BlocksPerRow(columns: nat): nat { AlignUp(columns, GROUP) / GROUP }

  lemma WholeBlocks(columns: nat)
    ensures BlocksPerRow(columns) >= 0 && AlignUp(columns, GROUP) == GROUP * BlocksPerRow(columns) >= columns
  {
    AlignUpFacts(columns, GROUP);
    Divided(AlignUp(columns, GROUP), GROUP);
    TimesCommutes(AlignUp(columns, GROUP) / GROUP, GROUP);
  }

  function PaddedRow(row: Row): (padded: Row)
    ensures |padded| == GROUP * BlocksPerRow(|row|) && |row| <= |padded|
    ensures forall j :: 0 <= j < |padded| ==> padded[j] == if j < |row| then row[j] else 0.0
  {
    WholeBlocks(|row|);
    row + seq(AlignUp(|row|, GROUP) - |row|, _ => 0.0)
  }

  function BlocksOf(row: Row): (b: seq<Row>)
    ensures InBlocks(b) && |b| == BlocksPerRow(|row|)
    ensures forall k, j :: 0 <= k < |b| && 0 <= j < GROUP ==> b[k][j] == PaddedRow(row)[GROUP * k + j]
  {
    var padded := PaddedRow(row);
    WholeBlocks(|row|);
    seq(BlocksPerRow(|row|), b requires 0 <= b < BlocksPerRow(|row|) => padded[GROUP * b..GROUP * (b + 1)])
  }

  function AllBlocks(rows: seq<Row>): (b: seq<Row>)
    ensures InBlocks(b)
  {
    if rows == [] then [] else AllBlocks(rows[..|rows| - 1]) + BlocksOf(rows[|rows| - 1])
  }

  predicate Shaped(rows: seq<Row>, count: nat, columns: nat) {
    |rows| == count && forall i :: 0 <= i < count ==> |rows[i]| == columns
  }

  lemma {:induction false} CountBlocks(rows: seq<Row>, columns: nat)
    requires Shaped(rows, |rows|, columns)
    ensures |AllBlocks(rows)| == Times(|rows|, BlocksPerRow(columns))
  {
    if rows != [] {
      var n := |rows| - 1;
      CountBlocks(rows[..n], columns);
      OneMore(n, BlocksPerRow(columns));
    }
  }

  lemma OneMore(n: nat, m: nat)
    ensures Times(n, m) + m == Times(n + 1, m) && Times(0, m) == 0
  {}

  // The encoders' loops

  /** One row, block by block. */
  method EncodeRow(coding: Coding, row: Row) returns (codes: seq<Cell>, scales: seq<Cell>)
    ensures codes == CodesOf(coding, BlocksOf(row)) && scales == ScalesOf(coding, BlocksOf(row))
  {
    hide BlocksOf, BlockMeaning.Represents, BlockMeaning.LowerError, BlockMeaning.Covers, BlockMeaning.Leads, Blocks.MaxAbs;
    hide Blocks.Fp4Code, Blocks.FloorCode, BlockWriter.Fp4Bytes, Mxfp6Writer.Mxfp6Bytes;
    var blocks := BlocksOf(row);
    codes, scales := [], [];
    for b := 0 to |blocks|
      invariant codes == CodesOf(coding, blocks[..b]) && scales == ScalesOf(coding, blocks[..b])
    {
      var chunk := blocks[b];
      var payload, code;
      if coding.Fp4Coding? {
        payload, code := BlockWriter.WriteFp4Block(chunk, coding.optimizeMse);
      } else {
        payload, code := Mxfp6Writer.WriteMxfp6Block(chunk);
      }
      NextBlock(coding, blocks, b);
      codes, scales := codes + Cells(payload), scales + [Byte(code)];
    }
    assert blocks[..|blocks|] == blocks;
  }

  lemma NextBlock(coding: Coding, blocks: seq<Row>, b: nat)
    requires InBlocks(blocks) && b < |blocks|
    ensures CodesOf(coding, blocks[..b + 1]) == CodesOf(coding, blocks[..b]) + BlockCells(coding, blocks[b])
    ensures ScalesOf(coding, blocks[..b + 1]) == ScalesOf(coding, blocks[..b]) + [Byte(BlockCode(coding, blocks[b]))]
  {
    hide BlockCells, BlockCode;
    assert blocks[..b + 1][..b] == blocks[..b];
  }

  lemma {:induction false} BlocksJoin(coding: Coding, a: seq<Row>, b: seq<Row>)
    requires InBlocks(a) && InBlocks(b)
    ensures InBlocks(a + b) && CodesOf(coding, a + b) == CodesOf(coding, a) + CodesOf(coding, b)
  {
    hide BlockCells, BlockCode, ScalesOf;
    if b == [] {
      assert a + b == a;
    } else {
      var n := |b| - 1;
      BlocksJoin(coding, a, b[..n]);
      assert (a + b)[..|a + b| - 1] == a + b[..n];
    }
  }

  lemma ScalesJoinBlocks(coding: Coding, a: seq<Row>, b: seq<Row>)
    ensures ScalesOf(coding, a + b) == ScalesOf(coding, a) + ScalesOf(coding, b)
  {
    hide BlockCode;
  }

  /** All rows in order. */
  method EncodeRows(coding: Coding, rows: seq<Row>) returns (m: Matrix)
    ensures m == Matrix(CodesOf(coding, AllBlocks(rows)), ScalesOf(coding, AllBlocks(rows)))
  {
    hide BlocksOf, CodesOf, ScalesOf;
    var codes, scales := [], [];
    NoBlocks(coding);
    for i := 0 to |rows|
      invariant codes == CodesOf(coding, AllBlocks(rows[..i])) && scales == ScalesOf(coding, AllBlocks(rows[..i]))
    {
      var c, s := EncodeRow(coding, rows[i]);
      assert rows[..i + 1][..i] == rows[..i];
      BlocksJoin(coding, AllBlocks(rows[..i]), BlocksOf(rows[i]));
      ScalesJoinBlocks(coding, AllBlocks(rows[..i]), BlocksOf(rows[i]));
      codes, scales := codes + c, scales + s;
    }
    assert rows[..|rows|] == rows;
    m := Matrix(codes, scales);
  }

  lemma NoBlocks(coding: Coding)
    ensures CodesOf(coding, []) == [] && ScalesOf(coding, []) == []
  {}

  /** What an encoded matrix is known to be. */
  predicate IsEncoded(m: Matrix, coding: Coding, rows: seq<Row>) {
    m == Matrix(CodesOf(coding, AllBlocks(rows)), ScalesOf(coding, AllBlocks(rows)))
  }

  /** Its sizes: whole blocks, each with its codes and one scale. */
  lemma EncodedSizes(m: Matrix, coding: Coding, rows: seq<Row>, count: nat, columns: nat)
    requires IsEncoded(m, coding, rows) && Shaped(rows, count, columns)
    ensures |m.codes| == BlockSize(coding) * Times(count, BlocksPerRow(columns))
    ensures |m.scales| == Times(count, BlocksPerRow(columns)) && CodesFine(m.scales)
  {
    hide CodesOf, ScalesOf, AllBlocks;
    CountBlocks(rows, columns);
  }

  // What is stored where

  /** Part `i` of some cells, in parts of this width. */
  function Part(cells: seq<Cell>, i: nat, width: nat): seq<Cell> {
    if Times(i, width) + width <= |cells| then cells[Times(i, width)..Times(i, width) + width] else []
  }

  /** Cells and a scale that represent a block: the levels that come nearest, at the code its policy asks for. */
  ghost predicate StoresBlock(coding: Coding, block: Row, cells: seq<Cell>, scale: seq<Cell>) {
    exists p: Blocks.Payload :: StoresAs(coding, block, cells, scale, p)
  }

  ghost predicate StoresAs(coding: Coding, block: Row, cells: seq<Cell>, scale: seq<Cell>, p: Blocks.Payload) {
    |p.indices| == |p.negative| && scale == [Byte(p.code)] &&
    match coding
    case Fp4Coding(mse) =>
      BlockMeaning.Represents(Blocks.E2M1, block, p) &&
      (if mse then BlockMeaning.LowerError(block, p.code) else BlockMeaning.Covers(Blocks.MaxAbs(block), p.code)) &&
      (forall i :: 0 <= i < |p.indices| ==> p.indices[i] < 8) && cells == Cells(BlockWriter.Fp4Bytes(p))
    case Mxfp6Coding =>
      BlockMeaning.Represents(Blocks.E3M2, block, p) && BlockMeaning.Leads(Blocks.MaxAbs(block), p.code) &&
      |p.indices| == GROUP && (forall i :: 0 <= i < |p.indices| ==> p.indices[i] < 32) &&
      cells == Cells(Mxfp6Writer.Mxfp6Bytes(p))
  }

  lemma EncodedStores(coding: Coding, block: Row)
    requires |block| == GROUP
    ensures StoresBlock(coding, block, BlockCells(coding, block), [Byte(BlockCode(coding, block))])
  {
    hide Blocks.Fp4Code, Blocks.FloorCode, BlockMeaning.Represents, BlockMeaning.LowerError, BlockMeaning.Covers;
    hide BlockMeaning.Leads, Blocks.MaxAbs, BlockWriter.Fp4Bytes, Mxfp6Writer.Mxfp6Bytes;
    var cells, scale := BlockCells(coding, block), [Byte(BlockCode(coding, block))];
    match coding
    case Fp4Coding(mse) =>
      BlockWriter.Fp4Means(block, mse);
      assert StoresAs(coding, block, cells, scale, Blocks.EncodeFp4(BlockWriter.PolicyOf(mse), block));
    case Mxfp6Coding =>
      Mxfp6Writer.Mxfp6Means(block);
      assert StoresAs(coding, block, cells, scale, Blocks.EncodeMxfp6(block));
  }

  /** Row after row and block after block, the last block of each row filled up with zeros. */
  ghost predicate StoresRows(coding: Coding, rows: seq<Row>, columns: nat, codes: seq<Cell>, scales: seq<Cell>)
    requires Shaped(rows, |rows|, columns)
  {
    forall i, b :: 0 <= i < |rows| && 0 <= b < BlocksPerRow(columns) ==> StoredAt(coding, rows, columns, codes, scales, i, b)
  }

  ghost predicate StoredAt(coding: Coding, rows: seq<Row>, columns: nat, codes: seq<Cell>, scales: seq<Cell>, i: nat, b: nat)
    requires Shaped(rows, |rows|, columns) && i < |rows| && b < BlocksPerRow(columns)
  {
    var k := Times(i, BlocksPerRow(columns)) + b;
    StoresBlock(coding, PaddedRow(rows[i])[GROUP * b..GROUP * (b + 1)], Part(codes, k, BlockSize(coding)), Part(scales, k, 1))
  }

  lemma {:induction false} BlockAt(rows: seq<Row>, columns: nat, i: nat, b: nat)
    requires Shaped(rows, |rows|, columns) && i < |rows| && b < BlocksPerRow(columns)
    ensures
      var k := Times(i, BlocksPerRow(columns)) + b;
      k < |AllBlocks(rows)| && AllBlocks(rows)[k] == BlocksOf(rows[i])[b] == PaddedRow(rows[i])[GROUP * b..GROUP * (b + 1)]
  {
    hide PaddedRow, BlocksPerRow;
    var n := |rows| - 1;
    CountBlocks(rows[..n], columns);
    if i < n {
      BlockAt(rows[..n], columns, i, b);
    }
  }

  lemma OneMoreEncoded(coding: Coding, blocks: seq<Row>, block: Row)
    requires InBlocks(blocks) && |block| == GROUP
    ensures InBlocks(blocks + [block])
    ensures CodesOf(coding, blocks + [block]) == CodesOf(coding, blocks) + BlockCells(coding, block)
    ensures ScalesOf(coding, blocks + [block]) == ScalesOf(coding, blocks) + [Byte(BlockCode(coding, block))]
    ensures |CodesOf(coding, blocks)| == Times(|blocks|, BlockSize(coding)) && |ScalesOf(coding, blocks)| == Times(|blocks|, 1)
  {
    hide BlockCells, BlockCode;
    assert (blocks + [block])[..|blocks|] == blocks;
  }

  lemma {:induction false} CodesAt(coding: Coding, blocks: seq<Row>, k: nat)
    requires InBlocks(blocks) && k < |blocks|
    ensures Part(CodesOf(coding, blocks), k, BlockSize(coding)) == BlockCells(coding, blocks[k])
    ensures Part(ScalesOf(coding, blocks), k, 1) == [Byte(BlockCode(coding, blocks[k]))]
  {
    hide BlockCells, BlockCode, CodesOf, ScalesOf, Part, BlockSize;
    var n := |blocks| - 1;
    var front, last := blocks[..n], blocks[n];
    assert blocks == front + [last];
    OneMoreEncoded(coding, front, last);
    CellsFit(coding, last);
    PartAppended(CodesOf(coding, front), BlockCells(coding, last), n, BlockSize(coding));
    PartAppended(ScalesOf(coding, front), [Byte(BlockCode(coding, last))], n, 1);
    if k < n {
      CodesAt(coding, front, k);
    }
  }

  lemma CellsFit(coding: Coding, block: Row)
    requires |block| == GROUP
    ensures |BlockCells(coding, block)| == BlockSize(coding)
  {}

  /** An encoded matrix stores its rows. */
  lemma EncodingStores(coding: Coding, rows: seq<Row>, columns: nat)
    requires Shaped(rows, |rows|, columns)
    ensures StoresRows(coding, rows, columns, CodesOf(coding, AllBlocks(rows)), ScalesOf(coding, AllBlocks(rows)))
  {
    hide CodesOf, ScalesOf, AllBlocks, BlockCells, BlockCode, StoresBlock, Part, BlocksOf, PaddedRow, BlocksPerRow;
    forall i, b | 0 <= i < |rows| && 0 <= b < BlocksPerRow(columns)
      ensures StoredAt(coding, rows, columns, CodesOf(coding, AllBlocks(rows)), ScalesOf(coding, AllBlocks(rows)), i, b)
    {
      BlockAt(rows, columns, i, b);
      CodesAt(coding, AllBlocks(rows), Times(i, BlocksPerRow(columns)) + b);
      EncodedStores(coding, PaddedRow(rows[i])[GROUP * b..GROUP * (b + 1)]);
    }
  }

  // Dense records

  lemma DenseFits(coding: Coding, shape: seq<nat>)
    requires 1 <= |shape| <= 5
    ensures
      var blocks := Times(Rows(shape), BlocksPerRow(Columns(shape)));
      DenseLegal(AbiOf(coding), shape) && DataBytes(AbiOf(coding), shape) == BlockSize(coding) * blocks &&
      ScaleBytes(AbiOf(coding), shape, 8) == blocks
  {
    WholeBlocks(Columns(shape));
    hide AlignUp, BlocksPerRow;
    Regroup(Rows(shape), BlocksPerRow(Columns(shape)));
  }

  lemma Regroup(rows: nat, blocks: nat)
    ensures Times(rows, GROUP * blocks) == GROUP * Times(rows, blocks)
  {
    assert rows * (GROUP * blocks) == GROUP * (rows * blocks);
  }

  lemma EntryKeeps(kind: Kind, contents: seq<seq<Cell>>, alignment: nat, start: nat)
    requires alignment > 0
    ensures EntryOf(kind, contents, alignment, start).kind == kind && EntryOf(kind, contents, alignment, start).offset == start
  {}

  /** Both sections of a dense record; the second one is missing when there are no scales. */
  lemma StoredSections(kind: Kind, codes: seq<Cell>, scales: seq<Cell>, alignment: nat, start: nat)
    requires alignment > 0
    ensures
      var e := EntryOf(kind, DenseContents(codes, scales), alignment, start);
      SectionCells(e, 0) == codes && SectionCells(e, 1) == scales
  {
    hide SectionCells, EntryOf;
    var contents := DenseContents(codes, scales);
    WrittenSection(kind, contents, alignment, start, 0);
    if scales != [] {
      WrittenSection(kind, contents, alignment, start, 1);
    } else {
      MissingSection(kind, contents, alignment, start, 1);
    }
  }

  lemma MissingSection(kind: Kind, contents: seq<seq<Cell>>, alignment: nat, start: nat, i: nat)
    requires alignment > 0 && i >= |contents|
    ensures SectionCells(EntryOf(kind, contents, alignment, start), i) == []
  {
    PlacedBytes(HEADER, Sizes(contents));
  }

  /** Every matrix of reals, whatever its shape: the record written for it is valid and holds its encoding. */
  method WriteQuantizedDense(f: PackFile, coding: Coding, name: string, shape: seq<nat>, rows: seq<Row>, alignment: nat)
    returns (r: Option<Entry>)
    requires f.position == |f.data| && alignment > 0
    requires 1 <= |shape| <= 5 && Shaped(rows, Rows(shape), Columns(shape))
    modifies f
    ensures r.Some? <==> |old(f.data)| % alignment == 0
    ensures r.None? ==> f.data == old(f.data)
    ensures r.Some? ==> DenseOk(f.data, r.value, alignment) && old(f.data) <= f.data && r.value.offset == |old(f.data)|
    ensures r.Some? ==> r.value.kind == DenseKind(AbiOf(coding), name, shape)
    ensures r.Some? ==> SectionCells(r.value, 0) == CodesOf(coding, AllBlocks(rows))
    ensures r.Some? ==> SectionCells(r.value, 1) == ScalesOf(coding, AllBlocks(rows))
    ensures r.Some? ==> StoresRows(coding, rows, Columns(shape), SectionCells(r.value, 0), SectionCells(r.value, 1))
  {
    hide DenseOk, DataBytes, ScaleBytes, DenseLegal, DenseRecordSize, SectionCells, CodesOf, ScalesOf, AllBlocks, EntryOf;
    hide CodesFine, StoresRows, BlocksPerRow;
    var m := EncodeRows(coding, rows);
    EncodedSizes(m, coding, rows, Rows(shape), Columns(shape));
    DenseFits(coding, shape);
    r := WriteDenseRecord(f, AbiOf(coding), name, shape, m.codes, m.scales, 8, alignment);
    if r.Some? {
      EntryKeeps(DenseKind(AbiOf(coding), name, shape), DenseContents(m.codes, m.scales), alignment, |old(f.data)|);
      StoredSections(DenseKind(AbiOf(coding), name, shape), m.codes, m.scales, alignment, |old(f.data)|);
      EncodingStores(coding, rows, Columns(shape));
    }
  }

  // Calibrated dense records

  function ScaleCells(codes: seq<nat>): (c: seq<Cell>)
    ensures |c| == |codes|
  {
    seq(|codes|, b requires 0 <= b < |codes| => Byte(codes[b]))
  }

  /** The codes and levels of a calibrated row, and how they are stored. */
  ghost predicate RowIs(a: seq<Row>, row: Row, selectPayload: bool, codes: seq<Cell>, scales: seq<Cell>, chosen: seq<nat>,
                        r: ActivationSelection.CodeRow)
    requires LinearRows.Matrix(a, GROUP * BlocksPerRow(|row|))
  {
    var source, blocks := PaddedRow(row), BlocksPerRow(|row|);
    |chosen| == blocks && ActivationSelection.ValidRow(r, |source|) &&
    CalibratedRows.Legal(source, |row|, chosen, r) &&
    CalibratedRows.Calibrated(a, source, |row|, selectPayload, chosen, r) &&
    r.codes == CalibratedRows.EncodedRow(source, chosen).codes &&
    ActivationSelection.OutputError(a, ActivationSelection.DecodedRow(r), source) <= BaselineError(a, source, blocks) &&
    codes == Cells(BlockWriter.Fp4Bytes(Blocks.Payload(0, r.indices, r.negative))) && scales == ScaleCells(chosen)
  }

  /** The output error of the lower-error scale codes with the nearest levels. */
  ghost function BaselineError(a: seq<Row>, source: Row, blocks: nat): real
    requires |source| == GROUP * blocks && LinearRows.Matrix(a, |source|)
  {
    var codes := CalibratedRows.PolicyCodes(Blocks.MinError, source, blocks);
    ActivationSelection.OutputError(a, ActivationSelection.DecodedRow(CalibratedRows.EncodedRow(source, codes)), source)
  }

  /** The cells hold a calibrated form of the row, filled up with zeros. */
  ghost predicate HoldsRow(a: seq<Row>, row: Row, selectPayload: bool, codes: seq<Cell>, scales: seq<Cell>)
    requires LinearRows.Matrix(a, GROUP * BlocksPerRow(|row|))
  {
    exists chosen: seq<nat>, r: ActivationSelection.CodeRow :: RowIs(a, row, selectPayload, codes, scales, chosen, r)
  }

  /** A calibrated row has the size of any other, and scale codes that the validator accepts. */
  method EncodeCalibratedRow(a: seq<Row>, row: Row, selectPayload: bool) returns (codes: seq<Cell>, scales: seq<Cell>)
    requires LinearRows.Matrix(a, GROUP * BlocksPerRow(|row|))
    ensures |codes| == 16 * BlocksPerRow(|row|) && |scales| == BlocksPerRow(|row|) && CodesFine(scales)
    ensures HoldsRow(a, row, selectPayload, codes, scales)
  {
    hide CalibratedRows.Legal, Blocks.MinErrorCode, Blocks.CoveringCode, BlockWriter.Fp4Bytes, CalibratedRows.Calibrated;
    hide CalibratedRows.EncodedRow, ActivationSelection.DecodedRow, ActivationSelection.OutputError;
    hide ActivationSelection.ValidRow, PaddedRow, BlocksPerRow;
    var blocks := BlocksPerRow(|row|);
    WholeBlocks(|row|);
    var source := PaddedRow(row);
    var chosen, r := CalibratedRows.CalibrateRow(a, source, |row|, blocks, selectPayload);
    RowsLevels(r, |source|);
    var bytes := BlockWriter.PackBytes(r.indices, r.negative);
    assert bytes == BlockWriter.Fp4Bytes(Blocks.Payload(0, r.indices, r.negative));
    BytesOfRow(r, blocks);
    codes := Cells(bytes);
    scales := ScaleCells(chosen);
    forall b | 0 <= b < blocks
      ensures 1 <= chosen[b] <= 254
    {
      ChosenIsLegal(source, |row|, chosen, r, b);
    }
    assert RowIs(a, row, selectPayload, codes, scales, chosen, r);
  }

  lemma RowsLevels(r: ActivationSelection.CodeRow, width: nat)
    requires ActivationSelection.ValidRow(r, width)
    ensures |r.indices| == |r.negative| == |r.codes| == width && forall i :: 0 <= i < |r.indices| ==> r.indices[i] < 8
  {}

  lemma BytesOfRow(r: ActivationSelection.CodeRow, blocks: nat)
    requires ActivationSelection.ValidRow(r, Blocks.BLOCK * blocks)
    ensures |BlockWriter.Fp4Bytes(Blocks.Payload(0, r.indices, r.negative))| == 16 * blocks
  {}

  lemma ChosenIsLegal(source: Row, columns: nat, codes: seq<nat>, r: ActivationSelection.CodeRow, b: nat)
    requires |source| == Blocks.BLOCK * |codes| && ActivationSelection.ValidRow(r, |source|) && b < |codes|
    requires CalibratedRows.Legal(source, columns, codes, r)
    ensures 1 <= codes[b] <= 254
  {
    assert CalibratedRows.LegalBlock(source, columns, codes, r, b);
  }

  /** One more part behind `n` of them. */
  lemma PartAppended(cells: seq<Cell>, more: seq<Cell>, n: nat, width: nat)
    requires |cells| == Times(n, width) && |more| == width
    ensures |cells + more| == Times(n + 1, width) && Part(cells + more, n, width) == more
    ensures forall i: nat {:trigger Part(cells, i, width)} {:trigger Part(cells + more, i, width)} ::
      i < n ==> Part(cells + more, i, width) == Part(cells, i, width)
  {
    OneMore(n, width);
    forall i: nat | i < n
      ensures Part(cells + more, i, width) == Part(cells, i, width)
    {
      OneMore(i, width);
      TimesMonotone(i + 1, n, width);
    }
  }

  /** For each row there is a calibrated form that its parts of the two sections hold. */
  ghost predicate HoldRows(a: seq<Row>, rows: seq<Row>, columns: nat, selectPayload: bool, codes: seq<Cell>, scales: seq<Cell>)
    requires LinearRows.Matrix(a, GROUP * BlocksPerRow(columns)) && Shaped(rows, |rows|, columns)
  {
    var blocks := BlocksPerRow(columns);
    forall i :: 0 <= i < |rows| ==>
      HoldsRow(a, rows[i], selectPayload, Part(codes, i, 16 * blocks), Part(scales, i, blocks))
  }

  lemma OneMoreRow(a: seq<Row>, rows: seq<Row>, row: Row, columns: nat, selectPayload: bool, codes: seq<Cell>,
                   scales: seq<Cell>, c: seq<Cell>, s: seq<Cell>)
    requires LinearRows.Matrix(a, GROUP * BlocksPerRow(columns)) && Shaped(rows, |rows|, columns) && |row| == columns
    requires
      var n, blocks := |rows|, BlocksPerRow(columns);
      |codes| == Times(n, 16 * blocks) && |scales| == Times(n, blocks) && |c| == 16 * blocks && |s| == blocks
    requires HoldRows(a, rows, columns, selectPayload, codes, scales) && HoldsRow(a, row, selectPayload, c, s)
    ensures Shaped(rows + [row], |rows| + 1, columns) && HoldRows(a, rows + [row], columns, selectPayload, codes + c, scales + s)
    ensures
      var n, blocks := |rows| + 1, BlocksPerRow(columns);
      |codes + c| == Times(n, 16 * blocks) && |scales + s| == Times(n, blocks)
  {
    hide HoldsRow, Part, BlocksPerRow;
    var n, blocks := |rows|, BlocksPerRow(columns);
    PartAppended(codes, c, n, 16 * blocks);
    PartAppended(scales, s, n, blocks);
    var all := rows + [row];
    forall i | 0 <= i < |all|
      ensures |all[i]| == columns &&
              HoldsRow(a, all[i], selectPayload, Part(codes + c, i, 16 * blocks), Part(scales + s, i, blocks))
    {
      if i < n {
        assert all[i] == rows[i];
      }
    }
  }

  /** Whatever calibration selects, the record written for the matrix is valid, and it holds every row. */
  method WriteCalibratedDense(f: PackFile, a: seq<Row>, name: string, shape: seq<nat>, rows: seq<Row>, selectPayload: bool,
                              alignment: nat)
    returns (r: Option<Entry>)
    requires f.position == |f.data| && alignment > 0
    requires 1 <= |shape| <= 5 && Shaped(rows, Rows(shape), Columns(shape))
    requires LinearRows.Matrix(a, GROUP * BlocksPerRow(Columns(shape)))
    modifies f
    ensures r.Some? <==> |old(f.data)| % alignment == 0
    ensures r.None? ==> f.data == old(f.data)
    ensures r.Some? ==> DenseOk(f.data, r.value, alignment) && old(f.data) <= f.data && r.value.offset == |old(f.data)|
    ensures r.Some? ==> r.value.kind == DenseKind(Fp4, name, shape)
    ensures r.Some? ==>
      HoldRows(a, rows, Columns(shape), selectPayload, SectionCells(r.value, 0), SectionCells(r.value, 1))
  {
    hide DenseOk, DataBytes, ScaleBytes, DenseLegal, DenseRecordSize, EntryOf, CodesFine, BlocksPerRow, Rows, Columns;
    hide HoldRows, HoldsRow, SectionCells, LinearRows.Matrix;
    var codes: seq<Cell>, scales: seq<Cell>, columns := [], [], Columns(shape);
    var blocks := BlocksPerRow(columns);
    assert CodesFine(scales) by { NoScales(); }
    NoRows(a, columns, selectPayload);
    for i := 0 to |rows|
      invariant f.data == old(f.data) && f.position == old(f.position)
      invariant |codes| == Times(i, 16 * blocks) && |scales| == Times(i, blocks) && CodesFine(scales)
      invariant HoldRows(a, rows[..i], columns, selectPayload, codes, scales)
    {
      var c, s := EncodeCalibratedRow(a, rows[i], selectPayload);
      OneMoreRow(a, rows[..i], rows[i], columns, selectPayload, codes, scales, c, s);
      ScalesJoin(scales, s);
      assert rows[..i + 1] == rows[..i] + [rows[i]];
      codes, scales := codes + c, scales + s;
    }
    assert rows[..|rows|] == rows;
    DenseFits(Fp4Coding(true), shape);
    SixteenTimes(|rows|, blocks);
    r := WriteDenseRecord(f, Fp4, name, shape, codes, scales, 8, alignment);
    if r.Some? {
      EntryKeeps(DenseKind(Fp4, name, shape), DenseContents(codes, scales), alignment, |old(f.data)|);
      StoredSections(DenseKind(Fp4, name, shape), codes, scales, alignment, |old(f.data)|);
    }
  }

  lemma NoRows(a: seq<Row>, columns: nat, selectPayload: bool)
    requires LinearRows.Matrix(a, GROUP * BlocksPerRow(columns))
    ensures HoldRows(a, [], columns, selectPayload, [], [])
  {}

  lemma SixteenTimes(n: nat, blocks: nat)
    ensures Times(n, 16 * blocks) == 16 * Times(n, blocks)
  {
    assert n * (16 * blocks) == 16 * (n * blocks);
  }

  lemma NoScales()
    ensures CodesFine([])
  {}

  // Expert records

  function ExpertAbi(gated: bool): Abi { if gated then Fp4 else Relu2 }

  lemma ExpertFits(gated: bool, hidden: nat, intermediate: nat)
    requires ExpertLegal(ExpertAbi(gated), gated, hidden, intermediate)
    ensures
      var s, wide, narrow := ExpertSections(ExpertAbi(gated), hidden, intermediate),
                             Times(intermediate, BlocksPerRow(hidden)), Times(hidden, BlocksPerRow(intermediate));
      var first := if gated then 2 * wide else wide;
      s == [16 * first, first, 16 * narrow, narrow]
  {
    WholeBlocks(hidden);
    WholeBlocks(intermediate);
    Exactly(hidden);
    Exactly(intermediate);
    Regroup(intermediate, BlocksPerRow(hidden));
    Regroup(hidden, BlocksPerRow(intermediate));
    TimesCommutes(hidden, intermediate);
    hide AlignUp, BlocksPerRow;
  }

  /** A multiple of the block length needs no padding. */
  lemma Exactly(n: nat)
    requires n % GROUP == 0
    ensures AlignUp(n, GROUP) == n
  {
    AlignUpFacts(n, GROUP);
  }

  /** Every expert of real matrices with a legal geometry: its record is valid and holds their encodings. */
  method WriteFp4Expert(f: PackFile, gate: Option<seq<Row>>, up: seq<Row>, down: seq<Row>, layer: nat, expert: nat,
                        hidden: nat, intermediate: nat, alignment: nat, optimizeMse: bool)
    returns (r: Option<Entry>)
    requires f.position == |f.data| && alignment > 0
    requires Shaped(up, intermediate, hidden) && Shaped(down, hidden, intermediate)
    requires gate.Some? ==> Shaped(gate.value, intermediate, hidden)
    modifies f
    ensures r.Some? <==> hidden % GROUP == 0 && intermediate % GROUP == 0 && |old(f.data)| % alignment == 0
    ensures r.None? ==> f.data == old(f.data)
    ensures r.Some? ==> ExpertOk(f.data, r.value, alignment) && old(f.data) <= f.data && r.value.offset == |old(f.data)|
    ensures r.Some? ==> r.value.kind.ExpertKind? && r.value.kind.layer == layer && r.value.kind.expert == expert &&
                        r.value.kind.hidden == hidden && r.value.kind.intermediate == intermediate
    ensures r.Some? ==>
      StoresRows(Fp4Coding(optimizeMse), down, intermediate, SectionCells(r.value, 2), SectionCells(r.value, 3))
    ensures r.Some? ==> Shaped(FirstMatrix(gate, up), |FirstMatrix(gate, up)|, hidden)
    ensures r.Some? ==>
      StoresRows(Fp4Coding(optimizeMse), FirstMatrix(gate, up), hidden, SectionCells(r.value, 0), SectionCells(r.value, 1))
  {
    hide ExpertOk, ExpertSections, ExpertRecordSize, SectionCells, CodesOf, ScalesOf, AllBlocks, EntryOf, CodesFine;
    hide StoresRows, BlocksPerRow;
    var coding, abi := Fp4Coding(optimizeMse), ExpertAbi(gate.Some?);
    var g: Option<Matrix> := None;
    if gate.Some? {
      var m := EncodeRows(coding, gate.value);
      EncodedSizes(m, coding, gate.value, intermediate, hidden);
      g := Some(m);
    }
    var u := EncodeRows(coding, up);
    EncodedSizes(u, coding, up, intermediate, hidden);
    var d := EncodeRows(coding, down);
    EncodedSizes(d, coding, down, hidden, intermediate);
    ScalesJoin(GateScales(g), u.scales);
    if ExpertLegal(abi, gate.Some?, hidden, intermediate) {
      ExpertFits(gate.Some?, hidden, intermediate);
      assert Sizes(ExpertContents(g, u, d)) == ExpertSections(abi, hidden, intermediate);
    }
    r := WriteExpertRecord(f, g, u, d, layer, expert, hidden, intermediate, alignment, abi);
    if r.Some? {
      var kind := ExpertKind(abi, gate.Some?, layer, expert, hidden, intermediate, FirstRows(abi, intermediate));
      EntryKeeps(kind, ExpertContents(g, u, d), alignment, |old(f.data)|);
      FourWritten(kind, ExpertContents(g, u, d), alignment, |old(f.data)|);
      EncodingStores(coding, down, intermediate);
      FirstStores(coding, gate, up, intermediate, hidden);
    }
  }

  /** Rows of the gate, if there is one, and then rows of the up projection. */
  function FirstMatrix(gate: Option<seq<Row>>, up: seq<Row>): seq<Row> { if gate.Some? then gate.value + up else up }

  lemma OneMoreBlocks(rows: seq<Row>, row: Row)
    ensures AllBlocks(rows + [row]) == AllBlocks(rows) + BlocksOf(row) && AllBlocks([]) == []
  {
    hide BlocksOf;
    assert (rows + [row])[..|rows|] == rows;
  }

  lemma {:induction false} AllBlocksJoin(a: seq<Row>, b: seq<Row>)
    ensures AllBlocks(a + b) == AllBlocks(a) + AllBlocks(b)
  {
    hide BlocksOf, AllBlocks;
    if b == [] {
      assert a + b == a;
      OneMoreBlocks([], []);
    } else {
      var n := |b| - 1;
      var front, last := b[..n], b[n];
      AllBlocksJoin(a, front);
      assert b == front + [last] && a + b == a + front + [last];
      OneMoreBlocks(front, last);
      OneMoreBlocks(a + front, last);
    }
  }

  lemma FirstStores(coding: Coding, gate: Option<seq<Row>>, up: seq<Row>, count: nat, columns: nat)
    requires Shaped(up, count, columns) && (gate.Some? ==> Shaped(gate.value, count, columns))
    ensures
      var all := FirstMatrix(gate, up);
      Shaped(all, |all|, columns) &&
      StoresRows(coding, all, columns,
                 (if gate.Some? then CodesOf(coding, AllBlocks(gate.value)) else []) + CodesOf(coding, AllBlocks(up)),
                 (if gate.Some? then ScalesOf(coding, AllBlocks(gate.value)) else []) + ScalesOf(coding, AllBlocks(up)))
  {
    hide StoresRows, CodesOf, ScalesOf, AllBlocks;
    var all := FirstMatrix(gate, up);
    EncodingStores(coding, all, columns);
    if gate.Some? {
      AllBlocksJoin(gate.value, up);
      BlocksJoin(coding, AllBlocks(gate.value), AllBlocks(up));
      ScalesJoinBlocks(coding, AllBlocks(gate.value), AllBlocks(up));
    } else {
      assert [] + CodesOf(coding, AllBlocks(up)) == CodesOf(coding, AllBlocks(up));
      assert [] + ScalesOf(coding, AllBlocks(up)) == ScalesOf(coding, AllBlocks(up));
    }
  }

  lemma ScalesJoin(a: seq<Cell>, b: seq<Cell>)
    requires (a == [] || CodesFine(a)) && CodesFine(b)
    ensures CodesFine(a + b)
  {}

  lemma FourWritten(kind: Kind, contents: seq<seq<Cell>>, alignment: nat, start: nat)
    requires alignment > 0 && |contents| == 4
    ensures forall i: nat :: i < 4 ==> SectionCells(EntryOf(kind, contents, alignment, start), i) == contents[i]
  {
    forall i: nat | i < 4
      ensures SectionCells(EntryOf(kind, contents, alignment, start), i) == contents[i]
    {
      WrittenSection(kind, contents, alignment, start, i);
    }
  }
}
