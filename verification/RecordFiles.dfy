/**
 Writing records at the end of a pack file, header last, and reading them back: what the writer appends, the
 independent validator accepts, and goes on accepting while the pack grows.
 */
module RecordFiles {
  import opened Options
  import opened Products
  import opened RecordLayout

  /** What a header identifies: an expert or a dense matrix. */
  datatype Kind =
    | ExpertKind(abi: Abi, gated: bool, layer: nat, expert: nat, hidden: nat, intermediate: nat, firstRows: nat)
    | DenseKind(abi: Abi, name: string, shape: seq<nat>)

  /** Header fields; the payload digest is represented by the payload. */
  datatype Header = Header(kind: Kind, recordBytes: nat, sections: seq<Section>, payload: seq<Cell>)

  /** A byte of a file, either plain or one of the bytes that a header packs to. */
  datatype Cell = Byte(value: nat) | HeaderByte(header: Header, index: nat)

  datatype Entry = Entry(kind: Kind, offset: nat, storedBytes: nat, sections: seq<Section>, payload: seq<Cell>)

  function Zeros(n: nat): (z: seq<Cell>)
    ensures |z| == n
  {
    seq(n, _ => Byte(0))
  }

  function Packed(h: Header): (c: seq<Cell>)
    ensures |c| == HEADER
  {
    seq(HEADER, i requires i >= 0 => HeaderByte(h, i))
  }

  /** The header at an offset, if there is one. */
  function HeaderAt(data: seq<Cell>, offset: nat): Option<Header> {
    if offset + HEADER <= |data| && data[offset].HeaderByte? && data[offset..offset + HEADER] == Packed(data[offset].header)
    then Some(data[offset].header) else None
  }

  // The payload as laid out

  function Sizes(contents: seq<seq<Cell>>): (s: seq<nat>)
    ensures |s| == |contents| && forall i :: 0 <= i < |s| ==> s[i] == |contents[i]|
  {
    seq(|contents|, i requires 0 <= i < |contents| => |contents[i]|)
  }

  /** Padding and sections after `cursor` bytes of a record. */
  function Laid(cursor: nat, contents: seq<seq<Cell>>): seq<Cell>
    decreases |contents|
  {
    if contents == [] then []
    else
      AlignUpFacts(cursor, SECTION);
      var at := AlignUp(cursor, SECTION);
      Zeros(at - cursor) + contents[0] + Laid(at + |contents[0]|, contents[1..])
  }

  lemma {:induction false} LaidLength(cursor: nat, contents: seq<seq<Cell>>)
    ensures cursor + |Laid(cursor, contents)| == EndOf(cursor, Sizes(contents))
    decreases |contents|
  {
    if contents != [] {
      AlignUpFacts(cursor, SECTION);
      var at := AlignUp(cursor, SECTION);
      hide AlignUp;
      LaidLength(at + |contents[0]|, contents[1..]);
      assert Sizes(contents)[1..] == Sizes(contents[1..]);
    }
  }

  /** The first section and what follows it. */
  lemma LaidFirst(cursor: nat, contents: seq<seq<Cell>>)
    requires contents != []
    ensures cursor <= AlignUp(cursor, SECTION)
    ensures
      var at := AlignUp(cursor, SECTION);
      Laid(cursor, contents) == Zeros(at - cursor) + contents[0] + Laid(at + |contents[0]|, contents[1..]) &&
      Place(cursor, Sizes(contents)) == [Section(at, |contents[0]|)] + Place(at + |contents[0]|, Sizes(contents[1..]))
  {
    AlignUpFacts(cursor, SECTION);
    assert Sizes(contents)[1..] == Sizes(contents[1..]);
  }

  /** A section of a payload that starts `cursor` bytes into the record. */
  predicate Contains(p: seq<Cell>, cursor: nat, s: Section, content: seq<Cell>) {
    cursor <= s.offset && s.offset - cursor + s.bytes <= |p| &&
    p[s.offset - cursor..s.offset - cursor + s.bytes] == content
  }

  lemma ContainsFirst(z: seq<Cell>, c: seq<Cell>, rest: seq<Cell>, cursor: nat)
    ensures Contains(z + c + rest, cursor, Section(cursor + |z|, |c|), c)
  {}

  lemma ContainsLater(z: seq<Cell>, c: seq<Cell>, rest: seq<Cell>, cursor: nat, s: Section, content: seq<Cell>)
    requires Contains(rest, cursor + |z| + |c|, s, content)
    ensures Contains(z + c + rest, cursor, s, content)
  {
    var k := s.offset - cursor - |z| - |c|;
    var all := z + c + rest;
    assert all[|z| + |c| + k..|z| + |c| + k + s.bytes] == rest[k..k + s.bytes];
  }

  /** A section holds its content. */
  lemma {:induction false} LaidAt(cursor: nat, contents: seq<seq<Cell>>, i: nat)
    requires i < |contents|
    ensures Contains(Laid(cursor, contents), cursor, Place(cursor, Sizes(contents))[i], contents[i])
    decreases |contents|
  {
    hide AlignUp, Laid, Place, Sizes, Contains;
    LaidFirst(cursor, contents);
    var at := AlignUp(cursor, SECTION);
    var next := at + |contents[0]|;
    var z, rest := Zeros(at - cursor), Laid(next, contents[1..]);
    if i == 0 {
      ContainsFirst(z, contents[0], rest, cursor);
    } else {
      LaidAt(next, contents[1..], i - 1);
      ContainsLater(z, contents[0], rest, cursor, Place(next, Sizes(contents[1..]))[i - 1], contents[i]);
    }
  }

  function Payload(contents: seq<seq<Cell>>, alignment: nat): seq<Cell>
    requires alignment > 0
  {
    PayloadFits(contents, alignment);
    var laid := Laid(HEADER, contents);
    laid + Zeros(RecordBytes(Sizes(contents), alignment) - HEADER - |laid|)
  }

  lemma PayloadFits(contents: seq<seq<Cell>>, alignment: nat)
    requires alignment > 0
    ensures HEADER + |Laid(HEADER, contents)| <= RecordBytes(Sizes(contents), alignment)
  {
    LaidLength(HEADER, contents);
    AlignUpFacts(EndOf(HEADER, Sizes(contents)), alignment);
  }

  function HeaderOf(kind: Kind, contents: seq<seq<Cell>>, alignment: nat): Header
    requires alignment > 0
  {
    Header(kind, RecordBytes(Sizes(contents), alignment), Place(HEADER, Sizes(contents)), Payload(contents, alignment))
  }

  function EntryOf(kind: Kind, contents: seq<seq<Cell>>, alignment: nat, start: nat): Entry
    requires alignment > 0
  {
    var h := HeaderOf(kind, contents, alignment);
    Entry(kind, start, h.recordBytes, h.sections, h.payload)
  }

  // The file

  class PackFile {
    var data: seq<Cell>
    var position: nat

    constructor ()
      ensures data == [] && position == 0
    {
      data, position := [], 0;
    }

    /** Writes over what is at the position and moves on. */
    method Write(cells: seq<Cell>)
      requires position <= |data|
      modifies this
      ensures position == old(position) + |cells| && position <= |data|
      ensures data == old(data)[..old(position)] + cells +
                      if position <= |old(data)| then old(data)[position..] else []
    {
      var end := position + |cells|;
      data := data[..position] + cells + if end <= |data| then data[end..] else [];
      position := end;
    }

    method Seek(to: nat)
      requires to <= |data|
      modifies this`position
      ensures position == to
    {
      position := to;
    }

    /** Appends at the end of the file. */
    method Append(cells: seq<Cell>)
      requires position == |data|
      modifies this
      ensures data == old(data) + cells && position == |data|
    {
      Write(cells);
      assert old(data)[..|old(data)|] == old(data);
    }
  }

  /** Pads to each section boundary and appends the section; the digest is fed as it goes. */
  method WriteSections(f: PackFile, start: nat, contents: seq<seq<Cell>>) returns (digest: seq<Cell>)
    requires f.position == |f.data| == start + HEADER
    modifies f
    ensures digest == Laid(HEADER, contents) && f.data == old(f.data) + digest && f.position == |f.data|
  {
    hide Laid, Place, AlignUp, Sizes;
    digest := [];
    var rest := contents;
    assert f.data == f.data + [] && [] + Laid(HEADER, contents) == Laid(HEADER, contents);
    while rest != []
      invariant f.data == old(f.data) + digest && f.position == |f.data|
      invariant digest + Laid(f.position - start, rest) == Laid(HEADER, contents) && f.position >= start + HEADER
      decreases |rest|
    {
      var cursor := f.position - start;
      LaidFirst(cursor, rest);
      var at := AlignUp(cursor, SECTION);
      var zeros := Zeros(at - cursor);
      ghost var tail := Laid(at + |rest[0]|, rest[1..]);
      f.Append(zeros);
      f.Append(rest[0]);
      Associate(old(f.data), digest, zeros, rest[0]);
      Associate(digest, zeros, rest[0], tail);
      digest := digest + zeros + rest[0];
      rest := rest[1..];
    }
    NothingLaid(f.position - start);
  }

  lemma Associate<T>(a: seq<T>, b: seq<T>, c: seq<T>, d: seq<T>)
    ensures a + b + c + d == a + (b + c + d) && a + (b + c + d) == (a + b + c) + d
  {}

  lemma NothingLaid(cursor: nat)
    ensures Laid(cursor, []) == []
  {}

  /** Appends one record: a blank header, the sections, the padding, and then the header over the blank. */
  method WriteRecord(f: PackFile, kind: Kind, contents: seq<seq<Cell>>, alignment: nat) returns (r: Option<Entry>)
    requires f.position == |f.data| && alignment > 0
    modifies f
    ensures r.None? <==> |old(f.data)| % alignment != 0
    ensures r.None? ==> f.data == old(f.data)
    ensures r.Some? ==> r.value == EntryOf(kind, contents, alignment, |old(f.data)|)
    ensures r.Some? ==>
      f.data == old(f.data) + Packed(HeaderOf(kind, contents, alignment)) + Payload(contents, alignment)
    ensures f.position == |f.data|
  {
    var start := f.position;
    ghost var before := f.data;
    if start % alignment != 0 { return None; }
    f.Append(Zeros(HEADER));
    var laid := WriteSections(f, start, contents);
    PayloadFits(contents, alignment);
    LaidLength(HEADER, contents);
    var recordBytes := AlignUp(f.position - start, alignment);
    assert recordBytes == RecordBytes(Sizes(contents), alignment);
    var padding := Zeros(recordBytes - (f.position - start));
    f.Append(padding);
    var payload := laid + padding;
    assert payload == Payload(contents, alignment);
    assert f.data == before + Zeros(HEADER) + payload;
    var h := Header(kind, recordBytes, Place(HEADER, Sizes(contents)), payload);
    f.Seek(start);
    f.Write(Packed(h));
    assert (before + Zeros(HEADER) + payload)[..start] == before;
    assert (before + Zeros(HEADER) + payload)[start + HEADER..] == payload;
    f.Seek(start + recordBytes);
    r := Some(Entry(kind, start, recordBytes, h.sections, payload));
  }

  // Scale values, as the validator looks at them

  predicate ByteIn(c: Cell, low: nat, high: nat) { c.Byte? && low <= c.value <= high }

  /** Scale codes of powers of two, the lowest and highest excluded. */
  predicate CodesFine(cells: seq<Cell>) { forall i :: 0 <= i < |cells| ==> ByteIn(cells[i], 1, 254) }

  /** A positive finite single-precision number, lowest byte first. */
  predicate FloatFine(a: Cell, b: Cell, c: Cell, d: Cell) {
    a.Byte? && b.Byte? && c.Byte? && d.Byte? &&
    0 < a.value + 0x100 * b.value + 0x1_0000 * c.value + 0x100_0000 * d.value < 0x7f80_0000
  }

  predicate FloatsFine(cells: seq<Cell>) {
    |cells| % 4 == 0 &&
    forall i {:trigger cells[4 * i]} :: 0 <= i < |cells| / 4 ==>
      FloatFine(cells[4 * i], cells[4 * i + 1], cells[4 * i + 2], cells[4 * i + 3])
  }

  /** An eight-bit float that is not the one that is not a number. */
  predicate SmallFloatFine(c: Cell) { c.Byte? && c.value % 128 != 127 }

  /** `local` block scales, then two global ones, the second possibly in half the precision. */
  predicate NativeFine(cells: seq<Cell>, local: nat) {
    local + 6 <= |cells| && (forall i :: 0 <= i < local ==> SmallFloatFine(cells[i])) &&
    FloatFine(cells[local], cells[local + 1], cells[local + 2], cells[local + 3]) &&
    if |cells| == local + 8 then FloatFine(cells[local + 4], cells[local + 5], cells[local + 6], cells[local + 7])
    else FloatFine(Byte(0), Byte(0), cells[local + 4], cells[local + 5])
  }

  /** The scales of an expert: of gate and up, and of down. */
  predicate ExpertScalesFine(abi: Abi, hidden: nat, intermediate: nat, first: seq<Cell>, down: seq<Cell>) {
    var local := Times(hidden, intermediate) / NATIVE_GROUP;
    match abi
    case Int8 => FloatsFine(first) && FloatsFine(down)
    case Nvfp4 =>
      local + 8 <= |first| && NativeFine(first[..local + 8], local) && NativeFine(first[local + 8..], local) &&
      NativeFine(down, local)
    case _ => CodesFine(first) && CodesFine(down)
  }

  predicate DenseScalesFine(abi: Abi, shape: seq<nat>, scales: seq<Cell>)
    requires DenseLegal(abi, shape)
  {
    match abi
    case Raw(_) => true
    case Int8 => FloatsFine(scales)
    case Nvfp4 => NativeFine(scales, Times(shape[0], shape[1]) / NATIVE_GROUP)
    case _ => CodesFine(scales)
  }

  // The validator

  /** What is checked of every record. */
  predicate CommonOk(data: seq<Cell>, e: Entry, alignment: nat)
    requires alignment > 0
  {
    e.storedBytes >= HEADER && e.offset % alignment == 0 && e.storedBytes % alignment == 0 &&
    e.offset + e.storedBytes <= |data| && HeaderAt(data, e.offset).Some? &&
    var h := HeaderAt(data, e.offset).value;
    h.kind == e.kind && h.recordBytes == e.storedBytes && h.sections == e.sections && h.payload == e.payload &&
    data[e.offset + HEADER..e.offset + e.storedBytes] == e.payload
  }

  function BytesOf(s: seq<Section>): seq<nat> { seq(|s|, i requires 0 <= i < |s| => s[i].bytes) }

  predicate ExpertOk(data: seq<Cell>, e: Entry, alignment: nat)
    requires alignment > 0
  {
    CommonOk(data, e, alignment) && e.kind.ExpertKind? &&
    ExpertReadable(e.kind.abi, e.kind.gated, e.kind.hidden, e.kind.intermediate) &&
    e.kind.firstRows == FirstRows(e.kind.abi, e.kind.intermediate) &&
    BytesOf(e.sections) == ExpertSections(e.kind.abi, e.kind.hidden, e.kind.intermediate) &&
    Orderly(e.sections, HEADER, e.storedBytes) &&
    ExpertScalesFine(e.kind.abi, e.kind.hidden, e.kind.intermediate, SectionCells(e, 1), SectionCells(e, 3))
  }

  /** What the payload of an entry holds in a section; nothing for a section that is not within it. */
  function SectionCells(e: Entry, i: nat): seq<Cell> {
    var s := SectionOr(e.sections, i);
    if s.offset < HEADER || s.offset - HEADER + s.bytes > |e.payload| then []
    else e.payload[s.offset - HEADER..s.offset - HEADER + s.bytes]
  }

  function SectionOr(s: seq<Section>, i: nat): Section { if i < |s| then s[i] else Section(0, 0) }

  /** The two global scales of a native matrix take six or eight bytes. */
  predicate DenseOk(data: seq<Cell>, e: Entry, alignment: nat)
    requires alignment > 0
  {
    CommonOk(data, e, alignment) && e.kind.DenseKind? && DenseLegal(e.kind.abi, e.kind.shape) && e.sections != [] &&
    e.sections[0].offset >= HEADER && e.sections[0].offset + e.sections[0].bytes <= e.storedBytes &&
    e.sections[0].bytes == DataBytes(e.kind.abi, e.kind.shape) &&
    SectionOr(e.sections, 1).offset % SECTION == 0 &&
    (SectionOr(e.sections, 1).bytes == ScaleBytes(e.kind.abi, e.kind.shape, 6) ||
     SectionOr(e.sections, 1).bytes == ScaleBytes(e.kind.abi, e.kind.shape, 8)) &&
    DenseScalesFine(e.kind.abi, e.kind.shape, SectionCells(e, 1))
  }

  /** The section walk of the expert validator. */
  method CheckSections(s: seq<Section>, recordBytes: nat) returns (ok: bool)
    ensures ok <==> Orderly(s, HEADER, recordBytes)
  {
    var previousEnd: nat, rest := HEADER, s;
    while rest != []
      invariant Orderly(s, HEADER, recordBytes) <==> Orderly(rest, previousEnd, recordBytes)
      decreases |rest|
    {
      if rest[0].offset % SECTION != 0 || rest[0].offset < previousEnd || rest[0].offset + rest[0].bytes > recordBytes {
        return false;
      }
      previousEnd, rest := rest[0].offset + rest[0].bytes, rest[1..];
    }
    ok := true;
  }

  method ValidateExpertRecord(data: seq<Cell>, e: Entry, alignment: nat) returns (ok: bool)
    requires alignment > 0
    ensures ok <==> ExpertOk(data, e, alignment)
  {
    hide Orderly, ExpertSections, CommonOk, ExpertReadable, ExpertScalesFine;
    if !CommonOk(data, e, alignment) || !e.kind.ExpertKind? { return false; }
    if !ExpertReadable(e.kind.abi, e.kind.gated, e.kind.hidden, e.kind.intermediate) { return false; }
    if e.kind.firstRows != FirstRows(e.kind.abi, e.kind.intermediate) { return false; }
    if BytesOf(e.sections) != ExpertSections(e.kind.abi, e.kind.hidden, e.kind.intermediate) { return false; }
    ok := CheckSections(e.sections, e.storedBytes);
    if !ok { return; }
    ok := ExpertScalesFine(e.kind.abi, e.kind.hidden, e.kind.intermediate, SectionCells(e, 1), SectionCells(e, 3));
  }

  /** A record appended to aligned data is where its entry says. */
  lemma AppendedIsCommon(before: seq<Cell>, kind: Kind, contents: seq<seq<Cell>>, alignment: nat)
    requires alignment > 0 && |before| % alignment == 0
    ensures
      var data := before + Packed(HeaderOf(kind, contents, alignment)) + Payload(contents, alignment);
      CommonOk(data, EntryOf(kind, contents, alignment, |before|), alignment)
  {
    PayloadFits(contents, alignment);
    AlignUpFacts(EndOf(HEADER, Sizes(contents)), alignment);
    hide AlignUp, EndOf, Laid, Place;
    var h, payload := HeaderOf(kind, contents, alignment), Payload(contents, alignment);
    var data := before + Packed(h) + payload;
    assert |payload| == h.recordBytes - HEADER;
    assert data[|before|] == HeaderByte(h, 0);
    assert data[|before|..|before| + HEADER] == Packed(h);
    assert data[|before| + HEADER..] == payload;
    assert |data| == |before| + h.recordBytes;
  }

  /** A section of a written record holds the content written for it. */
  lemma WrittenSection(kind: Kind, contents: seq<seq<Cell>>, alignment: nat, start: nat, i: nat)
    requires alignment > 0 && i < |contents|
    ensures SectionCells(EntryOf(kind, contents, alignment, start), i) == contents[i]
  {
    PayloadFits(contents, alignment);
    LaidAt(HEADER, contents, i);
    hide Laid, Place, AlignUp;
    var s, payload := Place(HEADER, Sizes(contents))[i], Payload(contents, alignment);
    var laid := Laid(HEADER, contents);
    assert payload[..|laid|] == laid;
    assert payload[s.offset - HEADER..s.offset - HEADER + s.bytes] == laid[s.offset - HEADER..s.offset - HEADER + s.bytes];
  }

  lemma PlacedBytes(cursor: nat, sizes: seq<nat>)
    ensures BytesOf(Place(cursor, sizes)) == sizes
  {}

  /** What the writer appends as an expert record, the validator accepts exactly if it likes the scale values. */
  lemma WrittenExpertIsValid(before: seq<Cell>, kind: Kind, contents: seq<seq<Cell>>, alignment: nat)
    requires alignment > 0 && |before| % alignment == 0 && kind.ExpertKind?
    requires ExpertLegal(kind.abi, kind.gated, kind.hidden, kind.intermediate)
    requires kind.firstRows == FirstRows(kind.abi, kind.intermediate)
    requires Sizes(contents) == ExpertSections(kind.abi, kind.hidden, kind.intermediate)
    ensures
      var data := before + Packed(HeaderOf(kind, contents, alignment)) + Payload(contents, alignment);
      ExpertOk(data, EntryOf(kind, contents, alignment, |before|), alignment) <==>
      ExpertScalesFine(kind.abi, kind.hidden, kind.intermediate, contents[1], contents[3])
    ensures ExpertRecordSize(kind.hidden, kind.intermediate, alignment, kind.abi, kind.gated) ==
            Some(EntryOf(kind, contents, alignment, |before|).storedBytes)
  {
    AppendedIsCommon(before, kind, contents, alignment);
    AlignUpFacts(EndOf(HEADER, Sizes(contents)), alignment);
    PlacedOrderly(HEADER, Sizes(contents), RecordBytes(Sizes(contents), alignment));
    PlacedBytes(HEADER, Sizes(contents));
    ExpertSizeIsLayout(kind.hidden, kind.intermediate, alignment, kind.abi, kind.gated);
    LegalIsReadable(kind.abi, kind.gated, kind.hidden, kind.intermediate);
    WrittenSection(kind, contents, alignment, |before|, 1);
    WrittenSection(kind, contents, alignment, |before|, 3);
    hide Orderly, ExpertSections, CommonOk, ExpertLegal, ExpertReadable, AlignUp, EndOf, Place, Payload, Packed;
    hide ExpertRecordSize, ExpertScalesFine, SectionCells;
  }

  lemma WrittenDenseIsValid(before: seq<Cell>, kind: Kind, contents: seq<seq<Cell>>, sidecar: nat, alignment: nat)
    requires alignment > 0 && |before| % alignment == 0 && kind.DenseKind? && DenseLegal(kind.abi, kind.shape)
    requires sidecar in {6, 8} && Sizes(contents) == DenseSections(kind.abi, kind.shape, sidecar)
    ensures
      var data := before + Packed(HeaderOf(kind, contents, alignment)) + Payload(contents, alignment);
      DenseOk(data, EntryOf(kind, contents, alignment, |before|), alignment) <==>
      DenseScalesFine(kind.abi, kind.shape, if |contents| > 1 then contents[1] else [])
    ensures DenseRecordSize(kind.abi, kind.shape, sidecar, alignment) ==
            EntryOf(kind, contents, alignment, |before|).storedBytes
  {
    AppendedIsCommon(before, kind, contents, alignment);
    AlignUpFacts(EndOf(HEADER, Sizes(contents)), alignment);
    var record := RecordBytes(Sizes(contents), alignment);
    PlacedOrderly(HEADER, Sizes(contents), record);
    DenseSizeIsLayout(kind.abi, kind.shape, sidecar, alignment);
    var s := Place(HEADER, Sizes(contents));
    if |contents| > 1 {
      WrittenSection(kind, contents, alignment, |before|, 1);
    }
    hide DataBytes, ScaleBytes, CommonOk, AlignUp, EndOf, Place, Payload, Packed, DenseRecordSize, DenseLegal, DenseScalesFine;
    OrderlyAt(s, HEADER, record, 0);
    if |s| > 1 {
      OrderlyAt(s, HEADER, record, 1);
    }
  }

  /** Records already in a pack stay valid while it grows. */
  lemma AppendKeepsRecords(data: seq<Cell>, more: seq<Cell>, e: Entry, alignment: nat)
    requires alignment > 0 && CommonOk(data, e, alignment)
    ensures CommonOk(data + more, e, alignment)
  {
    assert (data + more)[e.offset..e.offset + HEADER] == data[e.offset..e.offset + HEADER];
    assert (data + more)[e.offset + HEADER..e.offset + e.storedBytes] == data[e.offset + HEADER..e.offset + e.storedBytes];
  }

  // The two record writers

  datatype Matrix = Matrix(codes: seq<Cell>, scales: seq<Cell>)

  function GateCodes(gate: Option<Matrix>): seq<Cell> { if gate.Some? then gate.value.codes else [] }

  function GateScales(gate: Option<Matrix>): seq<Cell> { if gate.Some? then gate.value.scales else [] }

  /** The four sections of an expert: gate and up together, then down. */
  function ExpertContents(gate: Option<Matrix>, up: Matrix, down: Matrix): seq<seq<Cell>> {
    [GateCodes(gate) + up.codes, GateScales(gate) + up.scales, down.codes, down.scales]
  }

  /** The encoder's output has the sizes that its encoding calls for. */
  predicate Encoded(abi: Abi, hidden: nat, intermediate: nat, contents: seq<seq<Cell>>) {
    Sizes(contents) == ExpertSections(abi, hidden, intermediate)
  }

  /**
   An expert is written exactly when its encoding fits its mathematics and the pack is aligned; then it is valid if
   and only if its scales have the values that the validator asks for.
  */
  method WriteExpertRecord(f: PackFile, gate: Option<Matrix>, up: Matrix, down: Matrix, layer: nat, expert: nat,
                           hidden: nat, intermediate: nat, alignment: nat, abi: Abi)
    returns (r: Option<Entry>)
    requires f.position == |f.data| && alignment > 0
    requires ExpertLegal(abi, gate.Some?, hidden, intermediate) ==>
             Encoded(abi, hidden, intermediate, ExpertContents(gate, up, down))
    modifies f
    ensures r.Some? <==> ExpertLegal(abi, gate.Some?, hidden, intermediate) && |old(f.data)| % alignment == 0
    ensures r.None? ==> f.data == old(f.data)
    ensures r.Some? ==> r.value == EntryOf(ExpertKind(abi, gate.Some?, layer, expert, hidden, intermediate,
      FirstRows(abi, intermediate)), ExpertContents(gate, up, down), alignment, |old(f.data)|)
    ensures r.Some? ==>
      (ExpertOk(f.data, r.value, alignment) <==>
       ExpertScalesFine(abi, hidden, intermediate, GateScales(gate) + up.scales, down.scales))
    ensures r.Some? ==> ExpertRecordSize(hidden, intermediate, alignment, abi, gate.Some?) == Some(r.value.storedBytes)
    ensures r.Some? ==> |f.data| == |old(f.data)| + r.value.storedBytes && old(f.data) <= f.data
    ensures f.position == |f.data|
  {
    hide ExpertOk, ExpertSections, ExpertRecordSize, Payload, Packed, ExpertLegal, RecordBytes, ExpertScalesFine;
    ghost var before := f.data;
    if !ExpertLegal(abi, gate.Some?, hidden, intermediate) { return None; }
    var kind := ExpertKind(abi, gate.Some?, layer, expert, hidden, intermediate, FirstRows(abi, intermediate));
    var contents := ExpertContents(gate, up, down);
    r := WriteRecord(f, kind, contents, alignment);
    if r.Some? {
      WrittenExpertIsValid(before, kind, contents, alignment);
      PayloadLength(contents, alignment);
    }
  }

  lemma PayloadLength(contents: seq<seq<Cell>>, alignment: nat)
    requires alignment > 0
    ensures HEADER + |Payload(contents, alignment)| == RecordBytes(Sizes(contents), alignment)
  {
    PayloadFits(contents, alignment);
  }

  /** Scales that are empty get no section. */
  function DenseContents(data: seq<Cell>, scales: seq<Cell>): seq<seq<Cell>> {
    [data] + if scales == [] then [] else [scales]
  }

  /** A dense matrix is written exactly when the pack is aligned, and then it is valid if and only if its scales are. */
  method WriteDenseRecord(f: PackFile, abi: Abi, name: string, shape: seq<nat>, data: seq<Cell>, scales: seq<Cell>,
                          sidecar: nat, alignment: nat)
    returns (r: Option<Entry>)
    requires f.position == |f.data| && alignment > 0 && DenseLegal(abi, shape) && sidecar in {6, 8}
    requires |data| == DataBytes(abi, shape) && |scales| == ScaleBytes(abi, shape, sidecar)
    modifies f
    ensures r.Some? <==> |old(f.data)| % alignment == 0
    ensures r.None? ==> f.data == old(f.data)
    ensures r.Some? ==> r.value == EntryOf(DenseKind(abi, name, shape), DenseContents(data, scales), alignment, |old(f.data)|)
    ensures r.Some? ==> (DenseOk(f.data, r.value, alignment) <==> DenseScalesFine(abi, shape, scales))
    ensures r.Some? ==> DenseRecordSize(abi, shape, sidecar, alignment) == r.value.storedBytes
    ensures r.Some? ==> |f.data| == |old(f.data)| + r.value.storedBytes && old(f.data) <= f.data
    ensures f.position == |f.data|
  {
    hide DenseOk, DataBytes, ScaleBytes, DenseRecordSize, Payload, Packed, DenseLegal, RecordBytes, DenseScalesFine;
    ghost var before := f.data;
    var kind := DenseKind(abi, name, shape);
    var contents := DenseContents(data, scales);
    assert Sizes(contents) == DenseSections(abi, shape, sidecar);
    r := WriteRecord(f, kind, contents, alignment);
    if r.Some? {
      WrittenDenseIsValid(before, kind, contents, sidecar, alignment);
      PayloadLength(contents, alignment);
    }
  }
}
