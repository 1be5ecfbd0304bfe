/**
 What a resumed compilation checks before it continues: the committed indexes against the pack files, and
 the number of packs already committed.
 */
module CompileResume {
  import opened Options
  import opened Calibration
  import opened CompilePlan
  import opened CompileDisk

  // Byte offsets inside a pack file

  function RecordSize(job: Job, r: Record): nat {
    match r
    case DenseRecord(t) => if t < |job.tensors| then job.tensors[t].bytes else 0
    case ExpertRecord(e) => if e < |job.experts| then job.experts[e] else 0
  }

  function FileSize(job: Job, records: seq<Record>): nat {
    if records == [] then 0
    else FileSize(job, records[..|records| - 1]) + RecordSize(job, records[|records| - 1])
  }

  /** The record that starts at a byte offset. */
  function RecordAt(job: Job, records: seq<Record>, offset: nat): Option<Record> {
    if records == [] then None
    else if offset == FileSize(job, records[..|records| - 1]) then Some(records[|records| - 1])
    else RecordAt(job, records[..|records| - 1], offset)
  }

  lemma RecordAppended(job: Job, records: seq<Record>, r: Record, offset: nat)
    ensures FileSize(job, []) == 0
    ensures FileSize(job, records + [r]) == FileSize(job, records) + RecordSize(job, r)
    ensures RecordAt(job, records + [r], offset) ==
            if offset == FileSize(job, records) then Some(r) else RecordAt(job, records, offset)
  {
    var longer := records + [r];
    assert longer[..|records|] == records;
  }

  lemma {:induction false} DenseSizeGrows(job: Job, i: nat, n: nat)
    requires job.Valid() && i < n <= |job.tensors|
    ensures DenseSize(job, i) < DenseSize(job, n)
  {
    if i + 1 < n {
      DenseSizeGrows(job, i, n - 1);
    }
  }

  lemma {:induction false} DenseFileSize(job: Job, n: nat)
    requires n <= |job.tensors|
    ensures FileSize(job, DenseRecords(n)) == DenseSize(job, n)
  {
    hide FileSize, RecordAt;
    if n == 0 {
      RecordAppended(job, [], DenseRecord(0), 0);
    } else {
      DenseFileSize(job, n - 1);
      RecordAppended(job, DenseRecords(n - 1), DenseRecord(n - 1), 0);
    }
  }

  /** Every dense entry points at its own record. */
  lemma {:induction false} DenseRecordAt(job: Job, n: nat, i: nat)
    requires job.Valid() && i < n <= |job.tensors|
    ensures RecordAt(job, DenseRecords(n), DenseSize(job, i)) == Some(DenseRecord(i))
  {
    hide FileSize, DenseSize, RecordAt, Job.Valid;
    RecordAppended(job, DenseRecords(n - 1), DenseRecord(n - 1), DenseSize(job, i));
    DenseFileSize(job, n - 1);
    if i + 1 < n {
      DenseSizeGrows(job, i, n - 1);
      DenseRecordAt(job, n - 1, i);
    }
  }

  lemma {:induction false} RangeGrows(job: Job, start: nat, i: nat, end: nat)
    requires job.Valid() && start <= i < end <= |job.experts|
    ensures RangeSize(job, start, i) < RangeSize(job, start, end)
  {
    if i + 1 < end {
      RangeGrows(job, start, i, end - 1);
    }
  }

  lemma {:induction false} ExpertFileSize(job: Job, start: nat, end: nat)
    requires start <= end <= |job.experts|
    ensures FileSize(job, ExpertRecords(start, end)) == RangeSize(job, start, end)
  {
    hide FileSize, RecordAt;
    if start == end {
      RecordAppended(job, [], ExpertRecord(0), 0);
    } else {
      ExpertFileSize(job, start, end - 1);
      RecordAppended(job, ExpertRecords(start, end - 1), ExpertRecord(end - 1), 0);
    }
  }

  lemma {:induction false} ExpertRecordAt(job: Job, start: nat, end: nat, i: nat)
    requires job.Valid() && start <= i < end <= |job.experts|
    ensures RecordAt(job, ExpertRecords(start, end), RangeSize(job, start, i)) == Some(ExpertRecord(i))
  {
    hide FileSize, RangeSize, RecordAt, Job.Valid;
    RecordAppended(job, ExpertRecords(start, end - 1), ExpertRecord(end - 1), RangeSize(job, start, i));
    ExpertFileSize(job, start, end - 1);
    if i + 1 < end {
      RangeGrows(job, start, i, end - 1);
      ExpertRecordAt(job, start, end - 1, i);
    }
  }

  // The committed packs

  function PackIds(entries: seq<ExpertEntry>): set<nat> {
    set e | e in entries :: e.pack
  }

  function OfPack(entries: seq<ExpertEntry>, p: nat): seq<ExpertEntry> {
    if entries == [] then []
    else
      var last := entries[|entries| - 1];
      OfPack(entries[..|entries| - 1], p) + if last.pack == p then [last] else []
  }

  lemma {:induction false} OfPackJoins(a: seq<ExpertEntry>, b: seq<ExpertEntry>, p: nat)
    ensures OfPack(a + b, p) == OfPack(a, p) + OfPack(b, p)
  {
    if b == [] {
      assert a + b == a;
    } else {
      assert (a + b)[..|a + b| - 1] == a + b[..|b| - 1];
      OfPackJoins(a, b[..|b| - 1], p);
    }
  }

  lemma {:induction false} OfPackUniform(entries: seq<ExpertEntry>, own: nat, p: nat)
    requires forall i :: 0 <= i < |entries| ==> entries[i].pack == own
    ensures OfPack(entries, p) == if p == own then entries else []
  {
    if entries != [] {
      OfPackUniform(entries[..|entries| - 1], own, p);
    }
  }

  /** Grouping the committed index by pack gives back each pack's own entries. */
  lemma {:induction false} CommittedGroups(job: Job, k: nat, p: nat)
    ensures StartOf(job, p) <= StartOf(job, p + 1)
    ensures OfPack(ExpertEntries(job, k), p) ==
            if p < k then PackEntries(job, p, StartOf(job, p), StartOf(job, p + 1)) else []
  {
    PackGrows(job, p);
    hide StartOf, PackEntries, OfPack;
    if k > 0 {
      CommittedGroups(job, k - 1, p);
      PackGrows(job, k - 1);
      var added := PackEntries(job, k - 1, StartOf(job, k - 1), StartOf(job, k));
      OfPackJoins(ExpertEntries(job, k - 1), added, p);
      OfPackUniform(added, k - 1, p);
    } else {
      OfPackUniform([], 0, p);
    }
  }

  function Below(k: nat): (s: set<nat>)
    ensures |s| == k && forall j: nat :: j in s <==> j < k
  {
    if k == 0 then {} else Below(k - 1) + {k - 1}
  }

  /** Every pack holds at least one record. */
  lemma PackHolds(job: Job, k: nat)
    requires job.Valid() && k < PackCount(job)
    ensures StartOf(job, k) < StartOf(job, k + 1)
  {
    StartsAscend(job, k, PackCount(job) - 1);
    PackGrows(job, k);
  }

  /** The number of distinct packs in the committed index is the index of the next pack. */
  lemma {:induction false} CommittedPacks(job: Job, k: nat)
    requires job.Valid() && k <= PackCount(job)
    ensures PackIds(ExpertEntries(job, k)) == Below(k) && |PackIds(ExpertEntries(job, k))| == k
  {
    hide PackEntries, StartOf, PackCount, Job.Valid, AllPacked;
    if k == 0 {
      assert ExpertEntries(job, k) == [];
    } else {
      hide ExpertEntries, PackIds;
      CommittedPacks(job, k - 1);
      PackHolds(job, k - 1);
      PackIdsJoin(job, k);
    }
  }

  lemma PackIdsJoin(job: Job, k: nat)
    requires k > 0 && StartOf(job, k - 1) < StartOf(job, k)
    ensures PackIds(ExpertEntries(job, k)) == PackIds(ExpertEntries(job, k - 1)) + {k - 1}
  {
    hide PackEntries, StartOf;
    var before, added := ExpertEntries(job, k - 1), PackEntries(job, k - 1, StartOf(job, k - 1), StartOf(job, k));
    assert ExpertEntries(job, k) == before + added;
    hide ExpertEntries;
    assert added[0] in added && forall e :: e in added ==> e.pack == k - 1;
    forall e ensures e in before + added <==> e in before || e in added {}
    assert PackIds(added) == {k - 1};
    assert PackIds(before + added) == PackIds(before) + PackIds(added);
  }

  lemma {:induction false} ExpertsInOrder(job: Job, k: nat)
    ensures forall i :: 0 <= i < |ExpertEntries(job, k)| ==> ExpertEntries(job, k)[i].expert == i
  {
    if k > 0 {
      ExpertsInOrder(job, k - 1);
    }
  }

  // The resume check

  function DenseBytes(entries: seq<DenseEntry>): nat {
    if entries == [] then 0 else DenseBytes(entries[..|entries| - 1]) + entries[|entries| - 1].bytes
  }

  function ExpertBytes(entries: seq<ExpertEntry>): nat {
    if entries == [] then 0 else ExpertBytes(entries[..|entries| - 1]) + entries[|entries| - 1].bytes
  }

  predicate DenseEntryReads(job: Job, records: seq<Record>, e: DenseEntry) {
    var r := DenseRecord(e.tensor);
    RecordAt(job, records, e.offset) == Some(r) && e.bytes == RecordSize(job, r)
  }

  predicate ExpertEntryReads(job: Job, records: seq<Record>, e: ExpertEntry) {
    var r := ExpertRecord(e.expert);
    RecordAt(job, records, e.offset) == Some(r) && e.bytes == RecordSize(job, r)
  }

  predicate DenseIndexed(job: Job, f: File, entries: seq<DenseEntry>) {
    f.Pack? && (forall i :: 0 <= i < |entries| ==> DenseEntryReads(job, f.records, entries[i])) &&
    FileSize(job, f.records) == DenseBytes(entries)
  }

  predicate InPlace(job: Job, records: seq<Record>, entries: seq<ExpertEntry>, i: nat)
    requires i < |entries|
  {
    entries[i].offset == ExpertBytes(entries[..i]) && ExpertEntryReads(job, records, entries[i])
  }

  /** The entries of one pack lie end to end and fill the file. */
  predicate PackIndexed(job: Job, f: File, entries: seq<ExpertEntry>) {
    f.Pack? &&
    (forall i :: 0 <= i < |entries| ==> InPlace(job, f.records, entries, i)) &&
    FileSize(job, f.records) == ExpertBytes(entries)
  }

  predicate PackPresent(job: Job, d: Dir, entries: seq<ExpertEntry>, p: nat) {
    ExpertPack(p) in d && PackIndexed(job, d[ExpertPack(p)], OfPack(entries, p))
  }

  predicate ResumePrefix(job: Job, d: Dir, s: State) {
    (s.dense != [] ==>
       |s.dense| == |job.tensors| && (forall i :: 0 <= i < |s.dense| ==> s.dense[i].tensor == i) &&
       DensePack in d && DenseIndexed(job, d[DensePack], s.dense)) &&
    |s.experts| <= |job.experts| && (forall i :: 0 <= i < |s.experts| ==> s.experts[i].expert == i) &&
    forall p :: p in PackIds(s.experts) ==> PackPresent(job, d, s.experts, p)
  }

  method CheckDense(job: Job, d: Dir, entries: seq<DenseEntry>) returns (ok: bool)
    ensures ok <==> DensePack in d && DenseIndexed(job, d[DensePack], entries)
  {
    if DensePack !in d || !d[DensePack].Pack? {
      return false;
    }
    var records, expected := d[DensePack].records, 0;
    for i := 0 to |entries|
      invariant forall j :: 0 <= j < i ==> DenseEntryReads(job, records, entries[j])
      invariant expected == DenseBytes(entries[..i])
    {
      if !DenseEntryReads(job, records, entries[i]) {
        return false;
      }
      assert entries[..i + 1][..i] == entries[..i];
      expected := expected + entries[i].bytes;
    }
    assert entries[..|entries|] == entries;
    ok := FileSize(job, records) == expected;
  }

  lemma CursorStep(job: Job, records: seq<Record>, entries: seq<ExpertEntry>, i: nat, cursor: nat)
    requires i < |entries| && cursor == ExpertBytes(entries[..i])
    ensures InPlace(job, records, entries, i) <==>
            entries[i].offset == cursor && ExpertEntryReads(job, records, entries[i])
    ensures ExpertBytes(entries[..i + 1]) == cursor + entries[i].bytes
  {
    ExpertBytesAppended(entries[..i], entries[i]);
    assert entries[..i + 1] == entries[..i] + [entries[i]];
  }

  method CheckPack(job: Job, d: Dir, p: nat, entries: seq<ExpertEntry>) returns (ok: bool)
    ensures ok <==> ExpertPack(p) in d && PackIndexed(job, d[ExpertPack(p)], entries)
  {
    hide ExpertEntryReads, FileSize, InPlace;
    if ExpertPack(p) !in d || !d[ExpertPack(p)].Pack? {
      return false;
    }
    var records, cursor := d[ExpertPack(p)].records, 0;
    for i := 0 to |entries|
      invariant forall j :: 0 <= j < i ==> InPlace(job, records, entries, j)
      invariant cursor == ExpertBytes(entries[..i])
    {
      CursorStep(job, records, entries, i, cursor);
      if entries[i].offset != cursor || !ExpertEntryReads(job, records, entries[i]) {
        return false;
      }
      cursor := cursor + entries[i].bytes;
    }
    assert entries[..|entries|] == entries;
    ok := FileSize(job, records) == cursor;
  }

  lemma {:induction false} AbsentPack(entries: seq<ExpertEntry>, p: nat)
    requires p !in PackIds(entries)
    ensures OfPack(entries, p) == []
  {
    if entries != [] {
      var rest := entries[..|entries| - 1];
      assert entries[|entries| - 1] in entries;
      assert p !in PackIds(rest);
      AbsentPack(rest, p);
    }
  }

  method GroupByPack(entries: seq<ExpertEntry>) returns (groups: map<nat, seq<ExpertEntry>>)
    ensures groups.Keys == PackIds(entries)
    ensures forall p :: p in groups ==> groups[p] == OfPack(entries, p)
  {
    groups := map[];
    for i := 0 to |entries|
      invariant groups.Keys == PackIds(entries[..i])
      invariant forall p :: p in groups ==> groups[p] == OfPack(entries[..i], p)
    {
      var e, before, next := entries[i], entries[..i], entries[..i + 1];
      assert next == before + [e] && next[..i] == before;
      if e.pack !in groups {
        AbsentPack(before, e.pack);
      }
      assert PackIds(next) == PackIds(before) + {e.pack} by {
        forall x ensures x in next <==> x in before || x == e {}
      }
      groups := groups[e.pack := (if e.pack in groups then groups[e.pack] else []) + [e]];
    }
    assert entries[..|entries|] == entries;
  }

  /** Decides the resume check. */
  method ValidateResumePrefix(job: Job, d: Dir, s: State) returns (ok: bool)
    ensures ok <==> ResumePrefix(job, d, s)
  {
    if s.dense != [] {
      if |s.dense| != |job.tensors| || exists i :: 0 <= i < |s.dense| && s.dense[i].tensor != i {
        return false;
      }
      ok := CheckDense(job, d, s.dense);
      if !ok { return; }
    }
    if |s.experts| > |job.experts| || exists i :: 0 <= i < |s.experts| && s.experts[i].expert != i {
      return false;
    }
    var groups := GroupByPack(s.experts);
    var todo := groups.Keys;
    while todo != {}
      invariant todo <= groups.Keys
      invariant forall p :: p in groups.Keys - todo ==> PackPresent(job, d, s.experts, p)
    {
      var p :| p in todo;
      ok := CheckPack(job, d, p, groups[p]);
      if !ok {
        assert !PackPresent(job, d, s.experts, p);
        return;
      }
      todo := todo - {p};
    }
    ok := true;
  }

  lemma DenseBytesAppended(entries: seq<DenseEntry>, e: DenseEntry)
    ensures DenseBytes([]) == 0 && DenseBytes(entries + [e]) == DenseBytes(entries) + e.bytes
  {
    assert (entries + [e])[..|entries|] == entries;
  }

  lemma ExpertBytesAppended(entries: seq<ExpertEntry>, e: ExpertEntry)
    ensures ExpertBytes([]) == 0 && ExpertBytes(entries + [e]) == ExpertBytes(entries) + e.bytes
  {
    assert (entries + [e])[..|entries|] == entries;
  }

  lemma {:induction false} CommittedDenseBytes(job: Job, n: nat)
    requires n <= |job.tensors|
    ensures DenseBytes(DenseEntries(job, n)) == DenseSize(job, n)
  {
    hide DenseBytes;
    if n == 0 {
      DenseBytesAppended([], DenseEntry(0, 0, 0));
    } else {
      CommittedDenseBytes(job, n - 1);
      DenseBytesAppended(DenseEntries(job, n - 1), DenseEntry(n - 1, DenseSize(job, n - 1), job.tensors[n - 1].bytes));
    }
  }

  lemma {:induction false} CommittedPackBytes(job: Job, k: nat, start: nat, end: nat)
    requires start <= end <= |job.experts|
    ensures ExpertBytes(PackEntries(job, k, start, end)) == RangeSize(job, start, end)
  {
    hide ExpertBytes;
    if start == end {
      ExpertBytesAppended([], ExpertEntry(0, 0, 0, 0));
    } else {
      CommittedPackBytes(job, k, start, end - 1);
      ExpertBytesAppended(PackEntries(job, k, start, end - 1),
                          ExpertEntry(end - 1, k, RangeSize(job, start, end - 1), job.experts[end - 1]));
    }
  }

  lemma DensePackReads(job: Job)
    requires job.Valid()
    ensures DenseIndexed(job, Pack(DenseRecords(|job.tensors|)), DenseEntries(job, |job.tensors|))
  {
    var n := |job.tensors|;
    var entries := DenseEntries(job, n);
    forall i | 0 <= i < n
      ensures DenseEntryReads(job, DenseRecords(n), entries[i])
    {
      DenseRecordAt(job, n, i);
    }
    DenseFileSize(job, n);
    CommittedDenseBytes(job, n);
  }

  lemma ExpertEntryAt(job: Job, k: nat, start: nat, end: nat, i: nat)
    requires job.Valid() && start <= i < end <= |job.experts|
    ensures InPlace(job, ExpertRecords(start, end), PackEntries(job, k, start, end), i - start)
  {
    var entries, less := PackEntries(job, k, start, end), PackEntries(job, k, start, i);
    hide PackEntries, RangeSize, ExpertBytes, ExpertRecords, RecordAt, FileSize;
    ExpertRecordAt(job, start, end, i);
    CommittedPackBytes(job, k, start, i);
    assert entries[..i - start] == less;
  }

  lemma ExpertPackReads(job: Job, k: nat, start: nat, end: nat)
    requires job.Valid() && start <= end <= |job.experts|
    ensures PackIndexed(job, Pack(ExpertRecords(start, end)), PackEntries(job, k, start, end))
  {
    hide PackEntries, RangeSize, ExpertBytes, ExpertRecords, RecordAt, FileSize, InPlace;
    var entries, records := PackEntries(job, k, start, end), ExpertRecords(start, end);
    forall i | 0 <= i < |entries|
      ensures InPlace(job, records, entries, i)
    {
      ExpertEntryAt(job, k, start, end, start + i);
    }
    ExpertFileSize(job, start, end);
    CommittedPackBytes(job, k, start, end);
  }

  lemma CommittedPackPresent(job: Job, d: Dir, s: State, k: nat, p: nat)
    requires job.Valid() && StateOk(job, d, s, k) && p < k
    ensures PackPresent(job, d, s.experts, p)
  {
    hide PackEntries, ExpertEntries, StartOf, DenseEntries, DenseRecords, ExpertRecords, OfPack;
    hide PackIndexed, AllPacked, PackCount, Job.Valid, DenseSnapshot, CountersAfter;
    CommittedGroups(job, k, p);
    assert PackInPlace(job, d, p);
    ExpertPackReads(job, p, StartOf(job, p), StartOf(job, p + 1));
  }

  lemma CommittedDensePresent(job: Job, d: Dir, s: State, k: nat)
    requires job.Valid() && StateOk(job, d, s, k) && s.dense != []
    ensures |s.dense| == |job.tensors| && (forall i :: 0 <= i < |s.dense| ==> s.dense[i].tensor == i)
    ensures DensePack in d && DenseIndexed(job, d[DensePack], s.dense)
  {
    hide ExpertEntries, StartOf, DenseRecords, DenseIndexed, PackCount, Job.Valid, DenseSnapshot, CountersAfter;
    DensePackReads(job);
  }

  lemma CommittedExperts(job: Job, d: Dir, s: State, k: nat)
    requires job.Valid() && StateOk(job, d, s, k)
    ensures |s.experts| <= |job.experts| && (forall i :: 0 <= i < |s.experts| ==> s.experts[i].expert == i)
    ensures |PackIds(s.experts)| == k && PackIds(s.experts) == Below(k)
  {
    hide ExpertEntries, StartOf, DenseEntries, DenseRecords, ExpertRecords, PackCount, DenseSnapshot, CountersAfter;
    hide PackIds, Job.Valid;
    CommittedPacks(job, k);
    ExpertsInOrder(job, k);
  }

  /** No crash leaves a state that its own resume check refuses. */
  lemma RunningResumes(job: Job, d: Dir, s: State, k: nat)
    requires job.Valid() && Running(job, d, s, k)
    ensures ResumePrefix(job, d, s)
    ensures |PackIds(s.experts)| == k && PackIds(s.experts) == Below(k)
  {
    hide StateOk, PackIds, PackPresent, DenseIndexed, Job.Valid;
    CommittedExperts(job, d, s, k);
    if s.dense != [] {
      CommittedDensePresent(job, d, s, k);
    }
    forall p | p in PackIds(s.experts)
      ensures PackPresent(job, d, s.experts, p)
    {
      CommittedPackPresent(job, d, s, k, p);
    }
  }
}
