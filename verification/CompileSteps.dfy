/**
 The compilation loop over the crashing disk: a run may stop before any file operation and be resumed any
 number of times; what is published in the end is what one uninterrupted run publishes.
 */
module CompileSteps {
  import opened Options
  import opened Calibration
  import opened CompilePlan
  import opened CompileDisk
  import opened CompileResume

  datatype Refusal = OutputExists | PartialExists | NoState | OptionsChanged | BadPrefix | BadCalibration | Invalid

  datatype Outcome = Crashed | Finished | Refused(reason: Refusal)

  // What is known of the partial directory as the run advances

  /** A name that may be present between the discard step and the manifest. */
  predicate CleanName(job: Job, k: nat, n: Name) {
    match n
    case StateFile => true
    case DensePack => true
    case Program => true
    case ExpertPack(j) => j < k
    case Metadata(f) => f < job.metadata
    case Temp(of) => of.Metadata? && of.file < job.metadata
    case _ => false
  }

  ghost predicate Clean(job: Job, d: Dir, k: nat) {
    forall n :: n in d ==> CleanName(job, k, n)
  }

  predicate DenseReady(job: Job, d: Dir) {
    DensePack in d && d[DensePack] == Pack(DenseRecords(|job.tensors|))
  }

  predicate Described(job: Job, d: Dir, m: nat) {
    forall f: nat :: f < m ==>
      Metadata(f) in d && d[Metadata(f)] == MetadataCopy(f) && Temp(Metadata(f)) !in d
  }

  /** Renaming the written state into place puts it in force. */
  lemma RenamePutsInForce(job: Job, d: Dir, s: State, k: nat, t: State, u: nat)
    requires job.Valid() && Running(job, d, s, k) && StateOk(job, d, t, u)
    ensures Running(job, d[Temp(StateFile) := StateContent(t)][StateFile := StateContent(t)] - {Temp(StateFile)}, t, u)
  {
    var e := d[Temp(StateFile) := StateContent(t)][StateFile := StateContent(t)] - {Temp(StateFile)};
    StateOkFrame(job, d, e, t, u);
  }

  // Commits

  /** Replaces the state file; a crash leaves the old state in force. */
  method CommitState(job: Job, disk: Disk, t: State, ghost u: nat, ghost s: State, ghost k: nat) returns (ok: bool)
    requires job.Valid() && disk.At(job, s, k) && StateOk(job, disk.partial.value, t, u)
    modifies disk`partial, disk`output, disk`budget
    ensures disk.crashFree ==> ok
    ensures !ok ==> disk.At(job, s, k)
    ensures ok ==> disk.At(job, t, u)
    ensures ok ==> disk.partial.value == old(disk.partial).value[StateFile := StateContent(t)] - {Temp(StateFile)}
  {
    hide StateOk, Running, Job.Valid;
    var n := Temp(StateFile);
    ghost var d := disk.partial.value;
    WriteKeepsRunning(job, d, s, k, n, Torn);
    ok := disk.Write(n, Torn);
    if !ok { return; }
    WriteKeepsRunning(job, d, s, k, n, StateContent(t));
    ok := disk.Write(n, StateContent(t));
    assert d[n := Torn][n := StateContent(t)] == d[n := StateContent(t)];
    if !ok { return; }
    RenamePutsInForce(job, d, s, k, t, u);
    ok := disk.Rename(n, StateFile);
  }

  /** Removes files that no committed state speaks of. */
  method UnlinkAll(job: Job, disk: Disk, names: set<Name>, ghost s: State, ghost k: nat) returns (ok: bool)
    requires job.Valid() && disk.At(job, s, k) && forall n :: n in names ==> !Protected(s, k, n)
    modifies disk`partial, disk`output, disk`budget
    ensures disk.At(job, s, k) && (disk.crashFree ==> ok)
    ensures ok ==> disk.partial.value == old(disk.partial).value - names
  {
    hide Running, Protected;
    ghost var d := disk.partial.value;
    var todo := names;
    ok := true;
    while todo != {}
      invariant todo <= names && disk.At(job, s, k) && ok
      invariant disk.partial.value == d - (names - todo)
    {
      var n :| n in todo;
      UnlinkKeepsRunning(job, disk.partial.value, s, k, n);
      ok := disk.Unlink(n);
      if !ok { return; }
      todo := todo - {n};
    }
  }

  predicate Uncommitted(n: Name, committed: set<nat>) {
    Temporary(n) || (n.ExpertPack? && n.index !in committed) || n in {Manifest, Report, Completed}
  }

  lemma CommittedIsClean(job: Job, d: Dir, e: Dir, s: State, k: nat)
    requires job.Valid() && Running(job, d, s, k)
    requires forall n :: n in e ==> n in d && !Uncommitted(n, PackIds(s.experts))
    ensures Clean(job, e, k)
  {
    hide StateOk, ResumePrefix, PackIds, Job.Valid, PackCount;
    RunningResumes(job, d, s, k);
  }

  lemma UncommittedIsUnprotected(job: Job, d: Dir, s: State, k: nat, n: Name)
    requires job.Valid() && Running(job, d, s, k) && Uncommitted(n, PackIds(s.experts))
    ensures !Protected(s, k, n)
  {
    hide StateOk, ResumePrefix, PackIds, Job.Valid, PackCount;
    RunningResumes(job, d, s, k);
  }

  /** Temporary files, packs outside the committed index and the closing files of an earlier run. */
  method DiscardUncommitted(job: Job, disk: Disk, s: State, ghost k: nat) returns (ok: bool)
    requires job.Valid() && disk.At(job, s, k)
    modifies disk`partial, disk`output, disk`budget
    ensures disk.At(job, s, k) && (disk.crashFree ==> ok)
    ensures ok ==> Clean(job, disk.partial.value, k)
    ensures ok ==> forall n :: n in disk.partial.value <==>
      n in old(disk.partial).value && !Uncommitted(n, PackIds(s.experts))
  {
    hide Running, Clean, Job.Valid, PackIds, Protected;
    ghost var d := disk.partial.value;
    forall n | Uncommitted(n, PackIds(s.experts))
      ensures !Protected(s, k, n)
    {
      UncommittedIsUnprotected(job, d, s, k, n);
    }
    var temporaries := set n | n in disk.partial.value && Temporary(n);
    ok := UnlinkAll(job, disk, temporaries, s, k);
    if !ok { return; }
    var committed := PackIds(s.experts);
    var packs := set n | n in disk.partial.value && n.ExpertPack? && n.index !in committed;
    ok := UnlinkAll(job, disk, packs, s, k);
    if !ok { return; }
    ok := UnlinkAll(job, disk, {Manifest, Report, Completed}, s, k);
    if !ok { return; }
    CommittedIsClean(job, d, disk.partial.value, s, k);
  }

  /** Creates the partial directory and its first state. */
  method Begin(job: Job, disk: Disk) returns (ok: bool, s: State)
    requires job.Valid() && disk.partial.None? && disk.output.None?
    modifies disk`partial, disk`output, disk`budget
    ensures Consistent(job, disk.partial, disk.output) && disk.output.None? && (disk.crashFree ==> ok)
    ensures ok ==> disk.At(job, s, 0) && Clean(job, disk.partial.value, 0)
    ensures s == State(job.contract, [], [], None)
    ensures ok <==> disk.crashFree || old(disk.budget) > 3
    ensures !ok && old(disk.budget) == 0 ==> disk.partial.None?
    ensures !ok && old(disk.budget) > 0 ==> disk.partial.Some? && Stuck(disk.partial.value)
  {
    s := State(job.contract, [], [], None);
    ok := disk.MakeDirectory();
    if !ok { return; }
    ok := disk.Write(Temp(StateFile), Torn);
    if !ok { return; }
    ok := disk.Write(Temp(StateFile), StateContent(s));
    if !ok { return; }
    ok := disk.Rename(Temp(StateFile), StateFile);
    assert ok ==> Running(job, disk.partial.value, s, 0);
  }

  // The dense pack

  lemma {:induction false} NoCountersStays(job: Job, i: nat, n: nat)
    requires i <= n <= |job.tensors| && CountersAfter(job, i).None?
    ensures CountersAfter(job, n).None?
  {
    if i < n {
      NoCountersStays(job, i, n - 1);
    }
  }

  ghost predicate Counts(job: Job, calibration: CalibrationSet?, n: nat)
    requires n <= |job.tensors|
    reads calibration
  {
    (calibration == null <==> job.calibration.None?) &&
    (calibration != null ==>
       calibration.config == job.calibration.value && CountersAfter(job, n) == Some(calibration.View()))
  }

  lemma DenseStep(job: Job, i: nat)
    requires i < |job.tensors|
    ensures DenseRecords(i + 1) == DenseRecords(i) + [DenseRecord(i)]
    ensures DenseEntries(job, i + 1) == DenseEntries(job, i) + [DenseEntry(i, DenseSize(job, i), job.tensors[i].bytes)]
    ensures DenseSize(job, i + 1) == DenseSize(job, i) + job.tensors[i].bytes
  {}

  /** One matrix brings the calibration set in step with the counters after it, or shows there are none. */
  method RecordTensor(job: Job, calibration: CalibrationSet?, i: nat) returns (ok: bool)
    requires i < |job.tensors| && Counts(job, calibration, i)
    modifies calibration
    ensures ok ==> Counts(job, calibration, i + 1)
    ensures !ok ==> job.calibration.Some? && CountersAfter(job, i + 1).None?
  {
    ok := true;
    if calibration != null && job.tensors[i].fp4 {
      ok := calibration.RecordSelection(i, job.tensors[i].selection);
    }
  }

  lemma NothingWritten(job: Job)
    ensures DenseRecords(0) == [] && DenseEntries(job, 0) == [] && DenseSize(job, 0) == 0
  {}

  method WriteDensePack(job: Job, disk: Disk, calibration: CalibrationSet?, ghost s: State, ghost k: nat)
    returns (r: Outcome, entries: seq<DenseEntry>)
    requires job.Valid() && disk.At(job, s, k) && s.dense == [] && Counts(job, calibration, 0)
    modifies disk`partial, disk`output, disk`budget, calibration
    ensures disk.At(job, s, k) && (disk.crashFree ==> r != Crashed)
    ensures r.Refused? ==> r.reason == BadCalibration && !CalibrationFits(job)
    ensures r.Finished? ==> entries == DenseEntries(job, |job.tensors|) && Counts(job, calibration, |job.tensors|)
    ensures r.Finished? ==>
      disk.partial.value == old(disk.partial).value[DensePack := Pack(DenseRecords(|job.tensors|))] - {Temp(DensePack)}
  {
    hide Running, CountersAfter, DenseRecords, DenseEntries, DenseSize, Job.Valid, Counts;
    var temporary := Temp(DensePack);
    ghost var d := disk.partial.value;
    var records: seq<Record>, tell := [], 0;
    entries := [];
    NothingWritten(job);
    WriteKeepsRunning(job, d, s, k, temporary, Pack([]));
    var ok := disk.Write(temporary, Pack([]));
    if !ok { return Crashed, entries; }
    for i := 0 to |job.tensors|
      invariant disk.At(job, s, k) && Counts(job, calibration, i)
      invariant records == DenseRecords(i) && entries == DenseEntries(job, i) && tell == DenseSize(job, i)
      invariant disk.partial.value == d[temporary := Pack(records)]
    {
      ok := RecordTensor(job, calibration, i);
      if !ok {
        NoCountersStays(job, i + 1, |job.tensors|);
        return Refused(BadCalibration), entries;
      }
      WriteKeepsRunning(job, d, s, k, temporary, Torn);
      assert d[temporary := Pack(records)][temporary := Torn] == d[temporary := Torn];
      ok := disk.Write(temporary, Torn);
      if !ok { return Crashed, entries; }
      DenseStep(job, i);
      records, entries := records + [DenseRecord(i)], entries + [DenseEntry(i, tell, job.tensors[i].bytes)];
      tell := tell + job.tensors[i].bytes;
      WriteKeepsRunning(job, d, s, k, temporary, Pack(records));
      assert d[temporary := Torn][temporary := Pack(records)] == d[temporary := Pack(records)];
      ok := disk.Write(temporary, Pack(records));
      if !ok { return Crashed, entries; }
    }
    WriteKeepsRunning(job, d, s, k, DensePack, Pack(records));
    UnlinkKeepsRunning(job, d[DensePack := Pack(records)], s, k, temporary);
    assert d[temporary := Pack(records)][DensePack := Pack(records)] - {temporary} ==
           d[DensePack := Pack(records)] - {temporary};
    ok := disk.Rename(temporary, DensePack);
    r := if ok then Finished else Crashed;
  }

  /** A state that adds the dense index tells the truth once the dense pack is in place. */
  lemma DenseCommits(job: Job, d: Dir, s: State, k: nat, e: Dir, t: State)
    requires job.Valid() && StateOk(job, d, s, k) && s.dense == []
    requires forall j: nat :: j < k && ExpertPack(j) in d ==> ExpertPack(j) in e && e[ExpertPack(j)] == d[ExpertPack(j)]
    requires DenseReady(job, e) && t == State(s.contract, DenseEntries(job, |job.tensors|), s.experts, t.snapshot)
    requires job.calibration.Some? ==> CountersAfter(job, |job.tensors|).Some?
    requires t.snapshot == DenseSnapshot(job)
    ensures StateOk(job, e, t, k)
  {
    forall j: nat | j < k
      ensures PackInPlace(job, e, j)
    {
      assert PackInPlace(job, d, j);
    }
  }

  /** Restores the counters stored with a committed dense pack. */
  method RestoreCounters(job: Job, calibration: CalibrationSet, s: State) returns (ok: bool)
    requires job.Valid() && Counts(job, calibration, 0)
    requires CountersAfter(job, |job.tensors|).Some? && s.snapshot == DenseSnapshot(job)
    modifies calibration
    ensures ok ==> Counts(job, calibration, |job.tensors|)
    ensures !ok ==> !CalibrationFits(job)
  {
    ghost var c := CountersAfter(job, |job.tensors|).value;
    RestoreInvertsSnapshot(calibration.config, c);
    assert calibration.View() == NO_COUNTS;
    hide CountsRestorable, PayloadRestorable, RestoredCounters, CountersAfter, Finalizable, TakeSnapshot;
    if s.snapshot.None? { return false; }
    ok := calibration.Restore(s.snapshot.value);
  }

  /** Writes and commits the dense pack, or restores the counters stored with a committed one. */
  method DensePhase(job: Job, disk: Disk, calibration: CalibrationSet?, s: State, ghost k: nat)
    returns (r: Outcome, t: State)
    requires job.Valid() && disk.At(job, s, k) && Counts(job, calibration, 0) && Clean(job, disk.partial.value, k)
    modifies disk`partial, disk`output, disk`budget, calibration
    ensures (r.Finished? && disk.At(job, t, k)) || (!r.Finished? && disk.At(job, s, k))
    ensures disk.crashFree ==> r != Crashed
    ensures r.Refused? ==> r.reason == BadCalibration && !CalibrationFits(job)
    ensures r.Finished? ==> t.dense == DenseEntries(job, |job.tensors|) && t.experts == s.experts
    ensures r.Finished? ==> DenseReady(job, disk.partial.value) && Clean(job, disk.partial.value, k)
    ensures r.Finished? ==> Counts(job, calibration, |job.tensors|)
  {
    hide Running, DenseRecords, DenseEntries, CountersAfter, Job.Valid, Restorable;
    t := s;
    ghost var d, all := disk.partial.value, |job.tensors|;
    if s.dense == [] {
      var entries;
      r, entries := WriteDensePack(job, disk, calibration, s, k);
      if !r.Finished? { return; }
      var snapshot := s.snapshot;
      if calibration != null {
        snapshot := Some(TakeSnapshot(calibration.config, calibration.View()));
      }
      t := s.(dense := entries, snapshot := snapshot);
      RunningState(job, d, s, k);
      DenseCommits(job, d, s, k, disk.partial.value, t);
      hide StateOk, DenseSnapshot;
      var ok := CommitState(job, disk, t, k, s, k);
      if !ok { r := Crashed; }
    } else {
      r := Finished;
      RunningState(job, d, s, k);
      hide StateOk;
      if calibration != null {
        var ok := RestoreCounters(job, calibration, s);
        if !ok { r := Refused(BadCalibration); }
      }
    }
  }

  lemma RunningState(job: Job, d: Dir, s: State, k: nat)
    requires job.Valid() && Running(job, d, s, k)
    ensures StateOk(job, d, s, k)
    ensures s.dense != [] ==> s.dense == DenseEntries(job, |job.tensors|) && DenseReady(job, d)
    ensures s.dense != [] ==> s.snapshot == DenseSnapshot(job)
    ensures s.dense != [] && job.calibration.Some? ==> CountersAfter(job, |job.tensors|).Some?
    ensures job.calibration.None? ==> s.snapshot == None == DenseSnapshot(job)
  {}

  // Expert packs

  lemma NextPackExists(job: Job, k: nat)
    requires job.Valid() && k <= PackCount(job) && StartOf(job, k) < |job.experts|
    ensures k < PackCount(job)
  {}

  lemma LastPack(job: Job, k: nat)
    requires job.Valid() && k <= PackCount(job) && StartOf(job, k) == |job.experts|
    ensures k == PackCount(job)
  {
    if k < PackCount(job) {
      PackHolds(job, k);
    }
  }

  lemma PackStep(job: Job, p: nat, start: nat, i: nat)
    requires start <= i < |job.experts|
    ensures ExpertRecords(start, i + 1) == ExpertRecords(start, i) + [ExpertRecord(i)]
    ensures RangeSize(job, start, i + 1) == RangeSize(job, start, i) + job.experts[i]
    ensures PackEntries(job, p, start, i + 1) ==
            PackEntries(job, p, start, i) + [ExpertEntry(i, p, RangeSize(job, start, i), job.experts[i])]
  {}

  lemma EmptyPack(job: Job, p: nat, start: nat)
    requires start <= |job.experts|
    ensures ExpertRecords(start, start) == [] && RangeSize(job, start, start) == 0 && PackEntries(job, p, start, start) == []
  {}

  /** Fills the temporary file of the next pack until one more record would pass the limit. */
  method FillPack(job: Job, disk: Disk, packIndex: nat, first: nat, ghost s: State, ghost k: nat)
    returns (ok: bool, next: nat, entries: seq<ExpertEntry>)
    requires job.Valid() && disk.At(job, s, k) && k < PackCount(job)
    requires packIndex == k && first == StartOf(job, k)
    modifies disk`partial, disk`output, disk`budget
    ensures disk.At(job, s, k) && (disk.crashFree ==> ok)
    ensures ok ==> first <= next == StartOf(job, k + 1)
    ensures ok ==> entries == PackEntries(job, k, first, next)
    ensures ok ==> disk.partial.value == old(disk.partial).value[Temp(ExpertPack(k)) := Pack(ExpertRecords(first, next))]
  {
    hide Running, ExpertRecords, RangeSize, PackEntries, Job.Valid, PackCount;
    assert StartOf(job, k + 1) == PackEnd(job, first, 0);
    hide StartOf;
    var temporary := Temp(ExpertPack(packIndex));
    ghost var d := disk.partial.value;
    var records: seq<Record>, tell: nat := [], 0;
    next, entries := first, [];
    EmptyPack(job, k, first);
    WriteKeepsRunning(job, d, s, k, temporary, Pack([]));
    ok := disk.Write(temporary, Pack([]));
    if !ok { return; }
    while next < |job.experts|
      invariant first <= next <= |job.experts|
      invariant disk.At(job, s, k) && PackEnd(job, next, tell) == PackEnd(job, first, 0)
      invariant records == ExpertRecords(first, next) && entries == PackEntries(job, k, first, next)
      invariant tell == RangeSize(job, first, next)
      invariant disk.partial.value == d[temporary := Pack(records)]
    {
      if tell > 0 && tell + job.predicted > job.limit { break; }
      WriteKeepsRunning(job, d, s, k, temporary, Torn);
      assert d[temporary := Pack(records)][temporary := Torn] == d[temporary := Torn];
      ok := disk.Write(temporary, Torn);
      if !ok { return; }
      PackStep(job, k, first, next);
      records := records + [ExpertRecord(next)];
      entries := entries + [ExpertEntry(next, packIndex, tell, job.experts[next])];
      tell := tell + job.experts[next];
      next := next + 1;
      WriteKeepsRunning(job, d, s, k, temporary, Pack(records));
      assert d[temporary := Torn][temporary := Pack(records)] == d[temporary := Pack(records)];
      ok := disk.Write(temporary, Pack(records));
      if !ok { return; }
    }
  }

  /** A state that adds the entries of the next pack tells the truth once that pack is in place. */
  lemma PackCommits(job: Job, d: Dir, s: State, k: nat, t: State)
    requires job.Valid() && StateOk(job, d, s, k) && k < PackCount(job)
    requires s.dense == DenseEntries(job, |job.tensors|)
    requires StartOf(job, k) <= StartOf(job, k + 1)
    requires PackInPlace(job, d, k)
    requires t == s.(experts := s.experts + PackEntries(job, k, StartOf(job, k), StartOf(job, k + 1)))
    ensures StateOk(job, d, t, k + 1)
  {
    hide StartOf, PackEntries, PackCount, DenseRecords, ExpertRecords, DenseEntries, DenseSnapshot, CountersAfter, Job.Valid;
    assert t.experts == ExpertEntries(job, k + 1);
  }

  /** Renames a filled pack into place and commits its entries. */
  method CommitPack(job: Job, disk: Disk, packIndex: nat, entries: seq<ExpertEntry>, s: State, ghost k: nat)
    returns (ok: bool, t: State)
    requires job.Valid() && disk.At(job, s, k) && k == packIndex < PackCount(job)
    requires StartOf(job, k) <= StartOf(job, k + 1)
    requires entries == PackEntries(job, k, StartOf(job, k), StartOf(job, k + 1))
    requires Temp(ExpertPack(k)) in disk.partial.value
    requires disk.partial.value[Temp(ExpertPack(k))] == Pack(ExpertRecords(StartOf(job, k), StartOf(job, k + 1)))
    requires s.dense == DenseEntries(job, |job.tensors|)
    modifies disk`partial, disk`output, disk`budget
    ensures t == s.(experts := s.experts + entries) && (disk.crashFree ==> ok)
    ensures if ok then disk.At(job, t, k + 1) else disk.At(job, s, k)
    ensures ok ==> disk.partial.value ==
                   old(disk.partial).value[ExpertPack(k) := old(disk.partial).value[Temp(ExpertPack(k))]]
                                          [StateFile := StateContent(t)] - {Temp(ExpertPack(k)), Temp(StateFile)}
  {
    hide Running, StateOk, PackEntries, ExpertRecords, DenseEntries, StartOf, PackCount, Job.Valid;
    var temporary := Temp(ExpertPack(packIndex));
    ghost var d, f := disk.partial.value, disk.partial.value[temporary];
    t := s.(experts := s.experts + entries);
    WriteKeepsRunning(job, d, s, k, ExpertPack(k), f);
    UnlinkKeepsRunning(job, d[ExpertPack(k) := f], s, k, temporary);
    ok := disk.Rename(temporary, ExpertPack(packIndex));
    if !ok { return; }
    RunningState(job, disk.partial.value, s, k);
    PackCommits(job, disk.partial.value, s, k, t);
    ok := CommitState(job, disk, t, k + 1, s, k);
  }

  /** Writes and commits the remaining expert packs. */
  method ExpertPhase(job: Job, disk: Disk, s0: State, ghost k0: nat) returns (ok: bool, s: State, ghost k: nat)
    requires job.Valid() && disk.At(job, s0, k0) && Clean(job, disk.partial.value, k0)
    requires s0.dense == DenseEntries(job, |job.tensors|) && DenseReady(job, disk.partial.value)
    modifies disk`partial, disk`output, disk`budget
    ensures disk.At(job, s, k) && (disk.crashFree ==> ok)
    ensures ok ==> k == PackCount(job) && Clean(job, disk.partial.value, k) && DenseReady(job, disk.partial.value)
    ensures s.dense == s0.dense
  {
    hide DenseEntries, ExpertRecords, PackEntries, ResumePrefix, DenseRecords;
    hide Running, Job.Valid, StartOf, PackCount, ExpertEntries, AllPacked, PackIds;
    RunningResumes(job, disk.partial.value, s0, k0);
    s, k, ok := s0, k0, true;
    var next, packIndex := |s.experts|, |PackIds(s.experts)|;
    RunningCommits(job, disk.partial.value, s, k);
    while next < |job.experts|
      invariant disk.At(job, s, k) && Clean(job, disk.partial.value, k) && DenseReady(job, disk.partial.value)
      invariant next == StartOf(job, k) && packIndex == k <= PackCount(job) && s.dense == s0.dense && ok
      decreases |job.experts| - next
    {
      NextPackExists(job, k);
      PackHolds(job, k);
      var entries;
      ok, next, entries := FillPack(job, disk, packIndex, next, s, k);
      if !ok { return; }
      var t;
      ok, t := CommitPack(job, disk, packIndex, entries, s, k);
      if !ok { return; }
      s := t;
      k, packIndex := k + 1, packIndex + 1;
    }
    LastPack(job, k);
  }

  lemma RunningCommits(job: Job, d: Dir, s: State, k: nat)
    requires job.Valid() && Running(job, d, s, k)
    ensures |s.experts| == StartOf(job, k) && k <= PackCount(job)
  {}

  // Descriptions

  /** Copies the tokenizer and configuration files. */
  method CopyMetadata(job: Job, disk: Disk, ghost s: State, ghost k: nat) returns (ok: bool)
    requires job.Valid() && disk.At(job, s, k) && Clean(job, disk.partial.value, k) && DenseReady(job, disk.partial.value)
    modifies disk`partial, disk`output, disk`budget
    ensures disk.At(job, s, k) && (disk.crashFree ==> ok)
    ensures ok ==> Clean(job, disk.partial.value, k) && DenseReady(job, disk.partial.value)
    ensures ok ==> Described(job, disk.partial.value, job.metadata)
  {
    hide Running, Job.Valid, DenseRecords;
    ok := true;
    for m := 0 to job.metadata
      invariant disk.At(job, s, k) && Clean(job, disk.partial.value, k) && DenseReady(job, disk.partial.value)
      invariant Described(job, disk.partial.value, m) && ok
    {
      ok := disk.Replace(job, Metadata(m), MetadataCopy(m), s, k);
      if !ok { return; }
    }
  }
}
