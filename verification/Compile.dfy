/**
 A whole compilation run, and sequences of runs that crash and are resumed: what is published in the end is
 what one uninterrupted run publishes, and nothing is published before it is complete.
 */
module Compile {
  import opened Options
  import opened Calibration
  import opened CompilePlan
  import opened CompileDisk
  import opened CompileResume
  import opened CompileSteps

  // The manifest

  function RecordsOf(d: Dir, n: Name): seq<Record> {
    if n in d && d[n].Pack? then d[n].records else []
  }

  function NamesOf(ids: set<nat>): (names: set<Name>)
    ensures forall n :: n in names <==> n.ExpertPack? && n.index in ids
  {
    set p | p in ids :: ExpertPack(p)
  }

  function BuildManifest(d: Dir, s: State, calibration: Option<Snapshot>): ManifestBody {
    var names := {DensePack} + NamesOf(PackIds(s.experts));
    ManifestBody(s.contract, s.dense, s.experts, map n | n in names :: RecordsOf(d, n), calibration)
  }

  /** The directory holds everything but the closing files. */
  ghost predicate Assembled(job: Job, d: Dir, s: State)
    requires job.Valid()
  {
    Running(job, d, s, PackCount(job)) && s.dense == DenseEntries(job, |job.tensors|) &&
    DenseReady(job, d) && Described(job, d, job.metadata) && Program in d && d[Program] == ProgramText &&
    forall n :: n in d ==> CleanName(job, PackCount(job), n) || n in {Manifest, Report}
  }

  lemma RunningPacks(job: Job, d: Dir, s: State, k: nat)
    requires job.Valid() && Running(job, d, s, k)
    ensures s.experts == ExpertEntries(job, k) && s.contract == job.contract
    ensures forall j: nat :: j < k ==> PackInPlace(job, d, j)
  {}

  lemma AssembledPacks(job: Job, d: Dir, s: State)
    requires job.Valid() && Assembled(job, d, s)
    ensures forall j: nat :: j < PackCount(job) ==> PackInPlace(job, d, j)
    ensures PackIds(s.experts) == Below(PackCount(job))
  {
    hide PackCount, Below, ExpertEntries, PackInPlace, ResumePrefix, PackIds, StateOk, DenseRecords, DenseEntries;
    hide Described, CleanName, Job.Valid;
    RunningPacks(job, d, s, PackCount(job));
    RunningResumes(job, d, s, PackCount(job));
  }

  /** What the directory holds under one pack name. */
  lemma ManifestPack(job: Job, d: Dir, n: Name)
    requires job.Valid() && DenseReady(job, d) && forall j: nat :: j < PackCount(job) ==> PackInPlace(job, d, j)
    ensures n in PackFiles(job) <==> n == DensePack || (n.ExpertPack? && n.index < PackCount(job))
    ensures n in PackFiles(job) ==> n in d && d[n] == Pack(PackFiles(job)[n])
  {
    hide PackCount, StartOf, ExpertRecords, DenseRecords, Job.Valid, PackNames;
    if n.ExpertPack? && n.index < PackCount(job) {
      assert PackInPlace(job, d, n.index);
    }
  }

  lemma BuiltPack(d: Dir, s: State, n: Name)
    ensures n in BuildManifest(d, s, None).packs <==> n == DensePack || (n.ExpertPack? && n.index in PackIds(s.experts))
    ensures n in BuildManifest(d, s, None).packs && n in d && d[n].Pack? ==>
      BuildManifest(d, s, None).packs[n] == d[n].records
  {
    hide PackIds, NamesOf;
  }

  lemma ManifestPacks(job: Job, d: Dir, s: State)
    requires job.Valid() && Assembled(job, d, s)
    ensures BuildManifest(d, s, None).packs == PackFiles(job)
  {
    hide *;
    var built, files := BuildManifest(d, s, None).packs, PackFiles(job);
    forall n
      ensures n in built <==> n in files
      ensures n in files ==> built[n] == files[n]
    {
      BuiltIsFinal(job, d, s, n);
    }
    assert built == files;
  }

  lemma BuiltIsFinal(job: Job, d: Dir, s: State, n: Name)
    requires job.Valid() && Assembled(job, d, s)
    ensures
      var built, files := BuildManifest(d, s, None).packs, PackFiles(job);
      (n in built <==> n in files) && (n in files ==> built[n] == files[n])
  {
    AssembledPacks(job, d, s);
    AssembledDense(job, d, s);
    hide Assembled, PackFiles, PackIds, BuildManifest, Job.Valid, DenseReady, PackInPlace, PackCount, Below;
    ManifestPack(job, d, n);
    BuiltPack(d, s, n);
  }

  lemma AssembledDense(job: Job, d: Dir, s: State)
    requires job.Valid() && Assembled(job, d, s)
    ensures DenseReady(job, d)
  {
    hide Running, DenseEntries, DenseReady, PackCount, Described, CleanName;
  }

  /** The manifest is read off the directory and the state; it is the one of an uninterrupted run. */
  lemma ManifestIsFinal(job: Job, d: Dir, s: State)
    requires job.Valid() && Assembled(job, d, s)
    ensures BuildManifest(d, s, DenseSnapshot(job)) == FinalBody(job)
  {
    hide ExpertEntries, DenseEntries, PackCount, PackFiles, DenseSnapshot, Job.Valid;
    ManifestPacks(job, d, s);
    RunningPacks(job, d, s, PackCount(job));
  }

  lemma AssembledStep(job: Job, d: Dir, s: State, n: Name, f: File)
    requires job.Valid() && Assembled(job, d, s) && n in {Manifest, Report}
    requires Running(job, d[n := f] - {Temp(n)}, s, PackCount(job))
    ensures Assembled(job, d[n := f] - {Temp(n)}, s)
  {
    hide Running, DenseEntries, DenseRecords, PackCount, Job.Valid;
  }

  /** What an assembled directory with its marker holds under each final name. */
  lemma FinalAt(job: Job, d: Dir, s: State, n: Name)
    requires job.Valid() && Assembled(job, d, s) && n in FinalNames(job)
    ensures n !in {Manifest, Report, Completed} ==> n in d && d[n] == FinalContent(job, n)
  {
    hide Running, StartOf, DenseRecords, DenseEntries, ExpertRecords, PackCount, FinalBody, Job.Valid, Below, PackNames;
    hide PackIds, CleanName;
    AssembledPacks(job, d, s);
    if n.ExpertPack? {
      assert PackInPlace(job, d, n.index);
    }
  }

  lemma AssembledNames(job: Job, d: Dir, s: State, n: Name)
    requires job.Valid() && Assembled(job, d, s) && n in d && n != StateFile
    ensures n in FinalNames(job)
  {
    hide Running, DenseReady, DenseEntries, PackCount, FinalBody, Job.Valid, PackNames;
  }

  /** With its three closing files an assembled directory is complete. */
  lemma MarkerCompletes(job: Job, d: Dir, s: State)
    requires job.Valid() && Assembled(job, d, s) && CalibrationFits(job)
    requires Manifest in d && d[Manifest] == ManifestContent(FinalBody(job))
    requires Report in d && d[Report].ReportContent?
    ensures Complete(job, d[Completed := Marker(FinalBody(job))])
  {
    hide Assembled, StartOf, DenseRecords, ExpertRecords, PackCount, FinalBody, Job.Valid, PackNames, CalibrationFits;
    var e := d[Completed := Marker(FinalBody(job))] - {StateFile};
    forall n
      ensures n in e <==> n in FinalNames(job)
      ensures n in e && n != Report ==> n in FinalNames(job) && e[n] == FinalContent(job, n)
    {
      if n in FinalNames(job) {
        FinalAt(job, d, s, n);
      } else if n in d && n != StateFile {
        AssembledNames(job, d, s, n);
      }
    }
    assert e.Keys == FinalNames(job);
  }

  predicate ContainerValid(d: Dir) {
    Manifest in d && d[Manifest].ManifestContent? && Completed in d && d[Completed] == Marker(d[Manifest].body) &&
    forall n :: n in d[Manifest].body.packs ==> n in d && d[n] == Pack(d[Manifest].body.packs[n])
  }

  lemma FinalFile(job: Job, d: Dir, n: Name)
    requires job.Valid() && IsFinal(job, d) && n in FinalNames(job) && n != Report
    ensures n in d && d[n] == FinalContent(job, n)
  {
    hide FinalNames, FinalContent, Job.Valid;
  }

  lemma FinalFiles(job: Job, d: Dir, n: Name)
    requires job.Valid() && IsFinal(job, d)
    ensures n in PackFiles(job) ==> n in d && d[n] == Pack(PackFiles(job)[n])
    ensures d[Manifest] == ManifestContent(FinalBody(job)) && d[Completed] == Marker(FinalBody(job))
  {
    hide StartOf, DenseRecords, ExpertRecords, PackCount, FinalBody, Job.Valid, PackNames, IsFinal;
    FinalFile(job, d, Manifest);
    FinalFile(job, d, Completed);
    if n in PackFiles(job) {
      FinalFile(job, d, n);
    }
  }

  lemma CompleteIsValid(job: Job, d: Dir)
    requires job.Valid() && Complete(job, d)
    ensures ContainerValid(d)
  {
    var e := d - {StateFile};
    FinalFiles(job, e, Manifest);
    assert FinalBody(job).packs == PackFiles(job);
    hide IsFinal, PackFiles, FinalBody, Job.Valid, CalibrationFits;
    forall n | n in PackFiles(job)
      ensures n in d && d[n] == Pack(PackFiles(job)[n])
    {
      FinalFiles(job, e, n);
    }
  }

  /** Writes the manifest, the report and, last, the completion marker. */
  method WriteClosing(job: Job, disk: Disk, s: State, calibration: Option<Snapshot>, stamp: int) returns (ok: bool)
    requires job.Valid() && disk.At(job, s, PackCount(job)) && Assembled(job, disk.partial.value, s)
    requires CalibrationFits(job) && calibration == DenseSnapshot(job)
    modifies disk`partial, disk`output, disk`budget
    ensures disk.output.None? && disk.partial.Some? && (disk.crashFree ==> ok)
    ensures if ok then Complete(job, disk.partial.value) else PartialOk(job, disk.partial.value)
    ensures Stateful(disk.partial.value)
  {
    hide Assembled, Running, FinalBody, BuildManifest, DenseSnapshot, CalibrationFits, PackCount, Job.Valid, Complete;
    ghost var k := PackCount(job);
    var body := BuildManifest(disk.partial.value, s, calibration);
    ManifestIsFinal(job, disk.partial.value, s);
    ghost var d := disk.partial.value;
    ok := disk.Replace(job, Manifest, ManifestContent(body), s, k);
    RunningIsStateful(job, disk.partial);
    if !ok { return; }
    AssembledStep(job, d, s, Manifest, ManifestContent(body));
    d := disk.partial.value;
    ok := disk.Replace(job, Report, ReportContent(stamp), s, k);
    RunningIsStateful(job, disk.partial);
    if !ok { return; }
    AssembledStep(job, d, s, Report, ReportContent(stamp));
    d := disk.partial.value;
    WriteKeepsRunning(job, d, s, k, Temp(Completed), Torn);
    ok := disk.Write(Temp(Completed), Torn);
    if !ok { return; }
    WriteKeepsRunning(job, d, s, k, Temp(Completed), Marker(body));
    assert d[Temp(Completed) := Torn][Temp(Completed) := Marker(body)] == d[Temp(Completed) := Marker(body)];
    ok := disk.Write(Temp(Completed), Marker(body));
    if !ok { return; }
    MarkerCompletes(job, d, s);
    NoMarkerYet(job, d, s);
    assert d[Temp(Completed) := Marker(body)][Completed := Marker(body)] - {Temp(Completed)} == d[Completed := Marker(body)];
    ok := disk.Rename(Temp(Completed), Completed);
  }

  lemma NoMarkerYet(job: Job, d: Dir, s: State)
    requires job.Valid() && Assembled(job, d, s)
    ensures Temp(Completed) !in d
  {
    hide Running, PackCount, Job.Valid, DenseEntries;
  }

  /** Validates a complete directory, drops its state file and renames it to the output. */
  method PublishComplete(job: Job, disk: Disk) returns (r: Outcome)
    requires job.Valid() && disk.output.None? && disk.partial.Some? && Complete(job, disk.partial.value)
    modifies disk`partial, disk`output, disk`budget
    ensures Consistent(job, disk.partial, disk.output)
    ensures r in {Crashed, Finished} && (disk.crashFree ==> r != Crashed)
    ensures if r == Finished then disk.output.Some? && CalibrationFits(job)
            else disk.output.None? && disk.partial.Some? && Stateful(disk.partial.value)
  {
    hide ContainerValid, IsFinal, CalibrationFits;
    CompleteIsValid(job, disk.partial.value);
    if !ContainerValid(disk.partial.value) { return Refused(Invalid); }
    ghost var d := disk.partial.value;
    if StateFile in disk.partial.value {
      assert d - {StateFile} - {StateFile} == d - {StateFile};
      var ok := disk.Unlink(StateFile);
      if !ok { return Crashed; }
    }
    assert disk.partial.value == d - {StateFile};
    var ok := disk.Publish();
    r := if ok then Finished else Crashed;
  }

  // Whole runs

  /** The states a resumed run finds under way. */
  method Resume(job: Job, disk: Disk) returns (r: Outcome, s: State, ghost k: nat)
    requires job.Valid() && disk.output.None? && disk.partial.Some? && PartialOk(job, disk.partial.value)
    requires !Complete(job, disk.partial.value)
    modifies disk`partial, disk`output, disk`budget
    ensures disk.output.None? && disk.partial.Some? && PartialOk(job, disk.partial.value)
    ensures disk.crashFree ==> r != Crashed
    ensures r.Refused? <==> Stuck(old(disk.partial).value)
    ensures r.Refused? ==> r == Refused(NoState) && disk.partial == old(disk.partial)
    ensures r.Finished? ==> disk.At(job, s, k) && Clean(job, disk.partial.value, k)
    ensures !r.Refused? ==> Stateful(disk.partial.value)
  {
    hide Running, StateOk, ResumePrefix, Clean, Complete, Job.Valid;
    var d := disk.partial.value;
    s, k := State(job.contract, [], [], None), 0;
    if StateFile !in d || !d[StateFile].StateContent? {
      NoStateIsStuck(job, d);
      return Refused(NoState), s, k;
    }
    k := FindCommitted(job, d);
    s := d[StateFile].state;
    if s.contract != job.contract { return Refused(OptionsChanged), s, k; }
    var ok := DiscardUncommitted(job, disk, s, k);
    RunningIsStateful(job, disk.partial);
    if !ok { return Crashed, s, k; }
    RunningResumes(job, disk.partial.value, s, k);
    ok := ValidateResumePrefix(job, disk.partial.value, s);
    if !ok { return Refused(BadPrefix), s, k; }
    r := Finished;
  }

  lemma NoStateIsStuck(job: Job, d: Dir)
    requires job.Valid() && PartialOk(job, d) && !Complete(job, d)
    ensures Stuck(d) <==> !(StateFile in d && d[StateFile].StateContent?)
  {
    hide StateOk, Job.Valid, Complete;
  }

  lemma FindCommitted(job: Job, d: Dir) returns (k: nat)
    requires job.Valid() && PartialOk(job, d) && !Complete(job, d) && !Stuck(d)
    ensures StateFile in d && d[StateFile].StateContent? && Running(job, d, d[StateFile].state, k)
    ensures d[StateFile].state.contract == job.contract
  {
    hide Job.Valid, Complete, Stuck, AllAllowed, Commits;
    ghost var s, n :| Running(job, d, s, n);
    k := n;
  }

  /** Metadata, program, manifest, report and marker of a run with all its packs. */
  method Close(job: Job, disk: Disk, calibration: CalibrationSet?, s: State, stamp: int) returns (r: Outcome)
    requires job.Valid() && disk.At(job, s, PackCount(job)) && Clean(job, disk.partial.value, PackCount(job))
    requires DenseReady(job, disk.partial.value) && s.dense == DenseEntries(job, |job.tensors|)
    requires Counts(job, calibration, |job.tensors|)
    modifies disk`partial, disk`output, disk`budget
    ensures Consistent(job, disk.partial, disk.output) && (disk.crashFree ==> r != Crashed)
    ensures r.Refused? ==> r.reason == BadCalibration && !CalibrationFits(job)
    ensures if r.Finished? then disk.output.Some? && CalibrationFits(job)
            else disk.output.None? && disk.partial.Some? && Stateful(disk.partial.value)
  {
    hide Running, Job.Valid, PackCount, DenseRecords, DenseEntries, CountersAfter, Complete, IsFinal, Finalizable, TakeSnapshot;
    ghost var k := PackCount(job);
    var ok := CopyMetadata(job, disk, s, k);
    RunningIsStateful(job, disk.partial);
    if !ok { return Crashed; }
    ok := disk.Replace(job, Program, ProgramText, s, k);
    RunningIsStateful(job, disk.partial);
    if !ok { return Crashed; }
    assert Assembled(job, disk.partial.value, s);
    var report := None;
    if calibration != null {
      report := calibration.Finalize();
      if report.None? { return Refused(BadCalibration); }
    }
    ok := WriteClosing(job, disk, s, report, stamp);
    if !ok { return Crashed; }
    r := PublishComplete(job, disk);
  }

  /** One run: fresh, or resuming what an earlier run left. */
  method Run(job: Job, disk: Disk, resume: bool, stamp: int) returns (r: Outcome)
    requires job.Valid() && Consistent(job, disk.partial, disk.output)
    modifies disk`partial, disk`output, disk`budget
    ensures Consistent(job, disk.partial, disk.output)
    ensures disk.crashFree ==> r != Crashed
    ensures r.Finished? ==> old(disk.output).None? && disk.output.Some? && CalibrationFits(job)
    ensures !r.Finished? ==> disk.output == old(disk.output)
    ensures r == Refused(OutputExists) <==> old(disk.output).Some?
    ensures r == Refused(PartialExists) <==> old(disk.output).None? && old(disk.partial).Some? && !resume
    ensures r == Refused(NoState) <==>
            old(disk.output).None? && old(disk.partial).Some? && resume && Stuck(old(disk.partial).value)
    ensures r in {Refused(OutputExists), Refused(PartialExists), Refused(NoState)} ==> disk.partial == old(disk.partial)
    ensures r == Refused(BadCalibration) ==> !CalibrationFits(job)
    ensures r !in {Refused(OptionsChanged), Refused(BadPrefix), Refused(Invalid)}
    ensures old(disk.output).None? && old(disk.partial).None? && !disk.crashFree && old(disk.budget) <= 3 ==>
            r == Crashed &&
            if old(disk.budget) == 0 then disk.partial.None? else disk.partial.Some? && Stuck(disk.partial.value)
    ensures old(disk.output).None? &&
            (if old(disk.partial).None? then disk.crashFree || old(disk.budget) > 3 else Stateful(old(disk.partial).value)) ==>
            disk.output.Some? || (disk.partial.Some? && Stateful(disk.partial.value))
  {
    hide Running, Job.Valid, DenseRecords, DenseEntries, CountersAfter, Complete, IsFinal, Stuck, Clean, DenseReady;
    if disk.output.Some? { return Refused(OutputExists); }
    var calibration: CalibrationSet? := null;
    if job.calibration.Some? {
      calibration := new CalibrationSet(job.calibration.value);
    }
    assert Counts(job, calibration, 0) by { NoCountsYet(job); }
    var s: State;
    ghost var k: nat := 0;
    if disk.partial.Some? {
      if !resume { return Refused(PartialExists); }
      MarkerMeansComplete(job, disk.partial.value);
      if Manifest in disk.partial.value && Completed in disk.partial.value {
        r := PublishComplete(job, disk);
        return;
      }
      r, s, k := Resume(job, disk);
      if !r.Finished? { return; }
    } else {
      var ok;
      ok, s := Begin(job, disk);
      if !ok { return Crashed; }
    }
    var t;
    r, t := DensePhase(job, disk, calibration, s, k);
    RunningIsStateful(job, disk.partial);
    if !r.Finished? { return; }
    var ok, u;
    ghost var n;
    ok, u, n := ExpertPhase(job, disk, t, k);
    RunningIsStateful(job, disk.partial);
    if !ok { return Crashed; }
    r := Close(job, disk, calibration, u, stamp);
  }

  lemma NoCountsYet(job: Job)
    ensures CountersAfter(job, 0) == Some(NO_COUNTS)
  {}

  lemma MarkerMeansComplete(job: Job, d: Dir)
    requires job.Valid() && PartialOk(job, d)
    ensures Complete(job, d) <==> Manifest in d && Completed in d
    ensures Stuck(d) ==> !Complete(job, d)
  {
    hide StateOk, Job.Valid, CalibrationFits, PackCount, FinalBody;
    if Complete(job, d) {
      assert Manifest in d - {StateFile};
    }
  }

  datatype Attempt = Attempt(resume: bool, operations: nat, stamp: int)

  lemma Reasons(r: Outcome)
    ensures r in {Crashed, Finished, Refused(OutputExists), Refused(PartialExists), Refused(NoState),
                  Refused(OptionsChanged), Refused(BadPrefix), Refused(BadCalibration), Refused(Invalid)}
  {
    if r.Refused? {
      match r.reason
      case OutputExists =>
      case PartialExists =>
      case NoState =>
      case OptionsChanged =>
      case BadPrefix =>
      case BadCalibration =>
      case Invalid =>
    }
  }

  /** Two final directories differ at most in the timing report. */
  lemma OneResult(job: Job, d: Dir, e: Dir)
    requires job.Valid() && IsFinal(job, d) && IsFinal(job, e)
    ensures d - {Report} == e - {Report}
  {
    hide FinalContent, FinalNames, Job.Valid;
  }

  /** The operations of the first attempt that comes to any, or zero. */
  function FirstOperations(attempts: seq<Attempt>): nat {
    if attempts == [] then 0
    else
      var before := FirstOperations(attempts[..|attempts| - 1]);
      if before > 0 then before else attempts[|attempts| - 1].operations
  }

  /** What is on disk after attempts of which the first to get anywhere had so many operations. */
  ghost predicate Began(disk: Disk, operations: nat)
    reads disk
  {
    if operations == 0 then disk.partial.None? && disk.output.None?
    else if operations <= 3 then disk.output.None? && disk.partial.Some? && Stuck(disk.partial.value)
    else disk.output.Some? || (disk.partial.Some? && Stateful(disk.partial.value))
  }

  /** Any number of runs, each of which may crash before any of its file operations. */
  method RunMany(job: Job, attempts: seq<Attempt>) returns (disk: Disk)
    requires job.Valid()
    ensures Consistent(job, disk.partial, disk.output) && fresh(disk) && !disk.crashFree
    ensures Began(disk, FirstOperations(attempts))
  {
    hide Job.Valid, PartialOk, IsFinal, CalibrationFits, Stuck, Stateful;
    disk := new Disk(false, 0);
    for i := 0 to |attempts|
      invariant Consistent(job, disk.partial, disk.output) && fresh(disk) && !disk.crashFree
      invariant Began(disk, FirstOperations(attempts[..i]))
    {
      assert attempts[..i + 1][..i] == attempts[..i];
      disk.budget := attempts[i].operations;
      var r := Run(job, disk, attempts[i].resume, attempts[i].stamp);
    }
    assert attempts[..|attempts|] == attempts;
  }

  /**
   Crash refinement: after any crashes, a run that is allowed to end finds or publishes the uninterrupted run's
   directory, the report aside, exactly if there is one and the first attempt to create the partial directory did
   not crash before it had renamed its first state into place.
  */
  method RefinesUninterrupted(job: Job, attempts: seq<Attempt>, stamp: int, other: int)
    returns (crashed: Disk, whole: Disk)
    requires job.Valid()
    ensures whole.output.Some? <==> CalibrationFits(job)
    ensures whole.output.Some? ==> IsFinal(job, whole.output.value)
    ensures crashed.output.Some? ==> whole.output.Some? && crashed.output.value - {Report} == whole.output.value - {Report}
    ensures crashed.output.Some? <==> whole.output.Some? && !(1 <= FirstOperations(attempts) <= 3)
    ensures 1 <= FirstOperations(attempts) <= 3 ==> crashed.partial.Some? && Stuck(crashed.partial.value)
  {
    hide IsFinal, CalibrationFits, Job.Valid, PartialOk, Stateful, Stuck;
    whole := new Disk(true, 0);
    var w := Run(job, whole, false, other);
    assert w.Finished? || w == Refused(BadCalibration) by { Reasons(w); }
    crashed := RunMany(job, attempts);
    if crashed.output.None? {
      crashed.crashFree := true;
      ghost var before := crashed.partial;
      var r := Run(job, crashed, true, stamp);
      assert r.Finished? || r in {Refused(NoState), Refused(BadCalibration)} by { Reasons(r); }
      assert before.Some? ==> !(Stuck(before.value) && Stateful(before.value)) by { StuckIsStateless(before); }
    }
    if crashed.output.Some? && whole.output.Some? {
      OneResult(job, crashed.output.value, whole.output.value);
    }
  }

  lemma StuckIsStateless(d: Option<Dir>)
    ensures d.Some? ==> !(Stuck(d.value) && Stateful(d.value))
  {}
}
