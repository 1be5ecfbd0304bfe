/**
 The disk under a compilation that may crash before any file operation, and the states in which a crash
 can leave it.
 */
module CompileDisk {
  import opened Options
  import opened Calibration
  import opened CompilePlan

  /** Names removed at the start of a resumed run. */
  predicate Temporary(n: Name) { n.Temp? && !n.of.Metadata? }

  predicate Named(job: Job, n: Name)
    requires job.Valid()
  {
    match n
    case ExpertPack(k) => k < PackCount(job)
    case Metadata(f) => f < job.metadata
    case Temp(_) => false
    case _ => true
  }

  /** The names a compilation ever uses. */
  predicate Allowed(job: Job, n: Name)
    requires job.Valid()
  {
    if n.Temp? then Named(job, n.of) else Named(job, n)
  }

  ghost predicate AllAllowed(job: Job, d: Dir)
    requires job.Valid()
  {
    forall n :: n in d ==> Allowed(job, n)
  }

  /** Number of packs that a state has committed. */
  ghost predicate Commits(job: Job, s: State, k: nat)
    requires job.Valid()
  {
    k <= PackCount(job) && s.experts == ExpertEntries(job, k)
  }

  /** The files a state speaks of; they are never written again. */
  predicate Protected(s: State, k: nat, n: Name) {
    n == StateFile || (n == DensePack && s.dense != []) || (n.ExpertPack? && n.index < k)
  }

  ghost predicate PackInPlace(job: Job, d: Dir, j: nat)
    requires job.Valid()
  {
    ExpertPack(j) in d && d[ExpertPack(j)] == Pack(ExpertRecords(StartOf(job, j), StartOf(job, j + 1)))
  }

  /** A committed state tells the truth about the directory. */
  ghost predicate StateOk(job: Job, d: Dir, s: State, k: nat)
    requires job.Valid()
  {
    s.contract == job.contract && Commits(job, s, k) && (job.calibration.None? ==> s.snapshot.None?) &&
    (s.dense == [] || s.dense == DenseEntries(job, |job.tensors|)) &&
    (k > 0 ==> s.dense == DenseEntries(job, |job.tensors|)) &&
    (s.dense != [] ==>
       DensePack in d && d[DensePack] == Pack(DenseRecords(|job.tensors|)) && s.snapshot == DenseSnapshot(job) &&
       (job.calibration.Some? ==> CountersAfter(job, |job.tensors|).Some?)) &&
    forall j: nat :: j < k ==> PackInPlace(job, d, j)
  }

  /** A run is under way, `s` being the last committed state. */
  ghost predicate Running(job: Job, d: Dir, s: State, k: nat)
    requires job.Valid()
  {
    AllAllowed(job, d) && Completed !in d && StateFile in d && d[StateFile] == StateContent(s) && StateOk(job, d, s, k)
  }

  /** The run got as far as its completion marker. */
  ghost predicate Complete(job: Job, d: Dir)
    requires job.Valid()
  {
    Completed in d && IsFinal(job, d - {StateFile}) && CalibrationFits(job)
  }

  /** A crash between creating the directory and its first state: nothing can be resumed. */
  ghost predicate Stuck(d: Dir) { d.Keys <= {Temp(StateFile)} }

  /** There is a state to resume from, or a completed run to publish. */
  ghost predicate Stateful(d: Dir) { StateFile in d || Completed in d }

  /** Everything a crash can leave behind. */
  ghost predicate PartialOk(job: Job, d: Dir)
    requires job.Valid()
  {
    Complete(job, d) || Stuck(d) || exists s, k :: Running(job, d, s, k)
  }

  ghost predicate Consistent(job: Job, partial: Option<Dir>, output: Option<Dir>)
    requires job.Valid()
  {
    (output.Some? ==> IsFinal(job, output.value) && CalibrationFits(job) && partial.None?) && (partial.Some? ==> PartialOk(job, partial.value))
  }

  lemma RunningIsStateful(job: Job, d: Option<Dir>)
    requires job.Valid()
    ensures d.Some? && (exists s, k :: Running(job, d.value, s, k)) ==> Stateful(d.value)
  {
    hide StateOk, Job.Valid;
  }

  /** A state speaks of the packs only. */
  lemma StateOkFrame(job: Job, d: Dir, e: Dir, s: State, k: nat)
    requires job.Valid() && StateOk(job, d, s, k)
    requires s.dense != [] && DensePack in d ==> DensePack in e && e[DensePack] == d[DensePack]
    requires forall j: nat :: j < k && ExpertPack(j) in d ==> ExpertPack(j) in e && e[ExpertPack(j)] == d[ExpertPack(j)]
    ensures StateOk(job, e, s, k)
  {
    forall j: nat | j < k
      ensures PackInPlace(job, e, j)
    {
      assert PackInPlace(job, d, j);
    }
  }

  /** Writing an unprotected file does not touch what a state relies on. */
  lemma WriteKeepsRunning(job: Job, d: Dir, s: State, k: nat, n: Name, f: File)
    requires job.Valid() && Running(job, d, s, k) && Allowed(job, n) && !Protected(s, k, n) && n != Completed
    ensures Running(job, d[n := f], s, k)
  {
    hide StateOk, Job.Valid;
    StateOkFrame(job, d, d[n := f], s, k);
  }

  lemma UnlinkKeepsRunning(job: Job, d: Dir, s: State, k: nat, n: Name)
    requires job.Valid() && Running(job, d, s, k) && !Protected(s, k, n)
    ensures Running(job, d - {n}, s, k)
  {
    hide StateOk, Job.Valid;
    StateOkFrame(job, d, d - {n}, s, k);
  }

  class Disk {
    var partial: Option<Dir>
    var output: Option<Dir>
    var budget: nat            // file operations left before the crash
    var crashFree: bool        // or no crash at all

    constructor (crashFree: bool, budget: nat)
      ensures partial.None? && output.None? && this.crashFree == crashFree && this.budget == budget
    {
      partial, output := None, None;
      this.crashFree, this.budget := crashFree, budget;
    }

    /** Whether the next operation happens. */
    method Alive() returns (ok: bool)
      modifies this`budget
      ensures ok == (crashFree || old(budget) > 0) && budget == if old(budget) > 0 then old(budget) - 1 else 0
    {
      ok := crashFree || budget > 0;
      if budget > 0 {
        budget := budget - 1;
      }
    }

    method MakeDirectory() returns (ok: bool)
      requires partial.None?
      modifies this`partial, this`output, this`budget
      ensures ok == (crashFree || old(budget) > 0) && budget == if old(budget) > 0 then old(budget) - 1 else 0
      ensures output == old(output) && partial == if ok then Some(map[]) else None
    {
      ok := Alive();
      if ok {
        partial := Some(map[]);
      }
    }

    method Write(n: Name, f: File) returns (ok: bool)
      requires partial.Some?
      modifies this`partial, this`output, this`budget
      ensures ok == (crashFree || old(budget) > 0) && budget == if old(budget) > 0 then old(budget) - 1 else 0
      ensures output == old(output) && partial == if ok then Some(old(partial).value[n := f]) else old(partial)
    {
      ok := Alive();
      if ok {
        partial := Some(partial.value[n := f]);
      }
    }

    /** Renaming replaces the target. */
    method Rename(from: Name, to: Name) returns (ok: bool)
      requires partial.Some? && from in partial.value && from != to
      modifies this`partial, this`output, this`budget
      ensures ok == (crashFree || old(budget) > 0) && budget == if old(budget) > 0 then old(budget) - 1 else 0
      ensures output == old(output)
      ensures partial ==
              if ok then Some(old(partial).value[to := old(partial).value[from]] - {from}) else old(partial)
    {
      ok := Alive();
      if ok {
        partial := Some(partial.value[to := partial.value[from]] - {from});
      }
    }

    method Unlink(n: Name) returns (ok: bool)
      requires partial.Some?
      modifies this`partial, this`output, this`budget
      ensures ok == (crashFree || old(budget) > 0) && budget == if old(budget) > 0 then old(budget) - 1 else 0
      ensures output == old(output) && partial == if ok then Some(old(partial).value - {n}) else old(partial)
    {
      ok := Alive();
      if ok {
        partial := Some(partial.value - {n});
      }
    }

    method Publish() returns (ok: bool)
      requires partial.Some? && output.None?
      modifies this`partial, this`output, this`budget
      ensures ok == (crashFree || old(budget) > 0) && budget == if old(budget) > 0 then old(budget) - 1 else 0
      ensures if ok then output == old(partial) && partial == None else output == old(output) && partial == old(partial)
    {
      ok := Alive();
      if ok {
        output, partial := partial, None;
      }
    }

    ghost predicate At(job: Job, s: State, k: nat)
      requires job.Valid()
      reads this
    {
      output.None? && partial.Some? && Running(job, partial.value, s, k)
    }

    /** Writes a file through its temporary name; a crash leaves at most a torn temporary file. */
    method Replace(job: Job, n: Name, f: File, ghost s: State, ghost k: nat) returns (ok: bool)
      requires job.Valid() && At(job, s, k)
      requires !n.Temp? && Allowed(job, n) && !Protected(s, k, n) && n != Completed
      modifies this`partial, this`output, this`budget
      ensures At(job, s, k) && (crashFree ==> ok)
      ensures ok ==> partial.value == old(partial).value[n := f] - {Temp(n)}
    {
      hide Running, Allowed;
      TempAllowed(job, n);
      WriteKeepsRunning(job, partial.value, s, k, Temp(n), Torn);
      ok := Write(Temp(n), Torn);
      if !ok { return; }
      WriteKeepsRunning(job, partial.value, s, k, Temp(n), f);
      ok := Write(Temp(n), f);
      if !ok { return; }
      WriteKeepsRunning(job, partial.value, s, k, n, f);
      UnlinkKeepsRunning(job, partial.value[n := f], s, k, Temp(n));
      ok := Rename(Temp(n), n);
    }
  }

  lemma TempAllowed(job: Job, n: Name)
    requires job.Valid() && !n.Temp? && Allowed(job, n)
    ensures Allowed(job, Temp(n))
  {}
}
