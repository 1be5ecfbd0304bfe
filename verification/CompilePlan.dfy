/**
 What one uninterrupted compilation publishes: record indexes, greedy packs, manifest and marker, as
 functions of the job.  Record payloads stand for the bytes that an unchanged source and fixed options give.
 */
module CompilePlan {
  import opened Options
  import opened Calibration

  /** One dense matrix: its stored size and what its writer selects under calibration. */
  datatype Tensor = Tensor(bytes: nat, fp4: bool, selection: Selection)

  datatype Job = Job(
    contract: int,               // hash of options and source inventory
    tensors: seq<Tensor>,
    experts: seq<nat>,           // stored size of each expert record
    predicted: nat,              // record size used by the pack limit test
    limit: nat,                  // maximum bytes of an expert pack
    metadata: nat,               // number of tokenizer and configuration files
    calibration: Option<Config>)
  {
    ghost predicate Valid() {
      (forall i :: 0 <= i < |tensors| ==> tensors[i].bytes > 0) &&
      (forall i :: 0 <= i < |experts| ==> experts[i] > 0) && (calibration.Some? ==> calibration.value.Valid())
    }
  }

  datatype Record = DenseRecord(tensor: nat) | ExpertRecord(expert: nat)

  datatype DenseEntry = DenseEntry(tensor: nat, offset: nat, bytes: nat)

  datatype ExpertEntry = ExpertEntry(expert: nat, pack: nat, offset: nat, bytes: nat)

  /** Names in the partial directory; `Temp(n)` is the file that is renamed to `n`. */
  datatype Name =
    | StateFile | DensePack | ExpertPack(index: nat) | Metadata(file: nat)
    | Program | Manifest | Report | Completed | Temp(of: Name)

  datatype State = State(contract: int, dense: seq<DenseEntry>, experts: seq<ExpertEntry>, snapshot: Option<Snapshot>)

  datatype ManifestBody = ManifestBody(contract: int, dense: seq<DenseEntry>, experts: seq<ExpertEntry>,
                                       packs: map<Name, seq<Record>>, calibration: Option<Snapshot>)

  /** File contents; digests of a content are represented by the content. */
  datatype File =
    | Torn
    | Pack(records: seq<Record>)
    | StateContent(state: State)
    | MetadataCopy(file: nat)
    | ProgramText
    | ManifestContent(body: ManifestBody)
    | ReportContent(stamp: int)
    | Marker(body: ManifestBody)

  type Dir = map<Name, File>

  // Dense records

  function DenseSize(job: Job, n: nat): nat
    requires n <= |job.tensors|
  {
    if n == 0 then 0 else DenseSize(job, n - 1) + job.tensors[n - 1].bytes
  }

  function DenseEntries(job: Job, n: nat): (e: seq<DenseEntry>)
    requires n <= |job.tensors|
    ensures |e| == n && forall i :: 0 <= i < n ==> e[i] == DenseEntry(i, DenseSize(job, i), job.tensors[i].bytes)
  {
    if n == 0 then [] else DenseEntries(job, n - 1) + [DenseEntry(n - 1, DenseSize(job, n - 1), job.tensors[n - 1].bytes)]
  }

  function DenseRecords(n: nat): (r: seq<Record>)
    ensures |r| == n && forall i :: 0 <= i < n ==> r[i] == DenseRecord(i)
  {
    if n == 0 then [] else DenseRecords(n - 1) + [DenseRecord(n - 1)]
  }

  /** The calibration counters after the first `n` dense matrices. */
  function CountersAfter(job: Job, n: nat): (c: Option<Counters>)
    requires n <= |job.tensors|
    ensures job.calibration.Some? && c.Some? ==> Sound(job.calibration.value, c.value)
  {
    if n == 0 then Some(NO_COUNTS)
    else
      var before, t := CountersAfter(job, n - 1), job.tensors[n - 1];
      if before.None? || job.calibration.None? || !t.fp4 then before
      else
        (if Recorded(job.calibration.value, before.value, n - 1, t.selection).Some? then
           RecordedIsSound(job.calibration.value, before.value, n - 1, t.selection);
           Recorded(job.calibration.value, before.value, n - 1, t.selection)
         else None)
  }

  /** The snapshot stored with the dense pack. */
  function DenseSnapshot(job: Job): Option<Snapshot> {
    if job.calibration.None? || CountersAfter(job, |job.tensors|).None? then None
    else Some(TakeSnapshot(job.calibration.value, CountersAfter(job, |job.tensors|).value))
  }

  /** Every capture is applied by some matrix, without an invalid count. */
  predicate CalibrationFits(job: Job) {
    job.calibration.Some? ==>
      CountersAfter(job, |job.tensors|).Some? &&
      Finalizable(job.calibration.value, CountersAfter(job, |job.tensors|).value)
  }

  /** What is recorded of the first `n` matrices: those stored as FP4, by their index. */
  function Log(job: Job, n: nat): (log: seq<Logged>)
    requires n <= |job.tensors|
    ensures forall r :: r in log <==>
      0 <= r.name < n && job.tensors[r.name].fp4 && r.selection == job.tensors[r.name].selection
  {
    if n == 0 then []
    else
      Log(job, n - 1) + if job.tensors[n - 1].fp4 then [Logged(n - 1, job.tensors[n - 1].selection)] else []
  }

  lemma NextLogged(job: Job, n: nat)
    requires 0 < n <= |job.tensors|
    ensures
      var log, t := Log(job, n), job.tensors[n - 1];
      if t.fp4 then log != [] && log[..|log| - 1] == Log(job, n - 1) && log[|log| - 1] == Logged(n - 1, t.selection)
      else log == Log(job, n - 1)
  {}

  lemma {:induction false} CountersAreLogged(job: Job, n: nat)
    requires n <= |job.tensors| && job.calibration.Some?
    ensures CountersAfter(job, n) == RecordedAll(job.calibration.value, Log(job, n))
  {
    hide Recorded, Log;
    if n > 0 {
      CountersAreLogged(job, n - 1);
      NextLogged(job, n);
    } else {
      NothingLogged(job);
    }
  }

  lemma NothingLogged(job: Job)
    ensures Log(job, 0) == []
  {}

  /** An FP4 matrix whose capture is used. */
  predicate Uses(job: Job, config: Config, name: nat) {
    name < |job.tensors| && job.tensors[name].fp4 && name in config.captures
  }

  /**
   A compilation under calibration can be finished exactly when each FP4 matrix has acceptable counts, each capture
   that is not excluded and each payload target belongs to such a matrix, and there is one.
  */
  lemma FitsExactly(job: Job, config: Config)
    requires job.calibration == Some(config)
    ensures CalibrationFits(job) <==>
      (forall i: nat :: i < |job.tensors| && job.tensors[i].fp4 ==>
         Accepted(config, Logged(i, job.tensors[i].selection))) &&
      (forall name :: name in config.captures && name !in config.excluded ==> Uses(job, config, name)) &&
      (config.payloadTargets.Some? ==> forall name :: name in config.payloadTargets.value ==> Uses(job, config, name)) &&
      exists name: nat :: Uses(job, config, name)
  {
    hide Accepted, RecordedAll, Log, Uses, CountersAfter, Sum;
    var n := |job.tensors|;
    var log := Log(job, n);
    CountersAreLogged(job, n);
    CountersAddUp(config, log);
    AllAccepted(job, config);
    if RecordedAll(config, log).Some? {
      SomeBlocks(config, log);
      UsedNames(job, config);
      FinalizableMeans(job, config, RecordedAll(config, log).value);
    }
  }

  lemma AllAccepted(job: Job, config: Config)
    ensures (forall r :: r in Log(job, |job.tensors|) ==> Accepted(config, r)) <==>
            forall i: nat :: i < |job.tensors| && job.tensors[i].fp4 ==>
              Accepted(config, Logged(i, job.tensors[i].selection))
  {
    hide Accepted;
    forall i: nat | i < |job.tensors| && job.tensors[i].fp4
      ensures Logged(i, job.tensors[i].selection) in Log(job, |job.tensors|)
    {}
  }

  lemma UsedNames(job: Job, config: Config)
    ensures forall name: nat ::
      name in Names(Log(job, |job.tensors|)) * config.captures <==> Uses(job, config, name)
  {
    forall name: nat
      ensures name in Names(Log(job, |job.tensors|)) <==> name < |job.tensors| && job.tensors[name].fp4
    {
      if name < |job.tensors| && job.tensors[name].fp4 {
        assert Logged(name, job.tensors[name].selection) in Log(job, |job.tensors|);
      }
    }
  }

  lemma FinalizableMeans(job: Job, config: Config, c: Counters)
    requires forall name: nat :: name in c.used <==> Uses(job, config, name)
    requires c.blocks > 0 <==> c.used != {}
    ensures Finalizable(config, c) <==>
      (forall name :: name in config.captures && name !in config.excluded ==> Uses(job, config, name)) &&
      (config.payloadTargets.Some? ==> forall name :: name in config.payloadTargets.value ==> Uses(job, config, name)) &&
      exists name: nat :: Uses(job, config, name)
  {
    hide Uses;
    assert config.captures - c.used - config.excluded == {} <==>
           forall name :: name in config.captures && name !in config.excluded ==> name in c.used by {
      if config.captures - c.used - config.excluded == {} {
        forall name | name in config.captures && name !in config.excluded
          ensures name in c.used
        {
          assert name !in config.captures - c.used - config.excluded;
        }
      }
    }
    if exists name: nat :: Uses(job, config, name) {
      var name: nat :| Uses(job, config, name);
      assert name in c.used;
    }
  }

  // Greedy expert packs

  /** Where the pack stops that holds `tell` bytes before expert `i`. */
  function PackEnd(job: Job, i: nat, tell: nat): (end: nat)
    requires i <= |job.experts|
    ensures i <= end <= |job.experts|
    decreases |job.experts| - i
  {
    if i == |job.experts| || (tell > 0 && tell + job.predicted > job.limit) then i
    else PackEnd(job, i + 1, tell + job.experts[i])
  }

  /** The first expert of pack `k`. */
  function StartOf(job: Job, k: nat): (start: nat)
    ensures start <= |job.experts|
  {
    if k == 0 then 0 else PackEnd(job, StartOf(job, k - 1), 0)
  }

  function RangeSize(job: Job, start: nat, end: nat): nat
    requires start <= end <= |job.experts|
  {
    if end == start then 0 else RangeSize(job, start, end - 1) + job.experts[end - 1]
  }

  function PackEntries(job: Job, k: nat, start: nat, end: nat): (e: seq<ExpertEntry>)
    requires start <= end <= |job.experts|
    ensures |e| == end - start
    ensures forall i :: 0 <= i < |e| ==>
      e[i] == ExpertEntry(start + i, k, RangeSize(job, start, start + i), job.experts[start + i])
  {
    if end == start then []
    else PackEntries(job, k, start, end - 1) + [ExpertEntry(end - 1, k, RangeSize(job, start, end - 1), job.experts[end - 1])]
  }

  function ExpertRecords(start: nat, end: nat): (r: seq<Record>)
    requires start <= end
    ensures |r| == end - start && forall i :: 0 <= i < |r| ==> r[i] == ExpertRecord(start + i)
  {
    if end == start then [] else ExpertRecords(start, end - 1) + [ExpertRecord(end - 1)]
  }

  lemma PackGrows(job: Job, k: nat)
    ensures StartOf(job, k) <= StartOf(job, k + 1)
    ensures job.Valid() && StartOf(job, k) < |job.experts| ==> StartOf(job, k) < StartOf(job, k + 1)
  {}

  /** The index entries of the first `k` packs. */
  function ExpertEntries(job: Job, k: nat): (e: seq<ExpertEntry>)
    ensures |e| == StartOf(job, k)
  {
    if k == 0 then []
    else ExpertEntries(job, k - 1) + PackEntries(job, k - 1, StartOf(job, k - 1), StartOf(job, k))
  }

  /** `k` is the number of packs that hold all experts. */
  predicate AllPacked(job: Job, k: nat) {
    StartOf(job, k) == |job.experts| && (k == 0 || StartOf(job, k - 1) < |job.experts|)
  }

  function PackCountFrom(job: Job, k: nat): (n: nat)
    requires job.Valid()
    requires k == 0 || StartOf(job, k - 1) < |job.experts|
    ensures AllPacked(job, n) && k <= n
    decreases |job.experts| - StartOf(job, k)
  {
    if StartOf(job, k) == |job.experts| then k
    else
      PackGrows(job, k);
      PackCountFrom(job, k + 1)
  }

  function PackCount(job: Job): (n: nat)
    requires job.Valid()
    ensures AllPacked(job, n)
  {
    PackCountFrom(job, 0)
  }

  lemma {:induction false} StartsAscend(job: Job, j: nat, k: nat)
    requires job.Valid() && j <= k
    ensures StartOf(job, j) <= StartOf(job, k)
    ensures j < k && StartOf(job, j) < |job.experts| ==> StartOf(job, j) < StartOf(job, k)
  {
    if j < k {
      StartsAscend(job, j, k - 1);
      PackGrows(job, k - 1);
    }
  }

  lemma PackCountUnique(job: Job, j: nat, k: nat)
    requires job.Valid() && AllPacked(job, j) && AllPacked(job, k)
    ensures j == k
  {
    if j < k {
      StartsAscend(job, j, k - 1);
    } else if k < j {
      StartsAscend(job, k, j - 1);
    }
  }

  /** No greedy pack is over the limit unless it holds a single record; and none could take one more. */
  lemma {:induction false} PackWithinLimit(job: Job, start: nat, i: nat)
    requires start <= i <= |job.experts|
    requires forall e :: 0 <= e < |job.experts| ==> job.experts[e] == job.predicted > 0
    requires RangeSize(job, start, i) <= job.limit || i <= start + 1
    ensures
      var end := PackEnd(job, i, RangeSize(job, start, i));
      (RangeSize(job, start, end) <= job.limit || end <= start + 1) &&
      (end < |job.experts| ==> RangeSize(job, start, end) + job.predicted > job.limit)
    decreases |job.experts| - i
  {
    var tell := RangeSize(job, start, i);
    if i < |job.experts| && !(tell > 0 && tell + job.predicted > job.limit) {
      assert RangeSize(job, start, i + 1) == tell + job.experts[i];
      RangeOfNothing(job, start, i);
      PackWithinLimit(job, start, i + 1);
    }
  }

  /**
   Whatever the sizes: a pack goes on as long as it is empty or the predicted record fits behind it, and it ends with
   the last expert or where that record no longer fits.
  */
  lemma {:induction false} PackStops(job: Job, start: nat, i: nat)
    requires start <= i <= |job.experts|
    ensures
      var end := PackEnd(job, i, RangeSize(job, start, i));
      (forall j :: i <= j < end ==> RangeSize(job, start, j) == 0 || RangeSize(job, start, j) + job.predicted <= job.limit) &&
      (end < |job.experts| ==> RangeSize(job, start, end) > 0 && RangeSize(job, start, end) + job.predicted > job.limit)
    decreases |job.experts| - i
  {
    var tell := RangeSize(job, start, i);
    if i < |job.experts| && !(tell > 0 && tell + job.predicted > job.limit) {
      assert RangeSize(job, start, i + 1) == tell + job.experts[i];
      PackStops(job, start, i + 1);
    }
  }

  lemma RangeOfNothing(job: Job, start: nat, i: nat)
    requires start <= i <= |job.experts|
    requires forall e :: 0 <= e < |job.experts| ==> job.experts[e] > 0
    ensures RangeSize(job, start, i) == 0 <==> i == start
  {}

  // The published directory

  function PackNames(count: nat): (names: set<Name>)
    ensures forall n :: n in names <==> n.ExpertPack? && n.index < count
  {
    if count == 0 then {} else PackNames(count - 1) + {ExpertPack(count - 1)}
  }

  function PackFiles(job: Job): (m: map<Name, seq<Record>>)
    requires job.Valid()
  {
    map n | n in {DensePack} + PackNames(PackCount(job)) ::
      if n == DensePack then DenseRecords(|job.tensors|)
      else ExpertRecords(StartOf(job, n.index), StartOf(job, n.index + 1))
  }

  function FinalBody(job: Job): ManifestBody
    requires job.Valid()
  {
    ManifestBody(job.contract, DenseEntries(job, |job.tensors|), ExpertEntries(job, PackCount(job)),
                 PackFiles(job), DenseSnapshot(job))
  }

  function FinalNames(job: Job): set<Name>
    requires job.Valid()
  {
    {DensePack, Program, Manifest, Report, Completed} + PackNames(PackCount(job)) + (set f: nat | f < job.metadata :: Metadata(f))
  }

  function FinalContent(job: Job, n: Name): File
    requires job.Valid() && n in FinalNames(job) && n != Report
  {
    match n
    case DensePack => Pack(DenseRecords(|job.tensors|))
    case ExpertPack(k) => Pack(ExpertRecords(StartOf(job, k), StartOf(job, k + 1)))
    case Metadata(f) => MetadataCopy(f)
    case Program => ProgramText
    case Manifest => ManifestContent(FinalBody(job))
    case Completed => Marker(FinalBody(job))
    case _ => Torn
  }

  /** The directory one uninterrupted run publishes; only the timing report may differ. */
  ghost predicate IsFinal(job: Job, d: Dir)
    requires job.Valid()
  {
    d.Keys == FinalNames(job) && d[Report].ReportContent? &&
    forall n :: n in d && n != Report ==> d[n] == FinalContent(job, n)
  }
}
