/**
 Counters of the activation calibration set, and how they are carried across a resumed compilation:
 a snapshot stored with the committed dense pack is restored into a fresh set.
 */
module Calibration {
  import opened Options

  const GROUP := 32

  /** What is fixed for a compilation: the captured matrices and how they are to be used. */
  datatype Config = Config(captures: set<nat>, excluded: set<nat>, payloadTargets: Option<set<nat>>, inventory: int)
  {
    predicate Valid() {
      excluded <= captures && (payloadTargets.Some? ==> payloadTargets.value <= captures)
    }

    predicate SelectsPayload(name: nat) { payloadTargets.Some? && name in payloadTargets.value }
  }

  datatype Counters = Counters(used: set<nat>, rows: nat, blocks: nat, reselections: nat, payloadReselections: nat)

  const NO_COUNTS := Counters({}, 0, 0, 0, 0)

  datatype Selection = Selection(rows: int, blocks: int, changed: int, payloadChanged: int)

  predicate Recordable(config: Config, name: nat, s: Selection) {
    s.rows > 0 && s.blocks > 0 && 0 <= s.changed <= s.rows * s.blocks &&
    0 <= s.payloadChanged <= s.rows * s.blocks * GROUP && (s.payloadChanged != 0 ==> config.SelectsPayload(name))
  }

  /** The counters after one matrix was loaded and its selection recorded; `None` where the source raises. */
  function Recorded(config: Config, c: Counters, name: nat, s: Selection): Option<Counters> {
    if name in config.excluded then None
    else if name !in config.captures then Some(c)
    else if !Recordable(config, name, s) then None
    else
      RowsTimesBlocks(s);
      Some(Counters(c.used + {name}, c.rows + s.rows, c.blocks + s.rows * s.blocks,
                    c.reselections + s.changed, c.payloadReselections + s.payloadChanged))
  }

  lemma RowsTimesBlocks(s: Selection)
    requires s.rows > 0 && s.blocks > 0
    ensures s.rows * s.blocks > 0
  {}

  /** What holds of counters in use. */
  predicate Sound(config: Config, c: Counters) {
    c.used <= config.captures && c.used !! config.excluded && (config.payloadTargets.None? ==> c.payloadReselections == 0)
  }

  lemma RecordedIsSound(config: Config, c: Counters, name: nat, s: Selection)
    requires Sound(config, c) && Recorded(config, c, name, s).Some?
    ensures Sound(config, Recorded(config, c, name, s).value)
  {}

  // Many selections

  datatype Logged = Logged(name: nat, selection: Selection)

  /** The counters after these selections, one after the other, unless one of them is refused. */
  function RecordedAll(config: Config, log: seq<Logged>): Option<Counters> {
    if log == [] then Some(NO_COUNTS)
    else
      var before, last := RecordedAll(config, log[..|log| - 1]), log[|log| - 1];
      if before.None? then None else Recorded(config, before.value, last.name, last.selection)
  }

  predicate Accepted(config: Config, r: Logged) {
    r.name !in config.excluded && (r.name in config.captures ==> Recordable(config, r.name, r.selection))
  }

  function Names(log: seq<Logged>): set<nat> { set r | r in log :: r.name }

  function RowsOf(s: Selection): int { s.rows }

  /** As many blocks in each row. */
  function BlocksOf(s: Selection): int { s.rows * s.blocks }

  function ChangedOf(s: Selection): int { s.changed }

  function PayloadChangedOf(s: Selection): int { s.payloadChanged }

  /** What the captured matrices among them amount to. */
  function Sum(config: Config, log: seq<Logged>, amount: Selection -> int): int {
    if log == [] then 0
    else
      var last := log[|log| - 1];
      Sum(config, log[..|log| - 1], amount) + if last.name in config.captures then amount(last.selection) else 0
  }

  /**
   Recording succeeds exactly when each selection is acceptable by itself.  Then the counters are the sums over the
   captured matrices, and no more codes were selected anew than there are blocks and values.
  */
  lemma {:induction false} CountersAddUp(config: Config, log: seq<Logged>)
    ensures RecordedAll(config, log).Some? <==> forall r :: r in log ==> Accepted(config, r)
    ensures RecordedAll(config, log).Some? ==>
      var c := RecordedAll(config, log).value;
      c.used == Names(log) * config.captures && c.rows == Sum(config, log, RowsOf) &&
      c.blocks == Sum(config, log, BlocksOf) && c.reselections == Sum(config, log, ChangedOf) &&
      c.payloadReselections == Sum(config, log, PayloadChangedOf) &&
      c.reselections <= c.blocks && c.payloadReselections <= GROUP * c.blocks
  {
    if log != [] {
      var front, last := log[..|log| - 1], log[|log| - 1];
      CountersAddUp(config, front);
      assert log == front + [last];
      assert Names(log) == Names(front) + {last.name};
      hide Recordable;
      if RecordedAll(config, front).Some? {
        LastRecorded(config, RecordedAll(config, front).value, last);
      }
    }
  }

  lemma LastRecorded(config: Config, c: Counters, r: Logged)
    ensures Recorded(config, c, r.name, r.selection).Some? <==> Accepted(config, r)
    ensures r.name in config.captures && Accepted(config, r) ==>
      var s, after := r.selection, Recorded(config, c, r.name, r.selection).value;
      s.changed <= s.rows * s.blocks && s.payloadChanged <= GROUP * (s.rows * s.blocks) &&
      after.used == c.used + {r.name} && after.rows == c.rows + s.rows && after.blocks == c.blocks + s.rows * s.blocks &&
      after.reselections == c.reselections + s.changed && after.payloadReselections == c.payloadReselections + s.payloadChanged
  {}

  /** There are blocks as soon as one matrix is used. */
  lemma {:induction false} SomeBlocks(config: Config, log: seq<Logged>)
    requires RecordedAll(config, log).Some?
    ensures RecordedAll(config, log).value.blocks > 0 <==> RecordedAll(config, log).value.used != {}
  {
    if log != [] {
      var front, last := log[..|log| - 1], log[|log| - 1];
      SomeBlocks(config, front);
      if last.name in config.captures {
        RowsTimesBlocks(last.selection);
        assert last.name in RecordedAll(config, log).value.used;
      }
    }
  }

  datatype PayloadPart = PayloadPart(matrices: nat, names: set<nat>, reselections: int)

  datatype Snapshot = Snapshot(denseFiles: nat, inventory: int, names: set<nat>, rows: int, blocks: int,
                               reselections: int, excluded: Option<set<nat>>, payload: Option<PayloadPart>)

  function TakeSnapshot(config: Config, c: Counters): Snapshot {
    Snapshot(|config.captures|, config.inventory, c.used, c.rows, c.blocks, c.reselections,
             if config.excluded == {} then None else Some(config.excluded),
             if config.payloadTargets.None? then None
             else Some(PayloadPart(|config.payloadTargets.value|, config.payloadTargets.value, c.payloadReselections)))
  }

  predicate CountsRestorable(config: Config, s: Snapshot) {
    s.denseFiles == |config.captures| && s.inventory == config.inventory &&
    s.names + config.excluded == config.captures && s.names !! config.excluded &&
    (if s.excluded.Some? then s.excluded.value else {}) == config.excluded &&
    s.rows >= 0 && s.blocks >= 0 && s.reselections >= 0
  }

  predicate PayloadRestorable(config: Config, s: Snapshot) {
    config.payloadTargets.Some? ==>
      s.payload.Some? && s.payload.value.names == config.payloadTargets.value &&
      s.payload.value.matrices == |config.payloadTargets.value| && s.payload.value.reselections >= 0
  }

  predicate Restorable(config: Config, s: Snapshot) { CountsRestorable(config, s) && PayloadRestorable(config, s) }

  function RestoredCounters(config: Config, s: Snapshot, c: Counters): Counters
    requires CountsRestorable(config, s)
  {
    Counters(s.names, s.rows, s.blocks, s.reselections,
             if config.payloadTargets.Some? && PayloadRestorable(config, s) then s.payload.value.reselections
             else c.payloadReselections)
  }

  predicate Finalizable(config: Config, c: Counters) {
    config.captures - c.used - config.excluded == {} && c.blocks > 0 &&
    (config.payloadTargets.Some? ==> config.payloadTargets.value <= c.used)
  }

  /**
   Restoring a snapshot into a fresh set gives back the counters it was taken from.  It is refused exactly
   when some capture has not been applied, and then finalizing would be refused as well.
   */
  lemma RestoreInvertsSnapshot(config: Config, c: Counters)
    requires config.Valid() && Sound(config, c)
    ensures Restorable(config, TakeSnapshot(config, c)) <==> config.captures - c.used - config.excluded == {}
    ensures Restorable(config, TakeSnapshot(config, c)) ==>
      RestoredCounters(config, TakeSnapshot(config, c), NO_COUNTS) == c
    ensures Finalizable(config, c) ==> Restorable(config, TakeSnapshot(config, c))
  {
    assert c.used + config.excluded == config.captures <==> config.captures - c.used - config.excluded == {} by {
      forall n | n in config.captures
        ensures n in c.used + config.excluded <==> n !in config.captures - c.used - config.excluded
      {}
    }
  }

  class CalibrationSet {
    const config: Config
    var used: set<nat>
    var rows: nat
    var blocks: nat
    var coveringReselections: nat
    var payloadReselections: nat

    function View(): Counters
      reads this
    {
      Counters(used, rows, blocks, coveringReselections, payloadReselections)
    }

    constructor (config: Config)
      ensures this.config == config && View() == NO_COUNTS
    {
      this.config := config;
      used, rows, blocks, coveringReselections, payloadReselections := {}, 0, 0, 0, 0;
    }

    /** Loads the capture of a matrix and records what the writer selected for it. */
    method RecordSelection(name: nat, s: Selection) returns (ok: bool)
      modifies this
      ensures ok <==> Recorded(config, old(View()), name, s).Some?
      ensures ok ==> View() == Recorded(config, old(View()), name, s).value
    {
      if name in config.excluded {
        return false;
      }
      if name !in config.captures {
        return true;
      }
      used := used + {name};
      if !Recordable(config, name, s) {
        return false;
      }
      RowsTimesBlocks(s);
      rows := rows + s.rows;
      blocks := blocks + s.rows * s.blocks;
      coveringReselections := coveringReselections + s.changed;
      payloadReselections := payloadReselections + s.payloadChanged;
      return true;
    }

    /** The counters are overwritten before the payload part is looked at, even if that is then refused. */
    method Restore(s: Snapshot) returns (ok: bool)
      modifies this
      ensures ok <==> Restorable(config, s)
      ensures View() == if CountsRestorable(config, s) then RestoredCounters(config, s, old(View())) else old(View())
    {
      if !CountsRestorable(config, s) { return false; }
      used, rows, blocks, coveringReselections := s.names, s.rows, s.blocks, s.reselections;
      if config.payloadTargets.Some? {
        if !PayloadRestorable(config, s) { return false; }
        payloadReselections := s.payload.value.reselections;
      }
      ok := true;
    }

    method Finalize() returns (s: Option<Snapshot>)
      ensures s == if Finalizable(config, View()) then Some(TakeSnapshot(config, View())) else None
    {
      if config.captures - used - config.excluded != {} || blocks <= 0 {
        return None;
      }
      if config.payloadTargets.Some? && !(config.payloadTargets.value <= used) {
        return None;
      }
      return Some(TakeSnapshot(config, View()));
    }
  }
}
