/**
 The feasibility planner: whether a model fits a machine at a target speed, and how many hits in memory the
 bandwidths call for.
 */
module Feasibility {
  import opened Products
  import opened PlannerArithmetic

  const PPM: U64 := 1_000_000
  const DEGRADED_MARGIN: U64 := 100_000
  const SECOND: U64 := 1_000_000_000

  datatype Manifest = Manifest(totalFile: U64, residentDense: U64, totalExpert: U64, activeExpert: U64, averageRecord: U64)

  datatype Hardware = Hardware(availableRam: U64, vramAvailable: U64, diskFree: U64, storageRead: U64, h2d: U64,
                               storageMeasured: bool, h2dMeasured: bool)

  /** A request as the caller gives it; the target is in thousandths of tokens per second. */
  datatype Request = Request(target: U64, concurrency: U64, vramBudget: U64, ramBudget: U64, vramHits: U64, ramHits: U64,
                             workspace: U64, staging: U64, kvBytes: U64, nonIo: U64)

  datatype Status = Feasible | Degraded | Impossible

  datatype Resource =
    | VramResident | VramTotal | Ram | DiskCapacity | NonIoCeiling | StorageBandwidth | PcieBandwidth
    | UnmeasuredBandwidth | NoResource

  datatype Constraint = Constraint(resource: Resource, required: U64, available: U64, passes: bool)

  datatype Decision = Decision(status: Status, limiting: Resource, coldBudget: U64, h2dBudget: U64,
                               expectedCold: U64, expectedH2d: U64, storageAvoidance: U64, requiredVramHits: U64,
                               minimumConcurrency: U64, vramExperts: U64, ramExperts: U64, nonIoCeiling: U64,
                               constraints: seq<Constraint>)

  datatype Error = NoTarget | NoConcurrency | BadHits | NoRecordBytes

  datatype Outcome = Refused(error: Error) | Decided(decision: Decision)

  // The quantities of a decision

  function Budget(bandwidth: U64, target: U64): U64
    requires target > 0
  {
    QuotientFits(SaturatingMultiply(bandwidth, 1000), target);
    SaturatingMultiply(bandwidth, 1000) / target
  }

  lemma QuotientFits(n: nat, d: nat)
    requires d > 0
    ensures 0 <= n / d <= n
  {
    var q, r := n / d, n % d;
    assert n == q * d + r && 0 <= r < d;
    if q < 0 {
      MultipleNegative(q, d);
    } else {
      TimesMonotone(1, d, q);
    }
  }

  lemma MultipleNegative(q: int, d: nat)
    requires q < 0 && d > 0
    ensures q * d + d <= 0
  {
    var p: nat := 0 - q;
    assert q * d == 0 - p * d;
    TimesMonotone(1, p, d);
  }

  /** The bytes per token that a bandwidth allows at a target speed, were there no saturation. */
  function ExactBudget(bandwidth: U64, target: U64): nat
    requires target > 0
  {
    QuotientFits(1000 * bandwidth, target);
    (1000 * bandwidth) / target
  }

  function Expected(active: U64, fraction: U64): U64 { MultiplyDivideCeil(active, fraction, PPM) }

  function RequiredAvoidance(active: U64, budget: U64): U64 {
    if active == 0 || budget >= active then 0 else MultiplyDivideCeil(active - budget, PPM, active)
  }

  /** Bytes per second that expected bytes per token need at the target speed. */
  function RequiredBandwidth(expected: U64, target: U64): U64 { MultiplyDivideCeil(expected, target, 1000) }

  predicate BandwidthPasses(active: U64, bandwidth: U64, target: U64, hits: U64)
    requires hits <= PPM
  {
    RequiredBandwidth(Expected(active, PPM - hits), target) <= bandwidth
  }

  // The exact threshold

  /** Expected bytes are the exact ceiling: a fraction never saturates. */
  lemma ExpectedExact(active: U64, fraction: U64)
    requires fraction <= PPM
    ensures Expected(active, fraction) == Ceil(Times(active, fraction), PPM) <= active
  {
    hide Ceil, MultiplyDivideCeil, Times;
    MultiplyDivideCeilExact(active, fraction, PPM);
    CeilIsLeast(Times(active, fraction), PPM, active);
    TimesMonotone(fraction, PPM, active);
    var r := active % PPM;
    TimesMonotone(r, PPM, fraction);
    TimesMonotone(fraction, PPM, PPM);
    MillionSquared();
    CeilIsLeast(MAX_U64, PPM, Ceil(MAX_U64, PPM));
  }

  lemma MillionSquared()
    ensures Times(PPM, PPM) <= MAX_U64
  {}

  lemma WholeUnits(e: nat, n: nat, d: nat)
    requires d > 0
    ensures e <= n / d <==> Times(e, d) <= n
  {
    var q, r := n / d, n % d;
    assert n == q * d + r && r < d;
    if e > q {
      MultipleOrder(q, r, e, 0, d);
    } else {
      TimesMonotone(e, q, d);
    }
  }

  /** The thousandths of a byte rate never exceed this when they saturate. */
  const MOST: nat := Ceil(MAX_U64, 1000)

  /**
   The most expected bytes per token that pass a bandwidth at a target speed.  Saturation lets everything pass the
   highest bandwidth, and all remainders that a rest of the bandwidth above `MOST` covers.
  */
  function PassingBudget(bandwidth: U64, target: U64): nat
    requires target > 0
  {
    QuotientFits(bandwidth, target);
    if bandwidth == MAX_U64 then MAX_U64
    else if bandwidth % target >= MOST then 1000 * (bandwidth / target) + 999
    else ExactBudget(bandwidth, target)
  }

  /** A bandwidth in thousandths splits into what whole multiples of the target take and the rest. */
  lemma ThousandSplit(b: nat, t: nat)
    requires t > 0
    ensures b / t >= 0 && (1000 * (b % t)) / t >= 0 && (1000 * b) / t == 1000 * (b / t) + (1000 * (b % t)) / t
    ensures (1000 * (b % t)) / t < 1000
  {
    hide Times;
    var x, y := b / t, b % t;
    Divided(b, t);
    Divided(1000 * y, t);
    var z, w := (1000 * y) / t, (1000 * y) % t;
    Thousandfold(b, t, x, y, z, w);
    UniqueSplit(1000 * b, t, 1000 * x + z, w);
    if z >= 1000 {
      TimesMonotone(1000, z, t);
      TimesCommutes(1000, t);
      ThousandTimes(t);
    }
  }

  lemma UniqueSplit(n: nat, d: nat, q: nat, r: nat)
    requires r < d && n == Times(q, d) + r
    ensures n / d == q
  {
    QuotientUnique(n, d, q, r);
  }

  lemma Thousandfold(b: nat, t: nat, x: nat, y: nat, z: nat, w: nat)
    requires b == Times(x, t) + y && 1000 * y == Times(z, t) + w
    ensures 1000 * b == Times(1000 * x + z, t) + w
  {
    assert (1000 * x + z) * t == 1000 * (x * t) + z * t;
  }

  /** How a multiple of the target lies to a bandwidth. */
  lemma MultipleLies(b: nat, t: nat, q: nat)
    requires t > 0
    ensures q > b / t ==> Times(q, t) > b
    ensures q < b / t ==> Times(q, t) + t <= b
    ensures q == b / t ==> Times(q, t) + b % t == b
  {
    var x, y := b / t, b % t;
    QuotientFits(b, t);
    assert b == x * t + y && y < t;
    if q > x {
      MultipleOrder(x, y, q, 0, t);
    } else if q < x {
      TimesMonotone(q + 1, x, t);
      assert (q + 1) * t == q * t + t;
    }
  }

  /** The byte rate check passes exactly up to the passing budget. */
  lemma RatePasses(e: U64, bandwidth: U64, target: U64)
    requires target > 0
    ensures RequiredBandwidth(e, target) <= bandwidth <==> e <= PassingBudget(bandwidth, target)
  {
    hide Ceil, Times, MultiplyDivideCeil;
    var q, r: U64, y := e / 1000, e % 1000, bandwidth % target;
    var share := Ceil(Least(MAX_U64, Times(r, target)), 1000);
    MultiplyDivideCeilMeans(e, target, 1000);
    ThousandSplit(bandwidth, target);
    MultipleLies(bandwidth, target, q);
    CeilIsLeast(Least(MAX_U64, Times(r, target)), 1000, target);
    CeilIsLeast(Least(MAX_U64, Times(r, target)), 1000, y);
    CeilIsLeast(MAX_U64, 1000, y);
    CeilMonotone(Least(MAX_U64, Times(r, target)), MAX_U64, 1000);
    TimesMonotone(r, 1000, target);
    TimesCommutes(1000, target);
    TimesCommutes(1000, y);
    ThousandTimes(y);
    WholeUnits(r, 1000 * y, target);
  }

  lemma ThousandTimes(b: nat)
    ensures Times(b, 1000) == 1000 * b
  {}

  /** The least hits, in parts per million, with which the misses of the active bytes stay within a budget. */
  function ExactAvoidance(active: nat, budget: nat): nat {
    if budget >= active then 0 else Ceil(Times(active - budget, PPM), active)
  }

  lemma AvoidanceCovers(active: nat, budget: nat, hits: nat)
    requires hits <= PPM
    ensures ExactAvoidance(active, budget) <= hits <==> Times(active, PPM - hits) <= Times(budget, PPM)
  {
    hide Ceil;
    if budget < active {
      CeilIsLeast(Times(active - budget, PPM), active, hits);
      assert active * (PPM - hits) == active * PPM - active * hits;
      assert (active - budget) * PPM == active * PPM - budget * PPM;
    } else {
      assert active * (PPM - hits) <= active * PPM;
      TimesMonotone(active, budget, PPM);
    }
  }

  /** Whatever saturates: a bandwidth constraint passes exactly if the hits reach those of the passing budget. */
  lemma PassesExactly(active: U64, bandwidth: U64, target: U64, hits: U64)
    requires target > 0 && hits <= PPM
    ensures BandwidthPasses(active, bandwidth, target, hits) <==>
            hits >= ExactAvoidance(active, PassingBudget(bandwidth, target))
  {
    hide Ceil, Times, MultiplyDivideCeil, PassingBudget, ExactAvoidance;
    var budget := PassingBudget(bandwidth, target);
    ExpectedExact(active, PPM - hits);
    RatePasses(Expected(active, PPM - hits), bandwidth, target);
    CeilIsLeast(Times(active, PPM - hits), PPM, budget);
    AvoidanceCovers(active, budget, hits);
  }

  /** The product of the missing bytes with a million is in range, or there is no budget at all. */
  predicate HitsRepresentable(active: U64, budget: U64) {
    budget >= active || budget == 0 || Times(active - budget, PPM) <= Times(Ceil(MAX_U64, active), active)
  }

  /** The reported hits are never more than are needed for a budget, and are those exactly if the product is in range. */
  lemma AvoidanceIsLeast(active: U64, budget: U64)
    ensures RequiredAvoidance(active, budget) <= ExactAvoidance(active, budget) <= PPM
    ensures RequiredAvoidance(active, budget) == ExactAvoidance(active, budget) <==> HitsRepresentable(active, budget)
  {
    hide Ceil, Times, MultiplyDivideCeil;
    if budget < active {
      var v := active - budget;
      AtMostAll(active, budget);
      CeilIsLeast(Times(v, PPM), active, PPM);
      MultiplyDivideCeilExact(v, PPM, active);
      if budget == 0 {
        QuotientUnique(v, active, 1, 0);
        NoProduct(PPM);
      } else {
        QuotientUnique(v, active, 0, v);
        NoProduct(PPM);
        CeilIsLeast(MAX_U64, active, MAX_U64 - 1);
        AtLeastTwice(active);
      }
    }
  }

  lemma NoProduct(m: nat)
    ensures Times(0, m) == 0 && Times(1, m) == m
  {}

  /** Divided by at least two, the highest number is well below itself. */
  lemma AtLeastTwice(d: nat)
    requires d >= 2
    ensures MAX_U64 <= Times(MAX_U64 - 1, d)
  {
    TimesMonotone(2, d, MAX_U64 - 1);
  }

  lemma AtMostAll(active: nat, budget: nat)
    requires budget < active
    ensures Times(active - budget, PPM) <= Times(PPM, active)
  {
    assert (active - budget) * PPM <= active * PPM;
  }

  /** The planner's law: for every number of hits, the constraint passes exactly if they reach the reported ones. */
  ghost predicate ThresholdHolds(active: U64, bandwidth: U64, target: U64)
    requires target > 0
  {
    forall hits: U64 :: hits <= PPM ==>
      (BandwidthPasses(active, bandwidth, target, hits) <==> hits >= RequiredAvoidance(active, Budget(bandwidth, target)))
  }

  /**
   The law holds if and only if the reported hits are those of the passing budget; where the bandwidth itself does
   not overflow, if and only if the product in the hit computation is in range.
  */
  lemma ThresholdExact(active: U64, bandwidth: U64, target: U64)
    requires target > 0
    ensures ThresholdHolds(active, bandwidth, target) <==>
            RequiredAvoidance(active, Budget(bandwidth, target)) == ExactAvoidance(active, PassingBudget(bandwidth, target))
    ensures 1000 * bandwidth <= MAX_U64 ==>
      (ThresholdHolds(active, bandwidth, target) <==> HitsRepresentable(active, Budget(bandwidth, target)))
  {
    hide Ceil, Times, MultiplyDivideCeil, RequiredAvoidance, ExactAvoidance, PassingBudget, BandwidthPasses, HitsRepresentable;
    var reported := RequiredAvoidance(active, Budget(bandwidth, target));
    var needed := ExactAvoidance(active, PassingBudget(bandwidth, target));
    AvoidanceIsLeast(active, Budget(bandwidth, target));
    NeedsAtMostAll(active, PassingBudget(bandwidth, target));
    forall hits: U64 | hits <= PPM
      ensures BandwidthPasses(active, bandwidth, target, hits) <==> hits >= needed
    {
      PassesExactly(active, bandwidth, target, hits);
    }
    if reported < needed {
      assert !BandwidthPasses(active, bandwidth, target, reported);
    } else if needed < reported {
      assert BandwidthPasses(active, bandwidth, target, needed);
    }
    if 1000 * bandwidth <= MAX_U64 {
      InRange(bandwidth, target);
    }
  }

  lemma NeedsAtMostAll(active: nat, budget: nat)
    ensures ExactAvoidance(active, budget) <= PPM
  {
    hide Ceil, Times;
    if budget < active {
      AtMostAll(active, budget);
      CeilIsLeast(Times(active - budget, PPM), active, PPM);
    }
  }

  /** Without overflow the passing budget is the reported one. */
  lemma InRange(bandwidth: U64, target: U64)
    requires target > 0 && 1000 * bandwidth <= MAX_U64
    ensures PassingBudget(bandwidth, target) == Budget(bandwidth, target)
  {
    hide Ceil, Times, SaturatingMultiply;
    SaturatedProduct(bandwidth, 1000);
    ThousandTimes(bandwidth);
    RestIsLess(bandwidth, target);
    CeilIsLeast(MAX_U64, 1000, bandwidth % target);
    ThousandTimes(bandwidth % target);
  }

  lemma RestIsLess(b: nat, t: nat)
    requires t > 0
    ensures b % t <= b
  {
    var x, y := b / t, b % t;
    QuotientFits(b, t);
    assert b == x * t + y && y < t;
  }

  /** With overflow in the hit computation a single part per million is reported as enough, and is not. */
  lemma ThresholdOverflows()
    ensures
      var active, bandwidth, target := MAX_U64, 1_000_000_000_000_000, 1000;
      RequiredAvoidance(active, Budget(bandwidth, target)) == 1 && !BandwidthPasses(active, bandwidth, target, 1)
  {
    assert Budget(1_000_000_000_000_000, 1000) == 1_000_000_000_000_000;
    assert Expected(MAX_U64, PPM - 1) > 1_000_000_000_000_001;
  }

  /** With overflow in the byte rate a run passes although it has fewer hits than are reported as required. */
  lemma ThresholdRateOverflows()
    ensures
      var active, bandwidth, target := 1_000_000_000_000_000, MAX_U64, 1_000_000;
      RequiredAvoidance(active, Budget(bandwidth, target)) > 0 && BandwidthPasses(active, bandwidth, target, 0)
  {
    assert Budget(MAX_U64, 1_000_000) == 18_446_744_073_709;
    assert Expected(1_000_000_000_000_000, PPM) == 1_000_000_000_000_000;
  }

  /** A run that fits keeps fitting with more hits and at a lower target. */
  lemma PassingIsMonotone(active: U64, bandwidth: U64, target: U64, hits: U64, lower: U64, more: U64)
    requires hits <= more <= PPM && lower <= target
    requires BandwidthPasses(active, bandwidth, target, hits)
    ensures BandwidthPasses(active, bandwidth, lower, more)
  {
    hide MultiplyDivideCeil;
    MonotoneInMultiplier(active, PPM - more, PPM - hits, PPM);
    MonotoneInMultiplier(Expected(active, PPM - more), lower, target, 1000);
    MonotoneInValue(Expected(active, PPM - more), Expected(active, PPM - hits), target, 1000);
  }

  // The decision

  /** All requirements in the order in which they are reported. */
  function Constraints(m: Manifest, h: Hardware, r: Request): seq<Constraint>
    requires r.target > 0 && r.vramHits + r.ramHits <= PPM
  {
    var kv := SaturatingMultiply(r.kvBytes, r.concurrency);
    var resident := SaturatingAdd(SaturatingAdd(m.residentDense, r.workspace), kv);
    [Demand(VramResident, resident, h.vramAvailable),
     Demand(VramTotal, SaturatingAdd(resident, r.vramBudget), h.vramAvailable),
     Demand(Ram, SaturatingAdd(r.staging, r.ramBudget), h.availableRam),
     Demand(DiskCapacity, m.totalFile, h.diskFree)] +
    (if r.nonIo != 0 then [Demand(NonIoCeiling, MultiplyDivideCeil(r.nonIo, r.target, 1000), SECOND)] else []) +
    [Demand(StorageBandwidth, RequiredBandwidth(Expected(m.activeExpert, PPM - r.vramHits - r.ramHits), r.target), h.storageRead),
     Demand(PcieBandwidth, RequiredBandwidth(Expected(m.activeExpert, PPM - r.vramHits), r.target), h.h2d)]
  }

  function Demand(resource: Resource, required: U64, available: U64): Constraint {
    Constraint(resource, required, available, required <= available)
  }

  predicate HasLowMargin(c: Constraint)
    requires c.passes ==> c.required <= c.available
  {
    c.passes && c.available != 0 &&
    MultiplyDivideCeil(c.available - c.required, PPM, c.available) < DEGRADED_MARGIN
  }

  /** Low margin as the planner decides it: the headroom in parts per million, saturated, is below the margin. */
  lemma LowMarginMeans(c: Constraint)
    requires c.passes ==> c.required <= c.available
    ensures HasLowMargin(c) <==>
            c.passes && c.required > 0 &&
            Least(MAX_U64, Times(c.available - c.required, PPM)) <= Times(DEGRADED_MARGIN - 1, c.available)
  {
    hide Ceil, Times, MultiplyDivideCeil;
    if c.passes && c.available > 0 {
      var headroom := c.available - c.required;
      MultiplyDivideCeilMeans(headroom, PPM, c.available);
      NoProduct(PPM);
      if c.required == 0 {
        QuotientUnique(headroom, c.available, 1, 0);
        Nothing(c.available);
      } else {
        QuotientUnique(headroom, c.available, 0, headroom);
        CeilIsLeast(Least(MAX_U64, Times(headroom, PPM)), c.available, DEGRADED_MARGIN - 1);
      }
    }
  }

  lemma Nothing(d: nat)
    requires d > 0
    ensures Ceil(0, d) == 0
  {}

  /** The headroom is at most 99999 parts per million of what is available. */
  predicate NarrowHeadroom(c: Constraint)
    requires c.passes ==> c.required <= c.available
  {
    c.passes && c.required > 0 && Times(c.available - c.required, PPM) <= Times(DEGRADED_MARGIN - 1, c.available)
  }

  /** The decision is right unless the headroom product overflows and so much is available that this looks narrow. */
  lemma LowMarginExact(c: Constraint)
    requires c.passes ==> c.required <= c.available
    ensures (HasLowMargin(c) <==> NarrowHeadroom(c)) <==>
            !(c.passes && c.required > 0 && MAX_U64 <= Times(DEGRADED_MARGIN - 1, c.available) <
              Times(c.available - c.required, PPM))
  {
    hide HasLowMargin, Times;
    LowMarginMeans(c);
  }

  /** Almost everything of 200 TB is headroom, and the margin is taken for low. */
  lemma WideMarginTakenForLow()
    ensures
      var c := Constraint(DiskCapacity, 1, 200_000_000_000_000, true);
      HasLowMargin(c) && !NarrowHeadroom(c)
  {
    LowMarginMeans(Constraint(DiskCapacity, 1, 200_000_000_000_000, true));
  }

  predicate Ordinary(cs: seq<Constraint>) {
    forall i :: 0 <= i < |cs| ==> (cs[i].passes <==> cs[i].required <= cs[i].available)
  }

  /** The first failing constraint, or the number of constraints. */
  method FirstFailing(cs: seq<Constraint>) returns (k: nat)
    ensures k <= |cs| && (forall i :: 0 <= i < k ==> cs[i].passes) && (k < |cs| ==> !cs[k].passes)
  {
    k := 0;
    while k < |cs| && cs[k].passes
      invariant k <= |cs| && forall i :: 0 <= i < k ==> cs[i].passes
    {
      k := k + 1;
    }
  }

  method FirstLowMargin(cs: seq<Constraint>) returns (k: nat)
    requires Ordinary(cs)
    ensures k <= |cs| && (forall i :: 0 <= i < k ==> !HasLowMargin(cs[i])) && (k < |cs| ==> HasLowMargin(cs[k]))
  {
    hide MultiplyDivideCeil;
    k := 0;
    while k < |cs| && !HasLowMargin(cs[k])
      invariant k <= |cs| && forall i :: 0 <= i < k ==> !HasLowMargin(cs[i])
    {
      k := k + 1;
    }
  }

  /** What the status and the limiting resource of a decision say about its constraints. */
  predicate StatusFits(cs: seq<Constraint>, measured: bool, status: Status, limiting: Resource)
    requires Ordinary(cs)
  {
    (status.Impossible? <==> exists i :: 0 <= i < |cs| && !cs[i].passes) &&
    (status.Feasible? <==> measured && forall i :: 0 <= i < |cs| ==> cs[i].passes && !HasLowMargin(cs[i])) &&
    (status.Impossible? ==>
       exists k :: 0 <= k < |cs| && !cs[k].passes && limiting == cs[k].resource && forall i :: 0 <= i < k ==> cs[i].passes) &&
    (status.Degraded? && !measured ==> limiting == UnmeasuredBandwidth) &&
    (status.Degraded? && measured ==>
       exists k :: 0 <= k < |cs| && HasLowMargin(cs[k]) && limiting == cs[k].resource &&
                   forall i :: 0 <= i < k ==> !HasLowMargin(cs[i])) &&
    (status.Feasible? ==> limiting == NoResource)
  }

  method Judge(cs: seq<Constraint>, measured: bool) returns (status: Status, limiting: Resource)
    requires Ordinary(cs)
    ensures StatusFits(cs, measured, status, limiting)
  {
    hide HasLowMargin;
    var failure := FirstFailing(cs);
    if failure < |cs| { return Impossible, cs[failure].resource; }
    var low := FirstLowMargin(cs);
    if !measured || low < |cs| {
      return Degraded, if !measured then UnmeasuredBandwidth else cs[low].resource;
    }
    return Feasible, NoResource;
  }

  predicate Refusal(m: Manifest, r: Request, e: Error) {
    match e
    case NoTarget => r.target == 0
    case NoConcurrency => r.target != 0 && r.concurrency == 0
    case BadHits => r.target != 0 && r.concurrency != 0 && r.vramHits + r.ramHits > PPM
    case NoRecordBytes =>
      r.target != 0 && r.concurrency != 0 && r.vramHits + r.ramHits <= PPM && m.averageRecord == 0 && m.totalExpert != 0
  }

  predicate Planned(m: Manifest, h: Hardware, r: Request, d: Decision)
    requires r.target > 0 && r.vramHits + r.ramHits <= PPM
  {
    d.coldBudget == Budget(h.storageRead, r.target) && d.h2dBudget == Budget(h.h2d, r.target) &&
    d.storageAvoidance == RequiredAvoidance(m.activeExpert, d.coldBudget) &&
    d.requiredVramHits == RequiredAvoidance(m.activeExpert, d.h2dBudget) &&
    d.expectedCold == Expected(m.activeExpert, PPM - r.vramHits - r.ramHits) &&
    d.expectedH2d == Expected(m.activeExpert, PPM - r.vramHits) &&
    d.constraints == Constraints(m, h, r) && Ordinary(d.constraints) &&
    StatusFits(d.constraints, h.storageMeasured && h.h2dMeasured, d.status, d.limiting)
  }

  /** A requirement as the planner reports it: at most the largest number, which only an unlimited resource meets. */
  predicate Asks(c: Constraint, resource: Resource, exact: nat, available: U64) {
    c.resource == resource && c.available == available && c.required == Least(MAX_U64, exact) &&
    (c.passes <==> available == MAX_U64 || exact <= available)
  }

  /** Every requirement on memory, disk and time, on the fields of the request. */
  predicate Capacities(m: Manifest, h: Hardware, r: Request, cs: seq<Constraint>) {
    var resident := m.residentDense + r.workspace + Times(r.kvBytes, r.concurrency);
    |cs| == (if r.nonIo == 0 then 6 else 7) &&
    Asks(cs[0], VramResident, resident, h.vramAvailable) &&
    Asks(cs[1], VramTotal, resident + r.vramBudget, h.vramAvailable) &&
    Asks(cs[2], Ram, r.staging + r.ramBudget, h.availableRam) &&
    Asks(cs[3], DiskCapacity, m.totalFile, h.diskFree) &&
    (r.nonIo != 0 ==>
       cs[4].resource == NonIoCeiling && cs[4].available == SECOND &&
       (cs[4].passes <==> Times(r.nonIo, r.target) <= 1000 * SECOND)) &&
    cs[|cs| - 2].resource == StorageBandwidth && cs[|cs| - 1].resource == PcieBandwidth
  }

  lemma CapacitiesAsked(m: Manifest, h: Hardware, r: Request)
    requires r.target > 0 && r.vramHits + r.ramHits <= PPM
    ensures Capacities(m, h, r, Constraints(m, h, r))
  {
    hide MultiplyDivideCeil, SaturatingMultiply, SaturatingAdd, Times, RequiredBandwidth, Expected;
    var kv := SaturatingMultiply(r.kvBytes, r.concurrency);
    var dense := SaturatingAdd(m.residentDense, r.workspace);
    SaturatedProduct(r.kvBytes, r.concurrency);
    SaturatedSum(m.residentDense, r.workspace);
    SaturatedSum(dense, kv);
    SaturatedSum(SaturatingAdd(dense, kv), r.vramBudget);
    SaturatedSum(r.staging, r.ramBudget);
    if r.nonIo != 0 {
      ThousandSeconds();
      BoundedExactly(r.nonIo, r.target, 1000, SECOND);
    }
  }

  lemma ThousandSeconds()
    ensures Times(SECOND, 1000) == 1000 * SECOND < MAX_U64
  {}

  /** Budgets and expected bytes, on the fields of the request. */
  predicate Bandwidths(m: Manifest, h: Hardware, r: Request, d: Decision)
    requires r.target > 0 && r.vramHits + r.ramHits <= PPM
  {
    HoldsExactly(d.coldBudget, r.target, Least(MAX_U64, 1000 * h.storageRead)) &&
    HoldsExactly(d.h2dBudget, r.target, Least(MAX_U64, 1000 * h.h2d)) &&
    d.expectedCold == Ceil(Times(m.activeExpert, PPM - r.vramHits - r.ramHits), PPM) &&
    d.expectedH2d == Ceil(Times(m.activeExpert, PPM - r.vramHits), PPM)
  }

  lemma BudgetHolds(bandwidth: U64, target: U64)
    requires target > 0
    ensures HoldsExactly(Budget(bandwidth, target), target, Least(MAX_U64, 1000 * bandwidth))
  {
    hide SaturatingMultiply, HoldsExactly;
    SaturatedProduct(bandwidth, 1000);
    QuotientFits(SaturatingMultiply(bandwidth, 1000), target);
    QuotientHolds(SaturatingMultiply(bandwidth, 1000), target);
  }

  lemma BandwidthsMeant(m: Manifest, h: Hardware, r: Request, d: Decision)
    requires r.target > 0 && r.vramHits + r.ramHits <= PPM && Planned(m, h, r, d)
    ensures Bandwidths(m, h, r, d)
  {
    hide HoldsExactly, Constraints, StatusFits, Budget, Expected, Ceil, Times, RequiredAvoidance;
    BudgetHolds(h.storageRead, r.target);
    BudgetHolds(h.h2d, r.target);
    ExpectedExact(m.activeExpert, PPM - r.vramHits - r.ramHits);
    ExpectedExact(m.activeExpert, PPM - r.vramHits);
  }

  /** `count` records of `bytes` fit the budget, one more does not. */
  predicate HoldsExactly(count: nat, bytes: nat, budget: nat) {
    Times(count, bytes) <= budget < Times(count + 1, bytes)
  }

  lemma QuotientHolds(budget: nat, bytes: nat)
    requires bytes > 0 && budget / bytes >= 0
    ensures HoldsExactly(budget / bytes, bytes, budget)
  {
    var q, r := budget / bytes, budget % bytes;
    assert budget == q * bytes + r && r < bytes;
  }

  /** Experts that fit the budgets, requests that hide the cold bytes, and tokens per second beside I/O. */
  predicate Quotients(m: Manifest, r: Request, d: Decision) {
    (if m.averageRecord == 0 then d.vramExperts == d.ramExperts == 0
     else HoldsExactly(d.vramExperts, m.averageRecord, r.vramBudget) &&
          HoldsExactly(d.ramExperts, m.averageRecord, r.ramBudget)) &&
    (if d.coldBudget == 0 then d.minimumConcurrency == MAX_U64
     else d.minimumConcurrency == Ceil(m.activeExpert, d.coldBudget)) &&
    if r.nonIo == 0 then d.nonIoCeiling == 0 else HoldsExactly(d.nonIoCeiling, r.nonIo, 1000 * SECOND)
  }

  method EvaluateFeasibility(m: Manifest, h: Hardware, r: Request) returns (o: Outcome)
    ensures o.Refused? ==> Refusal(m, r, o.error)
    ensures o.Decided? ==> r.target > 0 && r.concurrency > 0 && r.vramHits + r.ramHits <= PPM
    ensures o.Decided? ==> Planned(m, h, r, o.decision) && Bandwidths(m, h, r, o.decision)
    ensures o.Decided? ==> Capacities(m, h, r, o.decision.constraints)
    ensures o.Decided? ==> m.averageRecord != 0 || m.totalExpert == 0
    ensures o.Decided? ==> Quotients(m, r, o.decision)
  {
    hide MultiplyDivideCeil, SaturatingMultiply, StatusFits, Ceil, HoldsExactly;
    if r.target == 0 { return Refused(NoTarget); }
    if r.concurrency == 0 { return Refused(NoConcurrency); }
    if r.vramHits > PPM || r.ramHits > PPM || r.vramHits + r.ramHits > PPM { return Refused(BadHits); }
    if m.averageRecord == 0 && m.totalExpert != 0 { return Refused(NoRecordBytes); }
    var coldBudget, h2dBudget := Budget(h.storageRead, r.target), Budget(h.h2d, r.target);
    var expectedCold := Expected(m.activeExpert, PPM - r.vramHits - r.ramHits);
    var expectedH2d := Expected(m.activeExpert, PPM - r.vramHits);
    var minimum := MAX_U64;
    if coldBudget != 0 {
      minimum := CeilU64(m.activeExpert, coldBudget);
    }
    var vramExperts, ramExperts, nonIoCeiling: U64 := 0, 0, 0;
    if m.averageRecord != 0 {
      QuotientFits(r.vramBudget, m.averageRecord);
      QuotientFits(r.ramBudget, m.averageRecord);
      QuotientHolds(r.vramBudget, m.averageRecord);
      QuotientHolds(r.ramBudget, m.averageRecord);
      vramExperts, ramExperts := r.vramBudget / m.averageRecord, r.ramBudget / m.averageRecord;
    }
    if r.nonIo != 0 {
      SaturatedProduct(SECOND, 1000);
      QuotientFits(SaturatingMultiply(SECOND, 1000), r.nonIo);
      QuotientHolds(1000 * SECOND, r.nonIo);
      nonIoCeiling := SaturatingMultiply(SECOND, 1000) / r.nonIo;
    }
    var kv := SaturatingMultiply(r.kvBytes, r.concurrency);
    var resident := SaturatingAdd(SaturatingAdd(m.residentDense, r.workspace), kv);
    var cs := [Demand(VramResident, resident, h.vramAvailable)];
    cs := cs + [Demand(VramTotal, SaturatingAdd(resident, r.vramBudget), h.vramAvailable)];
    cs := cs + [Demand(Ram, SaturatingAdd(r.staging, r.ramBudget), h.availableRam)];
    cs := cs + [Demand(DiskCapacity, m.totalFile, h.diskFree)];
    if r.nonIo != 0 {
      cs := cs + [Demand(NonIoCeiling, MultiplyDivideCeil(r.nonIo, r.target, 1000), SECOND)];
    }
    cs := cs + [Demand(StorageBandwidth, RequiredBandwidth(expectedCold, r.target), h.storageRead)];
    cs := cs + [Demand(PcieBandwidth, RequiredBandwidth(expectedH2d, r.target), h.h2d)];
    assert cs == Constraints(m, h, r);
    CapacitiesAsked(m, h, r);
    hide Capacities, Bandwidths;
    var status, limiting := Judge(cs, h.storageMeasured && h.h2dMeasured);
    o := Decided(Decision(status, limiting, coldBudget, h2dBudget, expectedCold, expectedH2d,
                          RequiredAvoidance(m.activeExpert, coldBudget), RequiredAvoidance(m.activeExpert, h2dBudget),
                          minimum, vramExperts, ramExperts, nonIoCeiling, cs));
    BandwidthsMeant(m, h, r, o.decision);
  }

  predicate FitsStorage(cs: seq<Constraint>) {
    forall i :: 0 <= i < |cs| && cs[i].resource == StorageBandwidth ==> cs[i].passes
  }

  predicate FitsPcie(cs: seq<Constraint>) {
    forall i :: 0 <= i < |cs| && cs[i].resource == PcieBandwidth ==> cs[i].passes
  }

  /** The bandwidths of a decision are enough exactly if the expected hits reach those of the passing budgets. */
  lemma DecisionThreshold(m: Manifest, h: Hardware, r: Request, d: Decision)
    requires r.target > 0 && r.vramHits + r.ramHits <= PPM && Planned(m, h, r, d)
    ensures FitsStorage(d.constraints) <==>
            r.vramHits + r.ramHits >= ExactAvoidance(m.activeExpert, PassingBudget(h.storageRead, r.target))
    ensures FitsPcie(d.constraints) <==> r.vramHits >= ExactAvoidance(m.activeExpert, PassingBudget(h.h2d, r.target))
    ensures ThresholdHolds(m.activeExpert, h.storageRead, r.target) ==>
      (FitsStorage(d.constraints) <==> r.vramHits + r.ramHits >= d.storageAvoidance)
    ensures ThresholdHolds(m.activeExpert, h.h2d, r.target) ==> (FitsPcie(d.constraints) <==> r.vramHits >= d.requiredVramHits)
  {
    hide MultiplyDivideCeil, SaturatingMultiply, StatusFits, RequiredAvoidance, ExactAvoidance, PassingBudget, Ceil, Times;
    PassesExactly(m.activeExpert, h.storageRead, r.target, r.vramHits + r.ramHits);
    PassesExactly(m.activeExpert, h.h2d, r.target, r.vramHits);
    var cs, n := d.constraints, |d.constraints|;
    assert cs[n - 2].resource == StorageBandwidth && cs[n - 1].resource == PcieBandwidth;
    assert FitsStorage(cs) <==> BandwidthPasses(m.activeExpert, h.storageRead, r.target, r.vramHits + r.ramHits);
    assert FitsPcie(cs) <==> BandwidthPasses(m.activeExpert, h.h2d, r.target, r.vramHits);
  }
}
