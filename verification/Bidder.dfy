/** The bid decision, its saturating 128-bit pricing, and what a bid guarantees about time and money. */
module Bidder {
  import opened Prelude
  import opened Schedule
  import M = Marketplace

  const ONE_SALT: u128 := 1_000_000_000_000_000_000
  const COMMITMENT_CAP: u128 := 10 * ONE_SALT

  datatype Job = Job(
    id: u64, maxPrice: u128, tier: M.Tier, pflopHours: u128, execSecs: u64, secsUntilDeadline: u64)

  datatype Oracle = Oracle(saltPerPflopHour: u128, stale: bool)

  datatype Settings = Settings(enabled: bool, schedule: Schedule, hour: nat, minute: nat, day: Weekday)

  datatype Caps = Caps(active: u64, max: u64)

  datatype SkipReason =
    | Disabled | OutsideSchedule | ExceedsCommitmentCap | UnsupportedTier | AtCapacity
    | DeadlineInfeasible | WindowClosingSoon | OracleStale | Unprofitable

  datatype Decision = Bid(jobId: u64, price: u128, cost: u128) | Skip(jobId: u64, reason: SkipReason)

  /** `estimated_cost_wei` */
  function EstimatedCost(o: Oracle, j: Job): u128 {
    SatMul(j.pflopHours, o.saltPerPflopHour) / ONE_SALT
  }

  /** The gates before pricing, in the source's order; `None` when all pass. */
  function Gate(j: Job, o: Oracle, s: Settings, caps: Caps): Option<SkipReason> {
    var required := j.execSecs * 2;
    if !s.enabled then Some(Disabled)
    else if !InWindow(s.schedule, s.hour, s.day) then Some(OutsideSchedule)
    else if j.maxPrice >= COMMITMENT_CAP then Some(ExceedsCommitmentCap)
    else if j.tier != M.Commitment then Some(UnsupportedTier)
    else if caps.max == 0 || caps.active * 100 >= caps.max * 80 then Some(AtCapacity)
    else if j.secsUntilDeadline < required then Some(DeadlineInfeasible)
    else if SecsUntilWindowClose(s.schedule, s.hour, s.minute, s.day) < required then Some(WindowClosingSoon)
    else if o.stale then Some(OracleStale)
    else None
  }

  /** `evaluate` */
  function Evaluate(j: Job, o: Oracle, s: Settings, caps: Caps): Decision {
    var gate := Gate(j, o, s, caps);
    if gate.Some? then Skip(j.id, gate.value) else
      var cost := EstimatedCost(o, j);
      var costPlus := SatMul(cost, 115) / 100;
      var ceiling := SatMul(j.maxPrice, 90) / 100;
      var price := Min(costPlus, ceiling);
      if price < cost || price == 0 then Skip(j.id, Unprofitable) else Bid(j.id, price, cost)
  }

  // ---- the same decision over unbounded integers ----

  datatype ExactDecision = ExactBid(price: nat, cost: nat) | ExactSkip(reason: SkipReason)

  function EvaluateExactly(j: Job, o: Oracle, s: Settings, caps: Caps): ExactDecision {
    var gate := Gate(j, o, s, caps);
    if gate.Some? then ExactSkip(gate.value) else
      var cost := j.pflopHours * o.saltPerPflopHour / ONE_SALT;
      var price := Min(cost * 115 / 100, j.maxPrice * 90 / 100);
      if price < cost || price == 0 then ExactSkip(Unprofitable) else ExactBid(price, cost)
  }

  /** Saturation never changes a decision: a cost that saturates is above every ceiling anyway. */
  lemma SaturationHarmless(j: Job, o: Oracle, s: Settings, caps: Caps)
    ensures match Evaluate(j, o, s, caps)
            case Bid(id, price, cost) => id == j.id && EvaluateExactly(j, o, s, caps) == ExactBid(price, cost)
            case Skip(id, reason) => id == j.id && EvaluateExactly(j, o, s, caps) == ExactSkip(reason)
  {
    if Gate(j, o, s, caps).None? {
      var exact := j.pflopHours * o.saltPerPflopHour;
      assert j.maxPrice < COMMITMENT_CAP;
      if exact > U128_MAX {
        Overpriced(exact, j.maxPrice);
        Overpriced(U128_MAX, j.maxPrice);
      } else {
        assert EstimatedCost(o, j) == exact / ONE_SALT;
      }
    }
  }

  lemma Overpriced(exact: nat, maxPrice: u128)
    requires exact >= U128_MAX && maxPrice < COMMITMENT_CAP
    ensures exact / ONE_SALT > maxPrice * 90 / 100
  {
    assert exact / ONE_SALT >= U128_MAX / ONE_SALT;
  }

  /** A bid covers its cost and stays strictly below the requester's maximum. */
  lemma BidIsProfitable(j: Job, o: Oracle, s: Settings, caps: Caps)
    requires Evaluate(j, o, s, caps).Bid?
    ensures var d := Evaluate(j, o, s, caps);
            && 0 < d.cost <= d.price < j.maxPrice
            && d.price == Min(115 * d.cost / 100, 90 * j.maxPrice / 100)
            && d.cost == j.pflopHours * o.saltPerPflopHour / ONE_SALT
  {
    SaturationHarmless(j, o, s, caps);
  }

  // ---- from the chain's job to the bidder's ----

  /** `map_job`: ids and block counts are truncated to 64 bits, the product saturates. */
  function MapJob(j: M.Job, currentBlock: u128, secsPerBlock: u64, pflopHours: u128, execSecs: u64): Job {
    var blocksLeft := SatSub(j.executionDeadline, currentBlock) % (U64_MAX + 1);
    var secs := if blocksLeft * secsPerBlock > U64_MAX then U64_MAX else blocksLeft * secsPerBlock;
    Job(j.id % (U64_MAX + 1), j.maxPrice, j.tier, pflopHours, execSecs, secs)
  }

  /** While everything fits 64 bits the bidder sees the chain's job as it is: no time left once the deadline
      has passed, and before that the blocks left times their length. */
  lemma MapIsExact(j: M.Job, currentBlock: u128, secsPerBlock: u64, pflopHours: u128, execSecs: u64)
    requires j.id <= U64_MAX && (j.executionDeadline - currentBlock) * secsPerBlock <= U64_MAX
    requires j.executionDeadline - currentBlock <= U64_MAX
    ensures MapJob(j, currentBlock, secsPerBlock, pflopHours, execSecs)
         == Job(j.id, j.maxPrice, j.tier, pflopHours, execSecs,
                if j.executionDeadline <= currentBlock then 0
                else (j.executionDeadline - currentBlock) * secsPerBlock)
  {
  }

  /** A bid leaves twice the estimate before the real deadline, truncation and saturation included. */
  lemma BidLeavesTime(j: M.Job, currentBlock: u128, secsPerBlock: u64, pflopHours: u128, execSecs: u64,
                      o: Oracle, s: Settings, caps: Caps)
    requires Evaluate(MapJob(j, currentBlock, secsPerBlock, pflopHours, execSecs), o, s, caps).Bid?
    ensures execSecs > 0 ==> j.executionDeadline > currentBlock
    ensures j.executionDeadline >= currentBlock ==>
              (j.executionDeadline - currentBlock) * secsPerBlock >= 2 * execSecs
  {
    var left := SatSub(j.executionDeadline, currentBlock);
    var truncated := left % (U64_MAX + 1);
    assert truncated <= left;
    Monotone(left, truncated, secsPerBlock);
  }

  /** What a bid means, and that nothing else is needed for one. */
  lemma BidIff(j: Job, o: Oracle, s: Settings, caps: Caps)
    ensures Evaluate(j, o, s, caps).Bid? <==>
              && s.enabled && InWindow(s.schedule, s.hour, s.day)
              && j.tier == M.Commitment && j.maxPrice < 10_000_000_000_000_000_000
              && caps.max > 0 && 5 * caps.active < 4 * caps.max
              && 2 * j.execSecs <= j.secsUntilDeadline
              && 2 * j.execSecs <= SecsUntilWindowClose(s.schedule, s.hour, s.minute, s.day)
              && !o.stale
              && var cost := j.pflopHours * o.saltPerPflopHour / 1_000_000_000_000_000_000;
                 0 < cost && cost <= 90 * j.maxPrice / 100
  {
    SaturationHarmless(j, o, s, caps);
    if Gate(j, o, s, caps).None? {
      var cost := j.pflopHours * o.saltPerPflopHour / ONE_SALT;
      assert cost <= cost * 115 / 100;
    }
  }

  /** A skip names the first condition that fails, in the documented order. */
  lemma SkipNamesFirstFailure(j: Job, o: Oracle, s: Settings, caps: Caps)
    requires Evaluate(j, o, s, caps).Skip?
    ensures var open := s.enabled && InWindow(s.schedule, s.hour, s.day);
            var fits := open && j.maxPrice < 10_000_000_000_000_000_000;
            var room := fits && j.tier == M.Commitment && caps.max > 0 && 5 * caps.active < 4 * caps.max;
            var window := SecsUntilWindowClose(s.schedule, s.hour, s.minute, s.day);
            var time := room && 2 * j.execSecs <= j.secsUntilDeadline;
            match Evaluate(j, o, s, caps).reason
            case Disabled => !s.enabled
            case OutsideSchedule => s.enabled && !InWindow(s.schedule, s.hour, s.day)
            case ExceedsCommitmentCap => open && j.maxPrice >= 10_000_000_000_000_000_000
            case UnsupportedTier => fits && j.tier != M.Commitment
            case AtCapacity => fits && j.tier == M.Commitment && (caps.max == 0 || 5 * caps.active >= 4 * caps.max)
            case DeadlineInfeasible => room && 2 * j.execSecs > j.secsUntilDeadline
            case WindowClosingSoon => time && 2 * j.execSecs > window
            case OracleStale => time && 2 * j.execSecs <= window && o.stale
            case Unprofitable =>
              && time && 2 * j.execSecs <= window && !o.stale
              && var cost := j.pflopHours * o.saltPerPflopHour / 1_000_000_000_000_000_000;
                 cost == 0 || cost > 90 * j.maxPrice / 100
  {
    BidIff(j, o, s, caps);
  }

  /** A bid on a job read from the chain means that job's tier and price. */
  lemma BidFitsTheChainJob(j: M.Job, currentBlock: u128, secsPerBlock: u64, pflopHours: u128, execSecs: u64,
                           o: Oracle, s: Settings, caps: Caps)
    requires Evaluate(MapJob(j, currentBlock, secsPerBlock, pflopHours, execSecs), o, s, caps).Bid?
    ensures j.tier == M.Commitment && j.maxPrice < 10_000_000_000_000_000_000
    ensures Evaluate(MapJob(j, currentBlock, secsPerBlock, pflopHours, execSecs), o, s, caps).price < j.maxPrice
  {
    BidIff(MapJob(j, currentBlock, secsPerBlock, pflopHours, execSecs), o, s, caps);
    BidIsProfitable(MapJob(j, currentBlock, secsPerBlock, pflopHours, execSecs), o, s, caps);
  }

  /** The bid placed names the job that was read if and only if its id fits 64 bits. */
  lemma BidNamesItsJob(j: M.Job, currentBlock: u128, secsPerBlock: u64, pflopHours: u128, execSecs: u64,
                       o: Oracle, s: Settings, caps: Caps)
    requires Evaluate(MapJob(j, currentBlock, secsPerBlock, pflopHours, execSecs), o, s, caps).Bid?
    ensures Evaluate(MapJob(j, currentBlock, secsPerBlock, pflopHours, execSecs), o, s, caps).jobId == j.id
            <==> j.id <= U64_MAX
  {
  }

  /** The failing family is real: this bid, for job 2^64 + 7, names job 7. */
  lemma WrongJobIsNamed()
    ensures var j := M.Job(U64_MAX + 8, Zeros(20), Zeros(32), 4 * ONE_SALT, M.Commitment, M.Posted, Zeros(20),
                           0, 0, 5000, 0, 0, None);
            var d := Evaluate(MapJob(j, 0, 2, ONE_SALT, 60), Oracle(ONE_SALT, false),
                              Settings(true, Always, 12, 0, Mon), Caps(0, 10));
            d.Bid? && d.jobId == 7
  {
  }

  // ---- a bid stays inside the schedule window ----

  function SettingsAt(enabled: bool, schedule: Schedule, unix: nat): Settings {
    var (hour, minute, day) := UtcHourMinWeekday(unix);
    Settings(enabled, schedule, hour, minute, day)
  }

  lemma AlwaysOpen(unix: nat)
    ensures OpenAt(Always, unix)
  {
  }

  /** A bid made at second `unix` implies the window is open at every second of
      [unix, unix + 2·exec − unix mod 60); so a job that takes its estimate ends inside the window whenever
      the estimate is at least the seconds of the minute already gone, in particular from 60 s up. */
  lemma BidStaysInWindow(j: Job, o: Oracle, schedule: Schedule, unix: nat, caps: Caps, t: nat)
    requires Evaluate(j, o, SettingsAt(true, schedule, unix), caps).Bid?
    requires unix <= t
    ensures t + unix % 60 < unix + 2 * j.execSecs ==> OpenAt(schedule, t)
    ensures j.execSecs >= unix % 60 && t < unix + j.execSecs ==> OpenAt(schedule, t)
  {
    if schedule == Always {
      AlwaysOpen(t);
    } else {
      ReportMatchesScan(schedule, unix);
    }
  }

  /** Below that the margin can fail: a 20-second job is bid on at 05:59:45 and ends after 06:00. */
  lemma ShortJobCanOverrun()
    ensures var unix := 21_585;
            var j := Job(7, 4 * ONE_SALT, M.Commitment, ONE_SALT, 20, 3600);
            && Evaluate(j, Oracle(ONE_SALT, false), SettingsAt(true, Nights, unix), Caps(0, 10)).Bid?
            && !OpenAt(Nights, unix + 19)
  {
    OpenNights(21_585, 0, 21_585);
    OpenNights(21_604, 0, 21_604);
    ReportNights(21_585, 0, 21_585);
  }

  /** Exactly when a job started in an open window ends inside it: its estimate is at most the report less
      the seconds of the minute already gone. The gate compares with the report alone. */
  lemma EndsInsideIff(schedule: Schedule, unix: nat, execSecs: nat)
    requires schedule != Always && OpenAt(schedule, unix)
    ensures (forall t :: unix <= t < unix + execSecs ==> OpenAt(schedule, t))
            <==> execSecs <= ReportedAt(schedule, unix) - unix % 60
  {
    ReportMatchesScan(schedule, unix);
  }

  /** So a bid overruns its window only with an estimate below the seconds of the minute already gone. */
  lemma OverrunOnlyWhenShort(j: Job, o: Oracle, schedule: Schedule, unix: nat, caps: Caps, remaining: nat)
    requires schedule != Always && Evaluate(j, o, SettingsAt(true, schedule, unix), caps).Bid?
    requires OpenFor(schedule, unix, remaining) && j.execSecs > remaining
    ensures j.execSecs < unix % 60
  {
    ReportOptimisticUnlessWholeMinute(schedule, unix, remaining);
  }
}
