/** Two services bound a date range to 366 days: the worker walks it day by
    day, market-data subtracts. */
module BackfillRange {
  import opened Ledger
  import opened Calendar

  datatype WorkerMode = Idle | Once | Loop
  datatype WorkerJob = BackfillDailySnapshots | OtherJob

  datatype Config = Config(
    mode: WorkerMode,
    job: WorkerJob,
    targetPortfolio: Option<PortfolioId>,
    dateFrom: Option<Date>,
    dateTo: Option<Date>)

  datatype Verdict =
    | Accepted
    | LoopUnsupported
    | TargetMissing
    | FromMissing
    | ToMissing
    | FromAfterTo
    | RangeTooLong
    | OutOfDateBounds

  const MAX_DAYS := 366

  predicate ValidDates(from: Option<Date>, to: Option<Date>) {
    (from.Some? ==> ValidDate(from.value)) && (to.Some? ==> ValidDate(to.value))
  }

  /** The check of the market-data history jobs, by subtraction. */
  function RangeCheck(from: Option<Date>, to: Option<Date>): Verdict
    requires ValidDates(from, to)
  {
    if from.None? then FromMissing
    else if to.None? then ToMissing
    else if Before(to.value, from.value) then FromAfterTo
    else if WholeDays(from.value, to.value) + 1 > MAX_DAYS then RangeTooLong
    else Accepted
  }

  /** `validate_job_specific_config`: whatever it says of a backfill range is
      what the subtraction says. The walk ends, and never runs off the
      calendar; the counter stays far inside 32 bits. */
  method ValidateJobSpecificConfig(config: Config) returns (verdict: Verdict)
    requires ValidDates(config.dateFrom, config.dateTo)
    ensures verdict ==
              if config.job != BackfillDailySnapshots then Accepted
              else if config.mode == Loop then LoopUnsupported
              else if config.targetPortfolio.None? then TargetMissing
              else RangeCheck(config.dateFrom, config.dateTo)
    ensures verdict != OutOfDateBounds
  {
    if config.job != BackfillDailySnapshots {
      return Accepted;
    }
    if config.mode == Loop {
      return LoopUnsupported;
    }
    if config.targetPortfolio.None? {
      return TargetMissing;
    }
    if config.dateFrom.None? {
      return FromMissing;
    }
    if config.dateTo.None? {
      return ToMissing;
    }
    var from, to := config.dateFrom.value, config.dateTo.value;
    if Before(to, from) {
      return FromAfterTo;
    }
    var dayCount := 0;
    var current := from;
    while true
      invariant 0 <= dayCount <= MAX_DAYS
      invariant ValidDate(current) && DayNumber(current) == DayNumber(from) + dayCount
      invariant !Before(current, from) && !Before(to, current)
      decreases MAX_DAYS - dayCount
    {
      OrderIsDayNumber(current, to);
      OrderIsDayNumber(to, current);
      dayCount := dayCount + 1;
      assert dayCount < 0x1_0000_0000;
      if dayCount > MAX_DAYS {
        return RangeTooLong;
      }
      if current == to {
        break;
      }
      NextDayIncrements(current);
      var next := NextDay(current);
      if next.None? {
        return OutOfDateBounds;
      }
      OrderIsDayNumber(to, next.value);
      current := next.value;
    }
    return Accepted;
  }

  /** The two checks accept the ranges of 1 to 366 calendar days: those whose
      last day is reached from the first by at most 365 steps. */
  lemma RangeCheckCountsDays(from: Date, to: Date)
    requires ValidDate(from) && ValidDate(to)
    ensures RangeCheck(Some(from), Some(to)) == Accepted <==> exists n: nat :: n < MAX_DAYS && Walk(from, n) == Some(to)
  {
    OrderIsDayNumber(to, from);
    var n := WholeDays(from, to);
    if n >= 0 {
      WalkIffWholeDays(from, to, n);
    }
    if exists n: nat :: n < MAX_DAYS && Walk(from, n) == Some(to) {
      var k: nat :| k < MAX_DAYS && Walk(from, k) == Some(to);
      WalkIffWholeDays(from, to, k);
    }
  }

  /** Which refusal a range gets: a missing end, the first one first; a last day
      from which one can walk to the first; a walk of more than 365 steps. */
  lemma RefusalMeaning(from: Option<Date>, to: Option<Date>)
    requires ValidDates(from, to)
    ensures var verdict := RangeCheck(from, to);
      && (verdict == FromMissing <==> from.None?)
      && (verdict == ToMissing <==> from.Some? && to.None?)
      && (from.Some? && to.Some? ==>
            && (verdict == FromAfterTo <==> exists n: nat :: n > 0 && Walk(to.value, n) == Some(from.value))
            && (verdict == RangeTooLong <==> exists n: nat :: n >= MAX_DAYS && Walk(from.value, n) == Some(to.value)))
  {
    if from.Some? && to.Some? {
      WalkedIff(from.value, to.value);
      WalkedIff(to.value, from.value);
      OrderIsDayNumber(to.value, from.value);
    }
  }

  /** One can walk from a day to those that are not before it, in one number of
      steps. */
  lemma WalkedIff(a: Date, b: Date)
    requires ValidDate(a) && ValidDate(b)
    ensures WholeDays(a, b) >= 0 ==> Walk(a, WholeDays(a, b)) == Some(b)
    ensures forall n: nat | Walk(a, n) == Some(b) :: n == WholeDays(a, b)
  {
    if WholeDays(a, b) >= 0 { WalkIffWholeDays(a, b, WholeDays(a, b)); }
    forall n: nat | Walk(a, n) == Some(b) ensures n == WholeDays(a, b) {
      WalkIffWholeDays(a, b, n);
    }
  }

  /** From any day but 29 February to the same day of the next year there are
      365 or 366 steps, so a range that ends the day before is always allowed,
      and one that ends on it exactly when the span holds no leap day. */
  lemma OneYearRange(from: Date)
    requires ValidDate(from) && from.year < MAX_YEAR && !(from.month == 2 && from.day == 29)
    ensures var to := Date(from.year + 1, from.month, from.day);
            ValidDate(to)
            && (RangeCheck(Some(from), Some(to)) == Accepted <==>
                  !IsLeap(if from.month <= 2 then from.year else from.year + 1))
  {
    var to := Date(from.year + 1, from.month, from.day);
    YearStartStep(from.year);
    OrderIsDayNumber(to, from);
    MonthShift(from.year, from.month);
  }

  /** How the leap day moves the months. */
  lemma MonthShift(y: int, m: int)
    requires 1 <= m <= 12
    ensures DaysBeforeMonth(y, m) == DaysBeforeMonth(1, m) + (if IsLeap(y) && m > 2 then 1 else 0)
    ensures DaysBeforeMonth(y + 1, m) == DaysBeforeMonth(1, m) + (if IsLeap(y + 1) && m > 2 then 1 else 0)
  {
    if m > 1 { MonthShift(y, m - 1); }
  }
}
