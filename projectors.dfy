/**
 * The recurring-transaction projector: every rule drives a cursor date
 * forward to the horizon `today + daysAhead` and emits pending transactions
 * on the way. `Projection` states the outcome as a function of the inputs;
 * `ProjectFutureTransactions` is the loop that computes it.
 */
module Projectors {
  import opened Common
  import opened Calendar
  import opened Models

  /** The exceptions the projection can raise; any of them aborts the whole run. */
  datatype ProjectionError =
    | MalformedStartDate(text: string)  // strptime rejects start_date
    | MissingDayOfMonth                 // a monthly rule without day_of_month
    | DayOutOfRange(day: int)           // day_of_month does not exist in today's month

  function PendingTransaction(item: RecurringItem, date: Date, id: nat): Transaction {
    Transaction(id, date, item.description, item.amount, item.accountId, item.category, Pending)
  }

  /** The transactions one rule emits on `dates`, numbered on from `firstId`. */
  function Emit(item: RecurringItem, dates: seq<Date>, firstId: nat): seq<Transaction> {
    seq(|dates|, i requires 0 <= i < |dates| => PendingTransaction(item, dates[i], firstId + i))
  }

  lemma EmitAppend(item: RecurringItem, dates: seq<Date>, d: Date, firstId: nat)
    ensures Emit(item, dates + [d], firstId) == Emit(item, dates, firstId) + [PendingTransaction(item, d, firstId + |dates|)]
  {
  }

  // ---------------------------------------------------------------------------
  // Monthly rules

  /**
   * The first monthly candidate: day `dayOfMonth` of today's month, moved
   * one month on when it is already past.
   */
  function FirstMonthlyDate(today: Date, dayOfMonth: Option<int>): (r: Result<Date, ProjectionError>)
    requires ValidDate(today)
    ensures dayOfMonth.None? ==> r == Err(MissingDayOfMonth)
    ensures dayOfMonth.Some? ==> (r.Ok? <==> 1 <= dayOfMonth.value <= DaysInMonth(today.year, today.month))
    ensures r.Ok? ==> ValidDate(r.value) && LessEq(today, r.value)
    ensures r.Ok? && today.day <= dayOfMonth.value ==>
      r.value == Date(today.year, today.month, dayOfMonth.value)
    ensures r.Ok? && dayOfMonth.value < today.day ==>
      r.value == AddOneMonth(Date(today.year, today.month, dayOfMonth.value)) &&
      MonthIndex(r.value) == MonthIndex(today) + 1 && r.value.day <= dayOfMonth.value &&
      (r.value.day == dayOfMonth.value || r.value.day == DaysInMonth(r.value.year, r.value.month))
  {
    match dayOfMonth
    case None => Err(MissingDayOfMonth)
    case Some(dom) =>
      var anchor := Date(today.year, today.month, dom);
      if !ValidDate(anchor) then Err(DayOutOfRange(dom))
      else if Less(anchor, today) then Ok(AddOneMonth(anchor))
      else Ok(anchor)
  }

  /** The date `k` one-month steps after `first`; each step starts from the clamped day. */
  function MonthlyCandidate(first: Date, k: nat): (c: Date)
    requires ValidDate(first)
    ensures ValidDate(c) && LessEq(first, c)
    ensures MonthIndex(c) == MonthIndex(first) + k
    decreases k
  {
    if k == 0 then first else MonthlyCandidate(AddOneMonth(first), k - 1)
  }

  lemma {:induction false} MonthlyCandidateStep(first: Date, k: nat)
    requires ValidDate(first)
    ensures MonthlyCandidate(first, k + 1) == AddOneMonth(MonthlyCandidate(first, k))
    decreases k
  {
    if k > 0 {
      MonthlyCandidateStep(AddOneMonth(first), k - 1);
    }
  }

  /** The candidates from `cursor` up to `end` that are on or after `start`. */
  function MonthlyDates(cursor: Date, end: Date, start: Date): (ds: seq<Date>)
    requires ValidDate(cursor) && ValidDate(end)
    ensures !Less(end, cursor) ==> |ds| <= MonthIndex(end) - MonthIndex(cursor) + 1
    decreases MonthIndex(end) - MonthIndex(cursor)
  {
    if Less(end, cursor) then []
    else (if LessEq(start, cursor) then [cursor] else []) + MonthlyDates(AddOneMonth(cursor), end, start)
  }

  /** Every monthly date is a candidate between `start` and `end`, and every such candidate is emitted. */
  lemma {:induction false} MonthlyDatesSound(cursor: Date, end: Date, start: Date)
    requires ValidDate(cursor) && ValidDate(end)
    ensures forall d :: d in MonthlyDates(cursor, end, start) ==>
      ValidDate(d) && LessEq(cursor, d) && LessEq(start, d) && LessEq(d, end) &&
      exists k: nat :: d == MonthlyCandidate(cursor, k)
    decreases MonthIndex(end) - MonthIndex(cursor)
  {
    if !Less(end, cursor) {
      var next := AddOneMonth(cursor);
      MonthlyDatesSound(next, end, start);
      forall d | d in MonthlyDates(cursor, end, start)
        ensures ValidDate(d) && LessEq(cursor, d) && LessEq(start, d) && LessEq(d, end)
        ensures exists k: nat :: d == MonthlyCandidate(cursor, k)
      {
        if d in MonthlyDates(next, end, start) {
          var k: nat :| d == MonthlyCandidate(next, k);
          assert d == MonthlyCandidate(cursor, k + 1);
        } else {
          assert d == MonthlyCandidate(cursor, 0);
        }
      }
      assert forall d :: d in MonthlyDates(cursor, end, start) ==> ValidDate(d) && LessEq(cursor, d);
      assert forall d :: d in MonthlyDates(cursor, end, start) ==> LessEq(start, d) && LessEq(d, end);
      assert forall d :: d in MonthlyDates(cursor, end, start) ==> exists k: nat :: d == MonthlyCandidate(cursor, k);
    }
  }

  lemma {:induction false} MonthlyDatesComplete(cursor: Date, end: Date, start: Date, k: nat)
    requires ValidDate(cursor) && ValidDate(end)
    requires LessEq(start, MonthlyCandidate(cursor, k)) && LessEq(MonthlyCandidate(cursor, k), end)
    ensures MonthlyCandidate(cursor, k) in MonthlyDates(cursor, end, start)
    decreases k
  {
    if k > 0 {
      MonthlyDatesComplete(AddOneMonth(cursor), end, start, k - 1);
    }
  }

  /** Each date of `ds` is followed by the date one calendar month later. */
  predicate MonthApart(ds: seq<Date>) {
    forall i :: 0 <= i < |ds| - 1 ==> ValidDate(ds[i]) && ds[i + 1] == AddOneMonth(ds[i])
  }

  /** Successive monthly dates are exactly one calendar month apart. */
  lemma {:induction false} MonthlyDatesOneMonthApart(cursor: Date, end: Date, start: Date)
    requires ValidDate(cursor) && ValidDate(end)
    ensures MonthApart(MonthlyDates(cursor, end, start))
    decreases MonthIndex(end) - MonthIndex(cursor)
  {
    if !Less(end, cursor) {
      var next := AddOneMonth(cursor);
      MonthlyDatesOneMonthApart(next, end, start);
      var rest := MonthlyDates(next, end, start);
      var ds := MonthlyDates(cursor, end, start);
      if LessEq(start, cursor) {
        assert ds == [cursor] + rest;
        if |rest| > 0 {
          assert !Less(end, next);
          assert LessEq(start, next);
          assert rest[0] == next;
        }
        forall i | 0 <= i < |ds| - 1
          ensures ValidDate(ds[i]) && ds[i + 1] == AddOneMonth(ds[i])
        {
          if i > 0 {
            assert ds[i] == rest[i - 1] && ds[i + 1] == rest[i - 1 + 1];
          }
        }
      }
    }
  }

  // ---------------------------------------------------------------------------
  // Biweekly rules

  /** `current_date >= today`: a midnight date against today's clock time. */
  predicate IsFuture(d: Date, now: Timestamp) {
    AtOrBefore(now, Midnight(d))
  }

  /** The date `k` fortnights after `start`, reached one fortnight at a time. */
  function BiweeklyCandidate(start: Date, k: nat): (c: Date)
    requires ValidDate(start)
    ensures ValidDate(c) && LessEq(start, c)
    decreases k
  {
    if k == 0 then start
    else
      AddDaysLater(start, 14);
      BiweeklyCandidate(AddDays(start, 14), k - 1)
  }

  /** The `k`-th candidate is `start + timedelta(days=14 * k)`. */
  lemma {:induction false} BiweeklyCandidateDays(start: Date, k: nat)
    requires ValidDate(start)
    ensures BiweeklyCandidate(start, k) == AddDays(start, 14 * k)
    decreases k
  {
    if k > 0 {
      BiweeklyCandidateDays(AddDays(start, 14), k - 1);
      AddDaysAdditive(start, 14, 14 * (k - 1));
    }
  }

  /** The dates `cursor`, `cursor + 14`, ... up to `end` that are not in the past. */
  function BiweeklyDates(cursor: Date, end: Date, now: Timestamp): (ds: seq<Date>)
    requires ValidDate(cursor) && ValidDate(end)
    ensures !Less(end, cursor) ==> 14 * (|ds| - 1) <= Ordinal(end) - Ordinal(cursor)
    decreases end.year - cursor.year, 12 - cursor.month, 31 - cursor.day
  {
    if Less(end, cursor) then []
    else
      AddDaysLater(cursor, 14);
      AddDaysOrdinal(cursor, 14);
      LessIffOrdinal(end, cursor);
      LessIffOrdinal(end, AddDays(cursor, 14));
      (if IsFuture(cursor, now) then [cursor] else []) + BiweeklyDates(AddDays(cursor, 14), end, now)
  }

  /** Every biweekly date is a fortnightly candidate from `cursor`, lies before `end` and is not in the past. */
  lemma {:induction false} BiweeklyDatesSound(cursor: Date, end: Date, now: Timestamp)
    requires ValidDate(cursor) && ValidDate(end)
    ensures forall d :: d in BiweeklyDates(cursor, end, now) ==>
      ValidDate(d) && LessEq(cursor, d) && LessEq(d, end) && IsFuture(d, now) &&
      exists k: nat :: d == BiweeklyCandidate(cursor, k)
    decreases end.year - cursor.year, 12 - cursor.month, 31 - cursor.day
  {
    if !Less(end, cursor) {
      var next := AddDays(cursor, 14);
      AddDaysLater(cursor, 14);
      BiweeklyDatesSound(next, end, now);
      forall d | d in BiweeklyDates(cursor, end, now)
        ensures ValidDate(d) && LessEq(cursor, d) && LessEq(d, end) && IsFuture(d, now)
        ensures exists k: nat :: d == BiweeklyCandidate(cursor, k)
      {
        if d in BiweeklyDates(next, end, now) {
          var k: nat :| d == BiweeklyCandidate(next, k);
          assert d == BiweeklyCandidate(cursor, k + 1);
        } else {
          assert d == BiweeklyCandidate(cursor, 0);
        }
      }
      assert forall d :: d in BiweeklyDates(cursor, end, now) ==> ValidDate(d) && LessEq(cursor, d);
      assert forall d :: d in BiweeklyDates(cursor, end, now) ==> LessEq(d, end) && IsFuture(d, now);
      assert forall d :: d in BiweeklyDates(cursor, end, now) ==> exists k: nat :: d == BiweeklyCandidate(cursor, k);
    }
  }

  /** Every fortnightly candidate that is not in the past and not after `end` is emitted. */
  lemma {:induction false} BiweeklyDatesComplete(cursor: Date, end: Date, now: Timestamp, k: nat)
    requires ValidDate(cursor) && ValidDate(end)
    requires LessEq(BiweeklyCandidate(cursor, k), end) && IsFuture(BiweeklyCandidate(cursor, k), now)
    ensures BiweeklyCandidate(cursor, k) in BiweeklyDates(cursor, end, now)
    decreases k
  {
    if k > 0 {
      AddDaysLater(cursor, 14);
      BiweeklyDatesComplete(AddDays(cursor, 14), end, now, k - 1);
    }
  }

  /** Each date of `ds` is followed by the date `n` days later. */
  predicate DaysApart(ds: seq<Date>, n: int) {
    forall i :: 0 <= i < |ds| - 1 ==> ValidDate(ds[i]) && ds[i + 1] == AddDays(ds[i], n)
  }

  lemma DaysApartCons(d: Date, rest: seq<Date>, n: int)
    requires ValidDate(d) && DaysApart(rest, n)
    requires |rest| > 0 ==> rest[0] == AddDays(d, n)
    ensures DaysApart([d] + rest, n)
  {
    var ds := [d] + rest;
    forall i | 0 <= i < |ds| - 1
      ensures ValidDate(ds[i]) && ds[i + 1] == AddDays(ds[i], n)
    {
      if i > 0 {
        assert ds[i] == rest[i - 1] && ds[i + 1] == rest[i - 1 + 1];
      }
    }
  }

  /** Successive biweekly dates are exactly 14 days apart. */
  lemma {:induction false} BiweeklyDatesFourteenDaysApart(cursor: Date, end: Date, now: Timestamp)
    requires ValidDate(cursor) && ValidDate(end)
    ensures DaysApart(BiweeklyDates(cursor, end, now), 14)
    decreases end.year - cursor.year, 12 - cursor.month, 31 - cursor.day
  {
    if !Less(end, cursor) {
      var next := AddDays(cursor, 14);
      AddDaysLater(cursor, 14);
      BiweeklyDatesFourteenDaysApart(next, end, now);
      var rest := BiweeklyDates(next, end, now);
      if IsFuture(cursor, now) {
        if |rest| > 0 {
          assert IsFuture(next, now) && !Less(end, next);
          assert rest[0] == next;
        }
        DaysApartCons(cursor, rest, 14);
      }
    }
  }

  // ---------------------------------------------------------------------------
  // One rule, and the whole run

  /** The dates one rule emits, or the exception it raises. */
  function ItemDates(item: RecurringItem, now: Timestamp, daysAhead: int): (r: Result<seq<Date>, ProjectionError>)
    requires ValidTimestamp(now)
    ensures r.Ok? ==> ParseIsoDate(item.startDate).Some?
    ensures r.Ok? && item.frequency == Annual ==> r.value == []
  {
    match ParseIsoDate(item.startDate)
    case None => Err(MalformedStartDate(item.startDate))
    case Some(start) =>
      var end := AddDays(now.date, daysAhead);
      match item.frequency
      case Monthly =>
        (match FirstMonthlyDate(now.date, item.dayOfMonth)
         case Err(e) => Err(e)
         case Ok(first) => Ok(MonthlyDates(first, end, start)))
      case Biweekly => Ok(BiweeklyDates(start, end, now))
      case Annual => Ok([])
  }

  /**
   * A rule raises exactly when its start date does not parse, or when it is
   * monthly and its day of month is missing or absent from today's month;
   * the exception names the first check that fails.
   */
  lemma ItemDatesFailure(item: RecurringItem, now: Timestamp, daysAhead: int)
    requires ValidTimestamp(now)
    ensures ItemDates(item, now, daysAhead).Err? <==>
      ParseIsoDate(item.startDate).None? ||
      (item.frequency == Monthly &&
       (item.dayOfMonth.None? || !(1 <= item.dayOfMonth.value <= DaysInMonth(now.date.year, now.date.month))))
    ensures ParseIsoDate(item.startDate).None? ==>
      ItemDates(item, now, daysAhead) == Err(MalformedStartDate(item.startDate))
    ensures ParseIsoDate(item.startDate).Some? && item.frequency == Monthly && item.dayOfMonth.None? ==>
      ItemDates(item, now, daysAhead) == Err(MissingDayOfMonth)
    ensures ParseIsoDate(item.startDate).Some? && item.frequency == Monthly && item.dayOfMonth.Some? ==>
      (1 <= item.dayOfMonth.value <= DaysInMonth(now.date.year, now.date.month) ||
       ItemDates(item, now, daysAhead) == Err(DayOutOfRange(item.dayOfMonth.value)))
    ensures ParseIsoDate(item.startDate).Some? && item.frequency == Annual ==>
      ItemDates(item, now, daysAhead) == Ok([])
  {
  }

  /**
   * Every date a rule emits lies between today and the horizon, is on or
   * after the rule's start date, and the dates come in strictly ascending order.
   */
  lemma ItemDatesInWindow(item: RecurringItem, now: Timestamp, daysAhead: int)
    requires ValidTimestamp(now) && ItemDates(item, now, daysAhead).Ok?
    ensures var ds := ItemDates(item, now, daysAhead).value;
      var start := ParseIsoDate(item.startDate).value;
      forall d :: d in ds ==>
        ValidDate(d) && LessEq(now.date, d) && LessEq(start, d) && LessEq(d, AddDays(now.date, daysAhead))
    ensures var ds := ItemDates(item, now, daysAhead).value;
      forall i :: 0 <= i < |ds| - 1 ==> Less(ds[i], ds[i + 1])
  {
    var start := ParseIsoDate(item.startDate).value;
    var end := AddDays(now.date, daysAhead);
    var ds := ItemDates(item, now, daysAhead).value;
    if item.frequency == Monthly {
      var first := FirstMonthlyDate(now.date, item.dayOfMonth).value;
      assert ds == MonthlyDates(first, end, start);
      MonthlyDatesSound(first, end, start);
      MonthlyDatesOneMonthApart(first, end, start);
      forall d | d in ds
        ensures LessEq(now.date, d)
      {
        if Less(now.date, first) && Less(first, d) {
          LessTransitive(now.date, first, d);
        }
      }
    } else if item.frequency == Biweekly {
      assert ds == BiweeklyDates(start, end, now);
      BiweeklyDatesSound(start, end, now);
      BiweeklyDatesFourteenDaysApart(start, end, now);
      forall i | 0 <= i < |ds| - 1
        ensures Less(ds[i], ds[i + 1])
      {
        AddDaysLater(ds[i], 14);
      }
    }
  }

  /** A monthly rule due on today's day of the month emits today (when it has started). */
  lemma MonthlyRuleIncludesToday(item: RecurringItem, now: Timestamp, daysAhead: int)
    requires ValidTimestamp(now) && daysAhead >= 0
    requires item.frequency == Monthly && item.dayOfMonth == Some(now.date.day)
    requires ParseIsoDate(item.startDate).Some? && LessEq(ParseIsoDate(item.startDate).value, now.date)
    ensures ItemDates(item, now, daysAhead).Ok? && now.date in ItemDates(item, now, daysAhead).value
  {
    var start := ParseIsoDate(item.startDate).value;
    var end := AddDays(now.date, daysAhead);
    assert FirstMonthlyDate(now.date, item.dayOfMonth) == Ok(now.date);
    AddDaysOrdinal(now.date, daysAhead);
    LessIffOrdinal(end, now.date);
    MonthlyDatesComplete(now.date, end, start, 0);
  }

  /**
   * A biweekly occurrence on today's date is emitted exactly when today's
   * clock reads midnight: the start date carries no time of day, today does.
   */
  lemma BiweeklyRuleToday(item: RecurringItem, now: Timestamp, daysAhead: int, k: nat)
    requires ValidTimestamp(now) && daysAhead >= 0
    requires item.frequency == Biweekly && ParseIsoDate(item.startDate).Some?
    requires now.date == BiweeklyCandidate(ParseIsoDate(item.startDate).value, k)
    ensures ItemDates(item, now, daysAhead).Ok?
    ensures now.date in ItemDates(item, now, daysAhead).value <==> now.micros == 0
  {
    var start := ParseIsoDate(item.startDate).value;
    var end := AddDays(now.date, daysAhead);
    assert ItemDates(item, now, daysAhead) == Ok(BiweeklyDates(start, end, now));
    BiweeklyDatesSound(start, end, now);
    if now.micros == 0 {
      AddDaysOrdinal(now.date, daysAhead);
      LessIffOrdinal(end, now.date);
      BiweeklyDatesComplete(start, end, now, k);
    }
  }

  /** Every rule's outcome, in input order. */
  function Outcomes(items: seq<RecurringItem>, now: Timestamp, daysAhead: int): (os: seq<Result<seq<Date>, ProjectionError>>)
    requires ValidTimestamp(now)
    ensures |os| == |items|
  {
    seq(|items|, i requires 0 <= i < |items| => ItemDates(items[i], now, daysAhead))
  }

  /** A rule's transactions numbered from `firstId`, or its exception. */
  function EmitOutcome(item: RecurringItem, outcome: Result<seq<Date>, ProjectionError>, firstId: nat): Result<seq<Transaction>, ProjectionError> {
    match outcome
    case Err(e) => Err(e)
    case Ok(dates) => Ok(Emit(item, dates, firstId))
  }

  /**
   * The rules' transactions concatenated in input order with ids
   * `firstId, firstId + 1, ...`, or the first rule's exception.
   */
  function Assemble(items: seq<RecurringItem>, outcomes: seq<Result<seq<Date>, ProjectionError>>, firstId: nat): Result<seq<Transaction>, ProjectionError>
    requires |outcomes| == |items|
    decreases |items|
  {
    if items == [] then Ok([])
    else
      var k := |items| - 1;
      match Assemble(items[..k], outcomes[..k], firstId)
      case Err(e) => Err(e)
      case Ok(done) =>
        match EmitOutcome(items[k], outcomes[k], firstId + |done|)
        case Err(e) => Err(e)
        case Ok(txs) => Ok(done + txs)
  }

  /** The outcome of a run of `project_future_transactions`. */
  function Projection(items: seq<RecurringItem>, now: Timestamp, daysAhead: int, firstId: nat): (r: Result<seq<Transaction>, ProjectionError>)
    requires ValidTimestamp(now)
    ensures items == [] ==> r == Ok([])
    ensures r.Ok? ==> forall i :: 0 <= i < |r.value| ==> r.value[i].id == firstId + i
  {
    var outcomes := Outcomes(items, now, daysAhead);
    AssembleIds(items, outcomes, firstId);
    Assemble(items, outcomes, firstId)
  }

  /** Once a prefix of the rules raises, so does the whole run, with the same exception. */
  lemma {:induction false} AssembleErrorPersists(items: seq<RecurringItem>, outcomes: seq<Result<seq<Date>, ProjectionError>>, n: nat, firstId: nat)
    requires |outcomes| == |items| && n <= |items|
    requires Assemble(items[..n], outcomes[..n], firstId).Err?
    ensures Assemble(items, outcomes, firstId) == Assemble(items[..n], outcomes[..n], firstId)
    decreases |items|
  {
    if n < |items| {
      var k := |items| - 1;
      assert items[..k][..n] == items[..n] && outcomes[..k][..n] == outcomes[..n];
      AssembleErrorPersists(items[..k], outcomes[..k], n, firstId);
    } else {
      assert items[..n] == items && outcomes[..n] == outcomes;
    }
  }

  /** The run over one more rule appends that rule's transactions, numbered on, or raises its exception. */
  lemma AssembleStep(items: seq<RecurringItem>, outcomes: seq<Result<seq<Date>, ProjectionError>>, n: nat, firstId: nat,
                     done: seq<Transaction>, r: Result<seq<Transaction>, ProjectionError>)
    requires |outcomes| == |items| && n < |items|
    requires Assemble(items[..n], outcomes[..n], firstId) == Ok(done)
    requires r == EmitOutcome(items[n], outcomes[n], firstId + |done|)
    ensures r.Err? ==> Assemble(items, outcomes, firstId) == Err(r.error)
    ensures r.Ok? ==> Assemble(items[..n + 1], outcomes[..n + 1], firstId) == Ok(done + r.value)
  {
    assert items[..n + 1][..n] == items[..n] && outcomes[..n + 1][..n] == outcomes[..n];
    if r.Err? {
      AssembleErrorPersists(items, outcomes, n + 1, firstId);
    }
  }


  /** The `i`-th transaction of a run carries id `firstId + i`. */
  lemma {:induction false} AssembleIds(items: seq<RecurringItem>, outcomes: seq<Result<seq<Date>, ProjectionError>>, firstId: nat)
    requires |outcomes| == |items|
    ensures var run := Assemble(items, outcomes, firstId);
      run.Ok? ==> forall i :: 0 <= i < |run.value| ==> run.value[i].id == firstId + i
    decreases |items|
  {
    if items != [] {
      var k := |items| - 1;
      AssembleIds(items[..k], outcomes[..k], firstId);
    }
  }

  /** A transaction copies the rule's text and amount fields and is pending. */
  predicate CopiesRule(t: Transaction, item: RecurringItem) {
    t.status == Pending && t.description == item.description && t.amount == item.amount &&
    t.accountId == item.accountId && t.category == item.category
  }

  /** Every transaction of a run comes from one rule and one of that rule's dates. */
  lemma {:induction false} AssembleSources(items: seq<RecurringItem>, outcomes: seq<Result<seq<Date>, ProjectionError>>, firstId: nat)
    requires |outcomes| == |items| && Assemble(items, outcomes, firstId).Ok?
    ensures var txs := Assemble(items, outcomes, firstId).value;
      forall i :: 0 <= i < |txs| ==> exists k :: (0 <= k < |items| && outcomes[k].Ok? &&
        CopiesRule(txs[i], items[k]) && txs[i].date in outcomes[k].value)
    decreases |items|
  {
    if items != [] {
      var k := |items| - 1;
      AssembleSources(items[..k], outcomes[..k], firstId);
      var done := Assemble(items[..k], outcomes[..k], firstId).value;
      var txs := Assemble(items, outcomes, firstId).value;
      forall i | 0 <= i < |txs|
        ensures exists j :: (0 <= j < |items| && outcomes[j].Ok? &&
          CopiesRule(txs[i], items[j]) && txs[i].date in outcomes[j].value)
      {
        if i < |done| {
          var j :| 0 <= j < k && outcomes[..k][j].Ok? && CopiesRule(done[i], items[..k][j]) && done[i].date in outcomes[..k][j].value;
          assert txs[i] == done[i] && items[..k][j] == items[j] && outcomes[..k][j] == outcomes[j];
        } else {
          assert txs[i].date == outcomes[k].value[i - |done|];
        }
      }
    }
  }

  /** A run raises exactly when some rule does, and then with the first such rule's exception. */
  lemma {:induction false} AssembleFailure(items: seq<RecurringItem>, outcomes: seq<Result<seq<Date>, ProjectionError>>, firstId: nat)
    requires |outcomes| == |items|
    ensures Assemble(items, outcomes, firstId).Ok? <==> forall k :: 0 <= k < |items| ==> outcomes[k].Ok?
    ensures Assemble(items, outcomes, firstId).Err? ==>
      exists k :: 0 <= k < |items| && outcomes[k] == Err(Assemble(items, outcomes, firstId).error) &&
        forall j :: 0 <= j < k ==> outcomes[j].Ok?
    decreases |items|
  {
    if items != [] {
      var k := |items| - 1;
      AssembleFailure(items[..k], outcomes[..k], firstId);
      assert forall j :: 0 <= j < k ==> outcomes[..k][j] == outcomes[j];
    }
  }

  /**
   * Running over `a + b` is running over `a`, then over `b` with the ids
   * numbered on: the rules' transactions come out in input order.
   */
  lemma {:induction false} AssembleConcat(a: seq<RecurringItem>, oa: seq<Result<seq<Date>, ProjectionError>>,
                                          b: seq<RecurringItem>, ob: seq<Result<seq<Date>, ProjectionError>>, firstId: nat)
    requires |oa| == |a| && |ob| == |b|
    ensures Assemble(a + b, oa + ob, firstId) ==
      match Assemble(a, oa, firstId)
      case Err(e) => Err(e)
      case Ok(x) =>
        match Assemble(b, ob, firstId + |x|)
        case Err(e) => Err(e)
        case Ok(y) => Ok(x + y)
    decreases |b|
  {
    if b == [] {
      assert a + b == a && oa + ob == oa;
      match Assemble(a, oa, firstId)
      case Err(e) =>
      case Ok(x) => assert x + [] == x;
    } else {
      var k := |b| - 1;
      assert (a + b)[..|a| + k] == a + b[..k] && (oa + ob)[..|a| + k] == oa + ob[..k];
      assert (a + b)[|a| + k] == b[k] && (oa + ob)[|a| + k] == ob[k];
      AssembleConcat(a, oa, b[..k], ob[..k], firstId);
      match Assemble(a, oa, firstId)
      case Err(e) =>
      case Ok(x) =>
        match Assemble(b[..k], ob[..k], firstId + |x|)
        case Err(e) =>
        case Ok(y) =>
          match ob[k]
          case Err(e) =>
          case Ok(dates) =>
            assert firstId + |x + y| == firstId + |x| + |y|;
            assert (x + y) + Emit(b[k], dates, firstId + |x + y|) == x + (y + Emit(b[k], dates, firstId + |x| + |y|));
    }
  }

  /** All ids of one run are distinct. */
  lemma ProjectionIdsDistinct(items: seq<RecurringItem>, now: Timestamp, daysAhead: int, firstId: nat)
    requires ValidTimestamp(now) && Projection(items, now, daysAhead, firstId).Ok?
    ensures var txs := Projection(items, now, daysAhead, firstId).value;
      forall i, j :: 0 <= i < j < |txs| ==> txs[i].id != txs[j].id
  {
    AssembleIds(items, Outcomes(items, now, daysAhead), firstId);
  }

  /**
   * Every projected transaction is pending, copies a monthly or biweekly
   * rule, and falls between today and the horizon, on or after that rule's
   * start date.
   */
  lemma ProjectionSources(items: seq<RecurringItem>, now: Timestamp, daysAhead: int, firstId: nat)
    requires ValidTimestamp(now) && Projection(items, now, daysAhead, firstId).Ok?
    ensures var txs := Projection(items, now, daysAhead, firstId).value;
      forall i :: 0 <= i < |txs| ==> exists k :: (0 <= k < |items| &&
        items[k].frequency != Annual && CopiesRule(txs[i], items[k]) &&
        ParseIsoDate(items[k].startDate).Some? && LessEq(ParseIsoDate(items[k].startDate).value, txs[i].date) &&
        LessEq(now.date, txs[i].date) && LessEq(txs[i].date, AddDays(now.date, daysAhead)))
  {
    var outcomes := Outcomes(items, now, daysAhead);
    AssembleSources(items, outcomes, firstId);
    var txs := Projection(items, now, daysAhead, firstId).value;
    forall i | 0 <= i < |txs|
      ensures exists k :: (0 <= k < |items| &&
        items[k].frequency != Annual && CopiesRule(txs[i], items[k]) &&
        ParseIsoDate(items[k].startDate).Some? && LessEq(ParseIsoDate(items[k].startDate).value, txs[i].date) &&
        LessEq(now.date, txs[i].date) && LessEq(txs[i].date, AddDays(now.date, daysAhead)))
    {
      var k :| 0 <= k < |items| && outcomes[k].Ok? && CopiesRule(txs[i], items[k]) && txs[i].date in outcomes[k].value;
      assert outcomes[k] == ItemDates(items[k], now, daysAhead);
      ItemDatesFailure(items[k], now, daysAhead);
      ItemDatesInWindow(items[k], now, daysAhead);
    }
  }

  /** A run raises exactly when one of its rules does, with the first failing rule's exception. */
  lemma ProjectionFailure(items: seq<RecurringItem>, now: Timestamp, daysAhead: int, firstId: nat)
    requires ValidTimestamp(now)
    ensures Projection(items, now, daysAhead, firstId).Err? <==>
      exists k :: 0 <= k < |items| && ItemDates(items[k], now, daysAhead).Err?
    ensures Projection(items, now, daysAhead, firstId).Err? ==>
      exists k :: 0 <= k < |items| && ItemDates(items[k], now, daysAhead) == Err(Projection(items, now, daysAhead, firstId).error) &&
        forall j :: 0 <= j < k ==> ItemDates(items[j], now, daysAhead).Ok?
  {
    var outcomes := Outcomes(items, now, daysAhead);
    AssembleFailure(items, outcomes, firstId);
    assert forall k :: 0 <= k < |items| ==> outcomes[k] == ItemDates(items[k], now, daysAhead);
  }

  /**
   * The monthly loop of `project_future_transactions`: the cursor carries
   * today's clock time, starts at `first` and moves one month at a time up
   * to the horizon, emitting the dates on or after the rule's start.
   */
  method EmitMonthly(item: RecurringItem, first: Date, endDate: Timestamp, start: Date, firstId: nat)
    returns (txs: seq<Transaction>)
    requires ValidDate(first) && ValidTimestamp(endDate)
    ensures txs == Emit(item, MonthlyDates(first, endDate.date, start), firstId)
  {
    var startDate := Midnight(start);
    var current := Timestamp(first, endDate.micros);
    txs := [];
    ghost var emitted: seq<Date> := [];
    while AtOrBefore(current, endDate)
      invariant ValidDate(current.date) && current.micros == endDate.micros
      invariant emitted + MonthlyDates(current.date, endDate.date, start) == MonthlyDates(first, endDate.date, start)
      invariant txs == Emit(item, emitted, firstId)
      decreases MonthIndex(endDate.date) - MonthIndex(current.date)
    {
      ghost var rest := MonthlyDates(AddOneMonth(current.date), endDate.date, start);
      if AtOrBefore(startDate, current) {
        assert MonthlyDates(current.date, endDate.date, start) == [current.date] + rest;
        assert emitted + ([current.date] + rest) == (emitted + [current.date]) + rest;
        EmitAppend(item, emitted, current.date, firstId);
        txs := txs + [PendingTransaction(item, current.date, firstId + |txs|)];
        emitted := emitted + [current.date];
      } else {
        assert MonthlyDates(current.date, endDate.date, start) == rest;
      }
      current := Timestamp(AddOneMonth(current.date), current.micros);
    }
  }

  /**
   * The biweekly loop of `project_future_transactions`: the cursor starts at
   * the rule's start date (midnight) and moves 14 days at a time up to the
   * horizon, emitting the dates that are not before `now`.
   */
  method EmitBiweekly(item: RecurringItem, start: Date, endDate: Timestamp, now: Timestamp, firstId: nat)
    returns (txs: seq<Transaction>)
    requires ValidDate(start) && ValidTimestamp(endDate)
    ensures txs == Emit(item, BiweeklyDates(start, endDate.date, now), firstId)
  {
    var current := Midnight(start);
    txs := [];
    ghost var emitted: seq<Date> := [];
    while AtOrBefore(current, endDate)
      invariant ValidDate(current.date) && current.micros == 0
      invariant emitted + BiweeklyDates(current.date, endDate.date, now) == BiweeklyDates(start, endDate.date, now)
      invariant txs == Emit(item, emitted, firstId)
      decreases endDate.date.year - current.date.year, 12 - current.date.month, 31 - current.date.day
    {
      AddDaysLater(current.date, 14);
      ghost var rest := BiweeklyDates(AddDays(current.date, 14), endDate.date, now);
      if AtOrBefore(now, current) {
        assert BiweeklyDates(current.date, endDate.date, now) == [current.date] + rest;
        assert emitted + ([current.date] + rest) == (emitted + [current.date]) + rest;
        EmitAppend(item, emitted, current.date, firstId);
        txs := txs + [PendingTransaction(item, current.date, firstId + |txs|)];
        emitted := emitted + [current.date];
      } else {
        assert BiweeklyDates(current.date, endDate.date, now) == rest;
      }
      current := Midnight(AddDays(current.date, 14));
    }
  }

  /**
   * The body of the loop of `project_future_transactions` for one rule:
   * parse its start date, then walk its cursor, numbering the transactions
   * from `nextId`; an exception aborts the run.
   */
  method ProjectRule(item: RecurringItem, now: Timestamp, endDate: Timestamp, daysAhead: int, nextId: nat)
    returns (r: Result<seq<Transaction>, ProjectionError>)
    requires ValidTimestamp(now) && endDate == Timestamp(AddDays(now.date, daysAhead), now.micros)
    ensures r == EmitOutcome(item, ItemDates(item, now, daysAhead), nextId)
  {
    var parsed := ParseIsoDate(item.startDate);
    if parsed.None? {
      return Err(MalformedStartDate(item.startDate));
    }
    if item.frequency == Monthly {
      if item.dayOfMonth.None? {
        return Err(MissingDayOfMonth);
      }
      var day := item.dayOfMonth.value;
      if !(1 <= day <= DaysInMonth(now.date.year, now.date.month)) {
        return Err(DayOutOfRange(day));
      }
      var current := Timestamp(Date(now.date.year, now.date.month, day), now.micros);
      if Earlier(current, now) {
        current := Timestamp(AddOneMonth(current.date), current.micros);
      }
      assert FirstMonthlyDate(now.date, item.dayOfMonth) == Ok(current.date);
      var txs := EmitMonthly(item, current.date, endDate, parsed.value, nextId);
      r := Ok(txs);
    } else if item.frequency == Biweekly {
      var txs := EmitBiweekly(item, parsed.value, endDate, now, nextId);
      r := Ok(txs);
    } else {
      assert Emit(item, [], nextId) == [];
      r := Ok([]);
    }
  }

  /**
   * `project_future_transactions`: the rules in input order, each appending
   * its pending transactions with fresh ids; the first exception aborts.
   */
  method ProjectFutureTransactions(items: seq<RecurringItem>, daysAhead: int, now: Timestamp, firstId: nat)
    returns (result: Result<seq<Transaction>, ProjectionError>)
    requires ValidTimestamp(now)
    ensures result == Projection(items, now, daysAhead, firstId)
  {
    ghost var outcomes := Outcomes(items, now, daysAhead);
    var projected: seq<Transaction> := [];
    var endDate := Timestamp(AddDays(now.date, daysAhead), now.micros);
    for n := 0 to |items|
      invariant Assemble(items[..n], outcomes[..n], firstId) == Ok(projected)
    {
      var item := items[n];
      var id := firstId + |projected|;
      var r := ProjectRule(item, now, endDate, daysAhead, id);
      AssembleStep(items, outcomes, n, firstId, projected, r);
      if r.Err? {
        return Err(r.error);
      }
      projected := projected + r.value;
    }
    assert items[..|items|] == items && outcomes[..|items|] == outcomes;
    result := Ok(projected);
  }
}
