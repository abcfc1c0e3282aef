/**
 What the reminder's activity check makes of the ledger: the search of internal/reminder/scheduler.go over the
 local day, against the rows that occurred on that day.
 */
module IdleDays {
  import opened Wrappers
  import opened Instants
  import opened Amounts
  import opened Ledger
  import opened Batches
  import opened Acceptance
  import opened Sorting
  import opened Queries
  import opened Views
  import opened Calendar
  import Reminder

  function ActivityFilter(scope: Scope, start: Instant, end: Instant): Filter {
    Filter(scope, start, end, "", "", "", 0, 0, false)
  }

  /** What the scheduler's search comes to when its statements succeed. */
  function Activity(t: Tables, f: Filter): Option<nat> {
    match Queries.Search(t.rows, t.sequence, f)
    case Ok(found) => Some(found.total)
    case Err(_) => None
  }

  /** start and end are the local day of now, at times that can be written. */
  predicate DayOf(now: int, start: Instant, end: Instant) {
    && FourDigitYear(start) && FourDigitYear(end)
    && Nanos(start) == Reminder.DayStart(now) && Nanos(end) == Reminder.DayStart(now) + DAY
  }

  /** Local days run from 17:00 to 17:00 of the next calendar day. */
  lemma LocalDays(now: int, start: Instant)
    requires FourDigitYear(start) && start.day < DaysIn(start.year, start.month)
    requires start.hour == 17 && start.minute == 0 && start.second == 0 && start.nano == 0
    requires Nanos(start) <= now < Nanos(start) + DAY
    ensures DayOf(now, start, start.(day := start.day + 1))
  {
    hide DayNumber;
    var n, end := DayNumber(start), start.(day := start.day + 1);
    assert Nanos(start) == n * DAY + 61_200 * SECOND;
    NextDay(start);
    Reminder.DivisionIs(now + Reminder.OFFSET, DAY, n + 1, now + Reminder.OFFSET - (n + 1) * DAY);
  }

  lemma NextDay(t: Instant)
    requires t.day < DaysIn(t.year, t.month)
    ensures DayNumber(t.(day := t.day + 1)) == DayNumber(t) + 1
  {
  }

  predicate LiveIn(row: Transaction, scope: Scope) {
    row.scope == scope && row.deletedAt == None
  }

  predicate OnDay(row: Transaction, now: int) {
    Reminder.LocalDay(Nanos(row.occurredAt)) == Reminder.LocalDay(now)
  }

  /** The row carries a fraction of a second within the second that t begins. */
  predicate FractionAfter(row: Transaction, t: Instant) {
    row.occurredAt.nano != 0 && SameSecond(row.occurredAt, t)
  }

  /** What the search counts: the day's rows, a fraction after its start excepted, one after its end included. */
  predicate CountsFor(row: Transaction, now: int, start: Instant, end: Instant) {
    if FractionAfter(row, start) then false else OnDay(row, now) || FractionAfter(row, end)
  }

  /** Local days begin at whole seconds, and never at Go's zero time. */
  lemma DaysBeginWhole(t: Instant, day: int)
    requires Nanos(t) == day * DAY - Reminder.OFFSET
    ensures t.nano == 0 && t != ZERO
  {
    hide DayNumber;
    WithinDay(t);
    assert Nanos(t) == (day - 1) * DAY + 61_200 * SECOND;
    assert DayNumber(t) == day - 1;
    assert SecondOfDay(t) * SECOND + t.nano == 61_200 * SECOND;
  }

  lemma DayBounds(now: int, start: Instant, end: Instant)
    requires DayOf(now, start, end)
    ensures start.nano == 0 && end.nano == 0 && start != ZERO && end != ZERO && Before(start, end)
  {
    hide Nanos, Before;
    var day := Reminder.LocalDay(now);
    assert Nanos(end) == (day + 1) * DAY - Reminder.OFFSET;
    DaysBeginWhole(start, day);
    DaysBeginWhole(end, day + 1);
    EarlierIsFewerNanos(start, end);
  }

  lemma DayAsRange(t: Instant, now: int, start: Instant, end: Instant)
    requires DayOf(now, start, end)
    ensures TimeInRange(t, start, end) <==> Reminder.LocalDay(Nanos(t)) == Reminder.LocalDay(now)
  {
    hide Nanos, Before, Reminder.LocalDay, Reminder.DayStart;
    EarlierIsFewerNanos(t, start);
    EarlierIsFewerNanos(t, end);
    Reminder.DayWindow(Nanos(t), now);
  }

  lemma SecondOrder(a: Instant, b: Instant)
    requires b.nano == 0 && SameSecond(a, b)
    ensures !Before(a, b)
  {
  }

  lemma FilterCounts(row: Transaction, scope: Scope, now: int, start: Instant, end: Instant)
    requires DayOf(now, start, end) && FourDigitYear(row.occurredAt)
    ensures Matches(ActivityFilter(scope, start, end), row) <==> LiveIn(row, scope) && CountsFor(row, now, start, end)
  {
    var t := row.occurredAt;
    hide Nanos, Before, FormatTime, Reminder.LocalDay, Reminder.DayStart;
    DayBounds(now, start, end);
    DayAsRange(t, now, start, end);
    RangeFilterExact(t, start, end);
    hide TextInRange, DayOf;
    if SameSecond(t, start) {
      SecondOrder(t, start);
      StartBeforeEnd(t, start, end);
    }
    if SameSecond(t, end) {
      SecondOrder(t, end);
    }
  }

  lemma StartBeforeEnd(t: Instant, start: Instant, end: Instant)
    requires SameSecond(t, start) && Before(start, end) && start.nano == 0 && end.nano == 0
    ensures Before(t, end) && !SameSecond(t, end)
  {
  }

  /** In a reachable ledger the check finds no activity if and only if no live row of the scope counts for the day. */
  lemma IdleExactlyWhen(t: Tables, scope: Scope, now: int, start: Instant, end: Instant)
    requires Invariant(t) && ValidScope(scope) && DayOf(now, start, end)
    ensures var activity := Activity(t, ActivityFilter(scope, start, end));
            && activity.Some?
            && (activity == Some(0) <==>
                  forall id :: id in t.rows && LiveIn(t.rows[id], scope) ==> !CountsFor(t.rows[id], now, start, end))
  {
    hide Invariant, DayOf, Matches, CountsFor, LiveIn, Queries.Search, Queries.Export, WellKept, Before;
    var f := ActivityFilter(scope, start, end);
    DayBounds(now, start, end);
    ReachableIsWellKept(t);
    assert ValidateFilter(f) == None;
    SearchAgreesWithExport(t.rows, t.sequence, f);
    ExportListsMatches(t.rows, t.sequence, f);
    var list := Queries.Export(t.rows, t.sequence, f).value;
    forall id | id in t.rows
      ensures t.rows[id] in list <==> LiveIn(t.rows[id], scope) && CountsFor(t.rows[id], now, start, end)
    {
      ReadableRows(t, id);
      FilterCounts(t.rows[id], scope, now, start, end);
    }
    if list != [] {
      assert list[0] in list;
      assert list[0].id in t.rows;
    }
  }

  lemma ReadableRows(t: Tables, id: int)
    requires Invariant(t) && id in t.rows
    ensures FourDigitYear(t.rows[id].occurredAt)
  {
    hide Logged, BatchesSound;
  }

  /**
   A reminder is tried only when no live row of the scope occurred on the local day, save for rows in the first
   second of that day with a fraction of it.
   */
  lemma RemindersMeanIdleDays(c: Reminder.Config, s: Reminder.State, o: Reminder.Outside, t: Tables,
                              scope: Scope, start: Instant, end: Instant, id: int)
    requires Invariant(t) && ValidScope(scope) && DayOf(o.now, start, end)
    requires o.activity == Activity(t, ActivityFilter(scope, start, end))
    requires Reminder.Tried(Reminder.Checked(c, s, o).1)
    requires id in t.rows && LiveIn(t.rows[id], scope) && OnDay(t.rows[id], o.now)
    ensures FractionAfter(t.rows[id], start)
  {
    hide Invariant, DayOf, Activity, LiveIn, OnDay, FractionAfter, Reminder.LocalDay, Reminder.MinuteOfDay;
    IdleExactlyWhen(t, scope, o.now, start, end);
  }

  /** Such a row exists in a ledger that one batch reaches: the day has a transaction, and the check finds none. */
  lemma ActivityCanBeMissed(request: RequestContext, now: int, start: Instant, end: Instant)
    requires ValidRequest(request) && FourDigitYear(request.receivedAt) && DayOf(now, start, end)
    ensures var t := Run([Attempt(request, CreatesOf([Input(EXPENSE, 1, "food", "", start.(nano := 1))]), false)]);
            && 1 in t.rows && LiveIn(t.rows[1], request.scope) && OnDay(t.rows[1], now)
            && Activity(t, ActivityFilter(request.scope, start, end)) == Some(0)
  {
    DayBounds(now, start, end);
    var inputs := [Input(EXPENSE, 1, "food", "", start.(nano := 1))];
    var attempts := [Attempt(request, CreatesOf(inputs), false)];
    hide Run, Nanos, DayOf, Activity, Before, Invariant, ValidRequest;
    CreateBatchRun(request, inputs);
    RunInvariant(attempts);
    assert ValidScope(request.scope) by {
      ScopeOfRequest(request);
    }
    IdleExactlyWhen(Run(attempts), request.scope, now, start, end);
    DayAsRange(start.(nano := 1), now, start, end);
    SecondOrder(start.(nano := 1), start);
    StartBeforeEnd(start.(nano := 1), start, end);
  }

  lemma ScopeOfRequest(request: RequestContext)
    requires ValidRequest(request)
    ensures ValidScope(request.scope)
  {
  }
}
