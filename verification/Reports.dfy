/**
 What reports and listings of a reachable ledger say, row by row: counts and sums of the rows with the wanted
 scope, time, type, category and amount (internal/storage/sqlite/query.go).
 */
module Reports {
  import opened Wrappers
  import opened Text
  import opened Instants
  import opened Amounts
  import opened Ledger
  import opened AuditLog
  import opened Batches
  import opened Sorting
  import opened Queries
  import opened Statistics
  import opened Views
  import opened Service

  // ----- counting and adding rows -----

  /** The row is live, of the wanted scope, type and category, and its stored time is in the range. */
  predicate Counted(sf: StatisticsFilter, row: Transaction) {
    && row.scope.user == sf.scope.user && row.scope.guild == sf.scope.guild && row.scope.channel == sf.scope.channel
    && row.deletedAt == None
    && (sf.typ == "" || row.typ == sf.typ) && (sf.category == "" || row.category == sf.category)
    && !Precedes(FormatTime(row.occurredAt), FormatTime(sf.start))
    && Precedes(FormatTime(row.occurredAt), FormatTime(sf.end))
  }

  /** The date as ten characters. */
  function DateText(t: Instant): string
    requires FourDigitYear(t)
  {
    Fixed(t.year, 4) + ("-" + (Fixed(t.month, 2) + ("-" + Fixed(t.day, 2))))
  }

  predicate InGroup(group: string, key: string, row: Transaction) {
    && (group == "category" ==> row.category == key)
    && (group == "type" ==> row.typ == key)
    && (group == "day" ==> FourDigitYear(row.occurredAt) && key == DateText(row.occurredAt))
  }

  /** How many counted rows there are in one group. */
  function CountIn(rows: Rows, n: nat, sf: StatisticsFilter, key: string): nat {
    if n == 0 then 0
    else CountIn(rows, n - 1, sf, key) +
         if n in rows && Counted(sf, rows[n]) && InGroup(sf.group, key, rows[n]) then 1 else 0
  }

  /** What the amounts of the counted rows of one type add up to in one group. */
  function SumIn(rows: Rows, n: nat, sf: StatisticsFilter, key: string, typ: string): int {
    if n == 0 then 0
    else SumIn(rows, n - 1, sf, key, typ) +
         if n in rows && Counted(sf, rows[n]) && InGroup(sf.group, key, rows[n]) && rows[n].typ == typ
         then rows[n].amount else 0
  }

  function WholeOf(sf: StatisticsFilter): StatisticsFilter {
    sf.(group := "total")
  }

  /** The same filter over the range it is compared with. */
  function OtherOf(sf: StatisticsFilter): StatisticsFilter {
    sf.(group := "total", start := sf.compareStart, end := sf.compareEnd)
  }

  ghost predicate PicksAlike(rows: Rows, a: StatisticsFilter, j: string, b: StatisticsFilter, k: string) {
    forall id :: id in rows ==>
      (Counted(a, rows[id]) && InGroup(a.group, j, rows[id]) <==> Counted(b, rows[id]) && InGroup(b.group, k, rows[id]))
  }

  lemma {:induction false} SameRowsSameSums(
    rows: Rows, n: nat, a: StatisticsFilter, j: string, b: StatisticsFilter, k: string)
    requires PicksAlike(rows, a, j, b, k)
    ensures CountIn(rows, n, a, j) == CountIn(rows, n, b, k)
    ensures forall typ :: SumIn(rows, n, a, j, typ) == SumIn(rows, n, b, k, typ)
    decreases n
  {
    hide Counted, InGroup;
    if n > 0 {
      SameRowsSameSums(rows, n - 1, a, j, b, k);
    }
  }

  lemma {:induction false} FewerRowsLess(rows: Rows, n: nat, a: StatisticsFilter, b: StatisticsFilter, typ: string)
    requires PositiveAmounts(rows)
    requires forall id :: id in rows ==> Counted(a, rows[id]) && InGroup(a.group, "", rows[id]) ==>
                            Counted(b, rows[id]) && InGroup(b.group, "", rows[id])
    ensures 0 <= SumIn(rows, n, a, "", typ) <= SumIn(rows, n, b, "", typ)
    decreases n
  {
    hide Counted, InGroup;
    if n > 0 {
      FewerRowsLess(rows, n - 1, a, b, typ);
    }
  }

  // ----- totals and groups are counts and sums -----

  predicate IsGrouping(group: string) {
    group == "" || group == "total" || group == "day" || group == "category" || group == "type"
  }

  /** The expression of GROUP BY. */
  function KeyFor(group: string): KeyOf {
    if group == "day" then DayOf else if group == "category" then CategoryOf else TypeOf
  }

  lemma DayIsDate(row: Transaction)
    requires FourDigitYear(row.occurredAt)
    ensures DayOf(row) == DateText(row.occurredAt)
  {
    hide Fixed, FormatFraction;
    var t := row.occurredAt;
    assert FormatTime(t)[..10] == DateText(t);
  }

  lemma KeyMeansGroup(group: string, key: string, row: Transaction)
    requires group in {"day", "category", "type"} && FourDigitYear(row.occurredAt)
    ensures KeyFor(group)(row) == key <==> InGroup(group, key, row)
  {
    hide DateText;
    DayIsDate(row);
  }

  lemma MatchesIsCounted(sf: StatisticsFilter, row: Transaction)
    requires sf.start != ZERO
    ensures Matches(RowFilter(sf, sf.start, sf.end), row) <==> Counted(sf, row)
  {
    hide FormatTime, Precedes;
  }

  lemma {:induction false} TotalsAreSums(rows: Rows, n: nat, sf: StatisticsFilter)
    requires sf.start != ZERO
    ensures Tally(Select(rows, n, RowFilter(sf, sf.start, sf.end))) ==
            Totals(CountIn(rows, n, WholeOf(sf), ""), SumIn(rows, n, WholeOf(sf), "", "income"),
                   SumIn(rows, n, WholeOf(sf), "", "expense"))
    decreases n
  {
    hide Matches, Counted, Select, Tally;
    var f := RowFilter(sf, sf.start, sf.end);
    if n == 0 {
      SelectNone(rows, f);
      TallyOfNothing();
    } else {
      TotalsAreSums(rows, n - 1, sf);
      SelectStep(rows, n, f);
      if n in rows {
        MatchesIsCounted(sf, rows[n]);
        WholeCounts(sf, rows[n]);
      }
    }
  }

  lemma WholeCounts(sf: StatisticsFilter, row: Transaction)
    ensures Counted(WholeOf(sf), row) <==> Counted(sf, row)
  {
    hide FormatTime, Precedes;
  }

  lemma {:induction false} GroupsAreSums(rows: Rows, n: nat, sf: StatisticsFilter, key: string)
    requires sf.start != ZERO && sf.group in {"day", "category", "type"}
    requires forall id :: id in rows ==> FourDigitYear(rows[id].occurredAt)
    ensures Tally(Only(Select(rows, n, RowFilter(sf, sf.start, sf.end)), KeyFor(sf.group), key)) ==
            Totals(CountIn(rows, n, sf, key), SumIn(rows, n, sf, key, "income"), SumIn(rows, n, sf, key, "expense"))
    decreases n
  {
    hide Matches, Counted, Tally, Only, InGroup, KeyFor;
    var f, k := RowFilter(sf, sf.start, sf.end), KeyFor(sf.group);
    if n == 0 {
      OnlyOfNothing(k, key);
      TallyOfNothing();
    } else {
      GroupsAreSums(rows, n - 1, sf, key);
      var s := Select(rows, n - 1, f);
      if n in rows {
        MatchesIsCounted(sf, rows[n]);
        KeyMeansGroup(sf.group, key, rows[n]);
        OnlyOfAppend(s, rows[n], k, key);
        TallyAppend(Only(s, k, key), rows[n]);
      }
      assert s + [] == s && Only(s, k, key) + [] == Only(s, k, key);
    }
  }

  // ----- when a report is given -----

  predicate GoodRange(start: Instant, end: Instant) {
    start != Civil(1, 1, 1, 0, 0, 0, 0) && end != Civil(1, 1, 1, 0, 0, 0, 0) && Before(start, end)
  }

  predicate GoodScope(scope: Scope) {
    HasText(scope.user) && HasText(scope.guild) && HasText(scope.channel)
  }

  ghost predicate SumsFit(t: Tables, sf: StatisticsFilter) {
    && SumIn(t.rows, t.sequence, sf, "", "income") <= 0x7FFF_FFFF_FFFF_FFFF
    && SumIn(t.rows, t.sequence, sf, "", "expense") <= 0x7FFF_FFFF_FFFF_FFFF
  }

  predicate WantsComparison(sf: StatisticsFilter) {
    sf.compareStart != Civil(1, 1, 1, 0, 0, 0, 0) || sf.compareEnd != Civil(1, 1, 1, 0, 0, 0, 0)
  }

  /** A report is given exactly when its request is in order and its sums fit; otherwise it names the first fault. */
  lemma ReportsAreGivenExactlyWhen(t: Tables, sf: StatisticsFilter)
    ensures Summarize(t.rows, t.sequence, sf).Ok? <==>
            && GoodScope(sf.scope) && GoodRange(sf.start, sf.end) && IsGrouping(sf.group)
            && sf.typ in {"", "income", "expense"} && SumsFit(t, WholeOf(sf))
            && (WantsComparison(sf) ==> GoodRange(sf.compareStart, sf.compareEnd) && SumsFit(t, OtherOf(sf)))
    ensures Summarize(t.rows, t.sequence, sf).Err? ==>
            Summarize(t.rows, t.sequence, sf).error ==
            if !GoodScope(sf.scope) then InvalidRequest
            else if !GoodRange(sf.start, sf.end) || !IsGrouping(sf.group) then BadFilter
            else if sf.typ !in {"", "income", "expense"} then BadType
            else if !SumsFit(t, WholeOf(sf)) then SumOverflow
            else if !GoodRange(sf.compareStart, sf.compareEnd) then BadFilter
            else SumOverflow
  {
    hide Matches, Select, Tally, GroupsOf, CountIn, SumIn, Before, HasText, IsSpace;
    TextIsNotBlank(sf.scope);
    if sf.start != ZERO {
      TotalsAreSums(t.rows, t.sequence, sf);
    }
    if sf.compareStart != ZERO {
      TotalsAreSums(t.rows, t.sequence, OtherOf(sf));
    }
  }

  lemma TextIsNotBlank(scope: Scope)
    ensures ValidScope(scope) <==> GoodScope(scope)
  {
    RequestsAreJudged(RequestContext(scope, "x", Civil(2, 1, 1, 0, 0, 0, 0)));
    assert HasText("x") by {
      assert !IsSpace("x"[0]);
    }
  }

  // ----- what a report says -----

  /** Count, sums and net are those of the counted rows of one group, and nothing wrapped. */
  ghost predicate Adds(t: Tables, sf: StatisticsFilter, key: string, totals: Totals, net: int64) {
    && totals.count == CountIn(t.rows, t.sequence, sf, key)
    && totals.income == SumIn(t.rows, t.sequence, sf, key, "income")
    && totals.expense == SumIn(t.rows, t.sequence, sf, key, "expense")
    && net == totals.income - totals.expense
  }

  ghost predicate IsCounted(t: Tables, sf: StatisticsFilter, id: int) {
    id in t.rows && Counted(sf, t.rows[id])
  }

  ghost predicate HasRow(t: Tables, sf: StatisticsFilter, key: string) {
    exists id :: IsCounted(t, sf, id) && InGroup(sf.group, key, t.rows[id])
  }

  /** The keys ascend, and are those of the counted rows. */
  ghost predicate KeysOfCounted(t: Tables, sf: StatisticsFilter, groups: seq<Group>) {
    && (forall i, j :: 0 <= i < j < |groups| ==> Precedes(groups[i].key, groups[j].key))
    && (forall i :: 0 <= i < |groups| ==> HasRow(t, sf, groups[i].key))
    && (forall id :: IsCounted(t, sf, id) ==>
          exists i :: 0 <= i < |groups| && InGroup(sf.group, groups[i].key, t.rows[id]))
  }

  ghost predicate Compared(t: Tables, sf: StatisticsFilter, net: int64, comparison: Option<Comparison>) {
    if !WantsComparison(sf) then comparison == None else
      && comparison.Some?
      && var Comparison(start, end, totals, otherNet, delta, percentage) := comparison.value;
      && start == sf.compareStart && end == sf.compareEnd && Adds(t, OtherOf(sf), "", totals, otherNet)
      && delta == Wrap64(net - otherNet)
      && percentage == if otherNet == 0 then 0.0 else (delta as real) / (otherNet as real) * 100.0
  }

  /** A report of a reachable ledger, whole: its totals, its groups by their keys, and its comparison. */
  lemma ReportsAreExact(t: Tables, sf: StatisticsFilter)
    requires Invariant(t) && Summarize(t.rows, t.sequence, sf).Ok?
    ensures var Report(group, totals, net, groups, comparison) := Summarize(t.rows, t.sequence, sf).value;
            && group == (if sf.group == "" then "total" else sf.group)
            && Adds(t, WholeOf(sf), "", totals, net)
            && (sf.group in {"", "total"} ==> groups == [])
            && (sf.group in {"day", "category", "type"} ==>
                  && KeysOfCounted(t, sf, groups)
                  && forall i :: 0 <= i < |groups| ==> Adds(t, sf, groups[i].key, groups[i].totals, groups[i].net))
            && Compared(t, sf, net, comparison)
  {
    hide Matches, Select, Tally, CountIn, SumIn, Before, HasText, IsSpace, Invariant, GroupBy, Counted, KeysOfCounted,
        PositiveAmounts, WellKept, SoundRows, Wrap64;
    var rows, n := t.rows, t.sequence;
    ReachableIsWellKept(t);
    ReportsAreGivenExactlyWhen(t, sf);
    NetsDoNotOverflow(rows, n, sf);
    TotalsAreSums(rows, n, sf);
    ComparedTo(t, sf);
    if sf.group in {"day", "category", "type"} {
      GroupedBy(t, sf);
    }
  }

  lemma ComparedTo(t: Tables, sf: StatisticsFilter)
    requires Invariant(t) && Summarize(t.rows, t.sequence, sf).Ok?
    ensures var r := Summarize(t.rows, t.sequence, sf).value; Compared(t, sf, r.net, r.comparison)
  {
    hide Matches, Select, Tally, CountIn, SumIn, Before, HasText, IsSpace, Invariant, GroupsOf, Counted, WellKept,
        PositiveAmounts, SoundRows, Wrap64;
    ReachableIsWellKept(t);
    ReportsAreGivenExactlyWhen(t, sf);
    NetsDoNotOverflow(t.rows, t.sequence, sf);
    if WantsComparison(sf) {
      TotalsAreSums(t.rows, t.sequence, OtherOf(sf));
    }
  }

  lemma GroupsAreBy(t: Tables, sf: StatisticsFilter)
    requires Invariant(t) && Summarize(t.rows, t.sequence, sf).Ok? && sf.group in {"day", "category", "type"}
    ensures sf.start != ZERO
    ensures var s := Select(t.rows, t.sequence, RowFilter(sf, sf.start, sf.end));
            && Summarize(t.rows, t.sequence, sf).value.groups == GroupBy(s, KeyFor(sf.group))
            && Fits(Tally(s)) && forall i :: 0 <= i < |s| ==> s[i].amount > 0
  {
    hide Select, Tally, Before, GroupBy, Invariant, WellKept, SoundRows, ValidateFilter, ValidScope;
    ReachableIsWellKept(t);
    SelectionIsPositive(t.rows, t.sequence, RowFilter(sf, sf.start, sf.end));
  }

  lemma CountedIsSelected(t: Tables, sf: StatisticsFilter, id: int)
    requires Invariant(t) && sf.start != ZERO && IsCounted(t, sf, id)
    ensures t.rows[id] in Select(t.rows, t.sequence, RowFilter(sf, sf.start, sf.end))
  {
    hide Select, Counted, Matches, Invariant;
    ReachableIsWellKept(t);
    MatchesIsCounted(sf, t.rows[id]);
    SelectInTableOrder(t.rows, t.sequence, RowFilter(sf, sf.start, sf.end));
  }

  lemma {:induction false} GroupsHaveRows(t: Tables, n: nat, sf: StatisticsFilter, key: string)
    requires CountIn(t.rows, n, sf, key) > 0
    ensures HasRow(t, sf, key)
    decreases n
  {
    hide Counted, InGroup;
    if n in t.rows && Counted(sf, t.rows[n]) && InGroup(sf.group, key, t.rows[n]) {
      assert IsCounted(t, sf, n);
    } else {
      GroupsHaveRows(t, n - 1, sf, key);
    }
  }

  lemma GroupedBy(t: Tables, sf: StatisticsFilter)
    requires Invariant(t) && Summarize(t.rows, t.sequence, sf).Ok? && sf.group in {"day", "category", "type"}
    ensures var groups := Summarize(t.rows, t.sequence, sf).value.groups;
            && KeysOfCounted(t, sf, groups)
            && forall i :: 0 <= i < |groups| ==> Adds(t, sf, groups[i].key, groups[i].totals, groups[i].net)
  {
    hide Summarize, Select, Tally, Only, GroupBy, CountIn, SumIn, Counted, InGroup, Invariant, KeyFor, SumOfGroups;
    var s, key := Select(t.rows, t.sequence, RowFilter(sf, sf.start, sf.end)), KeyFor(sf.group);
    var groups := Summarize(t.rows, t.sequence, sf).value.groups;
    ReachableIsWellKept(t);
    GroupsAreBy(t, sf);
    GroupsPartitionTheRows(s, key);
    GroupNetsDoNotOverflow(s, key);
    forall i | 0 <= i < |groups|
      ensures Adds(t, sf, groups[i].key, groups[i].totals, groups[i].net) && HasRow(t, sf, groups[i].key)
    {
      GroupsAreSums(t.rows, t.sequence, sf, groups[i].key);
      GroupsHaveRows(t, t.sequence, sf, groups[i].key);
    }
    forall id | IsCounted(t, sf, id)
      ensures exists i :: 0 <= i < |groups| && InGroup(sf.group, groups[i].key, t.rows[id])
    {
      CountedIsSelected(t, sf, id);
      var i :| 0 <= i < |groups| && groups[i].key == key(t.rows[id]);
      KeyMeansGroup(sf.group, groups[i].key, t.rows[id]);
    }
  }

  // ----- groups are reports of their own -----

  /** The report of one category or type alone. */
  function AloneOf(sf: StatisticsFilter, key: string): StatisticsFilter
    requires sf.group == "category" || sf.group == "type"
  {
    if sf.group == "category" then sf.(category := key, group := "total") else sf.(typ := key, group := "total")
  }

  /** The key of a counted row's group is set, and is the filter's own if that names one. */
  ghost predicate Narrows(sf: StatisticsFilter, key: string) {
    && (sf.group == "category" ==> key != "" && (sf.category == "" || sf.category == key))
    && (sf.group == "type" ==> key in {"income", "expense"} && (sf.typ == "" || sf.typ == key))
  }

  lemma KeyNarrows(t: Tables, sf: StatisticsFilter, id: int, key: string)
    requires Invariant(t) && IsCounted(t, sf, id) && InGroup(sf.group, key, t.rows[id])
    ensures Narrows(sf, key)
  {
    hide FormatTime, Precedes, DateText, LegalLog, Replay, Creates, BatchesSound, AllReadable;
    ReplayIsSound(t.audit);
    InputsAreJudged(InputOf(t.rows[id]));
  }

  lemma AloneNarrows(sf: StatisticsFilter, key: string, row: Transaction)
    requires sf.group in {"category", "type"} && Narrows(sf, key)
    ensures Counted(AloneOf(sf, key), row) <==> Counted(sf, row) && InGroup(sf.group, key, row)
    ensures Counted(OtherOf(AloneOf(sf, key)), row) ==> Counted(OtherOf(sf), row)
  {
    hide FormatTime, Precedes;
  }

  lemma AloneFits(t: Tables, sf: StatisticsFilter, key: string)
    requires Invariant(t) && sf.group in {"category", "type"} && Narrows(sf, key)
    ensures SumsFit(t, WholeOf(sf)) ==> SumsFit(t, AloneOf(sf, key))
    ensures SumsFit(t, OtherOf(sf)) ==> SumsFit(t, OtherOf(AloneOf(sf, key)))
  {
    hide Counted, CountIn, SumIn, Invariant, AloneOf, Narrows;
    ReachableIsWellKept(t);
    var alone := AloneOf(sf, key);
    forall id | id in t.rows
      ensures Counted(alone, t.rows[id]) ==> Counted(WholeOf(sf), t.rows[id])
      ensures Counted(OtherOf(alone), t.rows[id]) ==> Counted(OtherOf(sf), t.rows[id])
    {
      AloneNarrows(sf, key, t.rows[id]);
      WholeCounts(sf, t.rows[id]);
    }
    forall typ | typ in {"income", "expense"}
      ensures SumIn(t.rows, t.sequence, alone, "", typ) <= SumIn(t.rows, t.sequence, WholeOf(sf), "", typ)
      ensures SumIn(t.rows, t.sequence, OtherOf(alone), "", typ) <= SumIn(t.rows, t.sequence, OtherOf(sf), "", typ)
    {
      FewerRowsLess(t.rows, t.sequence, alone, WholeOf(sf), typ);
      FewerRowsLess(t.rows, t.sequence, OtherOf(alone), OtherOf(sf), typ);
    }
  }

  lemma AlonePicks(t: Tables, sf: StatisticsFilter, key: string)
    requires sf.group in {"category", "type"} && Narrows(sf, key)
    ensures PicksAlike(t.rows, sf, key, AloneOf(sf, key), "")
  {
    hide Counted, Narrows;
    forall id | id in t.rows
      ensures Counted(AloneOf(sf, key), t.rows[id]) <==> Counted(sf, t.rows[id]) && InGroup(sf.group, key, t.rows[id])
    {
      AloneNarrows(sf, key, t.rows[id]);
    }
  }

  /** Each category or type of a report has the totals and the net of the report of that category or type alone. */
  lemma GroupsAreReports(t: Tables, sf: StatisticsFilter, i: nat)
    requires Invariant(t) && Summarize(t.rows, t.sequence, sf).Ok? && sf.group in {"category", "type"}
    requires i < |Summarize(t.rows, t.sequence, sf).value.groups|
    ensures var g := Summarize(t.rows, t.sequence, sf).value.groups[i];
            var alone := Summarize(t.rows, t.sequence, AloneOf(sf, g.key));
            && alone.Ok? && alone.value.totals == g.totals && alone.value.net == g.net
            && (sf.group == "category" ==> g.key != "") && (sf.group == "type" ==> g.key in {"income", "expense"})
  {
    hide Summarize, CountIn, SumIn, Invariant, Counted, InGroup, Compared, SumsFit, GoodRange, GoodScope, KeysOfCounted;
    var key := Summarize(t.rows, t.sequence, sf).value.groups[i].key;
    var alone := AloneOf(sf, key);
    ReportsAreExact(t, sf);
    KeyOfGroupNarrows(t, sf, i);
    AloneFits(t, sf, key);
    assert WholeOf(alone) == alone;
    ReportsAreGivenExactlyWhen(t, sf);
    ReportsAreGivenExactlyWhen(t, alone);
    ReportsAreExact(t, alone);
    AlonePicks(t, sf, key);
    SameRowsSameSums(t.rows, t.sequence, sf, key, alone, "");
  }

  lemma KeyOfGroupNarrows(t: Tables, sf: StatisticsFilter, i: nat)
    requires Invariant(t) && Summarize(t.rows, t.sequence, sf).Ok? && sf.group in {"category", "type"}
    requires i < |Summarize(t.rows, t.sequence, sf).value.groups|
    ensures Narrows(sf, Summarize(t.rows, t.sequence, sf).value.groups[i].key)
  {
    hide Summarize, Invariant, Counted, InGroup, Adds, Compared, Narrows;
    var groups := Summarize(t.rows, t.sequence, sf).value.groups;
    GroupedBy(t, sf);
    assert HasRow(t, sf, groups[i].key);
    var id :| IsCounted(t, sf, id) && InGroup(sf.group, groups[i].key, t.rows[id]);
    KeyNarrows(t, sf, id, groups[i].key);
  }

  // ----- days -----

  /** Dates are ten characters, equal exactly for one and the same day, and ordered as the days are. */
  lemma DatesTellDaysApart(a: Instant, b: Instant)
    requires FourDigitYear(a) && FourDigitYear(b)
    ensures |DateText(a)| == 10
    ensures DateText(a) == DateText(b) <==> a.year == b.year && a.month == b.month && a.day == b.day
    ensures Precedes(DateText(a), DateText(b)) <==>
            Before(Civil(a.year, a.month, a.day, 0, 0, 0, 0), Civil(b.year, b.month, b.day, 0, 0, 0, 0))
  {
    hide Fixed, Precedes;
    PowTwoFour();
    FixedOrder(a.year, b.year, 4);
    FixedOrder(a.month, b.month, 2);
    FixedOrder(a.day, b.day, 2);
    var s, r := DateText(a), DateText(b);
    assert s[..4] == Fixed(a.year, 4) && s[5..7] == Fixed(a.month, 2) && s[8..10] == Fixed(a.day, 2);
    assert r[..4] == Fixed(b.year, 4) && r[5..7] == Fixed(b.month, 2) && r[8..10] == Fixed(b.day, 2);
    YearOrder(a.year, b.year, Fixed(a.month, 2) + ("-" + Fixed(a.day, 2)), Fixed(b.month, 2) + ("-" + Fixed(b.day, 2)));
    PairOrder(a.month, b.month, '-', Fixed(a.day, 2), Fixed(b.day, 2));
  }

  /** In a report by days two counted rows share a group exactly when their year, month and day agree. */
  lemma DaysShareGroups(t: Tables, sf: StatisticsFilter, a: int, b: int)
    requires Invariant(t) && Summarize(t.rows, t.sequence, sf).Ok? && sf.group == "day"
    requires IsCounted(t, sf, a) && IsCounted(t, sf, b)
    ensures var groups, x, y := Summarize(t.rows, t.sequence, sf).value.groups, t.rows[a], t.rows[b];
            && (exists i :: 0 <= i < |groups| && InGroup("day", groups[i].key, x))
            && (forall i :: 0 <= i < |groups| && InGroup("day", groups[i].key, x) ==>
                  && |groups[i].key| == 10
                  && (InGroup("day", groups[i].key, y) <==>
                        x.occurredAt.year == y.occurredAt.year && x.occurredAt.month == y.occurredAt.month
                        && x.occurredAt.day == y.occurredAt.day))
  {
    hide Summarize, Invariant, Counted, DateText;
    ReachableIsWellKept(t);
    GroupedBy(t, sf);
    DatesTellDaysApart(t.rows[a].occurredAt, t.rows[b].occurredAt);
  }

  // ----- listings -----

  /** The row is of the wanted scope, time, type, category and amount, its note holds the text, and it is live. */
  ghost predicate Wanted(f: Filter, row: Transaction) {
    && row.scope.user == f.scope.user && row.scope.guild == f.scope.guild && row.scope.channel == f.scope.channel
    && (f.start == Civil(1, 1, 1, 0, 0, 0, 0) ||
        (!Precedes(FormatTime(row.occurredAt), FormatTime(f.start)) &&
         Precedes(FormatTime(row.occurredAt), FormatTime(f.end))))
    && (f.typ == "" || row.typ == f.typ) && (f.category == "" || row.category == f.category)
    && (f.note == "" || exists i :: OccursAt(row.note, f.note, i))
    && (f.min == 0 || row.amount >= f.min) && (f.max == 0 || row.amount <= f.max)
    && (f.includeDeleted || row.deletedAt == None)
  }

  /** An absent range, or a good one; an absent or known type; bounds that are not negative and not crossed. */
  predicate GoodFilter(f: Filter) {
    && GoodScope(f.scope)
    && ((f.start == f.end == Civil(1, 1, 1, 0, 0, 0, 0)) || GoodRange(f.start, f.end))
    && f.typ in {"", "income", "expense"}
    && 0 <= f.min && 0 <= f.max && (f.max == 0 || f.min <= f.max)
  }

  lemma FiltersAreJudged(f: Filter)
    ensures ValidateFilter(f) == None <==> GoodFilter(f)
    ensures ValidateFilter(f).Some? ==>
            ValidateFilter(f).value ==
            if !GoodScope(f.scope) then InvalidRequest
            else if !(f.start == f.end == Civil(1, 1, 1, 0, 0, 0, 0)) && !GoodRange(f.start, f.end) then BadFilter
            else if f.typ !in {"", "income", "expense"} then BadType
            else BadAmount
  {
    hide HasText, IsSpace;
    TextIsNotBlank(f.scope);
  }

  lemma MatchesIsWanted(f: Filter, row: Transaction)
    requires GoodFilter(f)
    ensures Matches(f, row) <==> Wanted(f, row)
  {
    hide FormatTime, Precedes, HasText, IsSpace;
    IndexIsLeftmost(row.note, f.note, 0);
  }

  /** a is listed before b: by the stored times, and by the ids where these are equal. */
  predicate ListedBefore(a: Transaction, b: Transaction) {
    var x, y := FormatTime(a.occurredAt), FormatTime(b.occurredAt); Precedes(x, y) || (x == y && a.id < b.id)
  }

  /**
   A listing of a reachable ledger succeeds exactly for a good filter. Export then lists exactly the wanted rows,
   oldest first, and Search the newest twenty of them, newest first, with the number of all.
   */
  lemma ListingsAreExact(t: Tables, f: Filter)
    requires Invariant(t)
    ensures Export(t.rows, t.sequence, f).Ok? <==> GoodFilter(f)
    ensures Search(t.rows, t.sequence, f).Ok? <==> GoodFilter(f)
    ensures GoodFilter(f) ==>
            var list, found := Export(t.rows, t.sequence, f).value, Search(t.rows, t.sequence, f).value;
            && (forall row :: row in list <==> row.id in t.rows && t.rows[row.id] == row && Wanted(f, row))
            && (forall i, j :: 0 <= i < j < |list| ==> ListedBefore(list[i], list[j]))
            && found.total == |list| && (found.truncated <==> |list| > 20)
            && |found.transactions| == (if |list| > 20 then 20 else |list|)
            && forall i :: 0 <= i < |found.transactions| ==> found.transactions[i] == list[|list| - 1 - i]
  {
    hide Matches, Wanted, ValidateFilter, Select, Sort, ScanAll, Invariant, GoodFilter, FormatTime, Precedes,
        ReadableRow;
    ReachableIsWellKept(t);
    FiltersAreJudged(f);
    if GoodFilter(f) {
      ExportListsMatches(t.rows, t.sequence, f);
      SearchAgreesWithExport(t.rows, t.sequence, f);
      forall row
        ensures Matches(f, row) <==> Wanted(f, row)
      {
        MatchesIsWanted(f, row);
      }
    }
  }

  /** Bounds on the amount keep exactly the rows within them: those of the same listing without bounds. */
  lemma BoundsNarrowTheListing(t: Tables, f: Filter)
    requires Invariant(t) && Export(t.rows, t.sequence, f).Ok?
    ensures var all := Export(t.rows, t.sequence, f.(min := 0, max := 0));
            && all.Ok?
            && forall row :: row in Export(t.rows, t.sequence, f).value <==>
                 row in all.value && (f.min > 0 ==> row.amount >= f.min) && (f.max > 0 ==> row.amount <= f.max)
  {
    hide Export, Search, Invariant, FormatTime, Precedes, OccursAt, GoodScope, GoodRange;
    ListingsAreExact(t, f);
    ListingsAreExact(t, f.(min := 0, max := 0));
  }

  // ----- requests for listings and reports -----

  /** No category, or one of the listed names of the wanted type, or of either when no type is given. */
  predicate GoodCategory(typ: string, category: string) {
    || category == ""
    || (typ != "expense" && IsIncomeCategory(category))
    || (typ != "income" && IsExpenseCategory(category))
  }

  /**
   The service accepts exactly the complete requests for a good filter with a known category and a text of at most
   2000 characters, and passes them on unchanged; otherwise the first fault decides.
   */
  lemma SearchRequestsAreJudged(request: RequestContext, q: SearchRequest)
    ensures var f := Filter(request.scope, q.start, q.end, q.typ, q.category, q.note, q.min, q.max, false);
            SearchFilter(request, q) ==
            if !GoodRequest(request) then Err(Rejected(InvalidRequest))
            else if !(q.start == q.end == Civil(1, 1, 1, 0, 0, 0, 0)) && !GoodRange(q.start, q.end) then Err(Clarify)
            else if q.typ !in {"", "income", "expense"} then Err(Rejected(BadType))
            else if !GoodCategory(q.typ, q.category) then Err(Rejected(BadCategory))
            else if !GoodFilter(f) then Err(Rejected(BadAmount))
            else if |q.note| > 2000 then Err(Rejected(NoteTooLong))
            else Ok(f)
  {
    hide ValidRequest, HasText, Before, IsIncomeCategory, IsExpenseCategory;
    RequestsAreJudged(request);
    CategoriesAreKnown(q.typ, q.category);
  }

  lemma CategoriesAreKnown(typ: string, category: string)
    ensures typ in {"", "income", "expense"} ==> (KnownCategory(typ, category) <==> GoodCategory(typ, category))
  {
  }

  /** The same for reports: a bad range, or a comparison range that is bad or given by half, asks the user back. */
  lemma ReportRequestsAreJudged(request: RequestContext, q: StatisticsRequest)
    ensures StatisticsFilterFor(request, q) ==
            if !GoodRequest(request) then Err(Rejected(InvalidRequest))
            else if !GoodRange(q.start, q.end) then Err(Clarify)
            else if !(q.compareStart == q.compareEnd == Civil(1, 1, 1, 0, 0, 0, 0))
                    && !GoodRange(q.compareStart, q.compareEnd) then Err(Clarify)
            else if q.typ !in {"", "income", "expense"} then Err(Rejected(BadType))
            else if !GoodCategory(q.typ, q.category) then Err(Rejected(BadCategory))
            else Ok(StatisticsFilter(request.scope, q.start, q.end, q.typ, q.category, q.group, q.compareStart,
                                     q.compareEnd))
  {
    hide ValidRequest, HasText, Before, IsIncomeCategory, IsExpenseCategory, GoodRequest;
    RequestsAreJudged(request);
    CategoriesAreKnown(q.typ, q.category);
  }
}
