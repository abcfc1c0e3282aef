/** What the queries show of a reachable ledger: agreement, isolation, and invisible round trips. */
module Views {
  import opened Wrappers
  import opened Text
  import opened Instants
  import opened Amounts
  import opened Ledger
  import opened AuditLog
  import opened Batches
  import opened Acceptance
  import opened Sorting
  import opened Queries
  import opened Statistics

  lemma ReachableIsWellKept(t: Tables)
    requires Invariant(t)
    ensures WellKept(t.rows) && PositiveAmounts(t.rows) && SoundRows(t.rows, t.sequence)
  {
    hide LegalLog, Replay, Creates, ReadableRow, BatchesSound;
    ReplayIsSound(t.audit);
  }

  /** In every reachable state Search and Export agree, and Statistics is a fold over what Export lists. */
  lemma ViewsAgree(attempts: seq<Attempt>, f: Filter)
    requires ValidateFilter(f) == None
    ensures var t := Run(attempts);
            && Search(t.rows, t.sequence, f).Ok? && Export(t.rows, t.sequence, f).Ok?
            && var list, found := Export(t.rows, t.sequence, f).value, Search(t.rows, t.sequence, f).value;
            && found.transactions == Take(Reverse(list), MAX_SEARCH_ROWS)
            && found.total == |list| && (found.truncated <==> |list| > MAX_SEARCH_ROWS)
            && Tally(Select(t.rows, t.sequence, f)) == Tally(list)
  {
    var t := Run(attempts);
    hide Matches, ValidateFilter, Tally, Select, Sort, Run;
    RunInvariant(attempts);
    ReachableIsWellKept(t);
    SearchAgreesWithExport(t.rows, t.sequence, f);
    ExportIsSorted(t.rows, t.sequence, f);
    TallyOfSort(Select(t.rows, t.sequence, f), Earlier);
  }

  lemma ExportIsSorted(rows: Rows, n: nat, f: Filter)
    requires Export(rows, n, f).Ok?
    ensures Export(rows, n, f).value == Sort(Select(rows, n, f), Earlier)
  {
    hide Sort, Select;
    ScanAllSucceeds(Sort(Select(rows, n, f), Earlier));
  }

  // ----- other scopes see nothing -----

  function Seen(rows: Rows, id: int, scope: Scope): Option<Transaction> {
    if id in rows && rows[id].scope == scope then Some(rows[id]) else None
  }

  lemma {:induction false} SelectSeesOneScope(rows: Rows, rows': Rows, n: nat, n': nat, f: Filter)
    requires n <= n' && (forall id :: id in rows ==> id <= n)
    requires forall id :: Seen(rows, id, f.scope) == Seen(rows', id, f.scope)
    ensures Select(rows', n', f) == Select(rows, n, f)
    decreases n'
  {
    hide MatchesSubject, MatchesAmount, TextInRange;
    if n' > n {
      SelectSeesOneScope(rows, rows', n, n' - 1, f);
      assert Seen(rows, n', f.scope) == None == Seen(rows', n', f.scope);
    } else if n > 0 {
      assert Seen(rows, n, f.scope) == Seen(rows', n, f.scope);
      SelectUpTo(rows, rows', n, f);
    }
  }

  lemma {:induction false} SelectUpTo(rows: Rows, rows': Rows, n: nat, f: Filter)
    requires forall id :: Seen(rows, id, f.scope) == Seen(rows', id, f.scope)
    ensures Select(rows', n, f) == Select(rows, n, f)
    decreases n
  {
    hide MatchesSubject, MatchesAmount, TextInRange;
    if n > 0 {
      SelectUpTo(rows, rows', n - 1, f);
      assert Seen(rows, n, f.scope) == Seen(rows', n, f.scope);
    }
  }

  /** A batch of one scope leaves every query of another scope as it was. */
  lemma OtherScopesSeeNothing(t: Tables, request: RequestContext, ms: seq<Mutation>, f: Filter, sf: StatisticsFilter)
    requires Invariant(t) && ApplyBatch(t, request, ms).Ok?
    requires f.scope != request.scope && sf.scope != request.scope
    ensures var t' := ApplyBatch(t, request, ms).value.0;
            && Search(t'.rows, t'.sequence, f) == Search(t.rows, t.sequence, f)
            && Export(t'.rows, t'.sequence, f) == Export(t.rows, t.sequence, f)
            && Summarize(t'.rows, t'.sequence, sf) == Summarize(t.rows, t.sequence, sf)
  {
    hide Matches, Sort, Tally, ApplyBatch, Select, ScanAll, GroupsOf, Invariant;
    var t' := ApplyBatch(t, request, ms).value.0;
    BatchKeepsInvariant(t, request, ms);
    ScopesAreIsolated(t, request, ms);
    TablesGrow(t, t');
    forall scope, id | scope != request.scope
      ensures Seen(t.rows, id, scope) == Seen(t'.rows, id, scope)
    {
      assert ImageOf(t.rows, id) != ImageOf(t'.rows, id) ==> id in t'.rows;
    }
    SelectSeesOneScope(t.rows, t'.rows, t.sequence, t'.sequence, f);
    SelectSeesOneScope(t.rows, t'.rows, t.sequence, t'.sequence, RowFilter(sf, sf.start, sf.end));
    SelectSeesOneScope(t.rows, t'.rows, t.sequence, t'.sequence, RowFilter(sf, sf.compareStart, sf.compareEnd));
  }

  lemma TablesGrow(t: Tables, t': Tables)
    requires Invariant(t) && Invariant(t') && Grows(t, t')
    ensures t.sequence <= t'.sequence && forall id :: id in t.rows ==> id <= t.sequence
  {
    ReachableIsWellKept(t);
    ReachableIsWellKept(t');
    if t.sequence > 0 {
      assert t.sequence in t.rows;
      assert t.sequence in t'.rows;
    }
  }

  // ----- delete, then restore -----

  /** A row without its last modification time. */
  function Undated(row: Transaction): Transaction {
    row.(updatedAt := ZERO)
  }

  ghost predicate SameButDates(rows: Rows, rows': Rows) {
    rows.Keys == rows'.Keys && forall id :: id in rows ==> Undated(rows[id]) == Undated(rows'[id])
  }

  lemma MatchesIgnoresDates(f: Filter, a: Transaction, b: Transaction)
    requires Undated(a) == Undated(b)
    ensures Matches(f, a) <==> Matches(f, b)
  {
  }

  lemma {:induction false} SelectIgnoresDates(rows: Rows, rows': Rows, n: nat, f: Filter)
    requires SameButDates(rows, rows')
    ensures Mapped(Select(rows, n, f), Undated) == Mapped(Select(rows', n, f), Undated)
    decreases n
  {
    hide Matches;
    if n > 0 {
      SelectIgnoresDates(rows, rows', n - 1, f);
      if n in rows {
        MatchesIgnoresDates(f, rows[n], rows'[n]);
      }
    }
  }

  lemma SortIgnoresDates(s: seq<Transaction>, s': seq<Transaction>)
    requires Mapped(s, Undated) == Mapped(s', Undated)
    ensures Mapped(Sort(s, Earlier), Undated) == Mapped(Sort(s', Earlier), Undated)
    ensures Mapped(Sort(s, Later), Undated) == Mapped(Sort(s', Later), Undated)
  {
    hide FormatTime, Precedes, Sort;
    SortCommutesWithMap(s, Undated, Earlier, Earlier);
    SortCommutesWithMap(s', Undated, Earlier, Earlier);
    SortCommutesWithMap(s, Undated, Later, Later);
    SortCommutesWithMap(s', Undated, Later, Later);
  }

  lemma MappedFront(s: seq<Transaction>)
    requires s != []
    ensures Mapped(s[..|s| - 1], Undated) == Mapped(s, Undated)[..|s| - 1]
  {
  }

  lemma {:induction false} TallyIgnoresDates(s: seq<Transaction>, s': seq<Transaction>)
    requires Mapped(s, Undated) == Mapped(s', Undated)
    ensures Tally(s) == Tally(s')
    decreases |s|
  {
    hide Plus;
    assert |Mapped(s, Undated)| == |Mapped(s', Undated)|;
    if s != [] {
      MappedFront(s);
      MappedFront(s');
      TallyIgnoresDates(s[..|s| - 1], s'[..|s'| - 1]);
      assert Undated(s[|s| - 1]) == Mapped(s, Undated)[|s| - 1] == Undated(s'[|s'| - 1]);
    }
  }

  ghost predicate KeyIgnoresDates(key: KeyOf) {
    forall a, b :: Undated(a) == Undated(b) ==> key(a) == key(b)
  }

  lemma {:induction false} OnlyIgnoresDates(s: seq<Transaction>, s': seq<Transaction>, key: KeyOf, k: string)
    requires Mapped(s, Undated) == Mapped(s', Undated) && KeyIgnoresDates(key)
    ensures Mapped(Only(s, key, k), Undated) == Mapped(Only(s', key, k), Undated)
    ensures Keys(s, key) == Keys(s', key)
    decreases |s|
  {
    hide InsertKey;
    assert |Mapped(s, Undated)| == |Mapped(s', Undated)|;
    if s != [] {
      MappedFront(s);
      MappedFront(s');
      OnlyIgnoresDates(s[..|s| - 1], s'[..|s'| - 1], key, k);
      assert Undated(s[|s| - 1]) == Mapped(s, Undated)[|s| - 1] == Undated(s'[|s'| - 1]);
    }
  }

  lemma GroupsIgnoreDates(s: seq<Transaction>, s': seq<Transaction>, key: KeyOf)
    requires Mapped(s, Undated) == Mapped(s', Undated) && KeyIgnoresDates(key)
    ensures GroupBy(s, key) == GroupBy(s', key)
  {
    hide Tally, Only, Keys;
    OnlyIgnoresDates(s, s', key, "");
    forall k
      ensures GroupFor(s, key, k) == GroupFor(s', key, k)
    {
      OnlyIgnoresDates(s, s', key, k);
      TallyIgnoresDates(Only(s, key, k), Only(s', key, k));
    }
  }

  lemma SummaryIgnoresDates(rows: Rows, rows': Rows, n: nat, sf: StatisticsFilter)
    requires SameButDates(rows, rows')
    ensures Summarize(rows, n, sf) == Summarize(rows', n, sf)
  {
    hide SameButDates, Tally, Select, GroupBy, Compare, ValidateStatistics;
    var f, g := RowFilter(sf, sf.start, sf.end), RowFilter(sf, sf.compareStart, sf.compareEnd);
    SelectIgnoresDates(rows, rows', n, f);
    SelectIgnoresDates(rows, rows', n, g);
    TallyIgnoresDates(Select(rows, n, f), Select(rows', n, f));
    TallyIgnoresDates(Select(rows, n, g), Select(rows', n, g));
    KeysIgnoreDates();
    GroupsIgnoreDates(Select(rows, n, f), Select(rows', n, f), DayOf);
    GroupsIgnoreDates(Select(rows, n, f), Select(rows', n, f), CategoryOf);
    GroupsIgnoreDates(Select(rows, n, f), Select(rows', n, f), TypeOf);
  }

  lemma KeysIgnoreDates()
    ensures KeyIgnoresDates(DayOf) && KeyIgnoresDates(CategoryOf) && KeyIgnoresDates(TypeOf)
  {
    hide FormatTime;
  }

  lemma ListsIgnoreDates(rows: Rows, rows': Rows, n: nat, f: Filter)
    requires SameButDates(rows, rows') && WellKept(rows) && WellKept(rows') && ValidateFilter(f) == None
    ensures Search(rows, n, f).Ok? && Search(rows', n, f).Ok? && Export(rows, n, f).Ok? && Export(rows', n, f).Ok?
    ensures var a, b := Search(rows, n, f).value, Search(rows', n, f).value;
            && Mapped(a.transactions, Undated) == Mapped(b.transactions, Undated)
            && a.total == b.total && a.truncated == b.truncated
    ensures Mapped(Export(rows, n, f).value, Undated) == Mapped(Export(rows', n, f).value, Undated)
  {
    hide SameButDates, WellKept, Matches, Select, Sort, ValidateFilter, Search, Export;
    SearchAgreesWithExport(rows, n, f);
    SearchAgreesWithExport(rows', n, f);
    SelectIgnoresDates(rows, rows', n, f);
    SortIgnoresDates(Select(rows, n, f), Select(rows', n, f));
    ExportIsSorted(rows, n, f);
    ExportIsSorted(rows', n, f);
    TakeReversed(Export(rows, n, f).value, Export(rows', n, f).value);
  }

  lemma TakeReversed(a: seq<Transaction>, b: seq<Transaction>)
    requires Mapped(a, Undated) == Mapped(b, Undated)
    ensures |a| == |b|
    ensures Mapped(Take(Reverse(a), MAX_SEARCH_ROWS), Undated) == Mapped(Take(Reverse(b), MAX_SEARCH_ROWS), Undated)
  {
    assert |Mapped(a, Undated)| == |Mapped(b, Undated)|;
    forall i | 0 <= i < |a|
      ensures Undated(a[i]) == Undated(b[i])
    {
      assert Mapped(a, Undated)[i] == Mapped(b, Undated)[i];
    }
  }

  /** The tables after a delete and then a restore of one live row. */
  lemma DeleteRestoreTables(t: Tables, r1: RequestContext, r2: RequestContext, id: int64, d: Mutation, u: Mutation)
    requires Invariant(t) && d.kind == Delete && d.id == id && u.kind == Restore && u.id == id
    requires r1.source !in t.batches && ApplyBatch(t, r1, [d]).Ok?
    requires var t1 := ApplyBatch(t, r1, [d]).value.0; r2.source !in t1.batches && ApplyBatch(t1, r2, [u]).Ok?
    ensures var t2 := ApplyBatch(ApplyBatch(t, r1, [d]).value.0, r2, [u]).value.0;
            id in t.rows && t2.rows == t.rows[id := t.rows[id].(updatedAt := r2.receivedAt)]
                && t2.sequence == t.sequence
  {
    hide Invariant, ReadAll;
    OneMutation(t, r1, d);
    OneMutation(ApplyBatch(t, r1, [d]).value.0, r2, u);
  }

  lemma OneMutation(t: Tables, request: RequestContext, m: Mutation)
    requires request.source !in t.batches && ApplyBatch(t, request, [m]).Ok?
    ensures ApplyMutation(t, request, m).Ok?
    ensures var t', t1 := ApplyBatch(t, request, [m]).value.0, ApplyMutation(t, request, m).value.0;
            t'.rows == t1.rows && t'.sequence == t1.sequence
  {
    hide ApplyMutation, ReadAll, CheckBatch;
    assert [m][..0] == [] && [m][0] == m;
    assert ApplyAll(t, request, []) == Ok((t, []));
  }

  /** Deleting a row and restoring it changes no query result except the row's modification time. */
  lemma DeleteThenRestoreIsInvisible(
      t: Tables, r1: RequestContext, r2: RequestContext, id: int64, d: Mutation, u: Mutation, f: Filter,
          sf: StatisticsFilter)
    requires Invariant(t) && d.kind == Delete && d.id == id && u.kind == Restore && u.id == id
    requires r1.source !in t.batches && ApplyBatch(t, r1, [d]).Ok?
    requires var t1 := ApplyBatch(t, r1, [d]).value.0; r2.source !in t1.batches && ApplyBatch(t1, r2, [u]).Ok?
    requires ValidateFilter(f) == None
    ensures var t2 := ApplyBatch(ApplyBatch(t, r1, [d]).value.0, r2, [u]).value.0; var n := t.sequence;
            && t2.sequence == n && Summarize(t2.rows, n, sf) == Summarize(t.rows, n, sf)
            && Search(t.rows, n, f).Ok? && Search(t2.rows, n, f).Ok? && Export(t.rows, n, f).Ok?
                 && Export(t2.rows, n, f).Ok?
            && Mapped(Export(t2.rows, n, f).value, Undated) == Mapped(Export(t.rows, n, f).value, Undated)
            && Mapped(Search(t2.rows, n, f).value.transactions, Undated) ==
                 Mapped(Search(t.rows, n, f).value.transactions, Undated)
            && Search(t2.rows, n, f).value.total == Search(t.rows, n, f).value.total
            && Search(t2.rows, n, f).value.truncated == Search(t.rows, n, f).value.truncated
  {
    hide Invariant, ApplyBatch, WellKept, Search, Export, Summarize, ValidateFilter;
    var t1 := ApplyBatch(t, r1, [d]).value.0;
    var t2 := ApplyBatch(t1, r2, [u]).value.0;
    BatchKeepsInvariant(t, r1, [d]);
    BatchKeepsInvariant(t1, r2, [u]);
    ReachableIsWellKept(t);
    ReachableIsWellKept(t2);
    DeleteRestoreTables(t, r1, r2, id, d, u);
    assert SameButDates(t.rows, t2.rows);
    SummaryIgnoresDates(t.rows, t2.rows, t.sequence, sf);
    ListsIgnoreDates(t.rows, t2.rows, t.sequence, f);
  }

  // ----- the exported balance -----

  function Everything(scope: Scope): Filter {
    Filter(scope, ZERO, ZERO, "", "", "", 0, 0, false)
  }

  lemma {:induction false} BalanceOfSelection(rows: Rows, n: nat, scope: Scope)
    requires forall id :: id in rows ==> ValidType(rows[id].typ)
    ensures var s := Tally(Select(rows, n, Everything(scope))); s.income - s.expense == LiveSum(rows, scope, n)
    decreases n
  {
    hide Tally, Select;
    if n == 0 {
      SelectNone(rows, Everything(scope));
      TallyOfNothing();
    } else {
      BalanceOfSelection(rows, n - 1, scope);
      SelectStep(rows, n, Everything(scope));
    }
  }

  /** What a full export of a scope adds up to is the sum of the changes its audit events record. */
  lemma ExportedBalanceIsAudited(attempts: seq<Attempt>, scope: Scope)
    requires ValidScope(scope)
    ensures var t := Run(attempts);
            && Export(t.rows, t.sequence, Everything(scope)).Ok?
            && var s := Tally(Export(t.rows, t.sequence, Everything(scope)).value);
            s.income - s.expense == DeltaSum(t.audit, scope)
  {
    hide Tally, Select, Run, Export, Search, LiveSum, DeltaSum, Invariant, ValidCategory;
    var t := Run(attempts);
    RunInvariant(attempts);
    ReachableIsWellKept(t);
    ViewsAgree(attempts, Everything(scope));
    BalanceIsConserved(attempts, scope);
    forall id | id in t.rows
      ensures ValidType(t.rows[id].typ)
    {
      assert ValidInput(InputOf(t.rows[id]));
    }
    BalanceOfSelection(t.rows, t.sequence, scope);
  }

  // ----- a delta that wraps -----

  /** The range [a,b) compared with [c,d), without further criteria. */
  function Compared(scope: Scope, a: Instant, b: Instant, c: Instant, d: Instant): StatisticsFilter {
    StatisticsFilter(scope, a, b, "", "", "", c, d)
  }

  lemma AtStartOnly(t: Instant, start: Instant, end: Instant)
    requires FourDigitYear(t) && FourDigitYear(start) && FourDigitYear(end)
    requires t.nano == 0 && start.nano == 0 && end.nano == 0 && Before(start, end)
    ensures t == start ==> TextInRange(t, start, end)
    ensures Before(t, start) || !Before(t, end) ==> !TextInRange(t, start, end)
  {
    hide FormatTime, Precedes;
    RangeFilterExact(t, start, end);
  }

  lemma OneRowTally(row: Transaction)
    ensures Tally([row]) == Plus(NOTHING, One(row))
  {
    assert [row][..0] == [];
  }

  /** Of a table with rows 1 and 2, exactly one matches. */
  lemma SelectOneOfTwo(rows: Rows, f: Filter, id: int)
    requires (forall i :: i in rows <==> 1 <= i <= 2) && (id == 1 || id == 2)
    requires Matches(f, rows[id]) && !Matches(f, rows[3 - id])
    ensures Select(rows, 2, f) == [rows[id]]
  {
    hide Matches;
    assert Select(rows, 0, f) == [];
    assert Select(rows, 1, f) == if id == 1 then [rows[1]] else [];
  }

  /** The report on one income in [a,b) and one expense in [c,d). */
  lemma ReportOfTwo(rows: Rows, scope: Scope, a: Instant, b: Instant, c: Instant, d: Instant)
    requires ValidScope(scope) && Bounds(a, b, c) && Bounds(b, c, d) && forall i :: i in rows <==> 1 <= i <= 2
    requires rows[1].scope == rows[2].scope == scope && rows[1].deletedAt == rows[2].deletedAt == None
    requires rows[1].typ == INCOME && rows[1].occurredAt == a && 0 <= rows[1].amount
    requires rows[2].typ == EXPENSE && rows[2].occurredAt == c && 0 <= rows[2].amount
    ensures var report := Summarize(rows, 2, Compared(scope, a, b, c, d));
            && report.Ok? && report.value.comparison.Some?
            && report.value.net == rows[1].amount && report.value.comparison.value.net == -(rows[2].amount as int)
            && report.value.comparison.value.netDelta == Wrap64(rows[1].amount + rows[2].amount)
  {
    hide FormatTime, Precedes, TextInRange, Before, Select, Tally, ValidScope, Bounds;
    var sf := Compared(scope, a, b, c, d);
    RangesApart(a, b, c, d);
    SelectOneOfTwo(rows, RowFilter(sf, a, b), 1);
    SelectOneOfTwo(rows, RowFilter(sf, c, d), 2);
    OneRowTally(rows[1]);
    OneRowTally(rows[2]);
  }

  lemma RangesApart(a: Instant, b: Instant, c: Instant, d: Instant)
    requires Bounds(a, b, c) && Bounds(b, c, d)
    ensures TextInRange(a, a, b) && !TextInRange(c, a, b) && !TextInRange(a, c, d) && TextInRange(c, c, d)
    ensures ValidRange(a, b) && ValidRange(c, d)
  {
    InOrder(a, b, c, d);
    hide FormatTime, Precedes, TextInRange, Before;
    AtStartOnly(a, a, b);
    AtStartOnly(c, a, b);
    AtStartOnly(a, c, d);
    AtStartOnly(c, c, d);
  }

  /**
   The largest income in one range against the largest expense in a later one: a ledger that one accepted batch
   reaches, whose report gives -2 as the difference of the nets.
   */
  lemma NetDeltaCanWrap(request: RequestContext, a: Instant, b: Instant, c: Instant, d: Instant)
    requires ValidRequest(request) && FourDigitYear(request.receivedAt) && Bounds(a, b, c) && Bounds(b, c, d)
    ensures var inputs := [Input(INCOME, MAX_INT64, "salary", "", a), Input(EXPENSE, MAX_INT64, "food", "", c)];
            var t := Run([Attempt(request, CreatesOf(inputs), false)]);
            var report := Summarize(t.rows, t.sequence, Compared(request.scope, a, b, c, d));
            && report.Ok? && report.value.comparison.Some?
            && report.value.net == MAX_INT64 && report.value.comparison.value.net == -MAX_INT64
            && report.value.comparison.value.netDelta == -2
  {
    hide Run, Summarize, Before;
    var inputs := [Input(INCOME, MAX_INT64, "salary", "", a), Input(EXPENSE, MAX_INT64, "food", "", c)];
    CreateBatchRun(request, inputs);
    ReportOfTwo(Filled(request, inputs), request.scope, a, b, c, d);
  }

  lemma InOrder(a: Instant, b: Instant, c: Instant, d: Instant)
    requires Before(a, b) && Before(b, c) && Before(c, d)
    ensures !Before(c, b) && Before(a, c) && !Before(a, a) && !Before(c, c)
  {
  }
}
