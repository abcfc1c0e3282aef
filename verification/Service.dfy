/** LedgerService: the deterministic seam between tool calls and the store (internal/app/ledger.go). */
module Service {
  import opened Wrappers
  import opened Instants
  import opened Amounts
  import opened Ledger
  import opened AuditLog
  import opened Batches
  import opened Sorting
  import opened Queries
  import opened Statistics
  import opened Views
  import opened SqliteStore
  import opened Provider

  /** A storage or validation error, a question for the user, or a refusal of the application itself. */
  datatype AppError = Rejected(error: Error) | Clarify | MustReadFirst | ToolFailed | NoRandomness
                    | ConfirmationRefused | ProviderTrouble | BadAnalysis

  function CheckMutation(m: Mutation): Option<AppError> {
    if m.kind.Unknown? then Some(Rejected(UnsupportedKind))
    else if (m.kind == Create || m.kind == Update) && ValidateInput(m.input).Some?
         then Some(Rejected(ValidateInput(m.input).value))
    else if m.kind != Create && m.id <= 0 then Some(Clarify)
    else None
  }

  function CheckMutations(ms: seq<Mutation>): Option<AppError> {
    if ms == [] then None
    else if CheckMutation(ms[0]).Some? then CheckMutation(ms[0])
    else CheckMutations(ms[1..])
  }

  /** The complaint of ApplyMutations before it reaches the store. */
  function CheckRequest(request: RequestContext, ms: seq<Mutation>): Option<AppError> {
    if !ValidRequest(request) then Some(Rejected(InvalidRequest))
    else if ms == [] then Some(Rejected(EmptyBatch))
    else CheckMutations(ms)
  }

  lemma {:induction false} ServiceAndStoreAgree(ms: seq<Mutation>)
    ensures CheckMutations(ms) == None <==> ValidateAll(ms) == None
    decreases |ms|
  {
    if ms != [] {
      hide ValidateInput;
      ServiceAndStoreAgree(ms[1..]);
    }
  }

  /** A batch the service lets through is one the store's own validation accepts, and conversely. */
  lemma ChecksCoincide(request: RequestContext, ms: seq<Mutation>)
    ensures CheckRequest(request, ms) == None <==> CheckBatch(request, ms) == None
  {
    ServiceAndStoreAgree(ms);
  }

  /** ApplyMutations as a function of the tables, when no statement fails. */
  function AppliedBatch(t: Tables, request: RequestContext, ms: seq<Mutation>)
    : Result<(Tables, seq<Transaction>), AppError>
  {
    if CheckRequest(request, ms).Some? then Err(CheckRequest(request, ms).value) else
      match ApplyBatch(t, request, ms)
      case Ok(done) => Ok(done)
      case Err(e) => Err(Rejected(e))
  }

  // ----- tool calls -----

  /** What a batch of calls asks for: the results of its reads and the mutations to apply. */
  datatype Plan = Plan(results: seq<string>, mutations: seq<Mutation>)

  type Decode = Call -> Result<Mutation, AppError>
  type Read = Call -> Result<string, AppError>

  function PlanCalls(calls: seq<Call>, decode: Decode, read: Read): Result<Plan, AppError> {
    if calls == [] then Ok(Plan([], [])) else
      var front :- PlanCalls(calls[..|calls| - 1], decode, read);
      PlanOne(front, calls[|calls| - 1], decode, read)
  }

  function PlanOne(plan: Plan, call: Call, decode: Decode, read: Read): Result<Plan, AppError> {
    if IsMutationTool(call.name) then
      var m :- decode(call);
      Ok(plan.(mutations := plan.mutations + [m]))
    else if plan.mutations != [] then Err(MustReadFirst)
    else
      var result :- read(call);
      Ok(plan.(results := plan.results + [result]))
  }

  lemma {:induction false} PlanErrorStands(calls: seq<Call>, decode: Decode, read: Read, k: nat)
    requires k <= |calls| && PlanCalls(calls[..k], decode, read).Err?
    ensures PlanCalls(calls, decode, read) == Err(PlanCalls(calls[..k], decode, read).error)
    decreases |calls|
  {
    hide PlanOne;
    if k == |calls| {
      assert calls[..k] == calls;
    } else {
      assert calls[..|calls| - 1][..k] == calls[..k];
      PlanErrorStands(calls[..|calls| - 1], decode, read, k);
    }
  }

  /** The plan holds each read's result and then each decoded mutation, in order. */
  ghost predicate PlanFits(calls: seq<Call>, plan: Plan, decode: Decode, read: Read) {
    var j := |plan.results|;
    && |calls| == j + |plan.mutations|
    && (forall i :: 0 <= i < j ==> !IsMutationTool(calls[i].name) && read(calls[i]) == Ok(plan.results[i]))
    && (forall i :: j <= i < |calls| ==>
          IsMutationTool(calls[i].name) && decode(calls[i]) == Ok(plan.mutations[i - j]))
  }

  lemma PlanOneFits(calls: seq<Call>, plan: Plan, call: Call, decode: Decode, read: Read)
    requires PlanFits(calls, plan, decode, read) && PlanOne(plan, call, decode, read).Ok?
    ensures PlanFits(calls + [call], PlanOne(plan, call, decode, read).value, decode, read)
  {
    hide IsMutationTool;
    var more := calls + [call];
    assert more[|calls|] == call && forall i :: 0 <= i < |calls| ==> more[i] == calls[i];
  }

  /** A plan exists only for reads followed by mutations. */
  lemma {:induction false} PlansAreOrdered(calls: seq<Call>, decode: Decode, read: Read)
    requires PlanCalls(calls, decode, read).Ok?
    ensures PlanFits(calls, PlanCalls(calls, decode, read).value, decode, read)
    decreases |calls|
  {
    if calls != [] {
      hide IsMutationTool, PlanOne, PlanFits;
      var front, call := calls[..|calls| - 1], calls[|calls| - 1];
      PlansAreOrdered(front, decode, read);
      PlanOneFits(front, PlanCalls(front, decode, read).value, call, decode, read);
      assert calls == front + [call];
    }
  }

  /** Every read of the batch can be answered and every mutation decoded. */
  ghost predicate AllUnderstood(calls: seq<Call>, decode: Decode, read: Read) {
    forall i :: 0 <= i < |calls| ==> if IsMutationTool(calls[i].name) then decode(calls[i]).Ok? else read(calls[i]).Ok?
  }

  /** A batch of calls is accepted exactly when its reads precede its mutations and every call is understood. */
  lemma {:induction false} PlanExists(calls: seq<Call>, decode: Decode, read: Read)
    ensures PlanCalls(calls, decode, read).Ok? <==> ReadsThenMutations(calls) && AllUnderstood(calls, decode, read)
    decreases |calls|
  {
    hide IsMutationTool, ReadsThenMutations, AllReads;
    if calls == [] {
      EmptyPhases();
    } else {
      var front, call := calls[..|calls| - 1], calls[|calls| - 1];
      assert calls == front + [call];
      PlanExists(front, decode, read);
      if ReadsThenMutations(calls) {
        PhasesOfPrefix(calls);
      }
      if PlanCalls(front, decode, read).Ok? {
        PlansAreOrdered(front, decode, read);
        MutationsMeanPhase(front, decode, read);
        if AllReads(front) || IsMutationTool(call.name) {
          AppendPhase(front, call);
        }
      }
    }
  }

  lemma MutationsMeanPhase(calls: seq<Call>, decode: Decode, read: Read)
    requires PlanCalls(calls, decode, read).Ok?
    ensures PlanCalls(calls, decode, read).value.mutations == [] <==> AllReads(calls)
  {
    hide IsMutationTool, PlanCalls;
    PlansAreOrdered(calls, decode, read);
    var plan := PlanCalls(calls, decode, read).value;
    if plan.mutations != [] {
      assert IsMutationTool(calls[|plan.results|].name);
    }
  }

  // ----- searches and statistics -----

  datatype SearchRequest = SearchRequest(
    start: Instant, end: Instant, typ: string, category: string, note: string, min: int64, max: int64)

  datatype StatisticsRequest = StatisticsRequest(
    start: Instant, end: Instant, typ: string, category: string, group: string,
    compareStart: Instant, compareEnd: Instant)

  const MAX_TEXT_LENGTH := 2000

  /** Both ends missing, or both given and in order. */
  predicate SoundRange(start: Instant, end: Instant) {
    if start == ZERO then end == ZERO else end != ZERO && Before(start, end)
  }

  predicate KnownCategory(typ: string, category: string) {
    || category == ""
    || (if typ != "" then ValidCategory(typ, category) else category in INCOME_CATEGORIES + EXPENSE_CATEGORIES)
  }

  /** validateFilters */
  function ValidateFilters(typ: string, category: string, min: int64, max: int64): Option<AppError> {
    if typ != "" && !ValidType(typ) then Some(Rejected(BadType))
    else if !KnownCategory(typ, category) then Some(Rejected(BadCategory))
    else if min < 0 || max < 0 || (max > 0 && min > max) then Some(Rejected(BadAmount))
    else None
  }

  /** searchFilter, after the request itself was accepted. */
  function SearchFilter(request: RequestContext, q: SearchRequest): Result<Filter, AppError> {
    if !ValidRequest(request) then Err(Rejected(InvalidRequest))
    else if !SoundRange(q.start, q.end) then Err(Clarify)
    else if ValidateFilters(q.typ, q.category, q.min, q.max).Some?
         then Err(ValidateFilters(q.typ, q.category, q.min, q.max).value)
    else if |q.note| > MAX_TEXT_LENGTH then Err(Rejected(NoteTooLong))
    else Ok(Filter(request.scope, q.start, q.end, q.typ, q.category, q.note, q.min, q.max, false))
  }

  /** The checks of Statistics and the filter it passes on. */
  function StatisticsFilterFor(request: RequestContext, q: StatisticsRequest): Result<StatisticsFilter, AppError> {
    if !ValidRequest(request) then Err(Rejected(InvalidRequest))
    else if !ValidRange(q.start, q.end) || !SoundRange(q.compareStart, q.compareEnd) then Err(Clarify)
    else if ValidateFilters(q.typ, q.category, 0, 0).Some? then Err(ValidateFilters(q.typ, q.category, 0, 0).value)
    else Ok(StatisticsFilter(request.scope, q.start, q.end, q.typ, q.category, q.group, q.compareStart, q.compareEnd))
  }

  /**
   The service lets a search through exactly when the store accepts its filter, the category is known and the text
   is not too long; so a filter that reaches the store is never refused there.
   */
  lemma SearchesAreRefusedOnce(request: RequestContext, q: SearchRequest)
    requires ValidRequest(request)
    ensures var f := Filter(request.scope, q.start, q.end, q.typ, q.category, q.note, q.min, q.max, false);
            && (SearchFilter(request, q).Ok? <==>
                  ValidateFilter(f) == None && KnownCategory(q.typ, q.category) && |q.note| <= MAX_TEXT_LENGTH)
            && (SearchFilter(request, q).Ok? ==> SearchFilter(request, q).value == f)
  {
    hide Before, ValidScope, KnownCategory;
    assert ValidScope(request.scope);
  }

  /**
   A statistics request that the service lets through fails in the store only for its grouping or an overflowing
   sum.
   */
  lemma StatisticsAreRefusedOnce(rows: Rows, n: nat, request: RequestContext, q: StatisticsRequest)
    requires StatisticsFilterFor(request, q).Ok?
    ensures var sf := StatisticsFilterFor(request, q).value; var r := Summarize(rows, n, sf);
            || r.Ok? || r == Err(SumOverflow)
            || (r == Err(BadFilter) && GroupName(sf) !in {"total", "day", "category", "type"})
  {
    hide Before, ValidScope, KnownCategory, Select, Tally, GroupsOf, Compare, Fits;
    var sf := StatisticsFilterFor(request, q).value;
    assert ValidScope(request.scope);
    assert ValidateFilter(RowFilter(sf, sf.start, sf.end)) == None;
  }

  /** In a reachable ledger an accepted search or export cannot fail except by a failed statement. */
  lemma AcceptedSearchesSucceed(t: Tables, request: RequestContext, q: SearchRequest)
    requires Invariant(t) && SearchFilter(request, q).Ok?
    ensures var f := SearchFilter(request, q).value;
            Queries.Search(t.rows, t.sequence, f).Ok? && Queries.Export(t.rows, t.sequence, f).Ok?
  {
    hide Invariant, SearchFilter, ValidateFilter, WellKept, Queries.Search, Queries.Export, ValidRequest;
    assert ValidRequest(request) by {
      RefusedRequest(request, q);
    }
    SearchesAreRefusedOnce(request, q);
    ReachableIsWellKept(t);
    SearchAgreesWithExport(t.rows, t.sequence, SearchFilter(request, q).value);
  }

  lemma RefusedRequest(request: RequestContext, q: SearchRequest)
    ensures SearchFilter(request, q).Ok? ==> ValidRequest(request)
  {
    hide ValidRequest, ValidateFilters, SoundRange;
  }

  function LiftError<T>(r: Result<T, Error>): Result<T, AppError> {
    match r
    case Ok(x) => Ok(x)
    case Err(e) => Err(Rejected(e))
  }

  /** ResolveUnique: none or several matches ask the user back. */
  function Resolved(found: SearchResult): Result<Transaction, AppError> {
    if found.total != 1 || found.transactions == [] then Err(Clarify) else Ok(found.transactions[0])
  }

  /** In a reachable ledger it resolves to row exactly when row is the one live row of the requester that matches. */
  lemma ResolvesTheOnlyMatch(t: Tables, f: Filter, row: Transaction)
    requires Invariant(t) && ValidateFilter(f) == None
    ensures Queries.Search(t.rows, t.sequence, f).Ok?
    ensures Resolved(Queries.Search(t.rows, t.sequence, f).value) == Ok(row) <==>
            && row.id in t.rows && t.rows[row.id] == row && Matches(f, row)
            && forall id :: id in t.rows && Matches(f, t.rows[id]) ==> id == row.id
  {
    hide Invariant, Matches, ValidateFilter, WellKept, Queries.Search, Queries.Export, Earlier, Resolved;
    ReachableIsWellKept(t);
    SearchAgreesWithExport(t.rows, t.sequence, f);
    ExportListsMatches(t.rows, t.sequence, f);
    var list := Queries.Export(t.rows, t.sequence, f).value;
    ResolvedMeans(Queries.Search(t.rows, t.sequence, f).value, list, row);
    OnlyRow(t.rows, t.sequence, f, list, row);
  }

  lemma ResolvedMeans(found: SearchResult, list: seq<Transaction>, row: Transaction)
    requires found.transactions == Take(Reverse(list), MAX_SEARCH_ROWS) && found.total == |list|
    ensures Resolved(found) == Ok(row) <==> list == [row]
  {
  }

  lemma OnlyRow(rows: Rows, n: nat, f: Filter, list: seq<Transaction>, row: Transaction)
    requires forall id :: id in rows <==> 1 <= id <= n
    requires forall id :: id in rows ==> rows[id].id == id
    requires forall x :: x in list <==> 1 <= x.id <= n && x.id in rows && rows[x.id] == x && Matches(f, x)
    requires forall i, j :: 0 <= i < j < |list| ==> list[i].id != list[j].id
    ensures list == [row] <==>
            && row.id in rows && rows[row.id] == row && Matches(f, row)
            && forall id :: id in rows && Matches(f, rows[id]) ==> id == row.id
  {
    hide Matches;
    if row in list && |list| == 1 {
      Singleton(list, row);
    }
    if list == [row] {
      assert row in list;
      forall id | id in rows && Matches(f, rows[id])
        ensures id == row.id
      {
        assert rows[id] in list;
      }
    } else if row in list {
      assert list[0] in list && list[1] in list;
    }
  }

  lemma Singleton(list: seq<Transaction>, row: Transaction)
    requires row in list && |list| == 1
    ensures list == [row]
  {
  }

  /** What an accepted export lists is live. */
  lemma ExportsAreLive(rows: Rows, n: nat, request: RequestContext, q: SearchRequest)
    requires SearchFilter(request, q).Ok? && Queries.Export(rows, n, SearchFilter(request, q).value).Ok?
    ensures var list := Queries.Export(rows, n, SearchFilter(request, q).value).value;
            forall i :: 0 <= i < |list| ==> list[i].deletedAt == None
  {
    var f := SearchFilter(request, q).value;
    assert !f.includeDeleted;
    hide Select, Sort, MatchesPlaceAndTime, MatchesSubject, MatchesAmount, ValidateFilter, SearchFilter;
    var s := Select(rows, n, f);
    ExportIsSorted(rows, n, f);
    SelectionMatches(rows, n, f);
    SortPermutes(s, Earlier);
    forall i | 0 <= i < |Sort(s, Earlier)|
      ensures Sort(s, Earlier)[i].deletedAt == None
    {
      assert Sort(s, Earlier)[i] in multiset(s);
    }
  }

  class LedgerService {
    const store: Store

    constructor (store: Store)
      ensures this.store == store
    {
      this.store := store;
    }

    /** ApplyMutations: checks the whole batch, then hands it to the store in one transaction. */
    method ApplyMutations(request: RequestContext, ms: seq<Mutation>) returns (r: Result<seq<Transaction>, AppError>)
      requires store.Valid()
      modifies store
      ensures store.Valid() && store.faults >= old(store.faults)
      ensures store.faults > old(store.faults) <==> r == Err(Rejected(StatementFailed))
      ensures if r.Ok? then AppliedBatch(old(store.Current()), request, ms) == Ok((store.Current(), r.value))
              else && store.Current() == old(store.Current())
                   && (r.error == Rejected(StatementFailed)
                        || AppliedBatch(old(store.Current()), request, ms) == Err(r.error))
    {
      hide ApplyBatch, ValidateInput, ValidRequest;
      if !ValidRequest(request) {
        return Err(Rejected(InvalidRequest));
      }
      if |ms| == 0 {
        return Err(Rejected(EmptyBatch));
      }
      var converted: seq<Mutation> := [];
      var i := 0;
      while i < |ms|
        invariant 0 <= i <= |ms| && converted == ms[..i]
        invariant CheckMutations(ms) == CheckMutations(ms[i..])
      {
        var complaint := CheckMutation(ms[i]);
        if complaint.Some? {
          CheckNeverBlamesStatements(ms[i]);
          return Err(complaint.value);
        }
        converted := converted + [ms[i]];
        i := i + 1;
      }
      assert converted == ms;
      var applied := store.ApplyBatch(request, converted);
      r := match applied case Ok(rows) => Ok(rows) case Err(e) => Err(Rejected(e));
    }

    /** ExecuteCalls: reads first, then at most one batch; any complaint leaves the ledger untouched. */
    method ExecuteCalls(request: RequestContext, calls: seq<Call>, decode: Decode, read: Read)
      returns (r: Result<(seq<string>, seq<Transaction>), AppError>)
      requires store.Valid()
      modifies store
      ensures store.Valid()
      ensures var plan := PlanCalls(calls, decode, read); var t := old(store.Current());
              if !ValidRequest(request) then r == Err(Rejected(InvalidRequest)) && store.Current() == t
              else if calls == [] then r == Err(Rejected(EmptyBatch)) && store.Current() == t
              else if plan.Err? then r == Err(plan.error) && store.Current() == t
              else if plan.value.mutations == [] then r == Ok((plan.value.results, [])) && store.Current() == t
              else if r.Err? then store.Current() == t
                   && (store.faults > old(store.faults)
                        || AppliedBatch(t, request, plan.value.mutations) == Err(r.error))
              else r.value.0 == plan.value.results
                   && AppliedBatch(t, request, plan.value.mutations) == Ok((store.Current(), r.value.1))
    {
      hide AppliedBatch, ValidRequest, IsMutationTool, Invariant;
      if !ValidRequest(request) {
        return Err(Rejected(InvalidRequest));
      }
      if |calls| == 0 {
        return Err(Rejected(EmptyBatch));
      }
      var results: seq<string> := [];
      var mutations: seq<Mutation> := [];
      var mutationPhase := false;
      var i := 0;
      while i < |calls|
        invariant 0 <= i <= |calls|
        invariant PlanCalls(calls[..i], decode, read) == Ok(Plan(results, mutations))
        invariant mutationPhase <==> mutations != []
      {
        assert calls[..i + 1][..i] == calls[..i];
        if IsMutationTool(calls[i].name) {
          mutationPhase := true;
          var decoded := decode(calls[i]);
          if decoded.Err? {
            PlanErrorStands(calls, decode, read, i + 1);
            return Err(decoded.error);
          }
          mutations := mutations + [decoded.value];
        } else {
          if mutationPhase {
            PlanErrorStands(calls, decode, read, i + 1);
            return Err(MustReadFirst);
          }
          var result := read(calls[i]);
          if result.Err? {
            PlanErrorStands(calls, decode, read, i + 1);
            return Err(result.error);
          }
          results := results + [result.value];
        }
        i := i + 1;
      }
      assert calls[..i] == calls;
      if |mutations| == 0 {
        return Ok((results, []));
      }
      var applied := ApplyMutations(request, mutations);
      r := match applied case Ok(rows) => Ok((results, rows)) case Err(e) => Err(e);
    }

    method Search(request: RequestContext, q: SearchRequest) returns (r: Result<SearchResult, AppError>)
      modifies store`statements, store`faults
      ensures store.faults >= old(store.faults)
      ensures r == if SearchFilter(request, q).Err? then Err(SearchFilter(request, q).error)
                   else if store.faults > old(store.faults) then Err(Rejected(StatementFailed))
                   else LiftError(Queries.Search(store.rows, store.sequence, SearchFilter(request, q).value))
    {
      hide SearchFilter, Queries.Search;
      var filter := SearchFilter(request, q);
      if filter.Err? {
        return Err(filter.error);
      }
      var found := store.Search(filter.value);
      r := LiftError(found);
    }

    method Statistics(request: RequestContext, q: StatisticsRequest) returns (r: Result<Report, AppError>)
      modifies store`statements, store`faults
      ensures r == if StatisticsFilterFor(request, q).Err? then Err(StatisticsFilterFor(request, q).error)
                   else if store.faults > old(store.faults) then Err(Rejected(StatementFailed))
                   else LiftError(Summarize(store.rows, store.sequence, StatisticsFilterFor(request, q).value))
    {
      hide StatisticsFilterFor, Summarize;
      var filter := StatisticsFilterFor(request, q);
      if filter.Err? {
        return Err(filter.error);
      }
      var report := store.Statistics(filter.value);
      r := LiftError(report);
    }

    /** ExportCSV up to the encoding: the loop skips deleted rows, of which the filter leaves none. */
    method ExportRows(request: RequestContext, q: SearchRequest) returns (r: Result<seq<Transaction>, AppError>)
      modifies store`statements, store`faults
      ensures r == if SearchFilter(request, q).Err? then Err(SearchFilter(request, q).error)
                   else if store.faults > old(store.faults) then Err(Rejected(StatementFailed))
                   else LiftError(Queries.Export(store.rows, store.sequence, SearchFilter(request, q).value))
    {
      hide SearchFilter, Queries.Export;
      var filter := SearchFilter(request, q);
      if filter.Err? {
        return Err(filter.error);
      }
      var listed := store.Export(filter.value);
      if listed.Err? {
        return Err(Rejected(listed.error));
      }
      ExportsAreLive(store.rows, store.sequence, request, q);
      var written := [];
      var i := 0;
      while i < |listed.value|
        invariant 0 <= i <= |listed.value| && written == listed.value[..i]
      {
        if listed.value[i].deletedAt == None {
          written := written + [listed.value[i]];
        }
        i := i + 1;
      }
      assert written == listed.value;
      r := Ok(written);
    }

    method ResolveUnique(request: RequestContext, q: SearchRequest) returns (r: Result<Transaction, AppError>)
      modifies store`statements, store`faults
      ensures r == if SearchFilter(request, q).Err? then Err(SearchFilter(request, q).error)
                   else if store.faults > old(store.faults) then Err(Rejected(StatementFailed))
                   else match Queries.Search(store.rows, store.sequence, SearchFilter(request, q).value)
                        case Ok(found) => Resolved(found)
                        case Err(e) => Err(Rejected(e))
    {
      hide SearchFilter, Queries.Search;
      var found := Search(request, q);
      if found.Err? {
        return Err(found.error);
      }
      r := Resolved(found.value);
    }
  }

  lemma CheckNeverBlamesStatements(m: Mutation)
    ensures CheckMutation(m) != Some(Rejected(StatementFailed))
  {
  }
}
