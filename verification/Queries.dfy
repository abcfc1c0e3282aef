/**
 Search, Export and Statistics: three views of the rows one filter selects
 (internal/storage/sqlite/query.go).
 */
module Queries {
  import opened Wrappers
  import opened Text
  import opened Instants
  import opened Amounts
  import opened Ledger
  import opened AuditLog
  import opened Sorting

  /** ZERO, "" and 0 mean that a criterion is absent. */
  datatype Filter = Filter(
    scope: Scope, start: Instant, end: Instant, typ: string, category: string, note: string,
    min: int64, max: int64, includeDeleted: bool)

  function ValidateFilter(f: Filter): Option<Error> {
    if !ValidScope(f.scope) then Some(InvalidRequest)
    else if (f.start != ZERO || f.end != ZERO) && (f.start == ZERO || f.end == ZERO || !Before(f.start, f.end))
         then Some(BadFilter)
    else if f.typ != "" && !ValidType(f.typ) then Some(BadType)
    else if f.min < 0 || f.max < 0 || (f.max > 0 && f.min > f.max) then Some(BadAmount)
    else None
  }

  predicate HasRange(f: Filter) {
    f.start != ZERO || f.end != ZERO
  }

  predicate MatchesPlaceAndTime(f: Filter, row: Transaction) {
    row.scope == f.scope && (HasRange(f) ==> TextInRange(row.occurredAt, f.start, f.end))
  }

  predicate MatchesSubject(f: Filter, row: Transaction) {
    && (f.typ != "" ==> row.typ == f.typ)
    && (f.category != "" ==> row.category == f.category)
    && (f.note != "" ==> ContainsText(row.note, f.note))
  }

  predicate MatchesAmount(f: Filter, row: Transaction) {
    (f.min > 0 ==> row.amount >= f.min) && (f.max > 0 ==> row.amount <= f.max)
  }

  /** What a filter asks of a row. */
  predicate Matches(f: Filter, row: Transaction) {
    && MatchesPlaceAndTime(f, row) && MatchesSubject(f, row) && MatchesAmount(f, row)
    && (f.includeDeleted || row.deletedAt == None)
  }

  // ----- the WHERE clause -----

  datatype Clause =
    | UserIs(user: string) | GuildIs(guild: string) | ChannelIs(channel: string)
    | OccurredFrom(text: string) | OccurredBefore(text: string)
    | TypeIs(typ: string) | CategoryIs(category: string) | NoteHas(note: string)
    | AmountAtLeast(amount: int64) | AmountAtMost(amount: int64) | IsLive

  predicate Holds(c: Clause, row: Transaction) {
    match c
    case UserIs(user) => row.scope.user == user
    case GuildIs(guild) => row.scope.guild == guild
    case ChannelIs(channel) => row.scope.channel == channel
    case OccurredFrom(text) => !Precedes(FormatTime(row.occurredAt), text)
    case OccurredBefore(text) => Precedes(FormatTime(row.occurredAt), text)
    case TypeIs(typ) => row.typ == typ
    case CategoryIs(category) => row.category == category
    case NoteHas(note) => ContainsText(row.note, note)
    case AmountAtLeast(amount) => row.amount >= amount
    case AmountAtMost(amount) => row.amount <= amount
    case IsLive => row.deletedAt == None
  }

  predicate AllHold(clauses: seq<Clause>, row: Transaction) {
    clauses == [] || (AllHold(clauses[..|clauses| - 1], row) && Holds(clauses[|clauses| - 1], row))
  }

  lemma AllHoldAppend(clauses: seq<Clause>, c: Clause)
    ensures forall row :: AllHold(clauses + [c], row) <==> AllHold(clauses, row) && Holds(c, row)
  {
    assert (clauses + [c])[..|clauses|] == clauses;
  }

  method Conjoin(clauses: seq<Clause>, wanted: bool, c: Clause) returns (r: seq<Clause>)
    ensures forall row :: AllHold(r, row) <==> AllHold(clauses, row) && (wanted ==> Holds(c, row))
  {
    r := clauses;
    if wanted {
      AllHoldAppend(r, c);
      r := r + [c];
    }
  }

  method WhereScope(scope: Scope) returns (where: seq<Clause>)
    ensures forall row :: AllHold(where, row) <==> row.scope == scope
  {
    where := Conjoin([], true, UserIs(scope.user));
    where := Conjoin(where, true, GuildIs(scope.guild));
    where := Conjoin(where, true, ChannelIs(scope.channel));
  }

  method WhereTime(f: Filter, clauses: seq<Clause>) returns (where: seq<Clause>)
    ensures forall row :: AllHold(where, row) <==>
              AllHold(clauses, row) && (HasRange(f) ==> TextInRange(row.occurredAt, f.start, f.end))
  {
    hide FormatTime, Precedes;
    where := Conjoin(clauses, HasRange(f), OccurredFrom(FormatTime(f.start)));
    where := Conjoin(where, HasRange(f), OccurredBefore(FormatTime(f.end)));
  }

  method WhereSubject(f: Filter, clauses: seq<Clause>) returns (where: seq<Clause>)
    ensures forall row :: AllHold(where, row) <==> AllHold(clauses, row) && MatchesSubject(f, row)
  {
    where := Conjoin(clauses, f.typ != "", TypeIs(f.typ));
    where := Conjoin(where, f.category != "", CategoryIs(f.category));
    where := Conjoin(where, f.note != "", NoteHas(f.note));
  }

  method WhereAmount(f: Filter, clauses: seq<Clause>) returns (where: seq<Clause>)
    ensures forall row :: AllHold(where, row) <==> AllHold(clauses, row) && MatchesAmount(f, row)
  {
    where := Conjoin(clauses, f.min > 0, AmountAtLeast(f.min));
    where := Conjoin(where, f.max > 0, AmountAtMost(f.max));
  }

  /** transactionWhere: the conjunction it builds holds of a row exactly when the filter matches it. */
  method TransactionWhere(f: Filter) returns (r: Result<seq<Clause>, Error>)
    ensures ValidateFilter(f).Some? ==> r == Err(ValidateFilter(f).value)
    ensures ValidateFilter(f).None? ==> r.Ok? && forall row :: AllHold(r.value, row) <==> Matches(f, row)
  {
    hide TextInRange;
    if !ValidScope(f.scope) {
      return Err(InvalidRequest);
    }
    var where := WhereScope(f.scope);
    if HasRange(f) && (f.start == ZERO || f.end == ZERO || !Before(f.start, f.end)) {
      return Err(BadFilter);
    }
    where := WhereTime(f, where);
    if f.typ != "" && !ValidType(f.typ) {
      return Err(BadType);
    }
    where := WhereSubject(f, where);
    if f.min < 0 || f.max < 0 || (f.max > 0 && f.min > f.max) {
      return Err(BadAmount);
    }
    where := WhereAmount(f, where);
    where := Conjoin(where, !f.includeDeleted, IsLive);
    r := Ok(where);
  }

  // ----- selecting and ordering -----

  /** The rows with ids 1 to n that match, in table order. */
  function Select(rows: Rows, n: nat, f: Filter): seq<Transaction> {
    if n == 0 then []
    else Select(rows, n - 1, f) + (if n in rows && Matches(f, rows[n]) then [rows[n]] else [])
  }

  /** SELECT ... WHERE clauses, in table order. */
  function SelectWhere(rows: Rows, n: nat, clauses: seq<Clause>): seq<Transaction> {
    if n == 0 then []
    else SelectWhere(rows, n - 1, clauses) + (if n in rows && AllHold(clauses, rows[n]) then [rows[n]] else [])
  }

  lemma {:induction false} SelectWhereIsSelect(rows: Rows, n: nat, f: Filter, clauses: seq<Clause>)
    requires forall row :: AllHold(clauses, row) <==> Matches(f, row)
    ensures SelectWhere(rows, n, clauses) == Select(rows, n, f)
    decreases n
  {
    hide Matches, AllHold;
    if n > 0 {
      SelectWhereIsSelect(rows, n - 1, f, clauses);
    }
  }

  /** ORDER BY occurred_at, id: the stored texts are compared, then the ids. */
  predicate Earlier(a: Transaction, b: Transaction) {
    var x, y := FormatTime(a.occurredAt), FormatTime(b.occurredAt);
    Precedes(x, y) || (x == y && a.id < b.id)
  }

  predicate Later(a: Transaction, b: Transaction) {
    Earlier(b, a)
  }

  lemma EarlierIsStrict()
    ensures StrictOrder(Earlier)
  {
    forall a, b
      ensures !(Earlier(a, b) && Earlier(b, a))
    {
      PrecedesTotal(FormatTime(a.occurredAt), FormatTime(b.occurredAt));
    }
    forall a, b, c | Earlier(a, b) && Earlier(b, c)
      ensures Earlier(a, c)
    {
      var x, y, z := FormatTime(a.occurredAt), FormatTime(b.occurredAt), FormatTime(c.occurredAt);
      if Precedes(x, y) && Precedes(y, z) {
        PrecedesTransitive(x, y, z);
      }
    }
  }

  /** Every listed row sits in the table under its own id, and ids ascend along the list. */
  ghost predicate InTableOrder(s: seq<Transaction>, rows: Rows, n: nat) {
    && (forall i :: 0 <= i < |s| ==> 1 <= s[i].id <= n && s[i].id in rows && rows[s[i].id] == s[i])
    && (forall i, j :: 0 <= i < j < |s| ==> s[i].id < s[j].id)
  }

  ghost predicate KeyedById(rows: Rows) {
    forall id :: id in rows ==> rows[id].id == id
  }

  lemma {:induction false} SelectionMatches(rows: Rows, n: nat, f: Filter)
    ensures forall i :: 0 <= i < |Select(rows, n, f)| ==> Matches(f, Select(rows, n, f)[i])
    decreases n
  {
    hide Matches;
    if n > 0 {
      SelectionMatches(rows, n - 1, f);
    }
  }

  lemma {:induction false} SelectInTableOrder(rows: Rows, n: nat, f: Filter)
    requires KeyedById(rows)
    ensures InTableOrder(Select(rows, n, f), rows, n)
    ensures forall id :: 1 <= id <= n && id in rows && Matches(f, rows[id]) ==> rows[id] in Select(rows, n, f)
    decreases n
  {
    hide Matches;
    if n > 0 {
      SelectInTableOrder(rows, n - 1, f);
    }
  }

  lemma SelectComparable(rows: Rows, n: nat, f: Filter)
    requires KeyedById(rows)
    ensures Comparable(Select(rows, n, f), Earlier)
  {
    SelectInTableOrder(rows, n, f);
    var s := Select(rows, n, f);
    forall i, j | 0 <= i < |s| && 0 <= j < |s| && i != j
      ensures Earlier(s[i], s[j]) || Earlier(s[j], s[i])
    {
      PrecedesTotal(FormatTime(s[i].occurredAt), FormatTime(s[j].occurredAt));
    }
  }

  // ----- Search and Export -----

  const MAX_SEARCH_ROWS := 20

  datatype SearchResult = SearchResult(transactions: seq<Transaction>, total: nat, truncated: bool)

  function ScanAll(list: seq<Transaction>): Result<seq<Transaction>, Error> {
    if list == [] then Ok([]) else
      var front :- ScanAll(list[..|list| - 1]);
      var last :- Scan(list[|list| - 1]);
      Ok(front + [last])
  }

  lemma {:induction false} ScanAllSucceeds(list: seq<Transaction>)
    ensures ScanAll(list) == Ok(list)
            || (ScanAll(list) == Err(BadTimestamp) && exists i :: 0 <= i < |list| && !ReadableRow(list[i]))
    ensures (forall i :: 0 <= i < |list| ==> ReadableRow(list[i])) ==> ScanAll(list) == Ok(list)
    decreases |list|
  {
    if list != [] {
      ScanAllSucceeds(list[..|list| - 1]);
      assert list == list[..|list| - 1] + [list[|list| - 1]];
    }
  }

  function Take<T>(s: seq<T>, k: nat): seq<T> {
    if |s| <= k then s else s[..k]
  }

  function Search(rows: Rows, n: nat, f: Filter): Result<SearchResult, Error> {
    if ValidateFilter(f).Some? then Err(ValidateFilter(f).value) else
      var total := |Select(rows, n, f)|;
      var listed :- ScanAll(Take(Sort(Select(rows, n, f), Later), MAX_SEARCH_ROWS));
      Ok(SearchResult(listed, total, total > |listed|))
  }

  function Export(rows: Rows, n: nat, f: Filter): Result<seq<Transaction>, Error> {
    if ValidateFilter(f).Some? then Err(ValidateFilter(f).value)
    else ScanAll(Sort(Select(rows, n, f), Earlier))
  }

  ghost predicate WellKept(rows: Rows) {
    KeyedById(rows) && forall id :: id in rows ==> ReadableRow(rows[id])
  }

  lemma {:induction false} SortPermutes<T>(s: seq<T>, less: (T, T) -> bool)
    ensures multiset(Sort(s, less)) == multiset(s) && |Sort(s, less)| == |s|
    decreases |s|
  {
    if s != [] {
      SortPermutes(s[1..], less);
      InsertKeepsRows(s[0], Sort(s[1..], less), less);
      assert s == [s[0]] + s[1..];
    }
    assert |multiset(Sort(s, less))| == |Sort(s, less)|;
  }

  lemma SelectionIsReadable(rows: Rows, n: nat, f: Filter, less: (Transaction, Transaction) -> bool)
    requires WellKept(rows)
    ensures forall i :: 0 <= i < |Sort(Select(rows, n, f), less)| ==> ReadableRow(Sort(Select(rows, n, f), less)[i])
  {
    var s := Select(rows, n, f);
    SelectInTableOrder(rows, n, f);
    SortPermutes(s, less);
    forall i | 0 <= i < |Sort(s, less)|
      ensures ReadableRow(Sort(s, less)[i])
    {
      assert Sort(s, less)[i] in multiset(s);
    }
  }

  lemma SortedSelection(rows: Rows, n: nat, f: Filter)
    requires KeyedById(rows)
    ensures var s, list := Select(rows, n, f), Sort(Select(rows, n, f), Earlier);
            Sorted(list, Earlier) && multiset(list) == multiset(s) && forall row :: row in list <==> row in s
  {
    hide Earlier, Matches, Sort;
    var s := Select(rows, n, f);
    SelectComparable(rows, n, f);
    EarlierIsStrict();
    SortOrders(s, Earlier);
    forall row
      ensures row in Sort(s, Earlier) <==> row in s
    {
      assert row in Sort(s, Earlier) <==> row in multiset(Sort(s, Earlier));
      assert row in s <==> row in multiset(s);
    }
  }

  /** On a kept table a valid export lists exactly the matching rows, each once, in order. */
  lemma ExportListsMatches(rows: Rows, n: nat, f: Filter)
    requires WellKept(rows) && ValidateFilter(f) == None
    ensures Export(rows, n, f).Ok?
    ensures var list := Export(rows, n, f).value;
            && Sorted(list, Earlier)
            && (forall row :: row in list <==>
                  1 <= row.id <= n && row.id in rows && rows[row.id] == row && Matches(f, row))
            && (forall i, j :: 0 <= i < j < |list| ==> list[i].id != list[j].id)
  {
    hide Matches, Sort, ValidateFilter;
    SelectInTableOrder(rows, n, f);
    SelectionMatches(rows, n, f);
    SortedSelection(rows, n, f);
    SelectionIsReadable(rows, n, f, Earlier);
    var list := Sort(Select(rows, n, f), Earlier);
    ScanAllSucceeds(list);
    forall i, j | 0 <= i < j < |list|
      ensures list[i].id != list[j].id
    {
      assert list[i] in list && list[j] in list;
      assert Earlier(list[i], list[j]);
      PrecedesTotal(FormatTime(list[i].occurredAt), FormatTime(list[j].occurredAt));
    }
  }

  /** Search shows the newest twenty of what Export lists, counts all of them, and says when it cut. */
  lemma SearchAgreesWithExport(rows: Rows, n: nat, f: Filter)
    requires WellKept(rows) && ValidateFilter(f) == None
    ensures Search(rows, n, f).Ok? && Export(rows, n, f).Ok?
    ensures var list, found := Export(rows, n, f).value, Search(rows, n, f).value;
            && found.transactions == Take(Reverse(list), MAX_SEARCH_ROWS)
            && found.total == |list|
            && (found.truncated <==> |list| > MAX_SEARCH_ROWS)
  {
    var s := Select(rows, n, f);
    SelectComparable(rows, n, f);
    EarlierIsStrict();
    SelectionIsReadable(rows, n, f, Earlier);
    SelectionIsReadable(rows, n, f, Later);
    ScanAllSucceeds(Sort(s, Earlier));
    ScanAllSucceeds(Take(Sort(s, Later), MAX_SEARCH_ROWS));
    DescendingIsReversed(s, Earlier, Later);
    SortPermutes(s, Earlier);
  }
}
