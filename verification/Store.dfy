/**
 The SQLite store as an object: its tables, the open transaction's snapshot, and
 methods that may fail at any statement or at the commit.
 */
module SqliteStore {
  import opened Wrappers
  import opened Instants
  import opened Amounts
  import opened Ledger
  import opened AuditLog
  import opened Batches
  import opened Sorting
  import opened Queries
  import opened Statistics

  class Store {
    var rows: Rows
    var sequence: nat
    var batches: map<string, Batch>
    var audit: seq<Event>
    var snapshot: Option<Tables>
    ghost var statements: nat  // how many statements were issued so far
    ghost var faults: nat  // how many of them failed

    function Current(): Tables
      reads this
    {
      Tables(rows, sequence, batches, audit)
    }

    /** No transaction is open, and the tables satisfy their invariant. */
    ghost predicate Valid()
      reads this
    {
      snapshot == None && Invariant(Current())
    }

    constructor ()
      ensures Valid() && Current() == EMPTY
    {
      rows, sequence, batches, audit, snapshot := map[], 0, map[], [], None;
      statements, faults := 0, 0;
    }

    // ----- the driver -----

    /** Whether the next statement succeeds is up to the database, the disk and the context. */
    method Statement() returns (ok: bool)
      modifies `statements, `faults
      ensures statements == old(statements) + 1
      ensures faults == if ok then old(faults) else old(faults) + 1
    {
      statements := statements + 1;
      ok := *;
      if !ok {
        faults := faults + 1;
      }
    }

    method BeginTx() returns (ok: bool)
      requires snapshot == None
      modifies `snapshot, `statements, `faults
      ensures faults == if ok then old(faults) else old(faults) + 1
      ensures snapshot == if ok then Some(Current()) else None
    {
      ok := Statement();
      if ok {
        snapshot := Some(Current());
      }
    }

    /** Restores the tables as they were when the transaction began; after a commit it does nothing. */
    method Rollback()
      modifies `rows, `sequence, `batches, `audit, `snapshot
      ensures snapshot == None
      ensures Current() == if old(snapshot).Some? then old(snapshot).value else old(Current())
    {
      match snapshot {
        case Some(t) =>
          rows, sequence, batches, audit, snapshot := t.rows, t.sequence, t.batches, t.audit, None;
        case None =>
      }
    }

    method Commit() returns (ok: bool)
      modifies `snapshot, `statements, `faults
      ensures faults == if ok then old(faults) else old(faults) + 1
      ensures snapshot == if ok then None else old(snapshot)
    {
      ok := Statement();
      if ok {
        snapshot := None;
      }
    }

    // ----- mutations -----

    /** UPDATE transactions SET ... WHERE id = ?, with AND deleted_at IS NULL when live is set. */
    method UpdateRow(id: int, live: bool, row: Transaction) returns (ok: bool)
      modifies `rows, `statements, `faults
      ensures faults == if ok then old(faults) else old(faults) + 1
      ensures rows == if ok && id in old(rows) && (live ==> old(rows)[id].deletedAt == None) then old(rows)[id := row]
              else old(rows)
    {
      ok := Statement();
      if ok && id in rows && (live ==> rows[id].deletedAt == None) {
        rows := rows[id := row];
      }
    }

    /** insertAudit */
    method InsertAudit(request: RequestContext, id: int, action: Kind, before: Option<Transaction>,
                       after: Option<Input>)
      returns (ok: bool)
      modifies `audit, `statements, `faults
      ensures faults == if ok then old(faults) else old(faults) + 1
      ensures ok ==> Current() == Audited(old(Current()), request, id, action, before, after)
      ensures !ok ==> audit == old(audit)
    {
      ok := Statement();
      if ok {
        audit := audit + [Event(id, request.scope, request.source, action, request.receivedAt, before, after)];
      }
    }

    /** getScopedTransaction, deleted rows included. */
    method ReadScopedRow(request: RequestContext, id: int) returns (r: Result<Transaction, Error>)
      modifies `statements, `faults
      ensures faults >= old(faults)
      ensures r == if faults == old(faults) then ReadScoped(rows, request, id) else Err(StatementFailed)
    {
      var ok := Statement();
      if !ok {
        return Err(StatementFailed);
      }
      r := ReadScoped(rows, request, id);
    }

    /** applyMutation, inside an open transaction. */
    method Execute(request: RequestContext, m: Mutation) returns (r: Result<int, Error>)
      modifies `rows, `sequence, `audit, `statements, `faults
      ensures faults >= old(faults) && (faults > old(faults) <==> r == Err(StatementFailed))
      ensures r.Ok? ==> ApplyMutation(old(Current()), request, m) == Ok((Current(), r.value))
      ensures r.Err? ==> r.error == StatementFailed || ApplyMutation(old(Current()), request, m) == Err(r.error)
    {
      var at := request.receivedAt;
      if m.kind == Create {
        var ok := Statement();
        if !ok {
          return Err(StatementFailed);
        }
        var id := sequence + 1;
        rows, sequence := rows[id := CreatedRow(id, request, m.input)], id;
        ok := InsertAudit(request, id, Create, None, Some(m.input));
        return if ok then Ok(id) else Err(StatementFailed);
      }
      if m.kind.Unknown? {
        return Err(UnsupportedKind);
      }
      var read := ReadScopedRow(request, m.id);
      if read.Err? {
        return Err(read.error);
      }
      var before := read.value;
      var ok: bool;
      match m.kind {
        case Update =>
          if before.deletedAt.Some? {
            return Err(UpdatesDeleted);
          }
          ok := UpdateRow(m.id, true, UpdatedRow(before, m.input, at));
        case Delete =>
          if before.deletedAt.Some? {
            return Err(AlreadyDeleted);
          }
          ok := UpdateRow(m.id, true, DeletedRow(before, at));
        case Restore =>
          if before.deletedAt.None? {
            return Err(NotDeleted);
          }
          ok := UpdateRow(m.id, false, RestoredRow(before, at));
      }
      if !ok {
        return Err(StatementFailed);
      }
      ok := InsertAudit(request, m.id, m.kind, Some(before), if m.kind == Update then Some(m.input) else None);
      return if ok then Ok(m.id) else Err(StatementFailed);
    }

    /** getTransactionsByIDs */
    method ReadByIDs(ids: seq<int>) returns (r: Result<seq<Transaction>, Error>)
      modifies `statements, `faults
      ensures faults >= old(faults)
      ensures r == if faults == old(faults) then ReadAll(rows, ids) else Err(StatementFailed)
    {
      var result := [];
      var i := 0;
      while i < |ids|
        invariant 0 <= i <= |ids|
        invariant faults == old(faults)
        invariant ReadAll(rows, ids[..i]) == Ok(result)
      {
        var ok := Statement();
        if !ok {
          return Err(StatementFailed);
        }
        assert ids[..i + 1][..i] == ids[..i];
        if ids[i] !in rows {
          FirstReadErrorStands(rows, ids, i + 1);
          return Err(NotFound);
        }
        var scanned := Scan(rows[ids[i]]);
        if scanned.Err? {
          FirstReadErrorStands(rows, ids, i + 1);
          return Err(scanned.error);
        }
        result := result + [scanned.value];
        i := i + 1;
      }
      assert ids[..i] == ids;
      r := Ok(result);
    }

    /** The checks before BeginTx: the request, an empty batch, then each mutation in order. */
    method Precheck(request: RequestContext, ms: seq<Mutation>) returns (r: Option<Error>)
      ensures r == CheckBatch(request, ms)
    {
      if !ValidRequest(request) {
        return Some(InvalidRequest);
      }
      if |ms| == 0 {
        return Some(EmptyBatch);
      }
      var i := 0;
      while i < |ms|
        invariant 0 <= i <= |ms|
        invariant ValidateAll(ms) == ValidateAll(ms[i..])
      {
        var bad := ValidateMutation(ms[i]);
        if bad.Some? {
          return bad;
        }
        i := i + 1;
      }
      r := None;
    }

    /** The mutation loop: applies every mutation in order and collects the ids. */
    method ExecuteAll(request: RequestContext, ms: seq<Mutation>) returns (r: Result<seq<int>, Error>)
      modifies `rows, `sequence, `audit, `statements, `faults
      ensures faults >= old(faults) && (faults > old(faults) <==> r == Err(StatementFailed))
      ensures r.Ok? ==> ApplyAll(old(Current()), request, ms) == Ok((Current(), r.value))
      ensures r.Err? ==> r.error == StatementFailed || ApplyAll(old(Current()), request, ms) == Err(r.error)
    {
      var ids := [];
      var i := 0;
      while i < |ms|
        invariant 0 <= i <= |ms|
        invariant batches == old(batches) && faults == old(faults)
        invariant ApplyAll(old(Current()), request, ms[..i]) == Ok((Current(), ids))
      {
        var executed := Execute(request, ms[i]);
        assert ms[..i + 1][..i] == ms[..i];
        if executed.Err? {
          if executed.error != StatementFailed {
            FirstErrorStands(old(Current()), request, ms, i + 1);
          }
          return Err(executed.error);
        }
        ids := ids + [executed.value];
        i := i + 1;
      }
      assert ms[..i] == ms;
      r := Ok(ids);
    }

    /**
     ApplyBatch: all of it or nothing. Unless a statement fails, the answer and the new tables are
     those of the function Batches.ApplyBatch; on any error the tables are as they were.
     */
    method ApplyBatch(request: RequestContext, ms: seq<Mutation>) returns (r: Result<seq<Transaction>, Error>)
      requires Valid()
      modifies this
      ensures Valid()
      ensures faults >= old(faults) && (faults > old(faults) <==> r == Err(StatementFailed))
      ensures var spec := Batches.ApplyBatch(old(Current()), request, ms);
              if r.Ok? then spec == Ok((Current(), r.value))
              else Current() == old(Current()) && (r.error == StatementFailed || spec == Err(r.error))
    {
      hide Invariant, Batches.ApplyMutation, ApplyAll, ReadAll;
      var bad := Precheck(request, ms);
      if bad.Some? {
        return Err(bad.value);
      }
      var ok := BeginTx();
      if !ok {
        return Err(StatementFailed);
      }
      ok := Statement();
      if !ok {
        Rollback();
        return Err(StatementFailed);
      }
      if request.source in batches {
        r := AnswerFromRecord(request);
        return;
      }
      var executed := ExecuteAll(request, ms);
      if executed.Err? {
        Rollback();
        return Err(executed.error);
      }
      ok := Statement();
      if !ok {
        Rollback();
        return Err(StatementFailed);
      }
      batches := batches[request.source := Batch(request.scope, request.receivedAt, executed.value)];
      r := ReadByIDs(executed.value);
      if r.Err? {
        Rollback();
        return;
      }
      ok := Commit();
      if !ok {
        Rollback();
        return Err(StatementFailed);
      }
      BatchKeepsInvariant(old(Current()), request, ms);
    }

    /** The source message already has a batch: check its context and read its rows back. */
    method AnswerFromRecord(request: RequestContext) returns (r: Result<seq<Transaction>, Error>)
      requires snapshot == Some(Current()) && request.source in batches
      modifies this
      ensures snapshot == None && Current() == old(Current())
      ensures faults >= old(faults) && (faults > old(faults) <==> r == Err(StatementFailed))
      ensures if r.Ok? then Repeat(Current(), request) == Ok((Current(), r.value))
              else r.error == StatementFailed || Repeat(Current(), request) == Err(r.error)
    {
      if batches[request.source].scope != request.scope {
        Rollback();
        return Err(WrongContext);
      }
      r := ReadByIDs(batches[request.source].ids);
      if r.Err? {
        Rollback();
        return;
      }
      var ok := Commit();
      if !ok {
        Rollback();
        r := Err(StatementFailed);
      }
    }

    // ----- queries -----

    /** Get: one live row of the requester's own. */
    method Get(request: RequestContext, id: int) returns (r: Result<Transaction, Error>)
      modifies `statements, `faults
      ensures r ==
              if faults > old(faults) then Err(StatementFailed)
              else if !ValidRequest(request) then Err(InvalidRequest)
              else if id in rows && rows[id].scope == request.scope && rows[id].deletedAt == None then Scan(rows[id])
              else Err(NotFound)
    {
      if !ValidRequest(request) {
        return Err(InvalidRequest);
      }
      var ok := Statement();
      if !ok {
        return Err(StatementFailed);
      }
      if id in rows && rows[id].scope == request.scope && rows[id].deletedAt == None {
        return Scan(rows[id]);
      }
      r := Err(NotFound);
    }

    /** scanTransactions */
    method ScanTransactions(list: seq<Transaction>) returns (r: Result<seq<Transaction>, Error>)
      modifies `statements, `faults
      ensures faults >= old(faults)
      ensures r == if faults == old(faults) then ScanAll(list) else Err(StatementFailed)
    {
      var result := [];
      var i := 0;
      while i < |list|
        invariant 0 <= i <= |list|
        invariant faults == old(faults)
        invariant ScanAll(list[..i]) == Ok(result)
      {
        assert list[..i + 1][..i] == list[..i];
        var scanned := Scan(list[i]);
        if scanned.Err? {
          FirstScanErrorStands(list, i + 1);
          return Err(scanned.error);
        }
        result := result + [scanned.value];
        i := i + 1;
      }
      assert list[..i] == list;
      var ok := Statement();
      r := if ok then Ok(result) else Err(StatementFailed);
    }

    method Search(f: Filter) returns (r: Result<SearchResult, Error>)
      modifies `statements, `faults
      ensures faults >= old(faults)
      ensures r == if faults == old(faults) then Queries.Search(rows, sequence, f) else Err(StatementFailed)
    {
      hide Matches, AllHold, Sort, Later;
      var where := TransactionWhere(f);
      if where.Err? {
        return Err(where.error);
      }
      SelectWhereIsSelect(rows, sequence, f, where.value);
      var ok := Statement();
      if !ok {
        return Err(StatementFailed);
      }
      var total := |SelectWhere(rows, sequence, where.value)|;
      ok := Statement();
      if !ok {
        return Err(StatementFailed);
      }
      var listed := ScanTransactions(Take(Sort(SelectWhere(rows, sequence, where.value), Later), MAX_SEARCH_ROWS));
      if listed.Err? {
        return Err(listed.error);
      }
      r := Ok(SearchResult(listed.value, total, total > |listed.value|));
    }

    method Export(f: Filter) returns (r: Result<seq<Transaction>, Error>)
      modifies `statements, `faults
      ensures faults >= old(faults)
      ensures r == if faults == old(faults) then Queries.Export(rows, sequence, f) else Err(StatementFailed)
    {
      hide Matches, AllHold, Sort, Earlier;
      var where := TransactionWhere(f);
      if where.Err? {
        return Err(where.error);
      }
      SelectWhereIsSelect(rows, sequence, f, where.value);
      var ok := Statement();
      if !ok {
        return Err(StatementFailed);
      }
      r := ScanTransactions(Sort(SelectWhere(rows, sequence, where.value), Earlier));
    }

    /** The loop of statisticsQuery that appends one group for every result row. */
    method AppendGroups(s: seq<Transaction>, key: KeyOf) returns (groups: seq<Group>)
      ensures groups == GroupBy(s, key)
    {
      hide Tally, Only, Keys;
      var ks := Keys(s, key);
      groups := [];
      var i := 0;
      while i < |ks|
        invariant 0 <= i <= |ks| && |groups| == i
        invariant forall j :: 0 <= j < i ==> groups[j] == GroupFor(s, key, ks[j])
      {
        groups := groups + [GroupFor(s, key, ks[i])];
        i := i + 1;
      }
    }

    /** statisticsQuery */
    method StatisticsQuery(where: seq<Clause>, group: string) returns (r: Result<(Totals, seq<Group>), Error>)
      modifies `statements, `faults
      ensures faults >= old(faults)
      ensures statements <= old(statements) + if group == "total" then 1 else 2
      ensures var s := SelectWhere(rows, sequence, where);
              r == if faults > old(faults) then Err(StatementFailed)
                   else if Fits(Tally(s)) then Ok((Tally(s), GroupsOf(s, group)))
                   else Err(SumOverflow)
    {
      var ok := Statement();
      if !ok {
        return Err(StatementFailed);
      }
      var s := SelectWhere(rows, sequence, where);
      var totals := Tally(s);
      if !Fits(totals) {
        return Err(SumOverflow);
      }
      if group == "total" {
        return Ok((totals, []));
      }
      ok := Statement();
      if !ok {
        return Err(StatementFailed);
      }
      var groups: seq<Group> := [];
      if group == "day" {
        groups := AppendGroups(s, DayOf);
      } else if group == "category" {
        groups := AppendGroups(s, CategoryOf);
      } else if group == "type" {
        groups := AppendGroups(s, TypeOf);
      }
      r := Ok((totals, groups));
    }

    method Statistics(sf: StatisticsFilter) returns (r: Result<Report, Error>)
      modifies `statements, `faults
      ensures faults >= old(faults)
      ensures r == if faults == old(faults) then Summarize(rows, sequence, sf) else Err(StatementFailed)
    {
      hide Tally, GroupsOf, Matches, AllHold, GroupName, ValidRange, ValidateFilter, Fits, Compare;
      if ValidateStatistics(sf).Some? {
        return Err(ValidateStatistics(sf).value);
      }
      var f := RowFilter(sf, sf.start, sf.end);
      var where := TransactionWhere(f);
      SelectWhereIsSelect(rows, sequence, f, where.value);
      var main := StatisticsQuery(where.value, GroupName(sf));
      if main.Err? {
        return Err(main.error);
      }
      var report := Report(GroupName(sf), main.value.0, Net(main.value.0), main.value.1, None);
      if !Compares(sf) {
        return Ok(report);
      }
      if !ValidRange(sf.compareStart, sf.compareEnd) {
        return Err(BadFilter);
      }
      var g := RowFilter(sf, sf.compareStart, sf.compareEnd);
      ComparisonFilterIsValid(sf);
      var compareWhere := TransactionWhere(g);
      SelectWhereIsSelect(rows, sequence, g, compareWhere.value);
      var other := StatisticsQuery(compareWhere.value, "total");
      if other.Err? {
        return Err(other.error);
      }
      r := Ok(report.(comparison := Some(Compare(report.net, sf.compareStart, sf.compareEnd, other.value.0))));
    }
  }

  lemma ComparisonFilterIsValid(sf: StatisticsFilter)
    requires ValidateStatistics(sf) == None && ValidRange(sf.compareStart, sf.compareEnd)
    ensures ValidateFilter(RowFilter(sf, sf.compareStart, sf.compareEnd)) == None
  {
  }

  lemma {:induction false} FirstScanErrorStands(list: seq<Transaction>, i: nat)
    requires i <= |list| && ScanAll(list[..i]).Err?
    ensures ScanAll(list) == Err(ScanAll(list[..i]).error)
    decreases |list|
  {
    if i == |list| {
      assert list[..i] == list;
    } else {
      assert list[..|list| - 1][..i] == list[..i];
      FirstScanErrorStands(list[..|list| - 1], i);
    }
  }
}
