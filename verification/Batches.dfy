/**
 Mutation batches as functions on the ledger's tables, and what every run of
 batches keeps: the audit log describes the table, batches are all or nothing,
 and a source message that succeeded is answered from its record ever after.
 */
module Batches {
  import opened Wrappers
  import opened Text
  import opened Instants
  import opened Amounts
  import opened Ledger
  import opened AuditLog

  datatype Batch = Batch(scope: Scope, createdAt: Instant, ids: seq<int>)

  /** The transactions table with its AUTOINCREMENT counter, mutation_batches and audit_events. */
  datatype Tables = Tables(rows: Rows, sequence: nat, batches: map<string, Batch>, audit: seq<Event>)

  const EMPTY := Tables(map[], 0, map[], [])

  // ----- one mutation -----

  /** getScopedTransaction, deleted rows included. */
  function ReadScoped(rows: Rows, request: RequestContext, id: int): Result<Transaction, Error> {
    if id in rows && rows[id].scope == request.scope then Scan(rows[id]) else Err(NotFound)
  }

  function Audited(t: Tables, request: RequestContext, id: int, action: Kind,
                   before: Option<Transaction>, after: Option<Input>): Tables
  {
    t.(audit := t.audit + [Event(id, request.scope, request.source, action, request.receivedAt, before, after)])
  }

  function ApplyMutation(t: Tables, request: RequestContext, m: Mutation): Result<(Tables, int), Error> {
    var at := request.receivedAt;
    match m.kind
    case Create =>
      var id := t.sequence + 1;
      var t1 := t.(rows := t.rows[id := CreatedRow(id, request, m.input)], sequence := id);
      Ok((Audited(t1, request, id, Create, None, Some(m.input)), id))
    case Update =>
      var before :- ReadScoped(t.rows, request, m.id);
      if before.deletedAt.Some? then Err(UpdatesDeleted) else
        var t1 := t.(rows := t.rows[m.id := UpdatedRow(before, m.input, at)]);
        Ok((Audited(t1, request, m.id, Update, Some(before), Some(m.input)), m.id))
    case Delete =>
      var before :- ReadScoped(t.rows, request, m.id);
      if before.deletedAt.Some? then Err(AlreadyDeleted) else
        var t1 := t.(rows := t.rows[m.id := DeletedRow(before, at)]);
        Ok((Audited(t1, request, m.id, Delete, Some(before), None), m.id))
    case Restore =>
      var before :- ReadScoped(t.rows, request, m.id);
      if before.deletedAt.None? then Err(NotDeleted) else
        var t1 := t.(rows := t.rows[m.id := RestoredRow(before, at)]);
        Ok((Audited(t1, request, m.id, Restore, Some(before), None), m.id))
    case Unknown(_) => Err(UnsupportedKind)
  }

  // ----- a batch -----

  function ApplyAll(t: Tables, request: RequestContext, ms: seq<Mutation>): Result<(Tables, seq<int>), Error> {
    if ms == [] then Ok((t, [])) else
      var front :- ApplyAll(t, request, ms[..|ms| - 1]);
      var last :- ApplyMutation(front.0, request, ms[|ms| - 1]);
      Ok((last.0, front.1 + [last.1]))
  }

  /** getTransactionsByIDs, deleted rows included. */
  function ReadAll(rows: Rows, ids: seq<int>): (r: Result<seq<Transaction>, Error>)
    ensures r.Err? ==> r.error == NotFound || r.error == BadTimestamp
  {
    if ids == [] then Ok([]) else
      var front :- ReadAll(rows, ids[..|ids| - 1]);
      var id := ids[|ids| - 1];
      if id !in rows then Err(NotFound) else
        var last :- Scan(rows[id]);
        Ok(front + [last])
  }

  /** The checks made before the transaction begins. */
  function CheckBatch(request: RequestContext, ms: seq<Mutation>): Option<Error> {
    if !ValidRequest(request) then Some(InvalidRequest)
    else if ms == [] then Some(EmptyBatch)
    else ValidateAll(ms)
  }

  /** A source message that already has a batch. */
  function Repeat(t: Tables, request: RequestContext): Result<(Tables, seq<Transaction>), Error>
    requires request.source in t.batches
  {
    var batch := t.batches[request.source];
    if batch.scope != request.scope then Err(WrongContext) else
      var rows :- ReadAll(t.rows, batch.ids);
      Ok((t, rows))
  }

  function Recorded(t: Tables, request: RequestContext, ids: seq<int>): Tables {
    t.(batches := t.batches[request.source := Batch(request.scope, request.receivedAt, ids)])
  }

  /** A source message seen for the first time. */
  function Perform(t: Tables, request: RequestContext, ms: seq<Mutation>): Result<(Tables, seq<Transaction>), Error> {
    var applied :- ApplyAll(t, request, ms);
    var rows :- ReadAll(applied.0.rows, applied.1);
    Ok((Recorded(applied.0, request, applied.1), rows))
  }

  /** ApplyBatch when no statement fails: the new tables and the rows it returns. */
  function ApplyBatch(t: Tables, request: RequestContext, ms: seq<Mutation>)
    : Result<(Tables, seq<Transaction>), Error>
  {
    if CheckBatch(request, ms).Some? then Err(CheckBatch(request, ms).value)
    else if request.source in t.batches then Repeat(t, request)
    else Perform(t, request, ms)
  }

  lemma {:induction false} FirstErrorStands(t: Tables, request: RequestContext, ms: seq<Mutation>, i: nat)
    requires i <= |ms| && ApplyAll(t, request, ms[..i]).Err?
    ensures ApplyAll(t, request, ms) == Err(ApplyAll(t, request, ms[..i]).error)
    decreases |ms|
  {
    hide ApplyMutation;
    if i == |ms| {
      assert ms[..i] == ms;
    } else {
      assert ms[..|ms| - 1][..i] == ms[..i];
      FirstErrorStands(t, request, ms[..|ms| - 1], i);
    }
  }

  lemma {:induction false} FirstReadErrorStands(rows: Rows, ids: seq<int>, i: nat)
    requires i <= |ids| && ReadAll(rows, ids[..i]).Err?
    ensures ReadAll(rows, ids) == Err(ReadAll(rows, ids[..i]).error)
    decreases |ids|
  {
    if i == |ids| {
      assert ids[..i] == ids;
    } else {
      assert ids[..|ids| - 1][..i] == ids[..i];
      FirstReadErrorStands(rows, ids[..|ids| - 1], i);
    }
  }

  // ----- what the tables always satisfy -----

  /** The audit log is a legal history of exactly this table. */
  ghost predicate Logged(t: Tables) {
    t.rows == Replay(t.audit) && t.sequence == Creates(t.audit) && LegalLog(t.audit)
  }

  ghost predicate BatchesSound(t: Tables) {
    forall s :: s in t.batches ==> ScopedIds(t.rows, t.batches[s].scope, t.batches[s].ids)
  }

  ghost predicate ScopedIds(rows: Rows, scope: Scope, ids: seq<int>) {
    forall k :: 0 <= k < |ids| ==> ids[k] in rows && rows[ids[k]].scope == scope
  }

  ghost predicate AllReadable(rows: Rows) {
    forall id :: id in rows ==> ReadableRow(rows[id])
  }

  ghost predicate Invariant(t: Tables) {
    Logged(t) && BatchesSound(t) && AllReadable(t.rows)
  }

  /** Rows stay, and never change scope or creation data. */
  ghost predicate Extends(rows: Rows, rows': Rows) {
    forall id :: id in rows ==> id in rows' && rows'[id].scope == rows[id].scope
                                && rows'[id].source == rows[id].source && rows'[id].createdAt == rows[id].createdAt
  }

  /** The event one mutation of this request must leave behind. */
  predicate Records(e: Event, request: RequestContext, m: Mutation, id: int) {
    && e.id == id && e.scope == request.scope && e.source == request.source
    && e.at == request.receivedAt && e.action == m.kind
    && (m.kind != Create ==> id == m.id)
    && e.after == (if m.kind == Create || m.kind == Update then Some(m.input) else None)
  }

  lemma LoggedStep(t: Tables, t': Tables, e: Event)
    requires Logged(t) && Legal(t.rows, t.sequence, e)
    requires t'.audit == t.audit + [e] && t'.rows == ReplayEvent(t.rows, e)
    requires t'.sequence == if e.action == Create then t.sequence + 1 else t.sequence
    ensures Logged(t')
  {
    assert t'.audit[..|t'.audit| - 1] == t.audit;
  }

  /** What one mutation leaves behind: one legal event, and no row touched but its own. */
  ghost predicate Stepped(t: Tables, request: RequestContext, m: Mutation, t': Tables, id: int) {
    && Logged(t') && t'.batches == t.batches
    && |t'.audit| == |t.audit| + 1 && t'.audit[..|t.audit|] == t.audit
    && Records(t'.audit[|t.audit|], request, m, id)
    && id in t'.rows && t'.rows[id].scope == request.scope
    && (forall j :: j != id ==> ImageOf(t'.rows, j) == ImageOf(t.rows, j))
    && Extends(t.rows, t'.rows)
    && (id in t.rows ==> t.rows[id].scope == request.scope)
  }

  /** Ids never run ahead of the counter. */
  ghost predicate Counted(t: Tables) {
    forall id :: id in t.rows ==> 1 <= id <= t.sequence
  }

  /** The event is the one the audit log needs next, and the row is what replaying it gives. */
  lemma MutationIsLegal(t: Tables, request: RequestContext, m: Mutation)
    requires SoundRows(t.rows, t.sequence) && ValidateMutation(m) == None && ApplyMutation(t, request, m).Ok?
    ensures var t' := ApplyMutation(t, request, m).value.0;
            && |t'.audit| == |t.audit| + 1
            && var e := t'.audit[|t.audit|];
            && t'.audit == t.audit + [e] && Legal(t.rows, t.sequence, e) && t'.rows == ReplayEvent(t.rows, e)
            && t'.sequence == if e.action == Create then t.sequence + 1 else t.sequence
  {
    hide FourDigitYear, ValidateInput;
  }

  /** Only the mutation's own row changes, and its event is the last one. */
  lemma MutationFrame(t: Tables, request: RequestContext, m: Mutation)
    requires Counted(t) && ApplyMutation(t, request, m).Ok?
    ensures var (t', id) := ApplyMutation(t, request, m).value;
            && t'.batches == t.batches && |t'.audit| == |t.audit| + 1 && t'.audit[..|t.audit|] == t.audit
            && Records(t'.audit[|t.audit|], request, m, id)
            && id in t'.rows && t'.rows[id].scope == request.scope
            && (forall j :: j != id ==> ImageOf(t'.rows, j) == ImageOf(t.rows, j))
            && Extends(t.rows, t'.rows) && (id in t.rows ==> t.rows[id].scope == request.scope)
  {
    hide ReadableRow;
  }

  lemma MutationIsLogged(t: Tables, request: RequestContext, m: Mutation)
    requires Logged(t) && ValidateMutation(m) == None && ApplyMutation(t, request, m).Ok?
    ensures var (t', id) := ApplyMutation(t, request, m).value; Stepped(t, request, m, t', id)
  {
    hide LegalLog, Replay, Creates, Legal, ReplayEvent, ValidateInput, ApplyMutation, Extends, ImageOf, Records;
    var (t', id) := ApplyMutation(t, request, m).value;
    ReplayIsSound(t.audit);
    MutationFrame(t, request, m);
    MutationIsLegal(t, request, m);
    LoggedStep(t, t', t'.audit[|t.audit|]);
  }

  /** What a whole batch leaves behind: one event per mutation, other rows untouched. */
  ghost predicate Applied(t: Tables, request: RequestContext, ms: seq<Mutation>, t': Tables, ids: seq<int>) {
    && Logged(t') && t'.batches == t.batches && Extends(t.rows, t'.rows)
    && |ids| == |ms| && ScopedIds(t'.rows, request.scope, ids)
    && |t'.audit| == |t.audit| + |ms| && t'.audit[..|t.audit|] == t.audit
    && (forall k :: 0 <= k < |ms| ==> Records(t'.audit[|t.audit| + k], request, ms[k], ids[k]))
    && (forall j :: j !in ids ==> ImageOf(t'.rows, j) == ImageOf(t.rows, j))
    && (forall j :: j in ids && j in t.rows ==> t.rows[j].scope == request.scope)
  }

  ghost predicate AllValid(ms: seq<Mutation>) {
    forall i :: 0 <= i < |ms| ==> ValidateMutation(ms[i]) == None
  }

  lemma {:induction false} BatchIsLogged(t: Tables, request: RequestContext, ms: seq<Mutation>)
    requires Logged(t) && AllValid(ms)
    requires ApplyAll(t, request, ms).Ok?
    ensures var (t', ids) := ApplyAll(t, request, ms).value; Applied(t, request, ms, t', ids)
    decreases |ms|
  {
    if ms == [] {
      assert t.audit[..|t.audit|] == t.audit;
    } else {
      var front, m := ms[..|ms| - 1], ms[|ms| - 1];
      var r1 := ApplyAll(t, request, front);
      var r2 := ApplyMutation(r1.value.0, request, m);
      assert ApplyAll(t, request, ms) == Ok((r2.value.0, r1.value.1 + [r2.value.1]));
      assert ms == front + [m];
      hide ApplyAll, ApplyMutation, Stepped, Applied;
      BatchIsLogged(t, request, front);
      assert Logged(r1.value.0) by {
        AppliedIsLogged(t, request, front, r1.value.0, r1.value.1);
      }
      MutationIsLogged(r1.value.0, request, m);
      AppendOne(t, request, front, r1.value.0, r1.value.1, m, r2.value.0, r2.value.1);
    }
  }

  lemma AppliedIsLogged(t: Tables, request: RequestContext, ms: seq<Mutation>, t': Tables, ids: seq<int>)
    requires Applied(t, request, ms, t', ids)
    ensures Logged(t')
  {
  }

  lemma ScopedIdsExtend(rows: Rows, rows': Rows, scope: Scope, ids: seq<int>)
    requires ScopedIds(rows, scope, ids) && Extends(rows, rows')
    ensures ScopedIds(rows', scope, ids)
  {
    forall k | 0 <= k < |ids|
      ensures ids[k] in rows' && rows'[ids[k]].scope == scope
    {
      var id := ids[k];
      assert id in rows;
    }
  }

  lemma AppendOne(t: Tables, request: RequestContext, front: seq<Mutation>, t1: Tables, ids1: seq<int>,
                  m: Mutation, t2: Tables, id: int)
    requires Applied(t, request, front, t1, ids1) && Stepped(t1, request, m, t2, id)
    ensures Applied(t, request, front + [m], t2, ids1 + [id])
  {
    hide Logged, Records;
    AppendEvents(t.audit, t1.audit, t2.audit);
    ExtendsTransitive(t.rows, t1.rows, t2.rows);
    ScopedIdsExtend(t1.rows, t2.rows, request.scope, ids1);
    assert forall j :: j in ids1 + [id] <==> j in ids1 || j == id;
  }

  lemma AppendEvents(a: seq<Event>, b: seq<Event>, c: seq<Event>)
    requires |a| <= |b| <= |c| && b[..|a|] == a && c[..|b|] == b
    ensures c[..|a|] == a && forall k :: 0 <= k < |b| ==> c[k] == b[k]
  {
    assert forall k :: 0 <= k < |b| ==> c[k] == c[..|b|][k];
    assert c[..|a|] == c[..|b|][..|a|];
  }

  lemma ExtendsTransitive(rows: Rows, rows1: Rows, rows2: Rows)
    requires Extends(rows, rows1) && Extends(rows1, rows2)
    ensures Extends(rows, rows2)
  {
  }

  lemma {:induction false} ReadAllSucceeds(rows: Rows, ids: seq<int>)
    ensures ReadAll(rows, ids).Ok? <==> forall k :: 0 <= k < |ids| ==> ids[k] in rows && ReadableRow(rows[ids[k]])
    ensures ReadAll(rows, ids).Ok? ==>
            && |ReadAll(rows, ids).value| == |ids|
            && forall k :: 0 <= k < |ids| ==> ids[k] in rows && ReadAll(rows, ids).value[k] == rows[ids[k]]
    decreases |ids|
  {
    if ids != [] {
      ReadAllSucceeds(rows, ids[..|ids| - 1]);
      assert ids == ids[..|ids| - 1] + [ids[|ids| - 1]];
    }
  }

  lemma ReadBackMeansReadable(t: Tables, request: RequestContext, ms: seq<Mutation>, t': Tables, ids: seq<int>)
    requires Applied(t, request, ms, t', ids) && AllReadable(t.rows) && ReadAll(t'.rows, ids).Ok?
    ensures AllReadable(t'.rows)
  {
    ReadAllSucceeds(t'.rows, ids);
    forall id | id in t'.rows
      ensures ReadableRow(t'.rows[id])
    {
      assert id !in ids ==> ImageOf(t'.rows, id) == ImageOf(t.rows, id);
    }
  }

  lemma RecordedBatchesStaySound(t: Tables, request: RequestContext, ms: seq<Mutation>, t': Tables, ids: seq<int>)
    requires Applied(t, request, ms, t', ids) && BatchesSound(t)
    ensures BatchesSound(Recorded(t', request, ids))
  {
    var t2 := Recorded(t', request, ids);
    forall s | s in t2.batches
      ensures ScopedIds(t2.rows, t2.batches[s].scope, t2.batches[s].ids)
    {
      if s != request.source {
        ScopedIdsExtend(t.rows, t2.rows, t.batches[s].scope, t.batches[s].ids);
      }
    }
  }

  /** Rows, events and recorded batches that exist stay as they are or grow. */
  ghost predicate Grows(t: Tables, t': Tables) {
    && Extends(t.rows, t'.rows)
    && |t.audit| <= |t'.audit| && t'.audit[..|t.audit|] == t.audit
    && forall s :: s in t.batches ==> s in t'.batches && t'.batches[s] == t.batches[s]
  }

  lemma GrowsTransitive(t: Tables, t1: Tables, t2: Tables)
    requires Grows(t, t1) && Grows(t1, t2)
    ensures Grows(t, t2)
  {
    assert t2.audit[..|t.audit|] == t2.audit[..|t1.audit|][..|t.audit|];
  }

  lemma GrowsReflexive(t: Tables)
    ensures Grows(t, t)
  {
    assert t.audit[..|t.audit|] == t.audit;
  }

  /** The first use of a source message applies every mutation, in order, and is recorded. */
  lemma FirstUseAppliesAll(t: Tables, request: RequestContext, ms: seq<Mutation>)
    requires Invariant(t) && request.source !in t.batches && ApplyBatch(t, request, ms).Ok?
    ensures var (t', result) := ApplyBatch(t, request, ms).value;
            && request.source in t'.batches && t'.batches[request.source].scope == request.scope
            && var ids := t'.batches[request.source].ids;
            && t'.batches == t.batches[request.source := Batch(request.scope, request.receivedAt, ids)]
            && Applied(t, request, ms, t'.(batches := t.batches), ids)
            && t' == Recorded(t'.(batches := t.batches), request, ids)
            && ReadAll(t'.rows, ids) == Ok(result)
  {
    ValidateAllSound(ms);
    BatchIsLogged(t, request, ms);
  }

  /** Every successful batch keeps the invariant, and the tables only grow. */
  lemma BatchKeepsInvariant(t: Tables, request: RequestContext, ms: seq<Mutation>)
    requires Invariant(t) && ApplyBatch(t, request, ms).Ok?
    ensures var t' := ApplyBatch(t, request, ms).value.0; Invariant(t') && Grows(t, t')
  {
    if request.source in t.batches {
      GrowsReflexive(t);
    } else {
      FirstUseAppliesAll(t, request, ms);
      var t' := ApplyBatch(t, request, ms).value.0;
      var t1, ids := t'.(batches := t.batches), t'.batches[request.source].ids;
      ReadBackMeansReadable(t, request, ms, t1, ids);
      RecordedBatchesStaySound(t, request, ms, t1, ids);
    }
  }

  lemma RecordedBatchReads(t: Tables, source: string)
    requires Invariant(t) && source in t.batches
    ensures var ids := t.batches[source].ids;
            && ReadAll(t.rows, ids).Ok?
            && var result := ReadAll(t.rows, ids).value;
            && |result| == |ids|
            && forall k :: 0 <= k < |ids| ==> ids[k] in t.rows && result[k] == t.rows[ids[k]] && result[k].id == ids[k]
  {
    var ids := t.batches[source].ids;
    assert ScopedIds(t.rows, t.batches[source].scope, ids);
    forall k | 0 <= k < |ids|
      ensures ids[k] in t.rows && ReadableRow(t.rows[ids[k]]) && t.rows[ids[k]].id == ids[k]
    {
      var id := ids[k];
      assert id in t.rows;
      ReplayIsSound(t.audit);
    }
    ReadAllSucceeds(t.rows, ids);
  }

  /** A later valid call with the same source only reads, and cannot fail for a missing row. */
  lemma RepeatOnlyReads(t: Tables, request: RequestContext, ms: seq<Mutation>)
    requires Invariant(t) && request.source in t.batches && CheckBatch(request, ms) == None
    ensures var batch := t.batches[request.source];
            if batch.scope != request.scope then ApplyBatch(t, request, ms) == Err(WrongContext)
            else ReadAll(t.rows, batch.ids).Ok?
                 && ApplyBatch(t, request, ms) == Ok((t, ReadAll(t.rows, batch.ids).value))
  {
    RecordedBatchReads(t, request.source);
  }

  // ----- runs -----

  /** One call of ApplyBatch; fault says that some statement or the commit failed. */
  datatype Attempt = Attempt(request: RequestContext, ms: seq<Mutation>, fault: bool)

  function After(t: Tables, a: Attempt): Tables {
    if !a.fault && ApplyBatch(t, a.request, a.ms).Ok? then ApplyBatch(t, a.request, a.ms).value.0 else t
  }

  function Run(attempts: seq<Attempt>): Tables {
    if attempts == [] then EMPTY else After(Run(attempts[..|attempts| - 1]), attempts[|attempts| - 1])
  }

  lemma {:induction false} RunInvariant(attempts: seq<Attempt>)
    ensures Invariant(Run(attempts))
    decreases |attempts|
  {
    if attempts != [] {
      var front, a := attempts[..|attempts| - 1], attempts[|attempts| - 1];
      RunInvariant(front);
      if !a.fault && ApplyBatch(Run(front), a.request, a.ms).Ok? {
        BatchKeepsInvariant(Run(front), a.request, a.ms);
      }
    }
  }

  lemma {:induction false} RunGrows(attempts: seq<Attempt>, i: nat)
    requires i <= |attempts|
    ensures Grows(Run(attempts[..i]), Run(attempts))
    decreases |attempts|
  {
    if i == |attempts| {
      assert attempts[..i] == attempts;
      GrowsReflexive(Run(attempts));
    } else {
      var front, a := attempts[..|attempts| - 1], attempts[|attempts| - 1];
      assert front[..i] == attempts[..i];
      RunGrows(front, i);
      RunInvariant(front);
      if !a.fault && ApplyBatch(Run(front), a.request, a.ms).Ok? {
        BatchKeepsInvariant(Run(front), a.request, a.ms);
        GrowsTransitive(Run(attempts[..i]), Run(front), Run(attempts));
      }
    }
  }

  /** In every reachable state the audit log alone rebuilds the table and its counter. */
  lemma LogRebuildsTable(attempts: seq<Attempt>)
    ensures var t := Run(attempts);
            && t.rows == Replay(t.audit) && t.sequence == Creates(t.audit)
            && (forall id :: id in t.rows <==> 1 <= id <= Creates(t.audit))
            && (forall id :: id in t.rows ==> t.rows[id].id == id && ValidInput(InputOf(t.rows[id])))
  {
    RunInvariant(attempts);
    ReplayIsSound(Run(attempts).audit);
  }

  /** Undoing the events recorded since an earlier moment of the run gives that moment's table. */
  lemma RewindReachesThePast(attempts: seq<Attempt>, i: nat)
    requires i <= |attempts|
    ensures |Run(attempts[..i]).audit| <= |Run(attempts).audit|
    ensures Rewind(Run(attempts).rows, Run(attempts).audit[|Run(attempts[..i]).audit|..]) == Run(attempts[..i]).rows
  {
    RunInvariant(attempts);
    RunInvariant(attempts[..i]);
    RunGrows(attempts, i);
    RewindInvertsReplay(Run(attempts).audit, |Run(attempts[..i]).audit|);
  }

  /** A successful call leaves a batch record whose ids are those of the rows it returned. */
  lemma SuccessIsRecorded(t: Tables, request: RequestContext, ms: seq<Mutation>)
    requires Invariant(t) && ApplyBatch(t, request, ms).Ok?
    ensures var (t', result) := ApplyBatch(t, request, ms).value;
            && request.source in t'.batches && t'.batches[request.source].scope == request.scope
            && var ids := t'.batches[request.source].ids;
            && |ids| == |result| && forall k :: 0 <= k < |ids| ==> result[k].id == ids[k]
  {
    var (t', result) := ApplyBatch(t, request, ms).value;
    BatchKeepsInvariant(t, request, ms);
    if request.source !in t.batches {
      FirstUseAppliesAll(t, request, ms);
    }
    RecordedBatchReads(t', request.source);
  }

  /**
   Once a source message has succeeded, every later valid call with it returns the same ids in the same
   order with the rows' current contents and changes nothing; from another context it is refused.
   */
  lemma SourceMessageIsIdempotent(attempts: seq<Attempt>, i: nat, request: RequestContext, ms: seq<Mutation>)
    requires i < |attempts| && !attempts[i].fault
    requires ApplyBatch(Run(attempts[..i]), attempts[i].request, attempts[i].ms).Ok?
    requires request.source == attempts[i].request.source && CheckBatch(request, ms) == None
    ensures var t, first := Run(attempts), ApplyBatch(Run(attempts[..i]), attempts[i].request, attempts[i].ms).value.1;
            if request.scope != attempts[i].request.scope then ApplyBatch(t, request, ms) == Err(WrongContext)
            else && ApplyBatch(t, request, ms).Ok? && ApplyBatch(t, request, ms).value.0 == t
                 && var again := ApplyBatch(t, request, ms).value.1;
                 && |again| == |first|
                 && forall k :: 0 <= k < |again| ==>
                      again[k].id == first[k].id && first[k].id in t.rows && again[k] == t.rows[first[k].id]
  {
    var past, now, t := Run(attempts[..i]), Run(attempts[..i + 1]), Run(attempts);
    RunInvariant(attempts[..i]);
    SuccessIsRecorded(past, attempts[i].request, attempts[i].ms);
    assert attempts[..i + 1][..i] == attempts[..i];
    assert now == ApplyBatch(past, attempts[i].request, attempts[i].ms).value.0;
    RunGrows(attempts, i + 1);
    RunInvariant(attempts);
    assert t.batches[request.source] == now.batches[request.source];
    RepeatOnlyReads(t, request, ms);
    RecordedBatchReads(t, request.source);
  }

  /** Each row's events in a reachable state: create, then updates and delete-restore pairs, maybe a last delete. */
  lemma EveryRowHasAHistory(attempts: seq<Attempt>, id: int)
    ensures var t := Run(attempts);
            if id in t.rows then
              && IsHistory(History(t.audit, id))
              && (t.rows[id].deletedAt.Some? <==> EndsDeleted(History(t.audit, id)))
            else History(t.audit, id) == []
  {
    RunInvariant(attempts);
    HistoriesAreWellFormed(Run(attempts).audit, id);
  }

  /** Every row of every reachable state meets the requirements on inputs. */
  lemma ReachableRowsAreGood(attempts: seq<Attempt>, id: int)
    requires id in Run(attempts).rows
    ensures var row := Run(attempts).rows[id];
            && row.id == id && 1 <= id
            && GoodInput(Input(row.typ, row.amount, row.category, row.note, row.occurredAt))
  {
    hide Run, ValidInput, GoodInput;
    LogRebuildsTable(attempts);
    InputsAreJudged(InputOf(Run(attempts).rows[id]));
  }

  /** In a reachable state each row's every field is what the audit events of its id say. */
  lemma EveryRowIsReadOffTheLog(attempts: seq<Attempt>, id: int)
    ensures var t := Run(attempts);
            if id in t.rows then ReadOff(t.rows[id], EventsOf(t.audit, id)) else EventsOf(t.audit, id) == []
  {
    hide ReadOff;
    RunInvariant(attempts);
    RowsAreReadOffTheirEvents(Run(attempts).audit, id);
  }

  /** In a reachable state the live balance of every scope is the sum of its events' changes. */
  lemma BalanceIsConserved(attempts: seq<Attempt>, scope: Scope)
    ensures var t := Run(attempts); LiveSum(t.rows, scope, t.sequence) == DeltaSum(t.audit, scope)
  {
    RunInvariant(attempts);
    BalanceIsSumOfChanges(Run(attempts).audit, scope);
  }

  lemma AppliedStaysInScope(t: Tables, request: RequestContext, ms: seq<Mutation>, t': Tables, ids: seq<int>)
    requires Applied(t, request, ms, t', ids)
    ensures forall id :: ImageOf(t.rows, id) != ImageOf(t'.rows, id) ==>
              id in t'.rows && t'.rows[id].scope == request.scope
                  && (id in t.rows ==> t.rows[id].scope == request.scope)
    ensures forall k :: |t.audit| <= k < |t'.audit| ==> t'.audit[k].scope == request.scope
  {
    forall k | |t.audit| <= k < |t'.audit|
      ensures t'.audit[k].scope == request.scope
    {
      var j := k - |t.audit|;
      assert Records(t'.audit[|t.audit| + j], request, ms[j], ids[j]);
    }
  }

  /** A batch changes no row and records no event of another scope, although its updates name only ids. */
  lemma ScopesAreIsolated(t: Tables, request: RequestContext, ms: seq<Mutation>)
    requires Invariant(t) && ApplyBatch(t, request, ms).Ok?
    ensures var t' := ApplyBatch(t, request, ms).value.0;
            && (forall id :: ImageOf(t.rows, id) != ImageOf(t'.rows, id) ==>
                  id in t'.rows && t'.rows[id].scope == request.scope
                      && (id in t.rows ==> t.rows[id].scope == request.scope))
            && (forall k :: |t.audit| <= k < |t'.audit| ==> t'.audit[k].scope == request.scope)
  {
    if request.source !in t.batches {
      FirstUseAppliesAll(t, request, ms);
      var t' := ApplyBatch(t, request, ms).value.0;
      AppliedStaysInScope(t, request, ms, t'.(batches := t.batches), t'.batches[request.source].ids);
    }
  }
}
