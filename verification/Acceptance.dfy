/**
 When a batch succeeds and with what it fails otherwise: conditions on the request, its mutations and the tables
 before it (internal/storage/sqlite/store.go).
 */
module Acceptance {
  import opened Wrappers
  import opened Text
  import opened Instants
  import opened Amounts
  import opened Ledger
  import opened AuditLog
  import opened Batches

  // ----- when a first use succeeds -----

  /** What the requester can see of a row. */
  datatype Standing = Absent | Live | Dead

  function StandingIn(rows: Rows, scope: Scope, id: int): Standing {
    if id !in rows || rows[id].scope != scope then Absent else if rows[id].deletedAt == None then Live else Dead
  }

  function CreatesIn(ms: seq<Mutation>): nat {
    if ms == [] then 0 else CreatesIn(ms[..|ms| - 1]) + if ms[|ms| - 1].kind == Create then 1 else 0
  }

  /** The standing of id once ms are done, foreseen from the tables before the batch. */
  function Foreseen(t: Tables, scope: Scope, ms: seq<Mutation>, id: int): Standing {
    if ms == [] then StandingIn(t.rows, scope, id) else
      var m, before := ms[|ms| - 1], Foreseen(t, scope, ms[..|ms| - 1], id);
      match m.kind
      case Create => if id == t.sequence + CreatesIn(ms) then Live else before
      case Delete => if id == m.id then Dead else before
      case Restore => if id == m.id then Live else before
      case _ => before
  }

  predicate Allowed(standing: Standing, kind: Kind) {
    match kind
    case Create => true
    case Update => standing == Live
    case Delete => standing == Live
    case Restore => standing == Dead
    case Unknown(_) => false
  }

  /** Every target is the requester's own and in the right state when its turn comes. */
  predicate Acceptable(t: Tables, scope: Scope, ms: seq<Mutation>) {
    forall i :: 0 <= i < |ms| ==> Allowed(Foreseen(t, scope, ms[..i], ms[i].id), ms[i].kind)
  }

  /** The times a mutation stores can be read back. */
  predicate Storable(request: RequestContext, m: Mutation) {
    FourDigitYear(request.receivedAt) && (m.kind == Create || m.kind == Update ==> FourDigitYear(m.input.occurredAt))
  }

  predicate AllStorable(request: RequestContext, ms: seq<Mutation>) {
    forall i :: 0 <= i < |ms| ==> Storable(request, ms[i])
  }

  lemma AcceptableGrows(t: Tables, scope: Scope, front: seq<Mutation>, m: Mutation)
    ensures Acceptable(t, scope, front + [m]) <==>
            Acceptable(t, scope, front) && Allowed(Foreseen(t, scope, front, m.id), m.kind)
  {
    hide Foreseen, Allowed;
    var ms := front + [m];
    assert ms[..|front|] == front && ms[|front|] == m;
    assert forall i :: 0 <= i < |front| ==> ms[..i] == front[..i] && ms[i] == front[i];
  }

  lemma MutationSucceedsExactlyWhen(t: Tables, request: RequestContext, m: Mutation)
    requires Counted(t) && AllReadable(t.rows) && Storable(request, m)
    ensures ApplyMutation(t, request, m).Ok? <==> Allowed(StandingIn(t.rows, request.scope, m.id), m.kind)
    ensures ApplyMutation(t, request, m).Ok? ==>
              var t' := ApplyMutation(t, request, m).value.0;
              && Counted(t') && AllReadable(t'.rows)
              && t'.sequence == t.sequence + (if m.kind == Create then 1 else 0)
              && forall id :: StandingIn(t'.rows, request.scope, id) ==
                              match m.kind
                              case Create => if id == t'.sequence then Live else StandingIn(t.rows, request.scope, id)
                              case Delete => if id == m.id then Dead else StandingIn(t.rows, request.scope, id)
                              case Restore => if id == m.id then Live else StandingIn(t.rows, request.scope, id)
                              case _ => StandingIn(t.rows, request.scope, id)
  {
    hide FourDigitYear;
  }

  lemma {:induction false} AllSucceedExactlyWhen(t: Tables, request: RequestContext, ms: seq<Mutation>)
    requires Counted(t) && AllReadable(t.rows) && AllStorable(request, ms)
    ensures ApplyAll(t, request, ms).Ok? <==> Acceptable(t, request.scope, ms)
    ensures ApplyAll(t, request, ms).Ok? ==>
              var t' := ApplyAll(t, request, ms).value.0;
              && Counted(t') && AllReadable(t'.rows) && t'.sequence == t.sequence + CreatesIn(ms)
              && forall id :: StandingIn(t'.rows, request.scope, id) == Foreseen(t, request.scope, ms, id)
    decreases |ms|
  {
    hide ApplyMutation, Counted, AllReadable, StandingIn, Acceptable, Allowed, Storable;
    if ms == [] {
      AcceptNothing(t, request.scope);
    } else {
      var front, m := ms[..|ms| - 1], ms[|ms| - 1];
      assert ms == front + [m];
      AllSucceedExactlyWhen(t, request, front);
      AcceptableGrows(t, request.scope, front, m);
      if ApplyAll(t, request, front).Ok? {
        MutationSucceedsExactlyWhen(ApplyAll(t, request, front).value.0, request, m);
      }
    }
  }

  lemma AcceptNothing(t: Tables, scope: Scope)
    ensures Acceptable(t, scope, [])
  {
  }

  /** Each mutation's row exists; it is unreadable when the mutation stored an unreadable time. */
  ghost predicate Marked(request: RequestContext, ms: seq<Mutation>, rows: Rows, ids: seq<int>) {
    |ids| == |ms| && forall k :: 0 <= k < |ms| ==>
      ids[k] in rows && (!Storable(request, ms[k]) ==> !ReadableRow(rows[ids[k]]))
  }

  /** Rows stay, and unreadable ones stay unreadable: no later mutation can touch them. */
  ghost predicate Spoils(rows: Rows, rows': Rows) {
    forall id :: id in rows ==> id in rows' && (!ReadableRow(rows[id]) ==> !ReadableRow(rows'[id]))
  }

  lemma UnstorableStep(t: Tables, request: RequestContext, m: Mutation)
    requires Counted(t) && ApplyMutation(t, request, m).Ok?
    ensures var (t', id) := ApplyMutation(t, request, m).value;
            && Counted(t') && id in t'.rows && (!Storable(request, m) ==> !ReadableRow(t'.rows[id]))
            && Spoils(t.rows, t'.rows)
  {
    hide FourDigitYear;
  }

  lemma MarkedGrows(request: RequestContext, front: seq<Mutation>, rows: Rows, ids: seq<int>, m: Mutation,
                    rows': Rows, id: int)
    requires Marked(request, front, rows, ids) && Spoils(rows, rows')
    requires id in rows' && (!Storable(request, m) ==> !ReadableRow(rows'[id]))
    ensures Marked(request, front + [m], rows', ids + [id])
  {
    hide Storable, ReadableRow;
    forall k | 0 <= k < |front|
      ensures ids[k] in rows' && (!Storable(request, front[k]) ==> !ReadableRow(rows'[ids[k]]))
    {
      var j := ids[k];
      assert j in rows;
    }
  }

  lemma {:induction false} UnstorableStays(t: Tables, request: RequestContext, ms: seq<Mutation>)
    requires Counted(t) && ApplyAll(t, request, ms).Ok?
    ensures var (t', ids) := ApplyAll(t, request, ms).value; Counted(t') && Marked(request, ms, t'.rows, ids)
    decreases |ms|
  {
    hide ApplyMutation, Storable, ReadableRow, Counted, Spoils;
    if ms != [] {
      var front, m := ms[..|ms| - 1], ms[|ms| - 1];
      assert ms == front + [m];
      UnstorableStays(t, request, front);
      var (t1, ids) := ApplyAll(t, request, front).value;
      UnstorableStep(t1, request, m);
      var (t2, id) := ApplyMutation(t1, request, m).value;
      MarkedGrows(request, front, t1.rows, ids, m, t2.rows, id);
    }
  }

  lemma ReadBackExactlyWhen(t: Tables, request: RequestContext, ms: seq<Mutation>)
    requires Counted(t) && AllReadable(t.rows) && ApplyAll(t, request, ms).Ok?
    ensures var (t', ids) := ApplyAll(t, request, ms).value; ReadAll(t'.rows, ids).Ok? <==> AllStorable(request, ms)
  {
    hide ApplyAll, ReadAll, Storable, ReadableRow, Counted, Acceptable, Foreseen;
    UnstorableStays(t, request, ms);
    var (t', ids) := ApplyAll(t, request, ms).value;
    ReadAllSucceeds(t'.rows, ids);
    if AllStorable(request, ms) {
      AllSucceedExactlyWhen(t, request, ms);
      forall k | 0 <= k < |ids|
        ensures ids[k] in t'.rows && ReadableRow(t'.rows[ids[k]])
      {
        var id := ids[k];
        assert id in t'.rows;
      }
    } else {
      var k :| 0 <= k < |ms| && !Storable(request, ms[k]);
      assert !ReadableRow(t'.rows[ids[k]]);
    }
  }

  lemma FirstUseAfterChecks(t: Tables, request: RequestContext, ms: seq<Mutation>)
    requires Invariant(t) && request.source !in t.batches && CheckBatch(request, ms) == None
    ensures ApplyBatch(t, request, ms).Ok? <==> Acceptable(t, request.scope, ms) && AllStorable(request, ms)
  {
    hide CheckBatch, Acceptable, AllStorable, ApplyAll, ReadAll, LegalLog, BatchesSound, AllReadable;
    ReplayIsSound(t.audit);
    if ApplyAll(t, request, ms).Ok? {
      ReadBackExactlyWhen(t, request, ms);
    }
    if AllStorable(request, ms) {
      AllSucceedExactlyWhen(t, request, ms);
    }
  }

  /** The checks before the transaction pass exactly the good batches of good requests. */
  lemma ChecksPassExactlyWhen(request: RequestContext, ms: seq<Mutation>)
    ensures CheckBatch(request, ms) == None <==>
            GoodRequest(request) && ms != [] && forall i :: 0 <= i < |ms| ==> GoodMutation(ms[i])
  {
    hide ValidRequest, GoodRequest, GoodMutation, ValidateMutation, ValidateAll;
    RequestsAreJudged(request);
    ValidateAllSound(ms);
    forall i | 0 <= i < |ms|
      ensures ValidateMutation(ms[i]) == None <==> GoodMutation(ms[i])
    {
      MutationsAreJudged(ms[i]);
    }
  }

  /**
   A source message used for the first time succeeds if and only if the request is complete, the batch is not
   empty, every mutation meets its requirements, every target is the requester's own row in the right state when
   its turn comes, and every time the batch stores has a four-digit year.
   */
  lemma FirstUseSucceedsExactlyWhen(t: Tables, request: RequestContext, ms: seq<Mutation>)
    requires Invariant(t) && request.source !in t.batches
    ensures ApplyBatch(t, request, ms).Ok? <==>
            && GoodRequest(request) && ms != [] && (forall i :: 0 <= i < |ms| ==> GoodMutation(ms[i]))
            && Acceptable(t, request.scope, ms) && AllStorable(request, ms)
  {
    hide Invariant, CheckBatch, Acceptable, AllStorable, GoodRequest, GoodMutation, Perform;
    ChecksPassExactlyWhen(request, ms);
    if CheckBatch(request, ms) == None {
      FirstUseAfterChecks(t, request, ms);
    }
  }

  /** The i-th mutation is the first that is not good. */
  predicate FirstBad(ms: seq<Mutation>, i: nat) {
    i < |ms| && !GoodMutation(ms[i]) && forall j :: 0 <= j < i ==> GoodMutation(ms[j])
  }

  /** Before the transaction: an incomplete request, an empty batch, or the first mutation that is not good. */
  lemma ChecksFailWith(t: Tables, request: RequestContext, ms: seq<Mutation>, i: nat)
    ensures !GoodRequest(request) ==> ApplyBatch(t, request, ms) == Err(InvalidRequest)
    ensures GoodRequest(request) && ms == [] ==> ApplyBatch(t, request, ms) == Err(EmptyBatch)
    ensures GoodRequest(request) && FirstBad(ms, i) ==>
              var m, input := ms[i], ms[i].input;
              ApplyBatch(t, request, ms) ==
              Err(if m.kind.Unknown? then UnsupportedKind
                  else if m.kind != Create && m.id < 1 then BadID
                  else if input.amount < 1 then BadAmount
                  else if input.typ != "income" && input.typ != "expense" then BadType
                  else if (input.typ == "income" && !IsIncomeCategory(input.category)) ||
                          (input.typ == "expense" && !IsExpenseCategory(input.category)) then BadCategory
                  else if |input.note| > 2000 then NoteTooLong
                  else NoTimestamp)
  {
    hide ValidRequest, GoodRequest, Perform, Repeat, ValidateAll, ValidateInput, ValidateMutation, IsIncomeCategory,
        IsExpenseCategory;
    RequestsAreJudged(request);
    if FirstBad(ms, i) {
      FirstComplaintCounts(ms, i);
      MutationsAreJudged(ms[i]);
      InputsAreJudged(ms[i].input);
    }
  }

  /** Inside it: the first mutation whose target is missing, another's, or in the wrong state. */
  lemma FirstUseFailsWith(t: Tables, request: RequestContext, ms: seq<Mutation>, i: nat)
    requires Invariant(t) && request.source !in t.batches && GoodRequest(request)
    requires i < |ms| && forall j :: 0 <= j < |ms| ==> GoodMutation(ms[j])
    requires Acceptable(t, request.scope, ms[..i]) && AllStorable(request, ms[..i])
    requires !Allowed(Foreseen(t, request.scope, ms[..i], ms[i].id), ms[i].kind)
    ensures ApplyBatch(t, request, ms) ==
            Err(if Foreseen(t, request.scope, ms[..i], ms[i].id) == Absent then NotFound
                else if ms[i].kind == Update then UpdatesDeleted
                else if ms[i].kind == Delete then AlreadyDeleted
                else NotDeleted)
  {
    hide CheckBatch, Acceptable, AllStorable, ApplyAll, ReadAll, LegalLog, BatchesSound, GoodRequest, GoodInput,
        AllReadable, StandingIn, Foreseen, ApplyMutation, Allowed;
    ReplayIsSound(t.audit);
    ChecksPassExactlyWhen(request, ms);
    AllSucceedExactlyWhen(t, request, ms[..i]);
    MutationFailsWith(ApplyAll(t, request, ms[..i]).value.0, request, ms[i]);
    assert ms[..i + 1][..i] == ms[..i];
    OneMoreFails(t, request, ms[..i + 1]);
    FirstErrorStands(t, request, ms, i + 1);
  }

  lemma AllowedMutationsApply(t: Tables, request: RequestContext, m: Mutation)
    requires Counted(t) && Allowed(StandingIn(t.rows, request.scope, m.id), m.kind)
    ensures ApplyMutation(t, request, m).Ok? || ApplyMutation(t, request, m) == Err(BadTimestamp)
    ensures ApplyMutation(t, request, m).Ok? ==>
              var t' := ApplyMutation(t, request, m).value.0;
              && Counted(t') && t'.sequence == t.sequence + (if m.kind == Create then 1 else 0)
              && forall id :: StandingIn(t'.rows, request.scope, id) ==
                              match m.kind
                              case Create => if id == t'.sequence then Live else StandingIn(t.rows, request.scope, id)
                              case Delete => if id == m.id then Dead else StandingIn(t.rows, request.scope, id)
                              case Restore => if id == m.id then Live else StandingIn(t.rows, request.scope, id)
                              case _ => StandingIn(t.rows, request.scope, id)
  {
    hide ReadableRow;
  }

  lemma {:induction false} AcceptableBatchesApply(t: Tables, request: RequestContext, ms: seq<Mutation>)
    requires Counted(t) && Acceptable(t, request.scope, ms)
    ensures ApplyAll(t, request, ms).Ok? || ApplyAll(t, request, ms) == Err(BadTimestamp)
    ensures ApplyAll(t, request, ms).Ok? ==>
              var t' := ApplyAll(t, request, ms).value.0;
              && Counted(t') && t'.sequence == t.sequence + CreatesIn(ms)
              && forall id :: StandingIn(t'.rows, request.scope, id) == Foreseen(t, request.scope, ms, id)
    decreases |ms|
  {
    hide ApplyMutation, Counted, StandingIn, Acceptable, Allowed;
    if ms != [] {
      var front, m := ms[..|ms| - 1], ms[|ms| - 1];
      assert ms == front + [m];
      AcceptableGrows(t, request.scope, front, m);
      AcceptableBatchesApply(t, request, front);
      if ApplyAll(t, request, front).Ok? {
        AllowedMutationsApply(ApplyAll(t, request, front).value.0, request, m);
      }
    }
  }

  lemma {:induction false} PresentRowsFailWith(rows: Rows, ids: seq<int>)
    requires forall k :: 0 <= k < |ids| ==> ids[k] in rows
    ensures ReadAll(rows, ids).Ok? || ReadAll(rows, ids) == Err(BadTimestamp)
    decreases |ids|
  {
    if ids != [] {
      PresentRowsFailWith(rows, ids[..|ids| - 1]);
    }
  }

  /** When every target is in order but some time cannot be stored, reading the rows back fails. */
  lemma UnstorableBatchesFailWith(t: Tables, request: RequestContext, ms: seq<Mutation>)
    requires Invariant(t) && request.source !in t.batches && GoodRequest(request)
    requires ms != [] && forall j :: 0 <= j < |ms| ==> GoodMutation(ms[j])
    requires Acceptable(t, request.scope, ms) && !AllStorable(request, ms)
    ensures ApplyBatch(t, request, ms) == Err(BadTimestamp)
  {
    hide CheckBatch, Acceptable, AllStorable, ApplyAll, ReadAll, LegalLog, BatchesSound, GoodRequest, GoodMutation,
        AllReadable, StandingIn, Foreseen, Storable;
    ReplayIsSound(t.audit);
    ChecksPassExactlyWhen(request, ms);
    FirstUseAfterChecks(t, request, ms);
    AcceptableBatchesApply(t, request, ms);
    if ApplyAll(t, request, ms).Ok? {
      UnstorableStays(t, request, ms);
      var (t', ids) := ApplyAll(t, request, ms).value;
      PresentRowsFailWith(t'.rows, ids);
    }
  }

  lemma OneMoreFails(t: Tables, request: RequestContext, ms: seq<Mutation>)
    requires ms != [] && ApplyAll(t, request, ms[..|ms| - 1]).Ok?
    requires ApplyMutation(ApplyAll(t, request, ms[..|ms| - 1]).value.0, request, ms[|ms| - 1]).Err?
    ensures ApplyAll(t, request, ms) ==
            Err(ApplyMutation(ApplyAll(t, request, ms[..|ms| - 1]).value.0, request, ms[|ms| - 1]).error)
  {
    hide ApplyMutation;
  }

  lemma MutationFailsWith(t: Tables, request: RequestContext, m: Mutation)
    requires AllReadable(t.rows) && !m.kind.Unknown? && !Allowed(StandingIn(t.rows, request.scope, m.id), m.kind)
    ensures ApplyMutation(t, request, m) ==
            Err(if StandingIn(t.rows, request.scope, m.id) == Absent then NotFound
                else if m.kind == Update then UpdatesDeleted
                else if m.kind == Delete then AlreadyDeleted
                else NotDeleted)
  {
    hide FourDigitYear;
  }

  // ----- create-only batches -----

  /** CreateBatch hands these to ApplyBatch. */
  function CreatesOf(inputs: seq<Input>): (ms: seq<Mutation>)
    ensures |ms| == |inputs| && forall i :: 0 <= i < |inputs| ==> ms[i] == Mutation(Create, 0, inputs[i])
  {
    seq(|inputs|, i requires 0 <= i < |inputs| => Mutation(Create, 0, inputs[i]))
  }

  function Filled(request: RequestContext, inputs: seq<Input>): (rows: Rows)
    ensures forall id :: id in rows <==> 1 <= id <= |inputs|
    ensures forall id :: id in rows ==> rows[id] == CreatedRow(id, request, inputs[id - 1])
  {
    if inputs == [] then map[] else
      Filled(request, inputs[..|inputs| - 1])[|inputs| := CreatedRow(|inputs|, request, inputs[|inputs| - 1])]
  }

  lemma {:induction false} CreatesFill(request: RequestContext, inputs: seq<Input>)
    ensures ApplyAll(EMPTY, request, CreatesOf(inputs)).Ok?
    ensures var (t, ids) := ApplyAll(EMPTY, request, CreatesOf(inputs)).value;
            t.sequence == |inputs| && t.rows == Filled(request, inputs)
    decreases |inputs|
  {
    if inputs != [] {
      var front := inputs[..|inputs| - 1];
      CreatesFill(request, front);
      assert CreatesOf(inputs)[..|inputs| - 1] == CreatesOf(front);
    }
  }

  /** A create-only batch on an empty ledger stores exactly its inputs, as rows 1, 2, ... */
  lemma CreateBatchFillsTheTable(request: RequestContext, inputs: seq<Input>)
    requires GoodRequest(request) && FourDigitYear(request.receivedAt) && inputs != []
    requires forall i :: 0 <= i < |inputs| ==> GoodInput(inputs[i]) && FourDigitYear(inputs[i].occurredAt)
    ensures ApplyBatch(EMPTY, request, CreatesOf(inputs)).Ok?
    ensures var t := ApplyBatch(EMPTY, request, CreatesOf(inputs)).value.0;
            t.sequence == |inputs| && t.rows == Filled(request, inputs)
  {
    hide *;
    CreatesFill(request, inputs);
    CreatesAreFine(request, inputs);
    EmptyInvariant();
    FirstUseAfterChecks(EMPTY, request, CreatesOf(inputs));
    PerformedIsApplied(EMPTY, request, CreatesOf(inputs));
  }

  lemma CreatesAreFine(request: RequestContext, inputs: seq<Input>)
    requires GoodRequest(request) && FourDigitYear(request.receivedAt) && inputs != []
    requires forall i :: 0 <= i < |inputs| ==> GoodInput(inputs[i]) && FourDigitYear(inputs[i].occurredAt)
    ensures var ms := CreatesOf(inputs);
            && request.source !in EMPTY.batches && CheckBatch(request, ms) == None
            && Acceptable(EMPTY, request.scope, ms) && AllStorable(request, ms)
  {
    hide GoodRequest, FourDigitYear, GoodInput, CheckBatch;
    ChecksPassExactlyWhen(request, CreatesOf(inputs));
  }

  lemma PerformedIsApplied(t: Tables, request: RequestContext, ms: seq<Mutation>)
    requires request.source !in t.batches && ApplyBatch(t, request, ms).Ok?
    ensures ApplyAll(t, request, ms).Ok?
    ensures var t', t1 := ApplyBatch(t, request, ms).value.0, ApplyAll(t, request, ms).value.0;
            t'.rows == t1.rows && t'.sequence == t1.sequence
  {
    hide ApplyAll, ReadAll, CheckBatch;
  }

  lemma EmptyInvariant()
    ensures Invariant(EMPTY)
  {
  }

  /** The run that consists of one create-only batch. */
  lemma CreateBatchRun(request: RequestContext, inputs: seq<Input>)
    requires GoodRequest(request) && FourDigitYear(request.receivedAt) && inputs != []
    requires forall i :: 0 <= i < |inputs| ==> GoodInput(inputs[i]) && FourDigitYear(inputs[i].occurredAt)
    ensures var t := Run([Attempt(request, CreatesOf(inputs), false)]);
            t.sequence == |inputs| && t.rows == Filled(request, inputs)
  {
    hide ApplyBatch, GoodRequest, GoodInput, Filled;
    CreateBatchFillsTheTable(request, inputs);
    var attempt := Attempt(request, CreatesOf(inputs), false);
    assert [attempt][..0] == [] && [attempt][0] == attempt;
    assert Run([]) == EMPTY;
  }
}
