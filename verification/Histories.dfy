/**
 Whole histories of Handle and ConfirmDelete calls with their outcomes: they are runs of the machine of all
 interleavings, so every deletion in them was confirmed.
 */
module Histories {
  import opened Wrappers
  import opened Text
  import opened Instants
  import opened Amounts
  import opened Ledger
  import opened AuditLog
  import opened Batches
  import opened Acceptance
  import opened Views
  import opened Service
  import opened Deletions
  import opened Orchestrator

  /** The ledger and the tokens between two calls. */
  datatype Moment = Moment(tables: Tables, tokens: TokenTable)

  /** One call with its outcome, or the end of the process. */
  datatype Act =
    | Refuse  // a message that is invalid, cancelled or too late
    | Speak(provider: ProviderModel, request: RequestContext, meets: nat -> Met, text: string, exported: Option<string>,
            reading: Reading, wording: bool, faulted: bool, answer: Result<Answer, AppError>, armed: bool)
    | Confirm(request: RequestContext, token: string, now: int, faulted: bool,
              deleted: Result<seq<Transaction>, AppError>)
    | Reboot

  function TalkOf(m: Moment, act: Act): Talked
    requires act.Speak?
  {
    AskProvider(act.provider, act.request, act.meets, act.text, Opened(m.tokens.issued, act.exported))
  }

  /** What Handle and ConfirmDelete promise of the moments before and after them. */
  ghost predicate Happens(m: Moment, act: Act, m': Moment) {
    match act
    case Refuse => m' == m
    case Speak(_, request, _, _, _, reading, wording, faulted, r, armed) =>
      && ValidRequest(request) && m'.tokens == PrepareAll(m.tokens, TalkOf(m, act).0.prepares)
      && Concluded(m.tables, m'.tables, faulted, request, TalkOf(m, act), reading, wording, r, armed)
    case Confirm(request, token, now, faulted, r) =>
      && m'.tokens == TakeToken(m.tokens, token)
      && ConfirmOutcome(m.tables, m'.tables, faulted, ClaimOf(m.tokens, token), request, token, now, r)
    case Reboot => m' == m.(tokens := m.tokens.(pending := map[]))
  }

  ghost predicate Unfolds(moments: seq<Moment>, acts: seq<Act>) {
    && |moments| == |acts| + 1 && moments[0] == Moment(EMPTY, TokenTable(map[], 0))
    && forall i :: 0 <= i < |acts| ==> Happens(moments[i], acts[i], moments[i + 1])
  }

  /** The deletions prepared by the acts, in order. */
  function Preparations(moments: seq<Moment>, acts: seq<Act>): seq<Prepared>
    requires |moments| > |acts|
  {
    if acts == [] then [] else
      var n := |acts| - 1;
      Preparations(moments[..n + 1], acts[..n]) +
      if acts[n].Speak? then TalkOf(moments[n], acts[n]).0.prepares else []
  }

  lemma ActIsSteps(sys: System, m: Moment, act: Act, m': Moment) returns (steps: seq<Step>)
    requires Happens(m, act, m') && sys.tables == m.tables && sys.tokens == m.tokens
    ensures var end := RunFrom(sys, steps);
            && end.tables == m'.tables && end.tokens == m'.tokens
            && end.prepared == sys.prepared + if act.Speak? then TalkOf(m, act).0.prepares else []
  {
    hide Concluded, ConfirmOutcome, AskProvider, PrepareAll, ValidRequest;
    steps := [];
    match act
    case Refuse =>
    case Speak(provider, request, meets, text, exported, reading, wording, faulted, r, armed) =>
      steps := HandleIsSteps(
        sys, m'.tables, faulted, provider, request, meets, text, exported, reading, wording, r, armed);
    case Confirm(request, token, now, faulted, r) =>
      ConfirmIsSteps(sys, m'.tables, faulted, request, token, now, r);
      var call := |sys.flights|;
      steps := [Step.Take(request, token), Step.Check(call, now), Step.DeleteRows(call, r.Err?)];
    case Reboot =>
      steps := [Restart];
      OneStep(sys, Restart);
  }

  /** Every history of Handle and ConfirmDelete calls is a run of the machine of all interleavings. */
  lemma {:induction false} HistoriesAreRuns(moments: seq<Moment>, acts: seq<Act>) returns (steps: seq<Step>)
    requires Unfolds(moments, acts)
    ensures var sys := RunSystem(steps);
            && sys.tables == moments[|acts|].tables && sys.tokens == moments[|acts|].tokens
            && sys.prepared == Preparations(moments, acts)
    decreases |acts|
  {
    hide Happens, RunFrom;
    if acts == [] {
      steps := [];
      EmptyRun();
    } else {
      var n := |acts| - 1;
      var front := HistoriesAreRuns(moments[..n + 1], acts[..n]);
      var more := ActIsSteps(RunSystem(front), moments[n], acts[n], moments[n + 1]);
      RunFromConcat(START, front, more);
      steps := front + more;
    }
  }

  lemma EmptyRun()
    ensures RunFrom(START, []) == START
  {
  }

  /** What a delete event added by one act says: the act is a confirmation, honoured, and of that row. */
  ghost predicate Deleted(m: Moment, act: Act, e: Event) {
    && act.Confirm? && act.token in m.tokens.pending
    && var claim := m.tokens.pending[act.token];
    && Honoured(Some(claim), act.request, act.now) && e.id in claim.ids && e.scope == act.request.scope
  }

  lemma SpeakingNeverDeletes(m: Moment, act: Act, m': Moment, p: nat)
    requires Happens(m, act, m') && act.Speak? && Invariant(m.tables)
    requires |m.tables.audit| <= p < |m'.tables.audit|
    ensures m'.tables.audit[p].action != Delete
  {
    hide AppliedBatch, AskProvider, After, Invariant, ValidRequest, Recoverable, Worded, AsksBack, PrepareAll,
        NoDeletes;
    PreparationsAreValid(act.provider, act.request, act.meets, act.text, m.tokens.issued, act.exported);
    var ms := TalkOf(m, act).0.mutations;
    AppliedIsAfter(m.tables, act.request, ms);
    WritesNeverDelete(m.tables, Attempt(act.request, ms, false), p);
  }

  lemma ConfirmingDeletes(m: Moment, act: Act, m': Moment, p: nat)
    requires Happens(m, act, m') && act.Confirm? && Invariant(m.tables)
    requires |m.tables.audit| <= p < |m'.tables.audit|
    ensures Deleted(m, act, m'.tables.audit[p])
  {
    hide AppliedBatch, After, Invariant;
    var claim := m.tokens.pending[act.token];
    var request, ms := ConfirmRequest(act.request, act.token), DeletesOf(claim.ids);
    AppliedIsAfter(m.tables, request, ms);
    NewEvent(m.tables, Attempt(request, ms, false), p);
    var j, id :| 0 <= j < |ms| && Records(m'.tables.audit[p], request, ms[j], id);
    assert m'.tables.audit[p].id == claim.ids[j];
  }

  lemma ActGrowsAudit(m: Moment, act: Act, m': Moment)
    requires Happens(m, act, m') && Invariant(m.tables)
    ensures |m.tables.audit| <= |m'.tables.audit| && m'.tables.audit[..|m.tables.audit|] == m.tables.audit
  {
    hide AppliedBatch, AskProvider, Invariant, ValidRequest, Recoverable, Worded, AsksBack, PrepareAll, After;
    assert m.tables.audit[..|m.tables.audit|] == m.tables.audit;
    if m'.tables != m.tables {
      var request, ms := if act.Speak? then act.request else ConfirmRequest(act.request, act.token),
                         if act.Speak? then TalkOf(m, act).0.mutations else DeletesOf(m.tokens.pending[act.token].ids);
      AppliedIsAfter(m.tables, request, ms);
      AfterKeepsInvariant(m.tables, Attempt(request, ms, false));
    }
  }

  /**
   In every history, each delete event was added by a ConfirmDelete call that was honoured for that row, under a
   token that an earlier message of the same user, guild and channel had prepared at most five minutes before.
   */
  lemma {:induction false} DeletionsOfHistoriesAreConfirmed(moments: seq<Moment>, acts: seq<Act>, p: nat)
    returns (i: nat, k: nat)
    requires Unfolds(moments, acts) && p < |moments[|acts|].tables.audit|
    requires moments[|acts|].tables.audit[p].action == Delete
    ensures i < |acts| && Deleted(moments[i], acts[i], moments[|acts|].tables.audit[p])
    ensures var earlier := Preparations(moments[..i + 1], acts[..i]);
            && k < |earlier| && acts[i].token == TokenText(k)
            && moments[|acts|].tables.audit[p].id in earlier[k].ids
            && earlier[k].request.scope == acts[i].request.scope && acts[i].now <= earlier[k].at + 300_000_000_000
    decreases |acts|
  {
    hide Happens, Deleted, Invariant, Honoured;
    var n := |acts| - 1;
    assert acts != [];
    var front, past := moments[..n + 1], acts[..n];
    var m, m' := moments[n], moments[n + 1];
    var steps := HistoriesAreRuns(front, past);
    SystemRunInvariant(steps);
    ActGrowsAudit(m, acts[n], m');
    if p < |m.tables.audit| {
      assert m'.tables.audit[p] == m'.tables.audit[..|m.tables.audit|][p];
      i, k := DeletionsOfHistoriesAreConfirmed(front, past, p);
      assert front[..i + 1] == moments[..i + 1] && past[..i] == acts[..i];
    } else {
      i := n;
      k := LastActDeletes(RunSystem(steps), m, acts[n], m', p);
    }
  }

  lemma LastActDeletes(sys: System, m: Moment, act: Act, m': Moment, p: nat) returns (k: nat)
    requires SystemInvariant(sys) && sys.tables == m.tables && sys.tokens == m.tokens && Happens(m, act, m')
    requires |m.tables.audit| <= p < |m'.tables.audit| && m'.tables.audit[p].action == Delete
    ensures Deleted(m, act, m'.tables.audit[p])
    ensures k < |sys.prepared| && act.token == TokenText(k) && m'.tables.audit[p].id in sys.prepared[k].ids
    ensures sys.prepared[k].request.scope == act.request.scope && act.now <= sys.prepared[k].at + FIVE_MINUTES
  {
    hide Invariant, Concluded, ConfirmOutcome, AskProvider, PrepareAll, ValidRequest;
    if act.Speak? {
      SpeakingNeverDeletes(m, act, m', p);
    }
    ConfirmingDeletes(m, act, m', p);
    k :| BackedBy(sys.prepared, act.token, m.tokens.pending[act.token], k);
  }

  // ----- a timely confirmation works -----

  /** The k-th preparation of the history is made by act j. */
  predicate PreparedBy(moments: seq<Moment>, acts: seq<Act>, j: nat, k: nat)
    requires |moments| > |acts|
  {
    && j < |acts| && |Preparations(moments[..j + 1], acts[..j])| <= k
    && k < |Preparations(moments[..j + 2], acts[..j + 1])|
  }

  function PreparationOf(moments: seq<Moment>, acts: seq<Act>, j: nat, k: nat): Prepared
    requires |moments| > |acts| && PreparedBy(moments, acts, j, k)
  {
    Preparations(moments[..j + 2], acts[..j + 1])[k]
  }

  /** Between acts j and i the token is not confirmed and the process does not end. */
  predicate Undisturbed(acts: seq<Act>, j: nat, i: nat, token: string)
    requires i <= |acts|
  {
    forall m :: j < m < i ==> !acts[m].Reboot? && !(acts[m].Confirm? && acts[m].token == token)
  }

  lemma {:induction false} PrepareAllKeeps(tt: TokenTable, ps: seq<Prepared>)
    ensures PrepareAll(tt, ps).issued == tt.issued + |ps|
    ensures forall k: nat :: k < tt.issued && TokenText(k) in tt.pending ==>
              && TokenText(k) in PrepareAll(tt, ps).pending
              && PrepareAll(tt, ps).pending[TokenText(k)] == tt.pending[TokenText(k)]
    decreases |ps|
  {
    if ps != [] {
      PrepareAllKeeps(tt, ps[..|ps| - 1]);
    }
  }

  lemma {:induction false} PrepareAllIssues(tt: TokenTable, ps: seq<Prepared>, i: nat)
    requires i < |ps|
    ensures TokenText(tt.issued + i) in PrepareAll(tt, ps).pending
    ensures PrepareAll(tt, ps).pending[TokenText(tt.issued + i)] ==
            DeleteRequest(ps[i].request, ps[i].ids, ps[i].at + 300_000_000_000)
    decreases |ps|
  {
    var n := |ps| - 1;
    PrepareAllKeeps(tt, ps[..n]);
    if i < n {
      PrepareAllIssues(tt, ps[..n], i);
      assert TokenText(tt.issued + i) != TokenText(tt.issued + n);
    }
  }

  lemma UnfoldsSoFar(moments: seq<Moment>, acts: seq<Act>, n: nat)
    requires Unfolds(moments, acts) && n <= |acts|
    ensures Unfolds(moments[..n + 1], acts[..n])
  {
    hide Happens;
  }

  /** At every moment as many tokens were issued as deletions prepared, and the ledger is sound. */
  lemma MomentsAreSound(moments: seq<Moment>, acts: seq<Act>, n: nat)
    requires Unfolds(moments, acts) && n <= |acts|
    ensures Invariant(moments[n].tables) && moments[n].tokens.issued == |Preparations(moments[..n + 1], acts[..n])|
  {
    hide Happens, Preparations, Invariant, FlightsSound, RunSystem;
    UnfoldsSoFar(moments, acts, n);
    var steps := HistoriesAreRuns(moments[..n + 1], acts[..n]);
    SystemRunInvariant(steps);
  }

  lemma PreparationsGrow(moments: seq<Moment>, acts: seq<Act>, j: nat)
    requires |moments| > |acts| && j < |acts|
    ensures Preparations(moments[..j + 2], acts[..j + 1]) ==
            Preparations(moments[..j + 1], acts[..j]) +
            if acts[j].Speak? then TalkOf(moments[j], acts[j]).0.prepares else []
  {
    hide TalkOf;
    assert acts[..j + 1][..j] == acts[..j] && moments[..j + 2][..j + 1] == moments[..j + 1];
  }

  lemma SpeakingPrepares(m: Moment, act: Act, m': Moment)
    requires Happens(m, act, m') && act.Speak?
    ensures m'.tokens == PrepareAll(m.tokens, TalkOf(m, act).0.prepares)
    ensures forall p :: p in TalkOf(m, act).0.prepares ==> ValidRequest(p.request) && |p.ids| == 1
  {
    hide Concluded, AskProvider, PrepareAll, ValidRequest, NoDeletes;
    PreparationsAreValid(act.provider, act.request, act.meets, act.text, m.tokens.issued, act.exported);
  }

  /** The token is pending, with its preparation, right after the act that prepared it. */
  lemma JustPrepared(moments: seq<Moment>, acts: seq<Act>, j: nat, k: nat)
    requires Unfolds(moments, acts) && PreparedBy(moments, acts, j, k)
    ensures var p, tt := PreparationOf(moments, acts, j, k), moments[j + 1].tokens;
            && ValidRequest(p.request) && |p.ids| == 1 && k < tt.issued && TokenText(k) in tt.pending
            && tt.pending[TokenText(k)] == DeleteRequest(p.request, p.ids, p.at + 300_000_000_000)
  {
    hide Happens, Preparations, PrepareAll, TalkOf, ValidRequest, Invariant;
    MomentsAreSound(moments, acts, j);
    PreparationsGrow(moments, acts, j);
    assert Happens(moments[j], acts[j], moments[j + 1]);
    SpeakingPrepares(moments[j], acts[j], moments[j + 1]);
    var ps, base := TalkOf(moments[j], acts[j]).0.prepares, moments[j].tokens.issued;
    PrepareAllKeeps(moments[j].tokens, ps);
    PrepareAllIssues(moments[j].tokens, ps, k - base);
    assert PreparationOf(moments, acts, j, k) == ps[k - base];
    assert TokenText(base + (k - base)) == TokenText(k);
  }

  lemma ActKeepsPending(m: Moment, act: Act, m': Moment, k: nat)
    requires Happens(m, act, m') && !act.Reboot? && !(act.Confirm? && act.token == TokenText(k))
    requires k < m.tokens.issued && TokenText(k) in m.tokens.pending
    ensures k < m'.tokens.issued && TokenText(k) in m'.tokens.pending
    ensures m'.tokens.pending[TokenText(k)] == m.tokens.pending[TokenText(k)]
  {
    hide Concluded, ConfirmOutcome, TalkOf, PrepareAll, ValidRequest;
    if act.Speak? {
      PrepareAllKeeps(m.tokens, TalkOf(m, act).0.prepares);
    }
  }

  lemma {:induction false} StillPending(moments: seq<Moment>, acts: seq<Act>, j: nat, k: nat, i: nat)
    requires Unfolds(moments, acts) && PreparedBy(moments, acts, j, k) && j < i <= |acts|
    requires Undisturbed(acts, j, i, TokenText(k))
    ensures var p, tt := PreparationOf(moments, acts, j, k), moments[i].tokens;
            && ValidRequest(p.request) && |p.ids| == 1 && k < tt.issued && TokenText(k) in tt.pending
            && tt.pending[TokenText(k)] == DeleteRequest(p.request, p.ids, p.at + 300_000_000_000)
    decreases i
  {
    hide Happens, PreparedBy, Preparations, PreparationOf, ValidRequest;
    if i == j + 1 {
      JustPrepared(moments, acts, j, k);
    } else {
      StillPending(moments, acts, j, k, i - 1);
      assert Happens(moments[i - 1], acts[i - 1], moments[i]);
      ActKeepsPending(moments[i - 1], acts[i - 1], moments[i], k);
    }
  }

  /** The row is there, live, and in the scope. */
  predicate Removable(t: Tables, scope: Scope, id: int) {
    id in t.rows && t.rows[id].scope == scope && t.rows[id].deletedAt == None
  }

  /** Deleting one row in a new batch succeeds exactly when the row is removable and the time can be stored. */
  lemma OneDeletion(t: Tables, request: RequestContext, id: int64)
    requires Invariant(t) && request.source !in t.batches
    requires HasText(request.scope.user) && HasText(request.scope.guild) && HasText(request.scope.channel)
    requires HasText(request.source)
    ensures AppliedBatch(t, request, DeletesOf([id])).Ok? <==>
            && Removable(t, request.scope, id) && FourDigitYear(request.receivedAt)
            && request.receivedAt != Civil(1, 1, 1, 0, 0, 0, 0)
    ensures AppliedBatch(t, request, DeletesOf([id])).Ok? ==>
            var (t', rows) := AppliedBatch(t, request, DeletesOf([id])).value;
            && id in t.rows && rows == [t'.rows[id]]
            && t'.rows ==
               t.rows[id := t.rows[id].(deletedAt := Some(request.receivedAt), updatedAt := request.receivedAt)]
  {
    hide HasText, FourDigitYear, ApplyBatch, LegalLog, BatchesSound, AllReadable;
    var m := Mutation(Delete, id, NO_INPUT);
    assert DeletesOf([id]) == [m];
    AppliedExactlyWhen(t, request, [m]);
    FirstUseSucceedsExactlyWhen(t, request, [m]);
    ReplayIsSound(t.audit);
    OneTarget(t, request, m);
    if ApplyBatch(t, request, [m]).Ok? {
      OneMutation(t, request, m);
      DeletedMeans(t, request, m);
      OneResult(t, request, m);
    }
  }

  lemma AppliedExactlyWhen(t: Tables, request: RequestContext, ms: seq<Mutation>)
    ensures AppliedBatch(t, request, ms).Ok? <==> ApplyBatch(t, request, ms).Ok?
    ensures ApplyBatch(t, request, ms).Ok? ==> AppliedBatch(t, request, ms).value == ApplyBatch(t, request, ms).value
  {
    hide CheckRequest, CheckBatch, Repeat, Perform;
    ChecksCoincide(request, ms);
  }

  lemma OneTarget(t: Tables, request: RequestContext, m: Mutation)
    requires m.kind == Delete
    ensures Acceptable(t, request.scope, [m]) <==> Removable(t, request.scope, m.id)
    ensures AllStorable(request, [m]) <==> FourDigitYear(request.receivedAt)
  {
    hide FourDigitYear;
    assert [m][0] == m && [m][..0] == [];
    assert Acceptable(t, request.scope, [m]) <==> Allowed(Foreseen(t, request.scope, [], m.id), Delete);
    assert AllStorable(request, [m]) <==> Storable(request, m);
  }

  lemma DeletedMeans(t: Tables, request: RequestContext, m: Mutation)
    requires m.kind == Delete && ApplyMutation(t, request, m).Ok?
    ensures m.id in t.rows
    ensures ApplyMutation(t, request, m).value.0.rows ==
            t.rows[m.id := t.rows[m.id].(deletedAt := Some(request.receivedAt), updatedAt := request.receivedAt)]
  {
    hide ReadableRow;
  }

  lemma OneResult(t: Tables, request: RequestContext, m: Mutation)
    requires Invariant(t) && request.source !in t.batches && ApplyBatch(t, request, [m]).Ok? && m.kind == Delete
    ensures var (t', rows) := ApplyBatch(t, request, [m]).value; m.id in t'.rows && rows == [t'.rows[m.id]]
  {
    hide Invariant, ApplyBatch, Logged, Extends, ImageOf, ReadAll;
    FirstUseAppliesAll(t, request, [m]);
    var (t', rows) := ApplyBatch(t, request, [m]).value;
    var ids := t'.batches[request.source].ids;
    assert Records(t'.audit[|t.audit|], request, [m][0], ids[0]);
    ReadAllSucceeds(t'.rows, ids);
  }

  /**
   A token that was prepared, and neither confirmed nor lost since, is refused if and only if another user, guild
   or channel confirms it or more than five minutes have passed. Otherwise, unless a statement fails, an unused
   confirming source deletes exactly the prepared row if that is live and the requester's own and the time can be
   stored, and an answer that is not a success leaves the ledger untouched.
   */
  lemma TimelyConfirmationsWork(moments: seq<Moment>, acts: seq<Act>, j: nat, k: nat, i: nat)
    requires Unfolds(moments, acts) && PreparedBy(moments, acts, j, k) && j < i < |acts|
    requires acts[i].Confirm? && acts[i].token == TokenText(k) && Undisturbed(acts, j, i, TokenText(k))
    ensures |PreparationOf(moments, acts, j, k).ids| == 1
    ensures var p, t, t' := PreparationOf(moments, acts, j, k), moments[i].tables, moments[i + 1].tables;
            var Confirm(request, token, now, faulted, deleted) := acts[i];
            var id, at := p.ids[0], request.receivedAt;
            && (deleted == Err(ConfirmationRefused) <==>
                  p.request.scope != request.scope || now > p.at + 300_000_000_000)
            && (deleted.Err? ==> t' == t)
            && (deleted != Err(ConfirmationRefused) && !faulted && request.source + ":delete:" + token !in t.batches ==>
                  && (deleted.Ok? <==>
                        Removable(t, request.scope, id) && FourDigitYear(at) && at != Civil(1, 1, 1, 0, 0, 0, 0))
                  && (deleted.Ok? ==>
                        && id in t.rows && t'.rows == t.rows[id := t.rows[id].(deletedAt := Some(at), updatedAt := at)]
                        && deleted.value == [t'.rows[id]]))
  {
    hide Happens, PreparedBy, Preparations, PreparationOf, Invariant, AppliedBatch, FourDigitYear, Removable,
        ValidRequest;
    StillPending(moments, acts, j, k, i);
    MomentsAreSound(moments, acts, i);
    var p, t, act := PreparationOf(moments, acts, j, k), moments[i].tables, acts[i];
    assert Happens(moments[i], act, moments[i + 1]);
    ConfirmingMeans(moments[i], act, moments[i + 1]);
    var request := ConfirmRequest(act.request, act.token);
    RefusedMeans(t, request, DeletesOf(p.ids));
    if p.request.scope == act.request.scope && request.source !in t.batches {
      RequestsAreJudged(p.request);
      SourceHasText(act.request.source, act.token);
      assert p.ids == [p.ids[0]];
      OneDeletion(t, request, p.ids[0]);
    }
  }

  lemma ConfirmingMeans(m: Moment, act: Act, m': Moment)
    requires Happens(m, act, m') && act.Confirm?
    ensures ConfirmOutcome(m.tables, m'.tables, act.faulted, ClaimOf(m.tokens, act.token), act.request, act.token,
                           act.now, act.deleted)
  {
    hide ConfirmOutcome;
  }

  /** A batch is never refused with the confirmer's own error. */
  lemma RefusedMeans(t: Tables, request: RequestContext, ms: seq<Mutation>)
    ensures AppliedBatch(t, request, ms) != Err(ConfirmationRefused)
  {
    hide ApplyBatch;
    ComplaintsAreOthers(ms);
  }

  lemma {:induction false} ComplaintsAreOthers(ms: seq<Mutation>)
    ensures CheckMutations(ms) != Some(ConfirmationRefused)
    decreases |ms|
  {
    if ms != [] {
      hide ValidateInput;
      ComplaintsAreOthers(ms[1..]);
    }
  }

  lemma SourceHasText(source: string, token: string)
    ensures HasText(source + ":delete:" + token)
  {
    assert (source + ":delete:" + token)[|source|] == ':';
  }
}
