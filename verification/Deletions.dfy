/**
 Delete confirmations (internal/app/confirmation.go): one-shot tokens, and the
 interleavings of preparing, claiming, checking and deleting.
 */
module Deletions {
  import opened Wrappers
  import opened Text
  import opened Instants
  import opened Amounts
  import opened Ledger
  import opened AuditLog
  import opened Batches
  import opened SqliteStore
  import opened Service

  /** Five minutes of the process clock, in nanoseconds. */
  const FIVE_MINUTES := 300_000_000_000

  datatype DeleteRequest = DeleteRequest(request: RequestContext, ids: seq<int64>, expires: int)

  /** The pending map, and how many tokens were ever issued. */
  datatype TokenTable = TokenTable(pending: map<string, DeleteRequest>, issued: nat)

  /** The sources of tokens that never give one twice. */
  ghost predicate Injective(f: nat -> string) {
    forall j: nat, k: nat :: f(j) == f(k) ==> j == k
  }

  lemma NumeralsAreInjective()
    ensures Injective((n: nat) => Digits(n))
  {
    forall j: nat, k: nat | Digits(j) == Digits(k)
      ensures j == k
    {
      ValueOfDigits(j);
      ValueOfDigits(k);
    }
  }

  type TokenSource = f: nat -> string | Injective(f) witness (NumeralsAreInjective(); (n: nat) => Digits(n))

  /** The random tokens: any texts at all, of which no two are equal. */
  const TOKENS: TokenSource

  /** The k-th token issued. */
  function TokenText(k: nat): string {
    TOKENS(k)
  }

  function PrepareToken(tt: TokenTable, request: RequestContext, ids: seq<int64>, now: int): TokenTable {
    TokenTable(tt.pending[TokenText(tt.issued) := DeleteRequest(request, ids, now + FIVE_MINUTES)], tt.issued + 1)
  }

  function ClaimOf(tt: TokenTable, token: string): Option<DeleteRequest> {
    if token in tt.pending then Some(tt.pending[token]) else None
  }

  function TakeToken(tt: TokenTable, token: string): TokenTable {
    tt.(pending := tt.pending - {token})
  }

  predicate Honoured(claim: Option<DeleteRequest>, request: RequestContext, now: int) {
    claim.Some? && now <= claim.value.expires && claim.value.request.scope == request.scope
  }

  /** The confirming interaction becomes the source message of the delete batch. */
  function ConfirmRequest(request: RequestContext, token: string): RequestContext {
    request.(source := request.source + ":delete:" + token)
  }

  const NO_INPUT := Input("", 0, "", "", ZERO)

  /** DeleteTransactions */
  function DeletesOf(ids: seq<int64>): (ms: seq<Mutation>)
    ensures |ms| == |ids| && forall i :: 0 <= i < |ids| ==> ms[i] == Mutation(Delete, ids[i], NO_INPUT)
  {
    seq(|ids|, i requires 0 <= i < |ids| => Mutation(Delete, ids[i], NO_INPUT))
  }

  /** A preparation: who asked for which rows, and when. */
  datatype Prepared = Prepared(request: RequestContext, ids: seq<int64>, at: int)

  function PrepareAll(tt: TokenTable, ps: seq<Prepared>): TokenTable {
    if ps == [] then tt else
      var p := ps[|ps| - 1];
      PrepareToken(PrepareAll(tt, ps[..|ps| - 1]), p.request, p.ids, p.at)
  }

  datatype Confirmation = Confirmation(token: string, expires: int, count: nat, summary: string)

  /**
   The answer to a confirmation and the ledger after it: refused and untouched unless its claim is honoured; then
   exactly the claimed rows are deleted in one batch, or nothing is.
   */
  ghost predicate ConfirmOutcome(t: Tables, after: Tables, faulted: bool, claim: Option<DeleteRequest>,
                                 request: RequestContext, token: string, now: int,
                                 r: Result<seq<Transaction>, AppError>)
  {
    if !Honoured(claim, request, now) then r == Err(ConfirmationRefused) && after == t && !faulted
    else if faulted then r == Err(Rejected(StatementFailed)) && after == t
    else
      match AppliedBatch(t, ConfirmRequest(request, token), DeletesOf(claim.value.ids))
      case Ok((t', rows)) => r == Ok(rows) && after == t'
      case Err(e) => r == Err(e) && after == t
  }

  class DeleteConfirmer {
    const service: LedgerService
    var pending: map<string, DeleteRequest>
    var issued: nat

    constructor (service: LedgerService)
      ensures this.service == service && Table() == TokenTable(map[], 0)
    {
      this.service, pending, issued := service, map[], 0;
    }

    function Table(): TokenTable
      reads this
    {
      TokenTable(pending, issued)
    }

    /** Prepare: entropy says whether the random source delivered. */
    method Prepare(request: RequestContext, ids: seq<int64>, summary: string, now: int, entropy: bool)
      returns (r: Result<Confirmation, AppError>)
      modifies this
      ensures r == if !ValidRequest(request) then Err(Rejected(InvalidRequest))
                   else if ids == [] then Err(Rejected(EmptyBatch))
                   else if !entropy then Err(NoRandomness)
                   else Ok(Confirmation(TokenText(old(issued)), now + FIVE_MINUTES, |ids|, summary))
      ensures Table() == if r.Ok? then PrepareToken(old(Table()), request, ids, now) else old(Table())
    {
      if !ValidRequest(request) {
        return Err(Rejected(InvalidRequest));
      }
      if |ids| == 0 {
        return Err(Rejected(EmptyBatch));
      }
      if !entropy {
        return Err(NoRandomness);
      }
      var token, expires := TokenText(issued), now + FIVE_MINUTES;
      pending := pending[token := DeleteRequest(request, ids, expires)];
      issued := issued + 1;
      r := Ok(Confirmation(token, expires, |ids|, summary));
    }

    /** The lock section of Confirm: the token leaves the map whatever happens next. */
    method Take(token: string) returns (claim: Option<DeleteRequest>)
      modifies this
      ensures claim == ClaimOf(old(Table()), token)
      ensures Table() == TakeToken(old(Table()), token)
    {
      claim := None;
      if token in pending {
        claim := Some(pending[token]);
        pending := pending - {token};
      }
    }

    /** Confirm: claim, check, delete in one batch. */
    method Confirm(request: RequestContext, token: string, now: int) returns (r: Result<seq<Transaction>, AppError>)
      requires service.store.Valid()
      modifies this, service.store
      ensures service.store.Valid()
      ensures Table() == TakeToken(old(Table()), token)
      ensures ConfirmOutcome(old(service.store.Current()), service.store.Current(),
                             service.store.faults > old(service.store.faults),
                             ClaimOf(old(Table()), token), request, token, now, r)
    {
      var claim := Take(token);
      if !Honoured(claim, request, now) {
        return Err(ConfirmationRefused);
      }
      var mutations := [];
      var i := 0;
      while i < |claim.value.ids|
        invariant 0 <= i <= |claim.value.ids| && |mutations| == i
        invariant forall j :: 0 <= j < i ==> mutations[j] == Mutation(Delete, claim.value.ids[j], NO_INPUT)
      {
        mutations := mutations + [Mutation(Delete, claim.value.ids[i], NO_INPUT)];
        i := i + 1;
      }
      assert mutations == DeletesOf(claim.value.ids);
      r := service.ApplyMutations(ConfirmRequest(request, token), mutations);
    }
  }

  // ----- every interleaving -----

  datatype Stage = Taken | Checked | Closed

  /** One call of Confirm in flight: what it claimed, how far it is, and when it was checked. */
  datatype Flight = Flight(request: RequestContext, token: string, claim: Option<DeleteRequest>, stage: Stage,
                           checkedAt: int)

  /** The ledger, the token table, the log of all preparations, and all Confirm calls so far. */
  datatype System = System(tables: Tables, tokens: TokenTable, prepared: seq<Prepared>, flights: seq<Flight>)

  const START := System(EMPTY, TokenTable(map[], 0), [], [])

  datatype Step =
    | Write(request: RequestContext, ms: seq<Mutation>, fault: bool)   // the one batch of a Handle call
    | Prepare(request: RequestContext, ids: seq<int64>, now: int)
    | Take(request: RequestContext, token: string)                     // Confirm's lock section
    | Check(call: nat, now: int)                                       // Confirm's clock reading and comparison
    | DeleteRows(call: nat, fault: bool)                               // Confirm's batch
    | Restart                                                          // the process ends: its memory is lost

  predicate NoDeletes(ms: seq<Mutation>) {
    forall i :: 0 <= i < |ms| ==> ms[i].kind != Delete
  }

  predicate InStage(sys: System, call: nat, stage: Stage) {
    call < |sys.flights| && sys.flights[call].stage == stage
  }

  function CloseAll(flights: seq<Flight>): (r: seq<Flight>)
    ensures |r| == |flights| && forall i :: 0 <= i < |r| ==> r[i] == flights[i].(stage := Closed)
  {
    seq(|flights|, i requires 0 <= i < |flights| => flights[i].(stage := Closed))
  }

  function CheckFlight(f: Flight, now: int): Flight {
    if Honoured(f.claim, f.request, now) then f.(stage := Checked, checkedAt := now) else f.(stage := Closed)
  }

  function DeleteAttempt(f: Flight, fault: bool): Attempt
    requires f.claim.Some?
  {
    Attempt(ConfirmRequest(f.request, f.token), DeletesOf(f.claim.value.ids), fault)
  }

  /** A delete step runs a batch when its call has been checked. */
  predicate Deletes(sys: System, step: Step) {
    step.DeleteRows? && InStage(sys, step.call, Checked) && sys.flights[step.call].claim.Some?
  }

  function Next(sys: System, step: Step): System {
    match step
    case Write(request, ms, fault) =>
      if NoDeletes(ms) then sys.(tables := After(sys.tables, Attempt(request, ms, fault))) else sys
    case Prepare(request, ids, now) =>
      if ValidRequest(request) && ids != [] then
        sys.(tokens := PrepareToken(sys.tokens, request, ids, now),
            prepared := sys.prepared + [Prepared(request, ids, now)])
      else sys
    case Take(request, token) =>
      sys.(tokens := TakeToken(sys.tokens, token),
      flights := sys.flights + [Flight(request, token, ClaimOf(sys.tokens, token), Taken, 0)])
    case Check(call, now) =>
      if !InStage(sys, call, Taken) then sys
      else sys.(flights := sys.flights[call := CheckFlight(sys.flights[call], now)])
    case DeleteRows(call, fault) =>
      if !Deletes(sys, step) then sys
      else sys.(tables := After(sys.tables, DeleteAttempt(sys.flights[call], fault)),
           flights := sys.flights[call := sys.flights[call].(stage := Closed)])
    case Restart =>
      sys.(tokens := sys.tokens.(pending := map[]), flights := CloseAll(sys.flights))
  }

  function RunFrom(sys: System, steps: seq<Step>): System {
    if steps == [] then sys else Next(RunFrom(sys, steps[..|steps| - 1]), steps[|steps| - 1])
  }

  function RunSystem(steps: seq<Step>): System {
    RunFrom(START, steps)
  }

  lemma {:induction false} RunFromConcat(sys: System, a: seq<Step>, b: seq<Step>)
    ensures RunFrom(sys, a + b) == RunFrom(RunFrom(sys, a), b)
    decreases |b|
  {
    hide Next;
    if b == [] {
      assert a + b == a;
    } else {
      assert (a + b)[..|a + b| - 1] == a + b[..|b| - 1];
      RunFromConcat(sys, a, b[..|b| - 1]);
    }
  }

  /** A batch that the service applied is one write of the machine. */
  lemma AppliedIsAfter(t: Tables, request: RequestContext, ms: seq<Mutation>)
    requires AppliedBatch(t, request, ms).Ok?
    ensures After(t, Attempt(request, ms, false)) == AppliedBatch(t, request, ms).value.0
  {
    hide ApplyBatch, CheckRequest;
  }

  /** One call of Confirm, run alone, is its three steps of the machine. */
  lemma ConfirmIsSteps(sys: System, after: Tables, faulted: bool, request: RequestContext, token: string, now: int,
                       r: Result<seq<Transaction>, AppError>)
    requires ConfirmOutcome(sys.tables, after, faulted, ClaimOf(sys.tokens, token), request, token, now, r)
    ensures var call := |sys.flights|;
            var end := RunFrom(sys, [Step.Take(request, token), Step.Check(call, now), Step.DeleteRows(call, r.Err?)]);
            end.tables == after && end.tokens == TakeToken(sys.tokens, token) && end.prepared == sys.prepared
  {
    hide AppliedBatch, After, DeletesOf;
    var call, claim := |sys.flights|, ClaimOf(sys.tokens, token);
    var one, two, three := Step.Take(request, token), Step.Check(call, now), Step.DeleteRows(call, r.Err?);
    assert [one, two, three][..2] == [one, two] && [one, two][..1] == [one] && [one][..0] == [];
    var sys1 := Next(sys, one);
    var sys2 := Next(sys1, two);
    assert RunFrom(sys, [one, two, three]) == Next(sys2, three) by {
      hide Next;
      assert RunFrom(sys, [one]) == sys1;
      assert RunFrom(sys, [one, two]) == sys2;
    }
    if Honoured(claim, request, now) {
      if r.Ok? {
        AppliedIsAfter(sys.tables, ConfirmRequest(request, token), DeletesOf(claim.value.ids));
      } else {
        FaultKeeps(sys.tables, DeleteAttempt(sys2.flights[call], true));
      }
    }
  }

  lemma FaultKeeps(t: Tables, a: Attempt)
    requires a.fault
    ensures After(t, a) == t
  {
  }

  // ----- the invariant -----

  /** token is the k-th issued one, and claim is what was prepared under it. */
  ghost predicate BackedBy(prepared: seq<Prepared>, token: string, claim: DeleteRequest, k: nat) {
    && k < |prepared| && token == TokenText(k)
    && claim == DeleteRequest(prepared[k].request, prepared[k].ids, prepared[k].at + FIVE_MINUTES)
  }

  ghost predicate Backed(prepared: seq<Prepared>, token: string, claim: DeleteRequest) {
    exists k: nat :: BackedBy(prepared, token, claim, k)
  }

  lemma BackedGrows(prepared: seq<Prepared>, p: Prepared, token: string, claim: DeleteRequest)
    requires Backed(prepared, token, claim)
    ensures Backed(prepared + [p], token, claim)
    ensures token != TokenText(|prepared|)
  {
    var k: nat :| BackedBy(prepared, token, claim, k);
    assert BackedBy(prepared + [p], token, claim, k);
  }

  ghost predicate TokensSound(sys: System) {
    && sys.tokens.issued == |sys.prepared|
    && (forall token :: token in sys.tokens.pending ==> Backed(sys.prepared, token, sys.tokens.pending[token]))
  }

  /** A claimed token has left the table; a checked call was honoured in time. */
  ghost predicate FlightSound(sys: System, f: Flight) {
    && (f.claim.Some? ==> Backed(sys.prepared, f.token, f.claim.value) && f.token !in sys.tokens.pending)
    && (f.stage == Checked ==> Honoured(f.claim, f.request, f.checkedAt))
  }

  ghost predicate FlightsSound(sys: System) {
    && (forall c :: 0 <= c < |sys.flights| ==> FlightSound(sys, sys.flights[c]))
    && (forall b, c :: 0 <= b < c < |sys.flights| && sys.flights[b].claim.Some? && sys.flights[c].claim.Some? ==>
          sys.flights[b].token != sys.flights[c].token)
  }

  ghost predicate SystemInvariant(sys: System) {
    TokensSound(sys) && FlightsSound(sys) && Invariant(sys.tables)
  }

  lemma AfterKeepsInvariant(t: Tables, a: Attempt)
    requires Invariant(t)
    ensures Invariant(After(t, a)) && Grows(t, After(t, a))
  {
    hide Invariant, Grows, ApplyBatch;
    GrowsReflexive(t);
    if !a.fault && ApplyBatch(t, a.request, a.ms).Ok? {
      BatchKeepsInvariant(t, a.request, a.ms);
    }
  }

  lemma PrepareKeeps(sys: System, request: RequestContext, ids: seq<int64>, now: int)
    requires SystemInvariant(sys)
    ensures SystemInvariant(Next(sys, Step.Prepare(request, ids, now)))
  {
    hide Invariant, ValidRequest, Backed;
    var p, n := Prepared(request, ids, now), |sys.prepared|;
    var sys' := Next(sys, Step.Prepare(request, ids, now));
    NewlyBacked(sys.prepared, p);
    forall token | token in sys.tokens.pending
      ensures Backed(sys.prepared + [p], token, sys.tokens.pending[token]) && token != TokenText(n)
    {
      BackedGrows(sys.prepared, p, token, sys.tokens.pending[token]);
    }
    forall c | 0 <= c < |sys'.flights|
      ensures FlightSound(sys', sys'.flights[c])
    {
      var f := sys.flights[c];
      assert FlightSound(sys, f);
      if f.claim.Some? {
        BackedGrows(sys.prepared, p, f.token, f.claim.value);
      }
    }
  }

  lemma NewlyBacked(prepared: seq<Prepared>, p: Prepared)
    ensures Backed(prepared + [p], TokenText(|prepared|), DeleteRequest(p.request, p.ids, p.at + FIVE_MINUTES))
  {
    var claim := DeleteRequest(p.request, p.ids, p.at + FIVE_MINUTES);
    assert BackedBy(prepared + [p], TokenText(|prepared|), claim, |prepared|);
  }

  lemma TakeKeeps(sys: System, request: RequestContext, token: string)
    requires SystemInvariant(sys)
    ensures SystemInvariant(Next(sys, Step.Take(request, token)))
  {
    hide Invariant;
    var sys' := Next(sys, Step.Take(request, token));
    forall c | 0 <= c < |sys'.flights|
      ensures FlightSound(sys', sys'.flights[c])
    {
      if c < |sys.flights| {
        assert FlightSound(sys, sys.flights[c]);
      }
    }
    forall b | 0 <= b < |sys.flights| && sys.flights[b].claim.Some? && token in sys.tokens.pending
      ensures sys.flights[b].token != token
    {
      assert FlightSound(sys, sys.flights[b]);
    }
  }

  lemma FlightChangeKeeps(sys: System, call: nat, f: Flight)
    requires TokensSound(sys) && FlightsSound(sys) && call < |sys.flights|
    requires FlightSound(sys, f) && f.claim == sys.flights[call].claim && f.token == sys.flights[call].token
    ensures TokensSound(sys.(flights := sys.flights[call := f]))
            && FlightsSound(sys.(flights := sys.flights[call := f]))
  {
    var sys' := sys.(flights := sys.flights[call := f]);
    forall c | 0 <= c < |sys'.flights|
      ensures FlightSound(sys', sys'.flights[c])
    {
      assert FlightSound(sys, sys.flights[c]);
    }
  }

  lemma RestartKeeps(sys: System)
    requires SystemInvariant(sys)
    ensures SystemInvariant(Next(sys, Restart))
  {
    hide Invariant;
    var sys' := Next(sys, Restart);
    forall c | 0 <= c < |sys'.flights|
      ensures FlightSound(sys', sys'.flights[c])
    {
      assert FlightSound(sys, sys.flights[c]);
    }
  }

  lemma StepKeepsInvariant(sys: System, step: Step)
    requires SystemInvariant(sys)
    ensures SystemInvariant(Next(sys, step))
  {
    hide Invariant, After, NoDeletes, PrepareToken, TakeToken;
    match step
    case Write(request, ms, fault) =>
      AfterKeepsInvariant(sys.tables, Attempt(request, ms, fault));
      SameTokens(sys, After(sys.tables, Attempt(request, ms, fault)));
    case Prepare(request, ids, now) => PrepareKeeps(sys, request, ids, now);
    case Take(request, token) => TakeKeeps(sys, request, token);
    case Check(call, now) =>
      if InStage(sys, call, Taken) {
        assert FlightSound(sys, sys.flights[call]);
        FlightChangeKeeps(sys, call, CheckFlight(sys.flights[call], now));
      }
    case DeleteRows(call, fault) =>
      if Deletes(sys, step) {
        assert FlightSound(sys, sys.flights[call]);
        var t := After(sys.tables, DeleteAttempt(sys.flights[call], fault));
        AfterKeepsInvariant(sys.tables, DeleteAttempt(sys.flights[call], fault));
        FlightChangeKeeps(sys, call, sys.flights[call].(stage := Closed));
        SameTokens(sys.(flights := sys.flights[call := sys.flights[call].(stage := Closed)]), t);
      }
    case Restart => RestartKeeps(sys);
  }

  lemma SameTokens(sys: System, t: Tables)
    requires TokensSound(sys) && FlightsSound(sys)
    ensures TokensSound(sys.(tables := t)) && FlightsSound(sys.(tables := t))
  {
    forall c | 0 <= c < |sys.flights|
      ensures FlightSound(sys.(tables := t), sys.flights[c])
    {
      assert FlightSound(sys, sys.flights[c]);
    }
  }

  lemma {:induction false} SystemRunInvariant(steps: seq<Step>)
    ensures SystemInvariant(RunSystem(steps))
    decreases |steps|
  {
    hide SystemInvariant, Next;
    if steps == [] {
      StartIsSound();
    } else {
      SystemRunInvariant(steps[..|steps| - 1]);
      StepKeepsInvariant(RunSystem(steps[..|steps| - 1]), steps[|steps| - 1]);
    }
  }

  lemma StartIsSound()
    ensures SystemInvariant(START)
  {
  }

  /** In every run the next token is neither pending nor claimed: issuing it overwrites nothing. */
  lemma NextTokenIsFresh(steps: seq<Step>)
    ensures var sys := RunSystem(steps); var token := TokenText(sys.tokens.issued);
            && token !in sys.tokens.pending
            && forall c :: 0 <= c < |sys.flights| && sys.flights[c].claim.Some? ==> sys.flights[c].token != token
  {
    hide RunSystem, Invariant, Backed;
    SystemRunInvariant(steps);
    var sys := RunSystem(steps);
    var p := Prepared(RequestContext(Scope("", "", ""), "", ZERO), [], 0);
    if TokenText(sys.tokens.issued) in sys.tokens.pending {
      BackedGrows(sys.prepared, p, TokenText(sys.tokens.issued), sys.tokens.pending[TokenText(sys.tokens.issued)]);
    }
    forall c | 0 <= c < |sys.flights| && sys.flights[c].claim.Some?
      ensures sys.flights[c].token != TokenText(sys.tokens.issued)
    {
      assert FlightSound(sys, sys.flights[c]);
      BackedGrows(sys.prepared, p, sys.flights[c].token, sys.flights[c].claim.value);
    }
  }

  // ----- provenance of deletions -----

  /** Every event a batch adds is that of one of its mutations. */
  lemma NewEvent(t: Tables, a: Attempt, p: nat)
    requires Invariant(t) && |t.audit| <= p < |After(t, a).audit|
    ensures exists j, id :: 0 <= j < |a.ms| && Records(After(t, a).audit[p], a.request, a.ms[j], id)
  {
    hide Invariant, ApplyAll, ReadAll, CheckBatch;
    if a.request.source !in t.batches {
      FirstUseAppliesAll(t, a.request, a.ms);
      var t' := ApplyBatch(t, a.request, a.ms).value.0;
      var ids := t'.batches[a.request.source].ids;
      var j := p - |t.audit|;
      assert Records(t'.audit[|t.audit| + j], a.request, a.ms[j], ids[j]);
    }
  }

  /** The tables only change by attempts, so the audit log only grows. */
  lemma StepGrowsAudit(sys: System, step: Step)
    requires SystemInvariant(sys)
    ensures |sys.tables.audit| <= |Next(sys, step).tables.audit|
    ensures Next(sys, step).tables.audit[..|sys.tables.audit|] == sys.tables.audit
  {
    hide After, Invariant;
    assert sys.tables.audit[..|sys.tables.audit|] == sys.tables.audit;
    match step
    case Write(request, ms, fault) => AfterKeepsInvariant(sys.tables, Attempt(request, ms, fault));
    case DeleteRows(call, fault) =>
      if Deletes(sys, step) {
        AfterKeepsInvariant(sys.tables, DeleteAttempt(sys.flights[call], fault));
      }
    case _ =>
  }

  /** The k-th preparation entitles the checked call f to delete the row of event e. */
  ghost predicate Entitled(sys: System, f: Flight, k: nat, e: Event) {
    && k < |sys.prepared| && f.token == TokenText(k)
    && e.id in sys.prepared[k].ids && sys.prepared[k].request.scope == f.request.scope == e.scope
    && f.checkedAt <= sys.prepared[k].at + FIVE_MINUTES
    && e.source == f.request.source + ":delete:" + f.token
  }

  lemma WritesNeverDelete(t: Tables, a: Attempt, p: nat)
    requires Invariant(t) && NoDeletes(a.ms) && |t.audit| <= p < |After(t, a).audit|
    ensures After(t, a).audit[p].action != Delete
  {
    hide Invariant, After;
    NewEvent(t, a, p);
    var j, id :| 0 <= j < |a.ms| && Records(After(t, a).audit[p], a.request, a.ms[j], id);
  }

  lemma DeleteStepIsEntitled(sys: System, step: Step, p: nat) returns (k: nat)
    requires SystemInvariant(sys) && |sys.tables.audit| <= p < |Next(sys, step).tables.audit|
    requires Next(sys, step).tables.audit[p].action == Delete
    ensures Deletes(sys, step)
    ensures Entitled(sys, sys.flights[step.call], k, Next(sys, step).tables.audit[p])
  {
    hide Invariant, After;
    var e := Next(sys, step).tables.audit[p];
    k := 0;
    match step
    case Write(request, ms, fault) =>
      if NoDeletes(ms) {
        WritesNeverDelete(sys.tables, Attempt(request, ms, fault), p);
      }
    case DeleteRows(call, fault) =>
      if Deletes(sys, step) {
        var f := sys.flights[call];
        var a := DeleteAttempt(f, fault);
        NewEvent(sys.tables, a, p);
        var j, id :| 0 <= j < |a.ms| && Records(e, a.request, a.ms[j], id);
        assert FlightSound(sys, f);
        k :| BackedBy(sys.prepared, f.token, f.claim.value, k);
        assert e.id == f.claim.value.ids[j];
      }
    case _ =>
  }

  /**
   Every delete event of every run was added by a confirmation whose token had been prepared before, for that
   row, by the same user, guild and channel, and was checked at most five minutes after its preparation.
   */
  lemma {:induction false} DeletionsAreConfirmed(steps: seq<Step>, p: nat) returns (n: nat, k: nat)
    requires p < |RunSystem(steps).tables.audit| && RunSystem(steps).tables.audit[p].action == Delete
    ensures n < |steps| && Deletes(RunSystem(steps[..n]), steps[n])
    ensures var sys := RunSystem(steps[..n]);
            Entitled(sys, sys.flights[steps[n].call], k, RunSystem(steps).tables.audit[p])
    decreases |steps|
  {
    hide SystemInvariant, Entitled, Deletes, Next, Value;
    assert steps != [] by {
      assert RunSystem([]) == START;
    }
    var front, last := steps[..|steps| - 1], steps[|steps| - 1];
    var sys := RunSystem(front);
    SystemRunInvariant(front);
    StepGrowsAudit(sys, last);
    if p < |sys.tables.audit| {
      assert RunSystem(steps).tables.audit[p] == RunSystem(steps).tables.audit[..|sys.tables.audit|][p];
      n, k := DeletionsAreConfirmed(front, p);
      assert front[..n] == steps[..n] && front[n] == steps[n];
    } else {
      k := DeleteStepIsEntitled(sys, last, p);
      n := |steps| - 1;
    }
  }

  /** Calls are never forgotten, keep their token and claim, and once closed stay closed. */
  lemma {:induction false} FlightsPersist(steps: seq<Step>, i: nat, c: nat)
    requires i <= |steps| && c < |RunSystem(steps[..i]).flights|
    ensures c < |RunSystem(steps).flights|
    ensures RunSystem(steps).flights[c].token == RunSystem(steps[..i]).flights[c].token
    ensures RunSystem(steps).flights[c].claim == RunSystem(steps[..i]).flights[c].claim
    ensures RunSystem(steps[..i]).flights[c].stage == Closed ==> RunSystem(steps).flights[c].stage == Closed
    decreases |steps|
  {
    hide After, Honoured;
    if i == |steps| {
      assert steps[..i] == steps;
    } else {
      var front := steps[..|steps| - 1];
      assert front[..i] == steps[..i];
      FlightsPersist(front, i, c);
    }
  }

  /** No token is behind two delete batches, however the steps of concurrent confirmations interleave. */
  lemma TokensDeleteOnce(steps: seq<Step>, m: nat, n: nat)
    requires m < n < |steps|
    requires Deletes(RunSystem(steps[..m]), steps[m]) && Deletes(RunSystem(steps[..n]), steps[n])
    ensures RunSystem(steps[..m]).flights[steps[m].call].token != RunSystem(steps[..n]).flights[steps[n].call].token
  {
    hide After, Honoured, Invariant, TokensSound, RunSystem;
    assert steps[..n][..m] == steps[..m];
    var before, later := RunSystem(steps[..m]), RunSystem(steps[..n]);
    var c, d := steps[m].call, steps[n].call;
    RunStep(steps, m);
    assert steps[..n][..m + 1] == steps[..m + 1];
    assert RunSystem(steps[..m + 1]).flights[c].stage == Closed;
    FlightsPersist(steps[..n], m + 1, c);
    SystemRunInvariant(steps[..n]);
  }

  lemma RunStep(steps: seq<Step>, m: nat)
    requires m < |steps|
    ensures RunSystem(steps[..m + 1]) == Next(RunSystem(steps[..m]), steps[m])
  {
    assert steps[..m + 1][..m] == steps[..m];
  }

  lemma {:induction false} DeletedRowsHaveDeleteEvents(log: seq<Event>, id: int) returns (p: nat)
    requires EndsDeleted(History(log, id))
    ensures p < |log| && log[p].action == Delete && log[p].id == id
    decreases |log|
  {
    var front, e := log[..|log| - 1], log[|log| - 1];
    if e.id == id {
      p := |log| - 1;
    } else {
      assert History(log, id) == History(front, id);
      p := DeletedRowsHaveDeleteEvents(front, id);
    }
  }

  /**
   A row that is deleted in a reachable state was deleted by a confirmed request naming it; without one, no row
   is.
   */
  lemma DeletedRowsWereConfirmed(steps: seq<Step>, id: int) returns (n: nat, k: nat)
    requires id in RunSystem(steps).tables.rows && RunSystem(steps).tables.rows[id].deletedAt.Some?
    ensures n < |steps| && Deletes(RunSystem(steps[..n]), steps[n])
    ensures k < |RunSystem(steps[..n]).prepared| && id in RunSystem(steps[..n]).prepared[k].ids
  {
    hide RunSystem, Deletes, History, LegalLog, Replay, Creates, BatchesSound, TokensSound, FlightsSound;
    var t := RunSystem(steps).tables;
    SystemRunInvariant(steps);
    HistoriesAreWellFormed(t.audit, id);
    var p := DeletedRowsHaveDeleteEvents(t.audit, id);
    n, k := DeletionsAreConfirmed(steps, p);
  }
}
