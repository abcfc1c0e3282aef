/**
 One user message from end to end (internal/app/orchestrator.go): pending
 clarifications, dispatching tool calls, and the single mutation batch.
 */
module Orchestrator {
  import opened Wrappers
  import opened Text
  import opened Amounts
  import opened Ledger
  import opened Batches
  import opened SqliteStore
  import opened Provider
  import opened Service
  import opened Deletions

  /** Ten minutes of the process clock, in nanoseconds. */
  const TEN_MINUTES := 600_000_000_000

  // ----- pending clarifications -----

  datatype Pending = Pending(message: string, expires: int)

  type PendingMap = map<string, Pending>

  /** strings.EqualFold against a word given in lower and in upper case. */
  predicate FoldsTo(s: string, lower: string, upper: string)
    requires |lower| == |upper|
  {
    |s| == |lower| && forall i :: 0 <= i < |s| ==> s[i] == lower[i] || s[i] == upper[i]
  }

  predicate IsCancel(message: string) {
    var word := TrimRight(TrimLeft(message));
    FoldsTo(word, "hủy", "HỦY") || FoldsTo(word, "huy", "HUY")
  }

  /** What becomes of a message before the provider is asked. */
  datatype Delivery = Cancel | Expire | Send(text: string)

  function Deliver(pending: PendingMap, user: string, message: string, now: int): Delivery {
    if IsCancel(message) then Cancel
    else if user !in pending then Send(message)
    else if now < pending[user].expires then Send(pending[user].message + "\n" + message)
    else Expire
  }

  // ----- dispatching one call -----

  datatype Complaint = Ask | Fail

  /**
   What one call meets: a complaint of decoding, validating or reading; otherwise the decoded input and id,
   whether the row to delete was found, a read's result, the random source and the clock.
   */
  datatype Met = Met(complaint: Option<Complaint>, input: Input, id: int64, found: bool, result: string,
                     entropy: bool, now: int)

  /**
   The closure's variables: queued mutations, tool messages, the phase, the deletions prepared so far, the
   serial of the first token they get, the file to export, and how many calls were dispatched.
   */
  datatype Session = Session(
    mutations: seq<Mutation>, messages: seq<string>, mutationPhase: bool, prepares: seq<Prepared>,
    serial: nat, exported: Option<string>, calls: nat)

  function Opened(serial: nat, exported: Option<string>): Session {
    Session([], [], false, [], serial, exported, 0)
  }

  const QUEUED := "{\"queued\":true}"
  const EXPORT_READY := "Đã chuẩn bị tệp CSV giao dịch."

  function Noted(s: Session, text: string): Session {
    if IsBlank(text) then s else s.(messages := s.messages + [text])
  }

  /** The confirmation prompt ends with the token. */
  function Prompt(id: int64, token: string): string {
    "Xác nhận xóa 1 giao dịch (giao dịch #" + FormatInt(id) + ") trong 5 phút: delete:" + token
  }

  function QueuedBy(call: Call, met: Met): seq<Mutation> {
    if met.complaint.Some? then []
    else if call.name == "create_transaction" then [Mutation(Create, 0, met.input)]
    else if call.name == "update_transaction" then [Mutation(Update, met.id, met.input)]
    else if call.name == "restore_transaction" then [Mutation(Restore, met.id, NO_INPUT)]
    else []
  }

  function DispatchDelete(request: RequestContext, s: Session, met: Met): (Session, Result<string, AppError>) {
    if !met.found then (s, Err(Clarify))
    else if !met.entropy then (s, Err(NoRandomness))
    else
      var text := Prompt(met.id, TokenText(s.serial + |s.prepares|));
      (Noted(s.(prepares := s.prepares + [Prepared(request, [met.id], met.now)]), text), Ok(text))
  }

  function DispatchRead(s: Session, call: Call, met: Met): (Session, Result<string, AppError>) {
    if call.name == "export_transactions" then
      (Noted(s.(exported := Some(met.result)), EXPORT_READY), Ok(EXPORT_READY))
    else if call.name == "search_transactions" || call.name == "get_statistics" then
      (Noted(s, met.result), Ok(met.result))
    else (s, Err(ToolFailed))
  }

  /** The dispatch closure of Handle. */
  function Dispatch(request: RequestContext, s: Session, call: Call, met: Met): (Session, Result<string, AppError>) {
    if s.mutationPhase && !IsMutationTool(call.name) then (s, Err(MustReadFirst)) else
      var s1 := s.(mutationPhase := s.mutationPhase || IsMutationTool(call.name), calls := s.calls + 1);
      if met.complaint.Some? then (s1, Err(if met.complaint.value.Ask? then Clarify else ToolFailed))
      else if call.name == "delete_transaction" then DispatchDelete(request, s1, met)
      else if IsMutationTool(call.name) then (s1.(mutations := s1.mutations + QueuedBy(call, met)), Ok(QUEUED))
      else DispatchRead(s1, call, met)
  }

  /** The k-th dispatched call meets meets(k). */
  function Stepper(request: RequestContext, meets: nat -> Met): Dispatcher<Session, AppError> {
    (s: Session, call: Call) => Dispatch(request, s, call, meets(s.calls))
  }

  // ----- asking the provider -----

  /** The provider: whether it can continue after tool calls, its replies, and the round limit. */
  datatype ProviderModel = ProviderModel(continues: bool, replies: nat -> Reply, maxRounds: int)

  type Talked = (Session, Result<Response, LoopError<AppError>>)

  /** Calls of a single response, dispatched until one fails. */
  function DispatchEach(step: Dispatcher<Session, AppError>, s: Session, calls: seq<Call>)
    : (Session, Option<AppError>)
  {
    if calls == [] then (s, None) else
      var front := DispatchEach(step, s, calls[..|calls| - 1]);
      if front.1.Some? then front else
        match step(front.0, calls[|calls| - 1])
        case (next, Ok(_)) => (next, None)
        case (next, Err(e)) => (next, Some(e))
  }

  function AskOnce(step: Dispatcher<Session, AppError>, s: Session, reply: Reply): Talked {
    if Refusal<AppError>(reply).Some? then (s, Err(Refusal(reply).value)) else
      match DispatchEach(step, s, reply.calls)
      case (next, Some(e)) => (next, Err(FromDispatch(e)))
      case (next, None) =>
        (next, Ok(Response(reply.id, reply.text, reply.calls, reply.calls == [] && IsBlank(reply.text), reply.usage)))
  }

  function AskProvider(provider: ProviderModel, request: RequestContext, meets: nat -> Met, text: string,
                       s: Session): Talked {
    var step := Stepper(request, meets);
    if !provider.continues then AskOnce(step, s, provider.replies(0))
    else if provider.maxRounds <= 0 then (s, Err(ProviderFailed))
    else
      var t := Converse(step, text, s, provider.replies, provider.maxRounds);
      (t.state, Outcome(t))
  }

  // ----- what Handle makes of it -----

  datatype Verdict = Question | Failure | Batch(ms: seq<Mutation>) | Reply(response: Response)

  function Judge(talked: Talked): Verdict {
    match talked.1
    case Err(FromDispatch(Clarify)) => Question
    case Err(_) => Failure
    case Ok(response) => if talked.0.mutations != [] then Verdict.Batch(talked.0.mutations) else Verdict.Reply(response)
  }

  /**
   clarificationForToolError looks for words in the error text: amount, category, type and time. A failed
   statement's text is the driver's; wording says whether it contains one of them.
   */
  predicate Recoverable(e: AppError, wording: bool) {
    match e
    case Clarify => true
    case Rejected(error) =>
      error.BadAmount? || error.BadType? || error.BadCategory? || error.NoTimestamp? || error.BadTimestamp?
      || (error.StatementFailed? && wording)
    case _ => false
  }

  datatype Answer =
    | Cancelled | Expired | Asked | Confirmed(rows: seq<Transaction>) | Silent
    | ToolText(messages: seq<string>) | Processed | Analysis(text: string) | Plain(text: string)

  /** How the response's text reads: whether it asks the user back, and whether it is a well-formed analysis. */
  datatype Reading = Reading(asks: string -> bool, analysis: string -> bool)

  predicate IsBraced(text: string) {
    var s := TrimRight(TrimLeft(text));
    s != "" && s[0] == '{'
  }

  predicate AsksBack(response: Response, reading: Reading) {
    !(response.noAction && IsBlank(response.text)) && !IsBraced(response.text) && reading.asks(response.text)
  }

  function Worded(response: Response, messages: seq<string>, reading: Reading): Result<Answer, AppError> {
    if response.noAction && IsBlank(response.text) then Ok(Silent)
    else if IsBlank(response.text) && response.calls != []
         then Ok(if messages != [] then ToolText(messages) else Processed)
    else if IsBraced(response.text) then
      (if reading.analysis(response.text) then Ok(Analysis(response.text)) else Err(BadAnalysis))
    else Ok(Plain(response.text))
  }

  /**
   The answer to a finished conversation, and the ledger after it: untouched unless mutations were queued; then
   either the whole batch of them was applied and is confirmed, or nothing was. armed says that the user is asked
   back and the message is kept.
   */
  ghost predicate Concluded(before: Tables, after: Tables, faulted: bool, request: RequestContext, talked: Talked,
                            reading: Reading, wording: bool, r: Result<Answer, AppError>, armed: bool)
  {
    match Judge(talked)
    case Question => r == Ok(Asked) && armed && after == before
    case Failure => r == Err(ProviderTrouble) && !armed && after == before
    case Reply(response) =>
      r == Worded(response, talked.0.messages, reading) && (armed <==> AsksBack(response, reading)) && after == before
    case Batch(ms) =>
      var outcome: Result<(Tables, seq<Transaction>), AppError> :=
        if faulted then Err(Rejected(StatementFailed)) else AppliedBatch(before, request, ms);
      match outcome
      case Ok((t', rows)) => r == Ok(Confirmed(rows)) && !armed && after == t'
      case Err(e) => after == before && armed == Recoverable(e, wording) && r == if armed then Ok(Asked) else Err(e)
  }

  /** One call of Handle as far as the pending map is concerned. */
  datatype Turn = Turn(request: RequestContext, message: string, checkAt: int, armed: bool, armAt: int)

  function AfterTurn(pending: PendingMap, turn: Turn): PendingMap {
    var user := turn.request.scope.user;
    if !ValidRequest(turn.request) then pending else
      match Deliver(pending, user, turn.message, turn.checkAt)
      case Send(text) =>
        if turn.armed then pending[user := Pending(text, turn.armAt + TEN_MINUTES)] else pending - {user}
      case _ => pending - {user}
  }

  class Orchestrator {
    const ledger: LedgerService
    const deletes: DeleteConfirmer
    var pending: PendingMap
    var exported: Option<string>

    ghost predicate Valid()
      reads this, ledger.store
    {
      deletes.service == ledger && ledger.store.Valid()
    }

    constructor (ledger: LedgerService)
      requires ledger.store.Valid()
      ensures Valid() && this.ledger == ledger && pending == map[] && exported == None && fresh(deletes)
    {
      this.ledger := ledger;
      this.deletes := new DeleteConfirmer(ledger);
      pending, exported := map[], None;
    }

    /** The provider is asked, and each call it makes is dispatched. */
    method Converse(provider: ProviderModel, request: RequestContext, meets: nat -> Met, text: string, s: Session)
      returns (talked: Talked)
      ensures talked == AskProvider(provider, request, meets, text, s)
    {
      hide Provider.Converse, Dispatch, IsMutationTool, Supported, IsBlank;
      var step := Stepper(request, meets);
      if provider.continues {
        var r, state, _ := RespondWithDispatcher(step, text, s, provider.replies, provider.maxRounds);
        return (state, r);
      }
      var reply := provider.replies(0);
      if Refusal<AppError>(reply).Some? {
        return (s, Err(Refusal(reply).value));
      }
      var state := s;
      var i := 0;
      while i < |reply.calls|
        invariant 0 <= i <= |reply.calls|
        invariant DispatchEach(step, s, reply.calls[..i]) == (state, None)
      {
        assert reply.calls[..i + 1][..i] == reply.calls[..i];
        var (next, output) := step(state, reply.calls[i]);
        if output.Err? {
          EachStops(step, s, reply.calls, i + 1);
          return (next, Err(FromDispatch(output.error)));
        }
        state := next;
        i := i + 1;
      }
      assert reply.calls[..i] == reply.calls;
      var silent := |reply.calls| == 0 && IsBlank(reply.text);
      talked := (state, Ok(Response(reply.id, reply.text, reply.calls, silent, reply.usage)));
    }

    /** The preparations of the dispatched delete calls, each under the next fresh token. */
    method PrepareDeletions(request: RequestContext, prepares: seq<Prepared>)
      requires ValidRequest(request)
      requires forall i :: 0 <= i < |prepares| ==> prepares[i].request == request && |prepares[i].ids| == 1
      modifies deletes
      ensures deletes.Table() == PrepareAll(old(deletes.Table()), prepares)
    {
      hide ValidRequest;
      var i := 0;
      while i < |prepares|
        invariant 0 <= i <= |prepares|
        invariant deletes.Table() == PrepareAll(old(deletes.Table()), prepares[..i])
      {
        var _ := deletes.Prepare(request, prepares[i].ids, "", prepares[i].at, true);
        assert prepares[..i + 1][..i] == prepares[..i];
        i := i + 1;
      }
      assert prepares[..i] == prepares;
    }

    /** What Handle does once the provider has answered: at most the one batch of the queued mutations. */
    method Conclude(request: RequestContext, talked: Talked, reading: Reading, wording: bool)
      returns (r: Result<Answer, AppError>, armed: bool)
      requires ledger.store.Valid()
      modifies ledger.store
      ensures ledger.store.Valid()
      ensures Concluded(old(ledger.store.Current()), ledger.store.Current(),
                        ledger.store.faults > old(ledger.store.faults), request, talked, reading, wording, r, armed)
    {
      hide AppliedBatch, Recoverable, IsBlank, IsBraced, Invariant;
      armed := false;
      match Judge(talked) {
        case Question =>
          armed, r := true, Ok(Asked);
        case Failure =>
          r := Err(ProviderTrouble);
        case Batch(ms) =>
          var applied := ledger.ApplyMutations(request, ms);
          match applied {
            case Ok(rows) => r := Ok(Confirmed(rows));
            case Err(e) =>
              armed := Recoverable(e, wording);
              r := if armed then Ok(Asked) else Err(e);
          }
        case Reply(response) =>
          armed, r := AsksBack(response, reading), Worded(response, talked.0.messages, reading);
      }
    }

    /**
     Handle: at most one batch is applied, and only the mutations the calls queued. checkAt and armAt are the
     clock readings at the pending check and when a clarification is stored.
     */
    method Handle(request: RequestContext, message: string, checkAt: int, armAt: int, provider: ProviderModel,
                  meets: nat -> Met, reading: Reading, wording: bool)
      returns (r: Result<Answer, AppError>, armed: bool)
      requires Valid()
      modifies this, deletes, ledger.store
      ensures Valid()
      ensures pending == AfterTurn(old(pending), Turn(request, message, checkAt, armed, armAt))
      ensures !ValidRequest(request) ==>
                r == Err(Rejected(InvalidRequest)) && ledger.store.Current() == old(ledger.store.Current())
                && deletes.Table() == old(deletes.Table()) && exported == old(exported)
      ensures ValidRequest(request) ==>
                match Deliver(old(pending), request.scope.user, message, checkAt)
                case Cancel => r == Ok(Cancelled) && Untouched(old(ledger.store.Current()), old(deletes.Table()))
                case Expire => r == Ok(Expired) && Untouched(old(ledger.store.Current()), old(deletes.Table()))
                case Send(text) =>
                  var talked := AskProvider(provider, request, meets, text, Opened(old(deletes.issued), old(exported)));
                  && deletes.Table() == PrepareAll(old(deletes.Table()), talked.0.prepares)
                  && exported == talked.0.exported
                  && Concluded(old(ledger.store.Current()), ledger.store.Current(),
                               ledger.store.faults > old(ledger.store.faults),
                               request, talked, reading, wording, r, armed)
    {
      hide AskProvider, IsCancel, Concluded, ValidRequest, Invariant, PrepareAll;
      armed := false;
      if !ValidRequest(request) {
        return Err(Rejected(InvalidRequest)), false;
      }
      var user := request.scope.user;
      if IsCancel(message) {
        pending := pending - {user};
        return Ok(Cancelled), false;
      }
      var text := message;
      if user in pending {
        var waiting := pending[user];
        pending := pending - {user};
        if checkAt >= waiting.expires {
          return Ok(Expired), false;
        }
        text := waiting.message + "\n" + message;
      }
      var talked := Converse(provider, request, meets, text, Opened(deletes.issued, exported));
      PreparationsAreValid(provider, request, meets, text, deletes.issued, exported);
      PrepareDeletions(request, talked.0.prepares);
      exported := talked.0.exported;
      r, armed := Conclude(request, talked, reading, wording);
      if armed {
        pending := pending[user := Pending(text, armAt + TEN_MINUTES)];
      } else {
        pending := pending - {user};
      }
    }

    ghost predicate Untouched(t: Tables, tt: TokenTable)
      reads this, ledger.store, deletes
    {
      ledger.store.Current() == t && deletes.Table() == tt
    }

    /** TakeExport hands the prepared file out once. */
    method TakeExport() returns (data: Option<string>)
      modifies `exported
      ensures data == old(exported) && exported == None
    {
      data, exported := exported, None;
    }

    /** ConfirmDelete is the only way to a delete batch. */
    method ConfirmDelete(request: RequestContext, token: string, now: int)
      returns (r: Result<seq<Transaction>, AppError>)
      requires Valid()
      modifies deletes, ledger.store
      ensures Valid()
      ensures deletes.Table() == TakeToken(old(deletes.Table()), token)
      ensures ConfirmOutcome(old(ledger.store.Current()), ledger.store.Current(),
                             ledger.store.faults > old(ledger.store.faults),
                             ClaimOf(old(deletes.Table()), token), request, token, now, r)
    {
      r := deletes.Confirm(request, token, now);
    }
  }

  lemma {:induction false} EachStops(step: Dispatcher<Session, AppError>, s: Session, calls: seq<Call>, k: nat)
    requires k <= |calls| && DispatchEach(step, s, calls[..k]).1.Some?
    ensures DispatchEach(step, s, calls) == DispatchEach(step, s, calls[..k])
    decreases |calls|
  {
    if k == |calls| {
      assert calls[..k] == calls;
    } else {
      assert calls[..|calls| - 1][..k] == calls[..k];
      EachStops(step, s, calls[..|calls| - 1], k);
    }
  }

  /** Every preparation of a session is for one row and by the session's own request. */
  ghost predicate OwnPreparations(s: Session, request: RequestContext) {
    forall i :: 0 <= i < |s.prepares| ==> s.prepares[i].request == request && |s.prepares[i].ids| == 1
  }

  ghost predicate NoQueuedDeletes(s: Session) {
    NoDeletes(s.mutations)
  }

  lemma DispatchKeeps(request: RequestContext, s: Session, call: Call, met: Met)
    requires OwnPreparations(s, request) && NoQueuedDeletes(s)
    ensures OwnPreparations(Dispatch(request, s, call, met).0, request)
    ensures NoQueuedDeletes(Dispatch(request, s, call, met).0)
  {
    hide FormatInt, IsBlank;
  }

  lemma {:induction false} FoldKeeps(request: RequestContext, meets: nat -> Met, s: Session, calls: seq<Call>)
    requires OwnPreparations(s, request) && NoQueuedDeletes(s)
    ensures OwnPreparations(Fold(Stepper(request, meets), s, calls), request)
    ensures NoQueuedDeletes(Fold(Stepper(request, meets), s, calls))
    decreases |calls|
  {
    hide Dispatch, OwnPreparations, NoQueuedDeletes;
    if calls != [] {
      FoldKeeps(request, meets, s, calls[..|calls| - 1]);
      var front := Fold(Stepper(request, meets), s, calls[..|calls| - 1]);
      DispatchKeeps(request, front, calls[|calls| - 1], meets(front.calls));
    }
  }

  lemma {:induction false} EachIsFold(step: Dispatcher<Session, AppError>, s: Session, calls: seq<Call>)
    returns (k: nat)
    ensures k <= |calls| && DispatchEach(step, s, calls).0 == Fold(step, s, calls[..k])
    ensures DispatchEach(step, s, calls).1.None? ==> k == |calls|
    decreases |calls|
  {
    if calls == [] {
      k := 0;
    } else {
      var front := calls[..|calls| - 1];
      k := EachIsFold(step, s, front);
      if DispatchEach(step, s, front).1.None? {
        k := |calls|;
        assert calls[..k] == calls && front[..|front|] == front;
      } else {
        assert front[..k] == calls[..k];
      }
    }
  }

  /** What a conversation leaves in the session is the result of dispatching some calls one after the other. */
  lemma SessionIsFold(provider: ProviderModel, request: RequestContext, meets: nat -> Met, text: string, s: Session)
    returns (calls: seq<Call>)
    ensures AskProvider(provider, request, meets, text, s).0 == Fold(Stepper(request, meets), s, calls)
  {
    hide Provider.Converse, Dispatch, Fold, Supported, IsBlank;
    var step := Stepper(request, meets);
    calls := [];
    FoldNothing(step, s);
    if provider.continues && provider.maxRounds > 0 {
      ConversationFolds(step, text, s, provider.replies, provider.maxRounds);
      calls := Provider.Converse(step, text, s, provider.replies, provider.maxRounds).dispatched;
    } else if !provider.continues && Refusal<AppError>(provider.replies(0)).None? {
      var k := EachIsFold(step, s, provider.replies(0).calls);
      calls := provider.replies(0).calls[..k];
    }
  }

  lemma FoldNothing(step: Dispatcher<Session, AppError>, s: Session)
    ensures Fold(step, s, []) == s
  {
  }

  lemma ConversationFolds(step: Dispatcher<Session, AppError>, text: string, s: Session, replies: nat -> Reply, n: nat)
    ensures var t := Provider.Converse(step, text, s, replies, n); t.state == Fold(step, s, t.dispatched)
  {
    hide EndShape, RequestShape, Fold, Provider.Converse;
    ConversationShape(step, text, s, replies, n);
  }

  /** Whatever the provider asks for, Handle queues no delete, and prepares deletions only in its requester's name. */
  lemma PreparationsAreValid(provider: ProviderModel, request: RequestContext, meets: nat -> Met, text: string,
                             serial: nat, exported: Option<string>)
    ensures var s := AskProvider(provider, request, meets, text, Opened(serial, exported)).0;
            && NoDeletes(s.mutations)
            && forall i :: 0 <= i < |s.prepares| ==> s.prepares[i].request == request && |s.prepares[i].ids| == 1
  {
    hide AskProvider, Dispatch, Fold;
    var calls := SessionIsFold(provider, request, meets, text, Opened(serial, exported));
    FoldKeeps(request, meets, Opened(serial, exported), calls);
  }

  // ----- Handle as steps of the deletion machine -----

  function PrepareSteps(prepares: seq<Prepared>): seq<Step> {
    seq(|prepares|, i requires 0 <= i < |prepares| =>
      Step.Prepare(prepares[i].request, prepares[i].ids, prepares[i].at))
  }

  lemma {:induction false} PrepareAllIsSteps(sys: System, ps: seq<Prepared>)
    requires forall i :: 0 <= i < |ps| ==> ValidRequest(ps[i].request) && ps[i].ids != []
    ensures RunFrom(sys, PrepareSteps(ps)) == sys.(tokens := PrepareAll(sys.tokens, ps), prepared := sys.prepared + ps)
    decreases |ps|
  {
    hide ValidRequest, PrepareToken;
    if ps == [] {
      assert sys.prepared + ps == sys.prepared;
    } else {
      var front, p := ps[..|ps| - 1], ps[|ps| - 1];
      PrepareAllIsSteps(sys, front);
      assert PrepareSteps(ps)[..|ps| - 1] == PrepareSteps(front);
      assert sys.prepared + ps == (sys.prepared + front) + [p];
    }
  }

  /**
   Whatever the provider does, a Handle call is preparations followed by at most one write without deletes: so
   what every run of the machine satisfies holds of every run of Handle and ConfirmDelete.
   */
  lemma HandleIsSteps(sys: System, after: Tables, faulted: bool, provider: ProviderModel, request: RequestContext,
                      meets: nat -> Met, text: string, exported: Option<string>, reading: Reading, wording: bool,
                      r: Result<Answer, AppError>, armed: bool)
    returns (steps: seq<Step>)
    requires ValidRequest(request)
    requires Concluded(sys.tables, after, faulted, request,
             AskProvider(provider, request, meets, text, Opened(sys.tokens.issued, exported)),
                       reading, wording, r, armed)
    ensures forall i :: 0 <= i < |steps| ==> steps[i].Prepare? || steps[i].Write?
    ensures var prepares := AskProvider(provider, request, meets, text, Opened(sys.tokens.issued, exported)).0.prepares;
            RunFrom(sys, steps) ==
                sys.(tables := after, tokens := PrepareAll(sys.tokens, prepares), prepared := sys.prepared + prepares)
  {
    hide AskProvider, AppliedBatch, After, ValidRequest, Recoverable, PrepareAll, RunFrom, Worded, AsksBack;
    var talked := AskProvider(provider, request, meets, text, Opened(sys.tokens.issued, exported));
    PreparationsAreValid(provider, request, meets, text, sys.tokens.issued, exported);
    PrepareAllIsSteps(sys, talked.0.prepares);
    steps := PrepareSteps(talked.0.prepares);
    if Judge(talked).Batch? {
      var ms := Judge(talked).ms;
      var fault := !(r.Ok? && r.value.Confirmed?);
      if fault {
        FaultKeeps(sys.tables, Attempt(request, ms, true));
      } else {
        AppliedIsAfter(sys.tables, request, ms);
      }
      var write := Write(request, ms, fault);
      RunFromConcat(sys, steps, [write]);
      OneStep(RunFrom(sys, steps), write);
      steps := steps + [write];
    }
  }

  lemma OneStep(sys: System, step: Step)
    ensures RunFrom(sys, [step]) == Next(sys, step)
  {
    assert [step][..0] == [];
  }

  // ----- the queue is exactly what the calls asked for -----

  /** The mutations queued by calls, of which the k-th meets meets(k). */
  function MutationsOf(calls: seq<Call>, meets: nat -> Met): seq<Mutation> {
    if calls == [] then []
    else MutationsOf(calls[..|calls| - 1], meets) + QueuedBy(calls[|calls| - 1], meets(|calls| - 1))
  }

  lemma DispatchQueues(request: RequestContext, s: Session, call: Call, met: Met)
    requires IsMutationTool(call.name) || !s.mutationPhase
    ensures var next := Dispatch(request, s, call, met).0;
            && next.mutations == s.mutations + QueuedBy(call, met) && next.calls == s.calls + 1
            && (next.mutationPhase <==> s.mutationPhase || IsMutationTool(call.name))
    ensures Dispatch(request, s, call, met).1 != Err(MustReadFirst)
  {
    hide FormatInt, IsBlank;
  }

  lemma {:induction false} FoldQueues(request: RequestContext, meets: nat -> Met, s: Session, calls: seq<Call>)
    requires ReadsThenMutations(calls) && s.mutations == [] && s.calls == 0 && !s.mutationPhase
    ensures var end := Fold(Stepper(request, meets), s, calls);
            && end.mutations == MutationsOf(calls, meets) && end.calls == |calls|
            && (end.mutationPhase <==> !AllReads(calls))
    decreases |calls|
  {
    hide Dispatch, IsMutationTool, QueuedBy, ReadsThenMutations;
    if calls != [] {
      var front, call := calls[..|calls| - 1], calls[|calls| - 1];
      PhasesOfPrefix(calls);
      FoldQueues(request, meets, s, front);
      var before := Fold(Stepper(request, meets), s, front);
      DispatchQueues(request, before, call, meets(before.calls));
      assert calls == front + [call];
    }
  }

  lemma SuccessPhases(t: Talk<Session, AppError>, replies: nat -> Reply, r: Response)
    requires Succeeded(t, replies, r)
    ensures ReadsThenMutations(t.dispatched) && t.dispatched == r.calls
  {
    hide UsageIsSum, AllReads, ReadsThenMutations;
    var m := |t.sent|;
    JoinPhases(CallsOf(replies, m - 1), replies(m - 1).calls);
  }

  /** When the loop succeeds, the batch Handle applies is exactly what the response's calls queued, in their order. */
  lemma BatchIsWhatWasAsked(provider: ProviderModel, request: RequestContext, meets: nat -> Met, text: string,
                            serial: nat, exported: Option<string>)
    requires provider.continues && provider.maxRounds > 0
    requires AskProvider(provider, request, meets, text, Opened(serial, exported)).1.Ok?
    ensures var talked := AskProvider(provider, request, meets, text, Opened(serial, exported));
            && ReadsThenMutations(talked.1.value.calls)
            && talked.0.mutations == MutationsOf(talked.1.value.calls, meets)
            && talked.0.calls == |talked.1.value.calls|
  {
    hide Provider.Converse, Dispatch, Fold, RequestShape, Succeeded, ReadsThenMutations;
    var step, s := Stepper(request, meets), Opened(serial, exported);
    ConversationShape(step, text, s, provider.replies, provider.maxRounds);
    var t := Provider.Converse(step, text, s, provider.replies, provider.maxRounds);
    SuccessPhases(t, provider.replies, t.result.value.value);
    FoldQueues(request, meets, s, t.dispatched);
  }

  // ----- Handle's own phase guard is unreachable in the loop -----

  lemma {:induction false} PhaseTracksRound(request: RequestContext, meets: nat -> Met, s: Session, calls: seq<Call>)
    requires !s.mutationPhase
    ensures var r := DispatchRound(Stepper(request, meets), s, calls);
            && r.stopped != Some(FromDispatch(MustReadFirst))
            && (r.stopped == None ==> (r.state.mutationPhase <==> r.mutated))
    decreases |calls|
  {
    hide Dispatch, IsMutationTool;
    if calls != [] {
      PhaseTracksRound(request, meets, s, calls[..|calls| - 1]);
      var front, call := DispatchRound(Stepper(request, meets), s, calls[..|calls| - 1]), calls[|calls| - 1];
      if front.stopped == None && !(front.mutated && !IsMutationTool(call.name)) {
        DispatchQueues(request, front.state, call, meets(front.state.calls));
      }
    }
  }

  /** The loop stops a read after a mutation before Handle's dispatch closure could. */
  lemma {:induction false} PhaseGuardIsUnreachable(request: RequestContext, meets: nat -> Met, text: string,
                                                   s: Session, replies: nat -> Reply, n: nat)
    requires !s.mutationPhase
    ensures var t := Provider.Converse(Stepper(request, meets), text, s, replies, n);
            && (t.result == None ==> !t.state.mutationPhase)
            && Outcome(t) != Err(FromDispatch(MustReadFirst))
    decreases n
  {
    hide Dispatch, IsMutationTool, DispatchRound, IsBlank, Supported, AddUsage;
    if n > 0 {
      PhaseGuardIsUnreachable(request, meets, text, s, replies, n - 1);
      var t := Provider.Converse(Stepper(request, meets), text, s, replies, n - 1);
      if t.result == None && replies(n - 1).Answer? {
        PhaseTracksRound(request, meets, t.state, replies(n - 1).calls);
      }
    }
  }

  // ----- whether a deletion's prompt reaches the user -----

  /** Every prepared deletion's prompt, with its token, is among the texts. */
  ghost predicate Prompted(s: Session, texts: seq<string>) {
    forall k :: 0 <= k < |s.prepares| ==>
      |s.prepares[k].ids| == 1 && Prompt(s.prepares[k].ids[0], TokenText(s.serial + k)) in texts
  }

  lemma PromptIsVisible(id: int64, token: string)
    ensures !IsBlank(Prompt(id, token))
  {
    assert Prompt(id, token)[0] == 'X';
  }

  lemma DispatchPrompts(request: RequestContext, s: Session, call: Call, met: Met)
    requires Prompted(s, s.messages)
    ensures var next := Dispatch(request, s, call, met).0;
            && Prompted(next, next.messages) && next.serial == s.serial
            && (next.prepares != s.prepares ==> IsMutationTool(call.name))
  {
    hide Prompt, IsBlank, FormatInt, QueuedBy, TokenText;
    PromptIsVisible(met.id, TokenText(s.serial + |s.prepares|));
  }

  /** Dispatching leaves the prompt of every preparation among the messages; only mutations prepare. */
  lemma {:induction false} FoldPrompts(request: RequestContext, meets: nat -> Met, s: Session, calls: seq<Call>)
    requires s.prepares == []
    ensures var end := Fold(Stepper(request, meets), s, calls);
            && Prompted(end, end.messages) && end.serial == s.serial
            && (end.prepares != [] ==> !AllReads(calls))
    decreases |calls|
  {
    hide Dispatch, IsMutationTool, Prompted;
    if calls == [] {
      assert Prompted(s, s.messages) by {
        NothingPrompted(s);
      }
    } else {
      var front, call := calls[..|calls| - 1], calls[|calls| - 1];
      FoldPrompts(request, meets, s, front);
      var before := Fold(Stepper(request, meets), s, front);
      DispatchPrompts(request, before, call, meets(before.calls));
      assert calls == front + [call];
    }
  }

  lemma NothingPrompted(s: Session)
    requires s.prepares == []
    ensures Prompted(s, s.messages)
  {
  }

  /** A success that prepared a deletion has calls and is not silent. */
  lemma PreparingIsActing(provider: ProviderModel, request: RequestContext, meets: nat -> Met, text: string,
                          serial: nat, exported: Option<string>)
    requires AskProvider(provider, request, meets, text, Opened(serial, exported)).0.prepares != []
    requires AskProvider(provider, request, meets, text, Opened(serial, exported)).1.Ok?
    ensures var response := AskProvider(provider, request, meets, text, Opened(serial, exported)).1.value;
            response.calls != [] && !response.noAction
  {
    var step, s := Stepper(request, meets), Opened(serial, exported);
    if provider.continues {
      hide Provider.Converse, Dispatch, Fold, RequestShape, UsageIsSum, ReadsThenMutations, IsMutationTool, IsBlank;
      ConversationShape(step, text, s, provider.replies, provider.maxRounds);
      var t := Provider.Converse(step, text, s, provider.replies, provider.maxRounds);
      FoldPrompts(request, meets, s, t.dispatched);
    } else {
      hide Dispatch, Fold, IsMutationTool, IsBlank, Supported;
      var k := EachIsFold(step, s, provider.replies(0).calls);
      FoldPrompts(request, meets, s, provider.replies(0).calls[..k]);
    }
  }

  /** What a conversation prepared is prompted for in its messages. */
  lemma ConversationPrompts(provider: ProviderModel, request: RequestContext, meets: nat -> Met, text: string,
                            serial: nat, exported: Option<string>)
    ensures var s := AskProvider(provider, request, meets, text, Opened(serial, exported)).0; Prompted(s, s.messages)
  {
    hide AskProvider, Prompted;
    var calls := SessionIsFold(provider, request, meets, text, Opened(serial, exported));
    FoldPrompts(request, meets, Opened(serial, exported), calls);
  }

  /** The answer consists of tool messages, the prompts of all prepared deletions among them. */
  ghost predicate ShowsPrompts(r: Result<Answer, AppError>, s: Session) {
    r.Ok? && r.value.ToolText? && Prompted(s, r.value.messages)
  }

  /**
   When a message prepares deletions, their prompts are the answer if and only if the provider succeeds, no other
   mutation is queued, and the provider's last text is blank; otherwise the tokens exist and nobody is told.
   */
  lemma PromptsAreShownExactlyWhen(
      before: Tables, after: Tables, faulted: bool, provider: ProviderModel, request: RequestContext, meets: nat -> Met,
      text: string, serial: nat, exported: Option<string>, reading: Reading, wording: bool,
      r: Result<Answer, AppError>, armed: bool)
    requires AskProvider(provider, request, meets, text, Opened(serial, exported)).0.prepares != []
    requires Concluded(before, after, faulted, request,
             AskProvider(provider, request, meets, text, Opened(serial, exported)),
                       reading, wording, r, armed)
    ensures var talked := AskProvider(provider, request, meets, text, Opened(serial, exported));
            ShowsPrompts(r, talked.0) <==> talked.1.Ok? && talked.0.mutations == [] && IsBlank(talked.1.value.text)
  {
    hide AskProvider, AppliedBatch, Recoverable, IsBlank, IsBraced, Prompt;
    var talked := AskProvider(provider, request, meets, text, Opened(serial, exported));
    ConversationPrompts(provider, request, meets, text, serial, exported);
    assert |talked.0.prepares[0].ids| == 1;
    assert talked.0.messages != [];
    if talked.1.Ok? {
      PreparingIsActing(provider, request, meets, text, serial, exported);
    }
  }

  /** A provider that answers every request with one delete call and the given text. */
  function DeletingProvider(text: string): ProviderModel {
    ProviderModel(true, _ => Answer("r", text, [Call("c", "delete_transaction", "{}")], None), 1)
  }

  lemma DeletingConversation(request: RequestContext, meets: nat -> Met, text: string, reply: string, serial: nat,
                             exported: Option<string>)
    requires meets(0).complaint == None && meets(0).found && meets(0).entropy
    ensures var talked := AskProvider(DeletingProvider(reply), request, meets, text, Opened(serial, exported));
            && talked.0.prepares == [Prepared(request, [meets(0).id], meets(0).now)] && talked.0.mutations == []
            && talked.1.Ok? && talked.1.value.text == reply
  {
    hide Prompt;
    var step, s, provider := Stepper(request, meets), Opened(serial, exported), DeletingProvider(reply);
    var call := Call("c", "delete_transaction", "{}");
    assert [call][..0] == [] && [call][0] == call;
    assert !IsBlank("r") by {
      assert "r"[0] == 'r';
    }
    assert step(s, call) == Dispatch(request, s, call, meets(0));
    assert DispatchRound(step, s, [call]) == DispatchOne(step, DispatchRound(step, s, []), call);
    assert Provider.Converse(step, text, s, provider.replies, 0) == Opening(s);
  }

  /** So a deletion can be prepared behind the user's back: the provider says "ok", and "ok" is the whole answer. */
  lemma PromptsCanBeLost(before: Tables, after: Tables, faulted: bool, request: RequestContext, meets: nat -> Met,
                         text: string, serial: nat, exported: Option<string>, reading: Reading, wording: bool,
                         r: Result<Answer, AppError>, armed: bool)
    requires meets(0).complaint == None && meets(0).found && meets(0).entropy
    requires Concluded(before, after, faulted, request,
                       AskProvider(DeletingProvider("ok"), request, meets, text, Opened(serial, exported)),
                       reading, wording, r, armed)
    ensures AskProvider(DeletingProvider("ok"), request, meets, text, Opened(serial, exported)).0.prepares ==
            [Prepared(request, [meets(0).id], meets(0).now)]
    ensures r == Ok(Plain("ok"))
  {
    hide AskProvider, DeletingProvider, AppliedBatch, Recoverable;
    DeletingConversation(request, meets, text, "ok", serial, exported);
    assert "ok"[0] == 'o';
    assert TrimLeft("ok") == "ok" && TrimRight("ok") == "ok";
  }

  // ----- what ends a chain of clarifications -----

  /** A provider or dispatch failure and a completed action leave nothing waiting. */
  lemma FailuresAndActionsDisarm(before: Tables, after: Tables, faulted: bool, request: RequestContext, talked: Talked,
                                 reading: Reading, wording: bool, r: Result<Answer, AppError>, armed: bool)
    requires Concluded(before, after, faulted, request, talked, reading, wording, r, armed)
    ensures Judge(talked).Failure? || (r.Ok? && (r.value.Confirmed? || r.value.Analysis?)) || r.Err? ==> !armed
  {
    hide AppliedBatch, Recoverable, IsBlank, IsBraced;
  }
}
