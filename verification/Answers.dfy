/**
 What the user is told (internal/app/orchestrator.go), decided by the words of the message, by what the calls
 meet, by the provider's last text, and by the rows of the ledger.
 */
module Answers {
  import opened Wrappers
  import opened Text
  import opened Instants
  import opened Amounts
  import opened Ledger
  import opened AuditLog
  import opened Batches
  import opened Acceptance
  import opened Provider
  import opened Service
  import opened Deletions
  import opened Orchestrator
  import opened ToolCalls

  // ----- the word that cancels -----

  /** "huy" or "hủy" in any case stands at i, and there is only white space around it. */
  predicate CancelsAt(message: string, i: nat) {
    && i + 3 <= |message|
    && (message[i] == 'h' || message[i] == 'H')
    && (message[i + 1] == 'u' || message[i + 1] == 'U' || message[i + 1] == 'ủ' || message[i + 1] == 'Ủ')
    && (message[i + 2] == 'y' || message[i + 2] == 'Y')
    && (forall k :: 0 <= k < i ==> IsSpace(message[k]))
    && (forall k :: i + 3 <= k < |message| ==> IsSpace(message[k]))
  }

  ghost predicate TrimsTo(s: string, t: string, i: nat) {
    && i + |t| <= |s| && s[i..i + |t|] == t
    && (forall k :: 0 <= k < i ==> IsSpace(s[k])) && (forall k :: i + |t| <= k < |s| ==> IsSpace(s[k]))
  }

  lemma {:induction false} TrimLeftMeans(s: string) returns (i: nat)
    ensures i + |TrimLeft(s)| == |s| && s[i..] == TrimLeft(s) && forall k :: 0 <= k < i ==> IsSpace(s[k])
    ensures TrimLeft(s) != "" ==> !IsSpace(TrimLeft(s)[0])
    decreases |s|
  {
    hide IsSpace;
    i := 0;
    if s != "" && IsSpace(s[0]) {
      var j := TrimLeftMeans(s[1..]);
      i := j + 1;
      assert s[i..] == s[1..][j..];
      assert forall k :: 0 < k < i ==> s[k] == s[1..][k - 1];
    }
  }

  lemma {:induction false} TrimRightMeans(s: string)
    ensures |TrimRight(s)| <= |s| && s[..|TrimRight(s)|] == TrimRight(s)
    ensures forall k :: |TrimRight(s)| <= k < |s| ==> IsSpace(s[k])
    ensures TrimRight(s) != "" ==> !IsSpace(TrimRight(s)[|TrimRight(s)| - 1])
    decreases |s|
  {
    hide IsSpace;
    if s != "" && IsSpace(s[|s| - 1]) {
      TrimRightMeans(s[..|s| - 1]);
    }
  }

  /** Trimming finds the one stretch that has only white space around it and none at its ends. */
  lemma TrimMeans(s: string) returns (i: nat)
    ensures TrimsTo(s, TrimRight(TrimLeft(s)), i)
    ensures var t := TrimRight(TrimLeft(s)); t != "" ==> !IsSpace(t[0]) && !IsSpace(t[|t| - 1])
  {
    hide IsSpace, TrimLeft, TrimRight;
    i := TrimLeftMeans(s);
    var u := TrimLeft(s);
    TrimRightMeans(u);
    var t := TrimRight(u);
    assert forall k :: i <= k < |s| ==> s[k] == u[k - i];
    assert s[i..i + |t|] == u[..|t|];
  }

  /** A message cancels exactly when it is that word, in any case, with any white space around it. */
  lemma CancelsExactlyWhen(message: string)
    ensures IsCancel(message) <==> exists i: nat :: CancelsAt(message, i)
  {
    hide IsSpace, TrimLeft, TrimRight, FoldsTo;
    var word := TrimRight(TrimLeft(message));
    var j := TrimMeans(message);
    WordsThatCancel(word);
    if |word| == 3 {
      assert message[j] == word[0] && message[j + 1] == word[1] && message[j + 2] == word[2];
    }
    if i: nat :| CancelsAt(message, i) {
      WordIsVisible(message[i], message[i + 1], message[i + 2]);
      StretchIsUnique(message, word, j, i, 3);
    }
    if IsCancel(message) {
      assert CancelsAt(message, j);
    }
  }

  lemma WordsThatCancel(w: string)
    ensures FoldsTo(w, "hủy", "HỦY") || FoldsTo(w, "huy", "HUY") <==>
            && |w| == 3 && (w[0] == 'h' || w[0] == 'H')
            && (w[1] == 'u' || w[1] == 'U' || w[1] == 'ủ' || w[1] == 'Ủ') && (w[2] == 'y' || w[2] == 'Y')
  {
  }

  /** A stretch with visible ends and only white space around it is what trimming leaves. */
  lemma StretchIsUnique(s: string, t: string, j: nat, i: nat, n: nat)
    requires TrimsTo(s, t, j) && (t != "" ==> !IsSpace(t[0]) && !IsSpace(t[|t| - 1]))
    requires n > 0 && i + n <= |s| && !IsSpace(s[i]) && !IsSpace(s[i + n - 1])
    requires (forall k :: 0 <= k < i ==> IsSpace(s[k])) && (forall k :: i + n <= k < |s| ==> IsSpace(s[k]))
    ensures j == i && |t| == n
  {
    hide IsSpace;
    assert j <= i && i + n - 1 < j + |t|;
    assert s[j] == t[0];
    assert i <= j;
    assert s[j + |t| - 1] == t[|t| - 1];
    assert j + |t| - 1 < i + n;
  }

  lemma WordIsVisible(a: char, b: char, c: char)
    requires (a == 'h' || a == 'H') && (b == 'u' || b == 'U' || b == 'ủ' || b == 'Ủ') && (c == 'y' || c == 'Y')
    ensures !IsSpace(a) && !IsSpace(b) && !IsSpace(c)
  {
  }

  // ----- calls that fail -----

  /** When a call of one of the seven tools fails, and with what; it then leaves nothing behind. */
  lemma CallsFailExactlyWhen(request: RequestContext, s: Session, call: Call, met: Met)
    requires IsRead(call.name) || IsWrite(call.name)
    ensures var (next, answer) := Dispatch(request, s, call, met);
            && (answer.Err? <==>
                  || (s.mutationPhase && IsRead(call.name)) || met.complaint.Some?
                  || (call.name == "delete_transaction" && (!met.found || !met.entropy)))
            && (answer.Err? ==>
                  && next.mutations == s.mutations && next.prepares == s.prepares && next.exported == s.exported
                  && next.messages == s.messages
                  && answer.error ==
                     if s.mutationPhase && IsRead(call.name) then MustReadFirst
                     else if met.complaint == Some(Ask) then Clarify
                     else if met.complaint == Some(Fail) then ToolFailed
                     else if !met.found then Clarify
                     else NoRandomness)
  {
    hide Prompt, IsBlank;
  }

  /** Why a call stops the conversation, if it does; wrote says that a write came before it in its reply. */
  function FailureOf(wrote: bool, call: Call, met: Met): Option<LoopError<AppError>> {
    if wrote && IsRead(call.name) then Some(ReadAfterMutation)
    else if met.complaint == Some(Ask) then Some(FromDispatch(Clarify))
    else if met.complaint == Some(Fail) then Some(FromDispatch(ToolFailed))
    else if call.name == "delete_transaction" && !met.found then Some(FromDispatch(Clarify))
    else if call.name == "delete_transaction" && !met.entropy then Some(FromDispatch(NoRandomness))
    else None
  }

  /** The reply has an id, and every call has one and names one of the seven tools. */
  predicate WellFormed(reply: Reply) {
    && reply.Answer? && HasText(reply.id)
    && forall i :: 0 <= i < |reply.calls| ==>
         reply.calls[i].callID != "" && (IsRead(reply.calls[i].name) || IsWrite(reply.calls[i].name))
  }

  lemma FailedCallStopsRound(request: RequestContext, meets: nat -> Met, s: Session, calls: seq<Call>, k: nat)
    requires !s.mutationPhase && k < |calls| && (IsRead(calls[k].name) || IsWrite(calls[k].name))
    requires PlainCalls(calls[..k], meets, s.calls) && Ordered(calls[..k])
    requires FailureOf(HasWrite(calls[..k]), calls[k], meets(s.calls + k)).Some?
    ensures DispatchRound(Stepper(request, meets), s, calls).stopped ==
            FailureOf(HasWrite(calls[..k]), calls[k], meets(s.calls + k))
  {
    hide FailureOf, DispatchOne, DispatchRound, Dispatch, PlainCalls, Ordered, HasWrite, IsRead, IsWrite;
    var step, front := Stepper(request, meets), calls[..k];
    OrderedRound(request, meets, s, front);
    var r := DispatchRound(step, s, front);
    assert calls[..k + 1] == front + [calls[k]];
    RoundOfAppend(step, s, front, calls[k]);
    FailedCallStops(request, meets, r, calls[k]);
    StopStands(step, s, calls, k + 1);
  }

  lemma FailedCallStops(request: RequestContext, meets: nat -> Met, r: Round<Session, AppError>, call: Call)
    requires r.stopped == None && (r.state.mutationPhase <==> r.mutated) && (IsRead(call.name) || IsWrite(call.name))
    requires FailureOf(r.mutated, call, meets(r.state.calls)).Some?
    ensures DispatchOne(Stepper(request, meets), r, call).stopped == FailureOf(r.mutated, call, meets(r.state.calls))
  {
    hide Dispatch, IsRead, IsWrite, IsMutationTool;
    ReadsAndWrites(call.name);
    CallsFailExactlyWhen(request, r.state, call, meets(r.state.calls));
  }

  /** A call that fails after calls that do not ends the conversation with its error. */
  lemma FailedCallsEndTheConversation(
    request: RequestContext, meets: nat -> Met, text: string, serial: nat, exported: Option<string>,
    replies: nat -> Reply, n: nat, j: nat, k: nat)
    requires j < |Provider.Converse(Stepper(request, meets), text, Opened(serial, exported), replies, n).sent|
    requires WellFormed(replies(j)) && k < |replies(j).calls|
    requires PlainCalls(replies(j).calls[..k], meets, |CallsOf(replies, j)|) && Ordered(replies(j).calls[..k])
    requires FailureOf(HasWrite(replies(j).calls[..k]), replies(j).calls[k], meets(|CallsOf(replies, j)| + k)).Some?
    ensures Provider.Converse(Stepper(request, meets), text, Opened(serial, exported), replies, n).result ==
            Some(Err(FailureOf(HasWrite(replies(j).calls[..k]), replies(j).calls[k],
                               meets(|CallsOf(replies, j)| + k)).value))
  {
    hide FailureOf, DispatchRound, Dispatch, TalkRound, PlainCalls, Ordered, HasWrite, IsRead, IsWrite, CallsOf,
        HasText;
    var step, s, reply := Stepper(request, meets), Opened(serial, exported), replies(j);
    GoingOnBefore(step, text, s, replies, n, j);
    SessionBefore(request, meets, text, serial, exported, replies, j);
    var t := Provider.Converse(step, text, s, replies, j);
    FailedCallStopsRound(request, meets, t.state, reply.calls, k);
    RepliesAreRefusedExactlyWhen<AppError>(reply);
    RoundCases(step, text, t, reply);
    NextRound(step, text, s, replies, j);
    ResultStands(step, text, s, replies, j + 1, n);
  }

  /** When every reply only reads, the rounds run out: as many requests as rounds, and no answer. */
  lemma {:induction false} ReadsRunOutOfRounds(
    request: RequestContext, meets: nat -> Met, text: string, serial: nat, exported: Option<string>,
    replies: nat -> Reply, n: nat)
    requires forall j: nat :: j < n ==>
               && WellFormed(replies(j)) && replies(j).calls != []
               && PlainReads(replies(j).calls, meets, |CallsOf(replies, j)|)
    ensures var t := Provider.Converse(Stepper(request, meets), text, Opened(serial, exported), replies, n);
            t.result == None && |t.sent| == n && Outcome(t) == Err(RoundLimit)
    decreases n
  {
    hide DispatchRound, Dispatch, TalkRound, PlainReads, IsRead, IsWrite, CallsOf, HasText;
    if n > 0 {
      var step, s, reply := Stepper(request, meets), Opened(serial, exported), replies(n - 1);
      ReadsRunOutOfRounds(request, meets, text, serial, exported, replies, n - 1);
      SessionBefore(request, meets, text, serial, exported, replies, n - 1);
      var t := Provider.Converse(step, text, s, replies, n - 1);
      RoundOfReads(request, meets, t.state, reply.calls);
      RepliesAreRefusedExactlyWhen<AppError>(reply);
      RoundCases(step, text, t, reply);
      RequestIsAppended(step, text, t, reply);
      NextRound(step, text, s, replies, n - 1);
    }
  }

  /** ExecuteCalls refuses its calls with the fault of the first that has one. */
  lemma PlansFailWith(calls: seq<Call>, decode: Decode, read: Read, k: nat)
    requires k < |calls| && PlanCalls(calls[..k], decode, read).Ok? && (IsRead(calls[k].name) || IsWrite(calls[k].name))
    requires PlanCalls(calls[..k + 1], decode, read).Err?
    ensures PlanCalls(calls, decode, read).Err?
    ensures var e := PlanCalls(calls, decode, read).error;
            if IsWrite(calls[k].name) then decode(calls[k]) == Err(e)
            else if HasWrite(calls[..k]) then e == MustReadFirst
            else read(calls[k]) == Err(e)
  {
    hide PlanCalls, IsRead, IsWrite, IsMutationTool;
    var front, call := calls[..k], calls[k];
    assert calls[..k + 1] == front + [call];
    PlanOfAppend(front, call, decode, read);
    PlansAreOrdered(front, decode, read);
    ReadsAndWrites(call.name);
    PlansHaveWrites(front, PlanCalls(front, decode, read).value, decode, read);
    PlanErrorStands(calls, decode, read, k + 1);
  }

  lemma PlanOfAppend(front: seq<Call>, call: Call, decode: Decode, read: Read)
    requires PlanCalls(front, decode, read).Ok?
    ensures PlanCalls(front + [call], decode, read) == PlanOne(PlanCalls(front, decode, read).value, call, decode, read)
  {
    hide PlanOne;
    assert (front + [call])[..|front|] == front;
  }

  lemma PlansHaveWrites(calls: seq<Call>, plan: Plan, decode: Decode, read: Read)
    requires PlanFits(calls, plan, decode, read)
    ensures plan.mutations != [] <==> HasWrite(calls)
  {
    hide IsMutationTool, IsWrite;
    forall i | 0 <= i < |calls|
      ensures IsWrite(calls[i].name) <==> IsMutationTool(calls[i].name)
    {
      ReadsAndWrites(calls[i].name);
    }
    if plan.mutations != [] {
      assert IsWrite(calls[|plan.results|].name);
    }
  }

  // ----- answers without mutations -----

  /** The first character that is no white space is an opening brace. */
  ghost predicate Braced(text: string) {
    exists k :: 0 <= k < |text| && text[k] == '{' && forall j :: 0 <= j < k ==> IsSpace(text[j])
  }

  lemma BracedMeans(text: string)
    ensures IsBraced(text) <==> Braced(text)
  {
    hide IsSpace, TrimLeft, TrimRight;
    var s := TrimRight(TrimLeft(text));
    var i := TrimMeans(text);
    assert s != "" ==> text[i] == s[0];
    assert !IsSpace('{') by {
      BraceIsVisible();
    }
  }

  lemma BraceIsVisible()
    ensures !IsSpace('{')
  {
  }

  /**
   Without queued mutations the ledger is untouched; an unclear call asks back, any other failure is trouble, and a
   response is silent, its tools' messages, a plain notice, an analysis or its own text.
   */
  lemma RepliesAreAnswered(before: Tables, after: Tables, faulted: bool, request: RequestContext, talked: Talked,
                           reading: Reading, wording: bool, r: Result<Answer, AppError>, armed: bool)
    requires Concluded(before, after, faulted, request, talked, reading, wording, r, armed)
    requires talked.1.Err? || talked.0.mutations == []
    ensures after == before
    ensures talked.1 == Err(FromDispatch(Clarify)) ==> r == Ok(Asked) && armed
    ensures talked.1.Err? && talked.1 != Err(FromDispatch(Clarify)) ==> r == Err(ProviderTrouble) && !armed
    ensures talked.1.Ok? ==>
              var Response(_, text, calls, noAction, _) := talked.1.value;
              && r == (if !HasText(text) && noAction then Ok(Silent)
                       else if !HasText(text) && calls != [] && talked.0.messages == [] then Ok(Processed)
                       else if !HasText(text) && calls != [] then Ok(ToolText(talked.0.messages))
                       else if Braced(text) && reading.analysis(text) then Ok(Analysis(text))
                       else if Braced(text) then Err(BadAnalysis)
                       else Ok(Plain(text)))
              && (armed <==> !(noAction && !HasText(text)) && !Braced(text) && reading.asks(text))
  {
    hide IsBraced, Braced, IsSpace, AppliedBatch, Recoverable;
    if talked.1.Ok? {
      BracedMeans(talked.1.value.text);
    }
  }

  // ----- answers with mutations -----

  /** The complaint about a mutation that is not good, in the order the service looks. */
  function ComplaintAbout(m: Mutation): AppError {
    if m.kind.Unknown? then Rejected(UnsupportedKind)
    else if m.kind != Delete && m.kind != Restore && m.input.amount < 1 then Rejected(BadAmount)
    else if m.kind != Delete && m.kind != Restore && m.input.typ != "income" && m.input.typ != "expense"
         then Rejected(BadType)
    else if m.kind != Delete && m.kind != Restore &&
            ((m.input.typ == "income" && !IsIncomeCategory(m.input.category)) ||
             (m.input.typ == "expense" && !IsExpenseCategory(m.input.category))) then Rejected(BadCategory)
    else if m.kind != Delete && m.kind != Restore && |m.input.note| > 2000 then Rejected(NoteTooLong)
    else if m.kind != Delete && m.kind != Restore && m.input.occurredAt == Civil(1, 1, 1, 0, 0, 0, 0)
         then Rejected(NoTimestamp)
    else Clarify
  }

  lemma MutationsAreComplainedAbout(m: Mutation)
    ensures CheckMutation(m) == if GoodMutation(m) then None else Some(ComplaintAbout(m))
  {
    hide ValidateInput, IsIncomeCategory, IsExpenseCategory;
    InputsAreJudged(m.input);
  }

  lemma {:induction false} FirstComplaintIsMade(ms: seq<Mutation>, i: nat)
    requires i < |ms| && !GoodMutation(ms[i]) && forall j :: 0 <= j < i ==> GoodMutation(ms[j])
    ensures CheckMutations(ms) == Some(ComplaintAbout(ms[i]))
    decreases i
  {
    hide CheckMutation, ComplaintAbout, GoodMutation;
    MutationsAreComplainedAbout(ms[0]);
    if i > 0 {
      FirstComplaintIsMade(ms[1..], i - 1);
    }
  }

  /**
   Queued mutations of a complete request that are not all good: the first that is not decides. A missing or wrong
   amount, type, category, time or id asks the user back; a note that is too long is an error.
   */
  lemma BadBatchesAreAnswered(before: Tables, after: Tables, request: RequestContext, talked: Talked, reading: Reading,
                              wording: bool, r: Result<Answer, AppError>, armed: bool, i: nat)
    requires Concluded(before, after, false, request, talked, reading, wording, r, armed) && talked.1.Ok?
    requires GoodRequest(request) && FirstBad(talked.0.mutations, i)
    ensures var complaint := ComplaintAbout(talked.0.mutations[i]);
            && after == before
            && (armed <==> complaint != Rejected(UnsupportedKind) && complaint != Rejected(NoteTooLong))
            && r == if armed then Ok(Asked) else Err(complaint)
  {
    hide GoodRequest, ValidRequest, GoodMutation, CheckMutations, ApplyBatch;
    FirstComplaintIsMade(talked.0.mutations, i);
    RequestsAreJudged(request);
  }

  /**
   Queued mutations that are all good, on a source message used for the first time: when a target is missing,
   another's or in the wrong state the first such decides, and the user gets an error; when all are in order and
   their times can be stored they are applied and confirmed.
   */
  lemma GoodBatchesAreAnswered(before: Tables, after: Tables, request: RequestContext, talked: Talked, reading: Reading,
                               wording: bool, r: Result<Answer, AppError>, armed: bool, i: nat)
    requires Concluded(before, after, false, request, talked, reading, wording, r, armed) && talked.1.Ok?
    requires Invariant(before) && request.source !in before.batches && GoodRequest(request)
    requires talked.0.mutations != [] && AllStorable(request, talked.0.mutations)
    requires forall j :: 0 <= j < |talked.0.mutations| ==> GoodMutation(talked.0.mutations[j])
    ensures !armed
    ensures r.Ok? <==> Acceptable(before, request.scope, talked.0.mutations)
    ensures r.Ok? ==> r.value.Confirmed? && |r.value.rows| == |talked.0.mutations|
    ensures var ms := talked.0.mutations;
            FirstWrong(before, request.scope, ms, i) ==>
              && after == before
              && r == Err(Rejected(if Foreseen(before, request.scope, ms[..i], ms[i].id) == Absent then NotFound
                                   else if ms[i].kind == Update then UpdatesDeleted
                                   else if ms[i].kind == Delete then AlreadyDeleted
                                   else NotDeleted))
  {
    hide GoodRequest, ValidRequest, GoodMutation, CheckRequest, CheckBatch, ApplyBatch, Acceptable, AllStorable,
        Foreseen, Allowed, Invariant, ReadAll;
    var ms := talked.0.mutations;
    ChecksCoincide(request, ms);
    ChecksPassExactlyWhen(request, ms);
    FirstUseSucceedsExactlyWhen(before, request, ms);
    if ApplyBatch(before, request, ms).Ok? {
      AllAreReturned(before, request, ms);
      if FirstWrong(before, request.scope, ms, i) {
        WrongIsUnacceptable(before, request.scope, ms, i);
      }
    } else {
      var k := FirstWrongOf(before, request.scope, ms);
      WrongMutationsFail(before, request, ms, k);
      if FirstWrong(before, request.scope, ms, i) {
        WrongMutationsFail(before, request, ms, i);
      }
    }
  }

  /** When every target is in order but some time cannot be stored, the user is asked back. */
  lemma UnstorableBatchesAreAnswered(before: Tables, after: Tables, request: RequestContext, talked: Talked,
                                     reading: Reading, wording: bool, r: Result<Answer, AppError>, armed: bool)
    requires Concluded(before, after, false, request, talked, reading, wording, r, armed) && talked.1.Ok?
    requires Invariant(before) && request.source !in before.batches && GoodRequest(request)
    requires talked.0.mutations != []
    requires forall j :: 0 <= j < |talked.0.mutations| ==> GoodMutation(talked.0.mutations[j])
    requires Acceptable(before, request.scope, talked.0.mutations) && !AllStorable(request, talked.0.mutations)
    ensures after == before && r == Ok(Asked) && armed
  {
    hide GoodRequest, ValidRequest, GoodMutation, CheckRequest, CheckBatch, ApplyBatch, Acceptable, AllStorable,
        Invariant;
    var ms := talked.0.mutations;
    ChecksCoincide(request, ms);
    ChecksPassExactlyWhen(request, ms);
    UnstorableBatchesFailWith(before, request, ms);
  }

  /** The i-th mutation is the first whose target is not as it must be when its turn comes. */
  predicate FirstWrong(t: Tables, scope: Scope, ms: seq<Mutation>, i: nat) {
    i < |ms| && Acceptable(t, scope, ms[..i]) && !Allowed(Foreseen(t, scope, ms[..i], ms[i].id), ms[i].kind)
  }

  lemma WrongIsUnacceptable(t: Tables, scope: Scope, ms: seq<Mutation>, i: nat)
    requires FirstWrong(t, scope, ms, i)
    ensures !Acceptable(t, scope, ms)
  {
    hide Foreseen, Allowed;
  }

  lemma {:induction false} FirstWrongOf(t: Tables, scope: Scope, ms: seq<Mutation>) returns (i: nat)
    requires !Acceptable(t, scope, ms)
    ensures FirstWrong(t, scope, ms, i)
    decreases |ms|
  {
    hide Foreseen, Allowed;
    if Acceptable(t, scope, ms[..|ms| - 1]) {
      i := |ms| - 1;
      AcceptableGrows(t, scope, ms[..i], ms[i]);
      assert ms == ms[..i] + [ms[i]];
    } else {
      i := FirstWrongOf(t, scope, ms[..|ms| - 1]);
      assert ms[..|ms| - 1][..i] == ms[..i];
    }
  }

  lemma WrongMutationsFail(t: Tables, request: RequestContext, ms: seq<Mutation>, i: nat)
    requires Invariant(t) && request.source !in t.batches && GoodRequest(request)
    requires AllStorable(request, ms) && FirstWrong(t, request.scope, ms, i)
    requires forall j :: 0 <= j < |ms| ==> GoodMutation(ms[j])
    ensures ApplyBatch(t, request, ms) ==
            Err(if Foreseen(t, request.scope, ms[..i], ms[i].id) == Absent then NotFound
                else if ms[i].kind == Update then UpdatesDeleted
                else if ms[i].kind == Delete then AlreadyDeleted
                else NotDeleted)
  {
    hide GoodRequest, GoodMutation, ApplyBatch, Acceptable, Foreseen, Allowed, Invariant;
    FirstUseFailsWith(t, request, ms, i);
  }

  lemma AllAreReturned(t: Tables, request: RequestContext, ms: seq<Mutation>)
    requires Invariant(t) && request.source !in t.batches && ApplyBatch(t, request, ms).Ok?
    ensures |ApplyBatch(t, request, ms).value.1| == |ms|
  {
    hide Invariant, ApplyBatch, Logged, Extends, ImageOf, ReadAll;
    FirstUseAppliesAll(t, request, ms);
    var (t', rows) := ApplyBatch(t, request, ms).value;
    ReadAllSucceeds(t'.rows, t'.batches[request.source].ids);
  }
}
