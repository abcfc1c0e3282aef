/**
 What each of the seven tools does in a conversation, by name: reads are answered and sent back, writes end the
 conversation, and a confirmed message has done to the ledger what its calls asked for.
 */
module ToolCalls {
  import opened Wrappers
  import opened Text
  import opened Amounts
  import opened Ledger
  import opened AuditLog
  import opened Batches
  import opened Provider
  import opened Service
  import opened Deletions
  import opened Orchestrator

  predicate IsRead(name: string) {
    name == "search_transactions" || name == "get_statistics" || name == "export_transactions"
  }

  /** The tools that queue a mutation; a deletion is prepared instead. */
  predicate IsQueued(name: string) {
    name == "create_transaction" || name == "update_transaction" || name == "restore_transaction"
  }

  predicate IsWrite(name: string) {
    IsQueued(name) || name == "delete_transaction"
  }

  /** The client accepts a reply exactly when it has an id and every call has one and names one of the seven tools. */
  lemma RepliesAreRefusedExactlyWhen<E>(reply: Reply)
    ensures Refusal<E>(reply) == None <==>
            && reply.Answer? && HasText(reply.id)
            && forall i :: 0 <= i < |reply.calls| ==>
                 reply.calls[i].callID != "" && (IsRead(reply.calls[i].name) || IsWrite(reply.calls[i].name))
  {
  }

  // ----- calls that succeed -----

  /** Every call of the list succeeds in its turn. */
  ghost predicate AllOk<S, E>(step: Dispatcher<S, E>, s: S, calls: seq<Call>) {
    forall i :: 0 <= i < |calls| ==> step(Fold(step, s, calls[..i]), calls[i]).1.Ok?
  }

  lemma OkGrows<S, E>(step: Dispatcher<S, E>, s: S, front: seq<Call>, call: Call)
    ensures AllOk(step, s, front + [call]) <==> AllOk(step, s, front) && step(Fold(step, s, front), call).1.Ok?
  {
    hide Fold;
    var calls := front + [call];
    assert calls[..|front|] == front && calls[|front|] == call;
    assert forall i :: 0 <= i < |front| ==> calls[..i] == front[..i] && calls[i] == front[i];
  }

  lemma {:induction false} OkJoins<S, E>(step: Dispatcher<S, E>, s: S, a: seq<Call>, b: seq<Call>)
    requires AllOk(step, s, a) && AllOk(step, Fold(step, s, a), b)
    ensures AllOk(step, s, a + b)
    decreases |b|
  {
    hide Fold, AllOk;
    if b == [] {
      assert a + b == a;
    } else {
      var front, call := b[..|b| - 1], b[|b| - 1];
      assert b == front + [call] && a + b == (a + front) + [call];
      OkGrows(step, Fold(step, s, a), front, call);
      OkJoins(step, s, a, front);
      FoldConcat(step, s, a, front);
      OkGrows(step, s, a + front, call);
    }
  }

  lemma {:induction false} RoundIsOk<S, E>(step: Dispatcher<S, E>, s: S, calls: seq<Call>)
    requires DispatchRound(step, s, calls).stopped == None
    ensures AllOk(step, s, calls)
    decreases |calls|
  {
    hide AllOk, IsMutationTool;
    if calls == [] {
      NothingFails(step, s);
    } else {
      var front, call := calls[..|calls| - 1], calls[|calls| - 1];
      RoundIsOk(step, s, front);
      RoundsAreOrdered(step, s, front);
      assert calls == front + [call];
      OkGrows(step, s, front, call);
    }
  }

  lemma NothingFails<S, E>(step: Dispatcher<S, E>, s: S)
    ensures AllOk(step, s, [])
  {
  }

  lemma {:induction false} EachIsOk(step: Dispatcher<Session, AppError>, s: Session, calls: seq<Call>)
    requires DispatchEach(step, s, calls).1 == None
    ensures AllOk(step, s, calls) && DispatchEach(step, s, calls).0 == Fold(step, s, calls)
    decreases |calls|
  {
    hide AllOk;
    if calls == [] {
      NothingFails(step, s);
    } else {
      var front, call := calls[..|calls| - 1], calls[|calls| - 1];
      EachIsOk(step, s, front);
      assert calls == front + [call];
      OkGrows(step, s, front, call);
    }
  }

  /** In a conversation that goes on or has succeeded every dispatched call succeeded. */
  lemma {:induction false} ConversationIsOk<S, E>(
    step: Dispatcher<S, E>, message: string, s: S, replies: nat -> Reply, n: nat)
    requires var t := Provider.Converse(step, message, s, replies, n); t.result == None || t.result.value.Ok?
    ensures var t := Provider.Converse(step, message, s, replies, n);
            AllOk(step, s, t.dispatched) && t.state == Fold(step, s, t.dispatched)
    decreases n
  {
    hide AllOk, Fold, DispatchRound, EndShape, RequestShape, IsBlank, Supported;
    ConversationShape(step, message, s, replies, n);
    if n == 0 {
      NothingFails(step, s);
    } else {
      var t := Provider.Converse(step, message, s, replies, n - 1);
      if t.result.Some? {
        ConversationIsOk(step, message, s, replies, n - 1);
      } else {
        ConversationIsOk(step, message, s, replies, n - 1);
        var reply := replies(n - 1);
        if reply.calls != [] {
          RoundIsOk(step, t.state, reply.calls);
          RoundsAreOrdered(step, t.state, reply.calls);
          OkJoins(step, s, t.dispatched, reply.calls);
        }
      }
    }
  }

  // ----- which requests are made -----

  lemma {:induction false} RequestsGrow<S, E>(
    step: Dispatcher<S, E>, message: string, s: S, replies: nat -> Reply, m: nat, n: nat)
    requires m <= n
    ensures Provider.Converse(step, message, s, replies, m).sent <= Provider.Converse(step, message, s, replies, n).sent
    decreases n
  {
    hide DispatchRound, IsBlank, Supported, AddUsage, NextRequest;
    if m < n {
      RequestsGrow(step, message, s, replies, m, n - 1);
    }
  }

  /** Before a request is made the conversation has not ended. */
  lemma {:induction false} GoingOnBefore<S, E>(
    step: Dispatcher<S, E>, message: string, s: S, replies: nat -> Reply, n: nat, j: nat)
    requires j < |Provider.Converse(step, message, s, replies, n).sent|
    ensures j < n
    ensures var t := Provider.Converse(step, message, s, replies, j); t.result == None && |t.sent| == j
    decreases n
  {
    hide EndShape, RequestShape, TalkRound, Fold;
    ConversationShape(step, message, s, replies, n);
    var t := Provider.Converse(step, message, s, replies, n - 1);
    ConversationShape(step, message, s, replies, n - 1);
    if t.result.Some? {
      GoingOnBefore(step, message, s, replies, n - 1, j);
    } else {
      StillReading(t, replies, n - 1);
      if j < n - 1 {
        GoingOnBefore(step, message, s, replies, n - 1, j);
      }
    }
  }

  /** A reply that names one of the four writing tools is the last: no further request is made. */
  lemma WritesEndTheConversation<S, E>(
    step: Dispatcher<S, E>, message: string, s: S, replies: nat -> Reply, n: nat, j: nat, k: nat)
    requires j < |Provider.Converse(step, message, s, replies, n).sent|
    requires replies(j).Answer? && k < |replies(j).calls| && IsWrite(replies(j).calls[k].name)
    ensures |Provider.Converse(step, message, s, replies, n).sent| == j + 1
  {
    GoingOnBefore(step, message, s, replies, n, j);
    var t := Provider.Converse(step, message, s, replies, j);
    assert !AllReads(replies(j).calls);
    RoundsAreOrdered(step, t.state, replies(j).calls);
    RoundCases(step, message, t, replies(j));
    hide TalkRound, IsMutationTool;
    assert Provider.Converse(step, message, s, replies, j + 1) == TalkRound(step, message, t, replies(j));
    ResultStands(step, message, s, replies, j + 1, n);
  }

  // ----- reads are answered and sent back -----

  /** The text a read returns: what it met, and a fixed notice for an export. */
  function TextOf(call: Call, met: Met): string {
    if call.name == "export_transactions" then "Đã chuẩn bị tệp CSV giao dịch." else met.result
  }

  /** A read that meets no complaint returns its text, queues and prepares nothing, and keeps an export. */
  lemma ReadsAnswer(request: RequestContext, s: Session, call: Call, met: Met)
    requires IsRead(call.name) && met.complaint == None && !s.mutationPhase
    ensures var (next, answer) := Dispatch(request, s, call, met);
            && answer == Ok(TextOf(call, met)) && !next.mutationPhase && next.calls == s.calls + 1
            && next.mutations == s.mutations && next.prepares == s.prepares
            && next.exported == (if call.name == "export_transactions" then Some(met.result) else s.exported)
            && next.messages == s.messages + if HasText(TextOf(call, met)) then [TextOf(call, met)] else []
  {
    hide IsSpace;
    assert EXPORT_READY[0] == 'Đ';
    assert !IsSpace('Đ') by {
      LettersAreVisible();
    }
  }

  lemma LettersAreVisible()
    ensures !IsSpace('Đ')
  {
  }

  /** A read whose arguments are accepted and whose query succeeds. */
  predicate PlainRead(call: Call, met: Met) {
    IsRead(call.name) && met.complaint == None
  }

  /** The reads of one reply, the k-th of which meets meets(base + k). */
  ghost predicate PlainReads(calls: seq<Call>, meets: nat -> Met, base: nat) {
    forall k: nat :: k < |calls| ==> PlainRead(calls[k], meets(base + k))
  }

  function Answered(calls: seq<Call>, meets: nat -> Met, base: nat): (outputs: seq<Output>)
    ensures |outputs| == |calls|
    ensures forall k :: 0 <= k < |calls| ==>
              outputs[k] == Output(calls[k].callID, TextOf(calls[k], meets(base + k)))
  {
    seq(|calls|, k requires 0 <= k < |calls| => Output(calls[k].callID, TextOf(calls[k], meets(base + k))))
  }

  lemma PlainReadsSplit(front: seq<Call>, call: Call, meets: nat -> Met, base: nat)
    requires PlainReads(front + [call], meets, base)
    ensures PlainReads(front, meets, base) && PlainRead(call, meets(base + |front|))
  {
    hide PlainRead;
    var calls := front + [call];
    forall k: nat | k < |front|
      ensures PlainRead(front[k], meets(base + k))
    {
      assert calls[k] == front[k];
    }
    assert calls[|front|] == call;
  }

  lemma AnsweredGrows(front: seq<Call>, call: Call, meets: nat -> Met, base: nat)
    ensures Answered(front + [call], meets, base) ==
            Answered(front, meets, base) + [Output(call.callID, TextOf(call, meets(base + |front|)))]
  {
    hide TextOf;
  }

  lemma ReadsGoOn(request: RequestContext, meets: nat -> Met, r: Round<Session, AppError>, call: Call)
    requires r.stopped == None && !r.mutated && !r.state.mutationPhase
    requires PlainRead(call, meets(r.state.calls))
    ensures var r' := DispatchOne(Stepper(request, meets), r, call);
            && r'.stopped == None && !r'.mutated && !r'.state.mutationPhase && r'.state.calls == r.state.calls + 1
            && r'.outputs == r.outputs + [Output(call.callID, TextOf(call, meets(r.state.calls)))]
  {
    hide Dispatch, TextOf;
    ReadsAnswer(request, r.state, call, meets(r.state.calls));
  }

  lemma {:induction false} RoundOfReads(request: RequestContext, meets: nat -> Met, s: Session, calls: seq<Call>)
    requires !s.mutationPhase && PlainReads(calls, meets, s.calls)
    ensures var r := DispatchRound(Stepper(request, meets), s, calls);
            && r.stopped == None && !r.mutated && r.outputs == Answered(calls, meets, s.calls)
            && r.state.calls == s.calls + |calls| && !r.state.mutationPhase
    decreases |calls|
  {
    hide Dispatch, DispatchOne, DispatchRound, PlainReads, PlainRead, Answered;
    if calls == [] {
      NoReads(request, meets, s);
    } else {
      var front, call := calls[..|calls| - 1], calls[|calls| - 1];
      assert calls == front + [call];
      PlainReadsSplit(front, call, meets, s.calls);
      RoundOfReads(request, meets, s, front);
      ReadsGoOn(request, meets, DispatchRound(Stepper(request, meets), s, front), call);
      RoundOfAppend(Stepper(request, meets), s, front, call);
      AnsweredGrows(front, call, meets, s.calls);
    }
  }

  lemma NoReads(request: RequestContext, meets: nat -> Met, s: Session)
    ensures DispatchRound(Stepper(request, meets), s, []) == Round(s, [], Answered([], meets, s.calls), false, None)
  {
  }

  lemma {:induction false} CallsAreCounted(request: RequestContext, meets: nat -> Met, s: Session, calls: seq<Call>)
    requires AllOk(Stepper(request, meets), s, calls)
    ensures Fold(Stepper(request, meets), s, calls).calls == s.calls + |calls|
    decreases |calls|
  {
    hide AllOk, Dispatch;
    if calls != [] {
      var front, call := calls[..|calls| - 1], calls[|calls| - 1];
      assert calls == front + [call];
      OkGrows(Stepper(request, meets), s, front, call);
      CallsAreCounted(request, meets, s, front);
      var before := Fold(Stepper(request, meets), s, front);
      OkCounts(request, before, call, meets(before.calls));
    }
  }

  lemma OkCounts(request: RequestContext, s: Session, call: Call, met: Met)
    requires Dispatch(request, s, call, met).1.Ok?
    ensures Dispatch(request, s, call, met).0.calls == s.calls + 1
  {
    hide Prompt, IsBlank;
  }

  /** How far the conversation is when it makes request j: all earlier calls dispatched, none of them a write. */
  lemma SessionBefore(request: RequestContext, meets: nat -> Met, text: string, serial: nat, exported: Option<string>,
                      replies: nat -> Reply, j: nat)
    requires Provider.Converse(Stepper(request, meets), text, Opened(serial, exported), replies, j).result == None
    ensures var t := Provider.Converse(Stepper(request, meets), text, Opened(serial, exported), replies, j);
            !t.state.mutationPhase && t.state.calls == |CallsOf(replies, j)|
  {
    hide Provider.Converse, AllOk, RequestShape, UsageIsSum, AllReads, Fold, Dispatch;
    var step, s := Stepper(request, meets), Opened(serial, exported);
    ConversationShape(step, text, s, replies, j);
    ConversationIsOk(step, text, s, replies, j);
    var t := Provider.Converse(step, text, s, replies, j);
    CallsAreCounted(request, meets, s, t.dispatched);
    PhaseGuardIsUnreachable(request, meets, text, s, replies, j);
  }

  /**
   When reply j consists of reads that meet no complaint and a round is left, another request is made; it names
   reply j and carries, call by call, the texts the reads returned.
   */
  lemma ReadsAreSentBack(request: RequestContext, meets: nat -> Met, text: string, serial: nat,
                         exported: Option<string>, replies: nat -> Reply, n: nat, j: nat)
    requires j < |Provider.Converse(Stepper(request, meets), text, Opened(serial, exported), replies, n).sent|
    requires j + 1 < n
    requires replies(j).Answer? && HasText(replies(j).id) && replies(j).calls != []
    requires forall k :: 0 <= k < |replies(j).calls| ==> replies(j).calls[k].callID != ""
    requires PlainReads(replies(j).calls, meets, |CallsOf(replies, j)|)
    ensures var sent := Provider.Converse(Stepper(request, meets), text, Opened(serial, exported), replies, n).sent;
            && j + 1 < |sent|
            && sent[j + 1] == ToolOutputs(replies(j).id, Answered(replies(j).calls, meets, |CallsOf(replies, j)|))
  {
    hide Dispatch, DispatchRound, IsMutationTool, Answered, CallsOf, AddUsage;
    var step, s, reply := Stepper(request, meets), Opened(serial, exported), replies(j);
    GoingOnBefore(step, text, s, replies, n, j);
    SessionBefore(request, meets, text, serial, exported, replies, j);
    var t := Provider.Converse(step, text, s, replies, j);
    RoundOfReads(request, meets, t.state, reply.calls);
    RepliesAreRefusedExactlyWhen<AppError>(reply);
    RoundCases(step, text, t, reply);
    var t1 := TalkRound(step, text, t, reply);
    var t2 := TalkRound(step, text, t1, replies(j + 1));
    RoundCases(step, text, t1, replies(j + 1));
    RequestIsAppended(step, text, t1, replies(j + 1));
    assert t1.previousID != "";
    hide TalkRound;
    assert Provider.Converse(step, text, s, replies, j + 1) == t1;
    assert Provider.Converse(step, text, s, replies, j + 2) == t2;
    RequestsGrow(step, text, s, replies, j + 2, n);
  }

  lemma RequestIsAppended<S, E>(step: Dispatcher<S, E>, message: string, t: Talk<S, E>, reply: Reply)
    ensures TalkRound(step, message, t, reply).sent == t.sent + [NextRequest(t, message)]
  {
    hide DispatchRound, IsBlank, Supported, AddUsage, NextRequest;
  }

  // ----- replies that succeed -----

  /** A call of a known tool that meets no complaint; a deletion also finds its row and a token. */
  predicate PlainCall(call: Call, met: Met) {
    && met.complaint == None && (IsRead(call.name) || IsWrite(call.name))
    && (call.name == "delete_transaction" ==> met.found && met.entropy)
  }

  ghost predicate PlainCalls(calls: seq<Call>, meets: nat -> Met, base: nat) {
    forall k: nat :: k < |calls| ==> PlainCall(calls[k], meets(base + k))
  }

  /** No read comes after a write. */
  predicate Ordered(calls: seq<Call>) {
    forall i, j :: 0 <= i < j < |calls| && IsWrite(calls[i].name) ==> !IsRead(calls[j].name)
  }

  ghost predicate HasWrite(calls: seq<Call>) {
    exists k :: 0 <= k < |calls| && IsWrite(calls[k].name)
  }

  lemma PlainCallsSplit(front: seq<Call>, call: Call, meets: nat -> Met, base: nat)
    requires PlainCalls(front + [call], meets, base) && Ordered(front + [call])
    ensures PlainCalls(front, meets, base) && PlainCall(call, meets(base + |front|)) && Ordered(front)
    ensures HasWrite(front) ==> !IsRead(call.name)
    ensures HasWrite(front + [call]) <==> HasWrite(front) || IsWrite(call.name)
  {
    hide PlainCall, IsRead, IsWrite;
    var calls := front + [call];
    forall k: nat | k < |front|
      ensures PlainCall(front[k], meets(base + k))
    {
      assert calls[k] == front[k];
    }
    assert calls[|front|] == call && forall k :: 0 <= k < |front| ==> calls[k] == front[k];
  }

  lemma PlainCallsSucceed(request: RequestContext, s: Session, call: Call, met: Met)
    requires PlainCall(call, met) && (s.mutationPhase ==> !IsRead(call.name))
    ensures var (next, answer) := Dispatch(request, s, call, met);
            && answer.Ok? && next.calls == s.calls + 1
            && (next.mutationPhase <==> s.mutationPhase || IsWrite(call.name))
  {
    hide Prompt, IsBlank;
  }

  lemma ReadsAndWrites(name: string)
    ensures IsRead(name) ==> !IsWrite(name) && !IsMutationTool(name)
    ensures IsWrite(name) <==> IsMutationTool(name)
  {
  }

  lemma {:induction false} OrderedRound(request: RequestContext, meets: nat -> Met, s: Session, calls: seq<Call>)
    requires !s.mutationPhase && PlainCalls(calls, meets, s.calls) && Ordered(calls)
    ensures var r := DispatchRound(Stepper(request, meets), s, calls);
            && r.stopped == None && r.dispatched == calls && r.state.calls == s.calls + |calls|
            && (r.mutated <==> HasWrite(calls)) && (r.state.mutationPhase <==> r.mutated)
    decreases |calls|
  {
    hide Dispatch, PlainCalls, PlainCall, Ordered, HasWrite, IsMutationTool, IsRead, IsWrite;
    if calls == [] {
      assert !HasWrite(calls) by {
        NothingWritten();
      }
    } else {
      var front, call := calls[..|calls| - 1], calls[|calls| - 1];
      assert calls == front + [call];
      PlainCallsSplit(front, call, meets, s.calls);
      OrderedRound(request, meets, s, front);
      var r := DispatchRound(Stepper(request, meets), s, front);
      ReadsAndWrites(call.name);
      assert IsRead(call.name) || IsWrite(call.name) by {
        KnownCall(call, meets(r.state.calls));
      }
      PlainCallsSucceed(request, r.state, call, meets(r.state.calls));
    }
  }

  lemma NothingWritten()
    ensures !HasWrite([])
  {
  }

  lemma KnownCall(call: Call, met: Met)
    requires PlainCall(call, met)
    ensures IsRead(call.name) || IsWrite(call.name)
  {
  }

  /** The conversation's outcome once request j was answered by reply. */
  ghost predicate EndsWith(t: Talk<Session, AppError>, replies: nat -> Reply, j: nat) {
    && replies(j).Answer? && t.result.Some? && t.result.value.Ok? && |t.sent| == j + 1
    && var response := t.result.value.value;
    && response.id == replies(j).id && response.text == replies(j).text && response.calls == CallsOf(replies, j + 1)
    && (response.noAction <==> replies(j).calls == [] && !HasText(replies(j).text))
  }

  /**
   A reply without calls, or one of ordered calls with a write that all meet no complaint, ends the conversation
   successfully with its text and every call so far.
   */
  lemma PlainRepliesSucceed(request: RequestContext, meets: nat -> Met, text: string, serial: nat,
                            exported: Option<string>, replies: nat -> Reply, n: nat, j: nat)
    requires j < |Provider.Converse(Stepper(request, meets), text, Opened(serial, exported), replies, n).sent|
    requires replies(j).Answer? && HasText(replies(j).id)
    requires forall k :: 0 <= k < |replies(j).calls| ==> replies(j).calls[k].callID != ""
    requires PlainCalls(replies(j).calls, meets, |CallsOf(replies, j)|) && Ordered(replies(j).calls)
    requires replies(j).calls == [] || HasWrite(replies(j).calls)
    ensures EndsWith(Provider.Converse(Stepper(request, meets), text, Opened(serial, exported), replies, n), replies, j)
  {
    var step, s := Stepper(request, meets), Opened(serial, exported);
    hide *;
    GoingOnBefore(step, text, s, replies, n, j);
    SessionBefore(request, meets, text, serial, exported, replies, j);
    var t := Provider.Converse(step, text, s, replies, j);
    PlainRoundEnds(request, meets, text, t, replies(j));
    CallsSoFar(step, text, s, replies, j);
    NextRound(step, text, s, replies, j);
    ResultStands(step, text, s, replies, j + 1, n);
    EndMeans(Provider.Converse(step, text, s, replies, n), replies, j);
  }

  lemma EndMeans(t: Talk<Session, AppError>, replies: nat -> Reply, j: nat)
    requires replies(j).Answer? && |t.sent| == j + 1 && t.result.Some? && t.result.value.Ok?
    requires var reply, response := replies(j), t.result.value.value;
             && response.id == reply.id && response.text == reply.text && response.calls == CallsOf(replies, j + 1)
             && (response.noAction <==> reply.calls == [] && !HasText(reply.text))
    ensures EndsWith(t, replies, j)
  {
  }

  lemma NextRound<S, E>(step: Dispatcher<S, E>, message: string, s: S, replies: nat -> Reply, j: nat)
    requires Provider.Converse(step, message, s, replies, j).result == None
    ensures Provider.Converse(step, message, s, replies, j + 1) ==
            TalkRound(step, message, Provider.Converse(step, message, s, replies, j), replies(j))
  {
    hide TalkRound;
  }

  lemma PlainRoundEnds(
    request: RequestContext, meets: nat -> Met, text: string, t: Talk<Session, AppError>, reply: Reply)
    requires t.result == None && !t.state.mutationPhase && reply.Answer? && HasText(reply.id)
    requires forall k :: 0 <= k < |reply.calls| ==> reply.calls[k].callID != ""
    requires PlainCalls(reply.calls, meets, t.state.calls) && Ordered(reply.calls)
    requires reply.calls == [] || HasWrite(reply.calls)
    ensures var t' := TalkRound(Stepper(request, meets), text, t, reply);
            && |t'.sent| == |t.sent| + 1 && t'.result.Some? && t'.result.value.Ok?
            && var response := t'.result.value.value;
            && response.id == reply.id && response.text == reply.text && response.calls == t.calls + reply.calls
            && (response.noAction <==> reply.calls == [] && !HasText(reply.text))
  {
    hide Dispatch, DispatchRound, IsMutationTool, AddUsage, TalkRound, PlainCalls, Ordered, HasWrite, IsSpace, IsRead;
    hide IsWrite;
    OrderedRound(request, meets, t.state, reply.calls);
    PlainCallsAreKnown(reply.calls, meets, t.state.calls);
    RepliesAreRefusedExactlyWhen<AppError>(reply);
    RoundCases(Stepper(request, meets), text, t, reply);
  }

  lemma PlainCallsAreKnown(calls: seq<Call>, meets: nat -> Met, base: nat)
    requires PlainCalls(calls, meets, base)
    ensures forall k :: 0 <= k < |calls| ==> IsRead(calls[k].name) || IsWrite(calls[k].name)
  {
    hide IsRead, IsWrite;
    forall k: nat | k < |calls|
      ensures IsRead(calls[k].name) || IsWrite(calls[k].name)
    {
      KnownCall(calls[k], meets(base + k));
    }
  }

  lemma CallsSoFar<S, E>(step: Dispatcher<S, E>, message: string, s: S, replies: nat -> Reply, j: nat)
    requires Provider.Converse(step, message, s, replies, j).result == None && replies(j).Answer?
    ensures Provider.Converse(step, message, s, replies, j).calls + replies(j).calls == CallsOf(replies, j + 1)
  {
    hide Provider.Converse, RequestShape, UsageIsSum, AllReads, Fold;
    ConversationShape(step, message, s, replies, j);
  }

  // ----- a confirmed message has done what its calls asked for -----

  /** The positions of the calls that queue a mutation. */
  function Picks(calls: seq<Call>): seq<nat> {
    if calls == [] then []
    else Picks(calls[..|calls| - 1]) + if IsQueued(calls[|calls| - 1].name) then [|calls| - 1] else []
  }

  /** m is the mutation that a call of this name asks for. */
  predicate Asks(name: string, met: Met, m: Mutation) {
    && IsQueued(name)
    && (name == "create_transaction" ==> m.kind == Create && m.input == met.input)
    && (name == "update_transaction" ==> m.kind == Update && m.id == met.id && m.input == met.input)
    && (name == "restore_transaction" ==> m.kind == Restore && m.id == met.id)
  }

  lemma OkQueues(request: RequestContext, s: Session, call: Call, met: Met)
    requires Dispatch(request, s, call, met).1.Ok?
    ensures var next := Dispatch(request, s, call, met).0;
            if IsQueued(call.name) then
              && |next.mutations| == |s.mutations| + 1 && next.mutations[..|s.mutations|] == s.mutations
              && Asks(call.name, met, next.mutations[|s.mutations|])
            else next.mutations == s.mutations
  {
    hide Prompt, IsBlank, TokenText;
  }

  /** The queue after calls that all succeeded: one mutation for each call that asks for one, in order. */
  ghost predicate QueueFits(calls: seq<Call>, meets: nat -> Met, ms: seq<Mutation>) {
    var picks := Picks(calls);
    && |ms| == |picks|
    && forall k :: 0 <= k < |picks| ==> picks[k] < |calls| && Asks(calls[picks[k]].name, meets(picks[k]), ms[k])
  }

  lemma QueueGrows(front: seq<Call>, call: Call, meets: nat -> Met, ms: seq<Mutation>, ms': seq<Mutation>)
    requires QueueFits(front, meets, ms)
    requires if IsQueued(call.name) then
               |ms'| == |ms| + 1 && ms'[..|ms|] == ms && Asks(call.name, meets(|front|), ms'[|ms|])
             else ms' == ms
    ensures QueueFits(front + [call], meets, ms')
  {
    hide Asks, IsQueued;
    var calls := front + [call];
    assert calls[..|front|] == front;
    assert forall k :: 0 <= k < |ms| && |ms'| >= |ms| ==> ms'[k] == ms'[..|ms|][k];
  }

  lemma {:induction false} QueueIsWhatWasAsked(request: RequestContext, meets: nat -> Met, s: Session, calls: seq<Call>)
    requires AllOk(Stepper(request, meets), s, calls) && s.mutations == [] && s.calls == 0
    ensures QueueFits(calls, meets, Fold(Stepper(request, meets), s, calls).mutations)
    decreases |calls|
  {
    hide AllOk, Dispatch, QueueFits, Asks, IsQueued;
    if calls == [] {
      NothingIsAsked(meets);
    } else {
      var front, call := calls[..|calls| - 1], calls[|calls| - 1];
      assert calls == front + [call];
      OkGrows(Stepper(request, meets), s, front, call);
      QueueIsWhatWasAsked(request, meets, s, front);
      CallsAreCounted(request, meets, s, front);
      var before := Fold(Stepper(request, meets), s, front);
      OkQueues(request, before, call, meets(|front|));
      QueueGrows(front, call, meets, before.mutations, Dispatch(request, before, call, meets(|front|)).0.mutations);
    }
  }

  lemma NothingIsAsked(meets: nat -> Met)
    ensures QueueFits([], meets, [])
  {
  }

  // ----- the rest of what the calls leave in the session -----

  /** The positions of the calls that prepare a deletion. */
  function Removals(calls: seq<Call>): seq<nat> {
    if calls == [] then []
    else Removals(calls[..|calls| - 1]) + if calls[|calls| - 1].name == "delete_transaction" then [|calls| - 1] else []
  }

  /** The k-th delete call prepares the deletion of the row it met, at the time it met. */
  ghost predicate PreparesFit(calls: seq<Call>, request: RequestContext, meets: nat -> Met, ps: seq<Prepared>) {
    var at := Removals(calls);
    && |ps| == |at|
    && forall k :: 0 <= k < |at| ==> ps[k] == Prepared(request, [meets(at[k]).id], meets(at[k]).now)
  }

  /** What the calls tell the user, in order: the reads' texts and the prompts with the tokens from serial on. */
  function Told(calls: seq<Call>, meets: nat -> Met, serial: nat): seq<string> {
    if calls == [] then [] else
      var front, call, met := calls[..|calls| - 1], calls[|calls| - 1], meets(|calls| - 1);
      Told(front, meets, serial) +
      if IsRead(call.name) then (if HasText(TextOf(call, met)) then [TextOf(call, met)] else [])
      else if call.name == "delete_transaction" then
        ["Xác nhận xóa 1 giao dịch (giao dịch #" + FormatInt(met.id) + ") trong 5 phút: delete:" +
         TokenText(serial + |Removals(front)|)]
      else []
  }

  /** The file to export after the calls: that of the last export call, if there is one. */
  function Kept(calls: seq<Call>, meets: nat -> Met, exported: Option<string>): Option<string> {
    if calls == [] then exported
    else if calls[|calls| - 1].name == "export_transactions" then Some(meets(|calls| - 1).result)
    else Kept(calls[..|calls| - 1], meets, exported)
  }

  ghost predicate LeftBehind(calls: seq<Call>, request: RequestContext, meets: nat -> Met, before: Session,
                             s: Session)
  {
    && s.serial == before.serial && PreparesFit(calls, request, meets, s.prepares)
    && s.messages == Told(calls, meets, before.serial) && s.exported == Kept(calls, meets, before.exported)
  }

  lemma OkDeletes(request: RequestContext, s: Session, call: Call, met: Met)
    requires Dispatch(request, s, call, met).1.Ok? && call.name == "delete_transaction"
    ensures var next := Dispatch(request, s, call, met).0;
            && next.serial == s.serial && next.exported == s.exported
            && next.prepares == s.prepares + [Prepared(request, [met.id], met.now)]
            && next.messages == s.messages +
                 ["Xác nhận xóa 1 giao dịch (giao dịch #" + FormatInt(met.id) + ") trong 5 phút: delete:" +
                  TokenText(s.serial + |s.prepares|)]
  {
    hide FormatInt, IsBlank, TokenText;
    PromptIsVisible(met.id, TokenText(s.serial + |s.prepares|));
  }

  lemma OkQueuesOnly(request: RequestContext, s: Session, call: Call, met: Met)
    requires Dispatch(request, s, call, met).1.Ok? && IsQueued(call.name)
    ensures var next := Dispatch(request, s, call, met).0;
            && next.serial == s.serial && next.exported == s.exported
            && next.prepares == s.prepares && next.messages == s.messages
  {
  }

  lemma OkMeans(request: RequestContext, s: Session, call: Call, met: Met)
    requires Dispatch(request, s, call, met).1.Ok?
    ensures met.complaint == None && (IsRead(call.name) || IsWrite(call.name))
    ensures IsRead(call.name) ==> !s.mutationPhase
    ensures Dispatch(request, s, call, met).0.serial == s.serial
  {
    hide Prompt, IsBlank;
  }

  lemma LeftGrows(front: seq<Call>, call: Call, request: RequestContext, meets: nat -> Met, before: Session, s: Session)
    requires LeftBehind(front, request, meets, before, s) && Dispatch(request, s, call, meets(|front|)).1.Ok?
    ensures LeftBehind(front + [call], request, meets, before, Dispatch(request, s, call, meets(|front|)).0)
  {
    var calls, met := front + [call], meets(|front|);
    assert calls[..|front|] == front && calls[|front|] == call;
    OkMeans(request, s, call, met);
    hide Dispatch, TextOf, FormatInt, TokenText, HasText;
    if IsRead(call.name) {
      ReadsAnswer(request, s, call, met);
    } else if call.name == "delete_transaction" {
      OkDeletes(request, s, call, met);
    } else {
      OkQueuesOnly(request, s, call, met);
    }
  }

  lemma {:induction false} CallsLeaveBehind(request: RequestContext, meets: nat -> Met, s: Session, calls: seq<Call>)
    requires AllOk(Stepper(request, meets), s, calls)
    requires s.prepares == [] && s.messages == [] && s.calls == 0
    ensures LeftBehind(calls, request, meets, s, Fold(Stepper(request, meets), s, calls))
    decreases |calls|
  {
    hide AllOk, Dispatch, LeftBehind;
    if calls == [] {
      NothingIsLeft(request, meets, s);
    } else {
      var front, call := calls[..|calls| - 1], calls[|calls| - 1];
      assert calls == front + [call];
      OkGrows(Stepper(request, meets), s, front, call);
      CallsLeaveBehind(request, meets, s, front);
      CallsAreCounted(request, meets, s, front);
      LeftGrows(front, call, request, meets, s, Fold(Stepper(request, meets), s, front));
    }
  }

  lemma NothingIsLeft(request: RequestContext, meets: nat -> Met, s: Session)
    requires s.prepares == [] && s.messages == []
    ensures LeftBehind([], request, meets, s, s)
  {
  }

  /**
   However the provider is asked, a success has queued, prepared, told and exported exactly what its response's
   calls ask for, in their order.
   */
  lemma SuccessesDoWhatWasAsked(provider: ProviderModel, request: RequestContext, meets: nat -> Met, text: string,
                                serial: nat, exported: Option<string>)
    requires AskProvider(provider, request, meets, text, Opened(serial, exported)).1.Ok?
    ensures var talked := AskProvider(provider, request, meets, text, Opened(serial, exported));
            && QueueFits(talked.1.value.calls, meets, talked.0.mutations)
            && LeftBehind(talked.1.value.calls, request, meets, Opened(serial, exported), talked.0)
  {
    hide AllOk, Fold, Dispatch, QueueFits, LeftBehind, Provider.Converse, RequestShape, Succeeded, IsBlank, Supported;
    var step, s := Stepper(request, meets), Opened(serial, exported);
    if provider.continues {
      ConversationShape(step, text, s, provider.replies, provider.maxRounds);
      ConversationIsOk(step, text, s, provider.replies, provider.maxRounds);
      var t := Provider.Converse(step, text, s, provider.replies, provider.maxRounds);
      SuccessPhases(t, provider.replies, t.result.value.value);
      QueueIsWhatWasAsked(request, meets, s, t.dispatched);
      CallsLeaveBehind(request, meets, s, t.dispatched);
    } else {
      var calls := provider.replies(0).calls;
      EachIsOk(step, s, calls);
      QueueIsWhatWasAsked(request, meets, s, calls);
      CallsLeaveBehind(request, meets, s, calls);
    }
  }

  /** The event that a call of this name leaves behind in a ledger that was t. */
  predicate Performs(name: string, met: Met, e: Event, t: Tables) {
    && (name == "create_transaction" ==>
          e.action == Create && e.after == Some(met.input) && e.before == None && e.id !in t.rows)
    && (name == "update_transaction" ==> e.action == Update && e.id == met.id && e.after == Some(met.input))
    && (name == "restore_transaction" ==> e.action == Restore && e.id == met.id && e.after == None)
  }

  lemma {:induction false} CreatesGrow(log: seq<Event>, n: nat)
    requires n <= |log|
    ensures Creates(log[..n]) <= Creates(log)
    decreases |log|
  {
    if n == |log| {
      assert log[..n] == log;
    } else {
      assert log[..|log| - 1][..n] == log[..n];
      CreatesGrow(log[..|log| - 1], n);
    }
  }

  /** A create event has no before-image, and its id is new. */
  lemma CreatesAreNew(t: Tables, after: Tables, p: nat)
    requires Invariant(t) && Logged(after) && |t.audit| <= |after.audit| && after.audit[..|t.audit|] == t.audit
    requires |t.audit| <= p < |after.audit| && after.audit[p].action == Create
    ensures after.audit[p].before == None && after.audit[p].id !in t.rows
  {
    hide Replay, Creates, LegalLog, BatchesSound, ReadableRow;
    BeforeImagesChain(after.audit, p);
    assert after.audit[..p][..|t.audit|] == t.audit;
    CreatesGrow(after.audit[..p], |t.audit|);
    ReplayIsSound(t.audit);
  }

  lemma AskedIsPerformed(request: RequestContext, name: string, met: Met, m: Mutation, id: int, e: Event, t: Tables)
    requires Asks(name, met, m) && Records(e, request, m, id)
    requires e.action == Create ==> e.before == None && e.id !in t.rows
    ensures Performs(name, met, e, t)
  {
  }

  /** Some event from the n-th on is about id. */
  ghost predicate Touched(t: Tables, n: nat, id: int) {
    exists k :: n <= k < |t.audit| && t.audit[k].id == id
  }

  /** The k-th call that asks for a mutation has left the k-th new event and the k-th returned row. */
  ghost predicate Effected(t: Tables, after: Tables, request: RequestContext, calls: seq<Call>, meets: nat -> Met,
                           rows: seq<Transaction>, k: nat)
  {
    var picks, p := Picks(calls), |t.audit| + k;
    && k < |picks| && k < |rows| && picks[k] < |calls| && p < |after.audit|
    && var i, e := picks[k], after.audit[p];
    && Performs(calls[i].name, meets(i), e, t)
    && e.scope == request.scope && e.source == request.source && e.at == request.receivedAt
    && e.id in after.rows && rows[k] == after.rows[e.id]
  }

  /** What a confirmed message leaves behind: an event and a returned row for each such call, and nothing else. */
  ghost predicate CarriedOut(t: Tables, after: Tables, request: RequestContext, calls: seq<Call>, meets: nat -> Met,
                             rows: seq<Transaction>)
  {
    var n, m := |t.audit|, |Picks(calls)|;
    && |rows| == m && |after.audit| == n + m && after.audit[..n] == t.audit
    && (forall k: nat :: k < m ==> Effected(t, after, request, calls, meets, rows, k))
    && (forall id :: !Touched(after, n, id) ==> ImageOf(after.rows, id) == ImageOf(t.rows, id))
  }

  /**
   A message that is confirmed, on a source message used for the first time, has done exactly what its create,
   update and restore calls asked for, in their order, with the values they met; no other row has changed.
   */
  lemma ConfirmedMessagesAreCarriedOut(
      t: Tables, after: Tables, faulted: bool, provider: ProviderModel, request: RequestContext, meets: nat -> Met,
      text: string, serial: nat, exported: Option<string>, reading: Reading, wording: bool,
      r: Result<Answer, AppError>, armed: bool)
    requires Invariant(t) && request.source !in t.batches && r.Ok? && r.value.Confirmed?
    requires Concluded(t, after, faulted, request,
                       AskProvider(provider, request, meets, text, Opened(serial, exported)),
                       reading, wording, r, armed)
    ensures var talked := AskProvider(provider, request, meets, text, Opened(serial, exported));
            talked.1.Ok? && CarriedOut(t, after, request, talked.1.value.calls, meets, r.value.rows)
  {
    hide AskProvider, ApplyBatch, CheckRequest, Invariant, IsBlank, IsBraced, QueueFits, CarriedOut, LeftBehind;
    var talked := AskProvider(provider, request, meets, text, Opened(serial, exported));
    SuccessesDoWhatWasAsked(provider, request, meets, text, serial, exported);
    AppliedAsAsked(t, after, request, talked.1.value.calls, meets, talked.0.mutations, r.value.rows);
  }

  lemma AppliedAsAsked(t: Tables, after: Tables, request: RequestContext, calls: seq<Call>, meets: nat -> Met,
                       ms: seq<Mutation>, rows: seq<Transaction>)
    requires Invariant(t) && request.source !in t.batches && ApplyBatch(t, request, ms) == Ok((after, rows))
    requires QueueFits(calls, meets, ms)
    ensures CarriedOut(t, after, request, calls, meets, rows)
  {
    hide Invariant, ApplyBatch, LegalLog, Replay, Creates, Extends, ReadAll, Picks, Asks, Performs, Records, ImageOf;
    FirstUseAppliesAll(t, request, ms);
    var ids, n, picks := after.batches[request.source].ids, |t.audit|, Picks(calls);
    ReadAllSucceeds(after.rows, ids);
    forall k: nat | k < |picks|
      ensures Effected(t, after, request, calls, meets, rows, k) && after.audit[n + k].id == ids[k]
    {
      var i, e := picks[k], after.audit[n + k];
      assert Records(e, request, ms[k], ids[k]);
      RecordsMeans(e, request, ms[k], ids[k]);
      if e.action == Create {
        CreatesAreNew(t, after, n + k);
      }
      AskedIsPerformed(request, calls[i].name, meets(i), ms[k], ids[k], e, t);
    }
    hide Effected;
    forall id | id in ids
      ensures Touched(after, n, id)
    {
      var k :| 0 <= k < |ids| && ids[k] == id;
      assert after.audit[n + k].id == id;
    }
  }

  lemma RecordsMeans(e: Event, request: RequestContext, m: Mutation, id: int)
    requires Records(e, request, m, id)
    ensures e.id == id && e.scope == request.scope && e.source == request.source && e.at == request.receivedAt
  {
  }
}
