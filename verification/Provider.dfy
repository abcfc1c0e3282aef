/**
 The function-call loop of the Responses client (internal/provider/responses/client.go)
 against an arbitrary provider and an arbitrary dispatcher.
 */
module Provider {
  import opened Wrappers
  import opened Text
  import opened Amounts

  datatype Call = Call(callID: string, name: string, arguments: string)

  datatype Usage = Usage(input: int64, output: int64, total: int64)

  /** One HTTP exchange: a transport or decoding failure, or a decoded payload. */
  datatype Reply = Failed | Answer(id: string, text: string, calls: seq<Call>, usage: Option<Usage>)

  datatype LoopError<+E> =
    | ProviderFailed | Malformed | InvalidToolCall | ReadAfterMutation | RoundLimit | FromDispatch(error: E)

  datatype Response = Response(id: string, text: string, calls: seq<Call>, noAction: bool, usage: Option<Usage>)

  datatype Output = Output(callID: string, text: string)

  /** What a request carries: the user's message at first, then only the last round's outputs. */
  datatype Sent = UserMessage(text: string) | ToolOutputs(previousID: string, outputs: seq<Output>)

  predicate IsMutationTool(name: string) {
    name == "create_transaction" || name == "update_transaction" || name == "delete_transaction"
        || name == "restore_transaction"
  }

  predicate IsSupportedTool(name: string) {
    IsMutationTool(name) || name == "search_transactions" || name == "get_statistics" || name == "export_transactions"
  }

  predicate Supported(calls: seq<Call>) {
    forall i :: 0 <= i < |calls| ==> calls[i].callID != "" && IsSupportedTool(calls[i].name)
  }

  /** toApp: what the client refuses of a decoded payload. */
  function Refusal<E>(reply: Reply): Option<LoopError<E>> {
    if reply.Failed? then Some(ProviderFailed)
    else if IsBlank(reply.id) then Some(Malformed)
    else if !Supported(reply.calls) then Some(InvalidToolCall)
    else None
  }

  function AddUsage(sum: Option<Usage>, more: Option<Usage>): Option<Usage> {
    if more.None? then sum else
      var u := if sum.None? then Usage(0, 0, 0) else sum.value;
      Some(Usage(Wrap64(u.input + more.value.input), Wrap64(u.output + more.value.output),
          Wrap64(u.total + more.value.total)))
  }

  type Dispatcher<!S, !E> = (S, Call) -> (S, Result<string, E>)

  // ----- one round -----

  datatype Round<S, E> = Round(
    state: S, dispatched: seq<Call>, outputs: seq<Output>, mutated: bool, stopped: Option<LoopError<E>>)

  /** The calls of one reply, dispatched in order until one is refused or fails. */
  function DispatchRound<S, E>(step: Dispatcher<S, E>, s: S, calls: seq<Call>): Round<S, E> {
    if calls == [] then Round(s, [], [], false, None) else
      var front := DispatchRound(step, s, calls[..|calls| - 1]);
      if front.stopped.Some? then front else DispatchOne(step, front, calls[|calls| - 1])
  }

  function DispatchOne<S, E>(step: Dispatcher<S, E>, r: Round<S, E>, call: Call): Round<S, E> {
    if r.mutated && !IsMutationTool(call.name) then r.(stopped := Some(ReadAfterMutation)) else
      var mutated := r.mutated || IsMutationTool(call.name);
      match step(r.state, call)
      case (s, Ok(text)) => Round(s, r.dispatched + [call], r.outputs + [Output(call.callID, text)], mutated, None)
      case (s, Err(e)) => Round(s, r.dispatched + [call], r.outputs, mutated, Some(FromDispatch(e)))
  }

  // ----- the whole conversation -----

  datatype Talk<S, E> = Talk(
    state: S, dispatched: seq<Call>, calls: seq<Call>, usage: Option<Usage>, sent: seq<Sent>,
    previousID: string, outputs: seq<Output>, result: Option<Result<Response, LoopError<E>>>)

  function Opening<S, E>(s: S): Talk<S, E> {
    Talk(s, [], [], None, [], "", [], None)
  }

  function NextRequest<S, E>(t: Talk<S, E>, message: string): Sent {
    if t.previousID == "" then UserMessage(message) else ToolOutputs(t.previousID, t.outputs)
  }

  function TalkRound<S, E>(step: Dispatcher<S, E>, message: string, t: Talk<S, E>, reply: Reply): Talk<S, E> {
    var asked := t.(sent := t.sent + [NextRequest(t, message)]);
    if Refusal<E>(reply).Some? then asked.(result := Some(Err(Refusal<E>(reply).value))) else
      var heard := asked.(usage := AddUsage(t.usage, reply.usage), calls := t.calls + reply.calls);
      if reply.calls == [] then heard.(result := Some(Ok(Finished(heard, reply))))
      else Settle(heard, reply, DispatchRound(step, t.state, reply.calls))
  }

  function Finished<S, E>(t: Talk<S, E>, reply: Reply): Response
    requires reply.Answer?
  {
    Response(reply.id, reply.text, t.calls, reply.calls == [] && IsBlank(reply.text), t.usage)
  }

  function Settle<S, E>(heard: Talk<S, E>, reply: Reply, r: Round<S, E>): Talk<S, E>
    requires reply.Answer?
  {
    var done := heard.(state := r.state, dispatched := heard.dispatched + r.dispatched);
    if r.stopped.Some? then done.(result := Some(Err(r.stopped.value)))
    else if r.mutated then done.(result := Some(Ok(Finished(done, reply))))
    else done.(previousID := reply.id, outputs := r.outputs)
  }

  /** The conversation after at most n rounds; replies[i] is what the provider answers to request i. */
  function Converse<S, E>(step: Dispatcher<S, E>, message: string, s: S, replies: nat -> Reply, n: nat): Talk<S, E> {
    if n == 0 then Opening(s) else
      var t := Converse(step, message, s, replies, n - 1);
      if t.result.Some? then t else TalkRound(step, message, t, replies(n - 1))
  }

  function Outcome<S, E>(t: Talk<S, E>): Result<Response, LoopError<E>> {
    if t.result.Some? then t.result.value else Err(RoundLimit)
  }

  lemma RoundOfAppend<S, E>(step: Dispatcher<S, E>, s: S, calls: seq<Call>, call: Call)
    ensures DispatchRound(step, s, []) == Round(s, [], [], false, None)
    ensures DispatchRound(step, s, calls + [call]) ==
            var front := DispatchRound(step, s, calls);
            if front.stopped.Some? then front else DispatchOne(step, front, call)
  {
    hide DispatchOne;
    assert (calls + [call])[..|calls|] == calls;
  }

  /** The inner loop of a round. */
  method DispatchCalls<S, E>(step: Dispatcher<S, E>, s: S, calls: seq<Call>) returns (r: Round<S, E>)
    ensures r == DispatchRound(step, s, calls)
  {
    hide IsMutationTool, DispatchRound;
    var state, outputs: seq<Output>, mutationInRound := s, [], false;
    var i := 0;
    RoundOfAppend(step, s, [], Call("", "", ""));
    while i < |calls|
      invariant 0 <= i <= |calls|
      invariant DispatchRound(step, s, calls[..i]) == Round(state, calls[..i], outputs, mutationInRound, None)
    {
      var call := calls[i];
      assert calls[..i + 1] == calls[..i] + [call];
      RoundOfAppend(step, s, calls[..i], call);
      if mutationInRound && !IsMutationTool(call.name) {
        StopStands(step, s, calls, i + 1);
        return Round(state, calls[..i], outputs, mutationInRound, Some(ReadAfterMutation));
      }
      mutationInRound := mutationInRound || IsMutationTool(call.name);
      var (next, output) := step(state, call);
      state := next;
      if output.Err? {
        StopStands(step, s, calls, i + 1);
        return Round(state, calls[..i + 1], outputs, mutationInRound, Some(FromDispatch(output.error)));
      }
      outputs := outputs + [Output(call.callID, output.value)];
      i := i + 1;
    }
    assert calls[..i] == calls;
    r := Round(state, calls, outputs, mutationInRound, None);
  }

  /** What one round does to the conversation, case by case. */
  lemma RoundCases<S, E>(step: Dispatcher<S, E>, message: string, t: Talk<S, E>, reply: Reply)
    ensures var t' := TalkRound(step, message, t, reply); var refusal := Refusal<E>(reply);
            && |t'.sent| == |t.sent| + 1
            && (refusal.Some? ==> t'.result == Some(Err(refusal.value)) && t'.state == t.state)
            && (refusal.None? ==>
                  var usage, calls := AddUsage(t.usage, reply.usage), t.calls + reply.calls;
                  var round := DispatchRound(step, t.state, reply.calls);
                  if reply.calls == [] then
                    && t'.result == Some(Ok(Response(reply.id, reply.text, calls, IsBlank(reply.text), usage)))
                    && t'.state == t.state
                  else
                    && t'.state == round.state
                    && (if round.stopped.Some? then t'.result == Some(Err(round.stopped.value))
                        else if round.mutated
                             then t'.result == Some(Ok(Response(reply.id, reply.text, calls, false, usage)))
                        else && t'.result == t.result && t'.previousID == reply.id && t'.outputs == round.outputs
                             && t'.calls == calls && t'.usage == usage))
  {
    hide DispatchRound, IsBlank, Supported, AddUsage, NextRequest;
  }

  /** RespondWithDispatcher: the loop refines the recursive conversation. */
  method RespondWithDispatcher<S, E>(step: Dispatcher<S, E>, message: string, s: S, replies: nat -> Reply,
                                     maxRounds: int)
    returns (r: Result<Response, LoopError<E>>, state: S, requests: nat)
    ensures maxRounds <= 0 ==> r == Err(ProviderFailed) && state == s && requests == 0
    ensures maxRounds > 0 ==>
              var t := Converse(step, message, s, replies, maxRounds);
              r == Outcome(t) && state == t.state && requests == |t.sent| <= maxRounds
  {
    hide DispatchRound, IsMutationTool, Supported, IsBlank, AddUsage, TalkRound;
    state, requests := s, 0;
    if maxRounds <= 0 {
      return Err(ProviderFailed), state, requests;
    }
    var previousID := "";
    var allCalls: seq<Call> := [];
    var outputs: seq<Output> := [];
    var usage: Option<Usage> := None;
    var mutationRoundSeen := false;
    ghost var t: Talk<S, E> := Opening(s);
    while requests < maxRounds
      invariant 0 <= requests <= maxRounds && |t.sent| == requests
      invariant t == Converse(step, message, s, replies, requests) && t.result == None
      invariant t.state == state && t.previousID == previousID && t.calls == allCalls
      invariant t.outputs == outputs && t.usage == usage
      invariant !mutationRoundSeen
    {
      var reply := replies(requests);
      requests := requests + 1;
      RoundCases(step, message, t, reply);
      t := TalkRound(step, message, t, reply);
      assert t == Converse(step, message, s, replies, requests);
      if t.result.Some? {
        ResultStands(step, message, s, replies, requests, maxRounds);
      }
      if Refusal<E>(reply).Some? {
        return Err(Refusal<E>(reply).value), state, requests;
      }
      usage := AddUsage(usage, reply.usage);
      allCalls := allCalls + reply.calls;
      if reply.calls == [] {
        return Ok(Response(reply.id, reply.text, allCalls, IsBlank(reply.text), usage)), state, requests;
      }
      assert !mutationRoundSeen;  // so the client's "calls after mutation batch" branch is dead
      var round := DispatchCalls(step, state, reply.calls);
      state, outputs := round.state, round.outputs;
      if round.stopped.Some? {
        return Err(round.stopped.value), state, requests;
      }
      if round.mutated {
        return Ok(Response(reply.id, reply.text, allCalls, false, usage)), state, requests;
      }
      mutationRoundSeen := mutationRoundSeen || round.mutated;
      previousID := reply.id;
    }
    r := Err(RoundLimit);
  }

  lemma {:induction false} ResultStands<S, E>(step: Dispatcher<S, E>, message: string, s: S, replies: nat -> Reply,
                                              k: nat, n: nat)
    requires k <= n && Converse(step, message, s, replies, k).result.Some?
    ensures Converse(step, message, s, replies, n) == Converse(step, message, s, replies, k)
    decreases n
  {
    hide TalkRound;
    if k < n {
      ResultStands(step, message, s, replies, k, n - 1);
    }
  }

  lemma {:induction false} StopStands<S, E>(step: Dispatcher<S, E>, s: S, calls: seq<Call>, k: nat)
    requires k <= |calls| && DispatchRound(step, s, calls[..k]).stopped.Some?
    ensures DispatchRound(step, s, calls) == DispatchRound(step, s, calls[..k])
    decreases |calls|
  {
    if k == |calls| {
      assert calls[..k] == calls;
    } else {
      assert calls[..|calls| - 1][..k] == calls[..k];
      StopStands(step, s, calls[..|calls| - 1], k);
    }
  }

  // ----- what any conversation keeps -----

  predicate AllReads(calls: seq<Call>) {
    forall i :: 0 <= i < |calls| ==> !IsMutationTool(calls[i].name)
  }

  predicate AllMutations(calls: seq<Call>) {
    forall i :: 0 <= i < |calls| ==> IsMutationTool(calls[i].name)
  }

  /** The state after dispatching calls one after the other. */
  function Fold<S, E>(step: Dispatcher<S, E>, s: S, calls: seq<Call>): S {
    if calls == [] then s else step(Fold(step, s, calls[..|calls| - 1]), calls[|calls| - 1]).0
  }

  lemma {:induction false} FoldConcat<S, E>(step: Dispatcher<S, E>, s: S, a: seq<Call>, b: seq<Call>)
    ensures Fold(step, s, a + b) == Fold(step, Fold(step, s, a), b)
    decreases |b|
  {
    if b == [] {
      assert a + b == a;
    } else {
      assert (a + b)[..|a + b| - 1] == a + b[..|b| - 1];
      FoldConcat(step, s, a, b[..|b| - 1]);
    }
  }

  /** Each output answers the call at its position. */
  predicate Answers(outputs: seq<Output>, calls: seq<Call>) {
    |outputs| == |calls| && forall i :: 0 <= i < |calls| ==> outputs[i].callID == calls[i].callID
  }

  ghost predicate ReadsThenMutations(calls: seq<Call>) {
    exists j :: 0 <= j <= |calls| && AllReads(calls[..j]) && AllMutations(calls[j..])
  }

  lemma AppendPhase(calls: seq<Call>, call: Call)
    requires ReadsThenMutations(calls) && (AllReads(calls) || IsMutationTool(call.name))
    ensures ReadsThenMutations(calls + [call])
    ensures AllReads(calls + [call]) <==> AllReads(calls) && !IsMutationTool(call.name)
  {
    hide IsMutationTool;
    var more := calls + [call];
    assert forall i :: 0 <= i < |calls| ==> more[i] == calls[i];
    if !IsMutationTool(call.name) {
      assert AllReads(more[..|more|]);
    } else {
      var j :| 0 <= j <= |calls| && AllReads(calls[..j]) && AllMutations(calls[j..]);
      assert more[..j] == calls[..j] && more[j..] == calls[j..] + [call];
      assert AllMutations(more[j..]);
      assert !IsMutationTool(more[|calls|].name) ==> false;
    }
  }

  lemma PhasesOfPrefix(calls: seq<Call>)
    requires calls != [] && ReadsThenMutations(calls)
    ensures ReadsThenMutations(calls[..|calls| - 1])
    ensures IsMutationTool(calls[|calls| - 1].name) || AllReads(calls[..|calls| - 1])
  {
    hide IsMutationTool;
    var n := |calls| - 1;
    var j :| 0 <= j <= |calls| && AllReads(calls[..j]) && AllMutations(calls[j..]);
    if j <= n {
      assert calls[..n][..j] == calls[..j] && calls[..n][j..] == calls[j..][..n - j];
      assert calls[n] == calls[j..][n - j];
    } else {
      assert calls[..n][..n] == calls[..n] && calls[..n][n..] == [];
      assert forall i :: 0 <= i < n ==> calls[..n][i] == calls[..j][i];
    }
  }

  lemma JoinPhases(a: seq<Call>, b: seq<Call>)
    requires AllReads(a) && ReadsThenMutations(b)
    ensures ReadsThenMutations(a + b)
  {
    hide IsMutationTool;
    var j :| 0 <= j <= |b| && AllReads(b[..j]) && AllMutations(b[j..]);
    assert (a + b)[..|a| + j] == a + b[..j] && (a + b)[|a| + j..] == b[j..];
    assert AllReads((a + b)[..|a| + j]);
  }

  /** What a round does: a prefix of the calls, reads before mutations, all of them unless it stopped. */
  ghost predicate RoundShape<S, E>(step: Dispatcher<S, E>, s: S, calls: seq<Call>, r: Round<S, E>) {
    && r.dispatched <= calls && r.state == Fold(step, s, r.dispatched)
    && ReadsThenMutations(r.dispatched) && (r.mutated <==> !AllReads(r.dispatched))
    && (r.stopped == None ==> r.dispatched == calls && Answers(r.outputs, calls))
  }

  lemma DispatchOneShape<S, E>(step: Dispatcher<S, E>, s: S, calls: seq<Call>, r: Round<S, E>, call: Call)
    requires RoundShape(step, s, calls, r) && r.stopped == None
    ensures RoundShape(step, s, calls + [call], DispatchOne(step, r, call))
  {
    hide IsMutationTool, ReadsThenMutations, AllReads, Fold;
    var r' := DispatchOne(step, r, call);
    assert calls <= calls + [call];
    FoldOne(step, s, calls, call);
    if !(r.mutated && !IsMutationTool(call.name)) {
      AppendPhase(calls, call);
    }
  }

  lemma FoldOne<S, E>(step: Dispatcher<S, E>, s: S, calls: seq<Call>, call: Call)
    ensures Fold(step, s, calls + [call]) == step(Fold(step, s, calls), call).0
  {
    assert (calls + [call])[..|calls|] == calls;
  }

  lemma {:induction false} RoundsAreOrdered<S, E>(step: Dispatcher<S, E>, s: S, calls: seq<Call>)
    ensures RoundShape(step, s, calls, DispatchRound(step, s, calls))
    decreases |calls|
  {
    hide IsMutationTool, ReadsThenMutations, AllReads, DispatchOne;
    if calls == [] {
      EmptyPhases();
    } else {
      var front, call := calls[..|calls| - 1], calls[|calls| - 1];
      RoundsAreOrdered(step, s, front);
      assert calls == front + [call];
      if DispatchRound(step, s, front).stopped == None {
        DispatchOneShape(step, s, front, DispatchRound(step, s, front), call);
      }
    }
  }

  lemma EmptyPhases()
    ensures ReadsThenMutations([]) && AllReads([])
  {
    var none: seq<Call> := [];
    assert AllReads(none[..0]) && AllMutations(none[0..]);
  }

  /** The sum of the token counts of the first n replies. */
  function TokenSum(replies: nat -> Reply, n: nat, count: Usage -> int64): int {
    if n == 0 then 0
    else TokenSum(replies, n - 1, count) +
         (if replies(n - 1).Answer? && replies(n - 1).usage.Some? then count(replies(n - 1).usage.value) as int else 0)
  }

  ghost predicate UsageIsSum(usage: Option<Usage>, replies: nat -> Reply, n: nat) {
    && (usage.Some? <==> exists i: nat :: i < n && replies(i).Answer? && replies(i).usage.Some?)
    && (usage.Some? ==>
          && usage.value.input == Wrap64(TokenSum(replies, n, (u: Usage) => u.input))
          && usage.value.output == Wrap64(TokenSum(replies, n, (u: Usage) => u.output))
          && usage.value.total == Wrap64(TokenSum(replies, n, (u: Usage) => u.total)))
  }

  /** The request number i: the message first, afterwards exactly the previous reply's calls answered in order. */
  ghost predicate RequestShape(sent: Sent, replies: nat -> Reply, i: nat, message: string) {
    if i == 0 then sent == UserMessage(message)
    else sent.ToolOutputs? && replies(i - 1).Answer? && sent.previousID == replies(i - 1).id
         && Answers(sent.outputs, replies(i - 1).calls) && AllReads(replies(i - 1).calls)
  }

  /** The calls of the first n replies, one reply after the other. */
  function CallsOf(replies: nat -> Reply, n: nat): seq<Call> {
    if n == 0 then [] else CallsOf(replies, n - 1) + (if replies(n - 1).Answer? then replies(n - 1).calls else [])
  }

  /** While the conversation goes on, everything dispatched so far is reads. */
  ghost predicate Reading<S, E>(t: Talk<S, E>, replies: nat -> Reply, n: nat) {
    && |t.sent| == n && AllReads(CallsOf(replies, n)) && t.dispatched == CallsOf(replies, n) == t.calls
    && UsageIsSum(t.usage, replies, n)
    && (if n == 0 then t.previousID == "" else
          replies(n - 1).Answer? && !IsBlank(t.previousID) && t.previousID == replies(n - 1).id
          && Answers(t.outputs, replies(n - 1).calls) && AllReads(replies(n - 1).calls))
  }

  /**
   A success returns exactly what was dispatched; mutations occur only in its last round, after that round's
   reads.
   */
  ghost predicate Succeeded<S, E>(t: Talk<S, E>, replies: nat -> Reply, r: Response) {
    var m := |t.sent|;
    && m > 0 && replies(m - 1).Answer? && AllReads(CallsOf(replies, m - 1)) && ReadsThenMutations(replies(m - 1).calls)
    && t.dispatched == CallsOf(replies, m) == r.calls && UsageIsSum(r.usage, replies, m)
    && r.id == replies(m - 1).id && r.text == replies(m - 1).text
    && (r.noAction <==> replies(m - 1).calls == [] && IsBlank(replies(m - 1).text))
    && (replies(m - 1).calls == [] || !AllReads(replies(m - 1).calls))
  }

  /** A failure has dispatched earlier rounds of reads and at most a well-ordered part of its last round. */
  ghost predicate Stopped<S, E>(t: Talk<S, E>, replies: nat -> Reply) {
    var m := |t.sent|;
    && m > 0 && AllReads(CallsOf(replies, m - 1))
    && CallsOf(replies, m - 1) <= t.dispatched <= CallsOf(replies, m)
    && ReadsThenMutations(t.dispatched[|CallsOf(replies, m - 1)|..])
  }

  ghost predicate TalkShape<S, E>(step: Dispatcher<S, E>, message: string, s: S, replies: nat -> Reply, n: nat,
                                  t: Talk<S, E>) {
    && |t.sent| <= n && t.state == Fold(step, s, t.dispatched)
    && (forall i :: 0 <= i < |t.sent| ==> RequestShape(t.sent[i], replies, i, message))
    && EndShape(t, replies, n)
  }

  lemma UsageStep(usage: Option<Usage>, replies: nat -> Reply, n: nat)
    requires UsageIsSum(usage, replies, n) && replies(n).Answer?
    ensures UsageIsSum(AddUsage(usage, replies(n).usage), replies, n + 1)
  {
    if replies(n).usage.Some? {
      var u, v := if usage.None? then Usage(0, 0, 0) else usage.value, replies(n).usage.value;
      var input, output, total := (u: Usage) => u.input, (u: Usage) => u.output, (u: Usage) => u.total;
      if usage.None? {
        NoTokens(replies, n, input);
        NoTokens(replies, n, output);
        NoTokens(replies, n, total);
      }
      WrapSum(TokenSum(replies, n, input), v.input);
      WrapSum(TokenSum(replies, n, output), v.output);
      WrapSum(TokenSum(replies, n, total), v.total);
    }
  }

  lemma {:induction false} NoTokens(replies: nat -> Reply, n: nat, count: Usage -> int64)
    requires forall i: nat :: i < n ==> !(replies(i).Answer? && replies(i).usage.Some?)
    ensures TokenSum(replies, n, count) == 0
    decreases n
  {
    if n > 0 {
      NoTokens(replies, n - 1, count);
    }
  }

  lemma WrapSum(x: int, y: int)
    ensures Wrap64(Wrap64(x) + y) == Wrap64(x + y)
  {
    var m := 2 * (MAX_INT64 + 1);
    var q := (x + MAX_INT64 + 1) / m;
    assert Wrap64(x) == x - q * m;
    WrapPeriodic(x + y, q);
  }

  lemma Refused<S, E>(message: string, replies: nat -> Reply, n: nat, t: Talk<S, E>, t': Talk<S, E>, e: LoopError<E>)
    requires Reading(t, replies, n)
    requires t' == t.(sent := t.sent + [NextRequest(t, message)], result := Some(Err(e)))
    ensures Stopped(t', replies)
  {
    hide UsageIsSum, AllReads, ReadsThenMutations;
    EmptyPhases();
    assert t'.dispatched[|CallsOf(replies, n)|..] == [];
  }

  lemma Quiet<S, E>(message: string, replies: nat -> Reply, n: nat, t: Talk<S, E>, heard: Talk<S, E>)
    requires Reading(t, replies, n) && replies(n).Answer? && replies(n).calls == []
    requires heard == t.(sent := t.sent + [NextRequest(t, message)], usage := AddUsage(t.usage, replies(n).usage),
                         calls := t.calls + replies(n).calls)
    ensures Succeeded(heard.(result := Some(Ok(Finished(heard, replies(n))))), replies, Finished(heard, replies(n)))
  {
    hide UsageIsSum, AllReads, ReadsThenMutations, AddUsage;
    UsageStep(t.usage, replies, n);
    EmptyPhases();
  }

  lemma Settled<S, E>(message: string, replies: nat -> Reply, n: nat, t: Talk<S, E>, heard: Talk<S, E>,
                      step: Dispatcher<S, E>)
    requires Reading(t, replies, n) && t.result == None
    requires replies(n).Answer? && replies(n).calls != [] && !IsBlank(replies(n).id)
    requires heard == t.(sent := t.sent + [NextRequest(t, message)], usage := AddUsage(t.usage, replies(n).usage),
                         calls := t.calls + replies(n).calls)
    ensures var t' := Settle(heard, replies(n), DispatchRound(step, t.state, replies(n).calls));
            match t'.result
            case None => Reading(t', replies, n + 1)
            case Some(Ok(r)) => Succeeded(t', replies, r)
            case Some(Err(_)) => Stopped(t', replies)
  {
    hide UsageIsSum, AllReads, ReadsThenMutations, AddUsage, DispatchRound, IsBlank;
    UsageStep(t.usage, replies, n);
    var r := DispatchRound(step, t.state, replies(n).calls);
    RoundsAreOrdered(step, t.state, replies(n).calls);
    assert (t.dispatched + r.dispatched)[|t.dispatched|..] == r.dispatched;
    assert t.dispatched + r.dispatched <= t.dispatched + replies(n).calls;
    assert CallsOf(replies, n + 1) == t.dispatched + replies(n).calls;
    ReadsJoin(t.dispatched, replies(n).calls);
  }

  ghost predicate EndShape<S, E>(t: Talk<S, E>, replies: nat -> Reply, n: nat) {
    match t.result
    case None => Reading(t, replies, n)
    case Some(Ok(r)) => Succeeded(t, replies, r)
    case Some(Err(_)) => Stopped(t, replies)
  }

  lemma RoundEndsWell<S, E>(step: Dispatcher<S, E>, message: string, replies: nat -> Reply, n: nat, t: Talk<S, E>)
    requires Reading(t, replies, n) && t.result == None
    ensures EndShape(TalkRound(step, message, t, replies(n)), replies, n + 1)
  {
    hide DispatchRound, Reading, Stopped, Succeeded, IsBlank, Supported, AddUsage;
    var reply := replies(n);
    if Refusal<E>(reply).Some? {
      Refused(message, replies, n, t, TalkRound(step, message, t, reply), Refusal<E>(reply).value);
    } else {
      var heard := t.(sent := t.sent + [NextRequest(t, message)], usage := AddUsage(t.usage, reply.usage),
                      calls := t.calls + reply.calls);
      if reply.calls == [] {
        Quiet(message, replies, n, t, heard);
      } else {
        Settled(message, replies, n, t, heard, step);
      }
    }
  }

  lemma RoundFolds<S, E>(step: Dispatcher<S, E>, message: string, s: S, replies: nat -> Reply, n: nat, t: Talk<S, E>)
    requires t.state == Fold(step, s, t.dispatched)
    ensures var t' := TalkRound(step, message, t, replies(n));
            t'.state == Fold(step, s, t'.dispatched) && t'.sent == t.sent + [NextRequest(t, message)]
  {
    hide DispatchRound, IsBlank, Supported, AddUsage, Fold;
    var reply := replies(n);
    if Refusal<E>(reply).None? && reply.calls != [] {
      RoundsAreOrdered(step, t.state, reply.calls);
      FoldConcat(step, s, t.dispatched, DispatchRound(step, t.state, reply.calls).dispatched);
    }
  }

  lemma ReadingGoesOn<S, E>(step: Dispatcher<S, E>, message: string, s: S, replies: nat -> Reply, n: nat, t: Talk<S, E>)
    requires TalkShape(step, message, s, replies, n, t) && t.result == None
    ensures TalkShape(step, message, s, replies, n + 1, TalkRound(step, message, t, replies(n)))
  {
    hide TalkRound, EndShape, Reading, NextRequest, RequestShape, Fold;
    StillReading(t, replies, n);
    RequestNext(replies, n, message, t);
    RoundEndsWell(step, message, replies, n, t);
    RoundFolds(step, message, s, replies, n, t);
  }

  lemma EndStands<S, E>(t: Talk<S, E>, replies: nat -> Reply, n: nat)
    requires EndShape(t, replies, n) && t.result.Some?
    ensures EndShape(t, replies, n + 1)
  {
  }

  lemma StillReading<S, E>(t: Talk<S, E>, replies: nat -> Reply, n: nat)
    requires EndShape(t, replies, n) && t.result == None
    ensures Reading(t, replies, n) && |t.sent| == n
  {
  }

  lemma ReadsJoin(a: seq<Call>, b: seq<Call>)
    ensures AllReads(a) && AllReads(b) ==> AllReads(a + b)
  {
    hide IsMutationTool;
  }

  lemma RequestNext<S, E>(replies: nat -> Reply, n: nat, message: string, t: Talk<S, E>)
    requires Reading(t, replies, n)
    ensures RequestShape(NextRequest(t, message), replies, n, message)
  {
    hide IsMutationTool, ReadsThenMutations, UsageIsSum;
  }

  /**
   Whatever the provider and the dispatcher do: at most n requests are made, the dispatched calls are reads and
   then mutations of the last round only, and a success returns exactly them with the summed usage.
   */
  lemma {:induction false} ConversationShape<S, E>(step: Dispatcher<S, E>, message: string, s: S,
                                                   replies: nat -> Reply, n: nat)
    ensures TalkShape(step, message, s, replies, n, Converse(step, message, s, replies, n))
    decreases n
  {
    hide TalkRound, EndShape, RequestShape, Fold;
    if n == 0 {
      OpeningShape(step, message, s, replies);
    } else {
      ConversationShape(step, message, s, replies, n - 1);
      var t := Converse(step, message, s, replies, n - 1);
      if t.result == None {
        ReadingGoesOn(step, message, s, replies, n - 1, t);
      } else {
        EndStands(t, replies, n - 1);
      }
    }
  }

  lemma OpeningShape<S, E>(step: Dispatcher<S, E>, message: string, s: S, replies: nat -> Reply)
    ensures TalkShape(step, message, s, replies, 0, Opening<S, E>(s))
  {
    NoUsage(replies);
  }

  lemma NoUsage(replies: nat -> Reply)
    ensures UsageIsSum(None, replies, 0)
  {
  }
}
