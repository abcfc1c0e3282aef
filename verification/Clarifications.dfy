/**
 The conversation a user has over several messages: what the provider is sent is
 the user's current unbroken chain of clarified messages, read off the run alone.
 */
module Clarifications {
  import opened Wrappers
  import opened Ledger
  import opened Orchestrator

  function UserOf(turn: Turn): string {
    turn.request.scope.user
  }

  /** The pending map after a run of Handle calls. */
  function RunTurns(turns: seq<Turn>): PendingMap {
    if turns == [] then map[] else AfterTurn(RunTurns(turns[..|turns| - 1]), turns[|turns| - 1])
  }

  /** The last accepted message of user among the first k, as an index; k when there is none. */
  function LastOf(turns: seq<Turn>, user: string, k: nat): (j: nat)
    requires k <= |turns|
    ensures j < k ==> ValidRequest(turns[j].request) && UserOf(turns[j]) == user
    ensures j < k || j == |turns|
    decreases k
  {
    if k == 0 then |turns|
    else if ValidRequest(turns[k - 1].request) && UserOf(turns[k - 1]) == user then k - 1
    else LastOf(turns, user, k - 1)
  }

  function PreviousOf(turns: seq<Turn>, k: nat): (j: nat)
    requires k < |turns|
    ensures j < k || j == |turns|
  {
    LastOf(turns, UserOf(turns[k]), k)
  }

  /** Message k reaches the provider: it is no cancellation and no answer that came too late. */
  predicate Reaches(turns: seq<Turn>, k: nat)
    requires k < |turns|
    decreases k, 1
  {
    ValidRequest(turns[k].request) && !IsCancel(turns[k].message) && !TooLate(turns, k)
  }

  /** Message k was answered with a question and left waiting. */
  predicate Waits(turns: seq<Turn>, k: nat)
    requires k < |turns|
    decreases k, 2
  {
    Reaches(turns, k) && turns[k].armed
  }

  predicate TooLate(turns: seq<Turn>, k: nat)
    requires k < |turns|
    decreases k, 0
  {
    var j := PreviousOf(turns, k);
    j < k && Waits(turns, j) && turns[k].checkAt >= turns[j].armAt + 600_000_000_000
  }

  /** Message k continues the user's previous one: that waits, and less than ten minutes have passed. */
  predicate Continues(turns: seq<Turn>, k: nat)
    requires k < |turns|
  {
    var j := PreviousOf(turns, k);
    j < k && Waits(turns, j) && turns[k].checkAt < turns[j].armAt + 600_000_000_000
  }

  /** The messages of the unbroken chain that ends with message k. */
  function Chain(turns: seq<Turn>, k: nat): (c: seq<string>)
    requires k < |turns|
    ensures c != [] && c[|c| - 1] == turns[k].message
    decreases k
  {
    if Continues(turns, k) then Chain(turns, PreviousOf(turns, k)) + [turns[k].message] else [turns[k].message]
  }

  function JoinLines(lines: seq<string>): string
    requires lines != []
  {
    if |lines| == 1 then lines[0] else JoinLines(lines[..|lines| - 1]) + "\n" + lines[|lines| - 1]
  }

  // ----- the pending map holds exactly the waiting chains -----

  /** What user has waiting after the first k messages. */
  function Waiting(turns: seq<Turn>, user: string, k: nat): Option<Pending>
    requires k <= |turns|
  {
    var j := LastOf(turns, user, k);
    if j < k && Waits(turns, j) then Some(Pending(JoinLines(Chain(turns, j)), turns[j].armAt + 600_000_000_000))
    else None
  }

  function Held(pending: PendingMap, user: string): Option<Pending> {
    if user in pending then Some(pending[user]) else None
  }

  /** A message changes nobody else's entry. */
  lemma OtherUsersKeepTheirs(pending: PendingMap, turn: Turn, user: string)
    requires user != UserOf(turn)
    ensures Held(AfterTurn(pending, turn), user) == Held(pending, user)
  {
    hide IsCancel, ValidRequest;
  }

  lemma ChainGrows(turns: seq<Turn>, k: nat)
    requires k < |turns|
    ensures JoinLines(Chain(turns, k)) ==
            if Continues(turns, k) then JoinLines(Chain(turns, PreviousOf(turns, k))) + "\n" + turns[k].message
            else turns[k].message
  {
    if Continues(turns, k) {
      hide Waits, Reaches, TooLate, IsCancel, ValidRequest, Continues;
      var c := Chain(turns, PreviousOf(turns, k));
      var d := c + [turns[k].message];
      assert d[..|d| - 1] == c;
    }
  }

  /** What becomes of message k, given what its user has waiting. */
  lemma DeliveredFromWaiting(turns: seq<Turn>, pending: PendingMap, k: nat)
    requires k < |turns| && ValidRequest(turns[k].request)
    requires Held(pending, UserOf(turns[k])) == Waiting(turns, UserOf(turns[k]), k)
    ensures Deliver(pending, UserOf(turns[k]), turns[k].message, turns[k].checkAt) ==
            if IsCancel(turns[k].message) then Cancel
            else if TooLate(turns, k) then Expire
            else Send(JoinLines(Chain(turns, k)))
  {
    hide IsCancel, ValidRequest, Waits, Chain, JoinLines, LastOf;
    ChainGrows(turns, k);
  }

  /** What a message does to its own user's entry. */
  lemma OwnEntry(turns: seq<Turn>, pending: PendingMap, k: nat)
    requires k < |turns| && ValidRequest(turns[k].request)
    requires Held(pending, UserOf(turns[k])) == Waiting(turns, UserOf(turns[k]), k)
    ensures Held(AfterTurn(pending, turns[k]), UserOf(turns[k])) == Waiting(turns, UserOf(turns[k]), k + 1)
  {
    hide IsCancel, ValidRequest, Waits, Chain, JoinLines, TooLate, Deliver;
    DeliveredFromWaiting(turns, pending, k);
    assert LastOf(turns, UserOf(turns[k]), k + 1) == k;
    WaitsMeans(turns, k);
  }

  lemma WaitsMeans(turns: seq<Turn>, k: nat)
    requires k < |turns| && ValidRequest(turns[k].request)
    ensures Waits(turns, k) <==> !IsCancel(turns[k].message) && !TooLate(turns, k) && turns[k].armed
  {
    hide IsCancel, ValidRequest, TooLate;
  }

  lemma {:induction false} PendingIsWaiting(turns: seq<Turn>, user: string, k: nat)
    requires k <= |turns|
    ensures Held(RunTurns(turns[..k]), user) == Waiting(turns, user, k)
    decreases k
  {
    hide IsCancel, ValidRequest, Waits, Chain, AfterTurn;
    if k > 0 {
      PendingIsWaiting(turns, user, k - 1);
      assert turns[..k][..k - 1] == turns[..k - 1];
      var turn := turns[k - 1];
      if UserOf(turn) != user {
        OtherUsersKeepTheirs(RunTurns(turns[..k - 1]), turn, user);
      } else if ValidRequest(turn.request) {
        OwnEntry(turns, RunTurns(turns[..k - 1]), k - 1);
      } else {
        InvalidTurn(RunTurns(turns[..k - 1]), turn);
      }
    }
  }

  lemma InvalidTurn(pending: PendingMap, turn: Turn)
    requires !ValidRequest(turn.request)
    ensures AfterTurn(pending, turn) == pending
  {
    hide ValidRequest;
  }

  /**
   In every run of Handle, message k is cancelled, refused as late, or sent to the provider as the
   newline-join of its user's unbroken chain; every gap in that chain is under ten minutes.
   */
  lemma ProviderGetsTheChain(turns: seq<Turn>, k: nat)
    requires k < |turns| && ValidRequest(turns[k].request)
    ensures Deliver(RunTurns(turns[..k]), UserOf(turns[k]), turns[k].message, turns[k].checkAt) ==
            if IsCancel(turns[k].message) then Cancel
            else if TooLate(turns, k) then Expire
            else Send(JoinLines(Chain(turns, k)))
  {
    hide IsCancel, ValidRequest, Waits, Chain, AfterTurn, Deliver;
    PendingIsWaiting(turns, UserOf(turns[k]), k);
    DeliveredFromWaiting(turns, RunTurns(turns[..k]), k);
  }

  lemma StartsAlone(turns: seq<Turn>, k: nat)
    requires k < |turns| && (PreviousOf(turns, k) == |turns| || !Waits(turns, PreviousOf(turns, k)))
    ensures Chain(turns, k) == [turns[k].message] && !TooLate(turns, k)
  {
    hide Waits;
  }

  /**
   The user's message before the k-th, when there is one, ended its chain: cancelled, too late, or not left
   waiting.
   */
  predicate Ended(turns: seq<Turn>, k: nat)
    requires k < |turns|
  {
    var j := PreviousOf(turns, k);
    j < k ==> IsCancel(turns[j].message) || TooLate(turns, j) || !turns[j].armed
  }

  /**
   In every run, a message whose predecessor was cancelled, came too late, or was not answered with a question
   reaches the provider alone; so does a first message. (A failure and a completed action ask nothing:
   Orchestrator.FailuresAndActionsDisarm.)
   */
  lemma ChainsEnd(turns: seq<Turn>, k: nat)
    requires k < |turns| && ValidRequest(turns[k].request) && Ended(turns, k)
    ensures Deliver(RunTurns(turns[..k]), UserOf(turns[k]), turns[k].message, turns[k].checkAt) ==
            if IsCancel(turns[k].message) then Cancel else Send(turns[k].message)
  {
    hide IsCancel, ValidRequest, Waits, TooLate, Chain, Deliver, RunTurns;
    var j := PreviousOf(turns, k);
    if j < k {
      WaitsMeans(turns, j);
    }
    StartsAlone(turns, k);
    ProviderGetsTheChain(turns, k);
  }

  /** Conversely, the message after one that waits is joined to it, or refused when it comes ten minutes later. */
  lemma ChainsGoOn(turns: seq<Turn>, k: nat)
    requires k < |turns| && ValidRequest(turns[k].request) && PreviousOf(turns, k) < k && !Ended(turns, k)
    ensures var j := PreviousOf(turns, k);
            Deliver(RunTurns(turns[..k]), UserOf(turns[k]), turns[k].message, turns[k].checkAt) ==
            if IsCancel(turns[k].message) then Cancel
            else if turns[k].checkAt >= turns[j].armAt + 600_000_000_000 then Expire
            else Send(JoinLines(Chain(turns, j)) + "\n" + turns[k].message)
  {
    hide IsCancel, ValidRequest, Waits, Chain, JoinLines, Deliver, RunTurns, Reaches;
    WaitsMeans(turns, PreviousOf(turns, k));
    ChainGrows(turns, k);
    ProviderGetsTheChain(turns, k);
  }
}
