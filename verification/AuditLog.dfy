/**
 The audit log as a history of the transactions table: replaying it forwards
 rebuilds the table, rewinding it with its before-images undoes it.
 */
module AuditLog {
  import opened Wrappers
  import opened Instants
  import opened Amounts
  import opened Ledger

  type Rows = map<int, Transaction>

  datatype Event = Event(
    id: int, scope: Scope, source: string, action: Kind, at: Instant,
    before: Option<Transaction>, after: Option<Input>)

  function CreatedRow(id: int, request: RequestContext, input: Input): Transaction {
    Transaction(id, input.typ, input.amount, input.category, input.note, input.occurredAt,
                request.scope, request.source, request.receivedAt, request.receivedAt, None)
  }

  function UpdatedRow(row: Transaction, input: Input, at: Instant): Transaction {
    row.(typ := input.typ, amount := input.amount, category := input.category, note := input.note,
    occurredAt := input.occurredAt, updatedAt := at)
  }

  function DeletedRow(row: Transaction, at: Instant): Transaction {
    row.(deletedAt := Some(at), updatedAt := at)
  }

  function RestoredRow(row: Transaction, at: Instant): Transaction {
    row.(deletedAt := None, updatedAt := at)
  }

  // ----- forwards -----

  /** One event's effect, from the after-input and the event's identity, source and time alone. */
  function ReplayEvent(rows: Rows, e: Event): Rows {
    match e.action
    case Create =>
      if e.after.None? then rows
      else rows[e.id := CreatedRow(e.id, RequestContext(e.scope, e.source, e.at), e.after.value)]
    case Update =>
      if e.after.None? || e.id !in rows then rows else rows[e.id := UpdatedRow(rows[e.id], e.after.value, e.at)]
    case Delete => if e.id !in rows then rows else rows[e.id := DeletedRow(rows[e.id], e.at)]
    case Restore => if e.id !in rows then rows else rows[e.id := RestoredRow(rows[e.id], e.at)]
    case Unknown(_) => rows
  }

  function Replay(log: seq<Event>): Rows {
    if log == [] then map[] else ReplayEvent(Replay(log[..|log| - 1]), log[|log| - 1])
  }

  function Creates(log: seq<Event>): nat {
    if log == [] then 0
    else Creates(log[..|log| - 1]) + (if log[|log| - 1].action == Create then 1 else 0)
  }

  /** The before-image an event on id must carry when the table is rows. */
  function ImageOf(rows: Rows, id: int): Option<Transaction> {
    if id in rows then Some(rows[id]) else None
  }

  /** e is an event the store can record on a table that has seen created creations. */
  ghost predicate Legal(rows: Rows, created: nat, e: Event) {
    && e.before == ImageOf(rows, e.id)
    && (match e.action
        case Create => e.id == created + 1 && e.id !in rows && e.after.Some? && ValidInput(e.after.value)
        case Update => e.id in rows && rows[e.id].scope == e.scope && rows[e.id].deletedAt == None
                       && e.after.Some? && ValidInput(e.after.value)
        case Delete => e.id in rows && rows[e.id].scope == e.scope && rows[e.id].deletedAt == None && e.after == None
        case Restore => e.id in rows && rows[e.id].scope == e.scope && rows[e.id].deletedAt.Some? && e.after == None
        case Unknown(_) => false)
  }

  ghost predicate LegalLog(log: seq<Event>) {
    log == [] ||
    (LegalLog(log[..|log| - 1]) && Legal(Replay(log[..|log| - 1]), Creates(log[..|log| - 1]), log[|log| - 1]))
  }

  /** What every row of a replayed log looks like. */
  ghost predicate SoundRows(rows: Rows, created: nat) {
    && (forall id :: id in rows <==> 1 <= id <= created)
    && (forall id :: id in rows ==> rows[id].id == id && ValidInput(InputOf(rows[id])))
  }

  lemma SoundStep(rows: Rows, created: nat, e: Event)
    requires SoundRows(rows, created) && Legal(rows, created, e)
    ensures SoundRows(ReplayEvent(rows, e), if e.action == Create then created + 1 else created)
  {
    hide ValidateInput;
  }

  lemma {:induction false} ReplayIsSound(log: seq<Event>)
    requires LegalLog(log)
    ensures SoundRows(Replay(log), Creates(log))
    decreases |log|
  {
    if log != [] {
      hide Legal, ReplayEvent;
      var front := log[..|log| - 1];
      ReplayIsSound(front);
      SoundStep(Replay(front), Creates(front), log[|log| - 1]);
    }
  }

  lemma {:induction false} LegalPrefix(log: seq<Event>, k: nat)
    requires LegalLog(log) && k <= |log|
    ensures LegalLog(log[..k])
    decreases |log|
  {
    if k == |log| {
      assert log[..k] == log;
    } else {
      LegalPrefix(log[..|log| - 1], k);
      assert log[..|log| - 1][..k] == log[..k];
    }
  }

  /** Each event's before-image is the state the previous events left of that id. */
  lemma BeforeImagesChain(log: seq<Event>, k: nat)
    requires LegalLog(log) && k < |log|
    ensures Legal(Replay(log[..k]), Creates(log[..k]), log[k])
    ensures log[k].before == ImageOf(Replay(log[..k]), log[k].id)
  {
    hide Replay, Creates;
    LegalPrefix(log, k + 1);
    assert log[..k + 1][..k] == log[..k];
  }

  // ----- backwards -----

  /** Puts back the before-image; a row without one is removed. */
  function UndoEvent(rows: Rows, e: Event): Rows {
    match e.before
    case Some(row) => rows[e.id := row]
    case None => rows - {e.id}
  }

  function Rewind(rows: Rows, log: seq<Event>): Rows
    decreases |log|
  {
    if log == [] then rows else Rewind(UndoEvent(rows, log[|log| - 1]), log[..|log| - 1])
  }

  lemma UndoInvertsReplay(rows: Rows, created: nat, e: Event)
    requires Legal(rows, created, e)
    ensures UndoEvent(ReplayEvent(rows, e), e) == rows
  {
  }

  /** Undoing the events from k on gives exactly the table as it was after the first k. */
  lemma {:induction false} RewindInvertsReplay(log: seq<Event>, k: nat)
    requires LegalLog(log) && k <= |log|
    ensures Rewind(Replay(log), log[k..]) == Replay(log[..k])
    decreases |log| - k
  {
    if k == |log| {
      assert log[..k] == log;
    } else {
      var n := |log| - 1;
      UndoInvertsReplay(Replay(log[..n]), Creates(log[..n]), log[n]);
      LegalPrefix(log, n);
      RewindInvertsReplay(log[..n], k);
      assert log[..n][..k] == log[..k] && log[..n][k..] == log[k..][..|log[k..]| - 1];
    }
  }

  // ----- the history of one row -----

  /** The actions recorded for id, in order. */
  function History(log: seq<Event>, id: int): seq<Kind> {
    if log == [] then []
    else History(log[..|log| - 1], id) + (if log[|log| - 1].id == id then [log[|log| - 1].action] else [])
  }

  /** (update | delete restore)* with an optional final delete */
  ghost predicate IsLife(actions: seq<Kind>) {
    if actions == [] then true
    else if actions[0] == Update then IsLife(actions[1..])
    else actions[0] == Delete && (|actions| == 1 || (actions[1] == Restore && IsLife(actions[2..])))
  }

  ghost predicate IsHistory(actions: seq<Kind>) {
    actions != [] && actions[0] == Create && IsLife(actions[1..])
  }

  ghost predicate EndsDeleted(actions: seq<Kind>) {
    actions != [] && actions[|actions| - 1] == Delete
  }

  lemma {:induction false} LifeGrows(actions: seq<Kind>, next: Kind)
    requires IsLife(actions)
    requires if EndsDeleted(actions) then next == Restore else next == Update || next == Delete
    ensures IsLife(actions + [next])
    decreases |actions|
  {
    if actions == [] {
    } else if actions[0] == Update {
      assert (actions + [next])[1..] == actions[1..] + [next];
      LifeGrows(actions[1..], next);
    } else if |actions| > 1 {
      assert (actions + [next])[2..] == actions[2..] + [next];
      LifeGrows(actions[2..], next);
    } else {
      assert (actions + [next])[2..] == [];
    }
  }

  lemma HistoryGrows(past: seq<Kind>, next: Kind)
    requires if past == [] then next == Create else IsHistory(past)
    requires past != [] ==> if EndsDeleted(past) then next == Restore else next == Update || next == Delete
    ensures IsHistory(past + [next]) && (EndsDeleted(past + [next]) <==> next == Delete)
  {
    if past == [] {
      assert ([] + [next])[1..] == [];
    } else {
      assert (past + [next])[1..] == past[1..] + [next];
      assert EndsDeleted(past) <==> EndsDeleted(past[1..]);
      LifeGrows(past[1..], next);
    }
  }

  /** Every row's events spell a history, and the row is deleted exactly when it ends in delete. */
  lemma {:induction false} HistoriesAreWellFormed(log: seq<Event>, id: int)
    requires LegalLog(log)
    ensures id !in Replay(log) ==> History(log, id) == []
    ensures id in Replay(log) ==> IsHistory(History(log, id))
    ensures id in Replay(log) ==> (Replay(log)[id].deletedAt.Some? <==> EndsDeleted(History(log, id)))
    decreases |log|
  {
    hide IsHistory, EndsDeleted, ValidInput;
    if log != [] {
      var front, e := log[..|log| - 1], log[|log| - 1];
      HistoriesAreWellFormed(front, id);
      if e.id == id {
        EmptyIsNoHistory();
        HistoryGrows(History(front, id), e.action);
      } else {
        assert History(log, id) == History(front, id);
      }
    }
  }

  lemma EmptyIsNoHistory()
    ensures !IsHistory([])
  {
  }

  // ----- a row read off its events -----

  /** The events recorded for id, in order. */
  function EventsOf(log: seq<Event>, id: int): seq<Event> {
    if log == [] then []
    else EventsOf(log[..|log| - 1], id) + (if log[|log| - 1].id == id then [log[|log| - 1]] else [])
  }

  /** The input of the last event that carries one. */
  function LastInput(events: seq<Event>): Option<Input> {
    if events == [] then None
    else if events[|events| - 1].after.Some? then events[|events| - 1].after
    else LastInput(events[..|events| - 1])
  }

  /** What the events of one id say about its row, field by field. */
  ghost predicate ReadOff(row: Transaction, events: seq<Event>) {
    && events != [] && events[0].action == Create
    && row.scope == events[0].scope && row.source == events[0].source && row.createdAt == events[0].at
    && var last := events[|events| - 1];
    && row.updatedAt == last.at
    && row.deletedAt == (if last.action == Delete then Some(last.at) else None)
    && LastInput(events) == Some(Input(row.typ, row.amount, row.category, row.note, row.occurredAt))
  }

  lemma ReadOffGrows(rows: Rows, created: nat, e: Event, events: seq<Event>)
    requires Legal(rows, created, e)
    requires if e.action == Create then events == [] else ReadOff(rows[e.id], events)
    ensures e.id in ReplayEvent(rows, e) && ReadOff(ReplayEvent(rows, e)[e.id], events + [e])
  {
    hide ValidInput;
    assert (events + [e])[..|events|] == events;
  }

  /**
   Every row is its events' story: scope, source and creation time of the create, time of the last event,
   the last recorded input, and a deletion time exactly when the last event is a delete.
   */
  lemma {:induction false} RowsAreReadOffTheirEvents(log: seq<Event>, id: int)
    requires LegalLog(log)
    ensures if id in Replay(log) then ReadOff(Replay(log)[id], EventsOf(log, id)) else EventsOf(log, id) == []
    decreases |log|
  {
    hide ReadOff, ValidInput;
    if log != [] {
      var front, e := log[..|log| - 1], log[|log| - 1];
      RowsAreReadOffTheirEvents(front, id);
      if e.id == id {
        ReadOffGrows(Replay(front), Creates(front), e, EventsOf(front, id));
      } else {
        assert EventsOf(log, id) == EventsOf(front, id);
      }
    }
  }

  // ----- conservation of money -----

  /** The signed amount a row contributes while it is live. */
  function Signed(typ: string, amount: int): int {
    if typ == INCOME then amount else -amount
  }

  function LiveAmount(row: Transaction): int {
    if row.deletedAt.Some? then 0 else Signed(row.typ, row.amount)
  }

  /** The signed sum over the live rows of scope with ids 1 to n. */
  function LiveSum(rows: Rows, scope: Scope, n: nat): int {
    if n == 0 then 0
    else LiveSum(rows, scope, n - 1) + (if n in rows && rows[n].scope == scope then LiveAmount(rows[n]) else 0)
  }

  /** What the row amounted to before the event, and after it, read from the event alone. */
  function AmountBefore(e: Event): int {
    if e.before.None? then 0 else LiveAmount(e.before.value)
  }

  function AmountAfter(e: Event): int {
    if e.action == Delete then 0
    else if e.after.Some? then Signed(e.after.value.typ, e.after.value.amount)
    else if e.before.Some? then Signed(e.before.value.typ, e.before.value.amount)
    else 0
  }

  function DeltaSum(log: seq<Event>, scope: Scope): int {
    if log == [] then 0
    else DeltaSum(log[..|log| - 1], scope) +
         (if log[|log| - 1].scope == scope then AmountAfter(log[|log| - 1]) - AmountBefore(log[|log| - 1]) else 0)
  }

  function Share(rows: Rows, scope: Scope, id: int): int {
    if id in rows && rows[id].scope == scope then LiveAmount(rows[id]) else 0
  }

  lemma {:induction false} LiveSumChange(rows: Rows, rows': Rows, scope: Scope, id: int, n: nat)
    requires forall j :: j != id ==> ImageOf(rows, j) == ImageOf(rows', j)
    ensures LiveSum(rows', scope, n) - LiveSum(rows, scope, n) ==
            if 1 <= id <= n then Share(rows', scope, id) - Share(rows, scope, id) else 0
    decreases n
  {
    if n > 0 {
      LiveSumChange(rows, rows', scope, id, n - 1);
      assert n != id ==> ImageOf(rows, n) == ImageOf(rows', n);
    }
  }

  lemma BalanceStep(rows: Rows, created: nat, e: Event, scope: Scope)
    requires Legal(rows, created, e) && SoundRows(rows, created)
    ensures LiveSum(ReplayEvent(rows, e), scope, if e.action == Create then created + 1 else created) ==
            LiveSum(rows, scope, created) + if e.scope == scope then AmountAfter(e) - AmountBefore(e) else 0
  {
    hide ValidateInput;
    var rows' := ReplayEvent(rows, e);
    LiveSumChange(rows, rows', scope, e.id, created);
    EventShare(rows, created, e, scope);
  }

  /** What an event does to its own row's contribution. */
  lemma EventShare(rows: Rows, created: nat, e: Event, scope: Scope)
    requires Legal(rows, created, e)
    ensures Share(ReplayEvent(rows, e), scope, e.id) - Share(rows, scope, e.id) ==
            if e.scope == scope then AmountAfter(e) - AmountBefore(e) else 0
  {
    hide ValidateInput;
  }

  /** The live balance of a scope is the sum of what its events changed. */
  lemma {:induction false} BalanceIsSumOfChanges(log: seq<Event>, scope: Scope)
    requires LegalLog(log)
    ensures LiveSum(Replay(log), scope, Creates(log)) == DeltaSum(log, scope)
    decreases |log|
  {
    if log == [] {
      assert LiveSum(map[], scope, 0) == 0;
    } else {
      var front, e := log[..|log| - 1], log[|log| - 1];
      var rows, created := Replay(front), Creates(front);
      ReplayIsSound(front);
      BalanceStep(rows, created, e, scope);
      assert Replay(log) == ReplayEvent(rows, e);
      assert Creates(log) == if e.action == Create then created + 1 else created;
      BalanceIsSumOfChanges(front, scope);
    }
  }
}
