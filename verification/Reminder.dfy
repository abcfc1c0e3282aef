/**
 The reminder scheduler (internal/reminder/scheduler.go) and the delivery state it
 keeps in SQLite (internal/storage/sqlite/reminder.go), at the fixed offset +07:00.
 */
module Reminder {
  import opened Wrappers
  import opened Calendar

  /** Instants are nanoseconds; these are the zone offset and a minute in nanoseconds. */
  const OFFSET := 25_200_000_000_000
  const MINUTE := 60_000_000_000

  function LocalDay(t: int): int {
    (t + OFFSET) / DAY
  }

  function DayStart(t: int): int {
    LocalDay(t) * DAY - OFFSET
  }

  function MinuteOfDay(t: int): int {
    (t - DayStart(t)) / MINUTE
  }

  /** The range the activity query uses is exactly the local day. */
  lemma DayWindow(t: int, now: int)
    ensures DayStart(now) <= t < DayStart(now) + DAY <==> LocalDay(t) == LocalDay(now)
  {
    var d, r := LocalDay(t), (t + OFFSET) % DAY;
    assert t + OFFSET == d * DAY + r && 0 <= r < DAY;
  }

  // ----- the stored delivery state -----

  datatype Delivery = Delivery(date: int, at: int)

  datatype StoreError = FieldsRequired | Unreadable | StatementFailed

  /** The stored time is text; it is read back only when that text can be parsed. */
  predicate Readable(stored: Option<Delivery>) {
    stored.Some? ==> Writable(stored.value.at)
  }

  /** A row is refused without a user or with Go's zero time. */
  predicate Recordable(user: string, at: int) {
    user != "" && at != ZERO_NANOS
  }

  class ReminderStore {
    var deliveries: map<string, Delivery>

    constructor ()
      ensures deliveries == map[]
    {
      deliveries := map[];
    }

    function StoredFor(user: string): Option<Delivery>
      reads this
    {
      if user in deliveries then Some(deliveries[user]) else None
    }

    /** ReminderState: None when the user has no row yet; a stored time that does not parse is an error. */
    method ReminderState(user: string, works: bool) returns (r: Result<Option<Delivery>, StoreError>)
      ensures r == if !works then Err(StatementFailed)
                   else if !Readable(StoredFor(user)) then Err(Unreadable)
                   else Ok(StoredFor(user))
    {
      if !works {
        return Err(StatementFailed);
      }
      if user !in deliveries {
        return Ok(None);
      }
      if !Writable(deliveries[user].at) {
        return Err(Unreadable);
      }
      r := Ok(Some(deliveries[user]));
    }

    /** RecordReminderDelivery: an upsert of the user's row. */
    method RecordReminderDelivery(user: string, date: int, at: int, works: bool) returns (r: Result<(), StoreError>)
      modifies this
      ensures r == if !Recordable(user, at) then Err(FieldsRequired) else if !works then Err(StatementFailed)
              else Ok(())
      ensures deliveries == if r.Ok? then old(deliveries)[user := Delivery(date, at)] else old(deliveries)
    {
      if user == "" || at == ZERO_NANOS {
        return Err(FieldsRequired);
      }
      if !works {
        return Err(StatementFailed);
      }
      deliveries := deliveries[user := Delivery(date, at)];
      r := Ok(());
    }
  }

  // ----- one check -----

  /** The local minute of the day to remind at, and the cooldown (the constructor makes it positive). */
  datatype Config = Config(user: string, minute: int, cooldown: int)

  predicate ValidConfig(c: Config) {
    c.user != "" && 0 <= c.minute < 24 * 60 && c.cooldown > 0
  }

  /** The clock, which of the outside calls work, and how many transactions the day has. */
  datatype Outside = Outside(now: int, readWorks: bool, activity: Option<nat>, sendWorks: bool, recordWorks: bool)

  datatype Outcome = Skipped | ReadFailed | SearchFailed | SendFailed | RecordFailed | Sent

  /** A send was tried, whether or not it and its record succeeded. */
  predicate Tried(o: Outcome) {
    o == SendFailed || o == RecordFailed || o == Sent
  }

  /** The process's memory and the user's stored row. */
  datatype State = State(attempted: set<int>, stored: Option<Delivery>)

  predicate Blocks(c: Config, stored: Option<Delivery>, now: int) {
    stored.Some? && (stored.value.date == LocalDay(now) || now < stored.value.at + c.cooldown)
  }

  function Checked(c: Config, s: State, o: Outside): (State, Outcome) {
    var day := LocalDay(o.now);
    var marked := s.(attempted := s.attempted + {day});
    if MinuteOfDay(o.now) != c.minute || day in s.attempted then (s, Skipped)
    else if !o.readWorks || !Readable(s.stored) then (s, ReadFailed)
    else if Blocks(c, s.stored, o.now) then (marked, Skipped)
    else if o.activity.None? then (s, SearchFailed)
    else if o.activity.value > 0 then (marked, Skipped)
    else if !o.sendWorks then (marked, SendFailed)
    else if !o.recordWorks || !Recordable(c.user, o.now) then (marked, RecordFailed)
    else (marked.(stored := Some(Delivery(day, o.now))), Sent)
  }

  class Scheduler {
    const config: Config
    const store: ReminderStore
    var attempted: set<int>

    constructor (user: string, minute: int, cooldown: int, store: ReminderStore)
      requires user != "" && 0 <= minute < 24 * 60
      ensures ValidConfig(config) && this.store == store && attempted == {}
      ensures config == Config(user, minute, if cooldown <= 0 then DAY else cooldown)
    {
      this.config := Config(user, minute, if cooldown <= 0 then DAY else cooldown);
      this.store := store;
      attempted := {};
    }

    function Current(): State
      reads this, store
    {
      State(attempted, store.StoredFor(config.user))
    }

    method Check(o: Outside) returns (outcome: Outcome)
      requires ValidConfig(config)
      modifies this, store
      ensures (Current(), outcome) == Checked(config, old(Current()), o)
      ensures forall u :: u != config.user ==> (u in store.deliveries <==> u in old(store.deliveries))
      ensures forall u :: u != config.user && u in old(store.deliveries) ==>
              store.deliveries[u] == old(store.deliveries)[u]
    {
      var now := o.now;
      if MinuteOfDay(now) != config.minute {
        return Skipped;
      }
      var date := LocalDay(now);
      if date in attempted {
        return Skipped;
      }
      var state := store.ReminderState(config.user, o.readWorks);
      if state.Err? {
        return ReadFailed;
      }
      if Blocks(config, state.value, now) {
        attempted := attempted + {date};
        return Skipped;
      }
      if o.activity.None? {
        return SearchFailed;
      }
      if o.activity.value > 0 {
        attempted := attempted + {date};
        return Skipped;
      }
      attempted := attempted + {date};
      if !o.sendWorks {
        return SendFailed;
      }
      var recorded := store.RecordReminderDelivery(config.user, date, now, o.recordWorks);
      outcome := if recorded.Ok? then Sent else RecordFailed;
    }
  }

  // ----- runs with restarts -----

  /** A check, or the end of the process: the stored row survives, the set of attempted dates does not. */
  datatype Event = Check(outside: Outside) | Restart

  function Next(c: Config, s: State, e: Event): State {
    match e
    case Check(o) => Checked(c, s, o).0
    case Restart => s.(attempted := {})
  }

  function Run(c: Config, s: State, events: seq<Event>): State {
    if events == [] then s else Next(c, Run(c, s, events[..|events| - 1]), events[|events| - 1])
  }

  /** What the n-th event of the run comes to. */
  function OutcomeAt(c: Config, s: State, events: seq<Event>, n: nat): Outcome
    requires n < |events|
  {
    match events[n]
    case Check(o) => Checked(c, Run(c, s, events[..n]), o).1
    case Restart => Skipped
  }

  predicate NoRestart(events: seq<Event>) {
    forall i :: 0 <= i < |events| ==> events[i].Check?
  }

  /** A check at the reminder's minute that got far enough to settle what happens on its date. */
  predicate Settles(c: Config, o: Outside, outcome: Outcome) {
    MinuteOfDay(o.now) == c.minute && outcome != ReadFailed && outcome != SearchFailed
  }

  /** The k-th event is a check that settles the given date. */
  predicate SettlesDate(c: Config, s: State, events: seq<Event>, k: nat, day: int)
    requires k < |events|
  {
    && events[k].Check? && LocalDay(events[k].outside.now) == day
    && Settles(c, events[k].outside, OutcomeAt(c, s, events, k))
  }

  /** ... and the process has not ended since. */
  ghost predicate Standing(c: Config, s: State, events: seq<Event>, k: nat, day: int) {
    k < |events| && SettlesDate(c, s, events, k, day) && NoRestart(events[k..])
  }

  lemma OutcomeOfPrefix(c: Config, s: State, events: seq<Event>, n: nat, k: nat)
    requires k < n <= |events|
    ensures OutcomeAt(c, s, events[..n], k) == OutcomeAt(c, s, events, k)
  {
    hide Run, LocalDay, MinuteOfDay, Blocks;
    assert events[..n][..k] == events[..k];
  }

  lemma StandingGrows(c: Config, s: State, front: seq<Event>, e: Event, k: nat, day: int)
    requires k < |front|
    ensures Standing(c, s, front + [e], k, day) <==> Standing(c, s, front, k, day) && e.Check?
  {
    hide OutcomeAt, Settles, LocalDay;
    assert (front + [e])[..|front|] == front;
    OutcomeOfPrefix(c, s, front + [e], |front|, k);
    assert (front + [e])[k..] == front[k..] + [e];
    NoRestartGrows(front[k..], e);
    assert SettlesDate(c, s, front + [e], k, day) <==> SettlesDate(c, s, front, k, day);
  }

  lemma NoRestartGrows(events: seq<Event>, e: Event)
    ensures NoRestart(events + [e]) <==> NoRestart(events) && e.Check?
  {
    var more := events + [e];
    assert more[|events|] == e && forall i :: 0 <= i < |events| ==> more[i] == events[i];
  }

  lemma CheckRemembers(c: Config, s: State, o: Outside, day: int)
    ensures var (s', outcome) := Checked(c, s, o);
            day in s'.attempted <==> day in s.attempted || (day == LocalDay(o.now) && Settles(c, o, outcome))
  {
    hide LocalDay, MinuteOfDay, Blocks, Readable, Recordable;
  }

  /** A new process remembers a date exactly when one of its own checks settled it. */
  lemma {:induction false} DatesAreRememberedExactlyWhen(c: Config, s: State, events: seq<Event>, day: int)
    requires s.attempted == {}
    ensures day in Run(c, s, events).attempted <==> exists k: nat :: Standing(c, s, events, k, day)
    decreases |events|
  {
    hide Checked, Standing, LocalDay;
    if events == [] {
      NothingStands(c, s, day);
    } else {
      var front, last := events[..|events| - 1], events[|events| - 1];
      assert events == front + [last];
      DatesAreRememberedExactlyWhen(c, s, front, day);
      forall k: nat | k < |front|
        ensures Standing(c, s, events, k, day) <==> Standing(c, s, front, k, day) && last.Check?
      {
        StandingGrows(c, s, front, last, k, day);
      }
      LastStands(c, s, front, last, day);
      assert forall k: nat :: Standing(c, s, front, k, day) ==> Standing(c, s, events, k, day) || last.Restart?;
      if last.Check? {
        CheckRemembers(c, Run(c, s, front), last.outside, day);
      }
    }
  }

  lemma NothingStands(c: Config, s: State, day: int)
    ensures forall k: nat :: !Standing(c, s, [], k, day)
  {
  }

  lemma LastStands(c: Config, s: State, front: seq<Event>, last: Event, day: int)
    ensures Standing(c, s, front + [last], |front|, day) <==>
            last.Check? && day == LocalDay(last.outside.now) &&
            Settles(c, last.outside, Checked(c, Run(c, s, front), last.outside).1)
    ensures forall k: nat :: k >= |front| && Standing(c, s, front + [last], k, day) ==> k == |front|
    ensures forall k: nat :: Standing(c, s, front, k, day) ==> k < |front|
  {
    hide Run, Checked, LocalDay, MinuteOfDay;
    assert (front + [last])[..|front|] == front;
    assert (front + [last])[|front|..] == [last];
  }

  lemma {:induction false} SettledDatesAreRemembered(c: Config, s: State, events: seq<Event>, i: nat)
    requires NoRestart(events) && i < |events| && Settles(c, events[i].outside, OutcomeAt(c, s, events, i))
    ensures LocalDay(events[i].outside.now) in Run(c, s, events).attempted
    decreases |events|
  {
    hide LocalDay, MinuteOfDay, Checked;
    var front, last := events[..|events| - 1], events[|events| - 1];
    if i < |front| {
      OutcomeOfPrefix(c, s, events, |front|, i);
      SettledDatesAreRemembered(c, s, front, i);
    }
    CheckRemembers(c, Run(c, s, front), last.outside, LocalDay(events[i].outside.now));
  }

  /** One process settles each local date at most once: every later check of that date is skipped. */
  lemma DatesAreSettledOnce(c: Config, s: State, events: seq<Event>, i: nat, j: nat)
    requires NoRestart(events) && i < j < |events|
    requires Settles(c, events[i].outside, OutcomeAt(c, s, events, i))
    requires LocalDay(events[i].outside.now) == LocalDay(events[j].outside.now)
    ensures OutcomeAt(c, s, events, j) == Skipped
  {
    hide LocalDay, MinuteOfDay, Blocks, Run;
    OutcomeOfPrefix(c, s, events, j, i);
    SettledDatesAreRemembered(c, s, events[..j], i);
  }

  /** One process tries at most one send per local date, even when sending or recording fails. */
  lemma OneAttemptPerDate(c: Config, s: State, events: seq<Event>, i: nat, j: nat)
    requires NoRestart(events) && i < j < |events|
    requires Tried(OutcomeAt(c, s, events, i)) && Tried(OutcomeAt(c, s, events, j))
    ensures LocalDay(events[i].outside.now) != LocalDay(events[j].outside.now)
  {
    hide LocalDay, MinuteOfDay, Blocks, Run;
    if LocalDay(events[i].outside.now) == LocalDay(events[j].outside.now) {
      DatesAreSettledOnce(c, s, events, i, j);
    }
  }

  /** The clock never runs backwards over the checks of the run, restarts included. */
  ghost predicate ClockAdvances(events: seq<Event>) {
    forall i, j :: 0 <= i < j < |events| && events[i].Check? && events[j].Check? ==>
      events[i].outside.now <= events[j].outside.now
  }

  lemma LaterDay(a: int, b: int)
    requires a <= b
    ensures LocalDay(a) <= LocalDay(b)
  {
    var d, e := LocalDay(a), LocalDay(b);
    assert a + OFFSET >= d * DAY && b + OFFSET < (e + 1) * DAY;
  }

  /** After a recorded delivery the stored row is that one or a later one. */
  lemma {:induction false} DeliveriesAreKept(c: Config, s: State, events: seq<Event>, i: nat)
    requires ClockAdvances(events) && i < |events| && OutcomeAt(c, s, events, i) == Sent
    ensures var stored := Run(c, s, events).stored;
            && stored.Some? && stored.value.at >= events[i].outside.now
                 && stored.value.date == LocalDay(stored.value.at)
            && exists j :: i <= j < |events| && events[j].Check? && events[j].outside.now == stored.value.at
    decreases |events|
  {
    hide LocalDay, MinuteOfDay;
    var front, last := events[..|events| - 1], events[|events| - 1];
    var stored := Run(c, s, events).stored;
    if i < |front| {
      assert front[..i] == events[..i];
      DeliveriesAreKept(c, s, front, i);
      if stored == Run(c, s, front).stored {
        var j :| i <= j < |front| && front[j].Check? && front[j].outside.now == stored.value.at;
        assert events[j] == front[j];
      } else {
        assert events[|front|].outside.now == stored.value.at;
      }
    } else {
      assert events[i].outside.now == stored.value.at;
    }
  }

  /** Across restarts: after a recorded delivery every later try is on a later local date and a cooldown apart. */
  lemma RecordedDeliveriesAreSpaced(c: Config, s: State, events: seq<Event>, i: nat, j: nat)
    requires ValidConfig(c) && ClockAdvances(events) && i < j < |events|
    requires OutcomeAt(c, s, events, i) == Sent && Tried(OutcomeAt(c, s, events, j))
    ensures LocalDay(events[i].outside.now) < LocalDay(events[j].outside.now)
    ensures events[i].outside.now + c.cooldown <= events[j].outside.now
  {
    hide LocalDay, MinuteOfDay, Run;
    var prefix := events[..j];
    assert prefix[..i] == events[..i] && prefix[i] == events[i];
    assert ClockAdvances(prefix);
    DeliveriesAreKept(c, s, prefix, i);
    var stored := Run(c, s, prefix).stored.value;
    assert !Blocks(c, Some(stored), events[j].outside.now);
    LaterDay(events[i].outside.now, stored.at);
    LaterDay(stored.at, events[j].outside.now);
  }

  // ----- a second try on one date -----

  /** No delivery is recorded by the events from i up to j. */
  ghost predicate NoneSent(c: Config, s: State, events: seq<Event>, i: nat, j: nat)
    requires j <= |events|
  {
    forall k :: i <= k < j ==> OutcomeAt(c, s, events, k) != Sent
  }

  /** Every check before j that settled the date is followed by the end of its process before j. */
  ghost predicate Forgotten(c: Config, s: State, events: seq<Event>, j: nat, day: int)
    requires j <= |events|
  {
    forall k: nat :: k < j && SettlesDate(c, s, events, k, day) ==> exists m :: k < m < j && events[m].Restart?
  }

  lemma {:induction false} UnsentKeepsStored(c: Config, s: State, events: seq<Event>, i: nat, j: nat)
    requires i <= j <= |events| && NoneSent(c, s, events, i, j)
    ensures Run(c, s, events[..j]).stored == Run(c, s, events[..i]).stored
    decreases j
  {
    hide LocalDay, MinuteOfDay, Blocks, Readable, Recordable;
    if i < j {
      UnsentKeepsStored(c, s, events, i, j - 1);
      assert events[..j][..j - 1] == events[..j - 1];
      assert OutcomeAt(c, s, events, j - 1) != Sent;
    }
  }

  lemma RememberedUnlessForgotten(c: Config, s: State, events: seq<Event>, j: nat, day: int)
    requires s.attempted == {} && j <= |events|
    ensures day in Run(c, s, events[..j]).attempted <==> !Forgotten(c, s, events, j, day)
  {
    hide Run, OutcomeAt, Settles, LocalDay;
    var p := events[..j];
    DatesAreRememberedExactlyWhen(c, s, p, day);
    forall k: nat | k < j
      ensures Standing(c, s, p, k, day) <==>
              SettlesDate(c, s, events, k, day) && !exists m :: k < m < j && events[m].Restart?
    {
      OutcomeOfPrefix(c, s, events, j, k);
      if SettlesDate(c, s, events, k, day) && NoRestart(p[k..]) {
        forall m | k < m < j
          ensures events[m].Check?
        {
          assert p[k..][m - k] == events[m];
        }
      }
      assert forall m :: k < m < j ==> events[m] == p[k..][m - k];
    }
  }

  /** A date whose delivery was recorded by one of the events from i to j is blocked at j. */
  lemma SentBlocks(c: Config, s: State, events: seq<Event>, i: nat, k: nat, j: nat)
    requires ClockAdvances(events) && i <= k < j < |events|
    requires events[i].Check? && events[j].Check? && OutcomeAt(c, s, events, k) == Sent
    requires LocalDay(events[i].outside.now) == LocalDay(events[j].outside.now)
    ensures Blocks(c, Run(c, s, events[..j]).stored, events[j].outside.now)
  {
    hide LocalDay, MinuteOfDay, Run, Readable, Recordable;
    var p := events[..j];
    OutcomeOfPrefix(c, s, events, j, k);
    assert ClockAdvances(p);
    DeliveriesAreKept(c, s, p, k);
    var stored := Run(c, s, p).stored.value;
    LaterDay(events[i].outside.now, events[k].outside.now);
    LaterDay(events[k].outside.now, stored.at);
    LaterDay(stored.at, events[j].outside.now);
  }

  /**
   After a try, a check of the same date that can read and finds no transactions tries again if and only if
   no delivery was recorded in between and the process that settled the date has ended: so a date gets a second
   try exactly across a restart that follows a send or a record that failed.
   */
  lemma SecondTryExactlyWhen(c: Config, s: State, events: seq<Event>, i: nat, j: nat)
    requires ClockAdvances(events) && s.attempted == {} && i < j < |events| && Tried(OutcomeAt(c, s, events, i))
    requires events[j].Check? && LocalDay(events[i].outside.now) == LocalDay(events[j].outside.now)
    requires MinuteOfDay(events[j].outside.now) == c.minute
    requires events[j].outside.readWorks && events[j].outside.activity == Some(0)
    ensures Tried(OutcomeAt(c, s, events, j)) <==>
            NoneSent(c, s, events, i, j) && Forgotten(c, s, events, j, LocalDay(events[j].outside.now))
  {
    hide LocalDay, MinuteOfDay, Run, Recordable, Forgotten;
    var now := events[j].outside.now;
    RememberedUnlessForgotten(c, s, events, j, LocalDay(now));
    if NoneSent(c, s, events, i, j) {
      UnsentKeepsStored(c, s, events, i, j);
      assert events[i].outside.now <= now;
    } else {
      var k :| i <= k < j && OutcomeAt(c, s, events, k) == Sent;
      SentBlocks(c, s, events, i, k, j);
    }
  }

  // ----- when a send is tried -----

  /** The k-th event is the last of the first j that recorded a delivery. */
  ghost predicate LastSent(c: Config, s: State, events: seq<Event>, j: nat, k: nat)
    requires j <= |events|
  {
    k < j && OutcomeAt(c, s, events, k) == Sent && NoneSent(c, s, events, k + 1, j)
  }

  lemma {:induction false} StoredIsLastSent(c: Config, s: State, events: seq<Event>, j: nat)
    requires j <= |events|
    ensures forall k: nat :: LastSent(c, s, events, j, k) ==>
              var now := events[k].outside.now; Run(c, s, events[..j]).stored == Some(Delivery(LocalDay(now), now))
    decreases j
  {
    hide LocalDay, MinuteOfDay, Blocks, Readable, Recordable;
    if j > 0 {
      StoredIsLastSent(c, s, events, j - 1);
      assert events[..j][..j - 1] == events[..j - 1];
      forall k: nat | LastSent(c, s, events, j, k) && k < j - 1
        ensures LastSent(c, s, events, j - 1, k) && OutcomeAt(c, s, events, j - 1) != Sent
      {
      }
    }
  }

  lemma {:induction false} SomeLastSent(c: Config, s: State, events: seq<Event>, j: nat) returns (k: nat)
    requires j <= |events| && !NoneSent(c, s, events, 0, j)
    ensures LastSent(c, s, events, j, k)
    decreases j
  {
    hide OutcomeAt;
    if OutcomeAt(c, s, events, j - 1) == Sent {
      k := j - 1;
    } else {
      k := SomeLastSent(c, s, events, j - 1);
    }
  }

  /**
   From a first start on, a check tries to send if and only if it comes at the reminder's minute, its two reads
   succeed and find no transactions, no process that still runs has settled the date, and the last delivery that
   was recorded was on another local date and a cooldown ago, at a time that can be read back.
   */
  lemma TriedExactlyWhen(c: Config, events: seq<Event>, j: nat)
    requires j < |events| && events[j].Check?
    ensures var s, o := State({}, None), events[j].outside;
            Tried(OutcomeAt(c, s, events, j)) <==>
            && (o.now + 25_200_000_000_000) % 86_400_000_000_000 / 60_000_000_000 == c.minute
            && o.readWorks && o.activity == Some(0) && Forgotten(c, s, events, j, LocalDay(o.now))
            && forall k: nat :: LastSent(c, s, events, j, k) ==>
                 var at := events[k].outside.now;
                 Writable(at) && LocalDay(at) != LocalDay(o.now) && at + c.cooldown <= o.now
    ensures var o := events[j].outside;
            Tried(OutcomeAt(c, State({}, None), events, j)) ==>
            OutcomeAt(c, State({}, None), events, j) ==
            if !o.sendWorks then SendFailed
            else if o.recordWorks && c.user != "" && o.now != ZERO_NANOS then Sent else RecordFailed
  {
    hide LocalDay, MinuteOfDay, Run, Forgotten, LastSent, NoneSent;
    var s, o := State({}, None), events[j].outside;
    RememberedUnlessForgotten(c, s, events, j, LocalDay(o.now));
    StoredIsLastSent(c, s, events, j);
    MinuteIs(o.now);
    if !NoneSent(c, s, events, 0, j) {
      var k := SomeLastSent(c, s, events, j);
    } else {
      NoLastSent(c, s, events, j);
      UnsentKeepsStored(c, s, events, 0, j);
      assert Run(c, s, events[..0]) == s by {
        assert events[..0] == [];
        EmptyRun(c, s);
      }
    }
  }

  lemma NoLastSent(c: Config, s: State, events: seq<Event>, j: nat)
    requires j <= |events| && NoneSent(c, s, events, 0, j)
    ensures forall k: nat :: !LastSent(c, s, events, j, k)
  {
    hide OutcomeAt;
  }

  lemma EmptyRun(c: Config, s: State)
    ensures Run(c, s, []) == s
  {
  }

  lemma MinuteIs(now: int)
    ensures MinuteOfDay(now) == (now + OFFSET) % DAY / MINUTE
  {
    assert now + OFFSET == LocalDay(now) * DAY + (now + OFFSET) % DAY;
  }

  /** Such a run for every instant of the reminder's minute: sent but not recorded, restarted, and sent again. */
  lemma UnrecordedSendRepeatsAfterRestart(c: Config, now: int)
    requires MinuteOfDay(now) == c.minute
    ensures var o := Outside(now, true, Some(0), true, false);
            var events := [Check(o), Restart, Check(o)]; var s := State({}, None);
            OutcomeAt(c, s, events, 0) == RecordFailed && OutcomeAt(c, s, events, 2) == RecordFailed
  {
    hide LocalDay, MinuteOfDay, Recordable;
    var o := Outside(now, true, Some(0), true, false);
    var events, s := [Check(o), Restart, Check(o)], State({}, None);
    assert events[..0] == [] && events[..1] == [Check(o)] && events[..2] == [Check(o), Restart];
    assert events[..2][..1] == events[..1] && events[..1][..0] == [];
    assert s.attempted + {LocalDay(now)} == {LocalDay(now)};
    assert Checked(c, s, o) == (s.(attempted := {LocalDay(now)}), RecordFailed);
    assert Run(c, s, events[..1]) == s.(attempted := {LocalDay(now)});
    assert Run(c, s, events[..2]) == s;
  }

  // ----- the timer -----

  /** The next local time of day after now. */
  function NextWake(c: Config, now: int): int {
    var today := DayStart(now) + c.minute * MINUTE;
    if today > now then today else today + DAY
  }

  lemma ExactMinute(day: int, minute: int, late: int)
    requires 0 <= minute < 24 * 60 && 0 <= late < MINUTE
    ensures var t := day * DAY - OFFSET + minute * MINUTE + late; LocalDay(t) == day && MinuteOfDay(t) == minute
  {
    var t := day * DAY - OFFSET + minute * MINUTE + late;
    assert 0 <= minute * MINUTE + late < DAY;
    assert t + OFFSET == day * DAY + (minute * MINUTE + late);
    DivisionIs(t + OFFSET, DAY, day, minute * MINUTE + late);
    DivisionIs(minute * MINUTE + late, MINUTE, minute, late);
  }

  lemma DivisionIs(x: int, d: int, q: int, r: int)
    requires d > 0 && x == q * d + r && 0 <= r < d
    ensures x / d == q
  {
    var p := x / d - q;
    assert p * d == r - x % d;
    assert p >= 1 ==> p * d >= d;
    assert p <= -1 ==> p * d <= -d;
  }

  lemma DayStartBounds(now: int)
    ensures DayStart(now) <= now < DayStart(now) + DAY
  {
    assert now + OFFSET == LocalDay(now) * DAY + (now + OFFSET) % DAY;
  }

  /**
   Each wake lies in (now, now + 24h], at the reminder's minute; a timer that fires less than a minute late
   still finds the minute, and the wake computed after it is a whole number of days later.
   */
  lemma WakesAreDaily(c: Config, now: int, late: int)
    requires ValidConfig(c) && 0 <= late < MINUTE
    ensures var wake := NextWake(c, now);
            && now < wake <= now + DAY
            && MinuteOfDay(wake + late) == c.minute && LocalDay(wake + late) == LocalDay(wake)
            && NextWake(c, wake + late) == wake + DAY
  {
    hide LocalDay, MinuteOfDay;
    DayStartBounds(now);
    assert 0 <= c.minute * MINUTE < DAY;
    var wake := NextWake(c, now);
    var day := if DayStart(now) + c.minute * MINUTE > now then LocalDay(now) else LocalDay(now) + 1;
    assert wake == day * DAY - OFFSET + c.minute * MINUTE + 0;
    ExactMinute(day, c.minute, 0);
    ExactMinute(day, c.minute, late);
  }

  /** No reminder instant lies strictly between now and the wake. */
  lemma NoWakeIsMissed(c: Config, now: int, day: int)
    requires ValidConfig(c)
    ensures var instant := day * DAY - OFFSET + c.minute * MINUTE; instant > now ==> instant >= NextWake(c, now)
  {
    hide LocalDay, MinuteOfDay;
    DayStartBounds(now);
    assert 0 <= c.minute * MINUTE < DAY;
    var instant := day * DAY - OFFSET + c.minute * MINUTE;
    if instant > now {
      DayOrder(day, LocalDay(now));
    }
  }

  lemma DayOrder(a: int, b: int)
    ensures a < b ==> a * DAY + DAY <= b * DAY
    ensures a > b ==> a * DAY >= b * DAY + DAY
  {
  }
}
