/**
 The password limiter (discord-webhook/server.go): failure windows per address,
 and requests interleaved at the lock sections of allow, record and clear.
 */
module Limiter {

  const MAX_FAILS := 5
  /** One minute, in nanoseconds. */
  const PASSWORD_WINDOW := 60_000_000_000
  const CAPACITY := 1024

  datatype Window = Window(count: nat, until: int)

  type Failures = map<string, Window>

  function Purged(f: Failures, now: int): Failures {
    map a | a in f && now < f[a].until :: f[a]
  }

  /** The failures counted against an address; 0 when it has no window. */
  function CountOf(f: Failures, ip: string): nat {
    if ip in f then f[ip].count else 0
  }

  predicate Admits(f: Failures, ip: string, now: int) {
    CountOf(f, ip) < MAX_FAILS || now >= f[ip].until
  }

  /** One more failure: a running window counts on, otherwise a new one starts. */
  function Counted(f: Failures, ip: string, now: int): Window {
    if ip in f && now < f[ip].until then f[ip].(count := f[ip].count + 1)
    else Window(1, now + PASSWORD_WINDOW)
  }

  /** A full table gives up one entry, whichever the map iteration yields first. */
  function Recorded(f: Failures, ip: string, now: int, victim: string): Failures {
    (if |f| >= CAPACITY then f - {victim} else f)[ip := Counted(f, ip, now)]
  }

  class PasswordLimiter {
    var failures: Failures

    constructor ()
      ensures failures == map[]
    {
      failures := map[];
    }

    method AllowPasswordAttempt(ip: string, now: int) returns (ok: bool)
      modifies this
      ensures failures == Purged(old(failures), now)
      ensures ok == Admits(failures, ip, now)
    {
      var todo := failures.Keys;
      while todo != {}
        invariant todo <= failures.Keys <= old(failures).Keys
        invariant forall a :: a in old(failures) ==> (a in failures <==> a in todo || now < old(failures)[a].until)
        invariant forall a :: a in failures ==> failures[a] == old(failures)[a]
      {
        var address :| address in todo;
        todo := todo - {address};
        if now >= failures[address].until {
          failures := failures - {address};
        }
      }
      ok := CountOf(failures, ip) < MAX_FAILS || now >= failures[ip].until;
    }

    method ClearPasswordFailures(ip: string)
      modifies this
      ensures failures == old(failures) - {ip}
    {
      failures := failures - {ip};
    }

    method RecordPasswordFailure(ip: string, now: int)
      modifies this
      ensures exists victim ::
                && (|old(failures)| >= 1024 ==> victim in old(failures))
                && failures == Recorded(old(failures), ip, now, victim)
      ensures |old(failures)| < 1024 ==> failures - {ip} == old(failures) - {ip}
    {
      var window := Counted(failures, ip, now);
      ghost var victim := ip;
      if |failures| >= CAPACITY {
        var address :| address in failures;
        victim := address;
        failures := failures - {address};
      }
      failures := failures[ip := window];
      assert failures == Recorded(old(failures), ip, now, victim);
    }
  }

  // ----- interleaved requests -----

  /** The table, and the addresses of the admitted requests whose password is still being compared. */
  datatype State = State(failures: Failures, inFlight: multiset<string>)

  const START := State(map[], multiset{})

  datatype Step =
    | Attempt(ip: string, now: int)
    | Fail(ip: string, now: int, victim: string)
    | Succeed(ip: string)

  predicate Possible(s: State, step: Step) {
    match step
    case Attempt(_, _) => true
    case Fail(ip, _, victim) => ip in s.inFlight && (|s.failures| >= CAPACITY ==> victim in s.failures)
    case Succeed(ip) => ip in s.inFlight
  }

  predicate Admitted(s: State, step: Step) {
    step.Attempt? && Admits(Purged(s.failures, step.now), step.ip, step.now)
  }

  function Next(s: State, step: Step): State {
    if !Possible(s, step) then s else
      match step
      case Attempt(ip, now) =>
        State(Purged(s.failures, now), if Admitted(s, step) then s.inFlight + multiset{ip} else s.inFlight)
      case Fail(ip, now, victim) => State(Recorded(s.failures, ip, now, victim), s.inFlight - multiset{ip})
      case Succeed(ip) => State(s.failures - {ip}, s.inFlight - multiset{ip})
  }

  function Run(s: State, steps: seq<Step>): State {
    if steps == [] then s else Next(Run(s, steps[..|steps| - 1]), steps[|steps| - 1])
  }

  /** No moment of the run has more than k requests in flight. */
  ghost predicate AtMost(k: nat, s: State, steps: seq<Step>) {
    forall n :: 0 <= n <= |steps| ==> |Run(s, steps[..n]).inFlight| <= k
  }

  /** What keeps an address's count at k + 4: its failures still to come are counted in. */
  ghost predicate Bounded(k: nat, s: State) {
    |s.failures| <= CAPACITY && forall ip :: CountOf(s.failures, ip) + s.inFlight[ip] <= k + 4
  }

  lemma MultiplicityAtMostSize(m: multiset<string>, x: string)
    ensures m[x] <= |m|
  {
    var only := multiset{}[x := m[x]];
    assert m == (m - only) + only;
  }

  lemma PurgeShrinks(f: Failures, now: int)
    ensures |Purged(f, now)| <= |f|
  {
    SubsetSize(Purged(f, now).Keys, f.Keys);
    assert |Purged(f, now)| == |Purged(f, now).Keys| && |f| == |f.Keys|;
  }

  lemma {:induction false} SubsetSize(a: set<string>, b: set<string>)
    requires a <= b
    ensures |a| <= |b|
    decreases |a|
  {
    if a != {} {
      var x :| x in a;
      SubsetSize(a - {x}, b - {x});
    }
  }

  lemma RecordKeepsSize(f: Failures, ip: string, now: int, victim: string)
    requires |f| <= CAPACITY && (|f| >= CAPACITY ==> victim in f)
    ensures |Recorded(f, ip, now, victim)| <= CAPACITY
  {
    hide Counted;
    var g := if |f| >= CAPACITY then f - {victim} else f;
    assert g.Keys == if |f| >= CAPACITY then f.Keys - {victim} else f.Keys;
    assert |g| == |g.Keys| && |f| == |f.Keys|;
    var h := Recorded(f, ip, now, victim);
    assert h.Keys == g.Keys + {ip} && |h| == |h.Keys|;
  }

  lemma StepKeepsBound(k: nat, s: State, step: Step)
    requires Bounded(k, s) && |s.inFlight| <= k && |Next(s, step).inFlight| <= k
    ensures Bounded(k, Next(s, step))
  {
    if Possible(s, step) {
      var s' := Next(s, step);
      MultiplicityAtMostSize(s'.inFlight, step.ip);
      match step
      case Attempt(ip, now) => PurgeShrinks(s.failures, now);
      case Fail(ip, now, victim) => RecordKeepsSize(s.failures, ip, now, victim);
      case Succeed(ip) => SubsetSize(s'.failures.Keys, s.failures.Keys);
        assert |s'.failures| == |s'.failures.Keys| && |s.failures| == |s.failures.Keys|;
    }
  }

  /**
   With at most k requests in flight no address ever counts more than k + 4 failures, and the table stays within
   1024.
   */
  lemma {:induction false} FailuresAreBounded(k: nat, steps: seq<Step>)
    requires AtMost(k, START, steps)
    ensures Bounded(k, Run(START, steps))
    ensures |Run(START, steps).failures| <= 1024 && forall ip :: CountOf(Run(START, steps).failures, ip) <= k + 4
    decreases |steps|
  {
    if steps != [] {
      hide Next, Bounded;
      var front := steps[..|steps| - 1];
      assert forall n :: 0 <= n <= |front| ==> front[..n] == steps[..n];
      FailuresAreBounded(k, front);
      assert steps[..|steps|] == steps && steps[..|front|] == front;
      StepKeepsBound(k, Run(START, front), steps[|front|]);
      BoundedMeans(k, Run(START, steps));
    }
  }

  lemma BoundedMeans(k: nat, s: State)
    requires Bounded(k, s)
    ensures |s.failures| <= CAPACITY && forall ip :: CountOf(s.failures, ip) <= k + 4
  {
    forall ip
      ensures CountOf(s.failures, ip) <= k + 4
    {
      assert CountOf(s.failures, ip) + s.inFlight[ip] <= k + 4;
    }
  }

  // ----- a full window -----

  ghost predicate Full(s: State, ip: string, until: int) {
    ip in s.failures && s.failures[ip].count >= MAX_FAILS && s.failures[ip].until == until
  }

  /** The step neither clears the address nor evicts it, and no attempt and no failure of its own comes after until. */
  ghost predicate Harmless(s: State, step: Step, ip: string, until: int) {
    match step
    case Attempt(_, now) => now < until
    case Fail(other, now, victim) => if other == ip then now < until else |s.failures| >= CAPACITY ==> victim != ip
    case Succeed(other) => other != ip
  }

  lemma FullStays(s: State, step: Step, ip: string, until: int)
    requires Full(s, ip, until) && Harmless(s, step, ip, until)
    ensures Full(Next(s, step), ip, until)
    ensures Admitted(s, step) ==> step.ip != ip
  {
  }

  ghost predicate AllHarmless(s: State, steps: seq<Step>, ip: string, until: int) {
    forall n :: 0 <= n < |steps| ==> Harmless(Run(s, steps[..n]), steps[n], ip, until)
  }

  /** A full window admits nobody until it ends, however requests interleave, unless it is cleared or evicted. */
  lemma {:induction false} FullWindowAdmitsNobody(s: State, steps: seq<Step>, ip: string, until: int)
    requires Full(s, ip, until) && AllHarmless(s, steps, ip, until)
    ensures Full(Run(s, steps), ip, until)
    ensures forall n :: 0 <= n < |steps| && Admitted(Run(s, steps[..n]), steps[n]) ==> steps[n].ip != ip
    decreases |steps|
  {
    hide Next, Full, Harmless, Admitted;
    if steps != [] {
      var front := steps[..|steps| - 1];
      assert forall n :: 0 <= n <= |front| ==> front[..n] == steps[..n];
      FullWindowAdmitsNobody(s, front, ip, until);
      FullStays(Run(s, front), steps[|front|], ip, until);
      forall n | 0 <= n < |steps| && Admitted(Run(s, steps[..n]), steps[n])
        ensures steps[n].ip != ip
      {
        if n < |front| {
          assert front[..n] == steps[..n] && front[n] == steps[n];
        } else {
          assert steps[..n] == front;
        }
      }
    }
  }

  // ----- what a window is -----

  /** The n-th step counts a failure of the address. */
  ghost predicate CountsFor(steps: seq<Step>, n: nat, ip: string)
    requires n < |steps|
  {
    steps[n].Fail? && steps[n].ip == ip && Possible(Run(START, steps[..n]), steps[n])
  }

  /** The failures of the address from step k on. */
  ghost function FailuresSince(steps: seq<Step>, k: nat, ip: string): nat {
    if |steps| <= k then 0 else
      var n := |steps| - 1; FailuresSince(steps[..n], k, ip) + if CountsFor(steps, n, ip) then 1 else 0
  }

  /** The window began with the failure at step k, a minute long, and counts that failure and all later ones. */
  ghost predicate BeganAt(steps: seq<Step>, k: nat, ip: string, w: Window) {
    && k < |steps| && CountsFor(steps, k, ip)
    && w.until == steps[k].now + 60_000_000_000 && w.count == FailuresSince(steps, k, ip)
    && forall j :: k < j < |steps| && CountsFor(steps, j, ip) ==> steps[j].now < w.until
  }

  lemma CountsForPrefix(steps: seq<Step>, m: nat, n: nat, ip: string)
    requires n < m <= |steps|
    ensures CountsFor(steps[..m], n, ip) <==> CountsFor(steps, n, ip)
  {
    assert steps[..m][..n] == steps[..n];
  }

  lemma WindowGoesOn(steps: seq<Step>, k: nat, ip: string, w: Window)
    requires steps != [] && BeganAt(steps[..|steps| - 1], k, ip, w)
    requires CountsFor(steps, |steps| - 1, ip) ==> steps[|steps| - 1].now < w.until
    ensures BeganAt(steps, k, ip, w.(count := w.count + if CountsFor(steps, |steps| - 1, ip) then 1 else 0))
  {
    hide Possible, Run;
    var n := |steps| - 1;
    forall j | 0 <= j < n
      ensures CountsFor(steps[..n], j, ip) <==> CountsFor(steps, j, ip)
    {
      CountsForPrefix(steps, n, j, ip);
    }
  }

  lemma WindowBegins(steps: seq<Step>, ip: string)
    requires steps != [] && CountsFor(steps, |steps| - 1, ip)
    ensures BeganAt(steps, |steps| - 1, ip, Window(1, steps[|steps| - 1].now + 60_000_000_000))
  {
    hide Possible, Run;
    var n := |steps| - 1;
    assert FailuresSince(steps[..n], n, ip) == 0;
  }

  lemma WindowAfter(s: State, step: Step, ip: string)
    requires ip in Next(s, step).failures
    ensures var w := Next(s, step).failures[ip];
            if step.Fail? && step.ip == ip && Possible(s, step) then
              if ip in s.failures && step.now < s.failures[ip].until
              then w == s.failures[ip].(count := s.failures[ip].count + 1)
              else w == Window(1, step.now + 60_000_000_000)
            else ip in s.failures && w == s.failures[ip]
  {
  }

  /**
   In every run each window began with one failure of its address and lasts a minute from it, however often the
   address fails meanwhile; its count is the number of failures since.
   */
  lemma {:induction false} WindowsAreMinutes(steps: seq<Step>, ip: string) returns (k: nat)
    requires ip in Run(START, steps).failures
    ensures BeganAt(steps, k, ip, Run(START, steps).failures[ip])
    decreases |steps|
  {
    hide Next, Possible, BeganAt, FailuresSince;
    var n := |steps| - 1;
    var front, step := steps[..n], steps[n];
    var s := Run(START, front);
    WindowAfter(s, step, ip);
    if CountsFor(steps, n, ip) && !(ip in s.failures && step.now < s.failures[ip].until) {
      WindowBegins(steps, ip);
      k := n;
    } else {
      k := WindowsAreMinutes(front, ip);
      WindowGoesOn(steps, k, ip, s.failures[ip]);
    }
  }

  /** An attempt is refused exactly while a window of the address runs that counts five failures or more. */
  lemma AttemptsAreRefusedExactlyWhen(steps: seq<Step>, ip: string, now: int)
    ensures var f := Run(START, steps).failures;
            !Admitted(Run(START, steps), Attempt(ip, now)) <==>
            && ip in f && now < f[ip].until && f[ip].count >= 5 && exists k: nat :: BeganAt(steps, k, ip, f[ip])
  {
    hide Run, BeganAt;
    if ip in Run(START, steps).failures {
      var k := WindowsAreMinutes(steps, ip);
    }
  }

  // ----- the bound is reached -----

  function Repeat(step: Step, n: nat): (r: seq<Step>)
    ensures |r| == n && forall i :: 0 <= i < n ==> r[i] == step
  {
    seq(n, _ => step)
  }

  lemma {:induction false} RunConcat(s: State, a: seq<Step>, b: seq<Step>)
    ensures Run(s, a + b) == Run(Run(s, a), b)
    decreases |b|
  {
    if b == [] {
      assert a + b == a;
    } else {
      assert (a + b)[..|a + b| - 1] == a + b[..|b| - 1];
      RunConcat(s, a, b[..|b| - 1]);
    }
  }

  /** Four failures counted, j requests of the address in flight, i of them turned into failures. */
  function Loaded(ip: string, count: nat, inFlight: nat): State {
    State(map[ip := Window(count, PASSWORD_WINDOW)], multiset{}[ip := inFlight])
  }

  lemma RunRepeat(s: State, step: Step, n: nat)
    ensures Run(s, Repeat(step, n + 1)) == Next(Run(s, Repeat(step, n)), step)
  {
    hide Next;
    assert Repeat(step, n + 1)[..n] == Repeat(step, n);
  }

  lemma LoadStep(ip: string, j: nat)
    ensures Next(Loaded(ip, 4, j), Attempt(ip, 0)) == Loaded(ip, 4, j + 1)
  {
    assert Purged(Loaded(ip, 4, j).failures, 0) == Loaded(ip, 4, j).failures;
    assert multiset{}[ip := j] + multiset{ip} == multiset{}[ip := j + 1];
  }

  lemma FailStep(ip: string, count: nat, j: nat)
    requires j > 0
    ensures Next(Loaded(ip, count, j), Fail(ip, 0, ip)) == Loaded(ip, count + 1, j - 1)
  {
    var s := Loaded(ip, count, j);
    assert s.inFlight[ip] == j && |s.failures| == 1;
    assert s.inFlight - multiset{ip} == multiset{}[ip := j - 1];
    assert Recorded(s.failures, ip, 0, ip) == Loaded(ip, count + 1, j - 1).failures;
  }

  lemma {:induction false} LoadRun(ip: string, j: nat)
    ensures Run(Loaded(ip, 4, 0), Repeat(Attempt(ip, 0), j)) == Loaded(ip, 4, j)
    decreases j
  {
    hide Next, Loaded;
    if j > 0 {
      LoadRun(ip, j - 1);
      RunRepeat(Loaded(ip, 4, 0), Attempt(ip, 0), j - 1);
      LoadStep(ip, j - 1);
    }
  }

  lemma {:induction false} FailRun(ip: string, j: nat, i: nat)
    requires i <= j
    ensures Run(Loaded(ip, 4, j), Repeat(Fail(ip, 0, ip), i)) == Loaded(ip, 4 + i, j - i)
    decreases i
  {
    hide Next, Loaded;
    if i > 0 {
      FailRun(ip, j, i - 1);
      RunRepeat(Loaded(ip, 4, j), Fail(ip, 0, ip), i - 1);
      FailStep(ip, 4 + i - 1, j - i + 1);
    }
  }

  lemma AtMostConcat(k: nat, s: State, a: seq<Step>, b: seq<Step>)
    requires AtMost(k, s, a) && AtMost(k, Run(s, a), b)
    ensures AtMost(k, s, a + b)
  {
    hide Next;
    forall n | 0 <= n <= |a + b|
      ensures |Run(s, (a + b)[..n]).inFlight| <= k
    {
      if n <= |a| {
        assert (a + b)[..n] == a[..n];
      } else {
        assert (a + b)[..n] == a + b[..n - |a|];
        RunConcat(s, a, b[..n - |a|]);
      }
    }
  }

  lemma LoadedSize(ip: string, count: nat, n: nat)
    ensures |Loaded(ip, count, n).inFlight| == n
  {
    assert multiset{}[ip := n] - multiset{}[ip := n] == multiset{};
  }

  lemma LoadAndFailStayWithin(ip: string, k: nat)
    ensures AtMost(k, Loaded(ip, 4, 0), Repeat(Attempt(ip, 0), k))
    ensures AtMost(k, Loaded(ip, 4, k), Repeat(Fail(ip, 0, ip), k))
  {
    forall n | 0 <= n <= k
      ensures |Run(Loaded(ip, 4, 0), Repeat(Attempt(ip, 0), k)[..n]).inFlight| <= k
      ensures |Run(Loaded(ip, 4, k), Repeat(Fail(ip, 0, ip), k)[..n]).inFlight| <= k
    {
      assert Repeat(Attempt(ip, 0), k)[..n] == Repeat(Attempt(ip, 0), n);
      assert Repeat(Fail(ip, 0, ip), k)[..n] == Repeat(Fail(ip, 0, ip), n);
      LoadRun(ip, n);
      FailRun(ip, k, n);
      LoadedSize(ip, 4, n);
      LoadedSize(ip, 4 + n, k - n);
    }
  }

  lemma FourFailures(ip: string) returns (steps: seq<Step>)
    ensures Run(START, steps) == Loaded(ip, 4, 0) && AtMost(1, START, steps)
  {
    var once := [Attempt(ip, 0), Fail(ip, 0, ip)];
    OneFailure(ip, START, 0);
    OneFailure(ip, Loaded(ip, 1, 0), 1);
    OneFailure(ip, Loaded(ip, 2, 0), 2);
    OneFailure(ip, Loaded(ip, 3, 0), 3);
    hide Run, Next, AtMost;
    RunConcat(START, once, once);
    RunConcat(START, once + once, once);
    RunConcat(START, once + once + once, once);
    AtMostConcat(1, START, once, once);
    AtMostConcat(1, START, once + once, once);
    AtMostConcat(1, START, once + once + once, once);
    steps := once + once + once + once;
  }

  lemma TwoSteps(s: State, x: Step, y: Step)
    ensures Run(s, [x, y]) == Next(Next(s, x), y)
    ensures |s.inFlight| <= 1 && |Next(s, x).inFlight| <= 1 && |Next(Next(s, x), y).inFlight| <= 1 ==>
            AtMost(1, s, [x, y])
  {
    hide Next;
    var steps := [x, y];
    assert steps[..0] == [] && steps[..1] == [x] && steps[..2] == steps && [x][..0] == [];
    assert Run(s, [x]) == Next(Run(s, []), x);
  }

  lemma OneFailure(ip: string, s: State, c: nat)
    requires c < 4 && (if c == 0 then s == START else s == Loaded(ip, c, 0))
    ensures Run(s, [Attempt(ip, 0), Fail(ip, 0, ip)]) == Loaded(ip, c + 1, 0)
    ensures AtMost(1, s, [Attempt(ip, 0), Fail(ip, 0, ip)])
  {
    hide Run, AtMost;
    TwoSteps(s, Attempt(ip, 0), Fail(ip, 0, ip));
    assert Purged(s.failures, 0) == s.failures;
    assert s.inFlight == multiset{};
    var mid := Next(s, Attempt(ip, 0));
    assert mid == State(s.failures, multiset{ip});
    assert |mid.failures| <= 1;
    assert multiset{ip} - multiset{ip} == multiset{}[ip := 0];
    assert Recorded(mid.failures, ip, 0, ip) == map[ip := Window(c + 1, PASSWORD_WINDOW)];
    LoadedSize(ip, c + 1, 0);
  }

  /** k + 4 cannot be improved: with k requests in flight at most, an address can count k + 4 failures. */
  lemma BoundIsReached(k: nat, ip: string) returns (steps: seq<Step>)
    requires k >= 1
    ensures AtMost(k, START, steps) && CountOf(Run(START, steps).failures, ip) == k + 4
  {
    var a := FourFailures(ip);
    var b, c := Repeat(Attempt(ip, 0), k), Repeat(Fail(ip, 0, ip), k);
    AtMostRaise(k, START, a);
    LoadRun(ip, k);
    FailRun(ip, k, k);
    LoadAndFailStayWithin(ip, k);
    hide Run, Next, AtMost;
    RunConcat(START, a, b);
    RunConcat(START, a + b, c);
    AtMostConcat(k, START, a, b);
    AtMostConcat(k, START, a + b, c);
    steps := a + b + c;
  }

  lemma AtMostRaise(k: nat, s: State, steps: seq<Step>)
    requires k >= 1 && AtMost(1, s, steps)
    ensures AtMost(k, s, steps)
  {
    hide Run;
  }
}
