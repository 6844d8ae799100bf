/**
 Ownership of the sidecar processes one lifecycle manager has spawned. Only one start, stop or restart
 runs at a time, but children die at any moment and a waiting call may be cancelled; status calls take
 no lock.
 */
module Lifecycle {
  import opened Wrappers

  /** A child is identified by the order in which it was spawned. */
  datatype Child = Running | KillSent | Exited

  /** Where the holder of the mutation lock is; `again` marks the stopping half of a restart. */
  datatype Stage =
    | Idle
    | Checking
    | Spawning
    | Probing
    | AwaitingReadiness
    | Stopping(again: bool)
    | Waiting(again: bool)
    | Deciding(again: bool)
    | Clearing(again: bool)

  datatype State = State(children: seq<Child>, handle: Option<nat>, stage: Stage)

  const INITIAL := State([], None, Idle)

  datatype Event =
    | Die(child: nat)
    | BeginStart
    | BeginStop(again: bool)
    | CheckStatus
    | Spawn
    | FinishStart
    | PollAndTerminate
    | LeaveLoop
    | KillIfAlive
    | ClearHandle
    | Abort

  /** The poll of the current handle answers that the child has not exited. */
  predicate HandleAlive(s: State) {
    s.handle.Some? && s.handle.value < |s.children| && !s.children[s.handle.value].Exited?
  }

  function Kill(children: seq<Child>, i: nat): seq<Child> {
    if i < |children| && children[i].Running? then children[i := KillSent] else children
  }

  function AfterStopping(again: bool): Stage {
    if again then Checking else Idle
  }

  /** An event that its stage does not admit changes nothing. */
  function Step(s: State, e: Event): State {
    match e
    case Die(i) => if i < |s.children| then s.(children := s.children[i := Exited]) else s
    case BeginStart => if s.stage.Idle? then s.(stage := Checking) else s
    case BeginStop(again) => if s.stage.Idle? then s.(stage := Stopping(again)) else s
    case CheckStatus =>
      if !s.stage.Checking? then s
      else if HandleAlive(s) then s.(stage := Probing)
      else s.(stage := Spawning)
    case Spawn =>
      if !s.stage.Spawning? then s
      else State(s.children + [Running], Some(|s.children|), AwaitingReadiness)
    case FinishStart => if s.stage.Probing? || s.stage.AwaitingReadiness? then s.(stage := Idle) else s
    case PollAndTerminate =>
      if !s.stage.Stopping? then s
      else if s.handle.None? then s.(stage := AfterStopping(s.stage.again))
      else if HandleAlive(s) then s.(stage := Waiting(s.stage.again))
      else s.(stage := Clearing(s.stage.again))
    case LeaveLoop => if s.stage.Waiting? then s.(stage := Deciding(s.stage.again)) else s
    case KillIfAlive =>
      if !s.stage.Deciding? then s
      else if HandleAlive(s) then s.(children := Kill(s.children, s.handle.value), stage := Clearing(s.stage.again))
      else s.(stage := Clearing(s.stage.again))
    case ClearHandle => if s.stage.Clearing? then s.(handle := None, stage := AfterStopping(s.stage.again)) else s
    case Abort => s.(stage := Idle)
  }

  function Play(s: State, es: seq<Event>): State
    decreases |es|
  {
    if es == [] then s else Step(Play(s, es[..|es| - 1]), es[|es| - 1])
  }

  lemma {:induction false} PlayConcat(s: State, es: seq<Event>, more: seq<Event>)
    ensures Play(s, es + more) == Play(Play(s, es), more)
    decreases |more|
  {
    if more == [] {
      assert es + more == es;
    } else {
      assert (es + more)[..|es + more| - 1] == es + more[..|more| - 1];
      PlayConcat(s, es, more[..|more| - 1]);
    }
  }

  /** Every child but the current handle's has exited or been sent a kill. */
  ghost predicate OthersAreGone(s: State) {
    forall i :: 0 <= i < |s.children| && s.handle != Some(i) ==> !s.children[i].Running?
  }

  /**
   The invariant: a child is spawned only once the handle's has exited, and given up only once it has exited or
   been killed.
   */
  ghost predicate Owned(s: State) {
    && OthersAreGone(s)
    && (s.handle.Some? ==> s.handle.value < |s.children|)
    && (s.stage.Spawning? ==> !HandleAlive(s))
    && (s.stage.Clearing? ==> s.handle.Some? && !s.children[s.handle.value].Running?)
    && (s.stage.Waiting? || s.stage.Deciding? ==> s.handle.Some?)
  }

  lemma StepKeepsOwned(s: State, e: Event)
    requires Owned(s)
    ensures Owned(Step(s, e))
  {
    if e.Die? && e.child < |s.children| {
      assert Step(s, e).children[e.child].Exited?;
    }
  }

  lemma {:induction false} RunsAreOwned(s: State, es: seq<Event>)
    requires Owned(s)
    ensures Owned(Play(s, es))
    decreases |es|
  {
    if es != [] {
      RunsAreOwned(s, es[..|es| - 1]);
      StepKeepsOwned(Play(s, es[..|es| - 1]), es[|es| - 1]);
    }
  }

  /**
   Whatever the calls, deaths and cancellations, at most one child is neither exited nor sent a kill,
   and it is the current handle's.
   */
  lemma AtMostOneChild(es: seq<Event>, i: nat, j: nat)
    requires i < |Play(INITIAL, es).children| && Play(INITIAL, es).children[i].Running?
    ensures Play(INITIAL, es).handle == Some(i)
    ensures j < |Play(INITIAL, es).children| && Play(INITIAL, es).children[j].Running? ==> i == j
  {
    RunsAreOwned(INITIAL, es);
  }

  /* Status */

  datatype Report = Stopped | Crashed(child: nat) | Starting(child: nat) | Up(child: nat)

  /** How a readiness probe ends: it raises, or is cancelled, if it fails. */
  datatype Probe = Ready | NotReady | Fails

  function StatusOf(s: State, ready: bool): Report {
    if s.handle.None? then Stopped
    else if !HandleAlive(s) then Crashed(s.handle.value)
    else if !ready then Starting(s.handle.value)
    else Up(s.handle.value)
  }

  /** The probe is only asked about a living child. */
  function Answer(s: State, probe: Probe): Option<Report> {
    if HandleAlive(s) && probe.Fails? then None else Some(StatusOf(s, probe.Ready?))
  }

  /**
   At the moment an unlocked status call polls, a child it does not report as stopped or crashed is the only one
   that may be left.
   */
  lemma StatusNamesTheOnlyChild(es: seq<Event>, ready: bool, j: nat)
    requires j < |Play(INITIAL, es).children| && Play(INITIAL, es).children[j].Running?
    ensures StatusOf(Play(INITIAL, es), ready) == if ready then Up(j) else Starting(j)
  {
    AtMostOneChild(es, j, j);
  }

  /* The stop loop */

  datatype Timing = Timing(interval: real, timeout: real)

  function Min(a: real, b: real): real {
    if b < a then b else a
  }

  /** What the loop has counted after `n` sleeps. */
  function Elapsed(t: Timing, n: nat): real {
    if n == 0 then 0.0 else Elapsed(t, n - 1) + t.interval
  }

  /** The lengths of the first `n` sleeps. */
  function Sleeps(t: Timing, n: nat): (sleeps: seq<real>)
    ensures |sleeps| == n
  {
    if n == 0 then [] else Sleeps(t, n - 1) + [Min(t.interval, t.timeout - Elapsed(t, n - 1))]
  }

  function Total(sleeps: seq<real>): real {
    if sleeps == [] then 0.0 else Total(sleeps[..|sleeps| - 1]) + sleeps[|sleeps| - 1]
  }

  /** The loop gets through `n` sleeps beside a living child. */
  ghost predicate CanSleep(t: Timing, n: nat) {
    forall k: nat :: k < n ==> Elapsed(t, k) < t.timeout
  }

  /** The loop gives up on a living child after exactly `n` sleeps. */
  ghost predicate TimesOut(t: Timing, n: nat) {
    CanSleep(t, n) && Elapsed(t, n) >= t.timeout
  }

  /** The number of whole intervals that cover the timeout. */
  function Ceiling(x: real): int {
    -((-x).Floor)
  }

  lemma OneMore(x: real, n: nat)
    ensures x * (n + 1) as real == x * n as real + x
  {
    assert (n + 1) as real == n as real + 1.0;
  }

  lemma {:induction false} ElapsedIsProduct(t: Timing, n: nat)
    ensures Elapsed(t, n) == t.interval * n as real
  {
    if n > 0 {
      ElapsedIsProduct(t, n - 1);
      OneMore(t.interval, n - 1);
    }
  }

  lemma CoversTimeout(x: real, y: real, n: nat)
    requires y > 0.0
    ensures y * n as real < x <==> n + 1 <= Ceiling(x / y)
  {
    var quotient := x / y;
    assert y * quotient == x;
    assert n as real < quotient <==> y * n as real < x;
  }

  lemma {:induction false} TotalOfSleeps(t: Timing, n: nat)
    requires t.interval > 0.0 && t.timeout > 0.0 && CanSleep(t, n)
    ensures Total(Sleeps(t, n)) == Min(Elapsed(t, n), t.timeout)
  {
    if n > 0 {
      TotalOfSleeps(t, n - 1);
      assert Sleeps(t, n)[..n - 1] == Sleeps(t, n - 1);
      assert Elapsed(t, n - 1) < t.timeout;
    }
  }

  /**
   For a positive interval the loop sleeps at most ceil(timeout / interval) times, for at most the timeout
   in all, and for exactly the timeout if the child never exits, after exactly that many sleeps.
   */
  lemma StopLoopIsBounded(t: Timing, n: nat)
    requires t.interval > 0.0 && t.timeout > 0.0
    ensures CanSleep(t, n) <==> n <= Ceiling(t.timeout / t.interval)
    ensures CanSleep(t, n) ==> Total(Sleeps(t, n)) <= t.timeout
    ensures TimesOut(t, n) <==> n == Ceiling(t.timeout / t.interval)
    ensures TimesOut(t, n) ==> Total(Sleeps(t, n)) == t.timeout
  {
    forall k: nat ensures Elapsed(t, k) < t.timeout <==> k + 1 <= Ceiling(t.timeout / t.interval) {
      ElapsedIsProduct(t, k);
      CoversTimeout(t.timeout, t.interval, k);
    }
    assert Elapsed(t, 0) < t.timeout;
    if n > 0 {
      assert CanSleep(t, n) ==> Elapsed(t, n - 1) < t.timeout;
    }
    if CanSleep(t, n) {
      TotalOfSleeps(t, n);
    }
  }

  /**
   A child that never exits is given up on, and so killed, exactly if the timeout is already over or the interval
   is positive.
   */
  lemma StuckChildIsKilledIff(t: Timing)
    ensures (exists n: nat :: TimesOut(t, n)) <==> t.timeout <= 0.0 || t.interval > 0.0
  {
    if t.timeout <= 0.0 {
      assert TimesOut(t, 0);
    } else if t.interval > 0.0 {
      assert Elapsed(t, 0) < t.timeout;
      ElapsedIsProduct(t, 0);
      CoversTimeout(t.timeout, t.interval, 0);
      StopLoopIsBounded(t, Ceiling(t.timeout / t.interval));
    } else {
      forall n: nat ensures !TimesOut(t, n) {
        ElapsedIsProduct(t, n);
      }
    }
  }

  /** Without an interval a child that never exits is waited for forever. */
  lemma SomeStuckChildIsNotKilled(n: nat)
    ensures !TimesOut(Timing(0.0, 1.0), n) && CanSleep(Timing(0.0, 1.0), n)
  {
    StuckChildIsKilledIff(Timing(0.0, 1.0));
    forall k: nat ensures Elapsed(Timing(0.0, 1.0), k) == 0.0 {
      ElapsedIsProduct(Timing(0.0, 1.0), k);
    }
  }

  /* The manager */

  /** Between two polls any children may have exited, and nothing else has happened to them. */
  ghost predicate OnlyDeaths(before: seq<Child>, after: seq<Child>) {
    |after| == |before| && forall i :: 0 <= i < |before| ==> after[i] == before[i] || after[i].Exited?
  }

  /** The same, except that the child `killed`, if any, may have been sent a kill. */
  ghost predicate DeathsOrKill(before: seq<Child>, after: seq<Child>, killed: Option<nat>) {
    && |after| == |before|
    && forall i :: 0 <= i < |before| ==> after[i] == before[i] || after[i].Exited? || (killed == Some(i) && after[i].KillSent?)
  }

  class CLIProxyAPILifecycle {
    const timing: Timing
    const attempts: nat
    var owned: State
    ghost var history: seq<Event>

    ghost predicate Valid()
      reads this
    {
      attempts >= 1 && owned == Play(INITIAL, history)
    }

    constructor (timing: Timing, attempts: nat)
      requires attempts >= 1
      ensures Valid() && owned == INITIAL && this.timing == timing && this.attempts == attempts
    {
      this.timing, this.attempts, owned, history := timing, attempts, INITIAL, [];
    }

    method Do(e: Event)
      requires Valid()
      modifies this
      ensures Valid() && owned == Step(old(owned), e) && history == old(history) + [e]
    {
      assert (history + [e])[..|history|] == history;
      owned, history := Step(owned, e), history + [e];
    }

    /** Time passes, in which children may die. */
    method Pass()
      requires Valid()
      modifies this
      ensures Valid() && OnlyDeaths(old(owned.children), owned.children)
      ensures owned.handle == old(owned.handle) && owned.stage == old(owned.stage)
    {
      var deaths: int := *;
      for k := 0 to if deaths < 0 then 0 else deaths
        invariant Valid() && OnlyDeaths(old(owned.children), owned.children)
        invariant owned.handle == old(owned.handle) && owned.stage == old(owned.stage)
      {
        var child: int := *;
        if child >= 0 {
          Do(Die(child));
        }
      }
    }

    /**
     * Reports without the lock, naming the only child that may be running; `None` if the
     * readiness probe fails. The children are polled as they are in `polled`.
     */
    method Status(probe: Probe) returns (report: Option<Report>, ghost polled: seq<Child>)
      requires Valid()
      modifies this
      ensures Valid() && OnlyDeaths(old(owned.children), polled) && OnlyDeaths(polled, owned.children)
      ensures owned.handle == old(owned.handle) && owned.stage == old(owned.stage)
      ensures report == Answer(State(polled, owned.handle, owned.stage), probe)
      ensures report.Some? ==> (report.value.Stopped? <==> owned.handle.None?)
      ensures report.Some? && report.value.Crashed? ==> !HandleAlive(owned)
      ensures report.Some? && (report.value.Starting? || report.value.Up?) ==>
                owned.handle == Some(report.value.child) && old(HandleAlive(owned))
      ensures report.Some? ==> forall j :: 0 <= j < |owned.children| && owned.children[j].Running? ==>
                report.value == Starting(j) || report.value == Up(j)
      ensures owned.handle.Some? && old(owned.handle.value < |owned.children| && owned.children[owned.handle.value].Exited?) ==>
                report == Some(Crashed(owned.handle.value))
    {
      Pass();
      polled := owned.children;
      forall j | 0 <= j < |owned.children| && owned.children[j].Running?
        ensures StatusOf(owned, probe.Ready?) == if probe.Ready? then Up(j) else Starting(j)
      {
        StatusNamesTheOnlyChild(history, probe.Ready?, j);
      }
      report := Some(StatusOf(owned, probe.Ready?));
      if HandleAlive(owned) {
        if probe.Fails? {
          return None, polled;
        }
        Pass();
      }
    }

    /** Checks the status until it has settled, asking one probe after the other; the checks' answers are `observed`. */
    method AwaitReadiness(probes: nat -> Probe) returns (report: Option<Report>, sleeps: nat, ghost observed: seq<Report>)
      requires Valid() && owned.stage.AwaitingReadiness?
      modifies this
      ensures Valid() && owned.stage.Idle? && owned.handle == old(owned.handle)
      ensures OnlyDeaths(old(owned.children), owned.children)
      ensures forall k :: 0 <= k < |observed| - 1 ==> observed[k].Starting?
      ensures forall k :: 0 <= k < |observed| ==>
                (observed[k].Starting? ==> probes(k).NotReady?) && (observed[k].Up? ==> probes(k).Ready?)
      ensures report.None? ==> |observed| <= attempts && probes(|observed|).Fails?
      ensures report.Some? ==>
                && observed != [] && observed[|observed| - 1] == report.value
                && |observed| <= attempts + 1 && (report.value.Starting? ==> |observed| == attempts + 1)
                && sleeps == if |observed| <= attempts then |observed| - 1 else attempts - 1
    {
      hide Play, Kill;
      sleeps, observed := 0, [];
      ghost var polled;
      for attempt := 0 to attempts
        invariant Valid() && owned.stage.AwaitingReadiness? && owned.handle == old(owned.handle)
        invariant OnlyDeaths(old(owned.children), owned.children)
        invariant |observed| == attempt && forall k :: 0 <= k < attempt ==> observed[k].Starting? && probes(k).NotReady?
        invariant sleeps == if attempt < attempts then attempt else attempts - 1
      {
        report, polled := Status(probes(attempt));
        if report.None? {
          Do(Abort);
          return;
        }
        observed := observed + [report.value];
        if !report.value.Starting? {
          Do(FinishStart);
          return;
        }
        if attempt + 1 < attempts {
          sleeps := sleeps + 1;
          Pass();
        }
      }
      report, polled := Status(probes(attempts));
      if report.None? {
        Do(Abort);
        return;
      }
      observed := observed + [report.value];
      Do(FinishStart);
    }

    /**
     Spawns a child only if there is none or it has exited: `living` says what the poll answered. `launchable` says
     whether paths and process factory allow it.
     */
    method StartUnlocked(launchable: bool, probes: nat -> Probe) returns (report: Option<Report>, ghost living: bool)
      requires Valid() && owned.stage.Checking?
      modifies this
      ensures Valid() && owned.stage.Idle?
      ensures living ==> old(HandleAlive(owned))
      ensures !living && old(owned.handle.Some? && owned.handle.value < |owned.children|) ==>
                old(owned.handle).value < |owned.children| && owned.children[old(owned.handle).value].Exited?
      ensures living || !launchable ==> owned.handle == old(owned.handle) && |owned.children| == |old(owned.children)|
      ensures !living && launchable ==>
                owned.handle == Some(|old(owned.children)|) && |owned.children| == |old(owned.children)| + 1
      ensures living ==> report == (match probes(0)
                                    case Ready => Some(Up(old(owned.handle).value))
                                    case NotReady => Some(Starting(old(owned.handle).value))
                                    case Fails => None)
      ensures !living && !launchable ==> report.None?
      ensures !living && launchable && report.None? ==> exists k: nat :: k <= attempts && probes(k).Fails?
      ensures report.Some? ==> owned.handle.Some?
    {
      Pass();
      RunsAreOwned(INITIAL, history);
      living := HandleAlive(owned);
      var alive := HandleAlive(owned);
      Do(CheckStatus);
      if alive {
        Pass();
        if probes(0).Fails? {
          Do(Abort);
          report := None;
          return;
        }
        report := Some(if probes(0).Ready? then Up(owned.handle.value) else Starting(owned.handle.value));
        Do(FinishStart);
        return;
      }
      report := None;
      if !launchable {
        Do(Abort);
        return;
      }
      Do(Spawn);
      var sleeps: nat;
      ghost var observed: seq<Report>;
      report, sleeps, observed := AwaitReadiness(probes);
    }

    /** Polls and sleeps until the child has exited, the timeout is over or the call is cancelled. */
    method WaitForExit(patience: nat) returns (ended: bool, sleeps: seq<real>)
      requires Valid() && owned.stage.Waiting?
      modifies this
      ensures Valid() && OnlyDeaths(old(owned.children), owned.children)
      ensures owned.handle == old(owned.handle) && owned.stage == old(owned.stage)
      ensures CanSleep(timing, |sleeps|) && sleeps == Sleeps(timing, |sleeps|)
      ensures ended && HandleAlive(owned) ==> TimesOut(timing, |sleeps|)
      ensures !ended ==> |sleeps| == patience + 1
    {
      var elapsed := 0.0;
      sleeps := [];
      Pass();
      var living := HandleAlive(owned);
      while living && elapsed < timing.timeout
        invariant Valid() && OnlyDeaths(old(owned.children), owned.children)
        invariant owned.handle == old(owned.handle) && owned.stage == old(owned.stage)
        invariant CanSleep(timing, |sleeps|) && sleeps == Sleeps(timing, |sleeps|)
        invariant elapsed == Elapsed(timing, |sleeps|) && living == HandleAlive(owned) && |sleeps| <= patience
        decreases patience - |sleeps|
      {
        sleeps := sleeps + [Min(timing.interval, timing.timeout - elapsed)];
        elapsed := elapsed + timing.interval;
        Pass();
        if |sleeps| > patience {
          return false, sleeps;
        }
        living := HandleAlive(owned);
      }
      ended := true;
    }

    /** What follows the loop: the child is killed if it still lives, and its handle is given up. */
    method EndStop(again: bool)
      requires Valid() && owned.stage == Waiting(again)
      modifies this
      ensures Valid() && owned.stage == AfterStopping(again) && owned.handle == None
      ensures DeathsOrKill(old(owned.children), owned.children, if old(HandleAlive(owned)) then old(owned.handle) else None)
    {
      Do(LeaveLoop);
      Pass();
      Do(KillIfAlive);
      Pass();
      Do(ClearHandle);
    }

    /**
     Terminates the child and waits for it; kills it only after the loop has timed out on a living child.
     The caller may cancel the call during the sleep that follows `patience` others.
     */
    method StopUnlocked(again: bool, patience: nat) returns (stopped: bool, sleeps: seq<real>)
      requires Valid() && owned.stage == Stopping(again)
      modifies this
      ensures Valid() && CanSleep(timing, |sleeps|) && sleeps == Sleeps(timing, |sleeps|)
      ensures stopped ==> owned.stage == AfterStopping(again) && owned.handle == None
      ensures !stopped ==> owned.stage == Idle && owned.handle == old(owned.handle) && |sleeps| == patience + 1 && old(HandleAlive(owned))
      ensures DeathsOrKill(old(owned.children), owned.children,
                if stopped && TimesOut(timing, |sleeps|) then old(owned.handle) else None)
    {
      sleeps, stopped := [], true;
      if owned.handle.None? {
        Do(PollAndTerminate);
        return;
      }
      Pass();
      var living := HandleAlive(owned);
      Do(PollAndTerminate);
      if !living {
        Pass();
        Do(ClearHandle);
        return;
      }
      stopped, sleeps := WaitForExit(patience);
      if stopped {
        EndStop(again);
      } else {
        Do(Abort);
      }
    }

    /** Starts a child unless there is a living one. */
    method Start(launchable: bool, probes: nat -> Probe) returns (report: Option<Report>, ghost living: bool)
      requires Valid() && owned.stage.Idle?
      modifies this
      ensures Valid() && owned.stage.Idle? && (report.Some? ==> owned.handle.Some?)
      ensures living ==> old(owned.handle.Some? && owned.handle.value < |owned.children| && !owned.children[owned.handle.value].Exited?)
      ensures living && !probes(0).Fails? ==> report.Some?
      ensures living || !launchable ==> owned.handle == old(owned.handle) && |owned.children| == |old(owned.children)|
      ensures !living && launchable ==>
                && owned.handle == Some(|old(owned.children)|) && |owned.children| == |old(owned.children)| + 1
                && (report.None? ==> exists k: nat :: k <= attempts && probes(k).Fails?)
      ensures !living && !launchable ==> report.None?
      ensures !living ==> forall i :: 0 <= i < |old(owned.children)| ==> !owned.children[i].Running?
    {
      Do(BeginStart);
      report, living := StartUnlocked(launchable, probes);
      RunsAreOwned(INITIAL, history);
    }

    method Stop(patience: nat) returns (stopped: bool, sleeps: seq<real>)
      requires Valid() && owned.stage.Idle?
      modifies this
      ensures Valid() && owned.stage.Idle? && |owned.children| == |old(owned.children)|
      ensures owned.handle == if stopped then None else old(owned.handle)
      ensures stopped ==> forall i :: 0 <= i < |owned.children| ==> !owned.children[i].Running?
      ensures !stopped ==> old(HandleAlive(owned)) && CanSleep(timing, patience + 1)
    {
      Do(BeginStop(false));
      stopped, sleeps := StopUnlocked(false, patience);
      RunsAreOwned(INITIAL, history);
    }

    /**
     Both halves under one hold of the lock. The stop ends unless the caller cancels it before the loop is over; then
     a new child is spawned if that is possible, and the old one has exited or been killed. A cancelled stop starts nothing.
     */
    method Restart(patience: nat, launchable: bool, probes: nat -> Probe) returns (report: Option<Report>, ghost ended: bool)
      requires Valid() && owned.stage.Idle?
      modifies this
      ensures Valid() && owned.stage.Idle?
      ensures !ended ==> old(HandleAlive(owned)) && CanSleep(timing, patience + 1)
      ensures ended && launchable ==>
                && owned.handle == Some(|old(owned.children)|) && |owned.children| == |old(owned.children)| + 1
                && (report.None? ==> exists k: nat :: k <= attempts && probes(k).Fails?)
      ensures ended && !launchable ==> report.None? && owned.handle.None? && |owned.children| == |old(owned.children)|
      ensures ended ==> forall i :: 0 <= i < |old(owned.children)| ==> !owned.children[i].Running?
      ensures !ended ==> report.None? && owned.handle == old(owned.handle) && |owned.children| == |old(owned.children)|
    {
      Do(BeginStop(true));
      var stopped, sleeps := StopUnlocked(true, patience);
      ended := stopped;
      if !stopped {
        report := None;
        return;
      }
      ghost var living;
      report, living := StartUnlocked(launchable, probes);
      RunsAreOwned(INITIAL, history);
    }
  }
}
