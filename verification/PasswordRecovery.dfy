/**
 Password recovery against concurrent logins. A completion holds the recovery lock through three
 steps, consuming the challenge, replacing the stored verifier and replacing the session manager's;
 logins, session checks and clock ticks come between them, as do the starts of other calls.
 */
module PasswordRecovery {
  import opened Wrappers
  import Sessions = AdminSessions

  /** `began` is the clock reading of the call that completes, `expiry` that of its challenge. */
  datatype Completion = Completion(token: string, began: int, expiry: int)

  /** Who holds the recovery lock: nobody, or a completion before or after it has stored the new verifier. */
  datatype Lock = Free | Consumed(call: Completion) | Stored(call: Completion, verifier: string)

  datatype Recovery = Recovery(sessions: Sessions.Config, ttl: int, limit: nat)

  predicate IsRecovery(r: Recovery) {
    Sessions.IsConfig(r.sessions) && r.ttl > 0 && r.limit > 0
  }

  /** The stored row and the session manager; `started` and `completed` record what has happened so far. */
  datatype State = State(
    stored: Option<string>, manager: Sessions.State,
    challenges: map<string, int>, lock: Lock,
    clock: int, started: set<string>, completed: seq<Completion>)

  function Initial(verifier: string, clock: int): State {
    State(Some(verifier), Sessions.Fresh(verifier), map[], Free, clock, {}, [])
  }

  /** Readings `now` are taken before the lock is asked for and may be old by the time it is held. */
  datatype Event =
    | Tick(now: int)
    | Session(e: Sessions.Event)
    | Start(token: string, now: int)
    | Complete(token: string, now: int)
    | FailToStore
    | StoreVerifier(verifier: string)
    | InstallVerifier

  const MAX_VERIFIER := 1024

  predicate ValidVerifier(verifier: string) {
    0 < |verifier| <= MAX_VERIFIER
  }

  predicate Enabled(s: State, e: Event) {
    match e
    case Tick(now) => now >= s.clock
    case Session(e) => !e.Replace? && Sessions.Enabled(s.manager, e)
    case Start(token, now) => s.lock.Free? && token !in s.started && now <= s.clock
    case Complete(token, now) => s.lock.Free? && now <= s.clock
    case FailToStore => s.lock.Consumed?
    case StoreVerifier(verifier) => s.lock.Consumed? && ValidVerifier(verifier) && s.stored.Some?
    case InstallVerifier => s.lock.Stored?
  }

  function LiveChallenges(challenges: map<string, int>, now: int): map<string, int> {
    map token | token in challenges && challenges[token] > now :: challenges[token]
  }

  function AfterStart(r: Recovery, s: State, token: string, now: int): State {
    var live := LiveChallenges(s.challenges, now);
    if |live| >= r.limit then s.(challenges := live, started := s.started + {token})
    else s.(challenges := live[token := now + r.ttl], started := s.started + {token})
  }

  function AfterComplete(s: State, token: string, now: int): State {
    var live := LiveChallenges(s.challenges, now);
    if token == "" || token !in live then s.(challenges := live)
    else s.(challenges := live - {token}, lock := Consumed(Completion(token, now, live[token])))
  }

  function AfterInstall(r: Recovery, s: State): State
    requires IsRecovery(r) && s.lock.Stored?
  {
    s.(manager := Sessions.Step(r.sessions, s.manager, Sessions.Replace(s.lock.verifier)),
       lock := Free, completed := s.completed + [s.lock.call])
  }

  function Step(r: Recovery, s: State, e: Event): State
    requires IsRecovery(r)
  {
    match e
    case Tick(now) => s.(clock := now)
    case Session(e) => s.(manager := Sessions.Step(r.sessions, s.manager, e))
    case Start(token, now) => AfterStart(r, s, token, now)
    case Complete(token, now) => AfterComplete(s, token, now)
    case FailToStore => s.(lock := Free)
    case StoreVerifier(verifier) =>
      if s.lock.Consumed? then s.(stored := Some(verifier), lock := Stored(s.lock.call, verifier)) else s
    case InstallVerifier => if s.lock.Stored? then AfterInstall(r, s) else s
  }

  function Play(r: Recovery, s: State, es: seq<Event>): State
    requires IsRecovery(r)
    decreases |es|
  {
    if es == [] then s else Step(r, Play(r, s, es[..|es| - 1]), es[|es| - 1])
  }

  ghost predicate IsRun(r: Recovery, s: State, es: seq<Event>)
    requires IsRecovery(r)
  {
    forall i :: 0 <= i < |es| ==> Enabled(Play(r, s, es[..i]), es[i])
  }

  lemma PlayEnds(r: Recovery, s: State, es: seq<Event>)
    requires IsRecovery(r) && es != []
    ensures Play(r, s, es) == Step(r, Play(r, s, es[..|es| - 1]), es[|es| - 1])
  {
    hide Step;
  }

  lemma LastSplits(es: seq<Event>)
    requires es != []
    ensures es == es[..|es| - 1] + [es[|es| - 1]]
  {
  }

  lemma RunPrefix(r: Recovery, s: State, es: seq<Event>, n: nat)
    requires IsRecovery(r) && IsRun(r, s, es) && n < |es|
    ensures IsRun(r, s, es[..n]) && Enabled(Play(r, s, es[..n]), es[n])
  {
    hide Step, Enabled, Play;
    forall i | 0 <= i < n ensures Enabled(Play(r, s, es[..n][..i]), es[..n][i]) {
      assert es[..n][..i] == es[..i];
    }
  }

  lemma RunEnds(r: Recovery, s: State, es: seq<Event>)
    requires IsRecovery(r) && IsRun(r, s, es) && es != []
    ensures IsRun(r, s, es[..|es| - 1]) && Enabled(Play(r, s, es[..|es| - 1]), es[|es| - 1])
    ensures Play(r, s, es) == Step(r, Play(r, s, es[..|es| - 1]), es[|es| - 1])
    ensures es == es[..|es| - 1] + [es[|es| - 1]]
  {
    hide Step, Enabled, Play, IsRun;
    LastSplits(es);
    RunPrefix(r, s, es, |es| - 1);
    PlayEnds(r, s, es);
  }

  predicate Used(completed: seq<Completion>, token: string) {
    exists i :: 0 <= i < |completed| && completed[i].token == token
  }

  predicate AllInTime(completed: seq<Completion>) {
    forall i :: 0 <= i < |completed| ==> completed[i].began < completed[i].expiry
  }

  /** No challenge completes twice. */
  predicate AllDistinct(completed: seq<Completion>) {
    forall i, j :: 0 <= i < j < |completed| ==> completed[i].token != completed[j].token
  }

  /** Outside the two steps that replace it, the stored verifier is the one in force. */
  predicate VerifiersAgree(s: State) {
    if s.lock.Stored? then s.stored == Some(s.lock.verifier) && ValidVerifier(s.lock.verifier)
    else s.stored == Some(s.manager.verifier)
  }

  /** Challenges outstanding, being completed and completed are separate sets of started ones. */
  ghost predicate ChallengesAreSpent(s: State) {
    && (forall token :: token in s.challenges ==> token in s.started && !Used(s.completed, token))
    && (forall i :: 0 <= i < |s.completed| ==> s.completed[i].token in s.started)
    && (!s.lock.Free? ==>
          && s.lock.call.token in s.started && s.lock.call.token !in s.challenges
          && !Used(s.completed, s.lock.call.token) && s.lock.call.began < s.lock.call.expiry)
    && AllInTime(s.completed) && AllDistinct(s.completed)
  }

  ghost predicate Sound(r: Recovery, s: State)
    requires IsRecovery(r)
  {
    && VerifiersAgree(s)
    && |s.challenges| <= r.limit
    && Sessions.Sound(r.sessions, s.manager)
    && ChallengesAreSpent(s)
  }

  lemma {:induction false} KeepingShrinks(kept: map<string, int>, all: map<string, int>)
    requires kept.Keys <= all.Keys
    ensures |kept| <= |all|
    decreases |kept|
  {
    if kept != map[] {
      var token :| token in kept;
      assert (kept - {token}).Keys == kept.Keys - {token} && (all - {token}).Keys == all.Keys - {token};
      KeepingShrinks(kept - {token}, all - {token});
    }
  }

  lemma StartKeepsSound(r: Recovery, s: State, token: string, now: int)
    requires IsRecovery(r) && Sound(r, s) && Enabled(s, Start(token, now))
    ensures Sound(r, AfterStart(r, s, token, now))
  {
    KeepingShrinks(LiveChallenges(s.challenges, now), s.challenges);
    assert !Used(s.completed, token);
  }

  lemma CompleteKeepsSound(r: Recovery, s: State, token: string, now: int)
    requires IsRecovery(r) && Sound(r, s) && Enabled(s, Complete(token, now))
    ensures Sound(r, AfterComplete(s, token, now))
  {
    var live := LiveChallenges(s.challenges, now);
    KeepingShrinks(live, s.challenges);
    KeepingShrinks(live - {token}, s.challenges);
  }

  lemma UsedAfter(completed: seq<Completion>, c: Completion, token: string)
    ensures Used(completed + [c], token) <==> Used(completed, token) || token == c.token
  {
    assert (completed + [c])[|completed|] == c;
    if Used(completed, token) {
      var i :| 0 <= i < |completed| && completed[i].token == token;
      assert (completed + [c])[i].token == token;
    }
  }

  lemma InstallKeepsSound(r: Recovery, s: State)
    requires IsRecovery(r) && Sound(r, s) && s.lock.Stored?
    ensures Sound(r, AfterInstall(r, s))
  {
    Sessions.StepKeepsSound(r.sessions, s.manager, Sessions.Replace(s.lock.verifier));
    forall token ensures Used(s.completed + [s.lock.call], token) <==> Used(s.completed, token) || token == s.lock.call.token {
      UsedAfter(s.completed, s.lock.call, token);
    }
  }

  lemma StepKeepsSound(r: Recovery, s: State, e: Event)
    requires IsRecovery(r) && Sound(r, s) && Enabled(s, e)
    ensures Sound(r, Step(r, s, e))
  {
    match e
    case Tick(_) =>
    case Session(inner) => Sessions.StepKeepsSound(r.sessions, s.manager, inner);
    case Start(token, now) => StartKeepsSound(r, s, token, now);
    case Complete(token, now) => CompleteKeepsSound(r, s, token, now);
    case FailToStore =>
    case StoreVerifier(_) =>
    case InstallVerifier => InstallKeepsSound(r, s);
  }

  /** The invariant holds after every interleaving. */
  lemma {:induction false} RunsAreSound(r: Recovery, verifier: string, clock: int, es: seq<Event>)
    requires IsRecovery(r) && IsRun(r, Initial(verifier, clock), es)
    ensures Sound(r, Play(r, Initial(verifier, clock), es))
  {
    if es != [] {
      hide Step, Enabled, IsRun, Sound;
      var front := es[..|es| - 1];
      RunEnds(r, Initial(verifier, clock), es);
      RunsAreSound(r, verifier, clock, front);
      StepKeepsSound(r, Play(r, Initial(verifier, clock), front), es[|es| - 1]);
    }
  }

  lemma InstallEndsSessions(r: Recovery, verifier: string, clock: int, es: seq<Event>)
    requires IsRecovery(r) && IsRun(r, Initial(verifier, clock), es + [InstallVerifier])
    ensures Play(r, Initial(verifier, clock), es + [InstallVerifier]).manager.table == []
    ensures Play(r, Initial(verifier, clock), es + [InstallVerifier]).manager.issued == []
  {
    var whole := es + [InstallVerifier];
    assert forall i :: 0 <= i < |es| ==> es[..i] == whole[..i] && es[i] == whole[i];
    RunsAreSound(r, verifier, clock, es);
    assert whole[..|es|] == es && whole[|es|] == InstallVerifier;
    PlayAppend(r, Initial(verifier, clock), es, InstallVerifier);
    var s := Play(r, Initial(verifier, clock), es);
    assert s.lock.Stored? && |s.lock.verifier| > 0;
  }

  /**
   Under every interleaving a challenge completes at most once, and only when its call began before
   it expired; whenever no completion is between its two replacements the stored verifier is the
   session manager's; and the step that ends a completion leaves no session that was issued before it.
   */
  lemma RecoveryIsSafe(r: Recovery, verifier: string, clock: int, es: seq<Event>, s: State)
    requires IsRecovery(r) && IsRun(r, Initial(verifier, clock), es) && s == Play(r, Initial(verifier, clock), es)
    ensures forall i :: 0 <= i < |s.completed| ==> s.completed[i].began < s.completed[i].expiry
    ensures forall i, j :: 0 <= i < j < |s.completed| ==> s.completed[i].token != s.completed[j].token
    ensures !s.lock.Stored? ==> s.stored == Some(s.manager.verifier)
    ensures es != [] && es[|es| - 1].InstallVerifier? ==> s.manager.table == [] && s.manager.issued == []
  {
    hide Play, IsRun, Enabled, Sessions.Sound;
    RunsAreSound(r, verifier, clock, es);
    if es != [] && es[|es| - 1].InstallVerifier? {
      assert es == es[..|es| - 1] + [InstallVerifier];
      InstallEndsSessions(r, verifier, clock, es[..|es| - 1]);
    }
  }

  predicate Issues(r: Recovery, e: Event, session: Sessions.Session) {
    e.Session? && e.e.Login? && session == Sessions.Session(e.e.token, e.e.now + r.sessions.ttl)
  }

  lemma StepIssues(r: Recovery, s: State, e: Event, session: Sessions.Session)
    requires IsRecovery(r) && session in Step(r, s, e).manager.issued
    ensures session in s.manager.issued || Issues(r, e, session)
  {
  }

  lemma {:induction false} IssuedAfterCompletion(
      r: Recovery, verifier: string, clock: int, es: seq<Event>, k: nat, session: Sessions.Session)
    requires IsRecovery(r) && k < |es| && IsRun(r, Initial(verifier, clock), es) && es[k].InstallVerifier?
    requires session in Play(r, Initial(verifier, clock), es).manager.issued
    ensures exists i :: k < i < |es| && Issues(r, es[i], session)
    decreases |es|
  {
    var front, last := es[..|es| - 1], es[|es| - 1];
    assert es == front + [last];
    if k == |front| {
      InstallEndsSessions(r, verifier, clock, front);
    } else if Issues(r, last, session) {
      assert es[|front|] == last;
    } else {
      assert forall i :: 0 <= i < |front| ==> front[..i] == es[..i] && front[i] == es[i];
      PlayAppend(r, Initial(verifier, clock), front, last);
      StepIssues(r, Play(r, Initial(verifier, clock), front), last, session);
      IssuedAfterCompletion(r, verifier, clock, front, k, session);
      var i :| k < i < |front| && Issues(r, front[i], session);
      assert es[i] == front[i];
    }
  }

  /** No session survives a completion: whatever is in the table later was issued by a login after it. */
  lemma SessionsPostdateCompletions(
      r: Recovery, verifier: string, clock: int, es: seq<Event>, k: nat, session: Sessions.Session)
    requires IsRecovery(r) && k < |es| && IsRun(r, Initial(verifier, clock), es) && es[k].InstallVerifier?
    requires session in Play(r, Initial(verifier, clock), es).manager.table
    ensures exists i :: k < i < |es| && es[i].Session? && es[i].e.Login?
                        && session == Sessions.Session(es[i].e.token, es[i].e.now + r.sessions.ttl)
  {
    RunsAreSound(r, verifier, clock, es);
    var manager := Play(r, Initial(verifier, clock), es).manager;
    Sessions.SuffixMembers(manager.table, Sessions.Remaining(manager.issued, manager.gone));
    Sessions.RemainingMembers(manager.issued, manager.gone);
    IssuedAfterCompletion(r, verifier, clock, es, k, session);
    var i :| k < i < |es| && Issues(r, es[i], session);
  }

  /** The challenge is there and expires after the reading. */
  predicate IsOutstanding(challenges: map<string, int>, token: string, now: int) {
    token in challenges && now < challenges[token]
  }

  /** A call consumes a challenge exactly if it names an outstanding one, and leaves it outstanding in no case. */
  lemma CompletesExactlyIf(s: State, token: string, now: int)
    requires s.lock.Free?
    ensures AfterComplete(s, token, now).lock.Consumed? <==> token != "" && IsOutstanding(s.challenges, token, now)
    ensures token in LiveChallenges(s.challenges, now) <==> IsOutstanding(s.challenges, token, now)
    ensures token != "" ==> token !in AfterComplete(s, token, now).challenges
  {
    assert token in LiveChallenges(s.challenges, now) <==> token in s.challenges && now < s.challenges[token];
  }

  /**
   A start drops the challenges that have expired, keeps the others as they are, and adds one with the full lifetime
   exactly if fewer than the limit are left.
   */
  lemma StartIssuesIff(r: Recovery, s: State, token: string, now: int, other: string)
    requires IsRecovery(r) && token !in s.challenges && other != token
    ensures var t := Step(r, s, Start(token, now));
            && (other in t.challenges <==> IsOutstanding(s.challenges, other, now))
            && (other in t.challenges ==> t.challenges[other] == s.challenges[other])
            && (token in t.challenges <==> |set k | k in s.challenges && s.challenges[k] > now| < r.limit)
            && (token in t.challenges ==> t.challenges[token] == now + r.ttl)
            && t == s.(challenges := t.challenges, started := s.started + {token})
  {
    var live := LiveChallenges(s.challenges, now);
    assert live.Keys == set k | k in s.challenges && s.challenges[k] > now;
    assert |live| == |live.Keys|;
  }

  /** What a completion that goes through does, whatever the state it begins in, and that nothing keeps it from doing so. */
  lemma CompletionReplaces(r: Recovery, s: State, token: string, now: int, verifier: string)
    requires IsRecovery(r) && s.lock.Free? && now <= s.clock && s.stored.Some?
    requires token != "" && IsOutstanding(s.challenges, token, now) && 0 < |verifier| <= 1024
    ensures var s1 := Step(r, s, Complete(token, now));
            var s2 := Step(r, s1, StoreVerifier(verifier));
            var t := Step(r, s2, InstallVerifier);
            && Enabled(s, Complete(token, now)) && Enabled(s1, StoreVerifier(verifier)) && Enabled(s2, InstallVerifier)
            && t.stored == Some(verifier) && t.lock.Free?
            && t.manager == Sessions.Fresh(verifier).(lastLogin := s.manager.lastLogin)
            && t.completed == s.completed + [Completion(token, now, s.challenges[token])]
            && (forall other :: other in t.challenges <==> other != token && IsOutstanding(s.challenges, other, now))
            && t.clock == s.clock && t.started == s.started
  {
    CompletesExactlyIf(s, token, now);
    Sessions.ReplaceIsFresh(r.sessions, s.manager, verifier);
  }

  /** One that cannot store its verifier has used up its challenge and changes nothing else. */
  lemma FailedCompletionConsumes(r: Recovery, s: State, token: string, now: int)
    requires IsRecovery(r) && s.lock.Free? && now <= s.clock && token != "" && IsOutstanding(s.challenges, token, now)
    ensures var s1 := Step(r, s, Complete(token, now));
            var t := Step(r, s1, FailToStore);
            && Enabled(s1, FailToStore) && t == s.(challenges := t.challenges) && token !in t.challenges
  {
    CompletesExactlyIf(s, token, now);
  }

  /** A login with the old password between the two replacements is possible, and its session does not outlive them. */
  lemma LoginInBetweenIsEnded(r: Recovery, s: State, password: string, token: string, now: int)
    requires IsRecovery(r) && s.lock.Stored? && s.lock.verifier != "" && r.sessions.check(s.manager.verifier, password)
    requires Sessions.Enabled(s.manager, Sessions.Login(password, token, now))
    ensures var login := Session(Sessions.Login(password, token, now));
            var t := Step(r, s, login);
            && Enabled(s, login) && Sessions.Holds(t.manager.table, token)
            && Enabled(t, InstallVerifier) && Step(r, t, InstallVerifier).manager.table == []
  {
    var t := Step(r, s, Session(Sessions.Login(password, token, now)));
    assert t.manager.table[|t.manager.table| - 1].token == token;
  }

  /* What the lifetime does not bound */

  function LateRun(r: Recovery, token: string, verifier: string): seq<Event> {
    [Start(token, 0), Tick(r.ttl), Complete(token, 0), StoreVerifier(verifier), InstallVerifier]
  }

  /** A run that an enabled event extends. */
  lemma Extend(r: Recovery, s: State, es: seq<Event>, t: State, e: Event, extended: seq<Event>)
    requires IsRecovery(r) && IsRun(r, s, es) && t == Play(r, s, es) && Enabled(t, e)
    requires extended == es + [e]
    ensures IsRun(r, s, extended) && Play(r, s, extended) == Step(r, t, e)
  {
    PlayAppend(r, s, es, e);
    forall i | 0 <= i < |extended| ensures Enabled(Play(r, s, extended[..i]), extended[i]) {
      if i < |es| {
        assert extended[..i] == es[..i] && extended[i] == es[i];
      } else {
        assert extended[..i] == es;
      }
    }
  }

  lemma LateChallenges(r: Recovery, token: string, before: string)
    requires IsRecovery(r) && token != ""
    ensures AfterStart(r, Initial(before, 0), token, 0) == Initial(before, 0).(challenges := map[token := r.ttl], started := {token})
    ensures forall s: State :: s.challenges == map[token := r.ttl] ==>
              AfterComplete(s, token, 0) == s.(challenges := map[], lock := Consumed(Completion(token, 0, r.ttl)))
  {
    assert LiveChallenges(map[], 0) == map[];
    assert LiveChallenges(map[token := r.ttl], 0) == map[token := r.ttl];
    assert map[token := r.ttl] - {token} == map[];
  }

  /**
   A completion is timed by the reading taken before it waits for the lock, so one that began in time
   can still replace the verifier at or after its challenge's expiry.
   */
  lemma CompletionMayEndLate(r: Recovery, token: string, before: string, verifier: string)
    requires IsRecovery(r) && token != "" && ValidVerifier(verifier)
    ensures IsRun(r, Initial(before, 0), LateRun(r, token, verifier))
    ensures Play(r, Initial(before, 0), LateRun(r, token, verifier)).completed == [Completion(token, 0, r.ttl)]
    ensures Play(r, Initial(before, 0), LateRun(r, token, verifier)).clock == r.ttl
  {
    var s := Initial(before, 0);
    var a, b, c, d, e := Start(token, 0), Tick(r.ttl), Complete(token, 0), StoreVerifier(verifier), InstallVerifier;
    LateChallenges(r, token, before);
    Extend(r, s, [], s, a, [a]);
    var s1 := s.(challenges := map[token := r.ttl], started := {token});
    Extend(r, s, [a], s1, b, [a, b]);
    var s2 := s1.(clock := r.ttl);
    Extend(r, s, [a, b], s2, c, [a, b, c]);
    var s3 := s2.(challenges := map[], lock := Consumed(Completion(token, 0, r.ttl)));
    Extend(r, s, [a, b, c], s3, d, [a, b, c, d]);
    var s4 := s3.(stored := Some(verifier), lock := Stored(Completion(token, 0, r.ttl), verifier));
    Extend(r, s, [a, b, c, d], s4, e, [a, b, c, d, e]);
  }

  /** The clock stood at or past this time at first, or a tick has taken it there. */
  predicate ClockReaches(clock: int, es: seq<Event>, time: int) {
    clock >= time || exists i :: 0 <= i < |es| && es[i].Tick? && es[i].now >= time
  }

  lemma ReachesOneMore(clock: int, es: seq<Event>, e: Event, time: int)
    ensures ClockReaches(clock, es + [e], time) <==> ClockReaches(clock, es, time) || (e.Tick? && e.now >= time)
  {
    var all := es + [e];
    assert all[|es|] == e && forall i :: 0 <= i < |es| ==> all[i] == es[i];
    if i :| 0 <= i < |es| && es[i].Tick? && es[i].now >= time {
      assert all[i].Tick? && all[i].now >= time;
    }
  }

  lemma StepMovesClock(r: Recovery, s: State, e: Event)
    requires IsRecovery(r) && Enabled(s, e)
    ensures Step(r, s, e).clock == if e.Tick? then e.now else s.clock
    ensures e.Tick? ==> e.now >= s.clock
  {
  }

  lemma {:induction false} ClockIsLatest(r: Recovery, verifier: string, clock: int, es: seq<Event>, time: int)
    requires IsRecovery(r) && IsRun(r, Initial(verifier, clock), es)
    ensures Play(r, Initial(verifier, clock), es).clock >= time <==> ClockReaches(clock, es, time)
  {
    hide Step, Enabled, IsRun, IsRecovery;
    if es != [] {
      var front, e := es[..|es| - 1], es[|es| - 1];
      RunEnds(r, Initial(verifier, clock), es);
      ClockIsLatest(r, verifier, clock, front, time);
      StepMovesClock(r, Play(r, Initial(verifier, clock), front), e);
      ReachesOneMore(clock, front, e, time);
    }
  }

  /**
   Over every run, a completion that replaces the session manager's verifier in its last step does so at or
   after the expiry of its challenge if and only if the clock stood there at first or some tick has reached it.
   */
  lemma EndsLateIff(r: Recovery, verifier: string, clock: int, es: seq<Event>)
    requires IsRecovery(r) && IsRun(r, Initial(verifier, clock), es) && Play(r, Initial(verifier, clock), es).lock.Stored?
    ensures var s := Play(r, Initial(verifier, clock), es);
            var t := Step(r, s, InstallVerifier);
            && t.completed == s.completed + [s.lock.call] && s.lock.call.began < s.lock.call.expiry
            && (t.clock >= s.lock.call.expiry <==> ClockReaches(clock, es, s.lock.call.expiry))
  {
    hide Play, IsRun;
    RunsAreSound(r, verifier, clock, es);
    ClockIsLatest(r, verifier, clock, es, Play(r, Initial(verifier, clock), es).lock.call.expiry);
  }

  lemma PlayAppend(r: Recovery, s: State, es: seq<Event>, e: Event)
    requires IsRecovery(r)
    ensures Play(r, s, es + [e]) == Step(r, Play(r, s, es), e)
  {
    assert (es + [e])[..|es|] == es;
  }

  /* The stored verifier */

  /** What the single row keeps when a transaction commits or fails. */
  class AdminPasswordStore {
    var row: Option<string>

    constructor (row: Option<string>)
      ensures this.row == row
    {
      this.row := row;
    }

    /** Stores a verifier only if there is none, and answers the one in force. */
    method InitializeIfMissing(verifier: string, commits: bool) returns (current: Option<string>)
      modifies this
      ensures current.Some? <==> ValidVerifier(verifier) && (old(row).Some? || commits)
      ensures current.Some? ==> row == current && row == if old(row).Some? then old(row) else Some(verifier)
      ensures current.None? ==> row == old(row)
    {
      if !ValidVerifier(verifier) {
        return None;
      }
      if row.Some? {
        return row;
      }
      if !commits {
        return None;
      }
      row := Some(verifier);
      current := row;
    }

    method Replace(verifier: string, commits: bool) returns (replaced: bool)
      modifies this
      ensures replaced <==> 0 < |verifier| <= 1024 && old(row).Some? && commits
      ensures row == if replaced then Some(verifier) else old(row)
    {
      if !ValidVerifier(verifier) || row.None? || !commits {
        return false;
      }
      row := Some(verifier);
      replaced := true;
    }
  }

  /* The recovery manager */

  predicate ValidPassword(password: string) {
    12 <= |password| <= 1024
  }

  /** The events of one whole call of `complete`, of which the first always happens. */
  function CompletionPlan(consumed: bool, replaced: bool, token: string, verifier: string, now: int): seq<Event> {
    if !consumed then [Complete(token, now)]
    else if !replaced then [Complete(token, now), FailToStore]
    else [Complete(token, now), StoreVerifier(verifier), InstallVerifier]
  }

  lemma PlanPlays(r: Recovery, s: State, consumed: bool, replaced: bool, token: string, verifier: string, now: int)
    requires IsRecovery(r)
    ensures Play(r, s, CompletionPlan(consumed, replaced, token, verifier, now)) ==
            var first := Step(r, s, Complete(token, now));
            if !consumed then first
            else if !replaced then Step(r, first, FailToStore)
            else Step(r, Step(r, first, StoreVerifier(verifier)), InstallVerifier)
  {
    var a, b, c := Complete(token, now), StoreVerifier(verifier), InstallVerifier;
    PlayAppend(r, s, [], a);
    assert [] + [a] == [a] && [a] + [FailToStore] == [a, FailToStore] && [a] + [b] == [a, b] && [a, b] + [c] == [a, b, c];
    PlayAppend(r, s, [a], FailToStore);
    PlayAppend(r, s, [a], b);
    PlayAppend(r, s, [a, b], c);
  }

  class PasswordRecoveryManager {
    const recovery: Recovery
    const store: AdminPasswordStore
    const sessions: Sessions.AdminSessionManager
    const hasher: string -> Option<string>
    var challenges: map<string, int>
    // Whether a desktop dialog is open; only one is at a time.
    var asking: bool
    ghost var started: set<string>
    ghost var completed: seq<Completion>

    ghost predicate Valid() {
      IsRecovery(recovery) && sessions.config == recovery.sessions
    }

    ghost function Contents(clock: int): State
      reads this, store, sessions
    {
      State(store.row, sessions.Contents(), challenges, Free, clock, started, completed)
    }

    constructor (recovery: Recovery, store: AdminPasswordStore, sessions: Sessions.AdminSessionManager,
                 hasher: string -> Option<string>)
      requires IsRecovery(recovery) && sessions.config == recovery.sessions
      ensures Valid() && this.store == store && this.sessions == sessions
      ensures challenges == map[] && started == {} && completed == [] && !asking
    {
      this.recovery, this.store, this.sessions, this.hasher := recovery, store, sessions, hasher;
      challenges, started, completed, asking := map[], {}, [], false;
    }

    /** The first half of a start: a call that finds a dialog open is refused at once. */
    method AskDesktop() returns (asked: bool)
      modifies this`asking
      ensures asked == !old(asking) && asking
    {
      asked := !asking;
      asking := true;
    }

    /** The second half: issues a challenge once the desktop has confirmed, unless too many are outstanding. */
    method StartRecovery(confirmed: bool, token: string, now: int) returns (issued: Option<string>)
      requires Valid() && asking
      modifies this
      ensures !asking
      ensures Contents(now) == if confirmed then Step(recovery, old(Contents(now)), Start(token, now)) else old(Contents(now))
      ensures issued.Some? <==> confirmed && |LiveChallenges(old(challenges), now)| < recovery.limit
      ensures issued.Some? ==> issued.value == token && token in challenges && challenges[token] == now + recovery.ttl
    {
      asking := false;
      if !confirmed {
        return None;
      }
      started := started + {token};
      challenges := LiveChallenges(challenges, now);
      if |challenges| >= recovery.limit {
        return None;
      }
      challenges := challenges[token := now + recovery.ttl];
      issued := Some(token);
    }

    /**
     A whole call with nothing between its steps: an unacceptable password or token changes nothing,
     an outstanding challenge is consumed whatever happens next, and the verifiers change only together.
     */
    method CompleteRecovery(token: string, newPassword: string, now: int, commits: bool) returns (done: bool)
      requires Valid()
      modifies this, store, sessions
      ensures asking == old(asking)
      ensures !ValidPassword(newPassword) || token == "" ==> !done && Contents(now) == old(Contents(now))
      ensures ValidPassword(newPassword) && token != "" ==> exists verifier ::
                Contents(now) == Play(recovery, old(Contents(now)),
                  CompletionPlan(IsOutstanding(old(challenges), token, now), done, token, verifier, now))
      ensures done <==> 12 <= |newPassword| <= 1024 && token != "" && IsOutstanding(old(challenges), token, now)
                        && hasher(newPassword).Some? && ValidVerifier(hasher(newPassword).value)
                        && old(store.row).Some? && commits
      ensures done ==> store.row == hasher(newPassword) == Some(sessions.verifier) && sessions.sessions == []
      ensures !done ==> store.row == old(store.row) && sessions.Contents() == old(sessions.Contents())
    {
      if !ValidPassword(newPassword) || token == "" {
        return false;
      }
      ghost var before := Contents(now);
      CompletesExactlyIf(before, token, now);
      challenges := LiveChallenges(challenges, now);
      if token !in challenges {
        PlanPlays(recovery, before, false, false, token, "", now);
        return false;
      }
      ghost var call := Completion(token, now, challenges[token]);
      challenges := challenges - {token};
      var verifier := hasher(newPassword);
      done := false;
      if verifier.Some? {
        done := store.Replace(verifier.value, commits);
      }
      if done {
        sessions.ReplacePasswordVerifier(verifier.value);
        completed := completed + [call];
      }
      PlanPlays(recovery, before, true, done, token, if verifier.Some? then verifier.value else "", now);
    }
  }
}
