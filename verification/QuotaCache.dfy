/**
 Throttled quota refreshes. Callers for one provider take turns at its lock, and callers for different
 providers run while each other's probes are out. The clock may step back.
 */
module QuotaCache {
  import opened Wrappers
  import Text
  import opened QuotaRows

  /** Times and durations are in one unit; neither duration is negative. */
  datatype Limits = Limits(ttl: int, minimum: int)

  predicate IsLimits(l: Limits) {
    l.ttl >= 0 && l.minimum >= 0
  }

  /** What a probe did: it raised, or it returned a list of snapshots. */
  datatype Probe = Raised | Answered(items: seq<Snapshot>)

  datatype Attempt = Attempt(provider: string, at: int)

  /** `probing` maps each provider whose lock is held through a probe to the time of that attempt. */
  datatype State = State(
    rows: seq<Snapshot>, lastAttempt: map<string, int>, probing: map<string, int>, attempts: seq<Attempt>)

  function Initial(rows: seq<Snapshot>): State {
    State(rows, map[], map[], [])
  }

  /** `stores` and `fallback` say whether the first and the second transaction of a refresh may commit. */
  datatype Event =
    | Enter(provider: string, force: bool, now: int)
    | Finish(provider: string, probe: Probe, stores: bool, fallback: bool)
    | Cancel(provider: string)

  predicate AllFresh(l: Limits, rows: seq<Snapshot>, now: int) {
    forall i :: 0 <= i < |rows| ==> now - rows[i].updatedAt <= l.ttl
  }

  predicate ServesCached(l: Limits, rows: seq<Snapshot>, provider: string, force: bool, now: int) {
    !force && OfProvider(rows, provider) != [] && AllFresh(l, OfProvider(rows, provider), now)
  }

  predicate TooSoon(l: Limits, lastAttempt: map<string, int>, provider: string, now: int) {
    provider in lastAttempt && now - lastAttempt[provider] < l.minimum
  }

  predicate Attempts(l: Limits, s: State, provider: string, force: bool, now: int) {
    !ServesCached(l, s.rows, provider, force, now) && !TooSoon(l, s.lastAttempt, provider, now)
  }

  function UnknownRow(provider: string, at: int): Snapshot {
    Snapshot(provider, "unknown", Unknown, "probe_failure", at, None, None, None, None, None, None, Some("probe_failed"))
  }

  /** A probe's answer can be stored if it is a non-empty list of this provider's valid snapshots. */
  predicate Usable(provider: string, probe: Probe) {
    && probe.Answered? && probe.items != []
    && CheckAll(VALIDATE, probe.items).Success? && AllOf(CheckAll(VALIDATE, probe.items).value, provider)
  }

  /** The answer of a refresh and the table it leaves; whatever goes wrong is replaced by an unknown row. */
  function AfterProbe(rows: seq<Snapshot>, provider: string, at: int, probe: Probe, stores: bool, fallback: bool): Written {
    if Usable(provider, probe) && WriteMany(rows, probe.items, stores).answer.Success? then WriteMany(rows, probe.items, stores)
    else WriteMany(rows, [UnknownRow(provider, at)], fallback)
  }

  function Step(l: Limits, s: State, e: Event): State {
    match e
    case Enter(p, force, now) =>
      if p in s.probing || !Attempts(l, s, p, force, now) then s
      else State(s.rows, s.lastAttempt[p := now], s.probing[p := now], s.attempts + [Attempt(p, now)])
    case Finish(p, probe, stores, fallback) =>
      if p !in s.probing then s
      else s.(rows := AfterProbe(s.rows, p, s.probing[p], probe, stores, fallback).rows, probing := s.probing - {p})
    case Cancel(p) => s.(probing := s.probing - {p})
  }

  function Play(l: Limits, s: State, es: seq<Event>): State
    decreases |es|
  {
    if es == [] then s else Step(l, Play(l, s, es[..|es| - 1]), es[|es| - 1])
  }

  /* Throttling */

  ghost predicate Spaced(l: Limits, attempts: seq<Attempt>) {
    forall i, j :: 0 <= i < j < |attempts| && attempts[i].provider == attempts[j].provider ==>
      attempts[j].at - attempts[i].at >= l.minimum
  }

  /** The latest attempt recorded is the latest by the clock as well. */
  ghost predicate Throttled(l: Limits, s: State) {
    && Spaced(l, s.attempts)
    && forall i :: 0 <= i < |s.attempts| ==>
         s.attempts[i].provider in s.lastAttempt && s.attempts[i].at <= s.lastAttempt[s.attempts[i].provider]
  }

  lemma StepKeepsThrottled(l: Limits, s: State, e: Event)
    requires IsLimits(l) && Throttled(l, s)
    ensures Throttled(l, Step(l, s, e))
  {
    if e.Enter? && e.provider !in s.probing && Attempts(l, s, e.provider, e.force, e.now) {
      EntryKeepsThrottled(l, s, e.provider, e.now);
    }
  }

  lemma EntryKeepsThrottled(l: Limits, s: State, provider: string, now: int)
    requires IsLimits(l) && Throttled(l, s) && !TooSoon(l, s.lastAttempt, provider, now)
    ensures Throttled(l, State(s.rows, s.lastAttempt[provider := now], s.probing[provider := now], s.attempts + [Attempt(provider, now)]))
  {
  }

  /**
   Under every interleaving, forced or not, any two recorded attempts for a provider are at least the
   minimum interval apart by their recorded times, in the order they were made, even if the clock steps back.
   */
  lemma {:induction false} AttemptsAreSpaced(l: Limits, rows: seq<Snapshot>, es: seq<Event>)
    requires l.ttl >= 0 && l.minimum >= 0
    ensures Throttled(l, Play(l, Initial(rows), es))
    ensures var attempts := Play(l, Initial(rows), es).attempts;
            forall i, j :: 0 <= i < j < |attempts| && attempts[i].provider == attempts[j].provider ==>
              attempts[j].at - attempts[i].at >= l.minimum
    decreases |es|
  {
    if es != [] {
      AttemptsAreSpaced(l, rows, es[..|es| - 1]);
      StepKeepsThrottled(l, Play(l, Initial(rows), es[..|es| - 1]), es[|es| - 1]);
    }
  }

  lemma {:induction false} RowsOfProvider(rows: seq<Snapshot>, provider: string)
    ensures forall row :: row in OfProvider(rows, provider) <==> row in rows && row.provider == provider
  {
    if rows != [] {
      RowsOfProvider(rows[1..], provider);
    }
  }

  /**
   A call whose provider has no probe out asks one exactly if the last was long enough ago and either it is forced,
   or nothing is stored for the provider, or something stored is older than the lifetime.
   */
  lemma ProbesIff(l: Limits, s: State, provider: string, force: bool, now: int)
    requires provider !in s.probing
    ensures var t := Step(l, s, Enter(provider, force, now));
            if && (provider in s.lastAttempt ==> now - s.lastAttempt[provider] >= l.minimum)
               && (force || (forall row :: row in s.rows ==> row.provider != provider)
                   || exists row :: row in s.rows && row.provider == provider && now - row.updatedAt > l.ttl)
            then t == State(s.rows, s.lastAttempt[provider := now], s.probing[provider := now], s.attempts + [Attempt(provider, now)])
            else t == s
  {
    var mine := OfProvider(s.rows, provider);
    RowsOfProvider(s.rows, provider);
    assert mine == [] <==> forall row :: row in s.rows ==> row.provider != provider by {
      if mine != [] {
        assert mine[0] in mine;
      }
    }
    assert AllFresh(l, mine, now) <==> forall row :: row in mine ==> now - row.updatedAt <= l.ttl;
  }

  /**
   A probe that ends or is cancelled gives up its turn, and stays counted as an attempt; one that is out keeps
   others waiting.
   */
  lemma TurnsAreTaken(l: Limits, s: State, e: Event)
    ensures var t := Step(l, s, e);
            && (e.Finish? || e.Cancel? ==>
                  t.probing == s.probing - {e.provider} && t.lastAttempt == s.lastAttempt && t.attempts == s.attempts)
            && (e.Enter? && e.provider in s.probing ==> t == s)
            && (!e.Finish? ==> t.rows == s.rows)
            && (e.Finish? && e.provider in s.probing ==>
                  t.rows == AfterProbe(s.rows, e.provider, s.probing[e.provider], e.probe, e.stores, e.fallback).rows)
            && (e.Finish? && e.provider !in s.probing ==> t == s)
  {
  }

  /* Refreshes */

  lemma SourceIsValid()
    ensures NAME("probe_failure") == Success("probe_failure")
  {
    SlugPasses("probe_failure");
  }

  lemma CategoryIsValid()
    ensures NAME("probe_failed") == Success("probe_failed")
  {
    SlugPasses("probe_failed");
  }

  lemma BucketIsValid()
    ensures Label(256)("unknown") == Success("unknown")
  {
    Text.SlugIsNormal("unknown");
    Text.StripOfStripped("unknown");
  }

  lemma FieldsPass(name: Check, id: Check, display: Check, window: Check, s: Snapshot)
    requires name(s.provider) == Success(s.provider) && id(s.bucketId) == Success(s.bucketId) && name(s.source) == Success(s.source)
    requires s.status.Unknown? && s.remaining.None? && s.used.None? && s.resetAt.None?
    requires s.groupDisplay.None? && s.bucketDisplay.None? && s.window.None?
    requires s.errorCategory.Some? && s.errorCategory.value != "" && name(s.errorCategory.value) == Success(s.errorCategory.value)
    ensures CheckFields(name, id, display, window, s) == Success(s)
  {
  }

  lemma UnknownIsValid(provider: string, at: int)
    requires Text.IsSlug(provider) && |provider| <= 128
    ensures CheckAll(VALIDATE, [UnknownRow(provider, at)]) == Success([UnknownRow(provider, at)])
  {
    SlugPasses(provider);
    SourceIsValid();
    CategoryIsValid();
    BucketIsValid();
    var row := UnknownRow(provider, at);
    FieldsPass(NAME, Label(256), Label(256), Label(128), row);
    SinglePasses(VALIDATE, row);
  }

  lemma SinglePasses(check: RowCheck, row: Snapshot)
    requires check(row) == Success(row)
    ensures CheckAll(check, [row]) == Success([row])
  {
    assert forall i :: 0 <= i < 1 ==> [row][i] == row;
    var all := CheckAll(check, [row]);
    assert all.Success? && check([row][0]) == Success(all.value[0]);
    assert all.value == [row];
  }

  /**
   Why a refresh keeps the probe's snapshots: there are some, each is valid and for this provider, no bucket comes
   twice and the transaction commits.
   */
  predicate KeepsProbe(provider: string, probe: Probe, stores: bool) {
    && probe.Answered? && probe.items != [] && stores
    && (forall i :: 0 <= i < |probe.items| ==> Validate(probe.items[i]).Success? && Validate(probe.items[i]).value.provider == provider)
    && (forall i, j :: 0 <= i < j < |probe.items| ==>
          Validate(probe.items[i]).value.bucketId != Validate(probe.items[j]).value.bucketId)
  }

  /** The snapshots of a probe in stored form. */
  function Validated(items: seq<Snapshot>): seq<Snapshot>
    requires forall i :: 0 <= i < |items| ==> Validate(items[i]).Success?
  {
    seq(|items|, i requires 0 <= i < |items| => Validate(items[i]).value)
  }

  lemma KeptIsUsable(provider: string, probe: Probe, stores: bool)
    ensures KeepsProbe(provider, probe, stores) <==>
              Usable(provider, probe) && DistinctBuckets(CheckAll(VALIDATE, probe.items).value) && stores
    ensures KeepsProbe(provider, probe, stores) ==> CheckAll(VALIDATE, probe.items).value == Validated(probe.items)
  {
    hide Validate;
    if probe.Answered? {
      assert forall i :: 0 <= i < |probe.items| ==> VALIDATE(probe.items[i]) == Validate(probe.items[i]);
    }
  }

  /**
   A refresh leaves its provider with exactly the probe's validated snapshots, or else with one unknown
   row, or, only if the second transaction fails too, with the rows it had; other providers keep theirs.
   It answers what it has stored, and fails only in the last case.
   */
  lemma RefreshLeaves(rows: seq<Snapshot>, provider: string, at: int, probe: Probe, stores: bool, fallback: bool, other: string)
    requires Text.IsSlug(provider) && |provider| <= 128
    ensures var w := AfterProbe(rows, provider, at, probe, stores, fallback);
            && OfProvider(w.rows, provider) == (
                 if KeepsProbe(provider, probe, stores) then Validated(probe.items)
                 else if fallback then
                   [Snapshot(provider, "unknown", Unknown, "probe_failure", at, None, None, None, None, None, None, Some("probe_failed"))]
                 else OfProvider(rows, provider))
            && (w.answer.Success? <==> KeepsProbe(provider, probe, stores) || fallback)
            && (w.answer.Success? ==> w.answer.value == OfProvider(w.rows, provider))
            && (other != provider ==> OfProvider(w.rows, other) == OfProvider(rows, other))
  {
    hide Validate;
    KeptIsUsable(provider, probe, stores);
    UnknownIsValid(provider, at);
    WriteValidReplaces(rows, [UnknownRow(provider, at)], fallback, other);
    if Usable(provider, probe) {
      WriteValidReplaces(rows, CheckAll(VALIDATE, probe.items).value, stores, other);
    }
  }

  /** Only the end of a refresh for a provider changes its rows. */
  lemma OthersLeaveRows(l: Limits, s: State, e: Event, provider: string)
    requires e.Finish? ==> e.provider != provider && Text.IsSlug(e.provider) && |e.provider| <= 128
    ensures OfProvider(Step(l, s, e).rows, provider) == OfProvider(s.rows, provider)
  {
    if e.Finish? && e.provider in s.probing {
      RefreshLeaves(s.rows, e.provider, s.probing[e.provider], e.probe, e.stores, e.fallback, provider);
    }
  }

  ghost predicate NamesAreValid(es: seq<Event>) {
    forall i :: 0 <= i < |es| ==> Text.IsSlug(es[i].provider) && |es[i].provider| <= 128
  }

  /** A provider's rows stay as its last refresh left them, whatever else happens. */
  lemma {:induction false} RowsAreOfLastRefresh(l: Limits, s: State, es: seq<Event>, k: nat, provider: string)
    requires k <= |es| && NamesAreValid(es)
    requires forall i :: k <= i < |es| && es[i].Finish? ==> es[i].provider != provider
    ensures OfProvider(Play(l, s, es).rows, provider) == OfProvider(Play(l, s, es[..k]).rows, provider)
    decreases |es|
  {
    if k == |es| {
      assert es[..k] == es;
    } else {
      var front := es[..|es| - 1];
      assert front[..k] == es[..k];
      assert forall i :: 0 <= i < |front| ==> front[i] == es[i];
      RowsAreOfLastRefresh(l, s, front, k, provider);
      OthersLeaveRows(l, Play(l, s, front), es[|es| - 1], provider);
    }
  }

  /** Every run keeps the table valid, so what is read back is always in stored form and consistent. */
  lemma {:induction false} TableStaysValid(l: Limits, rows: seq<Snapshot>, es: seq<Event>)
    requires TableIsValid(VALIDATE, rows)
    ensures TableIsValid(VALIDATE, Play(l, Initial(rows), es).rows)
    ensures forall i :: 0 <= i < |Play(l, Initial(rows), es).rows| ==> IsConsistent(Play(l, Initial(rows), es).rows[i])
    decreases |es|
  {
    hide IsConsistent;
    if es != [] {
      TableStaysValid(l, rows, es[..|es| - 1]);
      var s, e := Play(l, Initial(rows), es[..|es| - 1]), es[|es| - 1];
      if e.Finish? && e.provider in s.probing {
        WriteKeepsTableValid(s.rows, [UnknownRow(e.provider, s.probing[e.provider])], e.fallback);
        if e.probe.Answered? {
          WriteKeepsTableValid(s.rows, e.probe.items, e.stores);
        }
      }
    }
    TableIsConsistent(Play(l, Initial(rows), es).rows);
  }

  /* The cache */

  class QuotaCache {
    const limits: Limits
    const store: QuotaStore
    var lastAttempt: map<string, int>
    ghost var attempts: seq<Attempt>

    ghost function Contents(): State
      reads this, store
    {
      State(store.rows, lastAttempt, map[], attempts)
    }

    constructor (limits: Limits, store: QuotaStore)
      requires IsLimits(limits)
      ensures this.limits == limits && this.store == store && Contents() == Initial(store.rows)
    {
      this.limits, this.store, lastAttempt, attempts := limits, store, map[], [];
    }

    /** The rest of a call once its attempt is recorded; `None` if storing failed twice. */
    method Settle(provider: string, at: int, probe: Probe, stores: bool, fallback: bool)
      returns (answer: Result<seq<Snapshot>, QuotaError>)
      modifies store
      ensures Written(answer, store.rows) == AfterProbe(old(store.rows), provider, at, probe, stores, fallback)
    {
      if Usable(provider, probe) {
        answer := store.WriteRows(probe.items, stores);
        if answer.Success? {
          return;
        }
      }
      answer := store.WriteRows([UnknownRow(provider, at)], fallback);
    }

    /** A whole call with nothing between its steps; `early` is its clock reading before the lock. */
    method GetOrRefresh(name: string, force: bool, early: int, now: int, probe: string -> Probe, stores: bool, fallback: bool)
      returns (answer: Result<seq<Snapshot>, QuotaError>)
      modifies this, store
      ensures NAME(name).Failure? ==> answer == Failure(Invalid) && Contents() == old(Contents())
      ensures NAME(name).Success? && ServesCached(limits, old(store.rows), NAME(name).value, force, early) ==>
                answer == Success(OfProvider(old(store.rows), NAME(name).value)) && Contents() == old(Contents())
      ensures NAME(name).Success? && !ServesCached(limits, old(store.rows), NAME(name).value, force, early) ==>
                var p := NAME(name).value;
                && Contents() == Step(limits, Step(limits, old(Contents()), Enter(p, force, now)), Finish(p, probe(p), stores, fallback))
                && answer == if Attempts(limits, old(Contents()), p, force, now)
                             then AfterProbe(old(store.rows), p, now, probe(p), stores, fallback).answer
                             else Success(OfProvider(old(store.rows), p))
    {
      var valid := NAME(name);
      if valid.Failure? {
        return Failure(Invalid);
      }
      var provider := valid.value;
      var cached := OfProvider(store.rows, provider);
      if ServesCached(limits, store.rows, provider, force, early) {
        return Success(cached);
      }
      if ServesCached(limits, store.rows, provider, force, now) || TooSoon(limits, lastAttempt, provider, now) {
        return Success(cached);
      }
      lastAttempt := lastAttempt[provider := now];
      attempts := attempts + [Attempt(provider, now)];
      answer := Settle(provider, now, probe(provider), stores, fallback);
      assert map[provider := now] - {provider} == map[];
    }
  }
}
