/** The model registry: its two tables and the transactions on them. */
module ModelRegistry {
  import opened Wrappers
  import opened Text
  import opened ModelCatalogue

  /** The validation loop, with the set of identifiers seen so far. */
  method CheckModels<E>(checks: Checks<E>, listing: seq<DiscoveredModel>) returns (r: Result<seq<DiscoveredModel>, E>)
    ensures r == CheckListing(checks, listing)
  {
    var validated := [];
    var seen: set<string> := {};
    for i := 0 to |listing|
      invariant CheckListing(checks, listing[..i]) == Success(validated)
      invariant forall u :: u in seen <==> Lists(validated, u)
    {
      assert listing[..i + 1][..i] == listing[..i];
      var id := checks.id(listing[i].upstreamId);
      if id.Failure? || id.value in seen {
        CheckFails(checks, listing, i + 1);
        return Failure(if id.Failure? then id.error else checks.repeated);
      }
      var name := checks.name(listing[i].displayName);
      if name.Failure? {
        CheckFails(checks, listing, i + 1);
        return Failure(name.error);
      }
      SeenIsListed(validated, seen, DiscoveredModel(id.value, name.value));
      seen := seen + {id.value};
      validated := validated + [DiscoveredModel(id.value, name.value)];
    }
    assert listing[..|listing|] == listing;
    r := Success(validated);
  }

  method CheckCatalogue(listing: seq<DiscoveredModel>) returns (r: Result<seq<DiscoveredModel>, RegistryError>)
    ensures r == ValidateModels(listing)
  {
    r := CheckModels(NORMALISE, listing);
  }

  lemma SeenIsListed(validated: seq<DiscoveredModel>, seen: set<string>, model: DiscoveredModel)
    requires forall u :: u in seen <==> Lists(validated, u)
    ensures forall u :: u in seen + {model.upstreamId} <==> Lists(validated + [model], u)
  {
    var longer := validated + [model];
    assert longer[|validated|] == model && forall k :: 0 <= k < |validated| ==> longer[k] == validated[k];
    forall u ensures u in seen + {model.upstreamId} <==> Lists(longer, u) {
      if Lists(validated, u) {
        var k :| 0 <= k < |validated| && validated[k].upstreamId == u;
        assert longer[k].upstreamId == u;
      }
    }
  }

  lemma {:induction false} CheckFails<E>(checks: Checks<E>, listing: seq<DiscoveredModel>, n: nat)
    requires n <= |listing| && CheckListing(checks, listing[..n]).Failure?
    ensures CheckListing(checks, listing) == CheckListing(checks, listing[..n])
    decreases |listing| - n
  {
    if n < |listing| {
      assert listing[..n + 1][..n] == listing[..n];
      CheckFails(checks, listing, n + 1);
    } else {
      assert listing[..n] == listing;
    }
  }

  class ModelRegistry {
    var models: map<string, ModelRow>
    var states: map<string, StateRow>

    function Contents(): Tables
      reads this
    {
      Tables(models, states)
    }

    constructor ()
      ensures Contents() == EMPTY
    {
      models, states := map[], map[];
    }

    method UpsertDiscoveryState(provider: string, row: StateRow)
      modifies this`states
      ensures states == old(states)[provider := row]
    {
      states := states[provider := row];
    }

    /** Marks all the provider's models unavailable, then inserts or updates the listed ones one by one. */
    method StoreCatalogue(provider: string, ms: seq<DiscoveredModel>, at: int)
      requires IsSlug(provider) && IsCatalogue(ms)
      modifies this
      ensures models == Refreshed(old(models), provider, ms, at)
      ensures states == old(states)[provider := StateRow(Available, Some(at), at, None)]
    {
      ghost var before := models;
      models := MarkUnavailable(models, provider);
      assert ms[..0] == [];
      for i := 0 to |ms|
        invariant models == Refreshed(before, provider, ms[..i], at)
        invariant states == old(states)
      {
        ghost var done := ms[..i + 1];
        assert done[..|done| - 1] == ms[..i] && done[|done| - 1] == ms[i];
        NormalsAreFixed(provider, ms[i].upstreamId);
        var id := CanonicalModelId(provider, ms[i].upstreamId).value;
        models := models[id := ModelRow(provider, ms[i].upstreamId, ms[i].displayName, AliasAt(models, id), true, at)];
        assert models == Refreshed(before, provider, done, at);
      }
      assert ms[..|ms|] == ms;
      UpsertDiscoveryState(provider, StateRow(Available, Some(at), at, None));
    }

    method RefreshSuccess(provider: string, listing: seq<DiscoveredModel>, at: int) returns (r: Result<(), RegistryError>)
      modifies this
      ensures Contents() == AfterRefresh(old(Contents()), provider, listing, at)
      ensures r.Success? <==> AcceptsListing(provider, listing) && listing != []
    {
      var p := NormaliseProvider(provider);
      if p.Failure? {
        return Failure(p.error);
      }
      var ms := CheckCatalogue(listing);
      if ms.Failure? {
        return Failure(ms.error);
      }
      if ms.value == [] {
        StoreFailure(p.value, EmptyCatalog, at);
        return Failure(EmptyCatalogue);
      }
      StoreCatalogue(p.value, ms.value, at);
      r := Success(());
    }

    /** A catalogue configured by hand: stored like a discovery, but the last success stays what it was. */
    method RefreshConfigured(provider: string, listing: seq<DiscoveredModel>, at: int) returns (r: Result<(), RegistryError>)
      modifies this
      ensures Contents() == AfterConfigure(old(Contents()), provider, listing, at)
      ensures r.Success? <==> AcceptsListing(provider, listing) && listing != []
    {
      var p := NormaliseProvider(provider);
      if p.Failure? {
        return Failure(p.error);
      }
      var ms := CheckCatalogue(listing);
      if ms.Failure? {
        return Failure(ms.error);
      }
      if ms.value == [] {
        return Failure(EmptyCatalogue);
      }
      StoreConfigured(p.value, ms.value, at);
      r := Success(());
    }

    method StoreConfigured(provider: string, ms: seq<DiscoveredModel>, at: int)
      requires IsSlug(provider) && IsCatalogue(ms)
      modifies this
      ensures models == Refreshed(old(models), provider, ms, at)
      ensures states == old(states)[provider := StateRow(Stale, LastSuccess(old(Contents()), provider), at, Some(NotVerified))]
    {
      var previous := LastSuccess(Contents(), provider);
      StoreCatalogue(provider, ms, at);
      UpsertDiscoveryState(provider, StateRow(Stale, previous, at, Some(NotVerified)));
    }

    method StoreFailure(provider: string, category: Category, at: int)
      modifies this`states
      ensures Contents() == RecordedFailure(old(Contents()), provider, category, at)
    {
      var previous := LastSuccess(Contents(), provider);
      UpsertDiscoveryState(provider, StateRow(Stale, previous, at, Some(category)));
    }

    method RecordFailure(provider: string, category: string, at: int) returns (r: Result<(), RegistryError>)
      modifies this`states
      ensures Contents() == AfterFailure(old(Contents()), provider, category, at)
      ensures r.Success? <==> NormaliseProvider(provider).Success? && IsSlug(Lower(Strip(category)))
    {
      var p := NormaliseProvider(provider);
      if p.Failure? || !IsSlug(Lower(Strip(category))) {
        return Failure(Invalid);
      }
      StoreFailure(p.value, Reported(Lower(Strip(category))), at);
      r := Success(());
    }

    method AssignAlias(id: string, alias: Option<string>) returns (r: Result<ModelRecord, RegistryError>)
      requires WellFormed(Contents())
      modifies this`models
      ensures Contents() == AfterAlias(old(Contents()), id, alias)
      ensures r.Success? <==> CanSetAlias(old(Contents()), id, alias)
      ensures r.Success? ==> RecordOf(Contents(), NormaliseCanonicalId(id).value) == Some(r.value)
    {
      var key := NormaliseCanonicalId(id);
      if key.Failure? {
        return Failure(key.error);
      }
      var normal := NormaliseOptional(alias);
      if normal.Failure? {
        return Failure(normal.error);
      }
      if normal.value.Some? {
        if other :| other in models && other != key.value && models[other].alias == normal.value {
          return Failure(AliasTaken);
        }
      }
      if key.value !in models {
        return Failure(UnknownModel);
      }
      models := models[key.value := models[key.value].(alias := normal.value)];
      r := Success(ModelRecord(key.value, models[key.value], states[models[key.value].provider]));
    }

    method ResolveModel(identifier: string) returns (r: Result<Option<ModelRecord>, RegistryError>)
      requires WellFormed(Contents())
      ensures r == Resolve(Contents(), identifier)
    {
      var t := Contents();
      var lookup := NormaliseText(identifier);
      if lookup.Failure? {
        return Failure(lookup.error);
      }
      var canonical := NormaliseCanonicalId(lookup.value);
      if canonical.Success? && RecordOf(t, canonical.value).Some? {
        return Success(RecordOf(t, canonical.value));
      }
      var record := FindByAlias(lookup.value);
      r := Success(record);
    }

    method FindByAlias(alias: string) returns (r: Option<ModelRecord>)
      requires WellFormed(Contents())
      ensures r == ByAlias(Contents(), alias)
    {
      var t := Contents();
      if id :| id in t.models && HasAlias(t, id, alias) {
        ByAliasIsUnique(t, alias, id);
        r := RecordOf(t, id);
      } else {
        r := None;
      }
    }
  }
}
