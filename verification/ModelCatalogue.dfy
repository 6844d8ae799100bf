/** Identifiers of the model registry and what its operations mean for the two tables. */
module ModelCatalogue {
  import opened Wrappers
  import opened Text

  datatype RegistryError = Invalid | Duplicate | EmptyCatalogue | AliasTaken | UnknownModel

  /* Identifiers */

  function NormaliseProvider(provider: string): (r: Result<string, RegistryError>)
    ensures r.Success? ==> IsSlug(r.value)
  {
    var normal := Lower(Strip(provider));
    if IsSlug(normal) then Success(normal) else Failure(Invalid)
  }

  predicate IsSafeText(s: string) {
    s != [] && |s| <= 512 && !HasControl(s)
  }

  /** Upstream identifiers and lookup identifiers. */
  function NormaliseText(s: string): (r: Result<string, RegistryError>)
    ensures r.Success? ==> IsNormalId(r.value)
  {
    StripIsStripped(s);
    if IsSafeText(Strip(s)) then Success(Strip(s)) else Failure(Invalid)
  }

  /** What is accepted, and what it becomes. */
  lemma TextIsNormalised(s: string)
    ensures NormaliseText(s).Success? <==>
              !AllSpace(s) && |Strip(s)| <= 512 && forall i :: 0 <= i < |Strip(s)| ==> Strip(s)[i] >= ' ' && Strip(s)[i] != '\U{7f}'
    ensures NormaliseText(s).Success? ==> NormaliseText(s).value == Strip(s)
    ensures NormaliseOptional(Some(s)) == if AllSpace(s) then Success(None)
                                          else if NormaliseText(s).Success? then Success(Some(Strip(s))) else Failure(Invalid)
  {
    StripIsEmptyIff(s);
  }

  /** Neither case nor the white space around it makes another provider. */
  lemma ProviderIsNormalised(a: string, name: string, b: string)
    requires AllSpace(a) && AllSpace(b) && Stripped(name)
    ensures NormaliseProvider(a + name + b).Success? <==> IsSlug(Lower(name))
    ensures NormaliseProvider(a + name + b).Success? ==> NormaliseProvider(a + name + b).value == Lower(name)
  {
    StripIs(a, name, b);
  }

  /** Display names and aliases, where blank means absent. */
  function NormaliseOptional(s: Option<string>): Result<Option<string>, RegistryError> {
    if s.None? || Strip(s.value) == [] then Success(None)
    else
      var normal :- NormaliseText(s.value);
      Success(Some(normal))
  }

  function CanonicalModelId(provider: string, upstreamId: string): Result<string, RegistryError> {
    var p :- NormaliseProvider(provider);
    var u :- NormaliseText(upstreamId);
    Success(Join(p, u))
  }

  function Join(provider: string, upstreamId: string): string {
    provider + "/" + upstreamId
  }

  function FirstSlash(s: string): (i: nat)
    requires '/' in s
    ensures i < |s| && s[i] == '/' && '/' !in s[..i]
  {
    if s[0] == '/' then 0
    else
      assert s == [s[0]] + s[1..];
      var i := FirstSlash(s[1..]);
      assert s[..i + 1] == [s[0]] + s[1..][..i];
      i + 1
  }

  function NormaliseCanonicalId(id: string): Result<string, RegistryError> {
    if '/' !in id then Failure(Invalid)
    else CanonicalModelId(id[..FirstSlash(id)], id[FirstSlash(id) + 1..])
  }

  predicate IsNormalId(u: string) {
    Stripped(u) && IsSafeText(u)
  }

  lemma NormalsAreFixed(p: string, u: string)
    requires IsSlug(p) && IsNormalId(u)
    ensures NormaliseProvider(p) == Success(p) && NormaliseText(u) == Success(u)
    ensures CanonicalModelId(p, u) == Success(Join(p, u))
  {
    SlugIsNormal(p);
    StripOfStripped(p);
    StripOfStripped(u);
  }

  lemma JoinSplits(p: string, u: string)
    requires IsSlug(p)
    ensures '/' in Join(p, u) && FirstSlash(Join(p, u)) == |p|
    ensures Join(p, u)[..|p|] == p && Join(p, u)[|p| + 1..] == u
  {
    SlugIsNormal(p);
    var id := Join(p, u);
    assert id[|p|] == '/' && id[..|p|] == p && id[|p| + 1..] == u;
    assert forall k :: 0 <= k < |p| ==> id[k] == p[k];
  }

  /** Provider and upstream identifier can be read back from the canonical one, even when the latter contains a slash. */
  lemma CanonicalIsInjective(p: string, u: string, q: string, w: string)
    requires IsSlug(p) && IsSlug(q) && Join(p, u) == Join(q, w)
    ensures p == q && u == w
  {
    JoinSplits(p, u);
    JoinSplits(q, w);
  }

  /** Normalising a canonical identifier again gives the same identifier. */
  lemma RenormalisingIsIdentity(provider: string, upstreamId: string)
    requires CanonicalModelId(provider, upstreamId).Success?
    ensures var id := CanonicalModelId(provider, upstreamId).value; NormaliseCanonicalId(id) == Success(id)
  {
    var p, u := NormaliseProvider(provider).value, NormaliseText(upstreamId).value;
    JoinSplits(p, u);
    NormalsAreFixed(p, u);
  }

  /* Tables */

  datatype DiscoveryState = Available | Stale

  datatype DiscoveredModel = DiscoveredModel(upstreamId: string, displayName: Option<string>)

  datatype ModelRow = ModelRow(
    provider: string, upstreamId: string, displayName: Option<string>,
    alias: Option<string>, available: bool, discoveredAt: int)

  /** `EmptyCatalog` and `NotVerified` are the categories that the registry itself records. */
  datatype Category = EmptyCatalog | NotVerified | Reported(name: string)

  datatype StateRow = StateRow(
    state: DiscoveryState, lastSuccess: Option<int>, lastAttempt: int, error: Option<Category>)

  /** Model rows by canonical identifier, discovery rows by provider. */
  datatype Tables = Tables(models: map<string, ModelRow>, states: map<string, StateRow>)

  /* Catalogues */

  predicate Lists(ms: seq<DiscoveredModel>, upstreamId: string) {
    exists i :: 0 <= i < |ms| && ms[i].upstreamId == upstreamId
  }

  /** How one model of a listing is checked: its identifier, then against the models before it, then its name. */
  datatype Checks<E> = Checks(id: string -> Result<string, E>, name: Option<string> -> Result<Option<string>, E>, repeated: E)

  const NORMALISE := Checks(s => NormaliseText(s), s => NormaliseOptional(s), Duplicate)

  /** Every model passes the checks, and no upstream identifier comes twice; the first error counts. */
  function CheckListing<E>(checks: Checks<E>, ms: seq<DiscoveredModel>): (r: Result<seq<DiscoveredModel>, E>)
    ensures r.Success? ==> |r.value| == |ms|
    ensures r.Success? ==> forall i :: 0 <= i < |ms| ==>
              && checks.id(ms[i].upstreamId) == Success(r.value[i].upstreamId)
              && checks.name(ms[i].displayName) == Success(r.value[i].displayName)
  {
    if ms == [] then Success([])
    else
      var m := ms[|ms| - 1];
      var front :- CheckListing(checks, ms[..|ms| - 1]);
      var id :- checks.id(m.upstreamId);
      if Lists(front, id) then Failure(checks.repeated)
      else
        var name :- checks.name(m.displayName);
        Success(front + [DiscoveredModel(id, name)])
  }

  lemma {:induction false} CheckedAreDistinct<E>(checks: Checks<E>, ms: seq<DiscoveredModel>)
    requires CheckListing(checks, ms).Success?
    ensures var r := CheckListing(checks, ms).value;
            forall i, j :: 0 <= i < j < |r| ==> r[i].upstreamId != r[j].upstreamId
  {
    if ms != [] {
      CheckedAreDistinct(checks, ms[..|ms| - 1]);
      assert CheckListing(checks, ms).value[..|ms| - 1] == CheckListing(checks, ms[..|ms| - 1]).value;
    }
  }

  /** A listing is accepted exactly if each of its models is and no two of them come to the same identifier. */
  lemma {:induction false} CheckSucceedsIff<E>(checks: Checks<E>, ms: seq<DiscoveredModel>)
    ensures CheckListing(checks, ms).Success? <==>
              && (forall i :: 0 <= i < |ms| ==> checks.id(ms[i].upstreamId).Success? && checks.name(ms[i].displayName).Success?)
              && (forall i, j :: 0 <= i < j < |ms| ==> checks.id(ms[i].upstreamId) != checks.id(ms[j].upstreamId))
  {
    if ms != [] {
      var front, last := ms[..|ms| - 1], ms[|ms| - 1];
      CheckSucceedsIff(checks, front);
      assert forall i :: 0 <= i < |front| ==> front[i] == ms[i];
      if CheckListing(checks, front).Success? && checks.id(last.upstreamId).Success? {
        var id := checks.id(last.upstreamId).value;
        assert Lists(CheckListing(checks, front).value, id)
          <==> exists i :: 0 <= i < |front| && checks.id(ms[i].upstreamId) == checks.id(last.upstreamId);
      }
    }
  }

  /** What one set of checks accepts passes the other unchanged. */
  ghost predicate Agree<E, F>(checks: Checks<E>, other: Checks<F>) {
    && (forall s :: checks.id(s).Success? ==> other.id(checks.id(s).value) == Success(checks.id(s).value))
    && (forall s :: checks.name(s).Success? ==> other.name(checks.name(s).value) == Success(checks.name(s).value))
  }

  lemma {:induction false} CheckedPasses<E, F>(checks: Checks<E>, other: Checks<F>, ms: seq<DiscoveredModel>)
    requires Agree(checks, other) && CheckListing(checks, ms).Success?
    ensures CheckListing(other, CheckListing(checks, ms).value) == Success(CheckListing(checks, ms).value)
  {
    if ms != [] {
      var front, last := ms[..|ms| - 1], ms[|ms| - 1];
      CheckedPasses(checks, other, front);
      var r := CheckListing(checks, ms).value;
      assert r[..|r| - 1] == CheckListing(checks, front).value;
      assert r[|r| - 1] == DiscoveredModel(checks.id(last.upstreamId).value, checks.name(last.displayName).value);
    }
  }

  lemma CheckedIsCatalogue(ms: seq<DiscoveredModel>)
    requires CheckListing(NORMALISE, ms).Success?
    ensures IsCatalogue(CheckListing(NORMALISE, ms).value)
  {
    var r := CheckListing(NORMALISE, ms).value;
    CheckedAreDistinct(NORMALISE, ms);
    forall i | 0 <= i < |r| ensures IsNormalId(r[i].upstreamId) {
      assert NormaliseText(ms[i].upstreamId) == Success(r[i].upstreamId);
    }
  }

  /** The validated catalogue: every model normalised, no upstream identifier twice. */
  function ValidateModels(ms: seq<DiscoveredModel>): (r: Result<seq<DiscoveredModel>, RegistryError>)
    ensures r.Success? ==> |r.value| == |ms| && IsCatalogue(r.value)
  {
    var r := CheckListing(NORMALISE, ms);
    assert r.Success? ==> IsCatalogue(r.value) by {
      if r.Success? {
        CheckedIsCatalogue(ms);
      }
    }
    r
  }

  predicate IsCatalogue(ms: seq<DiscoveredModel>) {
    && (forall i :: 0 <= i < |ms| ==> IsNormalId(ms[i].upstreamId))
    && (forall i, j :: 0 <= i < j < |ms| ==> ms[i].upstreamId != ms[j].upstreamId)
  }

  /** The catalogue entry with this canonical identifier. */
  function Entry(provider: string, ms: seq<DiscoveredModel>, id: string): Option<DiscoveredModel> {
    if ms == [] then None
    else if Join(provider, ms[|ms| - 1].upstreamId) == id then Some(ms[|ms| - 1])
    else Entry(provider, ms[..|ms| - 1], id)
  }

  function Ids(provider: string, ms: seq<DiscoveredModel>): set<string> {
    if ms == [] then {} else Ids(provider, ms[..|ms| - 1]) + {Join(provider, ms[|ms| - 1].upstreamId)}
  }

  lemma {:induction false} EntryFinds(provider: string, ms: seq<DiscoveredModel>, id: string)
    ensures Entry(provider, ms, id).Some? <==> id in Ids(provider, ms)
    ensures Entry(provider, ms, id).Some? ==>
              Entry(provider, ms, id).value in ms && Join(provider, Entry(provider, ms, id).value.upstreamId) == id
  {
    if ms != [] {
      EntryFinds(provider, ms[..|ms| - 1], id);
    }
  }

  /** A catalogue has as many canonical identifiers as entries. */
  lemma {:induction false} IdsAreMany(provider: string, ms: seq<DiscoveredModel>)
    requires IsSlug(provider) && IsCatalogue(ms)
    ensures |Ids(provider, ms)| == |ms|
  {
    if ms != [] {
      var front, last := ms[..|ms| - 1], ms[|ms| - 1];
      IdsAreMany(provider, front);
      EntryFinds(provider, front, Join(provider, last.upstreamId));
      if Join(provider, last.upstreamId) in Ids(provider, front) {
        var same := Entry(provider, front, Join(provider, last.upstreamId)).value;
        CanonicalIsInjective(provider, same.upstreamId, provider, last.upstreamId);
      }
    }
  }

  function MarkUnavailable(models: map<string, ModelRow>, provider: string): map<string, ModelRow> {
    map id | id in models :: if models[id].provider == provider then models[id].(available := false) else models[id]
  }

  function AliasAt(models: map<string, ModelRow>, id: string): Option<string> {
    if id in models then models[id].alias else None
  }

  /** The model rows after a refresh: all of the provider's marked unavailable, then the listed ones upserted in turn. */
  function Refreshed(models: map<string, ModelRow>, provider: string, ms: seq<DiscoveredModel>, at: int)
    : map<string, ModelRow>
  {
    if ms == [] then MarkUnavailable(models, provider)
    else
      var m := ms[|ms| - 1];
      var before := Refreshed(models, provider, ms[..|ms| - 1], at);
      var id := Join(provider, m.upstreamId);
      before[id := ModelRow(provider, m.upstreamId, m.displayName, AliasAt(before, id), true, at)]
  }

  /* Operations */

  datatype Op =
    | Refresh(provider: string, listing: seq<DiscoveredModel>, at: int)
    | Configure(provider: string, listing: seq<DiscoveredModel>, at: int)
    | Fail(provider: string, category: string, at: int)
    | SetAlias(id: string, alias: Option<string>)

  predicate AcceptsListing(provider: string, listing: seq<DiscoveredModel>) {
    NormaliseProvider(provider).Success? && ValidateModels(listing).Success?
  }

  function LastSuccess(t: Tables, provider: string): Option<int> {
    if provider in t.states then t.states[provider].lastSuccess else None
  }

  function RecordedFailure(t: Tables, provider: string, category: Category, at: int): Tables {
    t.(states := t.states[provider := StateRow(Stale, LastSuccess(t, provider), at, Some(category))])
  }

  function AfterRefresh(t: Tables, provider: string, listing: seq<DiscoveredModel>, at: int): Tables {
    if !AcceptsListing(provider, listing) then t
    else
      var p, ms := NormaliseProvider(provider).value, ValidateModels(listing).value;
      if ms == [] then RecordedFailure(t, p, EmptyCatalog, at)
      else Tables(Refreshed(t.models, p, ms, at), t.states[p := StateRow(Available, Some(at), at, None)])
  }

  function AfterConfigure(t: Tables, provider: string, listing: seq<DiscoveredModel>, at: int): Tables {
    if !AcceptsListing(provider, listing) || listing == [] then t
    else
      var p, ms := NormaliseProvider(provider).value, ValidateModels(listing).value;
      Tables(Refreshed(t.models, p, ms, at), t.states[p := StateRow(Stale, LastSuccess(t, p), at, Some(NotVerified))])
  }

  function AfterFailure(t: Tables, provider: string, category: string, at: int): Tables {
    if NormaliseProvider(provider).Success? && IsSlug(Lower(Strip(category))) then
      RecordedFailure(t, NormaliseProvider(provider).value, Reported(Lower(Strip(category))), at)
    else t
  }

  function AfterAlias(t: Tables, id: string, alias: Option<string>): Tables {
    if CanSetAlias(t, id, alias) then
      var key := NormaliseCanonicalId(id).value;
      t.(models := t.models[key := t.models[key].(alias := NormaliseOptional(alias).value)])
    else t
  }

  /** An operation that raises leaves the tables alone, except that an empty discovery is recorded as a failure. */
  function Apply(t: Tables, op: Op): Tables {
    match op
    case Refresh(provider, listing, at) => AfterRefresh(t, provider, listing, at)
    case Configure(provider, listing, at) => AfterConfigure(t, provider, listing, at)
    case Fail(provider, category, at) => AfterFailure(t, provider, category, at)
    case SetAlias(id, alias) => AfterAlias(t, id, alias)
  }

  predicate AliasIsFree(t: Tables, key: string, alias: Option<string>) {
    alias.Some? ==> forall id :: id in t.models && id != key ==> t.models[id].alias != alias
  }

  predicate CanSetAlias(t: Tables, id: string, alias: Option<string>) {
    && NormaliseCanonicalId(id).Success? && NormaliseOptional(alias).Success?
    && NormaliseCanonicalId(id).value in t.models
    && AliasIsFree(t, NormaliseCanonicalId(id).value, NormaliseOptional(alias).value)
  }

  function Run(t: Tables, ops: seq<Op>): Tables
    decreases |ops|
  {
    if ops == [] then t else Apply(Run(t, ops[..|ops| - 1]), ops[|ops| - 1])
  }

  const EMPTY := Tables(map[], map[])

  predicate FiledUnder(row: ModelRow, id: string) {
    IsSlug(row.provider) && IsNormalId(row.upstreamId) && id == Join(row.provider, row.upstreamId)
  }

  predicate AliasesUnique(models: map<string, ModelRow>) {
    forall id, other :: id in models && other in models && id != other && models[id].alias.Some? ==>
      models[id].alias != models[other].alias
  }

  /** The invariant of the tables: rows are filed under their own identifier, have a discovery row, and share no alias. */
  predicate WellFormed(t: Tables) {
    && (forall id :: id in t.models ==> FiledUnder(t.models[id], id) && t.models[id].provider in t.states)
    && AliasesUnique(t.models)
  }

  /**
   The meaning of a refresh as one simultaneous change: listed models are present, available, described
   by their entry and keep their alias; the provider's other models become unavailable; the rest is unchanged.
   */
  lemma {:induction false} RefreshMeans(
      models: map<string, ModelRow>, provider: string, ms: seq<DiscoveredModel>, at: int, id: string)
    ensures var after, entry := Refreshed(models, provider, ms, at), Entry(provider, ms, id);
            && (id in after <==> id in models || id in Ids(provider, ms))
            && (id in Ids(provider, ms) ==>
                  && entry.Some?
                  && after[id] == ModelRow(provider, entry.value.upstreamId, entry.value.displayName, AliasAt(models, id), true, at))
            && (id in models && id !in Ids(provider, ms) ==>
                  after[id] == if models[id].provider == provider then models[id].(available := false) else models[id])
  {
    if ms != [] {
      RefreshMeans(models, provider, ms[..|ms| - 1], at, id);
    }
  }

  /** One row after a refresh, compared with the row before it. */
  predicate RowRefreshed(models: map<string, ModelRow>, p: string, ms: seq<DiscoveredModel>, after: map<string, ModelRow>, id: string) {
    if id in Ids(p, ms) then
      && id in after && FiledUnder(after[id], id) && after[id].provider == p && after[id].available
      && Entry(p, ms, id).Some? && after[id].displayName == Entry(p, ms, id).value.displayName
      && (id in models ==> models[id].provider == p && after[id].alias == models[id].alias)
      && (id !in models ==> after[id].alias.None?)
    else if id in models then
      && id in after && FiledUnder(after[id], id)
      && after[id] == (if models[id].provider == p then models[id].(available := false) else models[id])
    else id !in after
  }

  lemma RefreshRefreshesRow(models: map<string, ModelRow>, p: string, ms: seq<DiscoveredModel>, at: int, id: string)
    requires IsSlug(p) && IsCatalogue(ms) && (id in models ==> FiledUnder(models[id], id))
    ensures RowRefreshed(models, p, ms, Refreshed(models, p, ms, at), id)
  {
    RefreshMeans(models, p, ms, at, id);
    if id in Ids(p, ms) {
      EntryFinds(p, ms, id);
      if id in models {
        CanonicalIsInjective(p, Entry(p, ms, id).value.upstreamId, models[id].provider, models[id].upstreamId);
      }
    }
  }

  ghost predicate RowsRefreshed(models: map<string, ModelRow>, p: string, ms: seq<DiscoveredModel>, after: map<string, ModelRow>) {
    forall id :: RowRefreshed(models, p, ms, after, id)
  }

  lemma RefreshRefreshesRows(t: Tables, p: string, ms: seq<DiscoveredModel>, at: int)
    requires WellFormed(t) && IsSlug(p) && IsCatalogue(ms)
    ensures RowsRefreshed(t.models, p, ms, Refreshed(t.models, p, ms, at))
  {
    forall id ensures RowRefreshed(t.models, p, ms, Refreshed(t.models, p, ms, at), id) {
      RefreshRefreshesRow(t.models, p, ms, at, id);
    }
  }

  lemma RefreshedRowsKeepWellFormed(
      t: Tables, p: string, ms: seq<DiscoveredModel>, after: map<string, ModelRow>, row: StateRow)
    requires WellFormed(t) && RowsRefreshed(t.models, p, ms, after)
    ensures WellFormed(Tables(after, t.states[p := row]))
  {
    forall id | id in after
      ensures FiledUnder(after[id], id) && after[id].provider in t.states[p := row]
    {
      assert RowRefreshed(t.models, p, ms, after, id);
    }
    forall id, other | id in after && other in after && id != other && after[id].alias.Some?
      ensures after[id].alias != after[other].alias
    {
      assert RowRefreshed(t.models, p, ms, after, id) && RowRefreshed(t.models, p, ms, after, other);
    }
  }

  lemma ApplyKeepsWellFormed(t: Tables, op: Op)
    requires WellFormed(t)
    ensures WellFormed(Apply(t, op))
  {
    if (op.Refresh? || op.Configure?) && AcceptsListing(op.provider, op.listing) && op.listing != [] {
      var p := NormaliseProvider(op.provider).value;
      var ms := ValidateModels(op.listing).value;
      RefreshRefreshesRows(t, p, ms, op.at);
      RefreshedRowsKeepWellFormed(t, p, ms, Refreshed(t.models, p, ms, op.at), Apply(t, op).states[p]);
    } else if op.SetAlias? && CanSetAlias(t, op.id, op.alias) {
      SettingAliasKeepsUnique(t, NormaliseCanonicalId(op.id).value, NormaliseOptional(op.alias).value);
    }
  }

  lemma SettingAliasKeepsUnique(t: Tables, key: string, alias: Option<string>)
    requires WellFormed(t) && key in t.models && AliasIsFree(t, key, alias)
    ensures WellFormed(t.(models := t.models[key := t.models[key].(alias := alias)]))
  {
  }

  /** The invariant holds of every registry that starts empty: aliases stay unique and every model has a discovery row. */
  lemma {:induction false} RunsAreWellFormed(ops: seq<Op>)
    ensures WellFormed(Run(EMPTY, ops))
  {
    if ops != [] {
      RunsAreWellFormed(ops[..|ops| - 1]);
      ApplyKeepsWellFormed(Run(EMPTY, ops[..|ops| - 1]), ops[|ops| - 1]);
    }
  }

  /* What a run leaves behind */

  /** The operation stores a non-empty catalogue. */
  predicate StoresListing(op: Op) {
    (op.Refresh? || op.Configure?) && AcceptsListing(op.provider, op.listing) && op.listing != []
  }

  /** The catalogue that this operation has accepted for the provider, if any. */
  function AcceptedFor(op: Op, provider: string): Option<seq<DiscoveredModel>> {
    if StoresListing(op) && NormaliseProvider(op.provider).value == provider
    then Some(ValidateModels(op.listing).value)
    else None
  }

  function LastAccepted(ops: seq<Op>, provider: string): Option<seq<DiscoveredModel>> {
    if ops == [] then None
    else if AcceptedFor(ops[|ops| - 1], provider).Some? then AcceptedFor(ops[|ops| - 1], provider)
    else LastAccepted(ops[..|ops| - 1], provider)
  }

  /** The time of the last live discovery that succeeded. */
  function LastLive(ops: seq<Op>, provider: string): Option<int> {
    if ops == [] then None
    else
      var op := ops[|ops| - 1];
      if op.Refresh? && AcceptedFor(op, provider).Some? then Some(op.at) else LastLive(ops[..|ops| - 1], provider)
  }

  function AvailableIds(t: Tables, provider: string): set<string> {
    set id | id in t.models && t.models[id].provider == provider && t.models[id].available
  }

  /** The available models of the provider are the listed ones, under the listed names. */
  predicate Offers(t: Tables, provider: string, ms: seq<DiscoveredModel>) {
    && AvailableIds(t, provider) == Ids(provider, ms)
    && forall id :: id in Ids(provider, ms) ==>
         Entry(provider, ms, id).Some? && t.models[id].displayName == Entry(provider, ms, id).value.displayName
  }

  /** Rows of this provider still offered and named as before. */
  ghost predicate OffersUnchanged(models: map<string, ModelRow>, after: map<string, ModelRow>, provider: string) {
    forall id :: && (id in models && models[id].provider == provider && models[id].available
                <==> id in after && after[id].provider == provider && after[id].available)
                 && (id in models && models[id].provider == provider && models[id].available ==>
                       after[id].displayName == models[id].displayName)
  }

  lemma RefreshedRowsOffer(t: Tables, p: string, ms: seq<DiscoveredModel>, after: map<string, ModelRow>, provider: string)
    requires WellFormed(t) && RowsRefreshed(t.models, p, ms, after)
    ensures p == provider ==> Offers(Tables(after, t.states), provider, ms)
    ensures p != provider ==> OffersUnchanged(t.models, after, provider)
  {
    if p == provider {
      var offered := AvailableIds(Tables(after, t.states), provider);
      forall id ensures id in offered <==> id in Ids(p, ms) {
        assert RowRefreshed(t.models, p, ms, after, id);
      }
      forall id | id in Ids(p, ms)
        ensures Entry(p, ms, id).Some? && after[id].displayName == Entry(p, ms, id).value.displayName
      {
        assert RowRefreshed(t.models, p, ms, after, id);
      }
    } else {
      forall id
        ensures id in t.models && t.models[id].provider == provider && t.models[id].available
           <==> id in after && after[id].provider == provider && after[id].available
        ensures id in t.models && t.models[id].provider == provider && t.models[id].available ==>
                  after[id].displayName == t.models[id].displayName
      {
        assert RowRefreshed(t.models, p, ms, after, id);
      }
    }
  }

  lemma ApplyStoresListing(t: Tables, op: Op)
    requires WellFormed(t) && StoresListing(op)
    ensures var p := NormaliseProvider(op.provider).value;
            IsSlug(p) && RowsRefreshed(t.models, p, ValidateModels(op.listing).value, Apply(t, op).models)
  {
    RefreshRefreshesRows(t, NormaliseProvider(op.provider).value, ValidateModels(op.listing).value, op.at);
  }

  /** Every other operation leaves all model rows alone but for one alias. */
  lemma ApplyStoresNothing(t: Tables, op: Op)
    requires !StoresListing(op)
    ensures !op.SetAlias? ==> Apply(t, op).models == t.models
    ensures Apply(t, op).models.Keys == t.models.Keys
    ensures forall id :: id in t.models ==> Apply(t, op).models[id] == t.models[id].(alias := Apply(t, op).models[id].alias)
  {
  }

  lemma ApplyOffers(t: Tables, op: Op, provider: string)
    requires WellFormed(t)
    ensures AcceptedFor(op, provider).Some? ==> Offers(Apply(t, op), provider, AcceptedFor(op, provider).value)
    ensures AcceptedFor(op, provider).None? ==> OffersUnchanged(t.models, Apply(t, op).models, provider)
  {
    var after := Apply(t, op);
    if StoresListing(op) {
      var p, ms := NormaliseProvider(op.provider).value, ValidateModels(op.listing).value;
      ApplyStoresListing(t, op);
      RefreshedRowsOffer(t, p, ms, after.models, provider);
      assert p == provider ==> AvailableIds(after, provider) == AvailableIds(Tables(after.models, t.states), provider);
    } else {
      ApplyStoresNothing(t, op);
    }
  }

  lemma FailureKeepsSuccess(t: Tables, p: string, category: Category, at: int, provider: string)
    ensures LastSuccess(RecordedFailure(t, p, category, at), provider) == LastSuccess(t, provider)
  {
  }

  lemma RefreshTracksSuccess(t: Tables, p: string, listing: seq<DiscoveredModel>, at: int, provider: string)
    ensures LastSuccess(AfterRefresh(t, p, listing, at), provider)
         == if AcceptsListing(p, listing) && listing != [] && NormaliseProvider(p).value == provider then Some(at)
            else LastSuccess(t, provider)
  {
    if AcceptsListing(p, listing) {
      FailureKeepsSuccess(t, NormaliseProvider(p).value, EmptyCatalog, at, provider);
    }
  }

  lemma ConfigureKeepsSuccess(t: Tables, p: string, listing: seq<DiscoveredModel>, at: int, provider: string)
    ensures LastSuccess(AfterConfigure(t, p, listing, at), provider) == LastSuccess(t, provider)
  {
    if AcceptsListing(p, listing) && listing != [] {
      var normal := NormaliseProvider(p).value;
      assert AfterConfigure(t, p, listing, at).states == RecordedFailure(t, normal, NotVerified, at).states;
      FailureKeepsSuccess(t, normal, NotVerified, at, provider);
    }
  }

  lemma ApplyTracksSuccess(t: Tables, op: Op, provider: string)
    ensures LastSuccess(Apply(t, op), provider)
         == if op.Refresh? && AcceptedFor(op, provider).Some? then Some(op.at) else LastSuccess(t, provider)
  {
    match op
    case Refresh(p, listing, at) => RefreshTracksSuccess(t, p, listing, at, provider);
    case Configure(p, listing, at) => ConfigureKeepsSuccess(t, p, listing, at, provider);
    case Fail(p, category, at) =>
      if NormaliseProvider(p).Success? {
        FailureKeepsSuccess(t, NormaliseProvider(p).value, Reported(Lower(Strip(category))), at, provider);
      }
    case SetAlias(_, _) =>
  }

  /**
   After any run from an empty registry a provider offers exactly its last accepted catalogue, and its
   last success is the last live one, whatever was configured by hand or failed since.
   */
  lemma {:induction false} RunOffersLastAccepted(ops: seq<Op>, provider: string)
    ensures var t := Run(EMPTY, ops);
            && LastSuccess(t, provider) == LastLive(ops, provider)
            && match LastAccepted(ops, provider)
               case Some(ms) => Offers(t, provider, ms)
               case None => AvailableIds(t, provider) == {}
  {
    if ops != [] {
      var front, op := ops[..|ops| - 1], ops[|ops| - 1];
      RunOffersLastAccepted(front, provider);
      RunsAreWellFormed(front);
      ApplyOffers(Run(EMPTY, front), op, provider);
      ApplyTracksSuccess(Run(EMPTY, front), op, provider);
    }
  }

  /** What the registry records of an attempt for a provider. */
  datatype Outcome = Outcome(state: DiscoveryState, at: int, error: Option<Category>)

  /** The outcome that this operation records for the provider, if any. */
  function OutcomeOf(op: Op, provider: string): Option<Outcome> {
    if op.SetAlias? || NormaliseProvider(op.provider) != Success(provider) then None
    else match op
      case Refresh(_, listing, at) =>
        if ValidateModels(listing).Failure? then None
        else if listing == [] then Some(Outcome(Stale, at, Some(EmptyCatalog)))
        else Some(Outcome(Available, at, None))
      case Configure(_, listing, at) =>
        if ValidateModels(listing).Failure? || listing == [] then None else Some(Outcome(Stale, at, Some(NotVerified)))
      case Fail(_, category, at) =>
        if IsSlug(Lower(Strip(category))) then Some(Outcome(Stale, at, Some(Reported(Lower(Strip(category)))))) else None
      case SetAlias(_, _) => None
  }

  function LastOutcome(ops: seq<Op>, provider: string): Option<Outcome> {
    if ops == [] then None
    else if OutcomeOf(ops[|ops| - 1], provider).Some? then OutcomeOf(ops[|ops| - 1], provider)
    else LastOutcome(ops[..|ops| - 1], provider)
  }

  /** The discovery row says how the last attempt ended. */
  predicate RowSays(t: Tables, provider: string, outcome: Option<Outcome>) {
    match outcome
    case None => provider !in t.states
    case Some(o) =>
      && provider in t.states
      && t.states[provider].state == o.state && t.states[provider].lastAttempt == o.at && t.states[provider].error == o.error
  }

  lemma ApplyRecordsOutcome(t: Tables, op: Op, provider: string, before: Option<Outcome>)
    requires RowSays(t, provider, before)
    ensures RowSays(Apply(t, op), provider, if OutcomeOf(op, provider).Some? then OutcomeOf(op, provider) else before)
  {
    hide NormaliseProvider, ValidateModels, Refreshed, IsSlug, Strip, Lower;
    match op
    case Refresh(_, _, _) =>
    case Configure(_, _, _) =>
    case Fail(_, _, _) =>
    case SetAlias(_, _) =>
  }

  /** After any run from an empty registry the discovery row of a provider is that of its last recorded attempt. */
  lemma {:induction false} RunRecordsLastOutcome(ops: seq<Op>, provider: string)
    ensures RowSays(Run(EMPTY, ops), provider, LastOutcome(ops, provider))
    ensures match LastOutcome(ops, provider)
            case None => provider !in Run(EMPTY, ops).states
            case Some(o) =>
              && provider in Run(EMPTY, ops).states
              && Run(EMPTY, ops).states[provider] == StateRow(o.state, LastLive(ops, provider), o.at, o.error)
  {
    RunOffersLastAccepted(ops, provider);
    if ops != [] {
      var front := ops[..|ops| - 1];
      RunRecordsLastOutcome(front, provider);
      ApplyRecordsOutcome(Run(EMPTY, front), ops[|ops| - 1], provider, LastOutcome(front, provider));
    }
  }

  /** A listed model carries the time of the operation that listed it, and every other row the time it had. */
  lemma ListedAreStamped(t: Tables, op: Op, id: string)
    requires id in Apply(t, op).models
    ensures if StoresListing(op) && id in Ids(NormaliseProvider(op.provider).value, ValidateModels(op.listing).value) then
              Apply(t, op).models[id].discoveredAt == op.at
            else id in t.models && Apply(t, op).models[id].discoveredAt == t.models[id].discoveredAt
  {
    if StoresListing(op) {
      RefreshMeans(t.models, NormaliseProvider(op.provider).value, ValidateModels(op.listing).value, op.at, id);
    } else {
      ApplyStoresNothing(t, op);
    }
  }

  /**
   No operation deletes a row or touches another provider's; only setting an alias changes an alias; failures
   change no row.
   */
  lemma ApplyIsLocal(t: Tables, op: Op, id: string)
    requires WellFormed(t) && id in t.models
    ensures id in Apply(t, op).models
    ensures !op.SetAlias? ==> Apply(t, op).models[id].alias == t.models[id].alias
    ensures !op.SetAlias? && NormaliseProvider(op.provider) != Success(t.models[id].provider) ==> Apply(t, op).models[id] == t.models[id]
    ensures op.Fail? || (op.Refresh? && op.listing == []) ==> Apply(t, op).models == t.models
    ensures op.SetAlias? ==> Apply(t, op).models[id] == t.models[id].(alias := Apply(t, op).models[id].alias)
  {
    var after := Apply(t, op).models;
    if StoresListing(op) {
      ApplyStoresListing(t, op);
      assert RowRefreshed(t.models, NormaliseProvider(op.provider).value, ValidateModels(op.listing).value, after, id);
    } else {
      ApplyStoresNothing(t, op);
    }
  }

  /* Looking models up */

  datatype ModelRecord = ModelRecord(id: string, row: ModelRow, discovery: StateRow)

  function RecordOf(t: Tables, id: string): Option<ModelRecord> {
    if id in t.models && t.models[id].provider in t.states then
      Some(ModelRecord(id, t.models[id], t.states[t.models[id].provider]))
    else None
  }

  predicate HasAlias(t: Tables, id: string, alias: string) {
    RecordOf(t, id).Some? && t.models[id].alias == Some(alias)
  }

  ghost function ByAlias(t: Tables, alias: string): Option<ModelRecord> {
    if id :| HasAlias(t, id, alias) then RecordOf(t, id) else None
  }

  /** An exact canonical identifier first, then an alias. */
  ghost function Resolve(t: Tables, identifier: string): Result<Option<ModelRecord>, RegistryError> {
    var lookup :- NormaliseText(identifier);
    var canonical := NormaliseCanonicalId(lookup);
    if canonical.Success? && RecordOf(t, canonical.value).Some? then Success(RecordOf(t, canonical.value))
    else Success(ByAlias(t, lookup))
  }

  lemma CanonicalIsSafe(p: string, u: string)
    requires IsSlug(p) && IsNormalId(u)
    ensures Stripped(Join(p, u)) && !HasControl(Join(p, u))
  {
    SlugIsNormal(p);
    var id := Join(p, u);
    assert forall i :: 0 <= i < |p| ==> id[i] == p[i];
    assert forall i :: 0 <= i < |u| ==> id[|p| + 1 + i] == u[i];
    assert forall i :: 0 <= i < |id| ==> !IsControl(id[i]) by {
      assert forall i :: |p| < i < |id| ==> id[i] == u[i - |p| - 1];
    }
  }

  /**
   In every reachable registry a stored model resolves to itself by its canonical identifier, whatever
   aliases there are, if and only if that identifier is short enough to be looked up.
   */
  lemma StoredModelResolvesToItself(ops: seq<Op>, id: string)
    requires id in Run(EMPTY, ops).models
    ensures var t := Run(EMPTY, ops);
            RecordOf(t, id).Some? && (Resolve(t, id) == Success(RecordOf(t, id)) <==> |id| <= 512)
  {
    var t := Run(EMPTY, ops);
    RunsAreWellFormed(ops);
    var p, u := t.models[id].provider, t.models[id].upstreamId;
    CanonicalIsSafe(p, u);
    StripOfStripped(id);
    NormalsAreFixed(p, u);
    RenormalisingIsIdentity(p, u);
  }

  lemma SinglePasses<E>(checks: Checks<E>, m: DiscoveredModel)
    requires checks.id(m.upstreamId) == Success(m.upstreamId) && checks.name(m.displayName) == Success(m.displayName)
    ensures CheckListing(checks, [m]) == Success([m])
  {
    var empty: seq<DiscoveredModel> := [];
    assert [m][..|[m]| - 1] == empty && CheckListing(checks, empty) == Success([]) && !Lists(empty, m.upstreamId);
    assert m == DiscoveredModel(m.upstreamId, m.displayName) && empty + [m] == [m];
  }

  lemma StoredIfListed(p: string, u: string, at: int)
    requires NormaliseProvider(p) == Success(p) && ValidateModels([DiscoveredModel(u, None)]) == Success([DiscoveredModel(u, None)])
    ensures Join(p, u) in Run(EMPTY, [Refresh(p, [DiscoveredModel(u, None)], at)]).models
  {
    hide NormaliseProvider, ValidateModels, IsCatalogue;
    var op := Refresh(p, [DiscoveredModel(u, None)], at);
    assert [op][..0] == [];
    assert Run(EMPTY, [op]) == Apply(EMPTY, op) == AfterRefresh(EMPTY, p, op.listing, at);
  }

  /** One discovery is enough to store a model under an identifier too long to be looked up. */
  lemma LongIdIsStored(p: string, u: string, at: int)
    requires IsSlug(p) && IsNormalId(u) && |p| + |u| >= 512
    ensures var t := Run(EMPTY, [Refresh(p, [DiscoveredModel(u, None)], at)]);
            Join(p, u) in t.models && |Join(p, u)| > 512 && Resolve(t, Join(p, u)) != Success(RecordOf(t, Join(p, u)))
  {
    NormalsAreFixed(p, u);
    SinglePasses(NORMALISE, DiscoveredModel(u, None));
    StoredIfListed(p, u, at);
    StoredModelResolvesToItself([Refresh(p, [DiscoveredModel(u, None)], at)], Join(p, u));
  }

  lemma LongestIdIsNormal() returns (u: string)
    ensures IsNormalId(u) && |u| == 512
  {
    u := seq(512, _ => 'a');
  }

  /** There is such an input. */
  lemma SomeStoredModelIsNotResolved()
    ensures exists ops, id :: id in Run(EMPTY, ops).models && Resolve(Run(EMPTY, ops), id) != Success(RecordOf(Run(EMPTY, ops), id))
  {
    var u := LongestIdIsNormal();
    assert IsSlug("p");
    LongIdIsStored("p", u, 0);
  }

  lemma ByAliasIsUnique(t: Tables, alias: string, id: string)
    requires WellFormed(t) && HasAlias(t, id, alias)
    ensures ByAlias(t, alias) == RecordOf(t, id)
  {
  }

  /** A lookup finds a model exactly if one has the text as its canonical identifier or as its alias, and only such a one. */
  lemma ResolveFinds(t: Tables, identifier: string)
    requires WellFormed(t) && NormaliseText(identifier).Success?
    ensures var r := Resolve(t, identifier);
            && r.Success?
            && (r.value.Some? ==>
                  && RecordOf(t, r.value.value.id) == r.value
                  && (NormaliseCanonicalId(Strip(identifier)) == Success(r.value.value.id)
                      || t.models[r.value.value.id].alias == Some(Strip(identifier))))
            && (r.value.None? ==> forall id :: id in t.models ==>
                  NormaliseCanonicalId(Strip(identifier)) != Success(id) && t.models[id].alias != Some(Strip(identifier)))
  {
    hide NormaliseCanonicalId;
    forall id | id in t.models ensures RecordOf(t, id).Some? && RecordOf(t, id).value.id == id {
      assert FiledUnder(t.models[id], id);
    }
    assert forall id :: id in t.models && t.models[id].alias == Some(Strip(identifier)) ==> HasAlias(t, id, Strip(identifier));
  }

  /**
   An alias can be set exactly if its model is stored and no other model has it; it is stored without the white
   space around it.
   */
  lemma AliasIsSetIff(t: Tables, id: string, alias: string)
    requires NormaliseCanonicalId(id) == Success(id) && IsNormalId(alias)
    ensures CanSetAlias(t, id, Some(alias)) <==>
              id in t.models && forall other :: other in t.models && other != id ==> t.models[other].alias != Some(alias)
    ensures id in AfterAlias(t, id, Some(alias)).models && AfterAlias(t, id, Some(alias)).models[id].alias == Some(alias)
       <==> id in t.models && (t.models[id].alias == Some(alias)
                               || forall other :: other in t.models && other != id ==> t.models[other].alias != Some(alias))
    ensures id in t.models ==> AfterAlias(t, id, None).models == t.models[id := t.models[id].(alias := None)]
  {
    StripOfStripped(alias);
  }

  /** From then on the alias finds the model, unless some model has it as its canonical identifier. */
  lemma AliasResolves(t: Tables, id: string, alias: string)
    requires WellFormed(t) && NormaliseCanonicalId(id) == Success(id) && IsNormalId(alias) && CanSetAlias(t, id, Some(alias))
    ensures Resolve(AfterAlias(t, id, Some(alias)), alias) == Success(RecordOf(AfterAlias(t, id, Some(alias)), id))
       <==> NormaliseCanonicalId(alias).Failure? || NormaliseCanonicalId(alias).value !in t.models
            || NormaliseCanonicalId(alias).value == id
  {
    hide NormaliseCanonicalId, FiledUnder;
    var after := AfterAlias(t, id, Some(alias));
    StripOfStripped(alias);
    ApplyKeepsWellFormed(t, SetAlias(id, Some(alias)));
    assert after == Apply(t, SetAlias(id, Some(alias)));
    ByAliasIsUnique(after, alias, id);
    if NormaliseCanonicalId(alias).Success? && NormaliseCanonicalId(alias).value in t.models {
      assert RecordOf(after, NormaliseCanonicalId(alias).value).Some?;
    }
  }
}
