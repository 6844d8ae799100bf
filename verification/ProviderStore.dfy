/** The store of configured providers: a protected provider row and a model catalogue, replaced together. */
module ProviderStore {
  import opened Wrappers
  import opened Text
  import opened ModelCatalogue
  import Registry = ModelRegistry

  datatype Header = Header(name: string, value: string)

  datatype Provider = Provider(
    id: string, displayName: string, baseUrl: string, apiKey: Option<string>,
    models: seq<DiscoveredModel>, headers: seq<Header>)

  datatype StoreError = Rejected | StorageFailed | ProtectionFailed | NotConfigured | EmptyDiscovery

  type Sealed = string

  datatype ProviderRow = ProviderRow(displayName: string, baseUrl: string, apiKey: Option<Sealed>, headers: Sealed, updatedAt: int)

  /** URL normalisation, credential protection and the JSON form of headers. */
  datatype Host = Host(
    normaliseUrl: string -> Option<string>,
    protect: string -> Option<Sealed>,
    unprotect: Sealed -> Option<string>,
    encode: seq<Header> -> string,
    decode: string -> Option<seq<Header>>)

  /** What is assumed of the host: protection and JSON undo themselves, and nothing is protected as the empty value. */
  ghost predicate Trusted(h: Host) {
    && (forall s :: h.protect(s).Some? ==> h.unprotect(h.protect(s).value) == Some(s) && h.protect(s).value != [])
    && (forall hs :: h.decode(h.encode(hs)) == Some(hs) && '\0' !in h.encode(hs))
  }

  /* Validation */

  predicate Fits(s: string, limit: nat) {
    !HasControl(s) && |s| <= limit
  }

  function ValidateText(s: string, limit: nat): Result<string, StoreError> {
    if Fits(s, limit) && Strip(s) != [] then Success(Strip(s)) else Failure(Rejected)
  }

  function ValidateOptionalText(s: Option<string>, limit: nat): Result<Option<string>, StoreError> {
    if s.None? then Success(None)
    else if !Fits(s.value, limit) then Failure(Rejected)
    else Success(if Strip(s.value) == [] then None else Some(Strip(s.value)))
  }

  /** Secrets are not stripped; an empty one counts as absent. */
  function ValidateSecret(s: Option<string>): Result<Option<string>, StoreError> {
    if s.None? then Success(None)
    else if !Fits(s.value, 8192) then Failure(Rejected)
    else Success(if s.value == [] then None else s)
  }

  function ValidateId(id: string): Result<string, StoreError> {
    var normal := Lower(Strip(id));
    if |normal| <= 128 && IsSlug(normal) then Success(normal) else Failure(Rejected)
  }

  const MODEL := Checks(s => ValidateText(s, 512), s => ValidateOptionalText(s, 512), Rejected)

  function ValidateListing(ms: seq<DiscoveredModel>): Result<seq<DiscoveredModel>, StoreError> {
    CheckListing(MODEL, ms)
  }

  predicate IsHeaderChar(c: char) {
    'a' <= c <= 'z' || 'A' <= c <= 'Z' || '0' <= c <= '9' || c in "!#$%&'*+.^_`|~-"
  }

  predicate IsHeaderName(s: string) {
    s != [] && forall i :: 0 <= i < |s| ==> IsHeaderChar(s[i])
  }

  const BLOCKED_HEADERS: set<string> := {
    "host", "content-length", "connection", "transfer-encoding", "upgrade", "proxy-authorization",
    "proxy-authenticate", "cookie", "keep-alive", "te", "trailer", "user-agent", "forwarded",
    "x-forwarded-for", "x-forwarded-host", "x-forwarded-proto"}

  predicate Names(hs: seq<Header>, lowered: string) {
    exists i :: 0 <= i < |hs| && Lower(hs[i].name) == lowered
  }

  function ValidateHeader(h: Header): Result<Header, StoreError> {
    var name := Strip(h.name);
    if IsHeaderName(name) && Lower(name) !in BLOCKED_HEADERS && Fits(h.value, 8192) && h.value != [] then
      Success(Header(name, h.value))
    else Failure(Rejected)
  }

  type HeaderCheck = Header -> Result<Header, StoreError>

  /** Every header passes the check, and no two names agree but for case. */
  function CheckHeaders(check: HeaderCheck, hs: seq<Header>): (r: Result<seq<Header>, StoreError>)
    ensures r.Success? ==> |r.value| == |hs| && forall i :: 0 <= i < |hs| ==> check(hs[i]) == Success(r.value[i])
  {
    if hs == [] then Success([])
    else
      var front :- CheckHeaders(check, hs[..|hs| - 1]);
      var last :- check(hs[|hs| - 1]);
      if Names(front, Lower(last.name)) then Failure(Rejected) else Success(front + [last])
  }

  const HEADER: HeaderCheck := h => ValidateHeader(h)

  function ValidateHeaders(hs: seq<Header>): Result<seq<Header>, StoreError> {
    CheckHeaders(HEADER, hs)
  }

  /** The header loop, with the set of lower-cased names seen so far. */
  method CheckHeaderList(check: HeaderCheck, hs: seq<Header>) returns (r: Result<seq<Header>, StoreError>)
    ensures r == CheckHeaders(check, hs)
  {
    var checked := [];
    var seen: set<string> := {};
    for i := 0 to |hs|
      invariant CheckHeaders(check, hs[..i]) == Success(checked)
      invariant forall name :: name in seen <==> Names(checked, name)
    {
      assert hs[..i + 1][..i] == hs[..i];
      var header := check(hs[i]);
      if header.Failure? || Lower(header.value.name) in seen {
        HeadersFail(check, hs, i + 1);
        return Failure(if header.Failure? then header.error else Rejected);
      }
      SeenIsNamed(checked, seen, header.value);
      seen := seen + {Lower(header.value.name)};
      checked := checked + [header.value];
    }
    assert hs[..|hs|] == hs;
    r := Success(checked);
  }

  lemma SeenIsNamed(checked: seq<Header>, seen: set<string>, header: Header)
    requires forall name :: name in seen <==> Names(checked, name)
    ensures forall name :: name in seen + {Lower(header.name)} <==> Names(checked + [header], name)
  {
    var longer := checked + [header];
    assert longer[|checked|] == header && forall k :: 0 <= k < |checked| ==> longer[k] == checked[k];
    forall name ensures name in seen + {Lower(header.name)} <==> Names(longer, name) {
      if Names(checked, name) {
        var k :| 0 <= k < |checked| && Lower(checked[k].name) == name;
        assert Lower(longer[k].name) == name;
      }
    }
  }

  lemma {:induction false} HeadersFail(check: HeaderCheck, hs: seq<Header>, n: nat)
    requires n <= |hs| && CheckHeaders(check, hs[..n]).Failure?
    ensures CheckHeaders(check, hs) == CheckHeaders(check, hs[..n])
    decreases |hs| - n
  {
    if n < |hs| {
      assert hs[..n + 1][..n] == hs[..n];
      HeadersFail(check, hs, n + 1);
    } else {
      assert hs[..n] == hs;
    }
  }

  /** The one reserved identifier, and an authorization header next to an API key. */
  predicate IsRefused(p: Provider) {
    p.id == "antigravity" || (p.apiKey.Some? && Names(p.headers, "authorization"))
  }

  function Assemble(
      id: Result<string, StoreError>, name: Result<string, StoreError>, url: Option<string>,
      key: Result<Option<string>, StoreError>, models: Result<seq<DiscoveredModel>, StoreError>,
      headers: Result<seq<Header>, StoreError>): (r: Result<Provider, StoreError>)
    ensures r.Success? ==>
              && id == Success(r.value.id) && name == Success(r.value.displayName) && url == Some(r.value.baseUrl)
              && key == Success(r.value.apiKey) && models == Success(r.value.models) && headers == Success(r.value.headers)
  {
    if id.Success? && name.Success? && url.Some? && key.Success? && models.Success? && headers.Success? then
      Success(Provider(id.value, name.value, url.value, key.value, models.value, headers.value))
    else Failure(Rejected)
  }

  function ValidateProvider(host: Host, p: Provider): Result<Provider, StoreError> {
    var valid :- Assemble(
      ValidateId(p.id), ValidateText(p.displayName, 512), host.normaliseUrl(p.baseUrl),
      ValidateSecret(p.apiKey), ValidateListing(p.models), ValidateHeaders(p.headers));
    if IsRefused(valid) then Failure(Rejected) else Success(valid)
  }

  method CheckProvider(host: Host, p: Provider) returns (r: Result<Provider, StoreError>)
    ensures r == ValidateProvider(host, p)
  {
    var models := Registry.CheckModels(MODEL, p.models);
    var headers := CheckHeaderList(HEADER, p.headers);
    var valid :- Assemble(
      ValidateId(p.id), ValidateText(p.displayName, 512), host.normaliseUrl(p.baseUrl),
      ValidateSecret(p.apiKey), models, headers);
    r := if IsRefused(valid) then Failure(Rejected) else Success(valid);
  }

  /* What is accepted */

  predicate NamesDiffer(hs: seq<Header>) {
    forall i, j :: 0 <= i < j < |hs| ==> Lower(hs[i].name) != Lower(hs[j].name)
  }

  lemma {:induction false} CheckedNamesDiffer(check: HeaderCheck, hs: seq<Header>)
    requires CheckHeaders(check, hs).Success?
    ensures NamesDiffer(CheckHeaders(check, hs).value)
  {
    if hs != [] {
      CheckedNamesDiffer(check, hs[..|hs| - 1]);
      var front, all := CheckHeaders(check, hs[..|hs| - 1]).value, CheckHeaders(check, hs).value;
      assert all == front + [check(hs[|hs| - 1]).value];
      forall i | 0 <= i < |front| ensures Lower(all[i].name) != Lower(all[|front|].name) {
        assert all[i] == front[i];
      }
    }
  }

  lemma CheckedHeadersAreSafe(hs: seq<Header>)
    requires ValidateHeaders(hs).Success?
    ensures forall h :: h in ValidateHeaders(hs).value ==> IsHeaderName(h.name) && Lower(h.name) !in BLOCKED_HEADERS
  {
    var r := ValidateHeaders(hs).value;
    forall i | 0 <= i < |r| ensures IsHeaderName(r[i].name) && Lower(r[i].name) !in BLOCKED_HEADERS {
      assert HEADER(hs[i]) == Success(r[i]);
    }
  }

  /**
   An accepted provider has no reserved identifier, no authorization header next to an API key, no
   blocked or malformed header name, no two names that agree but for case, and no model twice.
   */
  lemma AcceptedIsSafe(host: Host, provider: Provider)
    requires ValidateProvider(host, provider).Success?
    ensures var p := ValidateProvider(host, provider).value;
            && p.id != "antigravity" && !(p.apiKey.Some? && Names(p.headers, "authorization"))
            && NamesDiffer(p.headers)
            && (forall h :: h in p.headers ==> IsHeaderName(h.name) && Lower(h.name) !in BLOCKED_HEADERS)
            && (forall i, j :: 0 <= i < j < |p.models| ==> p.models[i].upstreamId != p.models[j].upstreamId)
  {
    CheckedNamesDiffer(HEADER, provider.headers);
    CheckedHeadersAreSafe(provider.headers);
    CheckedAreDistinct(MODEL, provider.models);
  }

  /* Exactly what is accepted, on what was given */

  /** Printable text within a limit, white space included. */
  predicate IsPrintable(s: string, limit: nat) {
    |s| <= limit && forall i :: 0 <= i < |s| ==> s[i] >= ' ' && s[i] != '\U{7f}'
  }

  predicate IsGivenModel(m: DiscoveredModel) {
    IsPrintable(m.upstreamId, 512) && !AllSpace(m.upstreamId) && (m.displayName.Some? ==> IsPrintable(m.displayName.value, 512))
  }

  predicate AreGivenModels(ms: seq<DiscoveredModel>) {
    && (forall i :: 0 <= i < |ms| ==> IsGivenModel(ms[i]))
    && (forall i, j :: 0 <= i < j < |ms| ==> Strip(ms[i].upstreamId) != Strip(ms[j].upstreamId))
  }

  /** The name that two headers must not share. */
  function FieldName(h: Header): string {
    Lower(Strip(h.name))
  }

  predicate IsGivenHeader(h: Header) {
    IsHeaderName(Strip(h.name)) && FieldName(h) !in BLOCKED_HEADERS && IsPrintable(h.value, 8192) && h.value != []
  }

  predicate AreGivenHeaders(hs: seq<Header>) {
    && (forall i :: 0 <= i < |hs| ==> IsGivenHeader(hs[i]))
    && (forall i, j :: 0 <= i < j < |hs| ==> FieldName(hs[i]) != FieldName(hs[j]))
  }

  predicate HasKey(p: Provider) {
    p.apiKey.Some? && p.apiKey.value != []
  }

  lemma FitsIsPrintable(s: string, limit: nat)
    ensures Fits(s, limit) <==> IsPrintable(s, limit)
  {
  }

  lemma TextIsAccepted(s: string, limit: nat)
    ensures ValidateText(s, limit) == if IsPrintable(s, limit) && !AllSpace(s) then Success(Strip(s)) else Failure(Rejected)
    ensures ValidateOptionalText(Some(s), limit)
         == if !IsPrintable(s, limit) then Failure(Rejected) else Success(if AllSpace(s) then None else Some(Strip(s)))
  {
    FitsIsPrintable(s, limit);
    StripIsEmptyIff(s);
  }

  lemma SecretIsAccepted(s: string)
    ensures ValidateSecret(None) == Success(None)
    ensures ValidateSecret(Some(s))
         == if !IsPrintable(s, 8192) then Failure(Rejected) else Success(if s == [] then None else Some(s))
  {
    FitsIsPrintable(s, 8192);
  }

  lemma ListingIsAcceptedIff(ms: seq<DiscoveredModel>)
    ensures ValidateListing(ms).Success? <==> AreGivenModels(ms)
  {
    CheckSucceedsIff(MODEL, ms);
    forall i | 0 <= i < |ms|
      ensures MODEL.id(ms[i].upstreamId).Success? && MODEL.name(ms[i].displayName).Success? <==> IsGivenModel(ms[i])
      ensures IsGivenModel(ms[i]) ==> MODEL.id(ms[i].upstreamId) == Success(Strip(ms[i].upstreamId))
    {
      TextIsAccepted(ms[i].upstreamId, 512);
      if ms[i].displayName.Some? {
        TextIsAccepted(ms[i].displayName.value, 512);
      }
    }
  }

  lemma {:induction false} HeadersSucceedIff(check: HeaderCheck, hs: seq<Header>)
    ensures CheckHeaders(check, hs).Success? <==>
              && (forall i :: 0 <= i < |hs| ==> check(hs[i]).Success?)
              && (forall i, j :: 0 <= i < j < |hs| ==> Lower(check(hs[i]).value.name) != Lower(check(hs[j]).value.name))
  {
    if hs != [] {
      var front, last := hs[..|hs| - 1], hs[|hs| - 1];
      HeadersSucceedIff(check, front);
      assert forall i :: 0 <= i < |front| ==> front[i] == hs[i];
      if CheckHeaders(check, front).Success? && check(last).Success? {
        assert Names(CheckHeaders(check, front).value, Lower(check(last).value.name))
          <==> exists i :: 0 <= i < |front| && Lower(check(hs[i]).value.name) == Lower(check(last).value.name);
      }
    }
  }

  lemma HeadersAreAcceptedIff(hs: seq<Header>)
    ensures ValidateHeaders(hs).Success? <==> AreGivenHeaders(hs)
    ensures ValidateHeaders(hs).Success? ==>
              forall i :: 0 <= i < |hs| ==> ValidateHeaders(hs).value[i] == Header(Strip(hs[i].name), hs[i].value)
  {
    HeadersSucceedIff(HEADER, hs);
    forall i | 0 <= i < |hs|
      ensures HEADER(hs[i]) == if IsGivenHeader(hs[i]) then Success(Header(Strip(hs[i].name), hs[i].value)) else Failure(Rejected)
    {
      FitsIsPrintable(hs[i].value, 8192);
    }
  }

  lemma NamedIffGiven(hs: seq<Header>, name: string)
    requires ValidateHeaders(hs).Success?
    ensures Names(ValidateHeaders(hs).value, name) <==> exists i :: 0 <= i < |hs| && FieldName(hs[i]) == name
  {
    HeadersAreAcceptedIff(hs);
  }

  /**
   A provider is accepted exactly if its identifier is a slug and not the reserved one, its texts, models and headers
   are printable and within their limits, its URL normalises, no model and no header comes twice, and no header
   authorizes next to an API key.
   */
  lemma AcceptedIff(host: Host, p: Provider)
    ensures ValidateProvider(host, p).Success? <==>
              && IsSlug(Lower(Strip(p.id))) && |Lower(Strip(p.id))| <= 128 && Lower(Strip(p.id)) != "antigravity"
              && IsPrintable(p.displayName, 512) && !AllSpace(p.displayName) && host.normaliseUrl(p.baseUrl).Some?
              && (p.apiKey.Some? ==> IsPrintable(p.apiKey.value, 8192))
              && AreGivenModels(p.models) && AreGivenHeaders(p.headers)
              && !(HasKey(p) && exists i :: 0 <= i < |p.headers| && FieldName(p.headers[i]) == "authorization")
  {
    hide ValidateText, ValidateListing, ValidateHeaders, IsSlug, Strip, Lower, Names, AreGivenModels, AreGivenHeaders, Fits;
    TextIsAccepted(p.displayName, 512);
    SecretIsAccepted(if p.apiKey.Some? then p.apiKey.value else "");
    ListingIsAcceptedIff(p.models);
    HeadersAreAcceptedIff(p.headers);
    if ValidateHeaders(p.headers).Success? {
      NamedIffGiven(p.headers, "authorization");
    }
  }

  /** A header name is a token: letters, digits and hyphens are fine, and nothing that could end or begin a field is. */
  lemma HeaderNameIsToken(s: string)
    ensures IsHeaderName(s) || s == []
            || exists i :: 0 <= i < |s| && !('a' <= s[i] <= 'z' || 'A' <= s[i] <= 'Z' || '0' <= s[i] <= '9' || s[i] == '-')
    ensures IsHeaderName(s) ==> s != [] && forall i :: 0 <= i < |s| ==> ' ' < s[i] <= '~' && s[i] !in ":;,\"()<>[]{}/?@=\\"
  {
  }

  /** The model that is stored for a given one. */
  function StoredModel(m: DiscoveredModel): DiscoveredModel {
    DiscoveredModel(Strip(m.upstreamId),
                    if m.displayName.None? || AllSpace(m.displayName.value) then None else Some(Strip(m.displayName.value)))
  }

  lemma ListingIsStored(ms: seq<DiscoveredModel>)
    requires ValidateListing(ms).Success?
    ensures |ValidateListing(ms).value| == |ms| && forall i :: 0 <= i < |ms| ==> ValidateListing(ms).value[i] == StoredModel(ms[i])
  {
    var r := ValidateListing(ms).value;
    forall i | 0 <= i < |ms| ensures r[i] == StoredModel(ms[i]) {
      assert MODEL.id(ms[i].upstreamId) == Success(r[i].upstreamId) && MODEL.name(ms[i].displayName) == Success(r[i].displayName);
      TextIsAccepted(ms[i].upstreamId, 512);
      if ms[i].displayName.Some? {
        TextIsAccepted(ms[i].displayName.value, 512);
      }
    }
  }

  /* The validators are idempotent and agree with the registry's */

  ghost predicate IsIdempotent(check: HeaderCheck) {
    forall h :: check(h).Success? ==> check(check(h).value) == check(h)
  }

  lemma {:induction false} CheckedHeadersAreFixed(check: HeaderCheck, hs: seq<Header>)
    requires IsIdempotent(check) && CheckHeaders(check, hs).Success?
    ensures var v := CheckHeaders(check, hs).value; CheckHeaders(check, v) == Success(v)
  {
    if hs != [] {
      var front, last := hs[..|hs| - 1], hs[|hs| - 1];
      CheckedHeadersAreFixed(check, front);
      var v := CheckHeaders(check, hs).value;
      assert v[..|v| - 1] == CheckHeaders(check, front).value && v[|v| - 1] == check(last).value;
    }
  }

  lemma HeaderIsFixed(h: Header)
    requires ValidateHeader(h).Success?
    ensures ValidateHeader(ValidateHeader(h).value) == ValidateHeader(h)
  {
    StripIsStripped(h.name);
    StripOfStripped(Strip(h.name));
  }

  lemma HeadersAreFixed(hs: seq<Header>)
    requires ValidateHeaders(hs).Success?
    ensures var v := ValidateHeaders(hs).value; ValidateHeaders(v) == Success(v)
  {
    forall h | HEADER(h).Success? ensures HEADER(HEADER(h).value) == HEADER(h) {
      HeaderIsFixed(h);
    }
    CheckedHeadersAreFixed(HEADER, hs);
  }

  /** An identifier the store accepts is one the registry accepts, unchanged. */
  lemma IdAgrees(id: string)
    requires ValidateId(id).Success?
    ensures ValidateId(ValidateId(id).value) == ValidateId(id)
    ensures NormaliseProvider(ValidateId(id).value) == Success(ValidateId(id).value)
  {
    SlugIsNormal(ValidateId(id).value);
    StripOfStripped(ValidateId(id).value);
  }

  lemma TextAgrees(s: string)
    requires Fits(s, 512)
    ensures Strip(s) != [] ==> NormaliseText(Strip(s)) == Success(Strip(s))
    ensures Strip(Strip(s)) == Strip(s)
  {
    StripIsStripped(s);
    StripOfStripped(Strip(s));
  }

  lemma OptionalTextAgrees(s: Option<string>)
    requires ValidateOptionalText(s, 512).Success?
    ensures var v := ValidateOptionalText(s, 512).value; NormaliseOptional(v) == Success(v)
  {
    if s.Some? {
      TextAgrees(s.value);
    }
  }

  lemma ModelsAgree()
    ensures Agree(MODEL, NORMALISE)
  {
    forall s | ValidateText(s, 512).Success?
      ensures NormaliseText(ValidateText(s, 512).value) == Success(ValidateText(s, 512).value)
    {
      TextAgrees(s);
    }
    forall s | ValidateOptionalText(s, 512).Success?
      ensures NormaliseOptional(ValidateOptionalText(s, 512).value) == Success(ValidateOptionalText(s, 512).value)
    {
      OptionalTextAgrees(s);
    }
  }

  /** A catalogue the store accepts is one the registry accepts, unchanged. */
  lemma ListingAgrees(ms: seq<DiscoveredModel>)
    requires ValidateListing(ms).Success?
    ensures ValidateModels(ValidateListing(ms).value) == Success(ValidateListing(ms).value)
  {
    ModelsAgree();
    CheckedPasses(MODEL, NORMALISE, ms);
  }

  lemma ListingIsAccepted(id: string, listing: seq<DiscoveredModel>)
    requires ValidateId(id).Success? && ValidateListing(listing).Success?
    ensures AcceptsListing(ValidateId(id).value, ValidateListing(listing).value)
    ensures |ValidateListing(listing).value| == |listing|
  {
    IdAgrees(id);
    ListingAgrees(listing);
  }

  /* Replacing and loading */

  datatype Store = Store(tables: Tables, providers: map<string, ProviderRow>)

  function RowOf(host: Host, p: Provider, at: int): Result<ProviderRow, StoreError> {
    var headers := host.protect(host.encode(p.headers));
    if headers.None? then Failure(ProtectionFailed)
    else if p.apiKey.None? then Success(ProviderRow(p.displayName, p.baseUrl, None, headers.value, at))
    else
      var key := host.protect(p.apiKey.value);
      if key.None? then Failure(ProtectionFailed)
      else Success(ProviderRow(p.displayName, p.baseUrl, key, headers.value, at))
  }

  /** The one transaction: the catalogue if there is one, and the provider row. */
  function Committed(s: Store, p: Provider, row: ProviderRow, at: int): Store {
    Store(if p.models == [] then s.tables else AfterConfigure(s.tables, p.id, p.models, at), s.providers[p.id := row])
  }

  /** `commits` says whether the database commits the transaction. */
  function Replace(host: Host, s: Store, provider: Provider, at: int, commits: bool): Result<Store, StoreError> {
    var p :- ValidateProvider(host, provider);
    var row :- RowOf(host, p, at);
    if !commits then Failure(StorageFailed)
    else Success(Committed(s, p, row, at))
  }

  function Unseal(host: Host, value: Sealed): Result<string, StoreError> {
    var text := host.unprotect(value);
    if text.None? || '\0' in text.value then Failure(ProtectionFailed) else Success(text.value)
  }

  function LoadedModels(t: Tables, provider: string): set<DiscoveredModel> {
    set id | id in AvailableIds(t, provider) :: DiscoveredModel(t.models[id].upstreamId, t.models[id].displayName)
  }

  datatype Loaded = Loaded(
    id: string, displayName: string, baseUrl: string, apiKey: Option<string>,
    models: set<DiscoveredModel>, headers: seq<Header>)

  function LoadKey(host: Host, row: ProviderRow): Result<Option<string>, StoreError> {
    if row.apiKey.None? || row.apiKey.value == [] then Success(None)
    else
      var text :- Unseal(host, row.apiKey.value);
      Success(Some(text))
  }

  function LoadHeaders(host: Host, row: ProviderRow): Result<seq<Header>, StoreError> {
    var text :- Unseal(host, row.headers);
    if host.decode(text).None? then Failure(ProtectionFailed) else ValidateHeaders(host.decode(text).value)
  }

  function Load(host: Host, s: Store, id: string): Result<Option<Loaded>, StoreError> {
    var normal :- ValidateId(id);
    if normal !in s.providers then Success(None)
    else
      var row := s.providers[normal];
      var key :- LoadKey(host, row);
      var headers :- LoadHeaders(host, row);
      Success(Some(Loaded(normal, row.displayName, row.baseUrl, key, LoadedModels(s.tables, normal), headers)))
  }

  lemma OfferedIsLoaded(t: Tables, p: string, ms: seq<DiscoveredModel>)
    requires WellFormed(t) && IsSlug(p) && Offers(t, p, ms) && IsCatalogue(ms)
    ensures LoadedModels(t, p) == set m | m in ms
  {
    forall id | id in Ids(p, ms)
      ensures Entry(p, ms, id).Some? && Entry(p, ms, id).value in ms
              && Entry(p, ms, id).value == DiscoveredModel(t.models[id].upstreamId, t.models[id].displayName)
    {
      EntryFinds(p, ms, id);
      assert id in AvailableIds(t, p);
      CanonicalIsInjective(p, Entry(p, ms, id).value.upstreamId, t.models[id].provider, t.models[id].upstreamId);
    }
    forall m | m in ms ensures m in LoadedModels(t, p) {
      var i :| 0 <= i < |ms| && ms[i] == m;
      var id := Join(p, m.upstreamId);
      ListedIsEntry(p, ms, i);
      EntryFinds(p, ms, id);
      assert id in AvailableIds(t, p);
    }
  }

  lemma {:induction false} ListedIsEntry(p: string, ms: seq<DiscoveredModel>, i: nat)
    requires IsSlug(p) && IsCatalogue(ms) && i < |ms|
    ensures Entry(p, ms, Join(p, ms[i].upstreamId)) == Some(ms[i])
  {
    if i < |ms| - 1 {
      if Join(p, ms[|ms| - 1].upstreamId) == Join(p, ms[i].upstreamId) {
        CanonicalIsInjective(p, ms[|ms| - 1].upstreamId, p, ms[i].upstreamId);
      }
      ListedIsEntry(p, ms[..|ms| - 1], i);
    }
  }

  lemma SealedOpens(host: Host, text: string)
    requires Trusted(host) && host.protect(text).Some? && '\0' !in text
    ensures Unseal(host, host.protect(text).value) == Success(text)
  {
  }

  /** A key that was stored loads as what it opens to; one that opens to nothing or to text with a NUL does not load. */
  lemma KeyLoadsIff(host: Host, row: ProviderRow, text: string)
    ensures LoadKey(host, row) == Success(Some(text)) <==>
              row.apiKey.Some? && row.apiKey.value != [] && host.unprotect(row.apiKey.value) == Some(text) && '\0' !in text
    ensures LoadKey(host, row) == Success(None) <==> row.apiKey.None? || row.apiKey.value == []
  {
  }

  /** A row opens to the key and headers it was made from. */
  lemma RowOpens(host: Host, p: Provider, at: int)
    requires Trusted(host) && RowOf(host, p, at).Success?
    requires p.apiKey.Some? ==> '\0' !in p.apiKey.value
    ensures LoadKey(host, RowOf(host, p, at).value) == Success(p.apiKey)
    ensures LoadHeaders(host, RowOf(host, p, at).value) == ValidateHeaders(p.headers)
  {
    SealedOpens(host, host.encode(p.headers));
    if p.apiKey.Some? {
      SealedOpens(host, p.apiKey.value);
    }
  }

  lemma KeyHasNoNul(key: Option<string>)
    requires ValidateSecret(key).Success? && ValidateSecret(key).value.Some?
    ensures '\0' !in ValidateSecret(key).value.value
  {
  }

  /** A catalogue that both validators leave alone, once an operation accepts it, is what is loaded. */
  lemma AcceptedIsLoaded(t: Tables, op: Op, id: string, ms: seq<DiscoveredModel>)
    requires WellFormed(t) && IsSlug(id) && IsCatalogue(ms) && AcceptedFor(op, id) == Some(ms)
    ensures LoadedModels(Apply(t, op), id) == set m | m in ms
  {
    ApplyOffers(t, op, id);
    ApplyKeepsWellFormed(t, op);
    OfferedIsLoaded(Apply(t, op), id, ms);
  }

  lemma StoredCatalogueIsLoaded(t: Tables, id: string, ms: seq<DiscoveredModel>, at: int)
    requires WellFormed(t) && NormaliseProvider(id) == Success(id) && ValidateModels(ms) == Success(ms) && ms != []
    ensures LoadedModels(AfterConfigure(t, id, ms, at), id) == set m | m in ms
    ensures LoadedModels(AfterRefresh(t, id, ms, at), id) == set m | m in ms
  {
    AcceptedIsLoaded(t, Configure(id, ms, at), id, ms);
    AcceptedIsLoaded(t, Refresh(id, ms, at), id, ms);
  }

  /** A provider that the validators leave alone, with the catalogue that its registry listing becomes. */
  ghost predicate IsValidated(p: Provider) {
    && IsSlug(p.id) && NormaliseProvider(p.id) == Success(p.id)
    && ValidateModels(p.models) == Success(p.models)
    && ValidateHeaders(p.headers) == Success(p.headers)
    && (p.apiKey.Some? ==> '\0' !in p.apiKey.value)
  }

  lemma ValidationValidates(host: Host, provider: Provider)
    requires ValidateProvider(host, provider).Success?
    ensures var p := ValidateProvider(host, provider).value; IsValidated(p) && ValidateId(provider.id) == Success(p.id)
  {
    IdAgrees(provider.id);
    ListingAgrees(provider.models);
    HeadersAreFixed(provider.headers);
    if ValidateSecret(provider.apiKey).value.Some? {
      KeyHasNoNul(provider.apiKey);
    }
  }

  lemma CommittedIsLoaded(host: Host, s: Store, p: Provider, at: int, id: string)
    requires Trusted(host) && WellFormed(s.tables) && IsValidated(p) && RowOf(host, p, at).Success?
    requires ValidateId(id) == Success(p.id)
    ensures Load(host, Committed(s, p, RowOf(host, p, at).value, at), id)
         == var models := if p.models == [] then LoadedModels(s.tables, p.id) else set m | m in p.models;
            Success(Some(Loaded(p.id, p.displayName, p.baseUrl, p.apiKey, models, p.headers)))
  {
    var row := RowOf(host, p, at).value;
    var after := Committed(s, p, row, at);
    assert p.id in after.providers && after.providers[p.id] == row;
    RowOpens(host, p, at);
    if p.models != [] {
      StoredCatalogueIsLoaded(s.tables, p.id, p.models, at);
    }
  }

  /**
   A successful replacement is loaded back: identifier, name, URL, key and headers are the normalised
   ones, and a non-empty catalogue is, as a set, what is offered; an empty one leaves the models alone.
   */
  lemma ReplacedIsLoaded(host: Host, s: Store, provider: Provider, at: int, id: string)
    requires Trusted(host) && WellFormed(s.tables)
    requires Replace(host, s, provider, at, true).Success?
    requires ValidateId(id) == ValidateId(provider.id)
    ensures Load(host, Replace(host, s, provider, at, true).value, id)
         == var p := ValidateProvider(host, provider).value;
            var models := if p.models == [] then LoadedModels(s.tables, p.id) else set m | m in p.models;
            Success(Some(Loaded(p.id, p.displayName, p.baseUrl, p.apiKey, models, p.headers)))
  {
    ValidationValidates(host, provider);
    CommittedIsLoaded(host, s, ValidateProvider(host, provider).value, at, id);
  }

  /**
   What is loaded after a successful replacement, in terms of what was given: the key as it was, if there was one;
   name, header names and models without the white space around them; header values as they were.
   */
  lemma GivenIsLoaded(host: Host, s: Store, provider: Provider, at: int)
    requires Trusted(host) && WellFormed(s.tables) && Replace(host, s, provider, at, true).Success?
    ensures var after := Replace(host, s, provider, at, true).value;
            var loaded := Load(host, after, provider.id);
            && loaded.Success? && loaded.value.Some?
            && loaded.value.value.id == Lower(Strip(provider.id))
            && loaded.value.value.apiKey == (if provider.apiKey == Some("") then None else provider.apiKey)
            && loaded.value.value.displayName == Strip(provider.displayName)
            && Some(loaded.value.value.baseUrl) == host.normaliseUrl(provider.baseUrl)
            && |loaded.value.value.headers| == |provider.headers|
            && (forall i :: 0 <= i < |provider.headers| ==>
                  loaded.value.value.headers[i] == Header(Strip(provider.headers[i].name), provider.headers[i].value))
            && (provider.models != [] ==>
                  loaded.value.value.models == set i | 0 <= i < |provider.models| :: StoredModel(provider.models[i]))
            && (provider.models == [] ==> loaded.value.value.models == LoadedModels(s.tables, Lower(Strip(provider.id))))
  {
    hide Strip, Lower, IsSlug, Load, LoadedModels, Trusted, WellFormed, AllSpace, Fits, Committed, RowOf;
    ReplacedIsLoaded(host, s, provider, at, provider.id);
    SecretIsAccepted(if provider.apiKey.Some? then provider.apiKey.value else "");
    TextIsAccepted(provider.displayName, 512);
    HeadersAreAcceptedIff(provider.headers);
    ListingIsStored(provider.models);
    var p := ValidateProvider(host, provider).value;
    assert p.models == ValidateListing(provider.models).value && p.headers == ValidateHeaders(provider.headers).value;
    assert (set m | m in p.models) == set i | 0 <= i < |provider.models| :: StoredModel(provider.models[i]) by {
      assert forall m :: m in p.models <==> exists i :: 0 <= i < |p.models| && p.models[i] == m;
    }
  }

  lemma CommittedIsLocal(s: Store, p: Provider, row: ProviderRow, at: int, other: string)
    requires WellFormed(s.tables) && IsValidated(p)
    ensures var after := Committed(s, p, row, at);
            && WellFormed(after.tables)
            && (other in s.tables.models && s.tables.models[other].provider != p.id ==>
                  other in after.tables.models && after.tables.models[other] == s.tables.models[other])
            && (other in s.providers && other != p.id ==> other in after.providers && after.providers[other] == s.providers[other])
  {
    var op := Configure(p.id, p.models, at);
    ApplyKeepsWellFormed(s.tables, op);
    if other in s.tables.models {
      ApplyIsLocal(s.tables, op, other);
    }
  }

  /** A replacement keeps the registry well formed and touches no row of another provider. */
  lemma ReplaceIsLocal(host: Host, s: Store, provider: Provider, at: int, other: string)
    requires WellFormed(s.tables) && Replace(host, s, provider, at, true).Success?
    ensures var p, after := ValidateProvider(host, provider).value, Replace(host, s, provider, at, true).value;
            && WellFormed(after.tables)
            && (other in s.tables.models && s.tables.models[other].provider != p.id ==>
                  other in after.tables.models && after.tables.models[other] == s.tables.models[other])
            && (other in s.providers && other != p.id ==> other in after.providers && after.providers[other] == s.providers[other])
  {
    ValidationValidates(host, provider);
    var p := ValidateProvider(host, provider).value;
    CommittedIsLocal(s, p, RowOf(host, p, at).value, at, other);
  }

  /* Live discovery */

  /** A discovery is for a provider that is configured and loads, with a listing the store's own validator accepts. */
  function Discover(host: Host, s: Store, id: string, listing: seq<DiscoveredModel>, at: int): Result<Store, StoreError> {
    var normal :- ValidateId(id);
    var loaded :- Load(host, s, normal);
    if loaded.None? then Failure(NotConfigured)
    else
      var models :- ValidateListing(listing);
      Success(s.(tables := AfterRefresh(s.tables, normal, models, at)))
  }

  lemma OnlyModelsChange(host: Host, s: Store, t: Tables, id: string)
    requires Load(host, s, id).Success? && Load(host, s, id).value.Some?
    ensures Load(host, s.(tables := t), id)
         == Success(Some(Load(host, s, id).value.value.(models := LoadedModels(t, ValidateId(id).value))))
  {
  }

  lemma LoadOfNormalId(host: Host, s: Store, id: string)
    requires ValidateId(id).Success?
    ensures Load(host, s, ValidateId(id).value) == Load(host, s, id)
  {
    IdAgrees(id);
  }

  /** A discovery that is not empty is what the provider loads from then on, and nothing else of it changes. */
  lemma DiscoveredIsLoaded(host: Host, s: Store, id: string, listing: seq<DiscoveredModel>, at: int)
    requires WellFormed(s.tables) && Discover(host, s, id, listing, at).Success? && listing != []
    ensures var before, after := Load(host, s, id), Load(host, Discover(host, s, id, listing, at).value, id);
            && before.Success? && before.value.Some?
            && after == Success(Some(before.value.value.(models := set m | m in ValidateListing(listing).value)))
  {
    LoadOfNormalId(host, s, id);
    IdAgrees(id);
    ListingAgrees(listing);
    ListingIsAccepted(id, listing);
    StoredCatalogueIsLoaded(s.tables, ValidateId(id).value, ValidateListing(listing).value, at);
    OnlyModelsChange(host, s, AfterRefresh(s.tables, ValidateId(id).value, ValidateListing(listing).value, at), id);
  }

  /* The metadata that every change ends with */

  datatype Verification = Unverified | Verified | ConnectionFailed(category: Option<Category>)

  /** A category reported by that name counts as the registry's own. */
  predicate MeansNotVerified(category: Option<Category>) {
    category == Some(NotVerified) || category == Some(Reported("not_verified"))
  }

  function VerificationOf(t: Tables, id: string): Verification {
    if id !in t.states || MeansNotVerified(t.states[id].error) then Unverified
    else if t.states[id].state.Available? then Verified
    else ConnectionFailed(t.states[id].error)
  }

  /** By the name that the registry uses for a catalogue configured by hand. */
  predicate IsConfigured(outcome: Outcome) {
    outcome.error == Some(NotVerified) || outcome.error == Some(Reported("not_verified"))
  }

  /**
   After any run of the registry a provider counts as verified exactly if its last recorded attempt was a live
   discovery that found models, and as unverified exactly if there was none or its catalogue was configured by hand.
   */
  lemma VerificationIsOfLastAttempt(ops: seq<Op>, id: string)
    ensures var v, last := VerificationOf(Run(EMPTY, ops), id), LastOutcome(ops, id);
            && (v.Verified? <==> last.Some? && last.value.state.Available?)
            && (v.Unverified? <==> last.None? || IsConfigured(last.value))
            && (v.ConnectionFailed? ==> v.category == last.value.error)
  {
    RunRecordsLastOutcome(ops, id);
    LiveHasNoError(ops, id);
  }

  lemma {:induction false} LiveHasNoError(ops: seq<Op>, id: string)
    ensures var last := LastOutcome(ops, id); last.Some? ==> (last.value.state.Available? <==> last.value.error.None?)
  {
    if ops != [] {
      LiveHasNoError(ops[..|ops| - 1], id);
    }
  }

  datatype Metadata = Metadata(
    id: string, displayName: string, baseUrl: string, keyConfigured: bool,
    headerNames: seq<string>, modelCount: nat, verification: Verification)

  function NamesOf(hs: seq<Header>): seq<string> {
    seq(|hs|, i requires 0 <= i < |hs| => hs[i].name)
  }

  function MetadataOf(s: Store, id: string, row: ProviderRow, headers: seq<Header>): Metadata {
    Metadata(id, row.displayName, row.baseUrl, row.apiKey.Some?, NamesOf(headers),
             |AvailableIds(s.tables, id)|, VerificationOf(s.tables, id))
  }

  lemma OfferedAreCounted(t: Tables, id: string, ms: seq<DiscoveredModel>)
    requires IsSlug(id) && IsCatalogue(ms) && Offers(t, id, ms)
    ensures |AvailableIds(t, id)| == |ms|
  {
    IdsAreMany(id, ms);
  }

  lemma ConfiguredIsDescribed(t: Tables, id: string, ms: seq<DiscoveredModel>, at: int)
    requires WellFormed(t) && NormaliseProvider(id) == Success(id) && ValidateModels(ms) == Success(ms) && ms != []
    ensures |AvailableIds(AfterConfigure(t, id, ms, at), id)| == |ms| && VerificationOf(AfterConfigure(t, id, ms, at), id).Unverified?
  {
    hide NormaliseProvider, ValidateModels, WellFormed, Offers, AvailableIds, Refreshed, Ids;
    ApplyOffers(t, Configure(id, ms, at), id);
    OfferedAreCounted(AfterConfigure(t, id, ms, at), id, ms);
  }

  lemma RefreshedIsDescribed(t: Tables, id: string, ms: seq<DiscoveredModel>, at: int)
    requires WellFormed(t) && NormaliseProvider(id) == Success(id) && ValidateModels(ms) == Success(ms) && ms != []
    ensures |AvailableIds(AfterRefresh(t, id, ms, at), id)| == |ms| && VerificationOf(AfterRefresh(t, id, ms, at), id).Verified?
  {
    hide NormaliseProvider, ValidateModels, WellFormed, Offers, AvailableIds, Refreshed, Ids;
    ApplyOffers(t, Refresh(id, ms, at), id);
    OfferedAreCounted(AfterRefresh(t, id, ms, at), id, ms);
  }

  /**
   What is answered after a successful replacement: whether a key was given, the names of the headers, how many
   models, none of them verified.
   */
  lemma GivenIsDescribed(host: Host, s: Store, provider: Provider, at: int)
    requires Trusted(host) && WellFormed(s.tables) && Replace(host, s, provider, at, true).Success?
    ensures var after := Replace(host, s, provider, at, true).value;
            var id := Lower(Strip(provider.id));
            && id in after.providers && LoadHeaders(host, after.providers[id]).Success?
            && var m := MetadataOf(after, id, after.providers[id], LoadHeaders(host, after.providers[id]).value);
               && m.id == id && m.displayName == Strip(provider.displayName) && Some(m.baseUrl) == host.normaliseUrl(provider.baseUrl)
               && (m.keyConfigured <==> HasKey(provider))
               && |m.headerNames| == |provider.headers|
               && (forall i :: 0 <= i < |provider.headers| ==> m.headerNames[i] == Strip(provider.headers[i].name))
               && (provider.models != [] ==> m.modelCount == |provider.models| && m.verification.Unverified?)
  {
    hide Strip, Lower, IsSlug, LoadedModels, WellFormed, AllSpace, Fits, AfterConfigure, NormaliseProvider, ValidateModels, LoadHeaders;
    var p := ValidateProvider(host, provider).value;
    ValidationValidates(host, provider);
    RowOpens(host, p, at);
    SecretIsAccepted(if provider.apiKey.Some? then provider.apiKey.value else "");
    TextIsAccepted(provider.displayName, 512);
    HeadersAreAcceptedIff(provider.headers);
    ListingIsStored(provider.models);
    if p.models != [] {
      ConfiguredIsDescribed(s.tables, p.id, p.models, at);
    }
  }

  /** After a live discovery the provider counts as verified, with as many models as were found. */
  lemma DiscoveredIsDescribed(
      host: Host, s: Store, id: string, listing: seq<DiscoveredModel>, at: int, row: ProviderRow, headers: seq<Header>)
    requires WellFormed(s.tables) && Discover(host, s, id, listing, at).Success? && listing != []
    ensures var m := MetadataOf(Discover(host, s, id, listing, at).value, ValidateId(id).value, row, headers);
            m.modelCount == |listing| && m.verification.Verified?
  {
    hide ValidateId, ValidateListing, Load, AfterRefresh, AvailableIds;
    IdAgrees(id);
    ListingAgrees(listing);
    ListingIsAccepted(id, listing);
    RefreshedIsDescribed(s.tables, ValidateId(id).value, ValidateListing(listing).value, at);
  }

  /** The headers of every stored provider can be opened and pass validation. */
  predicate AllHeadersLoad(host: Host, providers: map<string, ProviderRow>) {
    forall id :: id in providers ==> LoadHeaders(host, providers[id]).Success?
  }

  predicate SomeOtherFails(host: Host, providers: map<string, ProviderRow>, id: string) {
    exists other :: other in providers && other != id && LoadHeaders(host, providers[other]).Failure?
  }

  lemma OthersDecide(host: Host, providers: map<string, ProviderRow>, id: string, row: ProviderRow)
    requires LoadHeaders(host, row).Success?
    ensures !AllHeadersLoad(host, providers[id := row]) <==> SomeOtherFails(host, providers, id)
  {
    hide LoadHeaders;
    var after := providers[id := row];
    if other :| other in providers && other != id && LoadHeaders(host, providers[other]).Failure? {
      assert after[other] == providers[other];
    }
  }

  /**
   A replacement that has committed still ends in an error if and only if the headers of some other
   stored provider do not load, because describing one provider lists them all.
   */
  lemma CommitEndsInErrorIff(host: Host, s: Store, provider: Provider, at: int)
    requires Trusted(host) && Replace(host, s, provider, at, true).Success?
    ensures !AllHeadersLoad(host, Replace(host, s, provider, at, true).value.providers)
       <==> SomeOtherFails(host, s.providers, ValidateProvider(host, provider).value.id)
  {
    hide ValidateProvider, ValidateModels, ValidateHeaders, NormaliseProvider, LoadHeaders, LoadKey, RowOf, IsSlug, AfterConfigure;
    var p := ValidateProvider(host, provider).value;
    ValidationValidates(host, provider);
    RowOpens(host, p, at);
    OthersDecide(host, s.providers, p.id, RowOf(host, p, at).value);
  }

  /**
   A discovery that has committed ends in an error if and only if its listing is empty or some other provider's
   headers do not load.
   */
  lemma DiscoveryEndsInErrorIff(host: Host, s: Store, id: string, listing: seq<DiscoveredModel>, at: int)
    requires Discover(host, s, id, listing, at).Success?
    ensures listing == [] || !AllHeadersLoad(host, Discover(host, s, id, listing, at).value.providers)
       <==> listing == [] || SomeOtherFails(host, s.providers, ValidateId(id).value)
  {
    hide ValidateId, ValidateListing, LoadHeaders, LoadKey, AfterRefresh, LoadedModels;
    IdAgrees(id);
    var normal := ValidateId(id).value;
    assert LoadHeaders(host, s.providers[normal]).Success?;
    OthersDecide(host, s.providers, normal, s.providers[normal]);
    assert s.providers[normal := s.providers[normal]] == s.providers;
  }

  /** Headers that cannot be unsealed do not load. */
  lemma SealedHeadersFail(host: Host, row: ProviderRow)
    requires host.unprotect(row.headers).None?
    ensures LoadHeaders(host, row).Failure?
  {
  }

  /** A host whose protection opens only what it has sealed itself. */
  const PLAIN_HOST := Host(s => Some(s), _ => Some("sealed"), s => if s == "sealed" then Some("[]") else None, _ => "[]", _ => Some([]))

  const PLAIN_PROVIDER := Provider("p", "P", "url", None, [], [])

  /** A store with a row sealed by another account. */
  const FOREIGN_ROW := ProviderRow("Q", "url", None, "foreign", 0)

  lemma PlainProviderIsAccepted()
    ensures ValidateProvider(PLAIN_HOST, PLAIN_PROVIDER) == Success(PLAIN_PROVIDER)
  {
    assert IsSlug("p") && "p"[0] == 'p' && "P"[0] == 'P';
    SlugIsNormal("p");
    StripOfStripped("p");
    StripOfStripped("P");
  }

  /** Beside such a row a replacement commits and ends in an error. */
  lemma SomeCommitEndsInError(tables: Tables, at: int)
    ensures var s := Store(tables, map["q" := FOREIGN_ROW]);
            var after := Replace(PLAIN_HOST, s, PLAIN_PROVIDER, at, true);
            && after.Success? && "p" in after.value.providers && !AllHeadersLoad(PLAIN_HOST, after.value.providers)
  {
    hide ValidateProvider, LoadHeaders;
    PlainProviderIsAccepted();
    var s := Store(tables, map["q" := FOREIGN_ROW]);
    var after := Replace(PLAIN_HOST, s, PLAIN_PROVIDER, at, true).value;
    assert "q"[0] != "p"[0] && "foreign"[0] != "sealed"[0];
    SealedHeadersFail(PLAIN_HOST, FOREIGN_ROW);
    assert after.providers["q"] == FOREIGN_ROW;
  }

  class CustomProviderStore {
    const host: Host
    const registry: Registry.ModelRegistry
    var providers: map<string, ProviderRow>

    function Contents(): Store
      reads this, registry
    {
      Store(registry.Contents(), providers)
    }

    constructor (host: Host, registry: Registry.ModelRegistry)
      ensures this.host == host && this.registry == registry && providers == map[]
    {
      this.host, this.registry, providers := host, registry, map[];
    }

    /** Lists every provider, opening the headers of each, and answers the one that is asked for. */
    method DescribeProvider(id: string) returns (r: Result<Metadata, StoreError>)
      ensures r.Success? <==> AllHeadersLoad(host, providers) && id in providers
      ensures r.Success? ==>
                r.value == MetadataOf(Contents(), id, providers[id], LoadHeaders(host, providers[id]).value)
    {
      var rest := providers.Keys;
      var listed: map<string, Metadata> := map[];
      while rest != {}
        invariant rest <= providers.Keys && listed.Keys == providers.Keys - rest
        invariant forall k :: k in listed ==> LoadHeaders(host, providers[k]).Success?
        invariant forall k :: k in listed ==>
                    listed[k] == MetadataOf(Contents(), k, providers[k], LoadHeaders(host, providers[k]).value)
        decreases rest
      {
        var next :| next in rest;
        var headers :- LoadHeaders(host, providers[next]);
        listed := listed[next := MetadataOf(Contents(), next, providers[next], headers)];
        rest := rest - {next};
      }
      r := if id in listed then Success(listed[id]) else Failure(NotConfigured);
    }

    /**
     Both tables change in one transaction, or neither does. An error does not tell which: describing the
     provider afterwards fails if any stored provider's headers do not load.
     */
    method ReplaceProvider(provider: Provider, at: int, commits: bool) returns (r: Result<Metadata, StoreError>)
      modifies this, registry
      ensures match Replace(host, old(Contents()), provider, at, commits)
              case Success(after) => Contents() == after && (r.Success? <==> AllHeadersLoad(host, after.providers))
              case Failure(error) => r == Failure(error) && Contents() == old(Contents())
      ensures r.Success? ==>
                && ValidateId(provider.id) == Success(r.value.id) && r.value.id in providers
                && LoadHeaders(host, providers[r.value.id]).Success?
                && r.value == MetadataOf(Contents(), r.value.id, providers[r.value.id], LoadHeaders(host, providers[r.value.id]).value)
    {
      var checked := CheckProvider(host, provider);
      var p :- checked;
      var row :- RowOf(host, p, at);
      if !commits {
        return Failure(StorageFailed);
      }
      ValidationValidates(host, provider);
      if p.models != [] {
        var stored := registry.RefreshConfigured(p.id, p.models, at);
        assert stored.Success?;
      }
      providers := providers[p.id := row];
      r := DescribeProvider(p.id);
    }

    /** An empty discovery is recorded as a failure of the provider, and refused; describing it afterwards may fail as well. */
    method RefreshDiscoveredModels(id: string, listing: seq<DiscoveredModel>, at: int) returns (r: Result<Metadata, StoreError>)
      modifies registry
      ensures match Discover(host, old(Contents()), id, listing, at)
              case Success(after) =>
                Contents() == after && (r.Success? <==> listing != [] && AllHeadersLoad(host, providers))
              case Failure(_) => r.Failure? && Contents() == old(Contents())
    {
      var normal :- ValidateId(id);
      var loaded :- Load(host, Contents(), normal);
      if loaded.None? {
        return Failure(NotConfigured);
      }
      IdAgrees(id);
      var listed := Registry.CheckModels(MODEL, listing);
      var models :- listed;
      assert listed == ValidateListing(listing);
      ListingIsAccepted(id, listing);
      var refreshed := registry.RefreshSuccess(normal, models, at);
      if refreshed.Failure? {
        return Failure(EmptyDiscovery);
      }
      r := DescribeProvider(normal);
    }
  }
}
