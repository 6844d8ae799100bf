/**
 Gateway API keys. Authentication reads a key's row in one transaction and stamps it in another, and
 creations, revocations and other authentications commit in between.
 */
module GatewayKeys {
  import opened Wrappers
  import opened Text

  /** Hashing, verification and which characters count as alphanumeric. */
  datatype Host = Host(hash: string -> Option<string>, check: (string, string) -> bool, isAlnum: char -> bool)

  datatype Key = Key(prefix: string, verifier: string, active: bool, created: int, lastUsed: Option<int>, revoked: Option<int>)

  /** An authentication between its two transactions, with the row it has read. */
  datatype Call = Call(supplied: string, id: string, prefix: string, verifier: string)

  datatype Entry = Created(id: string) | Authenticated(id: string, supplied: string) | Revoked(id: string)

  /** `log` records the calls that have succeeded, in the order in which their last transactions committed. */
  datatype State = State(keys: map<string, Key>, calls: map<nat, Call>, log: seq<Entry>)

  const INITIAL := State(map[], map[], [])

  const PREFIX := 16
  const SHORTEST_SECRET := 32
  const LONGEST_SECRET := 512

  function NormaliseId(host: Host, id: string): Option<string> {
    var normal := Strip(id);
    if normal == "" || |normal| > 64 then None
    else if forall i :: 0 <= i < |normal| ==> host.isAlnum(normal[i]) || normal[i] in "_-." then Some(normal)
    else None
  }

  /** Identifiers are normalised before any transaction. */
  datatype Event =
    | Create(id: string, secret: string, now: int)
    | Select(caller: nat, supplied: string, id: string)
    | Stamp(caller: nat, now: int)
    | Revoke(id: string, now: int)

  predicate PrefixTaken(keys: map<string, Key>, prefix: string) {
    exists id :: id in keys && keys[id].prefix == prefix
  }

  predicate Creates(host: Host, keys: map<string, Key>, id: string, secret: string) {
    && SHORTEST_SECRET <= |secret| <= LONGEST_SECRET
    && host.hash(secret).Some? && host.hash(secret).value != ""
    && id !in keys && !PrefixTaken(keys, secret[..PREFIX])
  }

  /** The query of an authentication finds this row. */
  predicate Selects(keys: map<string, Key>, supplied: string, id: string) {
    && PREFIX <= |supplied| <= LONGEST_SECRET
    && id in keys && keys[id].active && keys[id].prefix == supplied[..PREFIX]
  }

  predicate Stamps(host: Host, keys: map<string, Key>, c: Call) {
    host.check(c.verifier, c.supplied) && c.id in keys && keys[c.id].active
  }

  predicate Revokes(keys: map<string, Key>, id: string) {
    id in keys && keys[id].active
  }

  function NewKey(host: Host, secret: string, now: int): Key
    requires |secret| >= PREFIX && host.hash(secret).Some?
  {
    Key(secret[..PREFIX], host.hash(secret).value, true, now, None, None)
  }

  function Step(host: Host, s: State, e: Event): State {
    match e
    case Create(id, secret, now) =>
      if Creates(host, s.keys, id, secret) then
        s.(keys := s.keys[id := NewKey(host, secret, now)], log := s.log + [Created(id)])
      else s
    case Select(caller, supplied, id) =>
      if caller in s.calls || !Selects(s.keys, supplied, id) then s
      else s.(calls := s.calls[caller := Call(supplied, id, s.keys[id].prefix, s.keys[id].verifier)])
    case Stamp(caller, now) =>
      if caller !in s.calls then s
      else
        var c := s.calls[caller];
        if !Stamps(host, s.keys, c) then s.(calls := s.calls - {caller})
        else State(s.keys[c.id := s.keys[c.id].(lastUsed := Some(now))], s.calls - {caller}, s.log + [Authenticated(c.id, c.supplied)])
    case Revoke(id, now) =>
      if !Revokes(s.keys, id) then s
      else s.(keys := s.keys[id := s.keys[id].(active := false, revoked := Some(now))], log := s.log + [Revoked(id)])
  }

  function Play(host: Host, s: State, es: seq<Event>): State
    decreases |es|
  {
    if es == [] then s else Step(host, Play(host, s, es[..|es| - 1]), es[|es| - 1])
  }

  /* The invariant */

  /** Each finished call is borne out by the table: identifiers stay, revoked keys stay inactive, and callers knew the key. */
  predicate BorneOut(host: Host, keys: map<string, Key>, entry: Entry) {
    && entry.id in keys
    && (entry.Revoked? ==> !keys[entry.id].active)
    && (entry.Authenticated? ==>
          && PREFIX <= |entry.supplied| <= LONGEST_SECRET && keys[entry.id].prefix == entry.supplied[..PREFIX]
          && host.check(keys[entry.id].verifier, entry.supplied))
  }

  /** A call in progress has read what the table still says. */
  predicate IsCurrent(keys: map<string, Key>, c: Call) {
    && c.id in keys && keys[c.id].prefix == c.prefix && keys[c.id].verifier == c.verifier
    && PREFIX <= |c.supplied| <= LONGEST_SECRET && c.prefix == c.supplied[..PREFIX]
  }

  /** No key is created twice, and nothing succeeds with a revoked one, not even another revocation. */
  predicate IsOrderly(log: seq<Entry>) {
    forall i, j :: 0 <= i < j < |log| && log[i].id == log[j].id ==> !log[i].Revoked? && !log[j].Created?
  }

  ghost predicate Sound(host: Host, s: State) {
    && (forall id, other :: id in s.keys && other in s.keys && id != other ==> s.keys[id].prefix != s.keys[other].prefix)
    && (forall id :: id in s.keys ==> (s.keys[id].active <==> s.keys[id].revoked.None?))
    && (forall caller :: caller in s.calls ==> IsCurrent(s.keys, s.calls[caller]))
    && (forall i :: 0 <= i < |s.log| ==> BorneOut(host, s.keys, s.log[i]))
    && IsOrderly(s.log)
  }

  lemma CreateKeepsSound(host: Host, s: State, id: string, secret: string, now: int)
    requires Sound(host, s)
    ensures Sound(host, Step(host, s, Create(id, secret, now)))
  {
  }

  lemma SelectKeepsSound(host: Host, s: State, caller: nat, supplied: string, id: string)
    requires Sound(host, s)
    ensures Sound(host, Step(host, s, Select(caller, supplied, id)))
  {
  }

  /** Keys that differ only in when they were last used. */
  predicate AgreeButForUse(keys: map<string, Key>, after: map<string, Key>) {
    after.Keys == keys.Keys && forall id :: id in keys ==> after[id].(lastUsed := keys[id].lastUsed) == keys[id]
  }

  lemma UseKeepsSound(host: Host, s: State, after: map<string, Key>)
    requires Sound(host, s) && AgreeButForUse(s.keys, after)
    ensures Sound(host, s.(keys := after))
  {
  }

  lemma SuccessKeepsSound(host: Host, s: State, c: Call)
    requires Sound(host, s) && IsCurrent(s.keys, c) && Stamps(host, s.keys, c)
    ensures Sound(host, s.(log := s.log + [Authenticated(c.id, c.supplied)]))
  {
  }

  lemma StampKeepsSound(host: Host, s: State, caller: nat, now: int)
    requires Sound(host, s)
    ensures Sound(host, Step(host, s, Stamp(caller, now)))
  {
    if caller in s.calls {
      var c, rest := s.calls[caller], s.(calls := s.calls - {caller});
      assert Sound(host, rest) && IsCurrent(s.keys, c);
      if Stamps(host, s.keys, c) {
        hide Sound, IsCurrent, Stamps;
        SuccessKeepsSound(host, rest, c);
        var logged := rest.(log := s.log + [Authenticated(c.id, c.supplied)]);
        UseKeepsSound(host, logged, s.keys[c.id := s.keys[c.id].(lastUsed := Some(now))]);
      }
    }
  }

  lemma RevokeKeepsSound(host: Host, s: State, id: string, now: int)
    requires Sound(host, s)
    ensures Sound(host, Step(host, s, Revoke(id, now)))
  {
  }

  lemma StepKeepsSound(host: Host, s: State, e: Event)
    requires Sound(host, s)
    ensures Sound(host, Step(host, s, e))
  {
    match e
    case Create(id, secret, now) => CreateKeepsSound(host, s, id, secret, now);
    case Select(caller, supplied, id) => SelectKeepsSound(host, s, caller, supplied, id);
    case Stamp(caller, now) => StampKeepsSound(host, s, caller, now);
    case Revoke(id, now) => RevokeKeepsSound(host, s, id, now);
  }

  lemma {:induction false} RunsAreSound(host: Host, es: seq<Event>)
    ensures Sound(host, Play(host, INITIAL, es))
    decreases |es|
  {
    if es != [] {
      RunsAreSound(host, es[..|es| - 1]);
      StepKeepsSound(host, Play(host, INITIAL, es[..|es| - 1]), es[|es| - 1]);
    }
  }

  /**
   Under every interleaving, once a revocation has committed no authentication whose stamp comes later
   returns that key, even one that had already read its row; and an identifier is never created again.
   */
  lemma NothingAfterRevocation(host: Host, es: seq<Event>, i: nat, j: nat)
    requires i < j < |Play(host, INITIAL, es).log| && Play(host, INITIAL, es).log[i].Revoked?
    ensures Play(host, INITIAL, es).log[j].id != Play(host, INITIAL, es).log[i].id
  {
    RunsAreSound(host, es);
  }

  /**
   Whoever has authenticated presented the first characters of the key's secret and a secret its verifier accepts;
   no identifier is created twice.
   */
  lemma LogIsBorneOut(host: Host, es: seq<Event>, i: nat)
    requires i < |Play(host, INITIAL, es).log|
    ensures var s := Play(host, INITIAL, es);
            && s.log[i].id in s.keys
            && (s.log[i].Authenticated? ==>
                  && 16 <= |s.log[i].supplied| <= 512 && s.keys[s.log[i].id].prefix == s.log[i].supplied[..16]
                  && host.check(s.keys[s.log[i].id].verifier, s.log[i].supplied))
            && (forall j :: i < j < |s.log| && s.log[j].id == s.log[i].id ==> !s.log[j].Created?)
  {
    RunsAreSound(host, es);
    assert BorneOut(host, Play(host, INITIAL, es).keys, Play(host, INITIAL, es).log[i]);
  }

  lemma KeyIsKept(host: Host, s: State, e: Event, id: string)
    requires id in s.keys && s.keys[id].active && !(e.Revoke? && e.id == id)
    ensures id in Step(host, s, e).keys && Step(host, s, e).keys[id].(lastUsed := s.keys[id].lastUsed) == s.keys[id]
  {
  }

  lemma {:induction false} KeptUntilRevoked(host: Host, s: State, es: seq<Event>, id: string)
    requires id in s.keys && s.keys[id].active
    requires forall i :: 0 <= i < |es| ==> !(es[i].Revoke? && es[i].id == id)
    ensures id in Play(host, s, es).keys && Play(host, s, es).keys[id].(lastUsed := s.keys[id].lastUsed) == s.keys[id]
    decreases |es|
  {
    if es != [] {
      var front := es[..|es| - 1];
      assert forall i :: 0 <= i < |front| ==> front[i] == es[i];
      KeptUntilRevoked(host, s, front, id);
      KeyIsKept(host, Play(host, s, front), es[|es| - 1], id);
    }
  }

  lemma WholeCall(host: Host, s: State, id: string, supplied: string, caller: nat, now: int)
    requires Selects(s.keys, supplied, id) && host.check(s.keys[id].verifier, supplied) && caller !in s.calls
    ensures Step(host, Step(host, s, Select(caller, supplied, id)), Stamp(caller, now)) ==
            State(s.keys[id := s.keys[id].(lastUsed := Some(now))], s.calls, s.log + [Authenticated(id, supplied)])
  {
    var c := Call(supplied, id, s.keys[id].prefix, s.keys[id].verifier);
    assert s.calls[caller := c] - {caller} == s.calls;
  }

  /**
   A created key, whatever happens short of its revocation, authenticates with its secret, given a host whose hash
   verifies.
   */
  lemma CreatedKeyAuthenticates(host: Host, s: State, id: string, secret: string, created: int, es: seq<Event>, caller: nat, now: int)
    requires Creates(host, s.keys, id, secret) && host.check(host.hash(secret).value, secret)
    requires forall i :: 0 <= i < |es| ==> !(es[i].Revoke? && es[i].id == id)
    requires caller !in Play(host, Step(host, s, Create(id, secret, created)), es).calls
    ensures var t := Play(host, Step(host, s, Create(id, secret, created)), es);
            Step(host, Step(host, t, Select(caller, secret, id)), Stamp(caller, now)).log == t.log + [Authenticated(id, secret)]
  {
    var first := Step(host, s, Create(id, secret, created));
    KeptUntilRevoked(host, first, es, id);
    WholeCall(host, Play(host, first, es), id, secret, caller, now);
  }

  /* What each event does, and when */

  /** Which identifiers are taken, and as what. */
  lemma IdIsNormalised(host: Host, raw: string)
    ensures NormaliseId(host, raw).Some? <==>
              && !AllSpace(raw) && |Strip(raw)| <= 64
              && forall i :: 0 <= i < |Strip(raw)| ==> host.isAlnum(Strip(raw)[i]) || Strip(raw)[i] in {'_', '-', '.'}
    ensures NormaliseId(host, raw).Some? ==> NormaliseId(host, raw).value == Strip(raw)
  {
    StripIsEmptyIff(raw);
  }

  /**
   A secret of at least 32 and at most 512 characters becomes an active key, unless its identifier or its first 16
   characters are taken.
   */
  lemma KeyIsCreatedIff(host: Host, s: State, id: string, secret: string, now: int)
    ensures var t := Step(host, s, Create(id, secret, now));
            if && 32 <= |secret| <= 512 && host.hash(secret).Some? && host.hash(secret).value != ""
               && id !in s.keys && forall other :: other in s.keys ==> s.keys[other].prefix != secret[..16]
            then t == s.(keys := s.keys[id := Key(secret[..16], host.hash(secret).value, true, now, None, None)],
                         log := s.log + [Created(id)])
            else t == s
  {
  }

  /**
   A call that is not interleaved with others succeeds exactly for the secret of an active key, and then only its
   last use changes; otherwise nothing does.
   */
  lemma AuthenticatesIff(host: Host, s: State, id: string, supplied: string, caller: nat, now: int)
    requires caller !in s.calls
    ensures var t := Step(host, Step(host, s, Select(caller, supplied, id)), Stamp(caller, now));
            if && 16 <= |supplied| <= 512 && id in s.keys && s.keys[id].active
               && s.keys[id].prefix == supplied[..16] && host.check(s.keys[id].verifier, supplied)
            then t == s.(keys := s.keys[id := s.keys[id].(lastUsed := Some(now))], log := s.log + [Authenticated(id, supplied)])
            else t == s
  {
    if Selects(s.keys, supplied, id) {
      var c := Call(supplied, id, s.keys[id].prefix, s.keys[id].verifier);
      assert s.calls[caller := c] - {caller} == s.calls;
    }
  }

  /** A stamp ends its call, whether or not it succeeds, and a call in progress is not begun again. */
  lemma CallIsOnce(host: Host, s: State, caller: nat, supplied: string, id: string, now: int)
    ensures caller !in Step(host, s, Stamp(caller, now)).calls
    ensures caller in s.calls ==> Step(host, s, Select(caller, supplied, id)) == s
  {
  }

  /** Revoking deactivates an active key, once. */
  lemma KeyIsRevokedIff(host: Host, s: State, id: string, now: int, again: int)
    ensures var t := Step(host, s, Revoke(id, now));
            && Step(host, t, Revoke(id, again)) == t
            && (id !in s.keys || !s.keys[id].active ==> t == s)
            && (id in s.keys && s.keys[id].active ==>
                  t == s.(keys := s.keys[id := s.keys[id].(active := false, revoked := Some(now))], log := s.log + [Revoked(id)]))
  {
  }

  /* The store */

  class GatewayApiKeyStore {
    const host: Host
    var keys: map<string, Key>
    ghost var log: seq<Entry>

    ghost function Contents(): State
      reads this
    {
      State(keys, map[], log)
    }

    constructor (host: Host)
      ensures this.host == host && Contents() == INITIAL
    {
      this.host, keys, log := host, map[], [];
    }

    method InsertKey(id: string, secret: string, now: int) returns (created: bool)
      modifies this
      ensures Contents() == Step(host, old(Contents()), Create(id, secret, now))
      ensures created <==> Creates(host, old(keys), id, secret)
    {
      if !(SHORTEST_SECRET <= |secret| <= LONGEST_SECRET) {
        return false;
      }
      var encoded := host.hash(secret);
      if encoded.None? || encoded.value == "" || id in keys || PrefixTaken(keys, secret[..PREFIX]) {
        return false;
      }
      keys := keys[id := NewKey(host, secret, now)];
      log := log + [Created(id)];
      created := true;
    }

    method CreateKey(raw: string, secret: string, now: int) returns (created: bool)
      modifies this
      ensures NormaliseId(host, raw).None? ==> !created && Contents() == old(Contents())
      ensures NormaliseId(host, raw).Some? ==>
                && Contents() == Step(host, old(Contents()), Create(NormaliseId(host, raw).value, secret, now))
                && created == Creates(host, old(keys), NormaliseId(host, raw).value, secret)
    {
      var id := NormaliseId(host, raw);
      if id.None? {
        return false;
      }
      created := InsertKey(id.value, secret, now);
    }

    /** A whole call with nothing between its transactions. */
    method AuthenticateKey(supplied: string, now: int) returns (id: Option<string>)
      requires Sound(host, Contents())
      modifies this
      ensures forall k :: id == Some(k) <==> Selects(old(keys), supplied, k) && host.check(old(keys)[k].verifier, supplied)
      ensures id.Some? ==> Contents() == Step(host, Step(host, old(Contents()), Select(0, supplied, id.value)), Stamp(0, now))
      ensures id.None? ==> Contents() == old(Contents())
    {
      if !(PREFIX <= |supplied| <= LONGEST_SECRET) || !(exists k :: k in keys && Selects(keys, supplied, k)) {
        return None;
      }
      var found :| found in keys && Selects(keys, supplied, found);
      assert forall k :: Selects(keys, supplied, k) ==> k == found;
      if !host.check(keys[found].verifier, supplied) {
        return None;
      }
      WholeCall(host, Contents(), found, supplied, 0, now);
      keys := keys[found := keys[found].(lastUsed := Some(now))];
      log := log + [Authenticated(found, supplied)];
      id := Some(found);
    }

    method DeactivateKey(id: string, now: int) returns (revoked: bool)
      modifies this
      ensures Contents() == Step(host, old(Contents()), Revoke(id, now))
      ensures revoked <==> Revokes(old(keys), id)
    {
      if !Revokes(keys, id) {
        return false;
      }
      keys := keys[id := keys[id].(active := false, revoked := Some(now))];
      log := log + [Revoked(id)];
      revoked := true;
    }

    method RevokeKey(raw: string, now: int) returns (revoked: bool)
      modifies this
      ensures NormaliseId(host, raw).None? ==> !revoked && Contents() == old(Contents())
      ensures NormaliseId(host, raw).Some? ==>
                && Contents() == Step(host, old(Contents()), Revoke(NormaliseId(host, raw).value, now))
                && revoked == Revokes(old(keys), NormaliseId(host, raw).value)
    {
      var id := NormaliseId(host, raw);
      if id.None? {
        return false;
      }
      revoked := DeactivateKey(id.value, now);
    }
  }
}
