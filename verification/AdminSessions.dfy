/** Administrator sessions: a bounded table in login order, emptied when the password changes. */
module AdminSessions {
  import opened Wrappers

  datatype Session = Session(token: string, expiry: int)

  datatype Config = Config(ttl: int, limit: nat, check: (string, string) -> bool)

  predicate IsConfig(c: Config) {
    c.ttl > 0 && c.limit > 0
  }

  /* The table */

  function RemoveExpired(table: seq<Session>, now: int): seq<Session> {
    if table == [] then []
    else if table[0].expiry <= now then RemoveExpired(table[1..], now)
    else [table[0]] + RemoveExpired(table[1..], now)
  }

  /** The first session with the smallest expiry. */
  function Oldest(table: seq<Session>): (i: nat)
    requires table != []
    ensures i < |table| && forall j :: 0 <= j < |table| ==> table[i].expiry <= table[j].expiry
    ensures forall j :: 0 <= j < i ==> table[i].expiry < table[j].expiry
  {
    if |table| == 1 then 0
    else
      var i := Oldest(table[..|table| - 1]);
      if table[|table| - 1].expiry < table[i].expiry then |table| - 1 else i
  }

  function Without(table: seq<Session>, i: nat): seq<Session>
    requires i < |table|
  {
    table[..i] + table[i + 1..]
  }

  function Evict(table: seq<Session>, limit: nat): (r: seq<Session>)
    requires limit > 0
    ensures |r| < limit
    decreases |table|
  {
    if |table| < limit then table else Evict(Without(table, Oldest(table)), limit)
  }

  function Drop(table: seq<Session>, token: string): seq<Session> {
    if table == [] then []
    else if table[0].token == token then Drop(table[1..], token)
    else [table[0]] + Drop(table[1..], token)
  }

  predicate Holds(table: seq<Session>, token: string) {
    exists i :: 0 <= i < |table| && table[i].token == token
  }

  /* Events */

  /** `issued` lists the sessions issued since the last password change, `gone` the tokens logged out since then. */
  datatype State = State(
    verifier: string, table: seq<Session>,
    issued: seq<Session>, gone: set<string>, lastLogin: Option<int>)

  function Fresh(verifier: string): State {
    State(verifier, [], [], {}, None)
  }

  datatype Event =
    | Login(password: string, token: string, now: int)
    | Authorize(token: string, now: int)
    | Logout(token: string)
    | Replace(verifier: string)

  /** Tokens are never issued twice, and the clock, which logins read under the lock, does not go back between them. */
  predicate Enabled(s: State, e: Event) {
    match e
    case Login(_, token, now) =>
      !Holds(s.issued, token) && token !in s.gone && (s.lastLogin.Some? ==> s.lastLogin.value <= now)
    case _ => true
  }

  function Step(c: Config, s: State, e: Event): State
    requires IsConfig(c)
  {
    match e
    case Login(password, token, now) =>
      if !c.check(s.verifier, password) then s
      else
        var session := Session(token, now + c.ttl);
        s.(table := Evict(RemoveExpired(s.table, now), c.limit) + [session],
           issued := s.issued + [session], lastLogin := Some(now))
    case Authorize(token, now) => if token == "" then s else s.(table := RemoveExpired(s.table, now))
    case Logout(token) => if token == "" then s else s.(table := Drop(s.table, token), gone := s.gone + {token})
    case Replace(verifier) =>
      if verifier == "" then s
      else s.(verifier := verifier, table := [], issued := [], gone := {})
  }

  function Play(c: Config, s: State, es: seq<Event>): State
    requires IsConfig(c)
    decreases |es|
  {
    if es == [] then s else Step(c, Play(c, s, es[..|es| - 1]), es[|es| - 1])
  }

  ghost predicate IsRun(c: Config, s: State, es: seq<Event>)
    requires IsConfig(c)
  {
    forall i :: 0 <= i < |es| ==> Enabled(Play(c, s, es[..i]), es[i])
  }

  /* The surviving sessions */

  /** The sessions whose token has not been logged out. */
  function Remaining(issued: seq<Session>, gone: set<string>): seq<Session> {
    if issued == [] then []
    else if issued[0].token in gone then Remaining(issued[1..], gone)
    else [issued[0]] + Remaining(issued[1..], gone)
  }

  predicate Sorted(table: seq<Session>) {
    forall i, j :: 0 <= i < j < |table| ==> table[i].expiry <= table[j].expiry
  }

  predicate IsSuffix(table: seq<Session>, all: seq<Session>) {
    table == all || (all != [] && IsSuffix(table, all[1..]))
  }

  lemma {:induction false} SuffixTrans(a: seq<Session>, b: seq<Session>, c: seq<Session>)
    requires IsSuffix(a, b) && IsSuffix(b, c)
    ensures IsSuffix(a, c)
  {
    if b != c {
      SuffixTrans(a, b, c[1..]);
    }
  }

  lemma {:induction false} SuffixAppend(a: seq<Session>, b: seq<Session>, x: Session)
    requires IsSuffix(a, b)
    ensures IsSuffix(a + [x], b + [x])
  {
    if a != b {
      assert (b + [x])[1..] == b[1..] + [x];
      SuffixAppend(a, b[1..], x);
    }
  }

  lemma {:induction false} SuffixMembers(a: seq<Session>, b: seq<Session>)
    requires IsSuffix(a, b)
    ensures |a| <= |b| && forall x :: x in a ==> x in b
    ensures Sorted(b) ==> Sorted(a)
  {
    if a != b {
      SuffixMembers(a, b[1..]);
    }
  }

  lemma {:induction false} ExpiryRemovesOldest(table: seq<Session>, now: int)
    requires Sorted(table)
    ensures IsSuffix(RemoveExpired(table, now), table)
    ensures forall i :: 0 <= i < |RemoveExpired(table, now)| ==> RemoveExpired(table, now)[i].expiry > now
  {
    if table != [] {
      ExpiryRemovesOldest(table[1..], now);
      if table[0].expiry > now {
        NothingExpired(table, now);
      }
    }
  }

  lemma {:induction false} NothingExpired(table: seq<Session>, now: int)
    requires forall i :: 0 <= i < |table| ==> table[i].expiry > now
    ensures RemoveExpired(table, now) == table
  {
    if table != [] {
      NothingExpired(table[1..], now);
    }
  }

  lemma {:induction false} EvictionRemovesOldest(table: seq<Session>, limit: nat)
    requires Sorted(table) && limit > 0
    ensures IsSuffix(Evict(table, limit), table)
    decreases |table|
  {
    if |table| >= limit {
      var i := Oldest(table);
      assert table[0].expiry <= table[i].expiry;
      assert i == 0;
      assert Without(table, 0) == table[1..];
      EvictionRemovesOldest(table[1..], limit);
    }
  }

  /** Expiry removes exactly the expired sessions. */
  lemma {:induction false} ExpiryKeepsLive(table: seq<Session>, now: int)
    ensures forall x :: x in RemoveExpired(table, now) <==> x in table && x.expiry > now
  {
    if table != [] {
      ExpiryKeepsLive(table[1..], now);
    }
  }

  /** Eviction makes room for one session and no more. */
  lemma {:induction false} EvictionIsMinimal(table: seq<Session>, limit: nat)
    requires limit > 0
    ensures |Evict(table, limit)| == if |table| < limit then |table| else limit - 1
    decreases |table|
  {
    if |table| >= limit {
      EvictionIsMinimal(Without(table, Oldest(table)), limit);
    }
  }

  lemma {:induction false} RemainingAppend(a: seq<Session>, b: seq<Session>, gone: set<string>)
    ensures Remaining(a + b, gone) == Remaining(a, gone) + Remaining(b, gone)
  {
    if a == [] {
      assert a + b == b;
    } else {
      assert (a + b)[1..] == a[1..] + b;
      RemainingAppend(a[1..], b, gone);
    }
  }

  lemma RemainingOne(session: Session, gone: set<string>)
    requires session.token !in gone
    ensures Remaining([session], gone) == [session]
  {
    assert [session][1..] == [];
  }

  lemma {:induction false} RemainingDrops(issued: seq<Session>, gone: set<string>, token: string)
    ensures Remaining(issued, gone + {token}) == Drop(Remaining(issued, gone), token)
  {
    if issued != [] {
      RemainingDrops(issued[1..], gone, token);
      if issued[0].token !in gone {
        assert Remaining(issued, gone)[1..] == Remaining(issued[1..], gone);
      }
    }
  }

  lemma {:induction false} DropSuffix(table: seq<Session>, all: seq<Session>, token: string)
    requires IsSuffix(table, all)
    ensures IsSuffix(Drop(table, token), Drop(all, token))
    decreases |all|
  {
    if table != all {
      DropSuffix(table, all[1..], token);
      if all[0].token != token {
        assert Drop(all, token)[1..] == Drop(all[1..], token);
      }
    }
  }

  lemma {:induction false} RemainingMembers(issued: seq<Session>, gone: set<string>)
    ensures forall x :: x in Remaining(issued, gone) ==> x in issued && x.token !in gone
    ensures Sorted(issued) ==> Sorted(Remaining(issued, gone))
  {
    if issued != [] {
      RemainingMembers(issued[1..], gone);
      var rest := Remaining(issued[1..], gone);
      if Sorted(issued) && issued[0].token !in gone {
        forall i | 0 <= i < |rest| ensures issued[0].expiry <= rest[i].expiry {
          assert rest[i] in issued[1..];
        }
      }
    }
  }

  /**
   The invariant: the table stays within its limit, it is a suffix, in login order, of the sessions
   issued since the last password change and not logged out, and it holds none from before that change.
   */
  ghost predicate Sound(c: Config, s: State) {
    && |s.table| <= c.limit
    && Sorted(s.issued)
    && (s.issued != [] ==> s.lastLogin.Some? && s.issued[|s.issued| - 1].expiry <= s.lastLogin.value + c.ttl)
    && IsSuffix(s.table, Remaining(s.issued, s.gone))
  }

  /** The sessions that a login keeps. */
  lemma LoginKeepsNewest(table: seq<Session>, all: seq<Session>, now: int, limit: nat, session: Session)
    requires IsSuffix(table, all) && Sorted(all) && limit > 0
    ensures IsSuffix(Evict(RemoveExpired(table, now), limit) + [session], all + [session])
  {
    var live := RemoveExpired(table, now);
    SuffixMembers(table, all);
    ExpiryRemovesOldest(table, now);
    SuffixMembers(live, table);
    EvictionRemovesOldest(live, limit);
    SuffixTrans(live, table, all);
    SuffixTrans(Evict(live, limit), live, all);
    SuffixAppend(Evict(live, limit), all, session);
  }

  lemma LoginKeepsSound(c: Config, s: State, e: Event)
    requires IsConfig(c) && Sound(c, s) && e.Login? && Enabled(s, e)
    ensures Sound(c, Step(c, s, e))
  {
    hide Evict, RemoveExpired, IsSuffix, Remaining, Holds;
    assert !Holds(s.issued, e.token) && e.token !in s.gone;
    if c.check(s.verifier, e.password) {
      var session := Session(e.token, e.now + c.ttl);
      RemainingMembers(s.issued, s.gone);
      LoginKeepsNewest(s.table, Remaining(s.issued, s.gone), e.now, c.limit, session);
      RemainingAppend(s.issued, [session], s.gone);
      RemainingOne(session, s.gone);
      assert Step(c, s, e).table == Evict(RemoveExpired(s.table, e.now), c.limit) + [session];
    }
  }

  lemma AuthorizeKeepsSound(c: Config, s: State, e: Event)
    requires e.Authorize? && IsConfig(c) && Sound(c, s) && Enabled(s, e)
    ensures Sound(c, Step(c, s, e))
  {
    RemainingMembers(s.issued, s.gone);
    SuffixMembers(s.table, Remaining(s.issued, s.gone));
    ExpiryRemovesOldest(s.table, e.now);
    SuffixMembers(RemoveExpired(s.table, e.now), s.table);
    SuffixTrans(RemoveExpired(s.table, e.now), s.table, Remaining(s.issued, s.gone));
  }

  lemma LogoutKeepsSound(c: Config, s: State, e: Event)
    requires e.Logout? && IsConfig(c) && Sound(c, s) && Enabled(s, e)
    ensures Sound(c, Step(c, s, e))
  {
    RemainingDrops(s.issued, s.gone, e.token);
    DropSuffix(s.table, Remaining(s.issued, s.gone), e.token);
    DropShrinks(s.table, e.token);
  }

  lemma StepKeepsSound(c: Config, s: State, e: Event)
    requires IsConfig(c) && Sound(c, s) && Enabled(s, e)
    ensures Sound(c, Step(c, s, e))
  {
    match e
    case Login(_, _, _) => LoginKeepsSound(c, s, e);
    case Authorize(_, _) => AuthorizeKeepsSound(c, s, e);
    case Logout(_) => LogoutKeepsSound(c, s, e);
    case Replace(_) =>
  }

  lemma {:induction false} DropShrinks(table: seq<Session>, token: string)
    ensures |Drop(table, token)| <= |table|
  {
    if table != [] {
      DropShrinks(table[1..], token);
    }
  }

  /** Over every run the invariant holds, so expiry and eviction only ever remove the oldest sessions. */
  lemma {:induction false} RunsAreSound(c: Config, verifier: string, es: seq<Event>)
    requires IsConfig(c) && IsRun(c, Fresh(verifier), es)
    ensures Sound(c, Play(c, Fresh(verifier), es))
  {
    if es != [] {
      var front := es[..|es| - 1];
      assert forall i :: 0 <= i < |front| ==> front[..i] == es[..i] && front[i] == es[i];
      RunsAreSound(c, verifier, front);
      StepKeepsSound(c, Play(c, Fresh(verifier), front), es[|es| - 1]);
    }
  }

  /* The manager */

  class AdminSessionManager {
    const config: Config
    var verifier: string
    var sessions: seq<Session>
    // What has been issued and logged out since the last password change.
    ghost var issued: seq<Session>
    ghost var gone: set<string>
    ghost var lastLogin: Option<int>

    ghost function Contents(): State
      reads this
    {
      State(verifier, sessions, issued, gone, lastLogin)
    }

    constructor (config: Config, verifier: string)
      requires IsConfig(config) && verifier != ""
      ensures this.config == config && Contents() == Fresh(verifier)
    {
      this.config, this.verifier, sessions := config, verifier, [];
      issued, gone, lastLogin := [], {}, None;
    }

    method PurgeExpired(now: int)
      modifies this`sessions
      ensures sessions == RemoveExpired(old(sessions), now)
    {
      var kept := [];
      assert sessions[0..] == sessions;
      for i := 0 to |sessions|
        invariant sessions == old(sessions)
        invariant kept + RemoveExpired(sessions[i..], now) == RemoveExpired(sessions, now)
      {
        assert sessions[i..][1..] == sessions[i + 1..];
        if sessions[i].expiry > now {
          kept := kept + [sessions[i]];
        }
      }
      sessions := kept;
    }

    /** Checks the password and issues a session, first dropping expired and then the oldest sessions. */
    method Login(password: string, token: string, now: int) returns (issuedToken: Option<string>)
      requires IsConfig(config)
      modifies this
      ensures Contents() == Step(config, old(Contents()), Event.Login(password, token, now))
      ensures issuedToken == if config.check(verifier, password) then Some(token) else None
    {
      if !config.check(verifier, password) {
        return None;
      }
      PurgeExpired(now);
      ghost var live := sessions;
      while |sessions| >= config.limit
        invariant Evict(sessions, config.limit) == Evict(live, config.limit)
        invariant verifier == old(verifier) && issued == old(issued) && gone == old(gone)
        decreases |sessions|
      {
        var oldest := Oldest(sessions);
        sessions := Without(sessions, oldest);
      }
      sessions := sessions + [Session(token, now + config.ttl)];
      issued, lastLogin := issued + [Session(token, now + config.ttl)], Some(now);
      issuedToken := Some(token);
    }

    method ReplacePasswordVerifier(encoded: string)
      requires IsConfig(config)
      modifies this
      ensures Contents() == Step(config, old(Contents()), Replace(encoded))
    {
      if encoded == "" {
        return;
      }
      verifier, sessions := encoded, [];
      issued, gone := [], {};
    }

    method AuthorizeToken(token: string, now: int) returns (allowed: bool)
      requires IsConfig(config)
      modifies this
      ensures Contents() == Step(config, old(Contents()), Authorize(token, now))
      ensures allowed <==> token != "" && Holds(sessions, token)
    {
      if token == "" {
        return false;
      }
      PurgeExpired(now);
      allowed := Holds(sessions, token);
    }

    method LogoutToken(token: string)
      requires IsConfig(config)
      modifies this
      ensures Contents() == Step(config, old(Contents()), Logout(token))
    {
      if token == "" {
        return;
      }
      sessions := Drop(sessions, token);
      gone := gone + {token};
    }
  }

  /** A token is authorised if and only if its session is in the table and expires later. */
  lemma AuthorizedExactlyIf(c: Config, s: State, token: string, now: int)
    requires IsConfig(c) && token != ""
    ensures Holds(Step(c, s, Authorize(token, now)).table, token) <==>
            exists x :: x in s.table && x.token == token && x.expiry > now
  {
    var live := RemoveExpired(s.table, now);
    ExpiryKeepsLive(s.table, now);
    if Holds(live, token) {
      var i :| 0 <= i < |live| && live[i].token == token;
      assert live[i] in live;
    }
    if x :| x in s.table && x.token == token && x.expiry > now {
      var i :| 0 <= i < |live| && live[i] == x;
    }
  }

  lemma {:induction false} DropKeepsOthers(table: seq<Session>, token: string)
    ensures forall x :: x in Drop(table, token) <==> x in table && x.token != token
  {
    if table != [] {
      DropKeepsOthers(table[1..], token);
    }
  }

  /** A logout ends the sessions with its token and no others; the empty token ends none. */
  lemma LogoutEndsOne(c: Config, s: State, token: string)
    requires IsConfig(c)
    ensures forall x :: x in Step(c, s, Logout(token)).table <==> x in s.table && (token == "" || x.token != token)
    ensures Step(c, s, Logout(token)).verifier == s.verifier
  {
    DropKeepsOthers(s.table, token);
  }

  /** A new password starts afresh; an empty one changes nothing. */
  lemma ReplaceIsFresh(c: Config, s: State, verifier: string)
    requires IsConfig(c)
    ensures Step(c, s, Replace(verifier)) == if verifier == "" then s else Fresh(verifier).(lastLogin := s.lastLogin)
  {
  }

  /**
   With any lifetime and any limit above nothing, the right password and no other opens a session that is
   authorised until it expires.
   */
  lemma LoginOpensSession(c: Config, s: State, password: string, token: string, now: int, later: int)
    requires c.ttl > 0 && c.limit > 0 && !Holds(s.table, token) && token != ""
    ensures Holds(Step(c, Step(c, s, Login(password, token, now)), Authorize(token, later)).table, token)
       <==> c.check(s.verifier, password) && later < now + c.ttl
  {
    var t := Step(c, s, Login(password, token, now));
    AuthorizedExactlyIf(c, t, token, later);
    NotHeld(s.table, token);
    if c.check(s.verifier, password) {
      var live := RemoveExpired(s.table, now);
      var session := Session(token, now + c.ttl);
      assert t.table[|t.table| - 1] == session;
      ExpiryKeepsLive(s.table, now);
      EvictionKeepsMembers(live, c.limit);
      assert forall x :: x in t.table ==> x in s.table || x == session;
    }
  }

  lemma NotHeld(table: seq<Session>, token: string)
    requires !Holds(table, token)
    ensures forall x :: x in table ==> x.token != token
  {
  }

  lemma {:induction false} EvictionKeepsMembers(table: seq<Session>, limit: nat)
    requires limit > 0
    ensures forall x :: x in Evict(table, limit) ==> x in table
    decreases |table|
  {
    if |table| >= limit {
      EvictionKeepsMembers(Without(table, Oldest(table)), limit);
    }
  }

  /** Logins may follow each other in the same instant; both sessions stay if there is room for two. */
  lemma LoginsMayCoincide(c: Config, verifier: string, password: string, a: string, b: string, now: int)
    requires c.ttl > 0 && c.limit > 1 && a != b && c.check(verifier, password)
    ensures IsRun(c, Fresh(verifier), [Login(password, a, now), Login(password, b, now)])
    ensures Play(c, Fresh(verifier), [Login(password, a, now), Login(password, b, now)]).table
         == [Session(a, now + c.ttl), Session(b, now + c.ttl)]
  {
    var first, second := Login(password, a, now), Login(password, b, now);
    var es := [first, second];
    assert es[..0] == [] && es[..1] == [first] && [first][..0] == [];
    var s := Step(c, Fresh(verifier), first);
    assert Play(c, Fresh(verifier), [first]) == s && s.table == [Session(a, now + c.ttl)];
    NothingExpired(s.table, now);
    assert Play(c, Fresh(verifier), es) == Step(c, s, second);
  }

  /** An authorised token was issued since the last password change, is not logged out, and expires later. */
  lemma AuthorizedIsLive(c: Config, verifier: string, es: seq<Event>, token: string, now: int)
    requires IsConfig(c) && IsRun(c, Fresh(verifier), es)
    requires token != "" && Holds(Step(c, Play(c, Fresh(verifier), es), Authorize(token, now)).table, token)
    ensures var s := Play(c, Fresh(verifier), es);
            token !in s.gone && exists i :: 0 <= i < |s.issued| && s.issued[i].token == token && s.issued[i].expiry > now
  {
    var s := Play(c, Fresh(verifier), es);
    RunsAreSound(c, verifier, es);
    RemainingMembers(s.issued, s.gone);
    SuffixMembers(s.table, Remaining(s.issued, s.gone));
    ExpiryRemovesOldest(s.table, now);
    SuffixMembers(RemoveExpired(s.table, now), s.table);
    var live := RemoveExpired(s.table, now);
    var i :| 0 <= i < |live| && live[i].token == token;
    assert live[i] in s.table && live[i] in Remaining(s.issued, s.gone) && live[i] in s.issued;
  }
}
