/**
 Login tokens, refreshed access tokens and their revocation by token and by session. Signatures are not
 part of the model: a token stands for its verified payload.
 */
module TokenSessions {
  import opened Common

  datatype TokenKind = Access | Refresh

  /** Times are whole seconds; an empty jti or session means the claim is missing. */
  datatype Token = Token(jti: string, session: string, userId: string, username: string, role: string,
                         kind: TokenKind, exp: int)

  datatype Failure = Expired | TokenRevoked | SessionRevoked | WrongKind

  /** What decode_token returns: the payload with its session resolved. */
  function SessionOf(t: Token): string {
    if t.session != "" then t.session else t.jti
  }

  datatype Blacklists = Blacklists(tokens: set<string>, sessions: set<string>)

  predicate Blocked(b: Blacklists, t: Token) {
    (t.jti != "" && t.jti in b.tokens) || (SessionOf(t) != "" && SessionOf(t) in b.sessions)
  }

  /** decode_token: expiry is checked before the blacklists. */
  function Decode(b: Blacklists, now: int, t: Token): Result<Token, Failure> {
    if t.exp < now then Err(Expired)
    else if t.jti != "" && t.jti in b.tokens then Err(TokenRevoked)
    else if SessionOf(t) != "" && SessionOf(t) in b.sessions then Err(SessionRevoked)
    else Ok(t.(session := SessionOf(t)))
  }

  /** verify_token */
  function Verify(b: Blacklists, now: int, t: Token, expected: TokenKind): Result<Token, Failure> {
    match Decode(b, now, t)
    case Err(e) => Err(e)
    case Ok(d) => if d.kind != expected then Err(WrongKind) else Ok(d)
  }

  /** is_token_blacklisted: an expired token is reported as not blacklisted. */
  function IsTokenBlacklisted(b: Blacklists, now: int, t: Token): bool {
    t.exp >= now && Blocked(b, t)
  }

  /** create_access_token and create_refresh_token with the identifier the library draws. */
  function Create(kind: TokenKind, user: Token, session: string, jti: string, exp: int): Token {
    Token(jti, if session != "" then session else jti, user.userId, user.username, user.role, kind, exp)
  }

  /** refresh_access_token */
  function RefreshAccess(b: Blacklists, now: int, t: Token, jti: string, ttl: nat): Result<Token, Failure> {
    match Verify(b, now, t, Refresh)
    case Err(e) => Err(e)
    case Ok(d) => Ok(Create(Access, d, d.session, jti, now + ttl))
  }

  /** Decoding reports a revocation exactly when the other query reports the token as blacklisted. */
  lemma RevokedIffBlacklisted(b: Blacklists, now: int, t: Token)
    ensures Decode(b, now, t) in {Err(TokenRevoked), Err(SessionRevoked)} <==> IsTokenBlacklisted(b, now, t)
    ensures Decode(b, now, t).Ok? <==> t.exp >= now && !Blocked(b, t)
  {
  }

  // ---------------------------------------------------------------- runs

  /** issued lists every token handed out, oldest first. */
  datatype State = State(lists: Blacklists, now: int, issued: seq<Token>)

  datatype Lifetimes = Lifetimes(access: nat, refresh: nat)

  /** user carries the identity of a login; the identifiers are what the library draws. */
  datatype Step =
    | Login(user: Token, session: string, accessJti: string, refreshJti: string)
    | RefreshWith(token: Token, jti: string)
    | RevokeToken(token: Token)
    | RevokeJti(jti: string)
    | RevokeSession(session: string)
    | Wait(seconds: nat)
    | Clear

  function Next(life: Lifetimes, s: State, step: Step): State {
    match step
    case Login(user, sid, a, r) =>
      s.(issued := s.issued + [Create(Access, user, sid, a, s.now + life.access),
                               Create(Refresh, user, sid, r, s.now + life.refresh)])
    case RefreshWith(t, jti) =>
      var r := RefreshAccess(s.lists, s.now, t, jti, life.access);
      if r.Ok? then s.(issued := s.issued + [r.value]) else s
    case RevokeToken(t) =>
      if Decode(s.lists, s.now, t).Ok? && t.jti != "" then s.(lists := s.lists.(tokens := s.lists.tokens + {t.jti}))
      else s
    case RevokeJti(jti) =>
      if jti != "" then s.(lists := s.lists.(tokens := s.lists.tokens + {jti})) else s
    case RevokeSession(sid) =>
      if sid != "" then s.(lists := s.lists.(sessions := s.lists.sessions + {sid})) else s
    case Wait(d) => s.(now := s.now + d)
    case Clear => s.(lists := Blacklists({}, {}))
  }

  /** Identifiers drawn by the library are new; only tokens that were handed out are presented. */
  ghost predicate Fair(s: State, step: Step) {
    match step
    case Login(_, sid, a, r) =>
      && sid != "" && a != "" && r != "" && a != r && a != sid && r != sid
      && Unseen(s, sid) && Unseen(s, a) && Unseen(s, r)
    case RefreshWith(t, jti) => t in s.issued && jti != "" && Unseen(s, jti)
    case RevokeToken(t) => t in s.issued
    case _ => true
  }

  ghost predicate Unseen(s: State, id: string) {
    id !in s.lists.tokens && id !in s.lists.sessions && forall t :: t in s.issued ==> t.jti != id && t.session != id
  }

  function After(life: Lifetimes, s: State, steps: seq<Step>): State
    decreases |steps|
  {
    if steps == [] then s else After(life, Next(life, s, steps[0]), steps[1..])
  }

  ghost predicate FairRun(life: Lifetimes, s: State, steps: seq<Step>)
    decreases |steps|
  {
    steps != [] ==> Fair(s, steps[0]) && FairRun(life, Next(life, s, steps[0]), steps[1..])
  }

  /** Tokens have identifiers and sessions, and one session has one owner. */
  ghost predicate Owned(s: State) {
    && (forall t :: t in s.issued ==> t.jti != "" && t.session != "")
    && (forall t, u :: t in s.issued && u in s.issued && t.session == u.session ==>
         t.userId == u.userId && t.username == u.username && t.role == u.role)
  }

  /** A refreshed token is an access token of the same session, user and role; without a session it starts its own. */
  lemma RefreshKeepsIdentity(b: Blacklists, now: int, t: Token, jti: string, ttl: nat)
    ensures var r := RefreshAccess(b, now, t, jti, ttl);
      (r.Ok? <==> t.kind == Refresh && t.exp >= now && !Blocked(b, t)) &&
      (r.Ok? ==>
        && r.value.kind == Access && r.value.jti == jti
        && r.value.session == (if t.session != "" then t.session else if t.jti != "" then t.jti else jti)
        && r.value.userId == t.userId && r.value.username == t.username && r.value.role == t.role
        && r.value.exp == now + ttl)
  {
  }

  lemma NextOwned(life: Lifetimes, s: State, step: Step)
    requires Owned(s) && Fair(s, step)
    ensures Owned(Next(life, s, step))
  {
    var s' := Next(life, s, step);
    if step.RefreshWith? {
      RefreshKeepsIdentity(s.lists, s.now, step.token, step.jti, life.access);
      assert step.token in s.issued && SessionOf(step.token) == step.token.session;
    }
    hide RefreshAccess;
    forall t | t in s'.issued && t !in s.issued
      ensures t.jti != "" && t.session != ""
      ensures step.Login? || step.RefreshWith?
      ensures step.Login? ==> t.session == step.session && t.userId == step.user.userId &&
                              t.username == step.user.username && t.role == step.user.role
      ensures step.RefreshWith? ==> t.session == step.token.session && t.userId == step.token.userId &&
                                    t.username == step.token.username && t.role == step.token.role
    {
    }
  }

  /** Over every run of logins and refreshes all tokens of one session carry one user, name and role. */
  lemma {:induction false} SessionHasOneOwner(life: Lifetimes, s: State, steps: seq<Step>)
    requires Owned(s) && FairRun(life, s, steps)
    ensures Owned(After(life, s, steps))
    decreases |steps|
  {
    hide Owned, Next;
    if steps != [] {
      NextOwned(life, s, steps[0]);
      SessionHasOneOwner(life, Next(life, s, steps[0]), steps[1..]);
    }
  }

  predicate NoClear(steps: seq<Step>) {
    forall i :: 0 <= i < |steps| ==> !steps[i].Clear?
  }

  /** The tokens of a session, in the order they were handed out. */
  function OfSession(issued: seq<Token>, session: string): seq<Token> {
    if issued == [] then []
    else
      OfSession(issued[..|issued| - 1], session) +
      if SessionOf(issued[|issued| - 1]) == session then [issued[|issued| - 1]] else []
  }

  lemma OfSessionSnoc(issued: seq<Token>, t: Token, session: string)
    ensures OfSession(issued + [t], session) ==
            OfSession(issued, session) + if SessionOf(t) == session then [t] else []
  {
    assert (issued + [t])[..|issued|] == issued;
  }

  lemma NextKeepsRevocation(life: Lifetimes, s: State, step: Step, session: string)
    requires session != "" && session in s.lists.sessions && !step.Clear? && Fair(s, step)
    ensures session in Next(life, s, step).lists.sessions
    ensures OfSession(Next(life, s, step).issued, session) == OfSession(s.issued, session)
  {
    hide OfSession;
    match step
    case Login(user, sid, a, r) =>
      var t := Create(Access, user, sid, a, s.now + life.access);
      var u := Create(Refresh, user, sid, r, s.now + life.refresh);
      OfSessionSnoc(s.issued, t, session);
      OfSessionSnoc(s.issued + [t], u, session);
      assert s.issued + [t] + [u] == s.issued + [t, u];
    case RefreshWith(t, jti) =>
      var r := RefreshAccess(s.lists, s.now, t, jti, life.access);
      if r.Ok? {
        OfSessionSnoc(s.issued, r.value, session);
      }
    case _ =>
  }

  /**
   Once a session is revoked, and unless the lists are cleared, no further token of it is ever handed out and
   every token of it is rejected.
   */
  lemma {:induction false} RevokedSessionStaysDead(life: Lifetimes, s: State, steps: seq<Step>, session: string)
    requires session != "" && session in s.lists.sessions && NoClear(steps) && FairRun(life, s, steps)
    ensures var f := After(life, s, steps);
      && OfSession(f.issued, session) == OfSession(s.issued, session)
      && (forall t: Token, now: int :: SessionOf(t) == session ==> Decode(f.lists, now, t).Err?)
    decreases |steps|
  {
    hide OfSession, Next, Fair;
    if steps != [] {
      NextKeepsRevocation(life, s, steps[0], session);
      RevokedSessionStaysDead(life, Next(life, s, steps[0]), steps[1..], session);
    } else {
      var f := After(life, s, steps);
      forall t: Token, now: int | SessionOf(t) == session
        ensures Decode(f.lists, now, t).Err?
      {
      }
    }
  }

  /** The same for a single identifier: a revoked token never decodes again. */
  lemma {:induction false} RevokedTokenStaysDead(life: Lifetimes, s: State, steps: seq<Step>, jti: string)
    requires jti != "" && jti in s.lists.tokens && NoClear(steps)
    ensures jti in After(life, s, steps).lists.tokens
    ensures forall t: Token, now: int :: t.jti == jti ==> Decode(After(life, s, steps).lists, now, t).Err?
    decreases |steps|
  {
    if steps != [] {
      RevokedTokenStaysDead(life, Next(life, s, steps[0]), steps[1..], jti);
    }
  }

  /** The step revokes the token: by its identifier, by its session, or through a token that still decodes. */
  predicate Revokes(s: State, step: Step, t: Token) {
    match step
    case RevokeToken(u) => u.jti != "" && u.jti == t.jti && Decode(s.lists, s.now, u).Ok?
    case RevokeJti(jti) => jti != "" && jti == t.jti
    case RevokeSession(sid) => sid != "" && (t.session == sid || (t.session == "" && t.jti == sid))
    case _ => false
  }

  /** Some step of the run revokes the token and nothing clears the lists after it. */
  predicate RevokedDuring(life: Lifetimes, s: State, steps: seq<Step>, t: Token)
    decreases |steps|
  {
    steps != [] &&
    ((Revokes(s, steps[0], t) && NoClear(steps[1..])) || RevokedDuring(life, Next(life, s, steps[0]), steps[1..], t))
  }

  function Elapsed(steps: seq<Step>): nat {
    if steps == [] then 0 else (if steps[0].Wait? then steps[0].seconds else 0) + Elapsed(steps[1..])
  }

  lemma {:induction false} BlockedIff(life: Lifetimes, s: State, steps: seq<Step>, t: Token)
    ensures Blocked(After(life, s, steps).lists, t) <==>
            (Blocked(s.lists, t) && NoClear(steps)) || RevokedDuring(life, s, steps, t)
    ensures After(life, s, steps).now == s.now + Elapsed(steps)
    decreases |steps|
  {
    hide RefreshAccess, Create;
    if steps != [] {
      var s' := Next(life, s, steps[0]);
      BlockedIff(life, s', steps[1..], t);
      assert NoClear(steps) <==> !steps[0].Clear? && NoClear(steps[1..]);
    }
  }

  /**
   At the end of any run a token is accepted exactly when its time has not passed and no step of the run
   revoked it, clearing aside; within its time it is reported as blacklisted exactly in the other case.
   */
  lemma AcceptedIff(life: Lifetimes, now: int, steps: seq<Step>, t: Token)
    ensures var start := State(Blacklists({}, {}), now, []);
      var f := After(life, start, steps);
      var inTime := t.exp >= now + Elapsed(steps);
      && (Decode(f.lists, f.now, t).Ok? <==> inTime && !RevokedDuring(life, start, steps, t))
      && (IsTokenBlacklisted(f.lists, f.now, t) <==> inTime && RevokedDuring(life, start, steps, t))
  {
    hide After, RevokedDuring, Next;
    var start := State(Blacklists({}, {}), now, []);
    BlockedIff(life, start, steps, t);
    RevokedIffBlacklisted(After(life, start, steps).lists, now + Elapsed(steps), t);
  }

  /** Two runs whose lists differ at most in whether one identifier is on the token list. */
  ghost predicate AgreeBut(jti: string, s: State, u: State) {
    && s.now == u.now && s.lists.sessions == u.lists.sessions
    && forall id :: id != jti ==> (id in s.lists.tokens <==> id in u.lists.tokens)
  }

  lemma NextAgreesBut(life: Lifetimes, jti: string, s: State, u: State, step: Step)
    requires AgreeBut(jti, s, u)
    ensures AgreeBut(jti, Next(life, s, step), Next(life, u, step))
  {
    hide RefreshAccess, Create;
  }

  lemma {:induction false} AfterAgreesBut(life: Lifetimes, jti: string, s: State, u: State, steps: seq<Step>)
    requires AgreeBut(jti, s, u)
    ensures AgreeBut(jti, After(life, s, steps), After(life, u, steps))
    decreases |steps|
  {
    hide Next, AgreeBut;
    if steps != [] {
      NextAgreesBut(life, jti, s, u, steps[0]);
      AfterAgreesBut(life, jti, Next(life, s, steps[0]), Next(life, u, steps[0]), steps[1..]);
    }
  }

  /**
   Revoking one token, at whatever place in whatever run, makes no difference at its end to any token with another
   identifier: a logout by token leaves the other tokens of the session, and refreshing, as they were.
   */
  lemma RevokeTokenIsLocal(life: Lifetimes, s: State, t: Token, later: seq<Step>)
    ensures var with, without := After(life, Next(life, s, RevokeToken(t)), later), After(life, s, later);
      with.now == without.now &&
      forall u: Token :: u.jti != t.jti ==>
        Decode(with.lists, with.now, u) == Decode(without.lists, without.now, u)
  {
    AfterAgreesBut(life, t.jti, Next(life, s, RevokeToken(t)), s, later);
    hide After, Next;
  }

  /**
   After a login, and through any later run that does not clear the lists: once its refresh token is revoked the
   access token goes on being accepted in its time, until something revokes it too, and cannot be refreshed; once its
   session is revoked neither is accepted again.
   */
  lemma LogoutByTokenOrSession(life: Lifetimes, s: State, user: Token, sid: string, a: string, r: string,
                               later: seq<Step>)
    requires Fair(s, Login(user, sid, a, r)) && NoClear(later)
    ensures var s1 := Next(life, s, Login(user, sid, a, r));
      var access, refresh := s1.issued[|s.issued|], s1.issued[|s.issued| + 1];
      var revoked := Next(life, s1, RevokeToken(refresh));
      var byToken, bySession := After(life, revoked, later), After(life, Next(life, s1, RevokeSession(sid)), later);
      && (Verify(byToken.lists, byToken.now, access, Access).Ok? <==>
          life.access >= Elapsed(later) && !RevokedDuring(life, revoked, later, access))
      && (forall jti :: RefreshAccess(byToken.lists, byToken.now, refresh, jti, life.access).Err?)
      && Verify(bySession.lists, bySession.now, access, Access).Err?
      && (forall jti :: RefreshAccess(bySession.lists, bySession.now, refresh, jti, life.access).Err?)
  {
    var s1 := Next(life, s, Login(user, sid, a, r));
    var access, refresh := s1.issued[|s.issued|], s1.issued[|s.issued| + 1];
    assert access == Create(Access, user, sid, a, s.now + life.access);
    assert refresh == Create(Refresh, user, sid, r, s.now + life.refresh);
    var revoked, ended := Next(life, s1, RevokeToken(refresh)), Next(life, s1, RevokeSession(sid));
    assert !Blocked(revoked.lists, access) && Blocked(revoked.lists, refresh);
    assert Blocked(ended.lists, access) && Blocked(ended.lists, refresh);
    hide After, Next, RevokedDuring, NoClear, Blocked;
    BlockedIff(life, revoked, later, access);
    BlockedIff(life, revoked, later, refresh);
    BlockedIff(life, ended, later, access);
    BlockedIff(life, ended, later, refresh);
    var byToken, bySession := After(life, revoked, later), After(life, ended, later);
    RevokedIffBlacklisted(byToken.lists, byToken.now, access);
    RevokedIffBlacklisted(byToken.lists, byToken.now, refresh);
    RevokedIffBlacklisted(bySession.lists, bySession.now, access);
    RevokedIffBlacklisted(bySession.lists, bySession.now, refresh);
  }

  /**
   A session can be kept alive: at the end of any run after its login the refresh token gives a new access token of the
   session exactly while its own time lasts and nothing has revoked it; that token is handed out, and accepted for its
   lifetime from then on.
   */
  lemma RefreshKeepsSessionAlive(life: Lifetimes, s: State, user: Token, sid: string, a: string, r: string,
                                 later: seq<Step>, jti: string)
    requires Fair(s, Login(user, sid, a, r))
    ensures var s1 := Next(life, s, Login(user, sid, a, r));
      var refresh := s1.issued[|s.issued| + 1];
      var before := After(life, s1, later);
      var after := Next(life, before, RefreshWith(refresh, jti));
      if life.refresh >= Elapsed(later) && !RevokedDuring(life, s1, later, refresh)
      then
        && after.lists == before.lists && after.now == before.now
        && after.issued == before.issued +
             [Token(jti, sid, user.userId, user.username, user.role, Access, before.now + life.access)]
      else after == before
  {
    var s1 := Next(life, s, Login(user, sid, a, r));
    var refresh := s1.issued[|s.issued| + 1];
    assert refresh == Create(Refresh, user, sid, r, s.now + life.refresh);
    var before := After(life, s1, later);
    assert !Blocked(s1.lists, refresh);
    BlockedIff(life, s1, later, refresh);
    RefreshKeepsIdentity(before.lists, before.now, refresh, jti, life.access);
    hide After, RevokedDuring, Blocked, RefreshAccess, NoClear;
  }

  // ---------------------------------------------------------------- the module's own state

  /** The two sets the module keeps and the operations on them. */
  class SessionStore {
    var tokenBlacklist: set<string>
    var sessionBlacklist: set<string>

    function Lists(): Blacklists
      reads this
    {
      Blacklists(tokenBlacklist, sessionBlacklist)
    }

    constructor ()
      ensures Lists() == Blacklists({}, {})
    {
      tokenBlacklist, sessionBlacklist := {}, {};
    }

    method DecodeToken(t: Token, now: int) returns (r: Result<Token, Failure>)
      ensures r == Decode(Lists(), now, t)
      ensures r.Ok? <==> t.exp >= now && !Blocked(Lists(), t)
      ensures r.Ok? ==> r.value == t.(session := SessionOf(t))
      ensures r.Err? ==> (r.error == Expired <==> t.exp < now)
    {
      if t.exp < now {
        return Err(Expired);
      }
      var sessionId := if t.session != "" then t.session else t.jti;
      if t.jti != "" && t.jti in tokenBlacklist {
        return Err(TokenRevoked);
      }
      if sessionId != "" && sessionId in sessionBlacklist {
        return Err(SessionRevoked);
      }
      r := Ok(t.(session := sessionId));
    }

    method RefreshAccessToken(t: Token, now: int, jti: string, ttl: nat) returns (r: Result<Token, Failure>)
      ensures r == RefreshAccess(Lists(), now, t, jti, ttl)
      ensures r.Ok? <==> t.kind == Refresh && t.exp >= now && !Blocked(Lists(), t)
      ensures r.Ok? ==> r.value.kind == Access && r.value.jti == jti && r.value.exp == now + ttl
      ensures r.Ok? ==>
        r.value.session == if t.session != "" then t.session else if t.jti != "" then t.jti else jti
      ensures r.Ok? ==> r.value.userId == t.userId && r.value.username == t.username && r.value.role == t.role
    {
      var d := DecodeToken(t, now);
      if d.Err? {
        return Err(d.error);
      }
      if d.value.kind != Refresh {
        return Err(WrongKind);
      }
      r := Ok(Create(Access, d.value, d.value.session, jti, now + ttl));
    }

    /** Logout: revoking again raises, and an expired token needs no entry. */
    method BlacklistToken(t: Token, now: int) returns (r: Result<(), Failure>)
      modifies this
      ensures r == if Decode(old(Lists()), now, t) in {Err(TokenRevoked), Err(SessionRevoked)}
                   then Err(Decode(old(Lists()), now, t).error) else Ok(())
      ensures Lists() == if Decode(old(Lists()), now, t).Ok? && t.jti != ""
                         then old(Lists()).(tokens := old(Lists()).tokens + {t.jti}) else old(Lists())
    {
      var d := DecodeToken(t, now);
      match d
      case Ok(data) =>
        if data.jti != "" {
          tokenBlacklist := tokenBlacklist + {data.jti};
        }
        r := Ok(());
      case Err(e) =>
        r := if e == Expired then Ok(()) else Err(e);
    }

    method BlacklistTokenJti(jti: string)
      modifies this
      ensures Lists() == if jti == "" then old(Lists()) else old(Lists()).(tokens := old(Lists()).tokens + {jti})
    {
      if jti != "" {
        tokenBlacklist := tokenBlacklist + {jti};
      }
    }

    method BlacklistSessionId(session: string)
      modifies this
      ensures Lists() == if session == "" then old(Lists())
                         else old(Lists()).(sessions := old(Lists()).sessions + {session})
    {
      if session != "" {
        sessionBlacklist := sessionBlacklist + {session};
      }
    }

    method ClearBlacklist()
      modifies this
      ensures Lists() == Blacklists({}, {})
    {
      tokenBlacklist, sessionBlacklist := {}, {};
    }
  }
}
