/**
 What each transaction of the session manager answers and leaves, in the columns of its rows and
 the claims of its tokens. Instants are microseconds.
 */
module SessionRules {
  import opened Results
  import opened Sessions

  // ---- Access tokens --------------------------------------------------------------------------

  /** Signed by the manager for this audience, for some operator and session, and not before its time. */
  predicate Genuine(cfg: Config, token: AccessToken, now: Instant) {
    && token.authentic && token.claims.issuer == cfg.issuer && token.claims.audience == cfg.audience
    && token.claims.operator != "" && token.claims.session != "" && token.claims.notBefore * 1_000_000 <= now
  }

  predicate InTime(token: AccessToken, now: Instant) {
    now < token.claims.expiresAt * 1_000_000
  }

  /** The session is there, active, and not at its end. */
  predicate Open(db: Db, id: SessionId, now: Instant) {
    id in db.sessions && db.sessions[id].status == Active && now < db.sessions[id].expires
  }

  /** A token authenticates exactly when it is genuine and in time and its session is open; it hands out its claims. */
  lemma {:induction false} AuthenticatedExactly(cfg: Config, db: Db, token: AccessToken, now: Instant)
    ensures var outcome := AuthenticateStep(cfg, db, token, now);
            && (outcome.Authenticated? <==> Genuine(cfg, token, now) && InTime(token, now) && Open(db, token.claims.session, now))
            && (outcome.Authenticated? ==> outcome.claims == token.claims)
            && (outcome == Failed(AccessTokenInvalid) <==> !Genuine(cfg, token, now))
            && (outcome == Failed(AccessTokenExpired) <==> Genuine(cfg, token, now) && !InTime(token, now))
            && (outcome == Failed(SessionRevoked) <==>
                  Genuine(cfg, token, now) && InTime(token, now) && !Open(db, token.claims.session, now))
  {
  }

  /** The sessions with one of them, if it is active, revoked. */
  function Without(sessions: map<SessionId, Session>, id: SessionId): map<SessionId, Session> {
    if id in sessions && sessions[id].status == Active then sessions[id := sessions[id].(status := Revoked)] else sessions
  }

  /** A logout needs a genuine token in time; it revokes the session that the token names, and nothing else. */
  lemma {:induction false} LogoutExactly(cfg: Config, db: Db, token: AccessToken, now: Instant)
    ensures var (next, outcome) := LogoutStep(cfg, db, token, now);
            && (outcome == Done <==> Genuine(cfg, token, now) && InTime(token, now))
            && (outcome == Done ==> next == db.(sessions := Without(db.sessions, token.claims.session)))
            && (outcome != Done ==> next == db)
            && (outcome == Failed(AccessTokenInvalid) <==> !Genuine(cfg, token, now))
            && (outcome == Failed(AccessTokenExpired) <==> Genuine(cfg, token, now) && !InTime(token, now))
  {
  }

  /** What a grant hands out: the row's operator, device and warehouse, from the second it is issued in. */
  ghost predicate Grants(cfg: Config, grant: Grant, s: Session, id: SessionId, refresh: TokenId, now: Instant) {
    var c := grant.access.claims;
    && grant.access.authentic && c.issuer == cfg.issuer && c.audience == cfg.audience
    && c.operator == s.operator && c.session == id && c.device == s.device && c.warehouse == s.warehouse
    && c.notBefore * 1_000_000 <= now < (c.notBefore + 1) * 1_000_000
    && c.expiresAt * 1_000_000 <= now + cfg.accessTtl < (c.expiresAt + 1) * 1_000_000
    && grant.refresh == refresh && grant.refreshExpires == s.expires
  }

  lemma {:induction false} SignedGrants(cfg: Config, s: Session, id: SessionId, refresh: TokenId, now: Instant)
    ensures Grants(cfg, Grant(SignedAccess(cfg, s, id, now), refresh, s.expires), s, id, refresh, now)
  {
    assert now == 1_000_000 * Unix(now) + now % 1_000_000;
    assert now + cfg.accessTtl == 1_000_000 * Unix(now + cfg.accessTtl) + (now + cfg.accessTtl) % 1_000_000;
  }

  // ---- Login --------------------------------------------------------------------------------------

  predicate MayEnter(login: Login) {
    login.warehouse == "" || login.mayAccess
  }

  predicate OnKnownDevice(login: Login) {
    login.device == "" || login.warehouse == "" || login.registered
  }

  /** The keys that the two rows need. */
  predicate KeysAreFree(db: Db, login: Login) {
    login.session !in db.sessions && login.operator in db.operators && login.token !in db.tokens
  }

  /** A login succeeds exactly for a warehouse and device that are the operator's; it opens a session for thirty days. */
  lemma {:induction false} LoginExactly(cfg: Config, db: Db, login: Login, now: Instant)
    ensures var (next, outcome) := CreateStep(cfg, db, login, now);
            && (outcome.Granted? <==> MayEnter(login) && OnKnownDevice(login) && KeysAreFree(db, login))
            && (outcome == Failed(WarehouseDenied) <==> !MayEnter(login))
            && (outcome == Failed(DeviceNotRegistered) <==> MayEnter(login) && !OnKnownDevice(login))
            && (outcome == Failed(InsertFailed) <==> MayEnter(login) && OnKnownDevice(login) && !KeysAreFree(db, login))
            && (!outcome.Granted? ==> next == db)
            && (outcome.Granted? ==>
                  var expires := now + 2_592_000 * 1_000_000;
                  var s := Session(operator := login.operator, device := login.device, warehouse := login.warehouse,
                                   status := Active, expires := expires);
                  var t := Token(session := login.session, family := login.family, parent := None, expires := expires,
                                 usedAt := None, revokedAt := None, replacedBy := None, reuseDetectedAt := None);
                  && next == db.(sessions := db.sessions[login.session := s], tokens := db.tokens[login.token := t])
                  && Grants(cfg, outcome.grant, s, login.session, login.token, now))
  {
    var s := Session(login.operator, login.device, login.warehouse, Active, now + ABSOLUTE_LIFETIME);
    SignedGrants(cfg, s, login.session, login.token, now);
  }

  // ---- Refresh ------------------------------------------------------------------------------------

  /** A token that is on record, whose session and operator are. */
  predicate OnRecord(db: Db, raw: TokenId) {
    && raw in db.tokens && db.tokens[raw].session in db.sessions
    && db.sessions[db.tokens[raw].session].operator in db.operators
  }

  predicate Spent(t: Token) {
    t.usedAt.Some? || t.revokedAt.Some?
  }

  predicate SameDevice(s: Session, device: string) {
    device == "" || s.device == "" || s.device == device
  }

  /** How far a refresh of token `raw` gets through its checks, and what each that stops it answers. */
  predicate RefreshRefused(db: Db, raw: TokenId, device: string, minted: TokenId, now: Instant, e: Error) {
    if !OnRecord(db, raw) then e == RefreshTokenInvalid
    else
      var t := db.tokens[raw];
      var s := db.sessions[t.session];
      var enabled := db.operators[s.operator] == OperatorActive;
      var open := s.status == Active;
      var early := now < t.expires && now < s.expires;
      || (e == UserDisabled && !enabled)
      || (e == RefreshTokenReused && enabled && Spent(t))
      || (e == RefreshTokenRevoked && enabled && !Spent(t) && !open)
      || (e == RefreshTokenExpired && enabled && !Spent(t) && open && !early)
      || (e == DeviceMismatch && enabled && !Spent(t) && open && early && !SameDevice(s, device))
      || (e == InsertFailed && enabled && !Spent(t) && open && early && SameDevice(s, device) && minted in db.tokens)
  }

  predicate RefreshGranted(db: Db, raw: TokenId, device: string, minted: TokenId, now: Instant) {
    && OnRecord(db, raw)
    && var t := db.tokens[raw]; var s := db.sessions[t.session];
    && db.operators[s.operator] == OperatorActive && t.usedAt.None? && t.revokedAt.None?
    && s.status == Active && now < t.expires && now < s.expires && SameDevice(s, device) && minted !in db.tokens
  }

  /** A refresh is granted, or refused for exactly one reason. */
  lemma {:induction false} RefreshExactly(
      cfg: Config, db: Db, raw: TokenId, device: string, minted: TokenId, now: Instant, e: Error)
    ensures RefreshStep(cfg, db, raw, device, minted, now).1.Granted? <==> RefreshGranted(db, raw, device, minted, now)
    ensures RefreshStep(cfg, db, raw, device, minted, now).1 == Failed(e) <==> RefreshRefused(db, raw, device, minted, now, e)
  {
  }

  /**
   A granted refresh marks the token as used and replaced and adds its child, which ends when the session does; a
   reuse is noted once and revokes the session; any other refusal changes nothing.
   */
  lemma {:induction false} RefreshLeavesExactly(
      cfg: Config, db: Db, raw: TokenId, device: string, minted: TokenId, now: Instant)
    ensures var (next, outcome) := RefreshStep(cfg, db, raw, device, minted, now);
            && (outcome.Granted? ==>
                  var t := db.tokens[raw]; var s := db.sessions[t.session];
                  && next.sessions == db.sessions && next.operators == db.operators
                  && next.tokens == db.tokens[raw := t.(usedAt := Some(now), replacedBy := Some(minted))][
                       minted := Token(session := t.session, family := t.family, parent := Some(raw), expires := s.expires,
                                       usedAt := None, revokedAt := None, replacedBy := None, reuseDetectedAt := None)]
                  && Grants(cfg, outcome.grant, s, t.session, minted, now))
            && (outcome == Failed(RefreshTokenReused) ==>
                  var t := db.tokens[raw];
                  && next.operators == db.operators && next.sessions == Without(db.sessions, t.session)
                  && next.tokens == db.tokens[raw := t.(reuseDetectedAt := if t.reuseDetectedAt.Some? then t.reuseDetectedAt
                                                                          else Some(now))])
            && (!outcome.Granted? && outcome != Failed(RefreshTokenReused) ==> next == db)
  {
    if RefreshStep(cfg, db, raw, device, minted, now).1.Granted? {
      SignedGrants(cfg, db.sessions[db.tokens[raw].session], db.tokens[raw].session, minted, now);
    }
  }

  // ---- Revocation -----------------------------------------------------------------------------------

  /** Revoking by refresh token ends the session and every token of it that is not revoked yet, and no other. */
  lemma {:induction false} RevokeRefreshExactly(db: Db, raw: TokenId, now: Instant)
    ensures var (next, outcome) := RevokeRefreshStep(db, raw, now);
            var known := raw in db.tokens && db.tokens[raw].session in db.sessions;
            && (outcome == Failed(RefreshTokenInvalid) <==> !known)
            && (outcome == Failed(SessionRevoked) <==> known && db.sessions[db.tokens[raw].session].status != Active)
            && (outcome == Done <==> known && db.sessions[db.tokens[raw].session].status == Active)
            && (outcome != Done ==> next == db)
            && (outcome == Done ==>
                  var id := db.tokens[raw].session;
                  && next.operators == db.operators
                  && next.sessions == db.sessions[id := db.sessions[id].(status := Revoked)]
                  && next.tokens.Keys == db.tokens.Keys
                  && forall k <- db.tokens :: next.tokens[k] ==
                       if db.tokens[k].session == id && db.tokens[k].revokedAt.None?
                       then db.tokens[k].(revokedAt := Some(now)) else db.tokens[k])
  {
  }

  // ---- Runs -----------------------------------------------------------------------------------------

  /** In every run each operation is answered by these rules, on the tables that the operations before it left. */
  lemma {:induction false} RunAnswersExactly(cfg: Config, db: Db, ops: seq<Op>, i: nat)
    requires i < |ops|
    ensures var seen := Run(cfg, db, ops[..i]); var outcome := OutcomeOf(cfg, db, ops, i);
            match ops[i]
            case Create(login, at) =>
              outcome.Granted? <==> MayEnter(login) && OnKnownDevice(login) && KeysAreFree(seen, login)
            case Refresh(raw, device, minted, at) => outcome.Granted? <==> RefreshGranted(seen, raw, device, minted, at)
            case Authenticate(access, at) =>
              outcome.Authenticated? <==> Genuine(cfg, access, at) && InTime(access, at) && Open(seen, access.claims.session, at)
            case Logout(access, at) => outcome == Done <==> Genuine(cfg, access, at) && InTime(access, at)
            case RevokeRefresh(raw, at) =>
              outcome == Done <==> raw in seen.tokens && IsActive(seen, seen.tokens[raw].session)
            case SetOperator(_, _, _) => outcome == Done
  {
    var seen := Run(cfg, db, ops[..i]);
    match ops[i]
    case Create(login, at) => LoginExactly(cfg, seen, login, at);
    case Refresh(raw, device, minted, at) => RefreshExactly(cfg, seen, raw, device, minted, at, UserDisabled);
    case Authenticate(access, at) => AuthenticatedExactly(cfg, seen, access, at);
    case Logout(access, at) => LogoutExactly(cfg, seen, access, at);
    case RevokeRefresh(raw, at) => RevokeRefreshExactly(seen, raw, at);
    case SetOperator(_, _, _) =>
  }

  predicate IsActive(db: Db, id: SessionId) {
    id in db.sessions && db.sessions[id].status == Active
  }

  /** Setting an operator's status sets that and nothing else. */
  lemma {:induction false} SetOperatorExactly(cfg: Config, db: Db, operator: OperatorId, status: OperatorStatus, at: Instant)
    ensures Step(cfg, db, SetOperator(operator, status, at)).0 == db.(operators := db.operators[operator := status])
  {
  }
}
