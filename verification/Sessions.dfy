/**
 Session and refresh-token rotation (internal/identity/adapters/postgres/session.go).
 A presented refresh token stands for the row whose token_hash is its SHA-256 digest:
 the digest is injective and unique, so tokens are keyed by the token itself. Instants
 are microseconds, the resolution of the timestamp columns; JWT times are seconds.
 */
module Sessions {
  import opened Results

  type Instant = int
  type SessionId = string
  type TokenId = string
  type OperatorId = string

  const SECOND: int := 1_000_000
  const ABSOLUTE_LIFETIME: int := 30 * 24 * 3600 * SECOND

  datatype OperatorStatus = OperatorActive | OperatorDisabled | OperatorLocked

  /** No statement of the manager sets Expired, but the column admits it. */
  datatype SessionStatus = Active | Revoked | Expired

  datatype Session = Session(operator: OperatorId, device: string, warehouse: string, status: SessionStatus, expires: Instant)

  datatype Token = Token(
    session: SessionId,
    family: string,
    parent: Option<TokenId>,
    expires: Instant,
    usedAt: Option<Instant>,
    revokedAt: Option<Instant>,
    replacedBy: Option<TokenId>,
    reuseDetectedAt: Option<Instant>)

  datatype Db = Db(
    operators: map<OperatorId, OperatorStatus>,
    sessions: map<SessionId, Session>,
    tokens: map<TokenId, Token>)

  datatype Config = Config(issuer: string, audience: string, accessTtl: int)

  datatype Claims = Claims(
    issuer: string, audience: string, operator: OperatorId, session: SessionId,
    device: string, warehouse: string, notBefore: int, expiresAt: int)

  /** A bearer token: its claims, and whether the header algorithm, key and signature check out. */
  datatype AccessToken = AccessToken(claims: Claims, authentic: bool)

  datatype Error =
    | WarehouseDenied | DeviceNotRegistered | InsertFailed
    | AccessTokenInvalid | AccessTokenExpired | SessionRevoked
    | RefreshTokenInvalid | RefreshTokenExpired | RefreshTokenRevoked | RefreshTokenReused
    | UserDisabled | DeviceMismatch

  /** What a login asks for, with the random values drawn for it. */
  datatype Login = Login(
    operator: OperatorId, device: string, warehouse: string, mayAccess: bool, registered: bool,
    session: SessionId, token: TokenId, family: string)

  datatype Grant = Grant(access: AccessToken, refresh: TokenId, refreshExpires: Instant)

  datatype Op =
    | Create(login: Login, at: Instant)
    | Refresh(raw: TokenId, device: string, minted: TokenId, at: Instant)
    | Authenticate(access: AccessToken, at: Instant)
    | Logout(access: AccessToken, at: Instant)
    | RevokeRefresh(raw: TokenId, at: Instant)
    | SetOperator(operator: OperatorId, status: OperatorStatus, at: Instant)

  datatype Outcome = Granted(grant: Grant) | Authenticated(claims: Claims) | Done | Failed(error: Error)

  // ---- The operations on the tables -------------------------------------------------

  /** time.Time.Unix: whole seconds, rounded down. */
  function Unix(t: Instant): int {
    t / SECOND
  }

  function SignedAccess(cfg: Config, s: Session, id: SessionId, now: Instant): AccessToken {
    AccessToken(Claims(cfg.issuer, cfg.audience, s.operator, id, s.device, s.warehouse, Unix(now), Unix(now + cfg.accessTtl)), true)
  }

  function CreateStep(cfg: Config, db: Db, login: Login, now: Instant): (Db, Outcome) {
    if login.warehouse != "" && !login.mayAccess then (db, Failed(WarehouseDenied))
    else if login.device != "" && login.warehouse != "" && !login.registered then (db, Failed(DeviceNotRegistered))
    else if login.session in db.sessions || login.operator !in db.operators || login.token in db.tokens then (db, Failed(InsertFailed))
    else
      var expires := now + ABSOLUTE_LIFETIME;
      var s := Session(login.operator, login.device, login.warehouse, Active, expires);
      var t := Token(login.session, login.family, None, expires, None, None, None, None);
      (db.(sessions := db.sessions[login.session := s], tokens := db.tokens[login.token := t]),
       Granted(Grant(SignedAccess(cfg, s, login.session, now), login.token, expires)))
  }

  function RevokeSession(db: Db, id: SessionId): Db {
    if id in db.sessions && db.sessions[id].status == Active
    then db.(sessions := db.sessions[id := db.sessions[id].(status := Revoked)])
    else db
  }

  predicate Known(db: Db, raw: TokenId) {
    && raw in db.tokens
    && db.tokens[raw].session in db.sessions
    && db.sessions[db.tokens[raw].session].operator in db.operators
  }

  function MarkReuse(t: Token, now: Instant): Token {
    if t.reuseDetectedAt.None? then t.(reuseDetectedAt := Some(now)) else t
  }

  function RefreshStep(cfg: Config, db: Db, raw: TokenId, device: string, minted: TokenId, now: Instant): (Db, Outcome) {
    if !Known(db, raw) then (db, Failed(RefreshTokenInvalid))
    else
      var t := db.tokens[raw];
      var s := db.sessions[t.session];
      if db.operators[s.operator] != OperatorActive then (db, Failed(UserDisabled))
      else if t.usedAt.Some? || t.revokedAt.Some? then
        (RevokeSession(db.(tokens := db.tokens[raw := MarkReuse(t, now)]), t.session), Failed(RefreshTokenReused))
      else if s.status != Active then (db, Failed(RefreshTokenRevoked))
      else if t.expires <= now || s.expires <= now then (db, Failed(RefreshTokenExpired))
      else if device != "" && s.device != "" && device != s.device then (db, Failed(DeviceMismatch))
      else if minted in db.tokens then (db, Failed(InsertFailed))
      else
        var child := Token(t.session, t.family, Some(raw), s.expires, None, None, None, None);
        var spent := t.(usedAt := Some(now), replacedBy := Some(minted));
        (db.(tokens := db.tokens[minted := child][raw := spent]),
         Granted(Grant(SignedAccess(cfg, s, t.session, now), minted, s.expires)))
  }

  /** The claim checks of `parse`: sections 4.1.4 (exp) and 4.1.5 (nbf) of RFC 7519, issuer and audience. */
  function Parse(cfg: Config, token: AccessToken, now: Instant): Result<Claims, Error> {
    var c := token.claims;
    if !token.authentic then Err(AccessTokenInvalid)
    else if c.issuer != cfg.issuer || c.audience != cfg.audience || c.operator == "" || c.session == "" || now < c.notBefore * SECOND
    then Err(AccessTokenInvalid)
    else if c.expiresAt * SECOND <= now then Err(AccessTokenExpired)
    else Ok(c)
  }

  predicate Live(db: Db, id: SessionId, now: Instant) {
    id in db.sessions && db.sessions[id].status == Active && now < db.sessions[id].expires
  }

  function AuthenticateStep(cfg: Config, db: Db, token: AccessToken, now: Instant): Outcome {
    match Parse(cfg, token, now)
    case Err(e) => Failed(e)
    case Ok(c) => if Live(db, c.session, now) then Authenticated(c) else Failed(SessionRevoked)
  }

  function LogoutStep(cfg: Config, db: Db, token: AccessToken, now: Instant): (Db, Outcome) {
    match Parse(cfg, token, now)
    case Err(e) => (db, Failed(e))
    case Ok(c) => (RevokeSession(db, c.session), Done)
  }

  function RevokeTokens(tokens: map<TokenId, Token>, id: SessionId, now: Instant): map<TokenId, Token> {
    map k | k in tokens ::
      if tokens[k].session == id && tokens[k].revokedAt.None? then tokens[k].(revokedAt := Some(now)) else tokens[k]
  }

  function RevokeRefreshStep(db: Db, raw: TokenId, now: Instant): (Db, Outcome) {
    if raw !in db.tokens || db.tokens[raw].session !in db.sessions then (db, Failed(RefreshTokenInvalid))
    else
      var id := db.tokens[raw].session;
      if db.sessions[id].status != Active then (db, Failed(SessionRevoked))
      else (RevokeSession(db, id).(tokens := RevokeTokens(db.tokens, id, now)), Done)
  }

  function Step(cfg: Config, db: Db, op: Op): (Db, Outcome) {
    match op
    case Create(login, at) => CreateStep(cfg, db, login, at)
    case Refresh(raw, device, minted, at) => RefreshStep(cfg, db, raw, device, minted, at)
    case Authenticate(access, at) => (db, AuthenticateStep(cfg, db, access, at))
    case Logout(access, at) => LogoutStep(cfg, db, access, at)
    case RevokeRefresh(raw, at) => RevokeRefreshStep(db, raw, at)
    case SetOperator(operator, status, at) => (db.(operators := db.operators[operator := status]), Done)
  }

  function Run(cfg: Config, db: Db, ops: seq<Op>): Db {
    if ops == [] then db else Step(cfg, Run(cfg, db, ops[..|ops| - 1]), ops[|ops| - 1]).0
  }

  /** What operation `i` of a run answers. */
  function OutcomeOf(cfg: Config, db: Db, ops: seq<Op>, i: nat): Outcome
    requires i < |ops|
  {
    Step(cfg, Run(cfg, db, ops[..i]), ops[i]).1
  }

  // ---- The chain of a session ---------------------------------------------------------

  /** `chain` lists the tokens of one session, each replaced by the next and only the last one unused. */
  ghost predicate IsChain(db: Db, id: SessionId, chain: seq<TokenId>)
    requires id in db.sessions
  {
    && chain != []
    && (forall i, j :: 0 <= i < j < |chain| ==> chain[i] != chain[j])
    && (forall k :: k in chain <==> k in db.tokens && db.tokens[k].session == id)
    && (forall i :: 0 <= i < |chain| ==> ChainLink(db, id, chain, i))
  }

  ghost predicate ChainLink(db: Db, id: SessionId, chain: seq<TokenId>, i: nat)
    requires id in db.sessions && i < |chain|
  {
    && chain[i] in db.tokens
    && var t := db.tokens[chain[i]];
       && t.parent == (if i == 0 then None else Some(chain[i - 1]))
       && t.replacedBy == (if i + 1 == |chain| then None else Some(chain[i + 1]))
       && (t.usedAt.Some? <==> i + 1 < |chain|)
       && chain[0] in db.tokens && t.family == db.tokens[chain[0]].family
       && t.expires == db.sessions[id].expires
  }

  ghost predicate HasChain(db: Db, id: SessionId)
    requires id in db.sessions
  {
    exists chain :: IsChain(db, id, chain)
  }

  /** Every session has its chain, and every row references rows that exist. */
  ghost predicate Linked(db: Db) {
    && (forall id <- db.sessions :: HasChain(db, id))
    && (forall k <- db.tokens :: db.tokens[k].session in db.sessions)
    && (forall id <- db.sessions :: db.sessions[id].operator in db.operators)
  }

  /** A chain survives changes that touch neither its tokens' links nor the session's expiry. */
  lemma ChainUnaffected(db: Db, db': Db, id: SessionId, chain: seq<TokenId>)
    requires id in db.sessions && id in db'.sessions && IsChain(db, id, chain)
    requires db'.sessions[id].expires == db.sessions[id].expires
    requires forall k <- db.tokens :: k in db'.tokens && db'.tokens[k].session == db.tokens[k].session
    requires forall k <- db'.tokens :: db'.tokens[k].session == id ==> k in db.tokens
    requires forall k <- chain :: var t, t' := db.tokens[k], db'.tokens[k];
               t'.parent == t.parent && t'.replacedBy == t.replacedBy && (t'.usedAt.Some? <==> t.usedAt.Some?)
               && t'.family == t.family && t'.expires == t.expires
    ensures IsChain(db', id, chain)
  {
    forall i | 0 <= i < |chain|
      ensures ChainLink(db', id, chain, i)
    {
      assert ChainLink(db, id, chain, i);
      assert chain[i] in chain && chain[0] in chain;
    }
  }

  lemma {:induction false} NewSessionHasChain(cfg: Config, db: Db, login: Login, now: Instant)
    requires Linked(db) && CreateStep(cfg, db, login, now).1.Granted?
    ensures var db' := CreateStep(cfg, db, login, now).0; login.session in db'.sessions && HasChain(db', login.session)
  {
    var db' := CreateStep(cfg, db, login, now).0;
    assert ChainLink(db', login.session, [login.token], 0);
    assert IsChain(db', login.session, [login.token]);
  }

  lemma {:induction false} LoginKeepsChain(cfg: Config, db: Db, login: Login, now: Instant, id: SessionId)
    requires Linked(db) && CreateStep(cfg, db, login, now).1.Granted? && id in db.sessions
    ensures var db' := CreateStep(cfg, db, login, now).0; id in db'.sessions && HasChain(db', id)
  {
    var chain :| IsChain(db, id, chain);
    ChainUnaffected(db, CreateStep(cfg, db, login, now).0, id, chain);
  }

  lemma {:induction false} CreateKeepsLinks(cfg: Config, db: Db, login: Login, now: Instant)
    requires Linked(db)
    ensures Linked(CreateStep(cfg, db, login, now).0)
  {
    if CreateStep(cfg, db, login, now).1.Granted? {
      NewSessionHasChain(cfg, db, login, now);
      forall id | id in db.sessions
        ensures HasChain(CreateStep(cfg, db, login, now).0, id)
      {
        LoginKeepsChain(cfg, db, login, now, id);
      }
    }
  }

  lemma RevocationKeepsLinks(db: Db, id: SessionId)
    requires Linked(db)
    ensures Linked(RevokeSession(db, id))
  {
    var db' := RevokeSession(db, id);
    forall x | x in db.sessions
      ensures HasChain(db', x)
    {
      var chain :| IsChain(db, x, chain);
      ChainUnaffected(db, db', x, chain);
    }
  }

  /** Marking reuse and revoking tokens leave all the links as they are. */
  lemma TokenMarksKeepLinks(db: Db, tokens: map<TokenId, Token>)
    requires Linked(db)
    requires tokens.Keys == db.tokens.Keys
    requires forall k <- tokens ::
               tokens[k] == db.tokens[k].(revokedAt := tokens[k].revokedAt, reuseDetectedAt := tokens[k].reuseDetectedAt)
    ensures Linked(db.(tokens := tokens))
  {
    var db' := db.(tokens := tokens);
    forall id | id in db.sessions
      ensures HasChain(db', id)
    {
      var chain :| IsChain(db, id, chain);
      ChainUnaffected(db, db', id, chain);
    }
  }

  /** A rotation appends the new token to the chain, whose last token was the one presented. */
  lemma RotationExtendsChain(cfg: Config, db: Db, raw: TokenId, device: string, minted: TokenId, now: Instant, chain: seq<TokenId>)
    requires Linked(db) && Known(db, raw) && IsChain(db, db.tokens[raw].session, chain)
    requires RefreshStep(cfg, db, raw, device, minted, now).1.Granted?
    ensures chain[|chain| - 1] == raw
    ensures var db' := RefreshStep(cfg, db, raw, device, minted, now).0;
            db.tokens[raw].session in db'.sessions && IsChain(db', db.tokens[raw].session, chain + [minted])
  {
    var id := db.tokens[raw].session;
    assert raw in chain;
    var at :| 0 <= at < |chain| && chain[at] == raw;
    assert ChainLink(db, id, chain, at);
    var db' := RefreshStep(cfg, db, raw, device, minted, now).0;
    var longer := chain + [minted];
    assert minted !in chain;
    forall i | 0 <= i < |longer|
      ensures ChainLink(db', id, longer, i)
    {
      assert ChainLink(db, id, chain, 0);
      if i < |chain| {
        assert ChainLink(db, id, chain, i);
      }
    }
    forall k
      ensures k in longer <==> k in db'.tokens && db'.tokens[k].session == id
    {
      assert k in longer <==> k in chain || k == minted;
    }
  }

  lemma RotationKeepsChain(
      cfg: Config, db: Db, raw: TokenId, device: string, minted: TokenId, now: Instant, id: SessionId)
    requires Linked(db) && Known(db, raw) && id in db.sessions
    requires RefreshStep(cfg, db, raw, device, minted, now).1.Granted?
    ensures id in RefreshStep(cfg, db, raw, device, minted, now).0.sessions
    ensures HasChain(RefreshStep(cfg, db, raw, device, minted, now).0, id)
  {
    var chain :| IsChain(db, id, chain);
    if id == db.tokens[raw].session {
      RotationExtendsChain(cfg, db, raw, device, minted, now, chain);
    } else {
      ChainUnaffected(db, RefreshStep(cfg, db, raw, device, minted, now).0, id, chain);
    }
  }

  /** The tables after a reuse: the token marked, and its session revoked. */
  lemma {:induction false} ReuseKeepsLinks(db: Db, raw: TokenId, now: Instant)
    requires Linked(db) && Known(db, raw)
    ensures Linked(RevokeSession(db.(tokens := db.tokens[raw := MarkReuse(db.tokens[raw], now)]), db.tokens[raw].session))
  {
    var marked := db.tokens[raw := MarkReuse(db.tokens[raw], now)];
    TokenMarksKeepLinks(db, marked);
    RevocationKeepsLinks(db.(tokens := marked), db.tokens[raw].session);
  }

  lemma {:induction false} RotationKeepsLinks(cfg: Config, db: Db, raw: TokenId, device: string, minted: TokenId, now: Instant)
    requires Linked(db) && RefreshStep(cfg, db, raw, device, minted, now).1.Granted?
    ensures Linked(RefreshStep(cfg, db, raw, device, minted, now).0)
  {
    forall id | id in db.sessions
      ensures HasChain(RefreshStep(cfg, db, raw, device, minted, now).0, id)
    {
      RotationKeepsChain(cfg, db, raw, device, minted, now, id);
    }
  }

  lemma {:induction false} RefreshKeepsLinks(cfg: Config, db: Db, raw: TokenId, device: string, minted: TokenId, now: Instant)
    requires Linked(db)
    ensures Linked(RefreshStep(cfg, db, raw, device, minted, now).0)
  {
    var outcome := RefreshStep(cfg, db, raw, device, minted, now).1;
    if outcome == Failed(RefreshTokenReused) {
      ReuseKeepsLinks(db, raw, now);
    } else if outcome.Granted? {
      RotationKeepsLinks(cfg, db, raw, device, minted, now);
    }
  }

  lemma {:induction false} OperatorsKeepLinks(db: Db, operator: OperatorId, status: OperatorStatus)
    requires Linked(db)
    ensures Linked(db.(operators := db.operators[operator := status]))
  {
    var db' := db.(operators := db.operators[operator := status]);
    forall id | id in db.sessions
      ensures HasChain(db', id)
    {
      var chain :| IsChain(db, id, chain);
      ChainUnaffected(db, db', id, chain);
    }
  }

  lemma StepKeepsLinks(cfg: Config, db: Db, op: Op)
    requires Linked(db)
    ensures Linked(Step(cfg, db, op).0)
  {
    match op
    case Create(login, at) => CreateKeepsLinks(cfg, db, login, at);
    case Refresh(raw, device, minted, at) => RefreshKeepsLinks(cfg, db, raw, device, minted, at);
    case Authenticate(access, at) =>
    case Logout(access, at) =>
      RevocationKeepsLinks(db, access.claims.session);
    case RevokeRefresh(raw, at) =>
      if raw in db.tokens {
        TokenMarksKeepLinks(db, RevokeTokens(db.tokens, db.tokens[raw].session, at));
        RevocationKeepsLinks(db.(tokens := RevokeTokens(db.tokens, db.tokens[raw].session, at)), db.tokens[raw].session);
      }
    case SetOperator(operator, status, at) =>
      OperatorsKeepLinks(db, operator, status);
  }

  /** In every run the refresh tokens of every session form one finite acyclic chain with exactly one unused token. */
  lemma {:induction false} TokensFormChains(cfg: Config, db: Db, ops: seq<Op>)
    requires Linked(db)
    ensures Linked(Run(cfg, db, ops))
  {
    if ops != [] {
      TokensFormChains(cfg, db, ops[..|ops| - 1]);
      StepKeepsLinks(cfg, Run(cfg, db, ops[..|ops| - 1]), ops[|ops| - 1]);
    }
  }

  // ---- What time can only move one way --------------------------------------------------

  /** `db'` comes later than `db`: nothing is forgotten, un-used, un-revoked or extended. */
  ghost predicate Later(db: Db, db': Db) {
    && (forall id <- db.sessions :: id in db'.sessions && LaterSession(db.sessions[id], db'.sessions[id]))
    && (forall k <- db.tokens :: k in db'.tokens && LaterToken(db.tokens[k], db'.tokens[k]))
  }

  ghost predicate LaterSession(s: Session, s': Session) {
    && s'.expires == s.expires && s'.operator == s.operator && s'.device == s.device
    && (s.status != Active ==> s'.status == s.status)
  }

  ghost predicate LaterToken(t: Token, t': Token) {
    && t'.session == t.session && t'.family == t.family && t'.parent == t.parent && t'.expires == t.expires
    && (t.usedAt.Some? ==> t'.usedAt == t.usedAt && t'.replacedBy == t.replacedBy)
    && (t.revokedAt.Some? ==> t'.revokedAt == t.revokedAt)
    && (t.reuseDetectedAt.Some? ==> t'.reuseDetectedAt == t.reuseDetectedAt)
  }

  lemma CreateIsLater(cfg: Config, db: Db, login: Login, now: Instant)
    ensures Later(db, CreateStep(cfg, db, login, now).0)
  {
  }

  lemma {:induction false} ReuseIsLater(db: Db, raw: TokenId, now: Instant)
    requires Known(db, raw)
    ensures Later(db, RevokeSession(db.(tokens := db.tokens[raw := MarkReuse(db.tokens[raw], now)]), db.tokens[raw].session))
  {
  }

  lemma {:induction false} RotationIsLater(cfg: Config, db: Db, raw: TokenId, device: string, minted: TokenId, now: Instant)
    requires RefreshStep(cfg, db, raw, device, minted, now).1.Granted?
    ensures Later(db, RefreshStep(cfg, db, raw, device, minted, now).0)
  {
  }

  /** The three ways a refresh leaves the tables. */
  lemma {:induction false} RefreshLeaves(cfg: Config, db: Db, raw: TokenId, device: string, minted: TokenId, now: Instant)
    ensures var (db', outcome) := RefreshStep(cfg, db, raw, device, minted, now);
            || db' == db || outcome.Granted?
            || (Known(db, raw)
                && db' == RevokeSession(db.(tokens := db.tokens[raw := MarkReuse(db.tokens[raw], now)]), db.tokens[raw].session))
  {
  }

  lemma {:induction false} NothingIsLater(db: Db)
    ensures Later(db, db)
  {
  }

  lemma {:induction false} RefreshIsLater(cfg: Config, db: Db, raw: TokenId, device: string, minted: TokenId, now: Instant)
    ensures Later(db, RefreshStep(cfg, db, raw, device, minted, now).0)
  {
    RefreshLeaves(cfg, db, raw, device, minted, now);
    NothingIsLater(db);
    if RefreshStep(cfg, db, raw, device, minted, now).1.Granted? {
      RotationIsLater(cfg, db, raw, device, minted, now);
    } else if Known(db, raw) {
      ReuseIsLater(db, raw, now);
    }
  }

  lemma RevocationIsLater(db: Db, id: SessionId)
    ensures Later(db, RevokeSession(db, id))
  {
  }

  lemma RevokedTokensAreLater(db: Db, raw: TokenId, now: Instant)
    ensures Later(db, RevokeRefreshStep(db, raw, now).0)
  {
  }

  lemma StepIsLater(cfg: Config, db: Db, op: Op)
    ensures Later(db, Step(cfg, db, op).0)
  {
    match op
    case Create(login, at) => CreateIsLater(cfg, db, login, at);
    case Refresh(raw, device, minted, at) => RefreshIsLater(cfg, db, raw, device, minted, at);
    case Logout(access, at) =>
      if Parse(cfg, access, at).Ok? {
        RevocationIsLater(db, Parse(cfg, access, at).value.session);
      }
    case RevokeRefresh(raw, at) => RevokedTokensAreLater(db, raw, at);
    case Authenticate(_, _) =>
    case SetOperator(_, _, _) =>
  }

  lemma {:induction false} RunIsLater(cfg: Config, db: Db, ops: seq<Op>, i: nat, j: nat)
    requires i <= j <= |ops|
    ensures Later(Run(cfg, db, ops[..i]), Run(cfg, db, ops[..j]))
  {
    if i < j {
      RunIsLater(cfg, db, ops, i, j - 1);
      assert ops[..j][..j - 1] == ops[..j - 1];
      StepIsLater(cfg, Run(cfg, db, ops[..j - 1]), ops[j - 1]);
    }
  }

  /** No refresh token is exchanged twice, whatever happens in between. */
  lemma TokenIsExchangedOnce(cfg: Config, db: Db, ops: seq<Op>, i: nat, j: nat)
    requires i < j < |ops| && ops[i].Refresh? && ops[j].Refresh? && ops[i].raw == ops[j].raw
    requires OutcomeOf(cfg, db, ops, i).Granted?
    ensures !OutcomeOf(cfg, db, ops, j).Granted?
  {
    assert ops[..i + 1][..i] == ops[..i];
    RunIsLater(cfg, db, ops, i + 1, j);
  }

  /**
   Presenting a used or revoked token of an active operator leaves its session revoked, or expired if it was
   already.
   */
  lemma ReuseRevokesSession(cfg: Config, db: Db, raw: TokenId, device: string, minted: TokenId, now: Instant)
    requires Known(db, raw) && db.operators[db.sessions[db.tokens[raw].session].operator] == OperatorActive
    requires db.tokens[raw].usedAt.Some? || db.tokens[raw].revokedAt.Some?
    ensures var (db', outcome) := RefreshStep(cfg, db, raw, device, minted, now);
            && outcome == Failed(RefreshTokenReused)
            && var before := db.sessions[db.tokens[raw].session].status;
            && db'.sessions[db.tokens[raw].session].status == (if before == Active then Revoked else before)
            && db'.tokens[raw].reuseDetectedAt.Some?
  {
  }

  /** The session an operation would extend or use, if its answer is a success. */
  ghost predicate Serves(db: Db, op: Op, outcome: Outcome, id: SessionId) {
    || (op.Refresh? && outcome.Granted? && op.raw in db.tokens && db.tokens[op.raw].session == id)
    || (op.Authenticate? && outcome.Authenticated? && op.access.claims.session == id)
  }

  /** A session that is revoked, or past its end, serves no refresh and no authentication. */
  lemma DeadSessionServesNothing(cfg: Config, db: Db, op: Op, id: SessionId)
    requires id in db.sessions && (db.sessions[id].status != Active || db.sessions[id].expires <= op.at)
    ensures !Serves(db, op, Step(cfg, db, op).1, id)
  {
  }

  /**
   Revocation is absorbing: once a session is revoked (or marked expired), no continuation refreshes or
   authenticates on the session.
   */
  lemma RevocationIsAbsorbing(cfg: Config, db: Db, ops: seq<Op>, i: nat, j: nat, id: SessionId)
    requires i <= j < |ops|
    requires var seen := Run(cfg, db, ops[..i]); id in seen.sessions && seen.sessions[id].status != Active
    ensures !Serves(Run(cfg, db, ops[..j]), ops[j], OutcomeOf(cfg, db, ops, j), id)
  {
    RunIsLater(cfg, db, ops, i, j);
    DeadSessionServesNothing(cfg, Run(cfg, db, ops[..j]), ops[j], id);
  }

  /** A session that operation `i` created ends for good thirty days later, however often it is refreshed. */
  lemma LifetimeIsAbsolute(cfg: Config, db: Db, ops: seq<Op>, i: nat, j: nat)
    requires i < j < |ops| && ops[i].Create? && OutcomeOf(cfg, db, ops, i).Granted?
    requires ops[i].at + ABSOLUTE_LIFETIME <= ops[j].at
    ensures !Serves(Run(cfg, db, ops[..j]), ops[j], OutcomeOf(cfg, db, ops, j), ops[i].login.session)
  {
    assert ops[..i + 1][..i] == ops[..i];
    RunIsLater(cfg, db, ops, i + 1, j);
    DeadSessionServesNothing(cfg, Run(cfg, db, ops[..j]), ops[j], ops[i].login.session);
  }

  /**
   So once a used or revoked token of an active operator has been presented, its session is dead for every
   continuation.
   */
  lemma ReuseIsFinal(cfg: Config, db: Db, ops: seq<Op>, i: nat, j: nat)
    requires i < j < |ops| && ops[i].Refresh?
    requires var seen := Run(cfg, db, ops[..i]);
             && Known(seen, ops[i].raw)
             && seen.operators[seen.sessions[seen.tokens[ops[i].raw].session].operator] == OperatorActive
             && (seen.tokens[ops[i].raw].usedAt.Some? || seen.tokens[ops[i].raw].revokedAt.Some?)
    ensures !Serves(Run(cfg, db, ops[..j]), ops[j], OutcomeOf(cfg, db, ops, j), Run(cfg, db, ops[..i]).tokens[ops[i].raw].session)
  {
    assert ops[..i + 1][..i] == ops[..i];
    var seen := Run(cfg, db, ops[..i]);
    ReuseRevokesSession(cfg, seen, ops[i].raw, ops[i].device, ops[i].minted, ops[i].at);
    StepIsLater(cfg, seen, ops[i]);
    RevocationIsAbsorbing(cfg, db, ops, i + 1, j, seen.tokens[ops[i].raw].session);
  }

  /** After an accepted logout or refresh revocation the session is dead for every continuation. */
  lemma LogoutIsFinal(cfg: Config, db: Db, ops: seq<Op>, i: nat, j: nat, id: SessionId)
    requires i < j < |ops| && OutcomeOf(cfg, db, ops, i) == Done
    requires var seen := Run(cfg, db, ops[..i]);
             && id in seen.sessions
             && ((ops[i].Logout? && ops[i].access.claims.session == id)
                 || (ops[i].RevokeRefresh? && ops[i].raw in seen.tokens && seen.tokens[ops[i].raw].session == id))
    ensures !Serves(Run(cfg, db, ops[..j]), ops[j], OutcomeOf(cfg, db, ops, j), id)
  {
    assert ops[..i + 1][..i] == ops[..i];
    RevocationIsAbsorbing(cfg, db, ops, i + 1, j, id);
  }

  /** In a linked database, a refresh succeeds exactly for the unused, unrevoked end of a live chain. */
  lemma RefreshSucceedsExactly(cfg: Config, db: Db, raw: TokenId, device: string, minted: TokenId, now: Instant, chain: seq<TokenId>)
    requires Linked(db) && Known(db, raw) && IsChain(db, db.tokens[raw].session, chain)
    ensures var id := db.tokens[raw].session; var s := db.sessions[id];
            RefreshStep(cfg, db, raw, device, minted, now).1.Granted? <==>
              && raw == chain[|chain| - 1] && db.tokens[raw].revokedAt.None?
              && db.operators[s.operator] == OperatorActive && Live(db, id, now)
              && (device == "" || s.device == "" || device == s.device)
              && minted !in db.tokens
  {
    assert raw in chain;
    var at :| 0 <= at < |chain| && chain[at] == raw;
    assert ChainLink(db, db.tokens[raw].session, chain, at);
  }

  /**
   An access token issued at `issued` is good from the start of that second until its expiry second, while the
   session lives.
   */
  lemma AccessWindow(cfg: Config, db: Db, s: Session, id: SessionId, issued: Instant, now: Instant)
    requires s.operator != "" && id != ""
    ensures AuthenticateStep(cfg, db, SignedAccess(cfg, s, id, issued), now).Authenticated?
       <==> issued - issued % SECOND <= now < (issued + cfg.accessTtl) - (issued + cfg.accessTtl) % SECOND && Live(db, id, now)
  {
    var end := issued + cfg.accessTtl;
    assert issued == Unix(issued) * SECOND + issued % SECOND;
    assert end == Unix(end) * SECOND + end % SECOND;
  }

  // ---- The session manager object -------------------------------------------------------

  class SessionManager {
    const cfg: Config
    var operators: map<OperatorId, OperatorStatus>
    var sessions: map<SessionId, Session>
    var tokens: map<TokenId, Token>

    ghost function View(): Db
      reads this
    {
      Db(operators, sessions, tokens)
    }

    constructor (cfg: Config, operators: map<OperatorId, OperatorStatus>)
      ensures this.cfg == cfg && View() == Db(operators, map[], map[]) && Linked(View())
    {
      this.cfg := cfg;
      this.operators := operators;
      sessions, tokens := map[], map[];
    }

    method Create(login: Login, now: Instant) returns (outcome: Outcome)
      modifies this
      ensures (View(), outcome) == CreateStep(cfg, old(View()), login, now)
    {
      if login.warehouse != "" && !login.mayAccess {
        return Failed(WarehouseDenied);
      }
      if login.device != "" && login.warehouse != "" && !login.registered {
        return Failed(DeviceNotRegistered);
      }
      var refreshExpires := now + ABSOLUTE_LIFETIME;
      var s := Session(login.operator, login.device, login.warehouse, Active, refreshExpires);
      // The unique and foreign keys of the two tables; a violation rolls the transaction back.
      if login.session in sessions || login.operator !in operators || login.token in tokens {
        return Failed(InsertFailed);
      }
      sessions := sessions[login.session := s];
      tokens := tokens[login.token := Token(login.session, login.family, None, refreshExpires, None, None, None, None)];
      outcome := Granted(Grant(SignedAccess(cfg, s, login.session, now), login.token, refreshExpires));
    }

    method Authenticate(token: AccessToken, now: Instant) returns (outcome: Outcome)
      ensures outcome == AuthenticateStep(cfg, View(), token, now)
    {
      var parsed := Parse(cfg, token, now);
      if parsed.Err? {
        return Failed(parsed.error);
      }
      var c := parsed.value;
      if c.session !in sessions || sessions[c.session].status != Active || sessions[c.session].expires <= now {
        return Failed(SessionRevoked);
      }
      outcome := Authenticated(c);
    }

    method Refresh(raw: TokenId, device: string, minted: TokenId, now: Instant) returns (outcome: Outcome)
      modifies this
      ensures (View(), outcome) == RefreshStep(cfg, old(View()), raw, device, minted, now)
    {
      if raw !in tokens || tokens[raw].session !in sessions || sessions[tokens[raw].session].operator !in operators {
        return Failed(RefreshTokenInvalid);
      }
      var t := tokens[raw];
      var s := sessions[t.session];
      if operators[s.operator] != OperatorActive {
        return Failed(UserDisabled);
      }
      if t.usedAt.Some? || t.revokedAt.Some? {
        tokens := tokens[raw := if t.reuseDetectedAt.None? then t.(reuseDetectedAt := Some(now)) else t];
        if s.status == Active {
          sessions := sessions[t.session := s.(status := Revoked)];
        }
        return Failed(RefreshTokenReused);
      }
      if s.status != Active {
        return Failed(RefreshTokenRevoked);
      }
      if t.expires <= now || s.expires <= now {
        return Failed(RefreshTokenExpired);
      }
      if device != "" && s.device != "" && device != s.device {
        return Failed(DeviceMismatch);
      }
      var refreshExpires := s.expires;
      if minted in tokens {
        return Failed(InsertFailed);
      }
      tokens := tokens[minted := Token(t.session, t.family, Some(raw), refreshExpires, None, None, None, None)];
      tokens := tokens[raw := t.(usedAt := Some(now), replacedBy := Some(minted))];
      outcome := Granted(Grant(SignedAccess(cfg, s, t.session, now), minted, refreshExpires));
    }

    method Logout(token: AccessToken, now: Instant) returns (outcome: Outcome)
      modifies this
      ensures (View(), outcome) == LogoutStep(cfg, old(View()), token, now)
    {
      var parsed := Parse(cfg, token, now);
      if parsed.Err? {
        return Failed(parsed.error);
      }
      var id := parsed.value.session;
      if id in sessions && sessions[id].status == Active {
        sessions := sessions[id := sessions[id].(status := Revoked)];
      }
      outcome := Done;
    }

    method RevokeRefresh(raw: TokenId, now: Instant) returns (outcome: Outcome)
      modifies this
      ensures (View(), outcome) == RevokeRefreshStep(old(View()), raw, now)
    {
      if raw !in tokens || tokens[raw].session !in sessions {
        return Failed(RefreshTokenInvalid);
      }
      var id := tokens[raw].session;
      if sessions[id].status != Active {
        return Failed(SessionRevoked);
      }
      sessions := sessions[id := sessions[id].(status := Revoked)];
      tokens := RevokeTokens(tokens, id, now);
      outcome := Done;
    }
  }
}
