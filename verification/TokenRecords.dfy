/**
 * The `token_records` table: authorization codes, hosted login transactions and refresh tokens.
 * src/oidc/token.service.ts, src/oidc/authorization-code.service.ts,
 * src/oidc/hosted-login-transaction.service.ts, src/domain/accounts/accounts.service.ts.
 *
 * Tokens are random and only their hashes are stored; both are taken to be collision free, so a row
 * is keyed by the token itself and tokens come from a counter.
 */
module TokenRecords {
  import opened Prelude

  type Token = nat
  type FamilyId = nat
  type AccountId = nat
  type ClientId = nat

  /** A PKCE challenge: the S256 digest of a verifier, or a string that is no digest at all. */
  datatype Challenge = S256(verifier: string) | Other(text: string)

  datatype RefreshStatus = Active | Used | Revoked

  datatype Request = Request(client: ClientId, redirectUri: string, challenge: Challenge)

  datatype Row =
    | Refresh(account: AccountId, client: ClientId, family: FamilyId, status: RefreshStatus, usedAt: Option<Time>, expiresAt: Time)
    | Code(account: AccountId, request: Request, expiresAt: Time)
    | Login(session: Option<AccountId>, request: Request, browserNonce: nat, expiresAt: Time)

  datatype AccountStatus = Enabled | Locked | Disabled

  datatype Account = Account(status: AccountStatus, resetRequired: bool, superAdmin: bool)

  datatype Tables = Tables(
    rows: map<Token, Row>,
    accounts: map<AccountId, Account>,
    nextToken: Token,
    nextFamily: FamilyId)

  const CODE_TTL_MS: int := 60_000
  const LOGIN_TTL_MS: int := 300_000
  const CLEANUP_AGE_MS: int := 3_600_000
  const CLEANUP_THROTTLE_MS: int := 600_000

  // ---------------------------------------------------------------- refresh tokens

  datatype Consumed =
    | Accepted(account: AccountId, client: ClientId, family: FamilyId)
    | Invalid
    | ReuseDetected

  /** `isWithinRotationGrace`; a grace that is not positive is no grace. */
  predicate WithinGrace(graceMs: int, usedAt: Option<Time>, now: Time) {
    usedAt.Some? && graceMs > 0 && now - usedAt.value <= graceMs
  }

  predicate IsRefresh(t: Tables, k: Token) {
    k in t.rows && t.rows[k].Refresh?
  }

  function RevokedRow(row: Row): Row {
    if row.Refresh? then row.(status := Revoked) else row
  }

  function AfterRevokeFamily(t: Tables, family: FamilyId): Tables {
    t.(rows := map k | k in t.rows ::
      if t.rows[k].Refresh? && t.rows[k].family == family then RevokedRow(t.rows[k]) else t.rows[k])
  }

  function AfterRevokeToken(t: Tables, k: Token): Tables {
    if IsRefresh(t, k) then t.(rows := t.rows[k := RevokedRow(t.rows[k])]) else t
  }

  /** `revokeAccountRefreshTokens`: the account's active and used tokens. */
  function AfterRevokeAccount(t: Tables, account: AccountId): Tables {
    t.(rows := map k | k in t.rows ::
      if t.rows[k].Refresh? && t.rows[k].account == account && t.rows[k].status != Revoked
      then RevokedRow(t.rows[k]) else t.rows[k])
  }

  predicate Replayed(graceMs: int, row: Row, now: Time) {
    row.Refresh? && row.expiresAt >= now && row.status != Active
    && !(row.status == Used && WithinGrace(graceMs, row.usedAt, now))
  }

  /** `consumeRefreshToken`. */
  function AfterConsume(t: Tables, graceMs: int, k: Token, now: Time): (Tables, Consumed) {
    if !IsRefresh(t, k) then (t, Invalid)
    else
      var row := t.rows[k];
      if row.status == Active && row.expiresAt > now then
        (t.(rows := t.rows[k := row.(status := Used, usedAt := Some(now))]), Accepted(row.account, row.client, row.family))
      else if row.expiresAt < now then (t, Invalid)
      else if row.status == Used && WithinGrace(graceMs, row.usedAt, now) then (t, Accepted(row.account, row.client, row.family))
      else if row.status != Active then (AfterRevokeFamily(t, row.family), ReuseDetected)
      else (t, Invalid)
  }

  function AfterIssue(t: Tables, account: AccountId, client: ClientId, family: FamilyId, now: Time,
                      ttlMs: int): Tables {
    t.(rows := t.rows[t.nextToken := Refresh(account, client, family, Active, None, now + ttlMs)],
       nextToken := t.nextToken + 1)
  }

  function AfterCleanup(t: Tables, now: Time): Tables {
    t.(rows := map k | k in t.rows && t.rows[k].expiresAt >= now - CLEANUP_AGE_MS :: t.rows[k])
  }

  /** Removing long-expired rows never changes what a presented token gets, then or later. */
  lemma CleanupIsInvisible(t: Tables, graceMs: int, k: Token, now: Time)
    ensures forall at | at >= now :: AfterConsume(AfterCleanup(t, now), graceMs, k, at).1 == AfterConsume(t, graceMs, k, at).1
    ensures AfterConsume(AfterCleanup(t, now), graceMs, k, now).0 == AfterCleanup(AfterConsume(t, graceMs, k, now).0, now)
  {
  }

  // ---------------------------------------------------------------- single-use rows

  function AfterCreateCode(t: Tables, account: AccountId, request: Request, now: Time): Tables {
    t.(rows := t.rows[t.nextToken := Code(account, request, now + CODE_TTL_MS)], nextToken := t.nextToken + 1)
  }

  predicate CodeIsLive(t: Tables, k: Token, now: Time) {
    k in t.rows && t.rows[k].Code? && t.rows[k].expiresAt > now
  }

  /** Delete on consume. */
  function AfterConsumeCode(t: Tables, k: Token, now: Time): (Tables, Option<Row>) {
    if CodeIsLive(t, k, now) then (t.(rows := t.rows - {k}), Some(t.rows[k])) else (t, None)
  }

  function AfterCreateLogin(t: Tables, session: Option<AccountId>, request: Request, browserNonce: nat,
                            now: Time): Tables {
    t.(rows := t.rows[t.nextToken := Login(session, request, browserNonce, now + LOGIN_TTL_MS)], nextToken := t.nextToken + 1)
  }

  predicate LoginIsLive(t: Tables, k: Token, browserNonce: nat, now: Time) {
    k in t.rows && t.rows[k].Login? && t.rows[k].expiresAt > now && t.rows[k].browserNonce == browserNonce
  }

  function AfterConsumeLogin(t: Tables, k: Token, browserNonce: nat, now: Time): (Tables, Option<Row>) {
    if LoginIsLive(t, k, browserNonce, now) then (t.(rows := t.rows - {k}), Some(t.rows[k])) else (t, None)
  }

  // ---------------------------------------------------------------- accounts

  /** The account is signed in and may be sent on with a code. */
  predicate MayAuthorize(t: Tables, account: AccountId) {
    account in t.accounts && t.accounts[account].status == Enabled && !t.accounts[account].resetRequired
  }

  /** `authorizeWithAccount`: only an active account without a pending reset gets a code. */
  function AfterAuthorize(t: Tables, account: AccountId, request: Request, now: Time): Tables {
    if MayAuthorize(t, account) then AfterCreateCode(t, account, request, now) else t
  }

  function ActiveSuperAdmins(accounts: map<AccountId, Account>): set<AccountId> {
    set a | a in accounts && accounts[a].superAdmin && accounts[a].status == Enabled
  }

  /** Disabling the last active super admin is refused. */
  predicate Refused(t: Tables, account: AccountId, status: AccountStatus) {
    && account in t.accounts && status == Disabled
    && account in ActiveSuperAdmins(t.accounts) && |ActiveSuperAdmins(t.accounts)| <= 1
  }

  /** `accounts.update` with a new status; disabling revokes the refresh tokens. */
  function AfterSetStatus(t: Tables, account: AccountId, status: AccountStatus): Tables {
    if account !in t.accounts || Refused(t, account, status) then t
    else
      var saved := t.(accounts := t.accounts[account := t.accounts[account].(status := status)]);
      if status == Disabled then AfterRevokeAccount(saved, account) else saved
  }

  function AfterResetPassword(t: Tables, account: AccountId, resetRequired: bool): Tables {
    if account !in t.accounts then t
    else AfterRevokeAccount(t.(accounts := t.accounts[account := t.accounts[account].(resetRequired := resetRequired)]), account)
  }

  function AfterCompleteReset(t: Tables, account: AccountId): Tables {
    if account !in t.accounts || t.accounts[account].status != Enabled || !t.accounts[account].resetRequired then t
    else t.(accounts := t.accounts[account := t.accounts[account].(resetRequired := false)])
  }

  // ---------------------------------------------------------------- the token endpoint

  /** The code a family starts from: what was stored with it, and what the client presented. */
  datatype Origin = Origin(code: Token, account: AccountId, stored: Request, client: ClientId, redirectUri: string, verifier: string)

  /** A granted request between consuming its credential and inserting the new refresh token. */
  datatype Grant =
    | ByCode(origin: Origin, acceptedAt: Time)
    | ByRefresh(account: AccountId, client: ClientId, family: FamilyId, parent: Token, acceptedAt: Time)

  predicate MayProceed(t: Tables, account: AccountId, permitted: bool) {
    account in t.accounts && !t.accounts[account].resetRequired && permitted
  }

  /** The authorization_code grant up to the insertion; the code is spent even when a check fails. */
  function AfterCodeGrant(t: Tables, k: Token, client: ClientId, redirectUri: string, verifier: string,
                          permitted: bool, now: Time): (Tables, Option<Grant>) {
    var (spent, row) := AfterConsumeCode(t, k, now);
    if row.None? || !row.value.Code? then (spent, None)
    else
      var code := row.value;
      if code.request.client != client || code.request.redirectUri != redirectUri
         || S256(verifier) != code.request.challenge || !MayProceed(spent, code.account, permitted) then (spent, None)
      else (spent, Some(ByCode(Origin(k, code.account, code.request, client, redirectUri, verifier), now)))
  }

  /** The refresh_token grant up to the insertion; a holder that is not active is refused before consuming. */
  function AfterRefreshGrant(t: Tables, graceMs: int, k: Token, client: ClientId, permitted: bool,
                             now: Time): (Tables, Option<Grant>) {
    if IsRefresh(t, k) && (t.rows[k].account !in t.accounts || t.accounts[t.rows[k].account].status != Enabled) then (t, None)
    else
      var (consumed, result) := AfterConsume(t, graceMs, k, now);
      if !result.Accepted? || result.client != client || !MayProceed(consumed, result.account, permitted) then (consumed, None)
      else (consumed, Some(ByRefresh(result.account, client, result.family, k, now)))
  }

  /** The insertion that ends a grant: a code opens a new family, a refresh stays in its own. */
  function AfterGrantIssued(t: Tables, g: Grant, now: Time, ttlMs: int): Tables {
    match g
    case ByCode(origin, _) =>
      AfterIssue(t, origin.account, origin.client, t.nextFamily, now, ttlMs).(nextFamily := t.nextFamily + 1)
    case ByRefresh(account, client, family, _, _) => AfterIssue(t, account, client, family, now, ttlMs)
  }
}
