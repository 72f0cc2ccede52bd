/** The services over `token_records`, and the ordered effects of the token endpoint and hosted login. */
module TokenServices {
  import opened Prelude
  import opened TokenRecords
  import TokenRuns

  class Database {
    var rows: map<Token, Row>
    var accounts: map<AccountId, Account>
    var nextToken: Token
    var nextFamily: FamilyId

    constructor (accounts: map<AccountId, Account>)
      ensures State() == Tables(map[], accounts, 0, 0)
    {
      rows, this.accounts, nextToken, nextFamily := map[], accounts, 0, 0;
    }

    ghost function State(): Tables
      reads this
    {
      Tables(rows, accounts, nextToken, nextFamily)
    }
  }

  /** src/oidc/authorization-code.service.ts. */
  class AuthorizationCodeService {
    const db: Database

    constructor (db: Database)
      ensures this.db == db
    {
      this.db := db;
    }

    method Create(account: AccountId, request: Request, now: Time) returns (code: Token)
      modifies db`rows, db`nextToken
      ensures db.State() == AfterCreateCode(old(db.State()), account, request, now) && code == old(db.nextToken)
      ensures forall at ::
        AfterConsumeCode(db.State(), code, at).1 ==
          if at < now + CODE_TTL_MS then Some(Code(account, request, now + CODE_TTL_MS)) else None
    {
      code := db.nextToken;
      db.rows := db.rows[code := Code(account, request, now + CODE_TTL_MS)];
      db.nextToken := code + 1;
    }

    method Consume(code: Token, now: Time) returns (row: Option<Row>)
      modifies db`rows
      ensures (db.State(), row) == AfterConsumeCode(old(db.State()), code, now)
      ensures row.Some? ==> forall at :: AfterConsumeCode(db.State(), code, at).1 == None
    {
      if code !in db.rows || !db.rows[code].Code? || db.rows[code].expiresAt <= now { return None; }
      row := Some(db.rows[code]);
      db.rows := db.rows - {code};
    }
  }

  /** src/oidc/hosted-login-transaction.service.ts. */
  class HostedLoginTransactionService {
    const db: Database

    constructor (db: Database)
      ensures this.db == db
    {
      this.db := db;
    }

    method Create(session: Option<AccountId>, request: Request, browserNonce: nat, now: Time) returns (id: Token)
      modifies db`rows, db`nextToken
      ensures db.State() == AfterCreateLogin(old(db.State()), session, request, browserNonce, now) && id == old(db.nextToken)
      ensures forall nonce, at ::
        AfterConsumeLogin(db.State(), id, nonce, at).1 == if nonce == browserNonce && at < now + LOGIN_TTL_MS
        then Some(Login(session, request, browserNonce, now + LOGIN_TTL_MS)) else None
    {
      id := db.nextToken;
      db.rows := db.rows[id := Login(session, request, browserNonce, now + LOGIN_TTL_MS)];
      db.nextToken := id + 1;
    }

    method Find(id: Token, browserNonce: nat, now: Time) returns (row: Option<Row>)
      ensures row == AfterConsumeLogin(db.State(), id, browserNonce, now).1
    {
      if id in db.rows && db.rows[id].Login? && db.rows[id].expiresAt > now && db.rows[id].browserNonce == browserNonce {
        return Some(db.rows[id]);
      }
      return None;
    }

    method Consume(id: Token, browserNonce: nat, now: Time) returns (row: Option<Row>)
      modifies db`rows
      ensures (db.State(), row) == AfterConsumeLogin(old(db.State()), id, browserNonce, now)
      ensures row.Some? ==> forall nonce, at :: AfterConsumeLogin(db.State(), id, nonce, at).1 == None
    {
      row := Find(id, browserNonce, now);
      if row.Some? { db.rows := db.rows - {id}; }
    }
  }

  /** src/oidc/token.service.ts. */
  class TokenService {
    const db: Database
    const graceMs: int
    var lastCleanupAt: Time

    constructor (db: Database, graceMs: int)
      ensures this.db == db && this.graceMs == graceMs && lastCleanupAt == 0
    {
      this.db, this.graceMs, lastCleanupAt := db, graceMs, 0;
    }

    method IssueTokens(account: AccountId, client: ClientId, family: FamilyId, now: Time,
                       ttlMs: int) returns (token: Token)
      modifies db`rows, db`nextToken
      ensures db.State() == AfterIssue(old(db.State()), account, client, family, now, ttlMs) && token == old(db.nextToken)
      ensures db.rows.Keys == old(db.rows).Keys + {token}
      ensures forall k | k in old(db.rows) && k != token :: db.rows[k] == old(db.rows)[k]
      ensures forall grace, at ::
        AfterConsume(db.State(), grace, token, at).1 == if at < now + ttlMs then Accepted(account, client, family) else Invalid
    {
      token := db.nextToken;
      db.rows := db.rows[token := Refresh(account, client, family, Active, None, now + ttlMs)];
      db.nextToken := token + 1;
    }

    method CleanupExpiredTokens(now: Time)
      modifies this`lastCleanupAt, db`rows
      ensures db.State() == AfterCleanup(old(db.State()), now) && lastCleanupAt == now
      ensures forall grace, k, at | at >= now ::
        AfterConsume(db.State(), grace, k, at).1 == AfterConsume(old(db.State()), grace, k, at).1
      ensures forall k, at | at >= now :: AfterConsumeCode(db.State(), k, at).1 == AfterConsumeCode(old(db.State()), k, at).1
      ensures forall k, nonce, at | at >= now ::
        AfterConsumeLogin(db.State(), k, nonce, at).1 == AfterConsumeLogin(old(db.State()), k, nonce, at).1
    {
      forall grace, k { CleanupIsInvisible(db.State(), grace, k, now); }
      lastCleanupAt := now;
      db.rows := map k | k in db.rows && db.rows[k].expiresAt >= now - CLEANUP_AGE_MS :: db.rows[k];
    }

    method RevokeFamily(family: FamilyId)
      modifies db`rows
      ensures db.State() == AfterRevokeFamily(old(db.State()), family)
      ensures TokenRuns.FamilyRevoked(db.State(), family) && db.rows.Keys == old(db.rows).Keys
      ensures forall k | k in old(db.rows) && !(old(db.rows)[k].Refresh? && old(db.rows)[k].family == family) ::
        db.rows[k] == old(db.rows)[k]
    {
      db.rows := map k | k in db.rows ::
        if db.rows[k].Refresh? && db.rows[k].family == family then db.rows[k].(status := Revoked) else db.rows[k];
    }

    method RevokeRefreshToken(k: Token)
      modifies db`rows
      ensures db.State() == AfterRevokeToken(old(db.State()), k)
      ensures forall grace, at :: !AfterConsume(db.State(), grace, k, at).1.Accepted?
      ensures db.rows.Keys == old(db.rows).Keys && forall x | x in old(db.rows) && x != k :: db.rows[x] == old(db.rows)[x]
    {
      if k in db.rows && db.rows[k].Refresh? {
        db.rows := db.rows[k := db.rows[k].(status := Revoked)];
      }
    }

    /** Cleans up first when the throttle allows it; that never changes the answer. */
    method ConsumeRefreshToken(k: Token, now: Time) returns (result: Consumed)
      modifies this`lastCleanupAt, db`rows
      ensures result == AfterConsume(old(db.State()), graceMs, k, now).1
      ensures db.State() ==
        var consumed := AfterConsume(old(db.State()), graceMs, k, now).0;
        if now - old(lastCleanupAt) < 600_000 then consumed else AfterCleanup(consumed, now)
      ensures lastCleanupAt == if now - old(lastCleanupAt) < 600_000 then old(lastCleanupAt) else now
    {
      CleanupIsInvisible(db.State(), graceMs, k, now);
      if now - lastCleanupAt >= CLEANUP_THROTTLE_MS {
        CleanupExpiredTokens(now);
      }
      result := Consume(k, now);
    }

    method Consume(k: Token, now: Time) returns (result: Consumed)
      modifies db`rows
      ensures (db.State(), result) == AfterConsume(old(db.State()), graceMs, k, now)
    {
      if k in db.rows && db.rows[k].Refresh? && db.rows[k].status == Active && db.rows[k].expiresAt > now {
        db.rows := db.rows[k := db.rows[k].(status := Used, usedAt := Some(now))];
        return Accepted(db.rows[k].account, db.rows[k].client, db.rows[k].family);
      }
      if k !in db.rows || !db.rows[k].Refresh? || db.rows[k].expiresAt < now {
        return Invalid;
      }
      var record := db.rows[k];
      if record.status == Used && WithinGrace(graceMs, record.usedAt, now) {
        return Accepted(record.account, record.client, record.family);
      }
      if record.status != Active {
        RevokeFamily(record.family);
        return ReuseDetected;
      }
      return Invalid;
    }
  }

  lemma OthersRemain(accounts: map<AccountId, Account>, account: AccountId)
    requires account in ActiveSuperAdmins(accounts) && |ActiveSuperAdmins(accounts)| > 1
    ensures exists a :: a in ActiveSuperAdmins(accounts) && a != account
  {
    var others := ActiveSuperAdmins(accounts) - {account};
    assert others != {} by { assert ActiveSuperAdmins(accounts) == others + {account}; }
    var a :| a in others;
  }

  /** src/domain/accounts/accounts.service.ts, where it touches tokens. */
  class AccountsService {
    const db: Database

    constructor (db: Database)
      ensures this.db == db
    {
      this.db := db;
    }

    method RevokeAccountRefreshTokens(account: AccountId)
      modifies db`rows
      ensures db.State() == AfterRevokeAccount(old(db.State()), account)
      ensures forall k, grace, at | k in db.rows && db.rows[k].Refresh? && db.rows[k].account == account ::
        !AfterConsume(db.State(), grace, k, at).1.Accepted?
      ensures db.rows.Keys == old(db.rows).Keys
      ensures forall k | k in old(db.rows) && !(old(db.rows)[k].Refresh? && old(db.rows)[k].account == account) ::
        db.rows[k] == old(db.rows)[k]
    {
      db.rows := map k | k in db.rows ::
        if db.rows[k].Refresh? && db.rows[k].account == account && (db.rows[k].status == Active || db.rows[k].status == Used)
        then db.rows[k].(status := Revoked) else db.rows[k];
    }

    method UpdateStatus(account: AccountId, status: AccountStatus) returns (saved: bool)
      modifies db`rows, db`accounts
      ensures db.State() == AfterSetStatus(old(db.State()), account, status)
      ensures saved <==> account in old(db.accounts) && !Refused(old(db.State()), account, status)
      ensures ActiveSuperAdmins(old(db.accounts)) != {} && status == Disabled ==> ActiveSuperAdmins(db.accounts) != {}
    {
      if account !in db.accounts { return false; }
      if status == Disabled && db.accounts[account].status == Enabled && db.accounts[account].superAdmin {
        var active := set a | a in db.accounts && db.accounts[a].superAdmin && db.accounts[a].status == Enabled;
        assert active == ActiveSuperAdmins(db.accounts);
        if |active| <= 1 { return false; }
        OthersRemain(db.accounts, account);
      }
      ghost var before := db.accounts;
      db.accounts := db.accounts[account := db.accounts[account].(status := status)];
      if status == Disabled {
        assert forall a | a in ActiveSuperAdmins(before) && a != account :: a in ActiveSuperAdmins(db.accounts);
        RevokeAccountRefreshTokens(account);
      }
      return true;
    }

    method ResetPassword(account: AccountId, resetRequired: bool) returns (found: bool)
      modifies db`rows, db`accounts
      ensures db.State() == AfterResetPassword(old(db.State()), account, resetRequired) && (found <==> account in old(db.accounts))
    {
      if account !in db.accounts { return false; }
      db.accounts := db.accounts[account := db.accounts[account].(resetRequired := resetRequired)];
      RevokeAccountRefreshTokens(account);
      return true;
    }
  }

  /** The `token` endpoint of src/oidc/oidc.controller.ts, for an authenticated client. */
  class OidcController {
    const db: Database
    const codes: AuthorizationCodeService
    const tokens: TokenService

    constructor (db: Database, codes: AuthorizationCodeService, tokens: TokenService)
      ensures this.db == db && this.codes == codes && this.tokens == tokens
    {
      this.db, this.codes, this.tokens := db, codes, tokens;
    }

    method CodeGrant(client: ClientId, code: Token, redirectUri: string, verifier: string, permitted: bool, now: Time,
                     ttlMs: int)
      returns (token: Option<Token>)
      requires codes.db == db && tokens.db == db
      modifies db
      ensures var (spent, grant) := AfterCodeGrant(old(db.State()), code, client, redirectUri, verifier, permitted, now);
        db.State() == (if grant.None? then spent else AfterGrantIssued(spent, grant.value, now, ttlMs))
        && token == (if grant.None? then None else Some(old(db.nextToken)))
      ensures token.Some? ==>
        && permitted && code in old(db.rows) && old(db.rows)[code].Code? && now < old(db.rows)[code].expiresAt
        && old(db.rows)[code].request == Request(client, redirectUri, S256(verifier))
        && old(db.rows)[code].account in db.accounts && !db.accounts[old(db.rows)[code].account].resetRequired
    {
      var row := codes.Consume(code, now);
      if row.None? || row.value.request.client != client { return None; }
      if row.value.request.redirectUri != redirectUri { return None; }
      if S256(verifier) != row.value.request.challenge { return None; }
      var account := row.value.account;
      if account !in db.accounts || db.accounts[account].resetRequired { return None; }
      if !permitted { return None; }
      var family := db.nextFamily;
      db.nextFamily := family + 1;
      var issued := tokens.IssueTokens(account, client, family, now, ttlMs);
      return Some(issued);
    }

    method RefreshGrant(client: ClientId, k: Token, permitted: bool, now: Time,
                        ttlMs: int) returns (token: Option<Token>)
      requires codes.db == db && tokens.db == db
      modifies db
      ensures var (consumed, grant) := AfterRefreshGrant(old(db.State()), tokens.graceMs, k, client, permitted, now);
        db.State() == (if grant.None? then consumed else AfterGrantIssued(consumed, grant.value, now, ttlMs))
        && token == (if grant.None? then None else Some(old(db.nextToken)))
      ensures token.Some? ==>
        && permitted && k in old(db.rows) && old(db.rows)[k].Refresh? && old(db.rows)[k].client == client
        && old(db.rows)[k].account in db.accounts
        && db.accounts[old(db.rows)[k].account].status == Enabled && !db.accounts[old(db.rows)[k].account].resetRequired
    {
      if k in db.rows && db.rows[k].Refresh? {
        var holder := db.rows[k].account;
        if holder !in db.accounts || db.accounts[holder].status != Enabled { return None; }
      }
      var refresh := tokens.Consume(k, now);
      if !refresh.Accepted? { return None; }
      if refresh.client != client { return None; }
      if refresh.account !in db.accounts || db.accounts[refresh.account].resetRequired { return None; }
      if !permitted { return None; }
      var issued := tokens.IssueTokens(refresh.account, client, refresh.family, now, ttlMs);
      return Some(issued);
    }
  }

  /** `hostedLogin` of src/oidc/login.controller.ts, once credentials authenticated `account`. */
  class LoginController {
    const db: Database
    const logins: HostedLoginTransactionService
    const codes: AuthorizationCodeService

    constructor (db: Database, logins: HostedLoginTransactionService, codes: AuthorizationCodeService)
      ensures this.db == db && this.logins == logins && this.codes == codes
    {
      this.db, this.logins, this.codes := db, logins, codes;
    }

    method CompleteLogin(login: Token, browserNonce: nat, account: AccountId, permitted: bool,
                         now: Time) returns (code: Option<Token>)
      requires logins.db == db && codes.db == db
      modifies db
      ensures db.State() == TokenRuns.AfterHostedLogin(old(db.State()), login, browserNonce, account, permitted, now)
      ensures code.Some? <==>
        LoginIsLive(old(db.State()), login, browserNonce, now) && MayAuthorize(old(db.State()), account) && permitted
      ensures code.Some? ==> code.value == old(db.nextToken)
    {
      var transaction := logins.Consume(login, browserNonce, now);
      if transaction.None? { return None; }
      if !MayAuthorize(Tables(db.rows, db.accounts, db.nextToken, db.nextFamily), account) || !permitted { return None; }
      var issued := codes.Create(account, transaction.value.request, now);
      return Some(issued);
    }
  }
}
