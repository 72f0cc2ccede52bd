/**
 * What each token request answers, in terms of the columns it reads: src/oidc/oidc.controller.ts,
 * src/oidc/token.service.ts, src/oidc/authorization-code.service.ts, src/oidc/authorize-flow.service.ts,
 * src/domain/accounts/accounts.service.ts.
 */
module TokenAnswers {
  import opened Prelude
  import opened TokenRecords
  import opened TokenRuns

  // ---------------------------------------------------------------- presented credentials

  /** A used token that was first used no longer ago than a positive grace. */
  ghost predicate InGrace(row: Row, graceMs: int, now: Time) {
    row.Refresh? && row.status == Used && row.usedAt.Some? && graceMs > 0 && now - row.usedAt.value <= graceMs
  }

  /**
   * A refresh token is accepted exactly while it is unexpired and active, or used within the grace; an unexpired used
   * or revoked one is a replay otherwise. Accepting an active token uses it up now; accepting a used one changes nothing.
   */
  lemma AcceptedExactly(t: Tables, graceMs: int, k: Token, now: Time)
    ensures var (t', answer) := AfterConsume(t, graceMs, k, now);
      && (answer.Accepted? <==>
            && k in t.rows && t.rows[k].Refresh?
            && ((t.rows[k].status == Active && now < t.rows[k].expiresAt)
                || (InGrace(t.rows[k], graceMs, now) && now <= t.rows[k].expiresAt)))
      && (answer.ReuseDetected? <==>
            && k in t.rows && t.rows[k].Refresh? && now <= t.rows[k].expiresAt
            && (t.rows[k].status == Revoked || (t.rows[k].status == Used && !InGrace(t.rows[k], graceMs, now))))
      && (answer.Accepted? ==>
            && answer.account == t.rows[k].account && answer.client == t.rows[k].client && answer.family == t.rows[k].family
            && t' == if t.rows[k].status == Active
                     then t.(rows := t.rows[k := t.rows[k].(status := Used, usedAt := Some(now))]) else t)
      && (answer.Invalid? ==> t' == t)
  {
  }

  /** New codes live for a minute and new login transactions for five; rows go an hour after they expired. */
  lemma LivesAreFixed(t: Tables, account: AccountId, session: Option<AccountId>, request: Request, nonce: nat, other: nat,
                      now: Time, at: Time, k: Token)
    ensures AfterConsumeCode(AfterCreateCode(t, account, request, now), t.nextToken, at).1.Some? <==> at < now + 60_000
    ensures AfterConsumeLogin(AfterCreateLogin(t, session, request, nonce, now), t.nextToken, other, at).1.Some?
        <==> other == nonce && at < now + 300_000
    ensures k in AfterCleanup(t, now).rows <==> k in t.rows && t.rows[k].expiresAt >= now - 3_600_000
  {
  }

  // ---------------------------------------------------------------- grants

  /**
   * A code is granted exactly to the client it was made for, at its redirect URI, with the verifier of its challenge,
   * while it is live, and if the account exists, has no pending reset and holds a permission of the service.
   */
  lemma CodesAreGrantedExactly(t: Tables, k: Token, client: ClientId, redirectUri: string, verifier: string,
                               permitted: bool, now: Time)
    ensures var (t', grant) := AfterCodeGrant(t, k, client, redirectUri, verifier, permitted, now);
      && (grant.Some? <==>
            && k in t.rows && t.rows[k].Code? && now < t.rows[k].expiresAt
            && t.rows[k].request == Request(client, redirectUri, S256(verifier))
            && permitted && t.rows[k].account in t.accounts && !t.accounts[t.rows[k].account].resetRequired)
      && t'.accounts == t.accounts
      && t'.rows == if k in t.rows && t.rows[k].Code? && now < t.rows[k].expiresAt then t.rows - {k} else t.rows
  {
  }

  /**
   * A refresh is granted exactly for an accepted token of the client, if its holder is active, has no pending reset and
   * holds a permission of the service.
   */
  lemma RefreshesAreGrantedExactly(t: Tables, graceMs: int, k: Token, client: ClientId, permitted: bool, now: Time)
    ensures AfterRefreshGrant(t, graceMs, k, client, permitted, now).1.Some? <==>
      && k in t.rows && t.rows[k].Refresh? && t.rows[k].client == client
      && ((t.rows[k].status == Active && now < t.rows[k].expiresAt)
          || (InGrace(t.rows[k], graceMs, now) && now <= t.rows[k].expiresAt))
      && permitted && t.rows[k].account in t.accounts
      && t.accounts[t.rows[k].account].status == Enabled && !t.accounts[t.rows[k].account].resetRequired
  {
  }

  /** What a grant inserts: one active token for its lifetime, in a new family for a code and in the same for a refresh. */
  lemma GrantsInsert(t: Tables, g: Grant, now: Time, ttlMs: int)
    ensures var t' := AfterGrantIssued(t, g, now, ttlMs);
      && t'.nextToken == t.nextToken + 1 && t'.accounts == t.accounts
      && t'.nextFamily == (if g.ByCode? then t.nextFamily + 1 else t.nextFamily)
      && t'.rows == t.rows[t.nextToken :=
           if g.ByCode? then Refresh(g.origin.account, g.origin.client, t.nextFamily, Active, None, now + ttlMs)
           else Refresh(g.account, g.client, g.family, Active, None, now + ttlMs)]
  {
  }

  // ---------------------------------------------------------------- codes and accounts

  /**
   * A hosted login makes a code exactly from a live transaction of the same browser, for an active account without
   * pending reset that holds a permission of the service; the transaction is gone either way.
   */
  lemma LoginsMakeCodesExactly(t: Tables, login: Token, nonce: nat, account: AccountId, permitted: bool, now: Time)
    requires forall k | k in t.rows :: k < t.nextToken
    ensures var t' := AfterHostedLogin(t, login, nonce, account, permitted, now);
      var live := login in t.rows && t.rows[login].Login? && now < t.rows[login].expiresAt && t.rows[login].browserNonce == nonce;
      && (t.nextToken in t'.rows <==>
            && live && permitted && account in t.accounts
            && t.accounts[account].status == Enabled && !t.accounts[account].resetRequired)
      && (t.nextToken in t'.rows ==> t'.rows[t.nextToken] == Code(account, t.rows[login].request, now + 60_000))
      && (live ==> login !in t'.rows)
      && (!live ==> t' == t)
  {
  }

  /** A direct authorization makes a code exactly for an active account without pending reset. */
  lemma AuthorizesExactly(t: Tables, account: AccountId, request: Request, now: Time)
    ensures AfterAuthorize(t, account, request, now) ==
      if account in t.accounts && t.accounts[account].status == Enabled && !t.accounts[account].resetRequired
      then t.(rows := t.rows[t.nextToken := Code(account, request, now + 60_000)], nextToken := t.nextToken + 1)
      else t
  {
  }

  /**
   * Setting a status is refused only for disabling the last active super admin. Of the tokens, only a disabling touches
   * any: it revokes the refresh tokens of the account.
   */
  lemma StatusesAreSet(t: Tables, account: AccountId, status: AccountStatus)
    requires account in t.accounts
    ensures var t' := AfterSetStatus(t, account, status);
      var last := t.accounts[account].superAdmin && t.accounts[account].status == Enabled
        && forall a | a in t.accounts && t.accounts[a].superAdmin && t.accounts[a].status == Enabled :: a == account;
      && t'.accounts == (if status == Disabled && last then t.accounts
                         else t.accounts[account := t.accounts[account].(status := status)])
      && (forall k | k in t.rows ::
            k in t'.rows
            && t'.rows[k] == if t.rows[k].Refresh? && t.rows[k].account == account && status == Disabled && !last
                             then t.rows[k].(status := Revoked) else t.rows[k])
  {
    var admins := ActiveSuperAdmins(t.accounts);
    if account in admins {
      var others := admins - {account};
      assert admins == others + {account} && |admins| == |others| + 1;
      if others != {} {
        var a :| a in others;
        assert a in admins && a != account;
      } else {
        forall a | a in t.accounts && t.accounts[a].superAdmin && t.accounts[a].status == Enabled ensures a == account {
          assert a in admins && a !in others;
        }
      }
    }
  }

  /** A reset by an administrator sets the flag and revokes the refresh tokens; the account itself lifts the flag. */
  lemma ResetsAreSet(t: Tables, account: AccountId, required: bool)
    requires account in t.accounts
    ensures var t' := AfterResetPassword(t, account, required);
      && t'.accounts == t.accounts[account := t.accounts[account].(resetRequired := required)]
      && (forall k | k in t.rows ::
            k in t'.rows
            && t'.rows[k] == if t.rows[k].Refresh? && t.rows[k].account == account
                             then t.rows[k].(status := Revoked) else t.rows[k])
    ensures var t' := AfterCompleteReset(t, account);
      t' == t.(accounts := t'.accounts)
      && t'.accounts == if t.accounts[account].status == Enabled
                        then t.accounts[account := t.accounts[account].(resetRequired := false)] else t.accounts
  {
    if !t.accounts[account].resetRequired {
      assert t.accounts[account := t.accounts[account].(resetRequired := false)] == t.accounts;
    }
  }
}
