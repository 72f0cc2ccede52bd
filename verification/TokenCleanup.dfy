/** The throttled deletion of long-expired rows, over whole runs: `cleanupExpiredTokens` in src/oidc/token.service.ts. */
module TokenCleanup {
  import opened Prelude
  import opened TokenRecords
  import opened TokenRuns

  /** What the caller of a request learns: the grant it got, or whether a login made a code. */
  datatype Reply = Granting(grant: Option<Grant>) | Consuming(result: Consumed) | Coding(made: bool)

  ghost function RepliesOf(graceMs: int, s: System, step: Step): seq<Reply> {
    match step
    case CodeGrant(code, client, redirectUri, verifier, permitted) =>
      [Granting(AfterCodeGrant(s.t, code, client, redirectUri, verifier, permitted, s.now).1)]
    case RefreshGrant(token, client, permitted) =>
      [Granting(AfterRefreshGrant(s.t, graceMs, token, client, permitted, s.now).1),
       Consuming(AfterConsume(s.t, graceMs, token, s.now).1)]
    case HostedLogin(login, browserNonce, account, permitted) =>
      [Coding(AfterHostedLogin(s.t, login, browserNonce, account, permitted, s.now).nextToken > s.t.nextToken)]
    case _ => []
  }

  ghost function Replies(graceMs: int, s: System, steps: seq<Step>): seq<Reply> {
    if steps == [] then []
    else
      var before := steps[..|steps| - 1];
      Replies(graceMs, s, before) + RepliesOf(graceMs, Run(graceMs, s, before), steps[|steps| - 1])
  }

  function Uncleaned(steps: seq<Step>): seq<Step> {
    if steps == [] then []
    else
      var before := Uncleaned(steps[..|steps| - 1]);
      if steps[|steps| - 1].Cleanup? then before else before + [steps[|steps| - 1]]
  }

  /** The first table has lost nothing but rows that expired long ago. */
  ghost predicate Cleaned(a: Tables, b: Tables, now: Time) {
    && a.accounts == b.accounts && a.nextToken == b.nextToken && a.nextFamily == b.nextFamily
    && (forall k | k in a.rows :: k in b.rows && a.rows[k] == b.rows[k])
    && (forall k | k in b.rows && k !in a.rows :: b.rows[k].expiresAt < now - CLEANUP_AGE_MS && k < b.nextToken)
  }

  /** Equal but for such rows, and for the history of first uses. */
  ghost predicate Agree(a: System, b: System) {
    && Cleaned(a.t, b.t, a.now)
    && a.now == b.now && a.pending == b.pending && a.nextGrant == b.nextGrant
    && a.issued == b.issued && a.origins == b.origins
  }

  // ---------------------------------------------------------------- one request

  lemma ConsumeAgrees(a: Tables, b: Tables, graceMs: int, k: Token, now: Time)
    requires Cleaned(a, b, now)
    ensures AfterConsume(a, graceMs, k, now).1 == AfterConsume(b, graceMs, k, now).1
    ensures Cleaned(AfterConsume(a, graceMs, k, now).0, AfterConsume(b, graceMs, k, now).0, now)
  {
  }

  lemma RefreshGrantAgrees(a: Tables, b: Tables, graceMs: int, k: Token, client: ClientId, permitted: bool, now: Time)
    requires Cleaned(a, b, now)
    ensures AfterRefreshGrant(a, graceMs, k, client, permitted, now).1 == AfterRefreshGrant(b, graceMs, k, client, permitted, now).1
    ensures Cleaned(AfterRefreshGrant(a, graceMs, k, client, permitted, now).0,
                    AfterRefreshGrant(b, graceMs, k, client, permitted, now).0, now)
  {
    ConsumeAgrees(a, b, graceMs, k, now);
  }

  lemma CodeGrantAgrees(a: Tables, b: Tables, k: Token, client: ClientId, redirectUri: string, verifier: string,
                        permitted: bool, now: Time)
    requires Cleaned(a, b, now)
    ensures AfterCodeGrant(a, k, client, redirectUri, verifier, permitted, now).1
         == AfterCodeGrant(b, k, client, redirectUri, verifier, permitted, now).1
    ensures Cleaned(AfterCodeGrant(a, k, client, redirectUri, verifier, permitted, now).0,
                    AfterCodeGrant(b, k, client, redirectUri, verifier, permitted, now).0, now)
  {
  }

  lemma HostedLoginAgrees(a: Tables, b: Tables, login: Token, browserNonce: nat, account: AccountId, permitted: bool,
                          now: Time)
    requires Cleaned(a, b, now)
    ensures AfterHostedLogin(a, login, browserNonce, account, permitted, now).nextToken
         == AfterHostedLogin(b, login, browserNonce, account, permitted, now).nextToken
    ensures Cleaned(AfterHostedLogin(a, login, browserNonce, account, permitted, now),
                    AfterHostedLogin(b, login, browserNonce, account, permitted, now), now)
  {
  }

  lemma CleanupAgrees(a: Tables, b: Tables, now: Time)
    requires Cleaned(a, b, now) && forall k | k in b.rows :: k < b.nextToken
    ensures Cleaned(AfterCleanup(a, now), b, now)
  {
  }

  lemma PlainAgrees(graceMs: int, a: System, b: System, step: Step)
    requires Agree(a, b) && !step.HostedLogin? && !step.Cleanup?
    ensures Cleaned(NextTables(graceMs, a, step), NextTables(graceMs, b, step), a.now)
  {
  }

  lemma IssueAgrees(graceMs: int, a: System, b: System, g: GrantId, ttlMs: int)
    requires Agree(a, b) && g in a.pending
    ensures Agree(Next(graceMs, a, Issue(g, ttlMs)), Next(graceMs, b, Issue(g, ttlMs)))
  {
  }

  lemma AdvanceAgrees(graceMs: int, a: System, b: System, now: Time)
    requires Agree(a, b) && a.now <= now
    ensures Agree(Next(graceMs, a, Advance(now)), Next(graceMs, b, Advance(now)))
  {
  }

  lemma CodeGrantStepAgrees(graceMs: int, a: System, b: System, step: Step)
    requires Agree(a, b) && step.CodeGrant?
    ensures RepliesOf(graceMs, a, step) == RepliesOf(graceMs, b, step)
    ensures Agree(Next(graceMs, a, step), Next(graceMs, b, step))
  {
    hide AfterCodeGrant;
    CodeGrantAgrees(a.t, b.t, step.code, step.client, step.redirectUri, step.verifier, step.permitted, a.now);
  }

  lemma RefreshGrantStepAgrees(graceMs: int, a: System, b: System, step: Step)
    requires Agree(a, b) && step.RefreshGrant?
    ensures RepliesOf(graceMs, a, step) == RepliesOf(graceMs, b, step)
    ensures Agree(Next(graceMs, a, step), Next(graceMs, b, step))
  {
    hide AfterRefreshGrant, AfterConsume;
    RefreshGrantAgrees(a.t, b.t, graceMs, step.token, step.client, step.permitted, a.now);
    ConsumeAgrees(a.t, b.t, graceMs, step.token, a.now);
  }

  lemma HostedLoginStepAgrees(graceMs: int, a: System, b: System, step: Step)
    requires Agree(a, b) && step.HostedLogin?
    ensures RepliesOf(graceMs, a, step) == RepliesOf(graceMs, b, step)
    ensures Agree(Next(graceMs, a, step), Next(graceMs, b, step))
  {
    hide AfterHostedLogin;
    HostedLoginAgrees(a.t, b.t, step.login, step.browserNonce, step.account, step.permitted, a.now);
  }

  lemma PlainStepAgrees(graceMs: int, a: System, b: System, step: Step)
    requires Agree(a, b)
    requires step.Authorize? || step.CreateLogin? || step.RevokeRequest? || step.SetStatus? || step.ResetPassword?
             || step.CompleteReset? || step.Abandon?
    ensures RepliesOf(graceMs, a, step) == RepliesOf(graceMs, b, step)
    ensures Agree(Next(graceMs, a, step), Next(graceMs, b, step))
  {
    hide NextTables;
    PlainAgrees(graceMs, a, b, step);
  }

  lemma StepAgrees(graceMs: int, a: System, b: System, step: Step)
    requires Agree(a, b) && Legal(a, step) && !step.Cleanup?
    ensures Legal(b, step) && RepliesOf(graceMs, a, step) == RepliesOf(graceMs, b, step)
    ensures Agree(Next(graceMs, a, step), Next(graceMs, b, step))
  {
    hide Next, Cleaned;
    match step
    case CodeGrant(_, _, _, _, _) => CodeGrantStepAgrees(graceMs, a, b, step);
    case RefreshGrant(_, _, _) => RefreshGrantStepAgrees(graceMs, a, b, step);
    case HostedLogin(_, _, _, _) => HostedLoginStepAgrees(graceMs, a, b, step);
    case Advance(now) => AdvanceAgrees(graceMs, a, b, now);
    case Issue(g, ttlMs) => IssueAgrees(graceMs, a, b, g, ttlMs);
    case _ => PlainStepAgrees(graceMs, a, b, step);
  }

  // ---------------------------------------------------------------- whole runs

  /** Leaving every cleanup out of a run changes no reply to any code, login or refresh request. */
  lemma {:induction false} CleanupsAreInvisible(graceMs: int, s: System, steps: seq<Step>)
    requires Inv(s) && LegalRun(graceMs, s, steps)
    ensures LegalRun(graceMs, s, Uncleaned(steps))
    ensures Agree(Run(graceMs, s, steps), Run(graceMs, s, Uncleaned(steps)))
    ensures Replies(graceMs, s, steps) == Replies(graceMs, s, Uncleaned(steps))
  {
    if steps != [] {
      var before, last := steps[..|steps| - 1], steps[|steps| - 1];
      CleanupsAreInvisible(graceMs, s, before);
      var kept := Uncleaned(before);
      var a, b := Run(graceMs, s, before), Run(graceMs, s, kept);
      if last.Cleanup? {
        RunKeepsInv(graceMs, s, kept);
        assert forall k | k in b.t.rows :: RowOk(b, k) && k < b.t.nextToken;
        CleanupAgrees(a.t, b.t, a.now);
      } else {
        assert (kept + [last])[..|kept|] == kept;
        StepAgrees(graceMs, a, b, last);
      }
    }
  }
}
