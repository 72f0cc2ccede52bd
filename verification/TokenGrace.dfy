/** Rotation timing: successors within the grace window of the first use, and one live token without grace. */
module TokenGrace {
  import opened Prelude
  import opened TokenRecords
  import opened TokenRuns

  function Window(graceMs: int): nat {
    if graceMs > 0 then graceMs else 0
  }

  /** The stored use time is the first use, and only a token that is still active has none. */
  ghost predicate UseOk(s: System, k: Token)
    requires IsRefresh(s.t, k)
  {
    var row := s.t.rows[k];
    && k < s.t.nextToken
    && (row.status == Active ==> k !in s.firstUse)
    && (row.status == Used ==> k in s.firstUse && row.usedAt == Some(s.firstUse[k]))
  }

  /** The grant was accepted within the window after the first use of its parent. */
  ghost predicate InWindow(graceMs: int, s: System, g: Grant) {
    g.ByRefresh? ==>
      g.parent in s.firstUse && s.firstUse[g.parent] <= g.acceptedAt <= s.firstUse[g.parent] + Window(graceMs)
  }

  ghost predicate GraceInv(graceMs: int, s: System) {
    && (forall k | IsRefresh(s.t, k) :: UseOk(s, k))
    && (forall k | k in s.firstUse :: k < s.t.nextToken && s.firstUse[k] <= s.now)
    && (forall g | g in s.pending :: InWindow(graceMs, s, s.pending[g]))
    && (forall k | k in s.issued :: InWindow(graceMs, s, s.issued[k].grant))
  }

  lemma GrantUses(t: Tables, graceMs: int, k: Token, client: ClientId, permitted: bool, now: Time)
    ensures var (t', g) := AfterRefreshGrant(t, graceMs, k, client, permitted, now);
      && t'.nextToken == t.nextToken
      && (forall x | IsRefresh(t', x) && x != k :: IsRefresh(t, x) && t'.rows[x].usedAt == t.rows[x].usedAt
            && (t'.rows[x].status == t.rows[x].status || t'.rows[x].status == Revoked))
      && (IsRefresh(t', k) ==> IsRefresh(t, k))
      && (g.Some? ==>
            g.value.ByRefresh? && g.value.parent == k && g.value.acceptedAt == now && IsRefresh(t', k) && t'.rows[k].status == Used
            && (t.rows[k].status == Active || (t.rows[k].status == Used && WithinGrace(graceMs, t.rows[k].usedAt, now))))
      && (IsRefresh(t', k) && t'.rows[k].status == Active ==> t'.rows[k] == t.rows[k])
      && (IsRefresh(t', k) && t'.rows[k].status == Used ==>
            t'.rows[k] == t.rows[k] || (t.rows[k].status == Active && t'.rows[k].usedAt == Some(now)))
  {
  }

  lemma RefreshGrantKeepsUses(graceMs: int, s: System, k: Token, client: ClientId, permitted: bool)
    requires forall x | IsRefresh(s.t, x) :: UseOk(s, x)
    ensures var s' := Next(graceMs, s, RefreshGrant(k, client, permitted));
      && (forall x | IsRefresh(s'.t, x) :: UseOk(s', x))
      && (forall x | x in s.firstUse :: x in s'.firstUse && s'.firstUse[x] == s.firstUse[x])
      && (forall x | x in s'.firstUse && x !in s.firstUse :: x == k && IsRefresh(s.t, k) && s'.firstUse[k] == s.now)
  {
    var s' := Next(graceMs, s, RefreshGrant(k, client, permitted));
    GrantUses(s.t, graceMs, k, client, permitted, s.now);
    if IsRefresh(s.t, k) { assert UseOk(s, k); }
    forall x | IsRefresh(s'.t, x) ensures UseOk(s', x) { assert UseOk(s, x); }
  }

  lemma RefreshGrantKeepsGrace(graceMs: int, s: System, k: Token, client: ClientId, permitted: bool)
    requires GraceInv(graceMs, s)
    ensures GraceInv(graceMs, Next(graceMs, s, RefreshGrant(k, client, permitted)))
  {
    var s' := Next(graceMs, s, RefreshGrant(k, client, permitted));
    GrantUses(s.t, graceMs, k, client, permitted, s.now);
    RefreshGrantKeepsUses(graceMs, s, k, client, permitted);
    if IsRefresh(s.t, k) { assert UseOk(s, k); }
    forall g | g in s'.pending ensures InWindow(graceMs, s', s'.pending[g]) {
      if g in s.pending { assert InWindow(graceMs, s, s.pending[g]); }
    }
    forall x | x in s'.issued ensures InWindow(graceMs, s', s'.issued[x].grant) { assert InWindow(graceMs, s, s.issued[x].grant); }
  }

  /** The other steps keep uses, and their grants come from codes. */
  ghost predicate Plain(s: System, s': System) {
    && s.t.nextToken <= s'.t.nextToken && s.now <= s'.now
    && s'.firstUse == s.firstUse && s'.issued == s.issued
    && (forall g | g in s'.pending :: s'.pending[g].ByCode? || (g in s.pending && s'.pending[g] == s.pending[g]))
    && (forall k | IsRefresh(s'.t, k) :: IsRefresh(s.t, k) && s'.t.rows[k].usedAt == s.t.rows[k].usedAt
          && s'.t.rows[k].family == s.t.rows[k].family
          && (s'.t.rows[k].status == s.t.rows[k].status || s'.t.rows[k].status == Revoked))
  }

  lemma CodeGrantIsPlain(graceMs: int, s: System, code: Token, client: ClientId, redirectUri: string,
                         verifier: string, permitted: bool)
    ensures Plain(s, Next(graceMs, s, CodeGrant(code, client, redirectUri, verifier, permitted)))
  {
  }

  lemma OtherStepIsPlain(graceMs: int, s: System, step: Step)
    requires !step.RefreshGrant? && !step.Issue? && Legal(s, step)
    requires forall k | k in s.t.rows :: k < s.t.nextToken
    ensures Plain(s, Next(graceMs, s, step))
  {
    if step.CodeGrant? {
      CodeGrantIsPlain(graceMs, s, step.code, step.client, step.redirectUri, step.verifier, step.permitted);
    }
  }

  lemma PlainKeepsGrace(graceMs: int, s: System, s': System)
    requires GraceInv(graceMs, s) && Plain(s, s')
    ensures GraceInv(graceMs, s')
  {
    forall k | IsRefresh(s'.t, k) ensures UseOk(s', k) { assert UseOk(s, k); }
    forall g | g in s'.pending ensures InWindow(graceMs, s', s'.pending[g]) {
      if s'.pending[g].ByRefresh? { assert InWindow(graceMs, s, s.pending[g]); }
    }
    forall x | x in s'.issued ensures InWindow(graceMs, s', s'.issued[x].grant) { assert InWindow(graceMs, s, s.issued[x].grant); }
  }

  lemma StepKeepsGrace(graceMs: int, s: System, step: Step)
    requires (forall k | k in s.t.rows :: RowOk(s, k)) && GraceInv(graceMs, s) && Legal(s, step)
    ensures GraceInv(graceMs, Next(graceMs, s, step))
  {
    if step.RefreshGrant? {
      RefreshGrantKeepsGrace(graceMs, s, step.token, step.client, step.permitted);
    } else if step.Issue? {
      IssueKeepsGrace(graceMs, s, step.grant, step.ttlMs);
    } else {
      OtherStepIsPlain(graceMs, s, step);
      PlainKeepsGrace(graceMs, s, Next(graceMs, s, step));
    }
  }

  lemma IssueKeepsGrace(graceMs: int, s: System, g: GrantId, ttlMs: int)
    requires GraceInv(graceMs, s) && g in s.pending
    ensures GraceInv(graceMs, Next(graceMs, s, Issue(g, ttlMs)))
  {
    var s' := Next(graceMs, s, Issue(g, ttlMs));
    forall k | IsRefresh(s'.t, k) ensures UseOk(s', k) { if k != s.t.nextToken { assert UseOk(s, k); } }
    forall x | x in s'.pending ensures InWindow(graceMs, s', s'.pending[x]) { assert InWindow(graceMs, s, s.pending[x]); }
    forall x | x in s'.issued ensures InWindow(graceMs, s', s'.issued[x].grant) {
      if x == s.t.nextToken { assert InWindow(graceMs, s, s.pending[g]); } else { assert InWindow(graceMs, s, s.issued[x].grant); }
    }
  }

  lemma {:induction false} RunKeepsGrace(graceMs: int, s: System, steps: seq<Step>)
    requires Inv(s) && GraceInv(graceMs, s) && LegalRun(graceMs, s, steps)
    ensures GraceInv(graceMs, Run(graceMs, s, steps))
  {
    if steps != [] {
      RunKeepsGrace(graceMs, s, steps[..|steps| - 1]);
      RunKeepsInv(graceMs, s, steps[..|steps| - 1]);
      StepKeepsGrace(graceMs, Run(graceMs, s, steps[..|steps| - 1]), steps[|steps| - 1]);
    }
  }

  /** Every successor of a token was granted within the grace window after that token's first use. */
  lemma SuccessorsComeWithinGrace(graceMs: int, accounts: map<AccountId, Account>, now: Time, steps: seq<Step>,
                                  k: Token)
    requires LegalRun(graceMs, Start(accounts, now), steps)
    requires k in Run(graceMs, Start(accounts, now), steps).issued
    ensures InWindow(graceMs, Run(graceMs, Start(accounts, now), steps), Run(graceMs, Start(accounts, now), steps).issued[k].grant)
  {
    StartInv(accounts, now);
    RunKeepsGrace(graceMs, Start(accounts, now), steps);
  }

  // ---------------------------------------------------------------- without grace

  predicate ActiveIn(s: System, k: Token, family: FamilyId) {
    IsRefresh(s.t, k) && s.t.rows[k].family == family && s.t.rows[k].status == Active
  }

  predicate PendingIn(s: System, g: GrantId, family: FamilyId) {
    g in s.pending && s.pending[g].ByRefresh? && s.pending[g].family == family
  }

  /** At most one active token or one grant on the way to the next. */
  ghost predicate OneLive(s: System, family: FamilyId) {
    && (forall k, k' | ActiveIn(s, k, family) && ActiveIn(s, k', family) :: k == k')
    && (forall g, g' | PendingIn(s, g, family) && PendingIn(s, g', family) :: g == g')
    && (forall k, g | ActiveIn(s, k, family) :: !PendingIn(s, g, family))
  }

  lemma GrantWithoutGrace(t: Tables, graceMs: int, k: Token, client: ClientId, permitted: bool, now: Time)
    requires graceMs <= 0
    ensures var (t', g) := AfterRefreshGrant(t, graceMs, k, client, permitted, now);
      && (g.Some? ==> g.value.ByRefresh? && IsRefresh(t, k) && t.rows[k].family == g.value.family && t.rows[k].status == Active
                      && t'.rows == t.rows[k := t.rows[k].(status := Used, usedAt := Some(now))])
      && (forall x | IsRefresh(t', x) && t'.rows[x].status == Active ::
            IsRefresh(t, x) && t.rows[x].status == Active && t'.rows[x].family == t.rows[x].family)
  {
  }

  lemma RefreshGrantKeepsOneLive(graceMs: int, s: System, k: Token, client: ClientId, permitted: bool, family: FamilyId)
    requires graceMs <= 0 && OneLive(s, family) && (forall g | g in s.pending :: PendingOk(s, g))
    ensures OneLive(Next(graceMs, s, RefreshGrant(k, client, permitted)), family)
  {
    var s' := Next(graceMs, s, RefreshGrant(k, client, permitted));
    GrantWithoutGrace(s.t, graceMs, k, client, permitted, s.now);
    assert s.nextGrant !in s.pending by { assert forall g | g in s.pending :: PendingOk(s, g) && g < s.nextGrant; }
    assert forall x | ActiveIn(s', x, family) :: ActiveIn(s, x, family);
    assert forall g | PendingIn(s', g, family) && g != s.nextGrant :: PendingIn(s, g, family);
    if PendingIn(s', s.nextGrant, family) {
      assert ActiveIn(s, k, family) && !ActiveIn(s', k, family);
    }
  }

  lemma PlainKeepsOneLive(s: System, s': System, family: FamilyId)
    requires OneLive(s, family) && Plain(s, s')
    ensures OneLive(s', family)
  {
    assert forall k | ActiveIn(s', k, family) :: ActiveIn(s, k, family);
    assert forall g | PendingIn(s', g, family) :: PendingIn(s, g, family);
  }

  lemma IssueKeepsOneLive(graceMs: int, s: System, g: GrantId, ttlMs: int, family: FamilyId)
    requires Inv(s) && g in s.pending && OneLive(s, family)
    ensures OneLive(Next(graceMs, s, Issue(g, ttlMs)), family)
  {
    var s' := Next(graceMs, s, Issue(g, ttlMs));
    assert forall k | ActiveIn(s', k, family) :: k == s.t.nextToken || ActiveIn(s, k, family);
    assert forall x | PendingIn(s', x, family) :: x != g && PendingIn(s, x, family);
    if family == s.t.nextFamily { NewFamilyIsEmpty(s); }
    if ActiveIn(s', s.t.nextToken, family) && s.pending[g].ByRefresh? { assert PendingIn(s, g, family); }
  }

  lemma StepKeepsOneLive(graceMs: int, s: System, step: Step, family: FamilyId)
    requires Inv(s) && Legal(s, step) && graceMs <= 0 && OneLive(s, family)
    ensures OneLive(Next(graceMs, s, step), family)
  {
    if step.RefreshGrant? {
      RefreshGrantKeepsOneLive(graceMs, s, step.token, step.client, step.permitted, family);
    } else if step.Issue? {
      IssueKeepsOneLive(graceMs, s, step.grant, step.ttlMs, family);
    } else {
      assert forall k | k in s.t.rows :: RowOk(s, k) && k < s.t.nextToken;
      OtherStepIsPlain(graceMs, s, step);
      PlainKeepsOneLive(s, Next(graceMs, s, step), family);
    }
  }

  lemma NewFamilyIsEmpty(s: System)
    requires Inv(s)
    ensures forall k :: !ActiveIn(s, k, s.t.nextFamily)
    ensures forall g :: !PendingIn(s, g, s.t.nextFamily)
  {
    forall k | IsRefresh(s.t, k) ensures s.t.rows[k].family < s.t.nextFamily { assert RowOk(s, k); }
    forall g | g in s.pending && s.pending[g].ByRefresh? ensures s.pending[g].family < s.t.nextFamily { assert PendingOk(s, g); }
  }

  /** With rotation grace off, a family never has more than one active token. */
  lemma {:induction false} WithoutGraceOneActive(graceMs: int, accounts: map<AccountId, Account>, now: Time,
                                                 steps: seq<Step>, family: FamilyId)
    requires LegalRun(graceMs, Start(accounts, now), steps) && graceMs <= 0
    ensures OneLive(Run(graceMs, Start(accounts, now), steps), family)
  {
    if steps != [] {
      var before := steps[..|steps| - 1];
      WithoutGraceOneActive(graceMs, accounts, now, before, family);
      StartInv(accounts, now);
      RunKeepsInv(graceMs, Start(accounts, now), before);
      StepKeepsOneLive(graceMs, Run(graceMs, Start(accounts, now), before), steps[|steps| - 1], family);
    }
  }

  // ---------------------------------------------------------------- repeats inside the window

  /** A used token that its active holder presents, from its own client, inside the window. */
  predicate Repeatable(graceMs: int, s: System, k: Token, client: ClientId) {
    IsRefresh(s.t, k)
    && var row := s.t.rows[k];
    && row.status == Used && WithinGrace(graceMs, row.usedAt, s.now) && row.expiresAt >= s.now
    && row.client == client
    && MayAuthorize(s.t, row.account)
  }

  lemma RepeatOnce(graceMs: int, s: System, k: Token, client: ClientId)
    requires Repeatable(graceMs, s, k, client) && k < s.t.nextToken
    ensures var s1 := Next(graceMs, s, RefreshGrant(k, client, true));
      var s2 := Next(graceMs, s1, Issue(s.nextGrant, 1));
      && s.nextGrant in s1.pending
      && Repeatable(graceMs, s2, k, client)
      && s2.nextGrant == s.nextGrant + 1 && s2.t.nextToken == s.t.nextToken + 1
      && s2.t.rows == s.t.rows[s.t.nextToken := Refresh(s.t.rows[k].account, client, s.t.rows[k].family, Active, None, s.now + 1)]
      && s2.now == s.now
  {
  }

  lemma RunTwoMore(graceMs: int, s: System, steps: seq<Step>, a: Step, b: Step)
    ensures var mid := Next(graceMs, Run(graceMs, s, steps), a);
      && Run(graceMs, s, steps + [a, b]) == Next(graceMs, mid, b)
      && (LegalRun(graceMs, s, steps + [a, b]) <==>
            LegalRun(graceMs, s, steps) && Legal(Run(graceMs, s, steps), a) && Legal(mid, b))
  {
    assert steps + [a, b] == steps + [a] + [b];
    RunOneMore(graceMs, s, steps, a);
    RunOneMore(graceMs, s, steps + [a], b);
  }

  /** `n` new active tokens of the family, and the token still repeatable. */
  ghost predicate Rotated(graceMs: int, s: System, s': System, k: Token, client: ClientId, n: nat)
    requires IsRefresh(s.t, k)
  {
    && Repeatable(graceMs, s', k, client)
    && s'.nextGrant == s.nextGrant + n && s'.t.nextToken == s.t.nextToken + n
    && s'.t.rows[k].family == s.t.rows[k].family
    && forall i | s.t.nextToken <= i < s.t.nextToken + n :: ActiveIn(s', i, s.t.rows[k].family)
  }

  lemma RotatedOnceMore(graceMs: int, s: System, mid: System, k: Token, client: ClientId, n: nat)
    requires IsRefresh(s.t, k) && k < s.t.nextToken && Rotated(graceMs, s, mid, k, client, n)
    ensures var s1 := Next(graceMs, mid, RefreshGrant(k, client, true));
      && mid.nextGrant in s1.pending
      && Rotated(graceMs, s, Next(graceMs, s1, Issue(mid.nextGrant, 1)), k, client, n + 1)
  {
    RepeatOnce(graceMs, mid, k, client);
    var s2 := Next(graceMs, Next(graceMs, mid, RefreshGrant(k, client, true)), Issue(mid.nextGrant, 1));
    forall i | s.t.nextToken <= i < s.t.nextToken + n + 1 ensures ActiveIn(s2, i, s.t.rows[k].family) {
      if i < mid.t.nextToken { assert ActiveIn(mid, i, s.t.rows[k].family); }
    }
  }

  lemma ExtendRotations(graceMs: int, s: System, steps: seq<Step>, k: Token, client: ClientId, n: nat)
    requires IsRefresh(s.t, k) && k < s.t.nextToken && LegalRun(graceMs, s, steps)
    requires Rotated(graceMs, s, Run(graceMs, s, steps), k, client, n)
    ensures var more := steps + [RefreshGrant(k, client, true), Issue(s.nextGrant + n, 1)];
      LegalRun(graceMs, s, more) && Rotated(graceMs, s, Run(graceMs, s, more), k, client, n + 1)
  {
    RotatedOnceMore(graceMs, s, Run(graceMs, s, steps), k, client, n);
    RunTwoMore(graceMs, s, steps, RefreshGrant(k, client, true), Issue(s.nextGrant + n, 1));
  }

  /**
   * Inside the window a used token can be rotated any number of times, not once more: for every `n` there is
   * a run, of nothing but presenting that token, after which it has `n` more successors, all active at once.
   */
  lemma {:induction false} AnyNumberOfRotations(graceMs: int, s: System, k: Token, client: ClientId, n: nat)
    returns (steps: seq<Step>)
    requires Repeatable(graceMs, s, k, client) && k < s.t.nextToken
    ensures LegalRun(graceMs, s, steps) && Rotated(graceMs, s, Run(graceMs, s, steps), k, client, n)
    ensures forall step | step in steps :: step == RefreshGrant(k, client, true) || step.Issue?
  {
    if n == 0 {
      steps := [];
    } else {
      hide Run, LegalRun, Next, Legal, Rotated, Repeatable;
      var before := AnyNumberOfRotations(graceMs, s, k, client, n - 1);
      ExtendRotations(graceMs, s, before, k, client, n - 1);
      steps := before + [RefreshGrant(k, client, true), Issue(s.nextGrant + n - 1, 1)];
    }
  }

  /** Such a token is reached from the start: authorize, redeem the code, use the refresh token once. */
  lemma RepeatableIsReached(graceMs: int, accounts: map<AccountId, Account>, now: Time, account: AccountId, client: ClientId,
                            redirectUri: string, verifier: string) returns (steps: seq<Step>)
    requires graceMs > 0 && MayAuthorize(Start(accounts, now).t, account)
    ensures LegalRun(graceMs, Start(accounts, now), steps)
    ensures Repeatable(graceMs, Run(graceMs, Start(accounts, now), steps), 1, client)
    ensures 1 < Run(graceMs, Start(accounts, now), steps).t.nextToken
  {
    var s0 := Start(accounts, now);
    var authorize := Authorize(account, Request(client, redirectUri, S256(verifier)));
    var redeem := CodeGrant(0, client, redirectUri, verifier, true);
    steps := [];
    RunTwoMore(graceMs, s0, steps, authorize, redeem);
    steps := steps + [authorize, redeem];
    RunTwoMore(graceMs, s0, steps, Issue(0, 1), RefreshGrant(1, client, true));
    FirstTokenIsUsed(graceMs, s0, account, client, redirectUri, verifier);
    steps := steps + [Issue(0, 1), RefreshGrant(1, client, true)];
  }

  lemma FirstTokenIsUsed(graceMs: int, s: System, account: AccountId, client: ClientId, redirectUri: string, verifier: string)
    requires graceMs > 0 && MayAuthorize(s.t, account) && s == Start(s.t.accounts, s.now)
    ensures var s1 := Next(graceMs, s, Authorize(account, Request(client, redirectUri, S256(verifier))));
      var s2 := Next(graceMs, s1, CodeGrant(0, client, redirectUri, verifier, true));
      var s3 := Next(graceMs, s2, Issue(0, 1));
      && 0 in s2.pending && Repeatable(graceMs, Next(graceMs, s3, RefreshGrant(1, client, true)), 1, client)
      && Next(graceMs, s3, RefreshGrant(1, client, true)).t.nextToken == 2
  {
    var s1 := Next(graceMs, s, Authorize(account, Request(client, redirectUri, S256(verifier))));
    assert s1.t.rows == map[0 := Code(account, Request(client, redirectUri, S256(verifier)), s.now + CODE_TTL_MS)];
    var s2 := Next(graceMs, s1, CodeGrant(0, client, redirectUri, verifier, true));
    assert s2.t.rows == map[] && s2.pending[0].ByCode?;
    var s3 := Next(graceMs, s2, Issue(0, 1));
    assert s3.t.rows == map[1 := Refresh(account, client, 0, Active, None, s.now + 1)];
  }
}
