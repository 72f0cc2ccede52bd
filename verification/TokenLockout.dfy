/** What a disabled account can still get, and when a lockout is complete: src/oidc/oidc.controller.ts. */
module TokenLockout {
  import opened Prelude
  import opened TokenRecords
  import opened TokenRuns

  predicate IsDisabled(t: Tables, account: AccountId) {
    account in t.accounts && t.accounts[account].status == Disabled
  }

  /** The account is disabled now and after every step. */
  ghost predicate StaysDisabled(graceMs: int, s: System, steps: seq<Step>, account: AccountId) {
    IsDisabled(Run(graceMs, s, steps).t, account)
    && (steps == [] || StaysDisabled(graceMs, s, steps[..|steps| - 1], account))
  }

  /** A live code of the account that some verifier opens. */
  predicate Redeemable(s: System, k: Token, account: AccountId) {
    CodeIsLive(s.t, k, s.now) && s.t.rows[k].account == account && s.t.rows[k].request.challenge.S256?
  }

  /** A grant by code of the account, its code spent and its family not yet open. */
  predicate Opening(s: System, g: GrantId, account: AccountId) {
    g in s.pending && s.pending[g].ByCode? && s.pending[g].origin.account == account
  }

  ghost predicate HasFamily(s: System, f: FamilyId, account: AccountId) {
    f in s.origins && s.origins[f].account == account
  }

  /** The run opens a family of the account. */
  ghost predicate OpensFamily(graceMs: int, s: System, steps: seq<Step>, account: AccountId) {
    exists f :: HasFamily(Run(graceMs, s, steps), f, account) && !HasFamily(s, f, account)
  }

  /** Nothing is left from which a family of the account could open. */
  ghost predicate Closed(s: System, account: AccountId) {
    (forall k :: !Redeemable(s, k, account)) && (forall g :: !Opening(s, g, account))
  }

  // ---------------------------------------------------------------- nothing left, nothing opens

  lemma CodeGrantStaysClosed(graceMs: int, s: System, step: Step, account: AccountId)
    requires step.CodeGrant? && Closed(s, account)
    ensures Closed(Next(graceMs, s, step), account)
    ensures Next(graceMs, s, step).origins == s.origins
  {
    assert !Redeemable(s, step.code, account);
    var s' := Next(graceMs, s, step);
    forall k ensures !Redeemable(s', k, account) { assert !Redeemable(s, k, account); }
    forall g ensures !Opening(s', g, account) { assert !Opening(s, g, account); }
  }

  lemma IssueStaysClosed(graceMs: int, s: System, g: GrantId, ttlMs: int, account: AccountId)
    requires g in s.pending && Closed(s, account)
    requires forall f | f in s.origins :: f < s.t.nextFamily
    requires forall k | k in s.t.rows :: k < s.t.nextToken
    ensures Closed(Next(graceMs, s, Issue(g, ttlMs)), account)
    ensures forall f :: HasFamily(Next(graceMs, s, Issue(g, ttlMs)), f, account) ==> HasFamily(s, f, account)
  {
    var s' := Next(graceMs, s, Issue(g, ttlMs));
    assert !Opening(s, g, account);
    forall k ensures !Redeemable(s', k, account) { assert !Redeemable(s, k, account); }
    forall x ensures !Opening(s', x, account) { assert !Opening(s, x, account); }
  }

  /** A step that adds no code of the account and no grant by code. */
  lemma PlainStaysClosed(graceMs: int, s: System, step: Step, account: AccountId)
    requires !step.CodeGrant? && !step.Issue? && Legal(s, step) && Closed(s, account) && IsDisabled(s.t, account)
    requires forall k | k in s.t.rows :: k < s.t.nextToken
    ensures Closed(Next(graceMs, s, step), account)
    ensures Next(graceMs, s, step).origins == s.origins
  {
    var s' := Next(graceMs, s, step);
    PlainOpensNothing(graceMs, s, step);
    forall k ensures !Redeemable(s', k, account) {
      assert !Redeemable(s, k, account);
      PlainMakesNoCode(graceMs, s, step, k, account);
    }
    hide Next;
    forall g ensures !Opening(s', g, account) { assert !Opening(s, g, account); }
  }

  lemma PlainOpensNothing(graceMs: int, s: System, step: Step)
    requires !step.CodeGrant? && !step.Issue?
    ensures Next(graceMs, s, step).origins == s.origins
    ensures forall g | g in Next(graceMs, s, step).pending && Next(graceMs, s, step).pending[g].ByCode? ::
      g in s.pending && s.pending[g] == Next(graceMs, s, step).pending[g]
  {
  }

  lemma PlainMakesNoCode(graceMs: int, s: System, step: Step, k: Token, account: AccountId)
    requires !step.CodeGrant? && !step.Issue? && Legal(s, step) && IsDisabled(s.t, account)
    requires !Redeemable(s, k, account) && forall k | k in s.t.rows :: k < s.t.nextToken
    ensures !Redeemable(Next(graceMs, s, step), k, account)
  {
    if step.RefreshGrant? {
      RefreshMakesNoCode(s.t, graceMs, step.token, step.client, step.permitted, s.now, k, account);
    }
    TablesMakeNoCode(graceMs, s, step, k, account);
    hide AfterRefreshGrant, NextTables;
  }

  /** A code of the account was there before. */
  ghost predicate OldCode(t: Tables, t': Tables, k: Token, account: AccountId) {
    k in t'.rows && t'.rows[k].Code? && t'.rows[k].account == account ==> k in t.rows && t.rows[k] == t'.rows[k]
  }

  lemma TablesMakeNoCode(graceMs: int, s: System, step: Step, k: Token, account: AccountId)
    requires IsDisabled(s.t, account)
    ensures OldCode(s.t, NextTables(graceMs, s, step), k, account)
  {
  }

  lemma RefreshMakesNoCode(t: Tables, graceMs: int, token: Token, client: ClientId, permitted: bool, now: Time, k: Token,
                           account: AccountId)
    ensures OldCode(t, AfterRefreshGrant(t, graceMs, token, client, permitted, now).0, k, account)
  {
  }

  lemma {:induction false} ClosedStaysClosed(graceMs: int, s: System, steps: seq<Step>, account: AccountId)
    requires Inv(s) && Closed(s, account) && LegalRun(graceMs, s, steps) && StaysDisabled(graceMs, s, steps, account)
    ensures Closed(Run(graceMs, s, steps), account)
    ensures forall f :: HasFamily(Run(graceMs, s, steps), f, account) ==> HasFamily(s, f, account)
  {
    if steps != [] {
      var before, last := steps[..|steps| - 1], steps[|steps| - 1];
      ClosedStaysClosed(graceMs, s, before, account);
      RunKeepsInv(graceMs, s, before);
      var mid := Run(graceMs, s, before);
      assert forall k | k in mid.t.rows :: RowOk(mid, k) && k < mid.t.nextToken;
      if last.CodeGrant? {
        CodeGrantStaysClosed(graceMs, mid, last, account);
      } else if last.Issue? {
        IssueStaysClosed(graceMs, mid, last.grant, last.ttlMs, account);
      } else {
        PlainStaysClosed(graceMs, mid, last, account);
      }
    }
  }

  // ---------------------------------------------------------------- a code or a grant is enough

  lemma DisabledOneMore(graceMs: int, s: System, steps: seq<Step>, step: Step, account: AccountId)
    requires StaysDisabled(graceMs, s, steps, account)
    ensures StaysDisabled(graceMs, s, steps + [step], account) <==>
            IsDisabled(Next(graceMs, Run(graceMs, s, steps), step).t, account)
  {
    RunOneMore(graceMs, s, steps, step);
    assert (steps + [step])[..|steps|] == steps;
  }

  /** Extends a run of a disabled account by a step that keeps it disabled. */
  lemma Extend(graceMs: int, s: System, steps: seq<Step>, step: Step, account: AccountId) returns (more: seq<Step>)
    requires LegalRun(graceMs, s, steps) && StaysDisabled(graceMs, s, steps, account)
    requires Legal(Run(graceMs, s, steps), step) && IsDisabled(Next(graceMs, Run(graceMs, s, steps), step).t, account)
    ensures more == steps + [step]
    ensures LegalRun(graceMs, s, more) && StaysDisabled(graceMs, s, more, account)
    ensures Run(graceMs, s, more) == Next(graceMs, Run(graceMs, s, steps), step)
  {
    more := steps + [step];
    RunOneMore(graceMs, s, steps, step);
    DisabledOneMore(graceMs, s, steps, step, account);
  }

  lemma IssueOpens(graceMs: int, s: System, g: GrantId, ttlMs: int, account: AccountId)
    requires Opening(s, g, account) && IsDisabled(s.t, account)
    requires forall f | f in s.origins :: f < s.t.nextFamily
    ensures var s' := Next(graceMs, s, Issue(g, ttlMs));
      && HasFamily(s', s.t.nextFamily, account) && !HasFamily(s, s.t.nextFamily, account) && IsDisabled(s'.t, account)
      && AfterConsume(s'.t, graceMs, s.t.nextToken, s.now).1.Accepted? == (ttlMs > 0)
  {
  }

  lemma CodeGrants(graceMs: int, s: System, k: Token, account: AccountId)
    requires Redeemable(s, k, account) && IsDisabled(s.t, account) && !s.t.accounts[account].resetRequired
    ensures var code := s.t.rows[k];
      var step := CodeGrant(k, code.request.client, code.request.redirectUri, code.request.challenge.verifier, true);
      var s' := Next(graceMs, s, step);
      && Opening(s', s.nextGrant, account) && IsDisabled(s'.t, account) && s'.origins == s.origins
      && s'.t.nextFamily == s.t.nextFamily
  {
  }

  /**
   * The token endpoint never reads the status of the account behind a code: two requests after which a disabled
   * account has a new family with a live token.
   */
  lemma DisabledAccountsCodeStillOpens(graceMs: int, s: System, k: Token, account: AccountId) returns (steps: seq<Step>)
    requires Inv(s) && Redeemable(s, k, account) && IsDisabled(s.t, account) && !s.t.accounts[account].resetRequired
    ensures |steps| == 2 && steps[0].CodeGrant? && steps[1].Issue?
    ensures LegalRun(graceMs, s, steps) && StaysDisabled(graceMs, s, steps, account)
    ensures OpensFamily(graceMs, s, steps, account)
  {
    var code := s.t.rows[k];
    var grant := CodeGrant(k, code.request.client, code.request.redirectUri, code.request.challenge.verifier, true);
    CodeGrants(graceMs, s, k, account);
    assert StaysDisabled(graceMs, s, [], account);
    steps := Extend(graceMs, s, [], grant, account);
    IssueOpens(graceMs, Next(graceMs, s, grant), s.nextGrant, 1, account);
    steps := Extend(graceMs, s, steps, Issue(s.nextGrant, 1), account);
    assert HasFamily(Run(graceMs, s, steps), s.t.nextFamily, account) && !HasFamily(s, s.t.nextFamily, account);
  }

  /** A pending reset can be lifted by another one, whatever the status of the account. */
  lemma ResetKeepsCodes(graceMs: int, s: System, k: Token, account: AccountId)
    requires Inv(s) && Redeemable(s, k, account) && IsDisabled(s.t, account)
    ensures var s' := Next(graceMs, s, ResetPassword(account, false));
      && Inv(s') && Redeemable(s', k, account) && IsDisabled(s'.t, account) && !s'.t.accounts[account].resetRequired
      && s'.origins == s.origins && s'.nextGrant == s.nextGrant && s'.t.nextFamily == s.t.nextFamily
  {
    StepKeepsInv(graceMs, s, ResetPassword(account, false));
  }

  lemma SomethingOpens(graceMs: int, s: System, account: AccountId) returns (steps: seq<Step>)
    requires Inv(s) && IsDisabled(s.t, account) && !Closed(s, account)
    ensures LegalRun(graceMs, s, steps) && StaysDisabled(graceMs, s, steps, account)
    ensures OpensFamily(graceMs, s, steps, account)
  {
    steps := [];
    assert StaysDisabled(graceMs, s, [], account);
    if g :| Opening(s, g, account) {
      IssueOpens(graceMs, s, g, 1, account);
      steps := Extend(graceMs, s, [], Issue(g, 1), account);
    } else {
      var k :| Redeemable(s, k, account);
      var code := s.t.rows[k];
      var grant := CodeGrant(k, code.request.client, code.request.redirectUri, code.request.challenge.verifier, true);
      ResetKeepsCodes(graceMs, s, k, account);
      steps := Extend(graceMs, s, [], ResetPassword(account, false), account);
      var s1 := Run(graceMs, s, steps);
      CodeGrants(graceMs, s1, k, account);
      steps := Extend(graceMs, s, steps, grant, account);
      IssueOpens(graceMs, Next(graceMs, s1, grant), s.nextGrant, 1, account);
      steps := Extend(graceMs, s, steps, Issue(s.nextGrant, 1), account);
    }
    assert HasFamily(Run(graceMs, s, steps), s.t.nextFamily, account) && !HasFamily(s, s.t.nextFamily, account);
  }

  /**
   * A lockout is complete exactly when the account has no live code and no grant by code on the way: then, and only
   * then, no family of the account opens for as long as it stays disabled.
   */
  lemma LockoutIsCompleteIff(graceMs: int, s: System, account: AccountId)
    requires Inv(s) && IsDisabled(s.t, account)
    ensures (forall steps :: LegalRun(graceMs, s, steps) && StaysDisabled(graceMs, s, steps, account) ==>
               !OpensFamily(graceMs, s, steps, account))
      <==> Closed(s, account)
  {
    if Closed(s, account) {
      forall steps | LegalRun(graceMs, s, steps) && StaysDisabled(graceMs, s, steps, account)
        ensures !OpensFamily(graceMs, s, steps, account)
      {
        ClosedStaysClosed(graceMs, s, steps, account);
      }
    } else {
      var steps := SomethingOpens(graceMs, s, account);
    }
  }
}
