/**
 * Every interleaving of the token requests. A grant is two steps, because consuming the credential and
 * inserting the new refresh token are separate statements; between them anything may happen, and the
 * grant may also be abandoned.
 */
module TokenRuns {
  import opened Prelude
  import opened TokenRecords

  type GrantId = nat

  /** A refresh token once issued: the grant it came from, kept as history. */
  datatype Issued = Issued(family: FamilyId, grant: Grant)

  /** Tables and clock; the grants between their two statements; and history that no code reads. */
  datatype System = System(
    t: Tables,
    now: Time,
    pending: map<GrantId, Grant>,
    nextGrant: GrantId,
    issued: map<Token, Issued>,
    origins: map<FamilyId, Origin>,
    firstUse: map<Token, Time>)

  datatype Step =
    | Advance(now: Time)
    | Authorize(account: AccountId, request: Request)
    | CreateLogin(session: Option<AccountId>, request: Request, browserNonce: nat)
    | HostedLogin(login: Token, browserNonce: nat, account: AccountId, permitted: bool)
    | CodeGrant(code: Token, client: ClientId, redirectUri: string, verifier: string, permitted: bool)
    | RefreshGrant(token: Token, client: ClientId, permitted: bool)
    | Issue(grant: GrantId, ttlMs: int)
    | Abandon(grant: GrantId)
    | RevokeRequest(token: Token)
    | SetStatus(account: AccountId, status: AccountStatus)
    | ResetPassword(account: AccountId, resetRequired: bool)
    | CompleteReset(account: AccountId)
    | Cleanup

  ghost predicate Legal(s: System, step: Step) {
    match step
    case Advance(now) => s.now <= now
    case Issue(g, _) => g in s.pending
    case Abandon(g) => g in s.pending
    case _ => true
  }

  function Granted(s: System, r: (Tables, Option<Grant>)): System {
    if r.1.Some? then s.(t := r.0, pending := s.pending[s.nextGrant := r.1.value], nextGrant := s.nextGrant + 1)
    else s.(t := r.0)
  }

  /** The transaction is consumed first; only then is a code made from the request it stored. */
  function AfterHostedLogin(t: Tables, login: Token, browserNonce: nat, account: AccountId, permitted: bool,
                            now: Time): Tables {
    var (spent, row) := AfterConsumeLogin(t, login, browserNonce, now);
    if row.None? || !row.value.Login? || !permitted then spent
    else AfterAuthorize(spent, account, row.value.request, now)
  }

  function NextTables(graceMs: int, s: System, step: Step): Tables {
    match step
    case Authorize(account, request) => AfterAuthorize(s.t, account, request, s.now)
    case CreateLogin(session, request, browserNonce) => AfterCreateLogin(s.t, session, request, browserNonce, s.now)
    case HostedLogin(login, browserNonce, account, permitted) =>
      AfterHostedLogin(s.t, login, browserNonce, account, permitted, s.now)
    case RevokeRequest(token) => AfterRevokeToken(s.t, token)
    case SetStatus(account, status) => AfterSetStatus(s.t, account, status)
    case ResetPassword(account, resetRequired) => AfterResetPassword(s.t, account, resetRequired)
    case CompleteReset(account) => AfterCompleteReset(s.t, account)
    case Cleanup => AfterCleanup(s.t, s.now)
    case _ => s.t
  }

  function Next(graceMs: int, s: System, step: Step): System {
    match step
    case Advance(now) => s.(now := now)
    case CodeGrant(code, client, redirectUri, verifier, permitted) =>
      Granted(s, AfterCodeGrant(s.t, code, client, redirectUri, verifier, permitted, s.now))
    case RefreshGrant(token, client, permitted) =>
      var r := AfterRefreshGrant(s.t, graceMs, token, client, permitted, s.now);
      Granted(s, r).(firstUse := if token !in s.firstUse && IsRefresh(r.0, token) && r.0.rows[token].status == Used
                                 then s.firstUse[token := s.now] else s.firstUse)
    case Issue(g, ttlMs) =>
      if g !in s.pending then s
      else
        var grant := s.pending[g];
        var family := if grant.ByCode? then s.t.nextFamily else grant.family;
        s.(t := AfterGrantIssued(s.t, grant, s.now, ttlMs),
           pending := s.pending - {g},
           issued := s.issued[s.t.nextToken := Issued(family, grant)],
           origins := if grant.ByCode? then s.origins[family := grant.origin] else s.origins)
    case Abandon(g) => s.(pending := s.pending - {g})
    case _ => s.(t := NextTables(graceMs, s, step))
  }

  ghost function Run(graceMs: int, s: System, steps: seq<Step>): System {
    if steps == [] then s else Next(graceMs, Run(graceMs, s, steps[..|steps| - 1]), steps[|steps| - 1])
  }

  ghost predicate LegalRun(graceMs: int, s: System, steps: seq<Step>) {
    steps == []
    || (LegalRun(graceMs, s, steps[..|steps| - 1]) && Legal(Run(graceMs, s, steps[..|steps| - 1]), steps[|steps| - 1]))
  }

  lemma RunOneMore(graceMs: int, s: System, steps: seq<Step>, step: Step)
    ensures Run(graceMs, s, steps + [step]) == Next(graceMs, Run(graceMs, s, steps), step)
    ensures LegalRun(graceMs, s, steps + [step]) <==> LegalRun(graceMs, s, steps) && Legal(Run(graceMs, s, steps), step)
  {
    assert (steps + [step])[..|steps|] == steps;
  }

  function Start(accounts: map<AccountId, Account>, now: Time): System {
    System(Tables(map[], accounts, 0, 0), now, map[], 0, map[], map[], map[])
  }

  // ---------------------------------------------------------------- where families come from

  /** Same client, same redirect URI, and the verifier of the stored challenge. */
  predicate MatchesCode(o: Origin) {
    o.stored == Request(o.client, o.redirectUri, S256(o.verifier))
  }

  ghost predicate OriginsOk(s: System) {
    && (forall f | f in s.origins :: f < s.t.nextFamily && MatchesCode(s.origins[f]) && Spent(s, s.origins[f].code))
    && (forall f, f' | f in s.origins && f' in s.origins && s.origins[f].code == s.origins[f'].code :: f == f')
  }

  /** The single-use credential is gone for good. */
  predicate Spent(s: System, k: Token) {
    k < s.t.nextToken && k !in s.t.rows
  }

  ghost predicate PendingOk(s: System, g: GrantId)
    requires g in s.pending
  {
    g < s.nextGrant
    && match s.pending[g]
       case ByCode(origin, _) =>
         MatchesCode(origin) && Spent(s, origin.code)
         && (forall f | f in s.origins :: s.origins[f].code != origin.code)
         && (forall g' | g' in s.pending && s.pending[g'].ByCode? && s.pending[g'].origin.code == origin.code :: g' == g)
       case ByRefresh(account, client, family, _, _) =>
         family in s.origins && s.origins[family].account == account && s.origins[family].client == client
  }

  ghost predicate RowOk(s: System, k: Token)
    requires k in s.t.rows
  {
    k < s.t.nextToken
    && (s.t.rows[k].Refresh? ==>
          && k in s.issued && s.issued[k].family == s.t.rows[k].family
          && s.t.rows[k].family in s.origins
          && s.origins[s.t.rows[k].family].account == s.t.rows[k].account
          && s.origins[s.t.rows[k].family].client == s.t.rows[k].client)
  }

  ghost predicate Inv(s: System) {
    && OriginsOk(s)
    && (forall g | g in s.pending :: PendingOk(s, g))
    && (forall k | k in s.t.rows :: RowOk(s, k))
  }

  /** What the steps other than `Issue` may do to the rows: change a status, delete, or insert a code or login. */
  ghost predicate RowsShrinkOrAge(t: Tables, t': Tables) {
    && t.nextToken <= t'.nextToken && t.nextFamily == t'.nextFamily
    && (forall k | k in t'.rows && k in t.rows && t.rows[k].Refresh? ::
          t'.rows[k].Refresh? && t'.rows[k].family == t.rows[k].family
          && t'.rows[k].account == t.rows[k].account && t'.rows[k].client == t.rows[k].client)
    && (forall k | k in t'.rows && k in t.rows && !t.rows[k].Refresh? :: !t'.rows[k].Refresh?)
    && (forall k | k in t'.rows && k !in t.rows :: t.nextToken <= k < t'.nextToken && !t'.rows[k].Refresh?)
  }

  lemma RefreshGrantAges(t: Tables, graceMs: int, k: Token, client: ClientId, permitted: bool, now: Time)
    ensures RowsShrinkOrAge(t, AfterRefreshGrant(t, graceMs, k, client, permitted, now).0)
  {
  }

  lemma CodeGrantAges(t: Tables, k: Token, client: ClientId, redirectUri: string, verifier: string, permitted: bool,
                      now: Time)
    ensures RowsShrinkOrAge(t, AfterCodeGrant(t, k, client, redirectUri, verifier, permitted, now).0)
  {
  }

  lemma PlainStepAges(graceMs: int, s: System, step: Step)
    requires forall k | k in s.t.rows :: k < s.t.nextToken
    ensures RowsShrinkOrAge(s.t, NextTables(graceMs, s, step))
  {
  }

  lemma AgingKeepsInv(s: System, s': System)
    requires Inv(s) && RowsShrinkOrAge(s.t, s'.t)
    requires s'.pending == s.pending && s'.issued == s.issued && s'.origins == s.origins && s'.nextGrant == s.nextGrant
    ensures Inv(s')
  {
    forall k | k in s'.t.rows ensures RowOk(s', k) { assert k in s.t.rows ==> RowOk(s, k); }
    forall f | f in s.origins ensures Spent(s', s.origins[f].code) { assert Spent(s, s.origins[f].code); }
    forall g | g in s'.pending ensures PendingOk(s', g) { assert PendingOk(s, g); }
  }

  lemma GrantKeepsInv(s: System, t': Tables, grant: Grant)
    requires Inv(s) && RowsShrinkOrAge(s.t, t')
    requires grant.ByRefresh? ==>
      grant.family in s.origins && s.origins[grant.family].account == grant.account && s.origins[grant.family].client == grant.client
    requires grant.ByCode? ==> MatchesCode(grant.origin) && grant.origin.code in s.t.rows && grant.origin.code !in t'.rows
    ensures Inv(Granted(s, (t', Some(grant))))
  {
    var s0 := s.(t := t');
    AgingKeepsInv(s, s0);
    var s' := Granted(s, (t', Some(grant)));
    forall k | k in s'.t.rows ensures RowOk(s', k) { assert RowOk(s0, k); }
    if grant.ByCode? {
      assert RowOk(s, grant.origin.code);
      assert forall f | f in s.origins :: Spent(s, s.origins[f].code);
    }
    forall g | g in s'.pending ensures PendingOk(s', g) {
      if g in s.pending { assert PendingOk(s, g) && PendingOk(s0, g); }
    }
    forall f | f in s'.origins ensures Spent(s', s'.origins[f].code) { assert Spent(s0, s0.origins[f].code); }
  }

  lemma RefreshGrantKeepsInv(graceMs: int, s: System, k: Token, client: ClientId, permitted: bool)
    requires Inv(s)
    ensures Inv(Next(graceMs, s, RefreshGrant(k, client, permitted)))
  {
    var r := AfterRefreshGrant(s.t, graceMs, k, client, permitted, s.now);
    RefreshGrantAges(s.t, graceMs, k, client, permitted, s.now);
    var s' := Next(graceMs, s, RefreshGrant(k, client, permitted));
    if r.1.Some? {
      assert RowOk(s, k);
      GrantKeepsInv(s, r.0, r.1.value);
      AgingKeepsInv(Granted(s, r), s');
    } else {
      AgingKeepsInv(s, s');
    }
  }

  lemma CodeGrantKeepsInv(graceMs: int, s: System, k: Token, client: ClientId, redirectUri: string, verifier: string,
                          permitted: bool)
    requires Inv(s)
    ensures Inv(Next(graceMs, s, CodeGrant(k, client, redirectUri, verifier, permitted)))
  {
    var r := AfterCodeGrant(s.t, k, client, redirectUri, verifier, permitted, s.now);
    CodeGrantAges(s.t, k, client, redirectUri, verifier, permitted, s.now);
    if r.1.Some? {
      GrantKeepsInv(s, r.0, r.1.value);
    } else {
      AgingKeepsInv(s, Next(graceMs, s, CodeGrant(k, client, redirectUri, verifier, permitted)));
    }
  }

  lemma IssueKeepsRows(graceMs: int, s: System, g: GrantId, ttlMs: int)
    requires Inv(s) && g in s.pending
    ensures var s' := Next(graceMs, s, Issue(g, ttlMs)); forall k | k in s'.t.rows :: RowOk(s', k)
  {
    var s' := Next(graceMs, s, Issue(g, ttlMs));
    assert PendingOk(s, g);
    forall k | k in s'.t.rows ensures RowOk(s', k) { if k in s.t.rows { assert RowOk(s, k); } }
  }

  lemma IssueKeepsInv(graceMs: int, s: System, g: GrantId, ttlMs: int)
    requires Inv(s) && g in s.pending
    ensures Inv(Next(graceMs, s, Issue(g, ttlMs)))
  {
    var s' := Next(graceMs, s, Issue(g, ttlMs));
    assert PendingOk(s, g);
    IssueKeepsRows(graceMs, s, g, ttlMs);
    forall x | x in s'.pending ensures PendingOk(s', x) { assert PendingOk(s, x); }
    forall f | f in s'.origins ensures f < s'.t.nextFamily && MatchesCode(s'.origins[f]) && Spent(s', s'.origins[f].code) {
      if f in s.origins { assert Spent(s, s.origins[f].code); }
    }
  }

  lemma StepKeepsInv(graceMs: int, s: System, step: Step)
    requires Inv(s) && Legal(s, step)
    ensures Inv(Next(graceMs, s, step))
  {
    match step
    case CodeGrant(code, client, redirectUri, verifier, permitted) =>
      CodeGrantKeepsInv(graceMs, s, code, client, redirectUri, verifier, permitted);
    case RefreshGrant(token, client, permitted) => RefreshGrantKeepsInv(graceMs, s, token, client, permitted);
    case Issue(g, ttlMs) => IssueKeepsInv(graceMs, s, g, ttlMs);
    case Advance(now) => AgingKeepsInv(s, s.(now := now));
    case Abandon(g) => AbandonKeepsInv(graceMs, s, g);
    case _ =>
      assert forall k | k in s.t.rows :: RowOk(s, k) && k < s.t.nextToken;
      PlainStepAges(graceMs, s, step);
      AgingKeepsInv(s, Next(graceMs, s, step));
  }

  lemma AbandonKeepsInv(graceMs: int, s: System, g: GrantId)
    requires Inv(s)
    ensures Inv(Next(graceMs, s, Abandon(g)))
  {
    var s' := Next(graceMs, s, Abandon(g));
    forall k | k in s'.t.rows ensures RowOk(s', k) { assert RowOk(s, k); }
    forall x | x in s'.pending ensures PendingOk(s', x) { assert PendingOk(s, x); }
    forall f | f in s'.origins ensures Spent(s', s'.origins[f].code) { assert Spent(s, s.origins[f].code); }
  }

  lemma {:induction false} RunKeepsInv(graceMs: int, s: System, steps: seq<Step>)
    requires Inv(s) && LegalRun(graceMs, s, steps)
    ensures Inv(Run(graceMs, s, steps))
  {
    if steps != [] {
      RunKeepsInv(graceMs, s, steps[..|steps| - 1]);
      StepKeepsInv(graceMs, Run(graceMs, s, steps[..|steps| - 1]), steps[|steps| - 1]);
    }
  }

  lemma StartInv(accounts: map<AccountId, Account>, now: Time)
    ensures Inv(Start(accounts, now))
  {
  }

  /**
   * Every refresh token, through any number of rotations, carries account and client of the one
   * authorization code its family started from; that code matched the client, redirect URI and PKCE
   * verifier presented, started no other family, and is gone.
   */
  lemma FamiliesComeFromOneCode(graceMs: int, accounts: map<AccountId, Account>, now: Time, steps: seq<Step>, k: Token)
    requires LegalRun(graceMs, Start(accounts, now), steps)
    requires IsRefresh(Run(graceMs, Start(accounts, now), steps).t, k)
    ensures var s := Run(graceMs, Start(accounts, now), steps);
      var row := s.t.rows[k];
      && row.family in s.origins
      && var o := s.origins[row.family];
         && o.account == row.account && o.client == row.client
         && o.stored == Request(row.client, o.redirectUri, S256(o.verifier))
         && o.code !in s.t.rows
         && forall f | f in s.origins && s.origins[f].code == o.code :: f == row.family
  {
    StartInv(accounts, now);
    RunKeepsInv(graceMs, Start(accounts, now), steps);
    var s := Run(graceMs, Start(accounts, now), steps);
    assert RowOk(s, k);
    assert Spent(s, s.origins[s.t.rows[k].family].code);
  }

  // ---------------------------------------------------------------- single use

  lemma SpentStepStaysSpent(graceMs: int, s: System, step: Step, k: Token)
    requires Inv(s) && Legal(s, step) && Spent(s, k)
    ensures Spent(Next(graceMs, s, step), k)
  {
    match step
    case CodeGrant(code, client, redirectUri, verifier, permitted) =>
      CodeGrantAges(s.t, code, client, redirectUri, verifier, permitted, s.now);
    case RefreshGrant(token, client, permitted) => RefreshGrantAges(s.t, graceMs, token, client, permitted, s.now);
    case Issue(g, ttlMs) =>
    case Advance(now) =>
    case Abandon(g) =>
    case _ =>
      assert forall x | x in s.t.rows :: RowOk(s, x) && x < s.t.nextToken;
      PlainStepAges(graceMs, s, step);
  }

  lemma {:induction false} SpentStaysSpent(graceMs: int, s: System, steps: seq<Step>, k: Token)
    requires Inv(s) && LegalRun(graceMs, s, steps) && Spent(s, k)
    ensures Spent(Run(graceMs, s, steps), k)
  {
    if steps != [] {
      SpentStaysSpent(graceMs, s, steps[..|steps| - 1], k);
      RunKeepsInv(graceMs, s, steps[..|steps| - 1]);
      SpentStepStaysSpent(graceMs, Run(graceMs, s, steps[..|steps| - 1]), steps[|steps| - 1], k);
    }
  }

  /** A live code, once presented by anyone with anything, is never honoured again. */
  lemma NoCodeIsHonouredTwice(graceMs: int, s: System, first: Step, steps: seq<Step>, again: Step)
    requires Inv(s) && first.CodeGrant? && again.CodeGrant? && again.code == first.code
    requires CodeIsLive(s.t, first.code, s.now)
    requires LegalRun(graceMs, Next(graceMs, s, first), steps)
    ensures var s' := Run(graceMs, Next(graceMs, s, first), steps);
      AfterCodeGrant(s'.t, again.code, again.client, again.redirectUri, again.verifier, again.permitted, s'.now) == (s'.t, None)
  {
    StepKeepsInv(graceMs, s, first);
    assert RowOk(s, first.code);
    SpentStaysSpent(graceMs, Next(graceMs, s, first), steps, first.code);
  }

  /** A hosted login transaction makes at most one code, for the request it stored and the browser it was bound to. */
  lemma NoLoginIsHonouredTwice(graceMs: int, s: System, login: Token, browserNonce: nat, account: AccountId,
                               permitted: bool, steps: seq<Step>, nonceAgain: nat, accountAgain: AccountId,
                               permittedAgain: bool)
    requires Inv(s) && LoginIsLive(s.t, login, browserNonce, s.now)
    requires LegalRun(graceMs, Next(graceMs, s, HostedLogin(login, browserNonce, account, permitted)), steps)
    ensures var s1 := Next(graceMs, s, HostedLogin(login, browserNonce, account, permitted));
      forall k | k in s1.t.rows && k !in s.t.rows ::
        permitted && s1.t.rows[k] == Code(account, s.t.rows[login].request, s.now + 60_000)
    ensures var s' := Run(graceMs, Next(graceMs, s, HostedLogin(login, browserNonce, account, permitted)), steps);
      AfterHostedLogin(s'.t, login, nonceAgain, accountAgain, permittedAgain, s'.now) == s'.t
  {
    var step := HostedLogin(login, browserNonce, account, permitted);
    StepKeepsInv(graceMs, s, step);
    assert RowOk(s, login);
    SpentStaysSpent(graceMs, Next(graceMs, s, step), steps, login);
  }

  // ---------------------------------------------------------------- family death

  ghost predicate FamilyRevoked(t: Tables, family: FamilyId) {
    forall k | IsRefresh(t, k) && t.rows[k].family == family :: t.rows[k].status == Revoked
  }

  /** Some grant of the family has consumed its token and not yet inserted the next one. */
  ghost predicate InFlight(s: System, family: FamilyId) {
    exists g | g in s.pending :: s.pending[g].ByRefresh? && s.pending[g].family == family
  }

  ghost predicate Dead(s: System, family: FamilyId) {
    family < s.t.nextFamily && FamilyRevoked(s.t, family) && !InFlight(s, family)
  }

  /** The token is accepted, as a member of the family. */
  predicate Accepts(graceMs: int, s: System, k: Token, family: FamilyId) {
    var r := AfterConsume(s.t, graceMs, k, s.now).1;
    r.Accepted? && r.family == family
  }

  lemma RevokedIsNotAccepted(graceMs: int, s: System, k: Token, family: FamilyId)
    requires FamilyRevoked(s.t, family)
    ensures !Accepts(graceMs, s, k, family)
  {
  }

  /** No step turns a revoked token back, and only `Issue` inserts refresh tokens. */
  ghost predicate KeepsRevoked(t: Tables, t': Tables) {
    && (forall k | IsRefresh(t', k) :: IsRefresh(t, k) && t'.rows[k].family == t.rows[k].family
          && (t.rows[k].status == Revoked ==> t'.rows[k].status == Revoked))
  }

  lemma RefreshGrantKeepsRevoked(t: Tables, graceMs: int, k: Token, client: ClientId, permitted: bool, now: Time)
    ensures KeepsRevoked(t, AfterRefreshGrant(t, graceMs, k, client, permitted, now).0)
    ensures var g := AfterRefreshGrant(t, graceMs, k, client, permitted, now).1;
      g.Some? ==> g.value.ByRefresh? && IsRefresh(t, k) && t.rows[k].family == g.value.family && t.rows[k].status != Revoked
  {
  }

  lemma PlainStepKeepsRevoked(graceMs: int, s: System, step: Step)
    requires forall k | k in s.t.rows :: k < s.t.nextToken
    ensures KeepsRevoked(s.t, NextTables(graceMs, s, step))
  {
  }

  lemma CodeGrantStaysDead(graceMs: int, s: System, k: Token, client: ClientId, redirectUri: string, verifier: string,
                           permitted: bool, family: FamilyId)
    requires Dead(s, family)
    ensures Dead(Next(graceMs, s, CodeGrant(k, client, redirectUri, verifier, permitted)), family)
  {
    assert KeepsRevoked(s.t, AfterCodeGrant(s.t, k, client, redirectUri, verifier, permitted, s.now).0);
  }

  lemma RefreshGrantStaysDead(graceMs: int, s: System, k: Token, client: ClientId, permitted: bool, family: FamilyId)
    requires Dead(s, family)
    ensures Dead(Next(graceMs, s, RefreshGrant(k, client, permitted)), family)
  {
    RefreshGrantKeepsRevoked(s.t, graceMs, k, client, permitted, s.now);
  }

  lemma IssueStaysDead(graceMs: int, s: System, g: GrantId, ttlMs: int, family: FamilyId)
    requires g in s.pending && Dead(s, family)
    ensures Dead(Next(graceMs, s, Issue(g, ttlMs)), family)
  {
  }

  lemma DeadStepStaysDead(graceMs: int, s: System, step: Step, family: FamilyId)
    requires Inv(s) && Legal(s, step) && Dead(s, family)
    ensures Dead(Next(graceMs, s, step), family)
  {
    match step
    case CodeGrant(code, client, redirectUri, verifier, permitted) =>
      CodeGrantStaysDead(graceMs, s, code, client, redirectUri, verifier, permitted, family);
    case RefreshGrant(token, client, permitted) => RefreshGrantStaysDead(graceMs, s, token, client, permitted, family);
    case Issue(g, ttlMs) => IssueStaysDead(graceMs, s, g, ttlMs, family);
    case Advance(now) =>
    case Abandon(g) =>
    case _ =>
      assert forall k | k in s.t.rows :: RowOk(s, k) && k < s.t.nextToken;
      PlainStepKeepsRevoked(graceMs, s, step);
  }

  lemma {:induction false} DeadStaysDead(graceMs: int, s: System, steps: seq<Step>, family: FamilyId)
    requires Inv(s) && LegalRun(graceMs, s, steps) && Dead(s, family)
    ensures Dead(Run(graceMs, s, steps), family)
  {
    if steps != [] {
      DeadStaysDead(graceMs, s, steps[..|steps| - 1], family);
      RunKeepsInv(graceMs, s, steps[..|steps| - 1]);
      DeadStepStaysDead(graceMs, Run(graceMs, s, steps[..|steps| - 1]), steps[|steps| - 1], family);
    }
  }

  /** No continuation ever accepts a token of the family. */
  ghost predicate NeverAcceptedAgain(graceMs: int, s: System, family: FamilyId) {
    forall steps, k :: LegalRun(graceMs, s, steps) ==> !Accepts(graceMs, Run(graceMs, s, steps), k, family)
  }

  /**
   * Revoking a family ends it for good exactly when no grant of it is between its two statements: such a
   * grant inserts a live token afterwards.
   */
  lemma RevocationIsFinalUnlessInFlight(graceMs: int, s: System, family: FamilyId)
    requires Inv(s) && family < s.t.nextFamily && FamilyRevoked(s.t, family)
    ensures NeverAcceptedAgain(graceMs, s, family) <==> !InFlight(s, family)
  {
    if InFlight(s, family) {
      var g :| g in s.pending && s.pending[g].ByRefresh? && s.pending[g].family == family;
      var steps := [Issue(g, 1)];
      assert steps[..0] == [] && Run(graceMs, s, []) == s && LegalRun(graceMs, s, []);
      assert Run(graceMs, s, steps) == Next(graceMs, s, Issue(g, 1)) && LegalRun(graceMs, s, steps);
      assert Accepts(graceMs, Run(graceMs, s, steps), s.t.nextToken, family);
    } else {
      forall steps, k | LegalRun(graceMs, s, steps) ensures !Accepts(graceMs, Run(graceMs, s, steps), k, family) {
        DeadStaysDead(graceMs, s, steps, family);
        RevokedIsNotAccepted(graceMs, Run(graceMs, s, steps), k, family);
      }
    }
  }

  /** No continuation ever gives a grant of the family at the token endpoint, to any client. */
  ghost predicate NeverGrantedAgain(graceMs: int, s: System, family: FamilyId) {
    forall steps, k, client, permitted :: LegalRun(graceMs, s, steps) ==>
      !GrantsIn(AfterRefreshGrant(Run(graceMs, s, steps).t, graceMs, k, client, permitted, Run(graceMs, s, steps).now).1, family)
  }

  predicate GrantsIn(grant: Option<Grant>, family: FamilyId) {
    grant.Some? && grant.value.ByRefresh? && grant.value.family == family
  }

  /** With the holder active and no reset pending, the inserted token is granted at the endpoint. */
  lemma InFlightIsGranted(graceMs: int, s: System, g: GrantId, family: FamilyId) returns (steps: seq<Step>)
    requires Inv(s) && g in s.pending && s.pending[g].ByRefresh? && s.pending[g].family == family
    requires s.pending[g].account in s.t.accounts
    ensures LegalRun(graceMs, s, steps)
    ensures var s' := Run(graceMs, s, steps);
      GrantsIn(AfterRefreshGrant(s'.t, graceMs, s.t.nextToken, s.pending[g].client, true, s'.now).1, family)
  {
    var account := s.pending[g].account;
    steps := [];
    Reopened(graceMs, s, account);
    hide Inv, Next;
    RunOneMore(graceMs, s, steps, SetStatus(account, Enabled));
    steps := steps + [SetStatus(account, Enabled)];
    RunOneMore(graceMs, s, steps, CompleteReset(account));
    steps := steps + [CompleteReset(account)];
    IssuedIsGranted(graceMs, Run(graceMs, s, steps), g);
    RunOneMore(graceMs, s, steps, Issue(g, 1));
    steps := steps + [Issue(g, 1)];
  }

  /** Enabling an account and completing its reset leave it free to use tokens, and change nothing else that counts. */
  lemma Reopened(graceMs: int, s: System, account: AccountId)
    requires account in s.t.accounts
    ensures var s' := Next(graceMs, Next(graceMs, s, SetStatus(account, Enabled)), CompleteReset(account));
      && s'.pending == s.pending && s'.t.nextToken == s.t.nextToken && s'.now == s.now
      && MayAuthorize(s'.t, account)
  {
  }

  lemma IssuedIsGranted(graceMs: int, s: System, g: GrantId)
    requires g in s.pending && s.pending[g].ByRefresh?
    requires MayAuthorize(s.t, s.pending[g].account)
    ensures var s' := Next(graceMs, s, Issue(g, 1));
      GrantsIn(AfterRefreshGrant(s'.t, graceMs, s.t.nextToken, s.pending[g].client, true, s'.now).1, s.pending[g].family)
  {
  }

  /** The same condition decides at the token endpoint, once the account may be active again. */
  lemma RevocationIsFinalAtTheEndpoint(graceMs: int, s: System, family: FamilyId)
    requires Inv(s) && family in s.origins && FamilyRevoked(s.t, family) && s.origins[family].account in s.t.accounts
    ensures NeverGrantedAgain(graceMs, s, family) <==> !InFlight(s, family)
  {
    if InFlight(s, family) {
      var g :| g in s.pending && s.pending[g].ByRefresh? && s.pending[g].family == family;
      assert PendingOk(s, g);
      var steps := InFlightIsGranted(graceMs, s, g, family);
    } else {
      RevocationIsFinalUnlessInFlight(graceMs, s, family);
      forall steps, k, client, permitted | LegalRun(graceMs, s, steps)
        ensures !GrantsIn(AfterRefreshGrant(Run(graceMs, s, steps).t, graceMs, k, client, permitted, Run(graceMs, s, steps).now).1, family)
      {
        assert !Accepts(graceMs, Run(graceMs, s, steps), k, family);
      }
    }
  }

  predicate HolderEnabled(t: Tables, k: Token)
    requires IsRefresh(t, k)
  {
    t.rows[k].account in t.accounts && t.accounts[t.rows[k].account].status == Enabled
  }

  /**
   * Replaying a used or revoked token, unexpired and outside the grace window, revokes its whole family exactly when
   * its holder is active; by any other holder the request changes nothing. Once the family is revoked, no token of it,
   * nor any descendant, is accepted in any continuation, if and only if no other grant of the family was in flight.
   */
  lemma ReplayKillsTheFamily(graceMs: int, s: System, k: Token, client: ClientId, permitted: bool)
    requires Inv(s) && IsRefresh(s.t, k) && Replayed(graceMs, s.t.rows[k], s.now)
    ensures var family := s.t.rows[k].family;
      var s' := Next(graceMs, s, RefreshGrant(k, client, permitted));
      && (FamilyRevoked(s'.t, family) <==> FamilyRevoked(s.t, family) || HolderEnabled(s.t, k))
      && (!HolderEnabled(s.t, k) ==> s'.t == s.t)
      && (FamilyRevoked(s'.t, family) ==> (NeverAcceptedAgain(graceMs, s', family) <==> !InFlight(s, family)))
  {
    var family := s.t.rows[k].family;
    var s' := Next(graceMs, s, RefreshGrant(k, client, permitted));
    assert RowOk(s, k);
    StepKeepsInv(graceMs, s, RefreshGrant(k, client, permitted));
    if FamilyRevoked(s'.t, family) { RevocationIsFinalUnlessInFlight(graceMs, s', family); }
  }

  lemma AccountFamiliesRevoked(s: System, account: AccountId, family: FamilyId)
    requires Inv(s) && family in s.origins && s.origins[family].account == account
    ensures FamilyRevoked(AfterRevokeAccount(s.t, account), family)
  {
    var t' := AfterRevokeAccount(s.t, account);
    forall k | IsRefresh(t', k) && t'.rows[k].family == family ensures t'.rows[k].status == Revoked {
      assert RowOk(s, k);
    }
  }

  /** A password reset, or a disabling that is not refused. */
  predicate LocksOut(s: System, step: Step) {
    || (step.ResetPassword? && step.account in s.t.accounts)
    || (step.SetStatus? && step.status == Disabled && step.account in s.t.accounts && !Refused(s.t, step.account, Disabled))
  }

  /** Disabling an account, or resetting its password, does the same to every family the account has. */
  lemma LockoutKillsTheFamilies(graceMs: int, s: System, step: Step, family: FamilyId)
    requires Inv(s) && LocksOut(s, step) && family in s.origins && s.origins[family].account == step.account
    ensures var s' := Next(graceMs, s, step);
      FamilyRevoked(s'.t, family) && (NeverAcceptedAgain(graceMs, s', family) <==> !InFlight(s, family))
  {
    var s' := Next(graceMs, s, step);
    AccountFamiliesRevoked(s, step.account, family);
    StepKeepsInv(graceMs, s, step);
    assert family < s'.t.nextFamily;
    RevocationIsFinalUnlessInFlight(graceMs, s', family);
  }

  /** The one disabling that is refused changes nothing. */
  lemma RefusedChangesNothing(graceMs: int, s: System, account: AccountId)
    requires Refused(s.t, account, Disabled)
    ensures Next(graceMs, s, SetStatus(account, Disabled)) == s
    ensures ActiveSuperAdmins(s.t.accounts) == {account}
  {
    var all := ActiveSuperAdmins(s.t.accounts);
    var others := all - {account};
    assert all == others + {account} && |all| == |others| + 1;
  }
}
