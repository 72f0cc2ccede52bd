/** Signup e-mail verification: src/signup/signup.service.ts. */
module Signup {
  import opened Prelude

  const CODE_TTL_MS: int := 300_000
  const EMAIL_WINDOW_MS: int := 1_800_000
  const IP_WINDOW_MS: int := 3_600_000
  const EMAIL_LIMIT: nat := 5
  const IP_LIMIT: nat := 10
  const GUESS_LIMIT: nat := 5

  const CODE_ALPHABET: string := "ABCDEFGHJKLMNPQRSTUVWXYZ23456789"

  /** SHA-256 of e-mail, upper-cased code and pepper, taken to be injective. */
  datatype CodeHash = CodeHash(email: string, upperCode: string)

  /** `toUpperCase`. */
  type Upper = string -> string

  /** `hashCode`: a code is hashed, when it is sent and when it is guessed, in upper case. */
  function HashOf(upper: Upper, email: string, code: string): CodeHash { CodeHash(email, upper(code)) }

  /** A row of `email_verifications`; the table is kept in insertion order. */
  datatype Verification = Verification(
    email: string,
    codeHash: CodeHash,
    requestIp: Option<string>,
    attemptCount: nat,
    createdAt: Time,
    expiresAt: Time,
    consumedAt: Option<Time>)

  datatype Error = EmailTaken | TooManyForEmail | TooManyForIp | ExpiredOrInvalid | TooManyAttempts

  // ---------------------------------------------------------------- starting

  /** The rows of an e-mail created after a moment. */
  function EmailSince(rows: seq<Verification>, email: string, from: Time): nat {
    if rows == [] then 0
    else
      var last := rows[|rows| - 1];
      EmailSince(rows[..|rows| - 1], email, from) + if last.email == email && last.createdAt > from then 1 else 0
  }

  /** The rows of an address created after a moment. */
  function IpSince(rows: seq<Verification>, ip: string, from: Time): nat {
    if rows == [] then 0
    else
      var last := rows[|rows| - 1];
      IpSince(rows[..|rows| - 1], ip, from) + if last.requestIp == Some(ip) && last.createdAt > from then 1 else 0
  }

  /** The empty address counts as none. */
  predicate Limited(ip: Option<string>) { ip.Some? && ip.value != "" }

  function RateLimit(rows: seq<Verification>, email: string, ip: Option<string>, now: Time): Option<Error> {
    if EmailSince(rows, email, now - EMAIL_WINDOW_MS) >= EMAIL_LIMIT then Some(TooManyForEmail)
    else if Limited(ip) && IpSince(rows, ip.value, now - IP_WINDOW_MS) >= IP_LIMIT then Some(TooManyForIp)
    else None
  }

  function AfterStart(upper: Upper, rows: seq<Verification>, email: string, taken: bool, ip: Option<string>, code: string, now: Time)
    : (seq<Verification>, Option<Error>)
  {
    if taken then (rows, Some(EmailTaken))
    else if RateLimit(rows, email, ip, now).Some? then (rows, RateLimit(rows, email, ip, now))
    else (rows + [Verification(email, HashOf(upper, email, code), ip, 0, now, now + CODE_TTL_MS, None)], None)
  }

  /** The rows of an e-mail, or of an address, created after a moment. */
  ghost function Recent(rows: seq<Verification>, from: Time, email: Option<string>, ip: Option<string>): set<nat> {
    set i: nat | i < |rows| && IsRecent(rows[i], from, email, ip)
  }

  predicate IsRecent(v: Verification, from: Time, email: Option<string>, ip: Option<string>) {
    v.createdAt > from && (email.Some? ==> v.email == email.value) && (ip.Some? ==> v.requestIp == ip)
  }

  lemma {:induction false} SinceCounts(rows: seq<Verification>, email: string, ip: string, from: Time)
    ensures EmailSince(rows, email, from) == |Recent(rows, from, Some(email), None)|
    ensures IpSince(rows, ip, from) == |Recent(rows, from, None, Some(ip))|
  {
    if rows != [] {
      var n := |rows| - 1;
      SinceCounts(rows[..n], email, ip, from);
      RecentGrows(rows, from, Some(email), None);
      RecentGrows(rows, from, None, Some(ip));
    }
  }

  lemma RecentGrows(rows: seq<Verification>, from: Time, email: Option<string>, ip: Option<string>)
    requires rows != []
    ensures var n := |rows| - 1;
      |Recent(rows, from, email, ip)| == |Recent(rows[..n], from, email, ip)|
        + if IsRecent(rows[n], from, email, ip) then 1 else 0
  {
    hide IsRecent;
    var n := |rows| - 1;
    var before, all := Recent(rows[..n], from, email, ip), Recent(rows, from, email, ip);
    assert n !in before;
    if n in all {
      assert all == before + {n};
    } else {
      assert all == before;
    }
  }

  /**
   * A signup starts exactly for a free e-mail with fewer than five rows in the last half hour, from no known address or
   * one with fewer than ten rows in the last hour; then it has a fresh, open row with its code, for five minutes.
   */
  lemma StartsExactly(upper: Upper, rows: seq<Verification>, email: string, taken: bool, ip: Option<string>, code: string, now: Time)
    ensures var (rows', error) := AfterStart(upper, rows, email, taken, ip, code, now);
      var many := |Recent(rows, now - 1_800_000, Some(email), None)| >= 5;
      var manyHere := ip.Some? && ip.value != "" && |Recent(rows, now - 3_600_000, None, ip)| >= 10;
      && (error == None <==> !taken && !many && !manyHere)
      && (error.Some? ==> rows' == rows)
      && (error.Some? ==> error.value == if taken then EmailTaken else if many then TooManyForEmail else TooManyForIp)
      && (error == None ==>
            rows' == rows + [Verification(email, HashOf(upper, email, code), ip, 0, now, now + 300_000, None)])
  {
    SinceCounts(rows, email, if ip.Some? then ip.value else "", now - 1_800_000);
    SinceCounts(rows, email, if ip.Some? then ip.value else "", now - 3_600_000);
  }

  // ---------------------------------------------------------------- guessing

  predicate Open(v: Verification, email: string) { v.email == email && v.consumedAt.None? }

  /** The newest unconsumed row of the e-mail; rows of one moment may come in any order. */
  predicate IsNewest(rows: seq<Verification>, email: string, i: nat) {
    && i < |rows| && Open(rows[i], email)
    && forall j | 0 <= j < |rows| && Open(rows[j], email) :: rows[j].createdAt <= rows[i].createdAt
  }

  /** The row the query finds, if there is one. */
  predicate Finds(rows: seq<Verification>, email: string, found: Option<nat>) {
    if found.Some? then IsNewest(rows, email, found.value)
    else forall j | 0 <= j < |rows| :: !Open(rows[j], email)
  }

  predicate Wrong(upper: Upper, rows: seq<Verification>, email: string, code: string, found: Option<nat>, now: Time) {
    && found.Some? && found.value < |rows|
    && rows[found.value].expiresAt > now
    && rows[found.value].attemptCount < GUESS_LIMIT
    && rows[found.value].codeHash != HashOf(upper, email, code)
  }

  function AfterGuess(upper: Upper, rows: seq<Verification>, email: string, code: string, consume: bool, found: Option<nat>,
                      now: Time)
    : (seq<Verification>, Option<Error>)
  {
    if found.None? || found.value >= |rows| || rows[found.value].expiresAt <= now then (rows, Some(ExpiredOrInvalid))
    else
      var v := rows[found.value];
      if v.attemptCount >= GUESS_LIMIT then (rows, Some(TooManyAttempts))
      else if v.codeHash != HashOf(upper, email, code) then
        (rows[found.value := v.(attemptCount := v.attemptCount + 1)], Some(ExpiredOrInvalid))
      else if consume then (rows[found.value := v.(consumedAt := Some(now))], None)
      else (rows, None)
  }

  /**
   * What a guess does to the row it finds: a wrong one for a live row with attempts left is counted, a right one
   * consumes the row when asked to, and nothing else changes any row.
   */
  lemma GuessesCount(upper: Upper, rows: seq<Verification>, email: string, code: string, consume: bool, i: nat, now: Time)
    requires i < |rows|
    ensures var (rows', error) := AfterGuess(upper, rows, email, code, consume, Some(i), now);
      var usable := now < rows[i].expiresAt && rows[i].attemptCount < 5;
      var right := rows[i].codeHash == CodeHash(email, upper(code));
      && (error == None <==> usable && right)
      && (error == Some(TooManyAttempts) <==> now < rows[i].expiresAt && rows[i].attemptCount >= 5)
      && (error == Some(ExpiredOrInvalid) <==> now >= rows[i].expiresAt || (rows[i].attemptCount < 5 && !right))
      && rows' == rows[i :=
           if usable && !right then rows[i].(attemptCount := rows[i].attemptCount + 1)
           else if usable && consume then rows[i].(consumedAt := Some(now))
           else rows[i]]
  {
  }

  // ---------------------------------------------------------------- runs

  datatype Step =
    | Start(email: string, taken: bool, ip: Option<string>, code: string, now: Time)
    | Guess(email: string, code: string, consume: bool, found: Option<nat>, now: Time)

  /** A wrong guess that was counted. */
  datatype Miss = Miss(row: nat, at: Time)

  datatype State = State(rows: seq<Verification>, misses: seq<Miss>, clock: Time)

  ghost predicate Legal(s: State, step: Step) {
    s.clock <= step.now && (step.Guess? ==> Finds(s.rows, step.email, step.found))
  }

  ghost function Next(upper: Upper, s: State, step: Step): State {
    match step
    case Start(email, taken, ip, code, now) => State(AfterStart(upper, s.rows, email, taken, ip, code, now).0, s.misses, now)
    case Guess(email, code, consume, found, now) =>
      State(AfterGuess(upper, s.rows, email, code, consume, found, now).0,
            if Wrong(upper, s.rows, email, code, found, now) then s.misses + [Miss(found.value, now)] else s.misses,
            now)
  }

  ghost function Run(upper: Upper, s: State, steps: seq<Step>): State {
    if steps == [] then s else Next(upper, Run(upper, s, steps[..|steps| - 1]), steps[|steps| - 1])
  }

  ghost predicate LegalRun(upper: Upper, s: State, steps: seq<Step>) {
    steps == [] || (LegalRun(upper, s, steps[..|steps| - 1]) && Legal(Run(upper, s, steps[..|steps| - 1]), steps[|steps| - 1]))
  }

  /** The rows of an e-mail created after `from` and not after `to`. */
  function EmailCount(rows: seq<Verification>, email: string, from: Time, to: Time): nat {
    if rows == [] then 0
    else
      var last := rows[|rows| - 1];
      EmailCount(rows[..|rows| - 1], email, from, to) + if last.email == email && from < last.createdAt <= to then 1 else 0
  }

  /** The rows of an address created after `from` and not after `to`. */
  function IpCount(rows: seq<Verification>, ip: string, from: Time, to: Time): nat {
    if rows == [] then 0
    else
      var last := rows[|rows| - 1];
      IpCount(rows[..|rows| - 1], ip, from, to) + if last.requestIp == Some(ip) && from < last.createdAt <= to then 1 else 0
  }

  ghost predicate EmailWindow(rows: seq<Verification>, email: string, from: Time) {
    EmailCount(rows, email, from, from + EMAIL_WINDOW_MS) <= EMAIL_LIMIT
  }

  ghost predicate IpWindow(rows: seq<Verification>, ip: string, from: Time) {
    IpCount(rows, ip, from, from + IP_WINDOW_MS) <= IP_LIMIT
  }

  ghost predicate Windows(rows: seq<Verification>) {
    && (forall email, from :: EmailWindow(rows, email, from))
    && (forall ip, from | ip != "" :: IpWindow(rows, ip, from))
  }

  ghost predicate RowsOk(s: State) {
    forall i | 0 <= i < |s.rows| ::
      && s.rows[i].createdAt <= s.clock
      && s.rows[i].expiresAt == s.rows[i].createdAt + CODE_TTL_MS
      && s.rows[i].attemptCount == RowMisses(s.misses, i)
      && s.rows[i].attemptCount <= GUESS_LIMIT
  }

  ghost predicate MissesOk(s: State) {
    forall k | 0 <= k < |s.misses| ::
      && s.misses[k].row < |s.rows|
      && s.rows[s.misses[k].row].createdAt <= s.misses[k].at < s.rows[s.misses[k].row].expiresAt
  }

  ghost predicate Inv(s: State) { Windows(s.rows) && RowsOk(s) && MissesOk(s) }

  function RowMisses(misses: seq<Miss>, i: nat): nat {
    if misses == [] then 0
    else RowMisses(misses[..|misses| - 1], i) + if misses[|misses| - 1].row == i then 1 else 0
  }

  lemma EmptyInv(clock: Time)
    ensures Inv(State([], [], clock))
  {
  }

  lemma {:induction false} EmailCountIsPart(rows: seq<Verification>, email: string, from: Time, to: Time, since: Time)
    requires since <= from
    ensures EmailCount(rows, email, from, to) <= EmailSince(rows, email, since)
  {
    if rows != [] { EmailCountIsPart(rows[..|rows| - 1], email, from, to, since); }
  }

  lemma {:induction false} IpCountIsPart(rows: seq<Verification>, ip: string, from: Time, to: Time, since: Time)
    requires since <= from
    ensures IpCount(rows, ip, from, to) <= IpSince(rows, ip, since)
  {
    if rows != [] { IpCountIsPart(rows[..|rows| - 1], ip, from, to, since); }
  }

  /** A window that a new row falls into lies after the moment the limit was counted from. */
  lemma NewRowKeepsWindows(rows: seq<Verification>, row: Verification)
    requires Windows(rows) && RateLimit(rows, row.email, row.requestIp, row.createdAt).None?
    ensures Windows(rows + [row])
  {
    var now := row.createdAt;
    assert (rows + [row])[..|rows|] == rows;
    forall email, from ensures EmailWindow(rows + [row], email, from) {
      assert EmailWindow(rows, email, from);
      if from >= now - EMAIL_WINDOW_MS {
        EmailCountIsPart(rows, email, from, from + EMAIL_WINDOW_MS, now - EMAIL_WINDOW_MS);
      }
    }
    forall ip, from | ip != "" ensures IpWindow(rows + [row], ip, from) {
      assert IpWindow(rows, ip, from);
      if from >= now - IP_WINDOW_MS {
        IpCountIsPart(rows, ip, from, from + IP_WINDOW_MS, now - IP_WINDOW_MS);
      }
    }
  }

  /** Guesses change neither who asked nor when. */
  lemma {:induction false} SameOrigins(rows: seq<Verification>, rows': seq<Verification>)
    requires |rows| == |rows'|
    requires forall i | 0 <= i < |rows| ::
      rows[i].email == rows'[i].email && rows[i].requestIp == rows'[i].requestIp && rows[i].createdAt == rows'[i].createdAt
    ensures forall email, from, to :: EmailCount(rows', email, from, to) == EmailCount(rows, email, from, to)
    ensures forall ip, from, to :: IpCount(rows', ip, from, to) == IpCount(rows, ip, from, to)
  {
    if rows != [] { SameOrigins(rows[..|rows| - 1], rows'[..|rows| - 1]); }
  }

  lemma {:induction false} NoMisses(misses: seq<Miss>, i: nat)
    requires forall k | 0 <= k < |misses| :: misses[k].row < i
    ensures RowMisses(misses, i) == 0
  {
    if misses != [] { NoMisses(misses[..|misses| - 1], i); }
  }

  lemma StartKeepsInv(upper: Upper, s: State, step: Step)
    requires Inv(s) && step.Start? && Legal(s, step)
    ensures Inv(Next(upper, s, step))
  {
    var s' := Next(upper, s, step);
    if s'.rows != s.rows {
      var row := s'.rows[|s.rows|];
      NewRowKeepsWindows(s.rows, row);
      NoMisses(s.misses, |s.rows|);
    }
  }

  lemma MissCounts(misses: seq<Miss>, miss: Miss)
    ensures forall i :: RowMisses(misses + [miss], i) == RowMisses(misses, i) + if miss.row == i then 1 else 0
  {
    assert (misses + [miss])[..|misses|] == misses;
  }

  lemma GuessKeepsInv(upper: Upper, s: State, step: Step)
    requires Inv(s) && step.Guess? && Legal(s, step)
    ensures Inv(Next(upper, s, step))
  {
    var s' := Next(upper, s, step);
    SameOrigins(s.rows, s'.rows);
    forall email, from ensures EmailWindow(s'.rows, email, from) { assert EmailWindow(s.rows, email, from); }
    forall ip, from | ip != "" ensures IpWindow(s'.rows, ip, from) { assert IpWindow(s.rows, ip, from); }
    if Wrong(upper, s.rows, step.email, step.code, step.found, step.now) {
      MissCounts(s.misses, Miss(step.found.value, step.now));
    }
  }

  lemma {:induction false} RunKeepsInv(upper: Upper, s: State, steps: seq<Step>)
    requires Inv(s) && LegalRun(upper, s, steps)
    ensures Inv(Run(upper, s, steps))
  {
    if steps != [] {
      var before, last := steps[..|steps| - 1], steps[|steps| - 1];
      RunKeepsInv(upper, s, before);
      if last.Start? { StartKeepsInv(upper, Run(upper, s, before), last); } else { GuessKeepsInv(upper, Run(upper, s, before), last); }
    }
  }

  // ---------------------------------------------------------------- what holds in every run

  /** Any half-open window of 30 minutes holds at most 5 rows of an e-mail; any hour at most 10 of an address. */
  lemma WindowsHold(upper: Upper, s: State, steps: seq<Step>, email: string, ip: string, from: Time)
    requires Inv(s) && LegalRun(upper, s, steps)
    ensures EmailCount(Run(upper, s, steps).rows, email, from, from + 1_800_000) <= 5
    ensures ip != "" ==> IpCount(Run(upper, s, steps).rows, ip, from, from + 3_600_000) <= 10
  {
    RunKeepsInv(upper, s, steps);
    assert EmailWindow(Run(upper, s, steps).rows, email, from);
    assert ip != "" ==> IpWindow(Run(upper, s, steps).rows, ip, from);
  }

  /** The wrong guesses counted against one row are its attempt count, and never more than 5. */
  lemma AtMostFiveMisses(upper: Upper, s: State, steps: seq<Step>, i: nat)
    requires Inv(s) && LegalRun(upper, s, steps) && i < |Run(upper, s, steps).rows|
    ensures RowMisses(Run(upper, s, steps).misses, i) == Run(upper, s, steps).rows[i].attemptCount <= 5
  {
    RunKeepsInv(upper, s, steps);
  }

  /** Wrong guesses after `from` and not after `to`, against rows of an e-mail below index `n`. */
  function MissesBelow(rows: seq<Verification>, misses: seq<Miss>, email: string, from: Time, to: Time, n: nat): nat {
    if misses == [] then 0
    else
      var last := misses[|misses| - 1];
      MissesBelow(rows, misses[..|misses| - 1], email, from, to, n)
      + if last.row < n && last.row < |rows| && rows[last.row].email == email && from < last.at <= to then 1 else 0
  }

  /** One more row adds at most its own misses, and none if it was created outside the possible time. */
  lemma {:induction false} OneMoreRow(rows: seq<Verification>, misses: seq<Miss>, email: string, from: Time, to: Time,
                                      n: nat)
    requires n < |rows|
    requires forall k | 0 <= k < |misses| ::
      misses[k].row < |rows| && rows[misses[k].row].createdAt <= misses[k].at < rows[misses[k].row].createdAt + CODE_TTL_MS
    ensures MissesBelow(rows, misses, email, from, to, n + 1) <= MissesBelow(rows, misses, email, from, to, n)
      + if rows[n].email == email && from - CODE_TTL_MS < rows[n].createdAt <= to then RowMisses(misses, n) else 0
  {
    if misses != [] { OneMoreRow(rows, misses[..|misses| - 1], email, from, to, n); }
  }

  lemma {:induction false} MissesAreFew(s: State, email: string, from: Time, to: Time, n: nat)
    requires RowsOk(s) && MissesOk(s) && n <= |s.rows|
    ensures MissesBelow(s.rows, s.misses, email, from, to, n)
         <= GUESS_LIMIT * EmailCount(s.rows[..n], email, from - CODE_TTL_MS, to)
  {
    if n == 0 {
      NoneBelowZero(s.rows, s.misses, email, from, to);
    } else {
      MissesAreFew(s, email, from, to, n - 1);
      OneMoreRow(s.rows, s.misses, email, from, to, n - 1);
      assert s.rows[..n][..n - 1] == s.rows[..n - 1];
    }
  }

  lemma {:induction false} NoneBelowZero(rows: seq<Verification>, misses: seq<Miss>, email: string, from: Time,
                                         to: Time)
    ensures MissesBelow(rows, misses, email, from, to, 0) == 0
  {
    if misses != [] { NoneBelowZero(rows, misses[..|misses| - 1], email, from, to); }
  }

  /**
   * The two limits and the life of a code together bound guessing: in any 25 minutes at most 25 wrong
   * guesses are counted against all the codes of one e-mail.
   */
  lemma GuessBudget(upper: Upper, s: State, steps: seq<Step>, email: string, from: Time)
    requires Inv(s) && LegalRun(upper, s, steps)
    ensures var end := Run(upper, s, steps);
      MissesBelow(end.rows, end.misses, email, from, from + 1_500_000, |end.rows|) <= 25
  {
    RunKeepsInv(upper, s, steps);
    var end := Run(upper, s, steps);
    MissesAreFew(end, email, from, from + EMAIL_WINDOW_MS - CODE_TTL_MS, |end.rows|);
    assert end.rows[..|end.rows|] == end.rows;
    assert EmailWindow(end.rows, email, from - CODE_TTL_MS);
  }

  lemma {:induction false} RowIsKept(upper: Upper, s: State, steps: seq<Step>, i: nat)
    requires i < |s.rows| && LegalRun(upper, s, steps)
    ensures i < |Run(upper, s, steps).rows|
    ensures var v, v' := s.rows[i], Run(upper, s, steps).rows[i];
      v'.email == v.email && v'.codeHash == v.codeHash && v'.createdAt == v.createdAt && v'.expiresAt == v.expiresAt
  {
    if steps != [] { RowIsKept(upper, s, steps[..|steps| - 1], i); }
  }

  /**
   * After any run, the row of a code that was sent validates a guess exactly when it is the row the guess finds, the
   * guess is that code in any case of letters, fewer than five wrong guesses have been counted against it, and five
   * minutes have not passed. It is found when it is unconsumed and every other open row of the e-mail is older, and
   * only when it is unconsumed and none is newer.
   */
  lemma SentCodeSucceedsExactly(upper: Upper, s: State, sent: Step, steps: seq<Step>, guess: Step)
    requires Inv(s) && sent.Start? && Legal(s, sent)
    requires AfterStart(upper, s.rows, sent.email, sent.taken, sent.ip, sent.code, sent.now).1.None?
    requires LegalRun(upper, Next(upper, s, sent), steps)
    requires guess.Guess? && Legal(Run(upper, Next(upper, s, sent), steps), guess)
    ensures var i, end := |s.rows|, Run(upper, Next(upper, s, sent), steps);
      && i < |end.rows|
      && (guess.found == Some(i) ==>
            (AfterGuess(upper, end.rows, guess.email, guess.code, guess.consume, guess.found, guess.now).1.None? <==>
               upper(guess.code) == upper(sent.code) && RowMisses(end.misses, i) < 5
               && guess.now < sent.now + 300_000))
      && (guess.found == Some(i) ==>
            && guess.email == sent.email && end.rows[i].consumedAt.None?
            && forall j | 0 <= j < |end.rows| && Open(end.rows[j], sent.email) :: end.rows[j].createdAt <= sent.now)
      && (guess.email == sent.email && end.rows[i].consumedAt.None?
            && (forall j | 0 <= j < |end.rows| && j != i && Open(end.rows[j], sent.email) :: end.rows[j].createdAt < sent.now)
          ==> guess.found == Some(i))
  {
    var i, s1 := |s.rows|, Next(upper, s, sent);
    StartKeepsInv(upper, s, sent);
    RowIsKept(upper, s1, steps, i);
    RunKeepsInv(upper, s1, steps);
    var end := Run(upper, s1, steps);
    assert end.rows[i].attemptCount == RowMisses(end.misses, i);
    assert Open(end.rows[i], sent.email) <==> end.rows[i].consumedAt.None?;
  }

  /** A consumed row is never found again, so one code completes at most one signup. */
  lemma {:induction false} ConsumedIsFinal(upper: Upper, s: State, steps: seq<Step>, i: nat)
    requires i < |s.rows| && s.rows[i].consumedAt.Some? && LegalRun(upper, s, steps)
    ensures i < |Run(upper, s, steps).rows| && Run(upper, s, steps).rows[i].consumedAt.Some?
    ensures forall email :: !IsNewest(Run(upper, s, steps).rows, email, i)
  {
    if steps != [] { ConsumedIsFinal(upper, s, steps[..|steps| - 1], i); }
  }

  // ---------------------------------------------------------------- the service

  class SignupService {
    var verifications: seq<Verification>
    const toUpperCase: Upper

    constructor (toUpperCase: Upper)
      ensures verifications == [] && this.toUpperCase == toUpperCase
    {
      verifications, this.toUpperCase := [], toUpperCase;
    }

    method CountEmail(email: string, from: Time) returns (n: nat)
      ensures n == EmailSince(verifications, email, from)
    {
      n := 0;
      for i := 0 to |verifications|
        invariant n == EmailSince(verifications[..i], email, from)
      {
        assert verifications[..i + 1][..i] == verifications[..i];
        if verifications[i].email == email && verifications[i].createdAt > from { n := n + 1; }
      }
      assert verifications[..|verifications|] == verifications;
    }

    method CountIp(ip: string, from: Time) returns (n: nat)
      ensures n == IpSince(verifications, ip, from)
    {
      n := 0;
      for i := 0 to |verifications|
        invariant n == IpSince(verifications[..i], ip, from)
      {
        assert verifications[..i + 1][..i] == verifications[..i];
        if verifications[i].requestIp == Some(ip) && verifications[i].createdAt > from { n := n + 1; }
      }
      assert verifications[..|verifications|] == verifications;
    }

    method AssertRateLimits(email: string, ip: Option<string>, now: Time) returns (error: Option<Error>)
      ensures error == RateLimit(verifications, email, ip, now)
    {
      var recent := CountEmail(email, now - EMAIL_WINDOW_MS);
      if recent >= EMAIL_LIMIT { return Some(TooManyForEmail); }
      if ip.Some? && ip.value != "" {
        recent := CountIp(ip.value, now - IP_WINDOW_MS);
        if recent >= IP_LIMIT { return Some(TooManyForIp); }
      }
      return None;
    }

    /** Six letters of the alphabet, each chosen by a random number. */
    method GenerateCode(randomInt: (nat, nat) -> nat) returns (code: string)
      requires forall i, n | n > 0 :: randomInt(i, n) < n
      ensures |code| == 6
      ensures forall i | 0 <= i < 6 :: code[i] == "ABCDEFGHJKLMNPQRSTUVWXYZ23456789"[randomInt(i, 32)]
    {
      code := "";
      for i := 0 to 6
        invariant |code| == i
        invariant forall j | 0 <= j < i :: code[j] == CODE_ALPHABET[randomInt(j, |CODE_ALPHABET|)]
      {
        code := code + [CODE_ALPHABET[randomInt(i, |CODE_ALPHABET|)]];
      }
      assert |CODE_ALPHABET| == 32;
    }

    method Start(email: string, taken: bool, ip: Option<string>, code: string, now: Time) returns (error: Option<Error>)
      modifies this
      ensures (verifications, error) == AfterStart(toUpperCase, old(verifications), email, taken, ip, code, now)
    {
      if taken { return Some(EmailTaken); }
      error := AssertRateLimits(email, ip, now);
      if error.Some? { return; }
      verifications := verifications + [Verification(email, HashOf(toUpperCase, email, code), ip, 0, now, now + CODE_TTL_MS, None)];
    }

    method FindNewest(email: string) returns (found: Option<nat>)
      ensures Finds(verifications, email, found)
    {
      found := None;
      for i := 0 to |verifications|
        invariant found.None? ==> forall j | 0 <= j < i :: !Open(verifications[j], email)
        invariant found.Some? ==> IsNewest(verifications[..i], email, found.value)
      {
        if Open(verifications[i], email)
           && (found.None? || verifications[found.value].createdAt < verifications[i].createdAt) {
          found := Some(i);
        }
      }
      assert verifications[..|verifications|] == verifications;
    }

    method FindValidVerification(email: string, code: string, consume: bool, now: Time)
      returns (found: Option<nat>, error: Option<Error>)
      modifies this
      ensures Finds(old(verifications), email, found)
      ensures (verifications, error) == AfterGuess(toUpperCase, old(verifications), email, code, consume, found, now)
    {
      found := FindNewest(email);
      if found.None? || verifications[found.value].expiresAt <= now { return found, Some(ExpiredOrInvalid); }
      var verification := verifications[found.value];
      if verification.attemptCount >= GUESS_LIMIT { return found, Some(TooManyAttempts); }
      if verification.codeHash != HashOf(toUpperCase, email, code) {
        verification := verification.(attemptCount := verification.attemptCount + 1);
        verifications := verifications[found.value := verification];
        return found, Some(ExpiredOrInvalid);
      }
      if consume {
        verification := verification.(consumedAt := Some(now));
        verifications := verifications[found.value := verification];
      }
      return found, None;
    }
  }
}
