/**
 * TOTP verification on top of the shared store: a failure counter and a replay guard per
 * user. The code of a time step (section 5.2 of RFC 6238) is a parameter, so the claims
 * hold for every secret and every code function. A verification runs without an await.
 */
module Totp {
  import opened Common
  import opened Options
  import opened SharedStore

  const FAILURE_BUCKET_TTL_MS: int := 5 * 60 * 1000
  const MAX_MFA_FAILURES: int := 5
  const REPLAY_GUARD_MS: int := 120_000
  const PENDING_SECRET_TTL_MS: int := 10 * 60_000
  const STEP_MS: int := 30_000

  /** Code of a secret for a time step. */
  type CodeOf = (string, int) -> string

  function FailKey(user: string): string { "mfa:fail:" + user }

  function ReplayKey(user: string, code: string): string { "mfa:replay:" + user + ":" + code }

  function PendingKey(user: string): string { "mfa:pending:" + user }

  /** The code without surrounding blanks. */
  function Trim(s: string): string
    decreases |s|
  {
    if s != [] && IsSpace(s[0]) then Trim(s[1..])
    else if s != [] && IsSpace(s[|s| - 1]) then Trim(s[..|s| - 1])
    else s
  }

  /** Step `j` is within one step of the current one. */
  predicate InSkew(j: int, now: int) {
    -1 <= j - now / STEP_MS <= 1
  }

  /** The code of the current, the previous or the next step. */
  predicate Matches(codeOf: CodeOf, secret: string, code: string, now: int) {
    var step := now / STEP_MS;
    code == codeOf(secret, step - 1) || code == codeOf(secret, step) || code == codeOf(secret, step + 1)
  }

  datatype Verdict = Locked | Accepted | Rejected | RejectedAndLocked

  function Failures(m: Entries, user: string, now: int): int {
    var v := View(m, now);
    if FailKey(user) in v && v[FailKey(user)].value.Num? then v[FailKey(user)].value.n else 0
  }

  function VerdictOf(m: Entries, codeOf: CodeOf, user: string, secret: string, code: string, now: int): Verdict {
    if Failures(m, user, now) >= MAX_MFA_FAILURES then Locked
    else if ReplayKey(user, Trim(code)) !in View(m, now) && Matches(codeOf, secret, Trim(code), now) then Accepted
    else if Failures(m, user, now) + 1 >= MAX_MFA_FAILURES then RejectedAndLocked
    else Rejected
  }

  function Do(m: Entries, op: Op, now: int): Entries {
    Lazy(m, op, now).entries
  }

  /** The store after a verification: it looks, and then records an acceptance or a failure. */
  function AfterVerify(m: Entries, codeOf: CodeOf, user: string, secret: string, code: string, now: int): Entries {
    var replay := ReplayKey(user, Trim(code));
    var m1 := Do(m, Get(FailKey(user)), now);
    var m2 := Do(m1, Get(replay), now);
    match VerdictOf(m, codeOf, user, secret, code, now)
    case Locked => m1
    case Accepted => Do(Do(m2, Delete(FailKey(user)), now), Set(replay, Flag(true), Some(REPLAY_GUARD_MS)), now)
    case _ => Do(m2, Increment(FailKey(user), Some(FAILURE_BUCKET_TTL_MS)), now)
  }

  datatype State = State(entries: Entries, now: int)

  /** `Other` is any operation of another component; those never use the "mfa:" keys. */
  datatype Step =
    | Tick(ms: nat)
    | Verify(user: string, secret: string, code: string)
    | Stash(user: string, secret: string)
    | Take(user: string)
    | Other(op: Op)

  predicate Foreign(op: Op) {
    op.Sweep? || !("mfa:" <= op.key)
  }

  function Apply(codeOf: CodeOf, st: State, step: Step): State {
    match step
    case Tick(ms) => st.(now := st.now + ms)
    case Verify(u, secret, code) => st.(entries := AfterVerify(st.entries, codeOf, u, secret, code, st.now))
    case Stash(u, secret) =>
      st.(entries := Do(st.entries, Set(PendingKey(u), Text(secret), Some(PENDING_SECRET_TTL_MS)), st.now))
    case Take(u) => st.(entries := Do(Do(st.entries, Get(PendingKey(u)), st.now), Delete(PendingKey(u)), st.now))
    case Other(op) => if Foreign(op) then st.(entries := Do(st.entries, op, st.now)) else st
  }

  function Run(codeOf: CodeOf, st: State, steps: seq<Step>): State
    decreases |steps|
  {
    if steps == [] then st else Run(codeOf, Apply(codeOf, st, steps[0]), steps[1..])
  }

  // ------------------------------------------------------------------- the keys

  lemma KeysDiffer(u: string, v: string, code: string)
    ensures FailKey(u) != ReplayKey(v, code) && PendingKey(u) != ReplayKey(v, code) && FailKey(u) != PendingKey(v)
    ensures "mfa:" <= FailKey(u) && "mfa:" <= ReplayKey(v, code)
  {
    assert FailKey(u)[4] == 'f' && ReplayKey(v, code)[4] == 'r' && PendingKey(u)[4] == 'p' && PendingKey(v)[4] == 'p';
  }

  // ----------------------------------------------------------- the failure bound

  /** No user's visible failure counter is above five. */
  ghost predicate CountersBounded(m: Entries, now: int) {
    forall u :: FailKey(u) in View(m, now) ==>
                  m[FailKey(u)].value.Num? && m[FailKey(u)].value.n <= MAX_MFA_FAILURES
  }

  /** An operation that leaves every failure counter bounded. */
  ghost predicate Bounding(m: Entries, op: Op, now: int) {
    forall u :: op.Sweep? || op.key != FailKey(u) || op.Get? || op.Delete? ||
                (op.Increment? && Failures(m, u, now) < MAX_MFA_FAILURES)
  }

  lemma OpKeepsBound(m: Entries, op: Op, now: int)
    requires CountersBounded(m, now) && Bounding(m, op, now)
    ensures CountersBounded(Do(m, op, now), now)
  {
  }

  lemma GetKeepsView(m: Entries, k: string, now: int)
    ensures View(Do(m, Get(k), now), now) == View(m, now)
  {
  }

  lemma FailuresFromView(m: Entries, m': Entries, user: string, now: int)
    requires View(m, now) == View(m', now)
    ensures Failures(m, user, now) == Failures(m', user, now)
    ensures CountersBounded(m, now) ==> CountersBounded(m', now)
  {
  }

  lemma VerifyKeepsBound(m: Entries, codeOf: CodeOf, u: string, secret: string, code: string, now: int)
    requires CountersBounded(m, now)
    ensures CountersBounded(AfterVerify(m, codeOf, u, secret, code, now), now)
  {
    var replay := ReplayKey(u, Trim(code));
    var m1 := Do(m, Get(FailKey(u)), now);
    GetKeepsView(m, FailKey(u), now);
    FailuresFromView(m, m1, u, now);
    var m2 := Do(m1, Get(replay), now);
    GetKeepsView(m1, replay, now);
    FailuresFromView(m1, m2, u, now);
    match VerdictOf(m, codeOf, u, secret, code, now)
    case Locked =>
    case Accepted =>
      OpKeepsBound(m2, Delete(FailKey(u)), now);
      forall v ensures replay != FailKey(v) { KeysDiffer(v, u, Trim(code)); }
      OpKeepsBound(Do(m2, Delete(FailKey(u)), now), Set(replay, Flag(true), Some(REPLAY_GUARD_MS)), now);
    case _ =>
      forall v | FailKey(v) == FailKey(u) ensures v == u {
        assert FailKey(v)[9..] == v && FailKey(u)[9..] == u;
      }
      OpKeepsBound(m2, Increment(FailKey(u), Some(FAILURE_BUCKET_TTL_MS)), now);
  }

  lemma StepKeepsBound(codeOf: CodeOf, st: State, step: Step)
    requires CountersBounded(st.entries, st.now)
    ensures var st' := Apply(codeOf, st, step); CountersBounded(st'.entries, st'.now)
  {
    match step
    case Tick(ms) =>
      forall u | FailKey(u) in View(st.entries, st.now + ms) ensures FailKey(u) in View(st.entries, st.now) {}
    case Verify(u, secret, code) => VerifyKeepsBound(st.entries, codeOf, u, secret, code, st.now);
    case Stash(u, secret) =>
      forall v ensures PendingKey(u) != FailKey(v) { KeysDiffer(v, u, ""); }
      OpKeepsBound(st.entries, Set(PendingKey(u), Text(secret), Some(PENDING_SECRET_TTL_MS)), st.now);
    case Take(u) =>
      forall v ensures PendingKey(u) != FailKey(v) { KeysDiffer(v, u, ""); }
      OpKeepsBound(st.entries, Get(PendingKey(u)), st.now);
      OpKeepsBound(Do(st.entries, Get(PendingKey(u)), st.now), Delete(PendingKey(u)), st.now);
    case Other(op) =>
      if Foreign(op) {
        forall v ensures op.Sweep? || op.key != FailKey(v) { KeysDiffer(v, v, ""); }
        OpKeepsBound(st.entries, op, st.now);
      }
  }

  /** In every run a user's failure counter never exceeds five. */
  lemma {:induction false} FailuresNeverExceedFive(codeOf: CodeOf, st: State, steps: seq<Step>)
    requires CountersBounded(st.entries, st.now)
    ensures var st' := Run(codeOf, st, steps);
            CountersBounded(st'.entries, st'.now) && forall u :: Failures(st'.entries, u, st'.now) <= 5
    decreases |steps|
  {
    if steps != [] {
      StepKeepsBound(codeOf, st, steps[0]);
      FailuresNeverExceedFive(codeOf, Apply(codeOf, st, steps[0]), steps[1..]);
    }
  }

  // ------------------------------------------------------------ the replay guard

  /** The key stays visible at least until `until`. */
  ghost predicate GuardedUntil(m: Entries, key: string, until: int) {
    key in m && m[key].expiresAt.Some? && until <= m[key].expiresAt.value
  }

  lemma OpKeepsGuard(m: Entries, op: Op, now: int, key: string, until: int)
    requires GuardedUntil(m, key, until) && now < until <= now + REPLAY_GUARD_MS
    requires op.Sweep? || op.key != key || op.Get? || op == Set(key, Flag(true), Some(REPLAY_GUARD_MS))
    ensures GuardedUntil(Do(m, op, now), key, until)
  {
  }

  lemma VerifyKeepsGuard(
      m: Entries, codeOf: CodeOf, v: string, secret: string, given: string, now: int,
      u: string, code: string, until: int)
    requires GuardedUntil(m, ReplayKey(u, code), until) && now < until <= now + REPLAY_GUARD_MS
    ensures GuardedUntil(AfterVerify(m, codeOf, v, secret, given, now), ReplayKey(u, code), until)
  {
    var key := ReplayKey(u, code);
    KeysDiffer(v, u, code);
    var replay := ReplayKey(v, Trim(given));
    var m1 := Do(m, Get(FailKey(v)), now);
    OpKeepsGuard(m, Get(FailKey(v)), now, key, until);
    var m2 := Do(m1, Get(replay), now);
    OpKeepsGuard(m1, Get(replay), now, key, until);
    match VerdictOf(m, codeOf, v, secret, given, now)
    case Locked =>
    case Accepted =>
      OpKeepsGuard(m2, Delete(FailKey(v)), now, key, until);
      OpKeepsGuard(Do(m2, Delete(FailKey(v)), now), Set(replay, Flag(true), Some(REPLAY_GUARD_MS)), now, key, until);
    case _ => OpKeepsGuard(m2, Increment(FailKey(v), Some(FAILURE_BUCKET_TTL_MS)), now, key, until);
  }

  lemma StepKeepsGuard(codeOf: CodeOf, st: State, step: Step, u: string, code: string, until: int)
    requires GuardedUntil(st.entries, ReplayKey(u, code), until) && st.now < until <= st.now + REPLAY_GUARD_MS
    ensures GuardedUntil(Apply(codeOf, st, step).entries, ReplayKey(u, code), until)
  {
    var key := ReplayKey(u, code);
    match step
    case Tick(_) =>
    case Verify(v, secret, given) => VerifyKeepsGuard(st.entries, codeOf, v, secret, given, st.now, u, code, until);
    case Stash(v, secret) =>
      KeysDiffer(v, u, code);
      OpKeepsGuard(st.entries, Set(PendingKey(v), Text(secret), Some(PENDING_SECRET_TTL_MS)), st.now, key, until);
    case Take(v) =>
      KeysDiffer(v, u, code);
      OpKeepsGuard(st.entries, Get(PendingKey(v)), st.now, key, until);
      OpKeepsGuard(Do(st.entries, Get(PendingKey(v)), st.now), Delete(PendingKey(v)), st.now, key, until);
    case Other(op) =>
      KeysDiffer(u, u, code);
      if Foreign(op) {
        OpKeepsGuard(st.entries, op, st.now, key, until);
      }
  }

  lemma {:induction false} NowGrows(codeOf: CodeOf, st: State, steps: seq<Step>)
    ensures st.now <= Run(codeOf, st, steps).now
    decreases |steps|
  {
    if steps != [] {
      NowGrows(codeOf, Apply(codeOf, st, steps[0]), steps[1..]);
    }
  }

  lemma {:induction false} RunKeepsGuard(
      codeOf: CodeOf, st: State, steps: seq<Step>, u: string, code: string, until: int)
    requires GuardedUntil(st.entries, ReplayKey(u, code), until) && st.now < until <= st.now + REPLAY_GUARD_MS
    requires Run(codeOf, st, steps).now < until
    ensures GuardedUntil(Run(codeOf, st, steps).entries, ReplayKey(u, code), until)
    decreases |steps|
  {
    if steps != [] {
      var st1 := Apply(codeOf, st, steps[0]);
      StepKeepsGuard(codeOf, st, steps[0], u, code, until);
      NowGrows(codeOf, st1, steps[1..]);
      RunKeepsGuard(codeOf, st1, steps[1..], u, code, until);
    }
  }

  lemma AcceptanceGuards(codeOf: CodeOf, st: State, u: string, secret: string, code: string)
    requires VerdictOf(st.entries, codeOf, u, secret, code, st.now) == Accepted
    ensures var st' := Apply(codeOf, st, Verify(u, secret, code));
            GuardedUntil(st'.entries, ReplayKey(u, Trim(code)), st.now + REPLAY_GUARD_MS)
  {
  }

  /**
   * A code accepted for a step `j` is never accepted again while `j` could still match:
   * whatever ran in between, whatever the secret, and in any spelling of the code.
   */
  lemma AcceptedOncePerStep(
      codeOf: CodeOf, st: State, u: string, secret: string, code: string, j: int,
      between: seq<Step>, secret': string, code': string)
    requires VerdictOf(st.entries, codeOf, u, secret, code, st.now) == Accepted && InSkew(j, st.now)
    requires Trim(code') == Trim(code)
    requires InSkew(j, Run(codeOf, Apply(codeOf, st, Verify(u, secret, code)), between).now)
    ensures var st' := Run(codeOf, Apply(codeOf, st, Verify(u, secret, code)), between);
            VerdictOf(st'.entries, codeOf, u, secret', code', st'.now) != Accepted
  {
    AcceptanceGuards(codeOf, st, u, secret, code);
    var st1 := Apply(codeOf, st, Verify(u, secret, code));
    RunKeepsGuard(codeOf, st1, between, u, Trim(code), st.now + REPLAY_GUARD_MS);
  }

  // ---------------------------------------------------------- the pending secret

  /** The secret a take would return. */
  function PendingSecret(m: Entries, user: string, now: int): Option<string> {
    var v := View(m, now);
    if PendingKey(user) in v && v[PendingKey(user)].value.Text? then Some(v[PendingKey(user)].value.s) else None
  }

  /** The stashed secret is in the store until `until`, and nothing else is under its key. */
  ghost predicate Stashed(m: Entries, u: string, secret: string, until: int, now: int) {
    && (PendingKey(u) in m ==> m[PendingKey(u)] == Entry(Text(secret), Some(until)))
    && (now < until ==> PendingKey(u) in m)
  }

  lemma OpKeepsStashed(m: Entries, op: Op, now: int, u: string, secret: string, until: int)
    requires Stashed(m, u, secret, until, now) && (op.Sweep? || op.Get? || op.key != PendingKey(u))
    ensures Stashed(Do(m, op, now), u, secret, until, now)
  {
  }

  lemma VerifyKeepsStashed(
      m: Entries, codeOf: CodeOf, v: string, key: string, given: string, now: int,
      u: string, secret: string, until: int)
    requires Stashed(m, u, secret, until, now)
    ensures Stashed(AfterVerify(m, codeOf, v, key, given, now), u, secret, until, now)
  {
    KeysDiffer(v, u, "");
    KeysDiffer(u, v, Trim(given));
    var replay := ReplayKey(v, Trim(given));
    var m1 := Do(m, Get(FailKey(v)), now);
    OpKeepsStashed(m, Get(FailKey(v)), now, u, secret, until);
    var m2 := Do(m1, Get(replay), now);
    OpKeepsStashed(m1, Get(replay), now, u, secret, until);
    OpKeepsStashed(m2, Increment(FailKey(v), Some(FAILURE_BUCKET_TTL_MS)), now, u, secret, until);
    var m3 := Do(m2, Delete(FailKey(v)), now);
    OpKeepsStashed(m2, Delete(FailKey(v)), now, u, secret, until);
    OpKeepsStashed(m3, Set(replay, Flag(true), Some(REPLAY_GUARD_MS)), now, u, secret, until);
  }

  /** Neither stashes nor takes a secret of the user. */
  predicate LeavesPending(step: Step, u: string) {
    !(step.Stash? && step.user == u) && !(step.Take? && step.user == u)
  }

  lemma StepKeepsStashed(codeOf: CodeOf, st: State, step: Step, u: string, secret: string, until: int)
    requires Stashed(st.entries, u, secret, until, st.now) && LeavesPending(step, u)
    ensures var st' := Apply(codeOf, st, step); Stashed(st'.entries, u, secret, until, st'.now)
  {
    match step
    case Tick(_) =>
    case Verify(v, key, given) => VerifyKeepsStashed(st.entries, codeOf, v, key, given, st.now, u, secret, until);
    case Stash(v, other) =>
      assert PendingKey(v)[12..] == v && PendingKey(u)[12..] == u;
      var stash := Set(PendingKey(v), Text(other), Some(PENDING_SECRET_TTL_MS));
      OpKeepsStashed(st.entries, stash, st.now, u, secret, until);
    case Take(v) =>
      assert PendingKey(v)[12..] == v && PendingKey(u)[12..] == u;
      OpKeepsStashed(st.entries, Get(PendingKey(v)), st.now, u, secret, until);
      OpKeepsStashed(Do(st.entries, Get(PendingKey(v)), st.now), Delete(PendingKey(v)), st.now, u, secret, until);
    case Other(op) =>
      assert "mfa:" <= PendingKey(u);
      if Foreign(op) {
        OpKeepsStashed(st.entries, op, st.now, u, secret, until);
      }
  }

  lemma {:induction false} RunKeepsStashed(
      codeOf: CodeOf, st: State, steps: seq<Step>, u: string, secret: string, until: int)
    requires Stashed(st.entries, u, secret, until, st.now)
    requires forall i | 0 <= i < |steps| :: LeavesPending(steps[i], u)
    ensures var st' := Run(codeOf, st, steps); Stashed(st'.entries, u, secret, until, st'.now)
    decreases |steps|
  {
    if steps != [] {
      StepKeepsStashed(codeOf, st, steps[0], u, secret, until);
      RunKeepsStashed(codeOf, Apply(codeOf, st, steps[0]), steps[1..], u, secret, until);
    }
  }

  lemma StashedShows(m: Entries, u: string, secret: string, until: int, now: int)
    requires Stashed(m, u, secret, until, now)
    ensures PendingSecret(m, u, now) == if now < until then Some(secret) else None
  {
  }

  lemma StashStarts(codeOf: CodeOf, st: State, u: string, secret: string)
    ensures var st1 := Apply(codeOf, st, Stash(u, secret)); Stashed(st1.entries, u, secret, st.now + 600_000, st1.now)
  {
  }

  lemma TakeClears(codeOf: CodeOf, st: State, u: string)
    ensures PendingSecret(Apply(codeOf, st, Take(u)).entries, u, st.now) == None
  {
  }

  /**
   * Whatever runs in between, a take returns the stashed secret exactly within ten minutes of
   * the stash, and a second take returns nothing.
   */
  lemma StashedIsTakenOnce(codeOf: CodeOf, st: State, u: string, secret: string, between: seq<Step>)
    requires forall i | 0 <= i < |between| :: LeavesPending(between[i], u)
    ensures var st' := Run(codeOf, Apply(codeOf, st, Stash(u, secret)), between);
            && PendingSecret(st'.entries, u, st'.now) ==
               (if st'.now < st.now + 600_000 then Some(secret) else None)
            && PendingSecret(Apply(codeOf, st', Take(u)).entries, u, st'.now) == None
  {
    var until := st.now + 600_000;
    var st1 := Apply(codeOf, st, Stash(u, secret));
    StashStarts(codeOf, st, u, secret);
    RunKeepsStashed(codeOf, st1, between, u, secret, until);
    var st' := Run(codeOf, st1, between);
    StashedShows(st'.entries, u, secret, until, st'.now);
    TakeClears(codeOf, st', u);
  }

  /**
   * What a verification leaves in the store: nothing new for a locked user, a cleared counter and
   * a guard of two minutes after an acceptance, and one failure more after a rejection.
   */
  ghost predicate Recorded(m: Entries, m': Entries, user: string, code: string, verdict: Verdict, now: int) {
    var seen := View(m, now);
    var fail, replay := "mfa:fail:" + user, "mfa:replay:" + user + ":" + code;
    match verdict
    case Locked => View(m', now) == seen
    case Accepted => View(m', now) == (seen - {fail})[replay := Entry(Flag(true), Some(now + 120_000))]
    case _ =>
      var failures := if fail in seen && seen[fail].value.Num? then seen[fail].value.n else 0;
      var expiresAt := if fail in seen && seen[fail].expiresAt.Some? then seen[fail].expiresAt else Some(now + 300_000);
      m' == m'[fail := Entry(Num(failures + 1), expiresAt)] && View(m', now) - {fail} == seen - {fail}
  }

  lemma AcceptanceRecorded(m: Entries, fail: string, replay: string, now: int)
    requires fail != replay
    ensures var m' := Do(Do(m, Delete(fail), now), Set(replay, Flag(true), Some(REPLAY_GUARD_MS)), now);
            View(m', now) == (View(m, now) - {fail})[replay := Entry(Flag(true), Some(now + 120_000))]
  {
  }

  lemma FailureRecorded(m: Entries, fail: string, now: int)
    ensures var seen := View(m, now);
            var m' := Do(m, Increment(fail, Some(FAILURE_BUCKET_TTL_MS)), now);
            var failures := if fail in seen && seen[fail].value.Num? then seen[fail].value.n else 0;
            var expiresAt := if fail in seen && seen[fail].expiresAt.Some? then seen[fail].expiresAt
                             else Some(now + 300_000);
            m' == m'[fail := Entry(Num(failures + 1), expiresAt)] && View(m', now) - {fail} == seen - {fail}
  {
  }

  lemma VerifyRecords(m: Entries, codeOf: CodeOf, u: string, secret: string, code: string, now: int)
    ensures Recorded(m, AfterVerify(m, codeOf, u, secret, code, now), u, Trim(code),
                     VerdictOf(m, codeOf, u, secret, code, now), now)
  {
    var fail, replay := FailKey(u), ReplayKey(u, Trim(code));
    KeysDiffer(u, u, Trim(code));
    var m1 := Do(m, Get(fail), now);
    GetKeepsView(m, fail, now);
    var m2 := Do(m1, Get(replay), now);
    GetKeepsView(m1, replay, now);
    match VerdictOf(m, codeOf, u, secret, code, now)
    case Locked =>
    case Accepted => AcceptanceRecorded(m2, fail, replay, now);
    case _ => FailureRecorded(m2, fail, now);
  }

  /** The verdict, spelled out: five visible failures lock, and a code of a neighbouring step is accepted once. */
  lemma VerdictIff(m: Entries, codeOf: CodeOf, u: string, secret: string, code: string, now: int)
    ensures var seen := View(m, now);
            var fail, replay := "mfa:fail:" + u, "mfa:replay:" + u + ":" + Trim(code);
            var failures := if fail in seen && seen[fail].value.Num? then seen[fail].value.n else 0;
            var valid := Trim(code) in {codeOf(secret, now / 30_000 - 1), codeOf(secret, now / 30_000),
                                        codeOf(secret, now / 30_000 + 1)};
            VerdictOf(m, codeOf, u, secret, code, now) ==
            if failures >= 5 then Locked
            else if replay !in seen && valid then Accepted
            else if failures == 4 then RejectedAndLocked else Rejected
  {
  }

  // ----------------------------------------------------------------- the trimmed code

  predicate Blank(s: string) {
    forall i | 0 <= i < |s| :: IsSpace(s[i])
  }

  /** Blanks around a code do not matter, and nothing else is trimmed. */
  lemma {:induction false} TrimDropsBlanks(before: string, s: string, after: string)
    requires Blank(before) && Blank(after)
    requires s == [] || (!IsSpace(s[0]) && !IsSpace(s[|s| - 1]))
    ensures Trim(before + s + after) == s
    decreases |before| + |after|
  {
    var all := before + s + after;
    if before != [] {
      assert all[1..] == before[1..] + s + after;
      TrimDropsBlanks(before[1..], s, after);
    } else if after != [] && s != [] {
      assert all[0] == s[0] && all[..|all| - 1] == before + s + after[..|after| - 1];
      TrimDropsBlanks(before, s, after[..|after| - 1]);
    } else if after != [] {
      assert all[1..] == before + s + after[1..] && all[0] == after[0];
      TrimDropsBlanks(before, s, after[1..]);
    } else {
      assert all == s;
    }
  }

  class TotpService {
    const store: InMemorySharedStore
    const codeOf: CodeOf

    constructor (store: InMemorySharedStore, codeOf: CodeOf)
      ensures this.store == store && this.codeOf == codeOf
    {
      this.store, this.codeOf := store, codeOf;
    }

    /** A take returns the secret from now on for ten minutes; no other entry changes. */
    method StashPendingSecret(user: string, secret: string, now: int)
      modifies store
      ensures store.entries == Apply(codeOf, State(old(store.entries), now), Stash(user, secret)).entries
      ensures forall t :: PendingSecret(store.entries, user, t) == if t < now + 600_000 then Some(secret) else None
      ensures store.entries - {PendingKey(user)} == old(store.entries) - {PendingKey(user)}
    {
      store.SetValue(PendingKey(user), Text(secret), Some(PENDING_SECRET_TTL_MS), now);
    }

    /** A pending secret can be taken once, and only until it expires. */
    method TakePendingSecret(user: string, now: int) returns (secret: Option<string>)
      modifies store
      ensures store.entries == Apply(codeOf, State(old(store.entries), now), Take(user)).entries
      ensures PendingKey(user) !in store.entries
      ensures secret == PendingSecret(old(store.entries), user, now)
    {
      var stored := store.GetValue(PendingKey(user), now);
      store.DeleteKey(PendingKey(user));
      return match stored case Some(Text(s)) => Some(s) case _ => None;
    }

    /** True when the user may not try. */
    method IsLocked(user: string, now: int) returns (locked: bool)
      modifies store
      ensures store.entries == Do(old(store.entries), Get(FailKey(user)), now)
      ensures locked <==> Failures(old(store.entries), user, now) >= MAX_MFA_FAILURES
    {
      var failures := store.GetValue(FailKey(user), now);
      return failures.Some? && failures.value.Num? && failures.value.n >= MAX_MFA_FAILURES;
    }

    method VerifyCode(user: string, secret: string, code: string, now: int) returns (verdict: Verdict)
      modifies store
      ensures verdict == VerdictOf(old(store.entries), codeOf, user, secret, code, now)
      ensures store.entries == Apply(codeOf, State(old(store.entries), now), Verify(user, secret, code)).entries
    {
      ghost var m := store.entries;
      GetKeepsView(m, FailKey(user), now);
      var locked := IsLocked(user, now);
      if locked {
        return Locked;
      }
      var normalized := Trim(code);
      ghost var m1 := store.entries;
      FailuresFromView(m, m1, user, now);
      GetKeepsView(m1, ReplayKey(user, normalized), now);
      var seen := store.GetValue(ReplayKey(user, normalized), now);
      var valid := seen.None? && Matches(codeOf, secret, normalized, now);
      if valid {
        store.DeleteKey(FailKey(user));
        store.SetValue(ReplayKey(user, normalized), Flag(true), Some(REPLAY_GUARD_MS), now);
        return Accepted;
      }
      FailuresFromView(m1, store.entries, user, now);
      verdict := RegisterFailure(user, now);
    }

    method RegisterFailure(user: string, now: int) returns (verdict: Verdict)
      modifies store
      ensures store.entries == Do(old(store.entries), Increment(FailKey(user), Some(FAILURE_BUCKET_TTL_MS)), now)
      ensures verdict == if Failures(old(store.entries), user, now) + 1 >= MAX_MFA_FAILURES
                         then RejectedAndLocked else Rejected
    {
      var failures := store.IncrementKey(FailKey(user), Some(FAILURE_BUCKET_TTL_MS), now);
      return if failures >= MAX_MFA_FAILURES then RejectedAndLocked else Rejected;
    }
  }
}
