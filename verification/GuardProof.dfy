/**
 * What the clock and the rows refuse for good: an expired refresh token is never rotated, and
 * the bearer guard never again admits an expired access token, a token of an expired session
 * or of a deleted user, or, until it is activated again, of an inactive one.
 */
module GuardProof {
  import opened Options
  import opened Sessions
  import opened SessionsProof

  // ------------------------------------------------------------ expired refresh tokens

  /** A call that read the token while it was valid and has not yet written its successor. */
  predicate InFlight(pc: Op, t: nat) {
    (pc.Consuming? || pc.Rotating? || pc.Minting?) && pc.token == t
  }

  /** The token is past its expiry, and no call read it before that. */
  ghost predicate Lapsed(st: State, t: nat) {
    && t < |st.tokens| && st.tokens[t].expiresAt <= st.now
    && forall o | o in st.ops :: !InFlight(st.ops[o], t)
  }

  /** The later state has a successor of the token that the earlier one has not. */
  ghost predicate Succeeds(st: State, st': State, t: nat) {
    exists i | |st.tokens| <= i < |st'.tokens| :: st'.tokens[i].parent == Some(t)
  }

  lemma AdvanceKeepsLapsed(st: State, op: nat, t: nat)
    requires op in st.ops && Lapsed(st, t)
    ensures Lapsed(Advance(st, op), t) && !Succeeds(st, Advance(st, op), t)
  {
    AdvanceRowsEvolve(st, op);
    AdvanceTouchesOneOp(st, op);
  }

  lemma StepKeepsLapsed(st: State, step: Step, t: nat)
    requires Lapsed(st, t)
    ensures Lapsed(Apply(st, step), t) && !Succeeds(st, Apply(st, step), t)
  {
    if step.Resume? {
      if step.op in st.ops {
        AdvanceKeepsLapsed(st, step.op, t);
      }
    } else {
      StepRowsEvolve(st, step);
      BeginAddsNoRows(st, step);
      assert forall o | o in Apply(st, step).ops && o !in st.ops :: !InFlight(Apply(st, step).ops[o], t);
    }
  }

  /** No run rotates an expired token that no call had read before it expired. */
  lemma {:induction false} LapsedNeverRotated(st: State, steps: seq<Step>, t: nat)
    requires Lapsed(st, t)
    ensures Lapsed(Run(st, steps), t) && !Succeeds(st, Run(st, steps), t)
    decreases |steps|
  {
    if steps != [] {
      var st1 := Apply(st, steps[0]);
      StepKeepsLapsed(st, steps[0], t);
      LapsedNeverRotated(st1, steps[1..], t);
      RunRowsEvolve(st1, steps[1..]);
    }
  }

  /** Presenting an expired token, undisturbed, ends the call at once: no row changes. */
  lemma LapsedIsRefused(st: State, op: nat, t: nat)
    requires op !in st.ops && t < |st.tokens| && TokenOk(st, t)
    requires !st.tokens[t].revoked && st.tokens[t].expiresAt <= st.now
    ensures Apply(Apply(st, Present(op, t)), Resume(op)) == st.(ops := st.ops[op := Done])
  {
    assert st.ops[op := Presented(t)][op := Done] == st.ops[op := Done];
  }

  // ------------------------------------------------------------------ the bearer guard

  /** The guard at one instant, spelled out over the rows. */
  lemma AdmittedIff(st: State, a: nat)
    requires Inv(st) && a < |st.access|
    ensures AccessOk(st, st.access[a])
    ensures var t := st.access[a];
            var user, session := st.users[t.user], st.sessions[t.session];
            TokenAdmitted(st, a) && UserAdmitted(st, a) && SessionAdmitted(st, a) <==>
            && st.now / 1000 < t.exp
            && (a in st.denied ==> st.denied[a] <= st.now)
            && !user.deleted && user.active && user.pwdVersion == t.pwdVersion
            && !session.revoked && st.now < session.expiresAt
  {
    assert AccessOk(st, st.access[a]);
  }

  /** Time and deletion only ever close: what they refuse now they refuse in every later state. */
  lemma RefusedForGood(st: State, rest: seq<Step>, a: nat)
    requires Inv(st) && a < |st.access|
    ensures AccessOk(st, st.access[a]) && a < |Run(st, rest).access|
    ensures st.access[a].exp <= st.now / 1000 ==> !TokenAdmitted(Run(st, rest), a)
    ensures st.users[st.access[a].user].deleted ==> !UserAdmitted(Run(st, rest), a)
    ensures st.sessions[st.access[a].session].expiresAt <= st.now ==> !SessionAdmitted(Run(st, rest), a)
  {
    assert AccessOk(st, st.access[a]);
    RunRowsEvolve(st, rest);
  }

  /** Steps that make the user active again. */
  predicate Activates(step: Step, u: nat) {
    (step.Reactivate? && step.user == u) || (step.ChangeTrust? && step.user == u && step.isActive == Some(true))
  }

  lemma {:induction false} InactiveStays(st: State, steps: seq<Step>, u: nat)
    requires u < |st.users| && !st.users[u].active
    requires forall i | 0 <= i < |steps| :: !Activates(steps[i], u)
    ensures u < |Run(st, steps).users| && !Run(st, steps).users[u].active
    decreases |steps|
  {
    if steps != [] {
      InactiveStep(st, steps[0], u);
      InactiveStays(Apply(st, steps[0]), steps[1..], u);
    }
  }

  lemma InactiveStep(st: State, step: Step, u: nat)
    requires u < |st.users| && !st.users[u].active && !Activates(step, u)
    ensures u < |Apply(st, step).users| && !Apply(st, step).users[u].active
  {
  }

  /** Until a step activates the user again, no token of an inactive user is admitted. */
  lemma InactiveLocksOut(st: State, steps: seq<Step>, u: nat, a: nat)
    requires u < |st.users| && !st.users[u].active && a < |Run(st, steps).access|
    requires Run(st, steps).access[a].user == u
    requires forall i | 0 <= i < |steps| :: !Activates(steps[i], u)
    ensures !UserAdmitted(Run(st, steps), a)
  {
    InactiveStays(st, steps, u);
  }
}
