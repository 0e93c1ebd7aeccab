/**
 * What every interleaving keeps: a session has at most one live refresh token or
 * rotation under way, a consumed token is never rotated twice and its re-use ends the
 * user's sessions, and no access token outlives the revocation of its session, a bump
 * of its user's pwdVersion, or its own logout.
 */
module SessionsProof {
  import opened Options
  import opened Sessions

  // ---------------------------------------------------------------- the invariant

  /** A call that has consumed its token and not yet written the successor. */
  predicate InRotation(pc: Op) {
    pc.Rotating? || pc.Minting?
  }

  ghost predicate SessionsOk(st: State) {
    forall i | 0 <= i < |st.sessions| :: st.sessions[i].user < |st.users|
  }

  ghost predicate TokenOk(st: State, i: nat)
    requires i < |st.tokens|
  {
    var row := st.tokens[i];
    && row.session < |st.sessions|
    && row.user == st.sessions[row.session].user
    && row.user < |st.users|
    && (row.parent.Some? ==>
          row.parent.value < i && st.tokens[row.parent.value].revoked &&
          st.tokens[row.parent.value].session == row.session)
  }

  ghost predicate TokensOk(st: State) {
    forall i: nat | i < |st.tokens| :: TokenOk(st, i)
  }

  ghost predicate AccessOk(st: State, a: Access) {
    && a.session < |st.sessions|
    && a.user == st.sessions[a.session].user
    && a.user < |st.users|
    && a.pwdVersion <= st.users[a.user].pwdVersion
    && a.exp <= st.now / 1000 + st.cfg.accessTtlSeconds
  }

  ghost predicate AccessesOk(st: State) {
    forall i | 0 <= i < |st.access| :: AccessOk(st, st.access[i])
  }

  ghost predicate OpOk(st: State, pc: Op) {
    match pc
    case Presented(t) => t < |st.tokens|
    case Consuming(t, u) =>
      t < |st.tokens| && st.tokens[t].user < |st.users| && u.pwdVersion <= st.users[st.tokens[t].user].pwdVersion
    case Rotating(t, u) =>
      t < |st.tokens| && st.tokens[t].user < |st.users| && u.pwdVersion <= st.users[st.tokens[t].user].pwdVersion &&
      st.tokens[t].revoked
    case Minting(t, u, _) =>
      t < |st.tokens| && st.tokens[t].user < |st.users| && u.pwdVersion <= st.users[st.tokens[t].user].pwdVersion &&
      st.tokens[t].revoked
    case LoggingIn(u, snapshot, _) => u < |st.users| && snapshot.pwdVersion <= st.users[u].pwdVersion
    case Signing(u, snapshot, s) =>
      u < |st.users| && snapshot.pwdVersion <= st.users[u].pwdVersion && s < |st.sessions| && st.sessions[s].user == u
    case LoggingOut(a, ttl) => a < |st.access| && 1000 * st.access[a].exp <= st.now + ttl
    case Denying(a, ttl) => a < |st.access| && 1000 * st.access[a].exp <= st.now + ttl
    case _ => true
  }

  ghost predicate OpsOk(st: State) {
    forall o | o in st.ops :: OpOk(st, st.ops[o])
  }

  /** A denylist entry lasts at least as long as the token it denies. */
  ghost predicate DeniedOk(st: State) {
    forall a | a in st.denied :: a < |st.access| && 1000 * st.access[a].exp <= st.denied[a]
  }

  ghost predicate Sound(st: State) {
    SessionsOk(st) && TokensOk(st) && AccessesOk(st) && OpsOk(st) && DeniedOk(st)
  }

  /** Two live tokens are of different sessions. */
  ghost predicate TokensApart(st: State) {
    forall i, j | 0 <= i < j < |st.tokens| ::
      !st.tokens[i].revoked && !st.tokens[j].revoked ==> st.tokens[i].session != st.tokens[j].session
  }

  /** Two rotations under way are of different sessions. */
  ghost predicate RotationsApart(st: State) {
    forall o, p | o in st.ops && p in st.ops && o != p && InRotation(st.ops[o]) && InRotation(st.ops[p]) ::
      st.ops[o].token < |st.tokens| && st.ops[p].token < |st.tokens| &&
      st.tokens[st.ops[o].token].session != st.tokens[st.ops[p].token].session
  }

  /** A session with a rotation under way has no live token. */
  ghost predicate RotationAlone(st: State) {
    forall i, o | 0 <= i < |st.tokens| && o in st.ops && InRotation(st.ops[o]) && !st.tokens[i].revoked ::
      st.ops[o].token < |st.tokens| && st.tokens[i].session != st.tokens[st.ops[o].token].session
  }

  /** No two of a session's live tokens and rotations under way coexist. */
  ghost predicate Exclusive(st: State) {
    TokensApart(st) && RotationsApart(st) && RotationAlone(st)
  }

  /** Each token has at most one successor, written or still to be written. */
  ghost predicate Lineage(st: State) {
    && (forall i, j | 0 <= i < j < |st.tokens| ::
          st.tokens[i].parent.Some? ==> st.tokens[i].parent != st.tokens[j].parent)
    && (forall i, o | 0 <= i < |st.tokens| && o in st.ops && InRotation(st.ops[o]) ::
          st.tokens[i].parent != Some(st.ops[o].token))
  }

  ghost predicate Inv(st: State) {
    Sound(st) && Exclusive(st) && Lineage(st)
  }

  // ---------------------------------------------------- one step, then every run

  /** Rows only gain revocations and successors; the other columns never change. */
  ghost predicate RowsEvolve(st: State, st': State) {
    && st.cfg == st'.cfg
    && st.now <= st'.now
    && |st.users| <= |st'.users|
    && (forall u | 0 <= u < |st.users| ::
          st.users[u].pwdVersion <= st'.users[u].pwdVersion && (st.users[u].deleted ==> st'.users[u].deleted))
    && |st.sessions| <= |st'.sessions|
    && (forall i | 0 <= i < |st.sessions| ::
          && st'.sessions[i].user == st.sessions[i].user
          && st'.sessions[i].expiresAt == st.sessions[i].expiresAt
          && (st.sessions[i].revoked ==> st'.sessions[i].revoked))
    && |st.tokens| <= |st'.tokens|
    && (forall i | 0 <= i < |st.tokens| ::
          && st'.tokens[i].user == st.tokens[i].user
          && st'.tokens[i].session == st.tokens[i].session
          && st'.tokens[i].parent == st.tokens[i].parent
          && st'.tokens[i].expiresAt == st.tokens[i].expiresAt
          && (st.tokens[i].revoked ==> st'.tokens[i].revoked))
    && |st.access| <= |st'.access|
    && (forall a | 0 <= a < |st.access| :: st'.access[a] == st.access[a])
    && (forall a | a in st.denied :: a in st'.denied)
  }

  /** Segments that only add rows or change no row. */
  lemma GrowingRowsEvolve(st: State, op: nat)
    requires op in st.ops
    requires !(st.ops[op].Consuming? || st.ops[op].Punishing? || st.ops[op].LoggingOut? || st.ops[op].DroppingTokens?)
    ensures RowsEvolve(st, Advance(st, op))
  {
  }

  lemma AdvanceRowsEvolve(st: State, op: nat)
    requires op in st.ops
    ensures RowsEvolve(st, Advance(st, op))
  {
  }

  lemma AdvanceTouchesOneOp(st: State, op: nat)
    requires op in st.ops
    ensures forall o | o in Advance(st, op).ops && o != op :: o in st.ops && Advance(st, op).ops[o] == st.ops[o]
  {
  }

  lemma StepRowsEvolve(st: State, step: Step)
    ensures RowsEvolve(st, Apply(st, step))
  {
    match step
    case Resume(op) => if op in st.ops { AdvanceRowsEvolve(st, op); }
    case ChangeTrust(op, u, deny, isActive) => TrustStepEvolves(st, step);
    case Deactivate(op, u, deny) => TrustStepEvolves(st, step);
    case _ => PlainStepEvolves(st, step);
  }

  lemma TrustStepEvolves(st: State, step: Step)
    requires step.ChangeTrust? || step.Deactivate?
    ensures RowsEvolve(st, Apply(st, step))
  {
    var st' := Apply(st, step);
    if st' != st {
      var all := RevokeAll(st, step.user);
      assert st'.sessions == all.sessions && st'.tokens == all.tokens && st'.access == st.access;
      assert st'.denied == st.denied && st'.now == st.now && st'.cfg == st.cfg && |st'.users| == |st.users|;
    }
  }

  lemma PlainStepEvolves(st: State, step: Step)
    requires !step.Resume? && !step.ChangeTrust? && !step.Deactivate?
    ensures RowsEvolve(st, Apply(st, step))
  {
  }

  // ------------------------------------------------------- soundness of the rows

  lemma OldRowsStayOk(st: State, st': State)
    requires Sound(st) && RowsEvolve(st, st')
    ensures forall i | 0 <= i < |st.sessions| :: st'.sessions[i].user < |st'.users|
    ensures forall i: nat | i < |st.tokens| :: TokenOk(st', i)
    ensures forall i | 0 <= i < |st.access| :: AccessOk(st', st'.access[i])
    ensures forall a | a in st.denied :: a < |st'.access| && 1000 * st'.access[a].exp <= st.denied[a]
  {
    forall i: nat | i < |st.tokens| ensures TokenOk(st', i) {
      assert TokenOk(st, i);
    }
    forall i | 0 <= i < |st.access| ensures AccessOk(st', st'.access[i]) {
      assert AccessOk(st, st.access[i]);
    }
  }

  lemma OldOpsStayOk(st: State, st': State)
    requires Sound(st) && RowsEvolve(st, st')
    ensures forall o | o in st.ops :: OpOk(st', st.ops[o])
  {
  }

  /** What a resumed call leaves in flight is in order. */
  lemma AdvancedOpOk(st: State, op: nat)
    requires Sound(st) && op in st.ops
    ensures OpOk(Advance(st, op), Advance(st, op).ops[op])
  {
    assert OpOk(st, st.ops[op]);
    match st.ops[op]
    case Presented(t) => assert TokenOk(st, t);
    case Minting(t, u, expiresAt) => assert TokenOk(st, t);
    case _ =>
  }

  predicate AddsRows(pc: Op) {
    pc.Minting? || pc.LoggingIn? || pc.Signing? || pc.Denying?
  }

  lemma QuietAdvance(st: State, op: nat)
    requires op in st.ops && !AddsRows(st.ops[op])
    ensures var st' := Advance(st, op);
            |st'.sessions| == |st.sessions| && |st'.tokens| == |st.tokens| && |st'.access| == |st.access| &&
            st'.denied == st.denied
  {
  }

  lemma MintedRowsOk(st: State, op: nat)
    requires Sound(st) && op in st.ops && st.ops[op].Minting?
    ensures var st' := Advance(st, op); SessionsOk(st') && TokensOk(st') && AccessesOk(st') && DeniedOk(st')
  {
    var st' := Advance(st, op);
    GrowingRowsEvolve(st, op);
    OldRowsStayOk(st, st');
    assert OpOk(st, st.ops[op]) && TokenOk(st, st.ops[op].token);
    assert TokenOk(st', |st.tokens|);
  }

  lemma OpenedRowsOk(st: State, op: nat)
    requires Sound(st) && op in st.ops && st.ops[op].LoggingIn?
    ensures var st' := Advance(st, op); SessionsOk(st') && TokensOk(st') && AccessesOk(st') && DeniedOk(st')
  {
    var st' := Advance(st, op);
    GrowingRowsEvolve(st, op);
    OldRowsStayOk(st, st');
    assert OpOk(st, st.ops[op]);
    assert TokenOk(st', |st.tokens|);
  }

  /** The rows a resumed call adds are in order. */
  lemma AdvancedRowsOk(st: State, op: nat)
    requires Sound(st) && op in st.ops
    ensures var st' := Advance(st, op); SessionsOk(st') && TokensOk(st') && AccessesOk(st') && DeniedOk(st')
  {
    var st' := Advance(st, op);
    assert OpOk(st, st.ops[op]);
    if st.ops[op].Minting? {
      MintedRowsOk(st, op);
    } else if st.ops[op].LoggingIn? {
      OpenedRowsOk(st, op);
    } else {
      AdvanceRowsEvolve(st, op);
      OldRowsStayOk(st, st');
      if st.ops[op].Signing? {
        assert AccessOk(st', st'.access[|st.access|]);
      } else if !st.ops[op].Denying? {
        QuietAdvance(st, op);
      }
    }
  }

  lemma AdvanceKeepsSound(st: State, op: nat)
    requires Sound(st) && op in st.ops
    ensures Sound(Advance(st, op))
  {
    var st' := Advance(st, op);
    AdvanceRowsEvolve(st, op);
    AdvancedRowsOk(st, op);
    assert OpsOk(st') by {
      AdvancedOpOk(st, op);
      OldOpsStayOk(st, st');
      AdvanceTouchesOneOp(st, op);
    }
  }

  /** A call that has just begun is in order. */
  lemma NewOpOk(st: State, step: Step)
    requires Sound(st) && !step.Resume? && !step.ChangeTrust? && !step.Deactivate?
    ensures forall o | o in Apply(st, step).ops && o !in st.ops :: OpOk(Apply(st, step), Apply(st, step).ops[o])
  {
  }

  lemma NewTrustOpOk(st: State, step: Step)
    requires Sound(st) && (step.ChangeTrust? || step.Deactivate?)
    ensures forall o | o in Apply(st, step).ops && o !in st.ops :: OpOk(Apply(st, step), Apply(st, step).ops[o])
  {
  }

  lemma BeginAddsNoRows(st: State, step: Step)
    requires !step.Resume?
    ensures var st' := Apply(st, step);
            && |st'.sessions| == |st.sessions| && |st'.tokens| == |st.tokens| && |st'.access| == |st.access|
            && st'.denied == st.denied
            && forall o | o in st'.ops && o in st.ops :: st'.ops[o] == st.ops[o]
  {
  }

  lemma StepKeepsSound(st: State, step: Step)
    requires Sound(st)
    ensures Sound(Apply(st, step))
  {
    if step.Resume? {
      if step.op in st.ops {
        AdvanceKeepsSound(st, step.op);
      }
    } else {
      var st' := Apply(st, step);
      StepRowsEvolve(st, step);
      OldRowsStayOk(st, st');
      BeginAddsNoRows(st, step);
      assert OpsOk(st') by {
        OldOpsStayOk(st, st');
        if step.ChangeTrust? || step.Deactivate? {
          NewTrustOpOk(st, step);
        } else {
          NewOpOk(st, step);
        }
      }
    }
  }

  // --------------------------------------------------- one holder, one successor

  /** Revoking tokens and ending rotations can only free a session. */
  lemma FewerHolders(st: State, st': State)
    requires Sound(st) && Exclusive(st) && Lineage(st) && RowsEvolve(st, st') && NoNewHolder(st, st')
    ensures Exclusive(st') && Lineage(st')
  {
  }

  /** Nothing holds the session: no live token of it, no rotation for it. */
  ghost predicate Free(st: State, s: nat, except: nat) {
    && (forall i | 0 <= i < |st.tokens| && !st.tokens[i].revoked :: st.tokens[i].session != s)
    && (forall o | o in st.ops && o != except && InRotation(st.ops[o]) ::
          st.ops[o].token < |st.tokens| && st.tokens[st.ops[o].token].session != s)
  }

  /** Calls other than `op` are as they were, and `op` is not rotating. */
  ghost predicate RotationsKept(st: State, st': State, op: nat) {
    forall o | o in st'.ops && InRotation(st'.ops[o]) :: o != op && o in st.ops && st'.ops[o] == st.ops[o]
  }

  /** A new live token on a session nothing else holds. */
  lemma NewTokenKeepsExclusive(st: State, st': State, op: nat, row: Refresh)
    requires Exclusive(st) && OpsOk(st) && st'.tokens == st.tokens + [row]
    requires RotationsKept(st, st', op) && Free(st, row.session, op)
    ensures Exclusive(st')
  {
  }

  lemma NewTokenKeepsLineage(st: State, st': State, op: nat, row: Refresh)
    requires Lineage(st) && OpsOk(st) && st'.tokens == st.tokens + [row] && RotationsKept(st, st', op)
    requires row.parent.Some? ==>
               && (forall i | 0 <= i < |st.tokens| :: st.tokens[i].parent != row.parent)
               && (forall o | o in st'.ops && InRotation(st'.ops[o]) :: Some(st'.ops[o].token) != row.parent)
    ensures Lineage(st')
  {
  }

  lemma MintKeepsHolders(st: State, op: nat, t: nat, u: User, expiresAt: int)
    requires Inv(st) && op in st.ops && st.ops[op] == Minting(t, u, expiresAt)
    ensures Exclusive(Mint(st, op, t, u, expiresAt)) && Lineage(Mint(st, op, t, u, expiresAt))
  {
    var st' := Mint(st, op, t, u, expiresAt);
    assert OpOk(st, st.ops[op]);
    var row := Refresh(st.tokens[t].user, st.tokens[t].session, false, expiresAt, Some(t));
    NewTokenKeepsExclusive(st, st', op, row);
    forall o | o in st'.ops && InRotation(st'.ops[o]) ensures st'.ops[o].token != t {
      assert o != op && InRotation(st.ops[op]);
    }
    NewTokenKeepsLineage(st, st', op, row);
  }

  lemma OpenSessionKeepsHolders(st: State, op: nat, u: nat, snapshot: User, expiresAt: int)
    requires Inv(st) && op in st.ops && st.ops[op] == LoggingIn(u, snapshot, expiresAt)
    ensures var st' := OpenSession(st, op, u, snapshot, expiresAt); Exclusive(st') && Lineage(st')
  {
    var st' := OpenSession(st, op, u, snapshot, expiresAt);
    var row := Refresh(u, |st.sessions|, false, expiresAt, None);
    assert Free(st, |st.sessions|, op) by {
      forall i: nat | i < |st.tokens| ensures st.tokens[i].session < |st.sessions| {
        assert TokenOk(st, i);
      }
      forall o | o in st.ops && InRotation(st.ops[o]) ensures st.ops[o].token < |st.tokens| {
        assert OpOk(st, st.ops[o]);
      }
    }
    NewTokenKeepsExclusive(st, st', op, row);
    NewTokenKeepsLineage(st, st', op, row);
  }

  /** The winner of the conditional update takes over the session from its token. */
  lemma WinnerKeepsExclusive(st: State, st': State, op: nat, t: nat, u: User)
    requires Exclusive(st) && OpsOk(st) && t < |st.tokens| && !st.tokens[t].revoked
    requires st'.tokens == st.tokens[t := st.tokens[t].(revoked := true)] && st'.ops == st.ops[op := Rotating(t, u)]
    ensures Exclusive(st')
  {
  }

  lemma WinnerKeepsLineage(st: State, st': State, op: nat, t: nat, u: User)
    requires Lineage(st) && TokensOk(st) && t < |st.tokens| && !st.tokens[t].revoked
    requires st'.tokens == st.tokens[t := st.tokens[t].(revoked := true)] && st'.ops == st.ops[op := Rotating(t, u)]
    ensures Lineage(st')
  {
    forall i: nat | i < |st.tokens|
      ensures st.tokens[i].parent != Some(t) && st'.tokens[i].parent == st.tokens[i].parent
    {
      assert TokenOk(st, i);
    }
  }

  lemma ConsumeKeepsHolders(st: State, op: nat, t: nat, u: User)
    requires Inv(st) && op in st.ops && st.ops[op] == Consuming(t, u)
    ensures Exclusive(Consume(st, op, t, u)) && Lineage(Consume(st, op, t, u))
  {
    var st' := Consume(st, op, t, u);
    assert OpOk(st, st.ops[op]);
    if st.tokens[t].revoked || !Usable(u) {
      AdvanceRowsEvolve(st, op);
      FewerHolders(st, st');
    } else {
      WinnerKeepsExclusive(st, st', op, t, u);
      WinnerKeepsLineage(st, st', op, t, u);
    }
  }

  /** Only consuming, minting and opening a session give a session a new holder. */
  ghost predicate NoNewHolder(st: State, st': State) {
    && |st'.tokens| == |st.tokens|
    && forall o | o in st'.ops && InRotation(st'.ops[o]) ::
         o in st.ops && InRotation(st.ops[o]) && st.ops[o].token == st'.ops[o].token
  }

  lemma AdvanceNoNewHolder(st: State, op: nat)
    requires op in st.ops && !st.ops[op].Consuming? && !st.ops[op].Minting? && !st.ops[op].LoggingIn?
    ensures NoNewHolder(st, Advance(st, op))
  {
  }

  lemma BeginNoNewHolder(st: State, step: Step)
    requires !step.Resume?
    ensures NoNewHolder(st, Apply(st, step))
  {
  }

  lemma StepKeepsHolders(st: State, step: Step)
    requires Inv(st)
    ensures Exclusive(Apply(st, step)) && Lineage(Apply(st, step))
  {
    if step.Resume? && step.op in st.ops && st.ops[step.op].Consuming? {
      ConsumeKeepsHolders(st, step.op, st.ops[step.op].token, st.ops[step.op].snapshot);
    } else if step.Resume? && step.op in st.ops && st.ops[step.op].Minting? {
      MintKeepsHolders(st, step.op, st.ops[step.op].token, st.ops[step.op].snapshot, st.ops[step.op].expiresAt);
    } else if step.Resume? && step.op in st.ops && st.ops[step.op].LoggingIn? {
      OpenSessionKeepsHolders(st, step.op, st.ops[step.op].user, st.ops[step.op].snapshot, st.ops[step.op].expiresAt);
    } else {
      StepRowsEvolve(st, step);
      if step.Resume? && step.op in st.ops {
        AdvanceNoNewHolder(st, step.op);
      } else if !step.Resume? {
        BeginNoNewHolder(st, step);
      }
      FewerHolders(st, Apply(st, step));
    }
  }

  lemma StepKeepsInv(st: State, step: Step)
    requires Inv(st)
    ensures Inv(Apply(st, step))
  {
    StepKeepsSound(st, step);
    StepKeepsHolders(st, step);
  }

  lemma {:induction false} RunKeepsInv(st: State, steps: seq<Step>)
    requires Inv(st)
    ensures Inv(Run(st, steps))
    decreases |steps|
  {
    if steps != [] {
      StepKeepsInv(st, steps[0]);
      RunKeepsInv(Apply(st, steps[0]), steps[1..]);
    }
  }

  lemma {:induction false} RunRowsEvolve(st: State, steps: seq<Step>)
    ensures RowsEvolve(st, Run(st, steps))
    decreases |steps|
  {
    if steps != [] {
      StepRowsEvolve(st, steps[0]);
      RunRowsEvolve(Apply(st, steps[0]), steps[1..]);
    }
  }

  lemma Reachable(init: State, steps: seq<Step>)
    requires Init(init)
    ensures Inv(Run(init, steps))
  {
    RunKeepsInv(init, steps);
  }

  // ------------------------------------------------------------ rotation and re-use

  datatype Holder = Row(token: nat) | Rotation(op: nat)

  /** A session's live refresh tokens together with its rotations past their consume. */
  ghost function Holders(st: State, s: nat): set<Holder> {
    (set i: nat | i < |st.tokens| && !st.tokens[i].revoked && st.tokens[i].session == s :: Row(i)) +
    (set o | o in st.ops && InRotation(st.ops[o]) && st.ops[o].token < |st.tokens| &&
             st.tokens[st.ops[o].token].session == s :: Rotation(o))
  }

  /** In every interleaving a session has at most one holder. */
  lemma OneHolderPerSession(init: State, steps: seq<Step>, s: nat)
    requires Init(init)
    ensures |Holders(Run(init, steps), s)| <= 1
  {
    Reachable(init, steps);
    var st := Run(init, steps);
    var hs := Holders(st, s);
    forall x, y | x in hs && y in hs ensures x == y {
      if x.Row? && y.Row? {
        assert x.token == y.token;
      }
    }
    if hs != {} {
      var x :| x in hs;
      assert hs == {x};
    }
  }

  /** In every interleaving a token has at most one successor, and only once it is consumed. */
  lemma OneSuccessorPerToken(init: State, steps: seq<Step>, t: nat, i: nat)
    requires Init(init)
    requires var st := Run(init, steps); i < |st.tokens| && st.tokens[i].parent == Some(t)
    ensures var st := Run(init, steps);
            && t < i && st.tokens[t].revoked && st.tokens[t].session == st.tokens[i].session
            && (forall j | 0 <= j < |st.tokens| && st.tokens[j].parent == Some(t) :: j == i)
            && (forall o | o in st.ops && InRotation(st.ops[o]) :: st.ops[o].token != t)
  {
    Reachable(init, steps);
    assert TokenOk(Run(init, steps), i);
  }

  /** A call on a consumed token is bound to revoke the first `n` sessions and `m` tokens of `u`. */
  ghost predicate Owes(st: State, op: nat, u: nat, n: nat, m: nat) {
    && op in st.ops
    && n <= |st.sessions| && m <= |st.tokens|
    && match st.ops[op]
       case Presented(t) => t < |st.tokens| && st.tokens[t].revoked && st.tokens[t].user == u && u < |st.users|
       case Consuming(t, _) => t < |st.tokens| && st.tokens[t].revoked && st.tokens[t].user == u
       case Punishing(v) => v == u
       case Done =>
         && (forall i | 0 <= i < n && st.sessions[i].user == u :: st.sessions[i].revoked)
         && (forall i | 0 <= i < m && st.tokens[i].user == u :: st.tokens[i].revoked)
       case _ => false
  }

  lemma OtherStepsKeepOp(st: State, step: Step, op: nat)
    requires op in st.ops && step != Resume(op)
    ensures op in Apply(st, step).ops && Apply(st, step).ops[op] == st.ops[op]
  {
    if step.Resume? && step.op in st.ops {
      AdvanceKeepsOtherOps(st, step.op, op);
    }
  }

  lemma AdvanceKeepsOtherOps(st: State, op: nat, other: nat)
    requires op in st.ops && other in st.ops && op != other
    ensures other in Advance(st, op).ops && Advance(st, op).ops[other] == st.ops[other]
  {
  }

  lemma StepKeepsOwes(st: State, step: Step, op: nat, u: nat, n: nat, m: nat)
    requires Owes(st, op, u, n, m)
    ensures Owes(Apply(st, step), op, u, n, m)
  {
    StepRowsEvolve(st, step);
    if step != Resume(op) {
      OtherStepsKeepOp(st, step, op);
    }
  }

  lemma {:induction false} RunKeepsOwes(st: State, steps: seq<Step>, op: nat, u: nat, n: nat, m: nat)
    requires Owes(st, op, u, n, m)
    ensures Owes(Run(st, steps), op, u, n, m)
    decreases |steps|
  {
    if steps != [] {
      StepKeepsOwes(st, steps[0], op, u, n, m);
      RunKeepsOwes(Apply(st, steps[0]), steps[1..], op, u, n, m);
    }
  }

  /**
   * A refresh call that presents a consumed token, or that loses the race to consume it,
   * finishes only after revoking every session and refresh token its user had at any
   * instant before the call's revocation.
   */
  lemma ReuseEndsSessions(init: State, before: seq<Step>, op: nat, rest: seq<Step>)
    requires Init(init)
    requires var st := Run(init, before);
             && op in st.ops
             && (st.ops[op].Presented? || st.ops[op].Consuming?)
             && st.ops[op].token < |st.tokens| && st.tokens[st.ops[op].token].revoked
    requires Run(Run(init, before), rest).ops.Keys >= {op} && Run(Run(init, before), rest).ops[op] == Done
    ensures var st := Run(init, before);
            var st' := Run(st, rest);
            var u := st.tokens[st.ops[op].token].user;
            && |st.sessions| <= |st'.sessions| && |st.tokens| <= |st'.tokens|
            && (forall i | 0 <= i < |st.sessions| && st.sessions[i].user == u :: st'.sessions[i].revoked)
            && (forall i | 0 <= i < |st.tokens| && st.tokens[i].user == u :: st'.tokens[i].revoked)
  {
    Reachable(init, before);
    var st := Run(init, before);
    var t := st.ops[op].token;
    assert TokenOk(st, t);
    RunKeepsOwes(st, rest, op, st.tokens[t].user, |st.sessions|, |st.tokens|);
    RunRowsEvolve(st, rest);
  }

  /** A call about to revoke everything revokes all that exists at that instant, for good. */
  lemma PunishmentIsTotal(st: State, op: nat, rest: seq<Step>, i: nat)
    requires op in st.ops && st.ops[op].Punishing?
    requires i < |st.sessions| && st.sessions[i].user == st.ops[op].user
    ensures var st' := Run(Apply(st, Resume(op)), rest); i < |st'.sessions| && st'.sessions[i].revoked
  {
    RunRowsEvolve(Apply(st, Resume(op)), rest);
  }

  /** A refresh call that nothing else interrupts. */
  function RefreshAlone(st: State, op: nat, t: nat): State {
    var consumed := Apply(Apply(Apply(st, Present(op, t)), Resume(op)), Resume(op));
    Apply(Apply(Apply(consumed, Resume(op)), Resume(op)), Resume(op))
  }

  /** An undisturbed refresh rotates the token and signs for the current pwdVersion. */
  lemma RefreshRotates(st: State, op: nat, t: nat)
    requires Inv(st) && op !in st.ops && t < |st.tokens| && !st.tokens[t].revoked && st.now < st.tokens[t].expiresAt
    requires TokenOk(st, t) && Usable(st.users[st.tokens[t].user]) && !st.sessions[st.tokens[t].session].revoked
    ensures var st' := RefreshAlone(st, op, t);
            var row := st.tokens[t];
            && op in st'.ops && st'.ops[op] == Done
            && |st'.tokens| == |st.tokens| + 1 && st'.tokens[t].revoked
            && st'.tokens[|st.tokens|].parent == Some(t) && !st'.tokens[|st.tokens|].revoked
            && st'.tokens[|st.tokens|].expiresAt ==
               (if st.sessions[row.session].expiresAt <= st.now then st.sessions[row.session].expiresAt
                else st.now + st.cfg.refreshTtlMs)
            && st'.access == st.access + [Access(row.user, row.session, st.users[row.user].pwdVersion,
                                                 st.now / 1000 + st.cfg.accessTtlSeconds)]
  {
  }

  /** A login that nothing else interrupts. */
  function LoginAlone(st: State, op: nat, u: nat): State {
    Apply(Apply(Apply(st, Login(op, u)), Resume(op)), Resume(op))
  }

  /** A login opens one session with one live token, and the guard admits its access token. */
  lemma LoginIsAdmitted(st: State, op: nat, u: nat)
    requires Inv(st) && op !in st.ops && u < |st.users| && Usable(st.users[u])
    requires st.cfg.accessTtlSeconds > 0 && st.cfg.refreshTtlMs > 0
    ensures var st' := LoginAlone(st, op, u);
            var a := |st.access|;
            && TokenAdmitted(st', a) && UserAdmitted(st', a) && SessionAdmitted(st', a)
            && st'.access[a].session == |st.sessions|
            && Holders(st', |st.sessions|) == {Row(|st.tokens|)}
  {
    var s1 := Apply(st, Login(op, u));
    var s2 := Apply(s1, Resume(op));
    var st' := Apply(s2, Resume(op));
    assert s2.ops[op] == Signing(u, st.users[u], |st.sessions|);
    assert st'.tokens == st.tokens + [Refresh(u, |st.sessions|, false, st.now + st.cfg.refreshTtlMs, None)];
    forall i: nat | i < |st.tokens| ensures st.tokens[i].session < |st.sessions| {
      assert TokenOk(st, i);
    }
    forall o | o in st'.ops && InRotation(st'.ops[o]) ensures st'.ops[o].token < |st.tokens| {
      assert OpOk(st, st.ops[o]);
    }
    assert Row(|st.tokens|) in Holders(st', |st.sessions|);
  }

  // ------------------------------------------------------------------- the guard

  /** Once a session is revoked no token of it, old or signed later, is ever admitted. */
  lemma RevokedSessionLocksOut(st: State, rest: seq<Step>, a: nat)
    requires a < |Run(st, rest).access|
    requires var s := Run(st, rest).access[a].session; s < |st.sessions| && st.sessions[s].revoked
    ensures !SessionAdmitted(Run(st, rest), a)
  {
    RunRowsEvolve(st, rest);
  }

  /**
   * After a change of trust the guard admits a token of that user only if the session was
   * opened after the change and the signer read the user row after it. So neither a token
   * signed earlier, nor one signed later by a refresh already in flight, passes again. The
   * guard's two reads may be any distance apart.
   */
  lemma TrustChangeLocksOut(
      init: State, before: seq<Step>, op: nat, u: nat, deny: Option<nat>, isActive: Option<bool>,
      toUserRead: seq<Step>, toSessionRead: seq<Step>, a: nat)
    requires Init(init)
    requires op !in Run(init, before).ops && u < |Run(init, before).users|
    requires var st1 := Apply(Run(init, before), ChangeTrust(op, u, deny, isActive));
             var st2 := Run(st1, toUserRead);
             var st3 := Run(st2, toSessionRead);
             UserAdmitted(st2, a) && SessionAdmitted(st3, a) && st2.access[a].user == u
    ensures var st := Run(init, before);
            var st2 := Run(Apply(st, ChangeTrust(op, u, deny, isActive)), toUserRead);
            st2.access[a].pwdVersion > st.users[u].pwdVersion && st2.access[a].session >= |st.sessions|
  {
    Reachable(init, before);
    var st := Run(init, before);
    var step := ChangeTrust(op, u, deny, isActive);
    var st1 := Apply(st, step);
    StepKeepsInv(st, step);
    var st2 := Run(st1, toUserRead);
    RunKeepsInv(st1, toUserRead);
    RunRowsEvolve(st1, toUserRead);
    RunRowsEvolve(st2, toSessionRead);
    TrustChangeBumps(st, op, u, deny, isActive);
    AdmittedIsNewer(st1, st2, Run(st2, toSessionRead), u, a, st.users[u].pwdVersion, |st.sessions|);
  }

  lemma TrustChangeBumps(st: State, op: nat, u: nat, deny: Option<nat>, isActive: Option<bool>)
    requires op !in st.ops && u < |st.users|
    ensures var st1 := Apply(st, ChangeTrust(op, u, deny, isActive));
            && |st1.users| == |st.users| && st1.users[u].pwdVersion == st.users[u].pwdVersion + 1
            && |st1.sessions| == |st.sessions|
            && forall i | 0 <= i < |st.sessions| && st1.sessions[i].user == u :: st1.sessions[i].revoked
  {
  }

  lemma AdmittedIsNewer(st1: State, st2: State, st3: State, u: nat, a: nat, version: nat, n: nat)
    requires RowsEvolve(st1, st2) && RowsEvolve(st2, st3) && Sound(st2)
    requires u < |st1.users| && st1.users[u].pwdVersion == version + 1 && n == |st1.sessions|
    requires forall i | 0 <= i < n && st1.sessions[i].user == u :: st1.sessions[i].revoked
    requires UserAdmitted(st2, a) && SessionAdmitted(st3, a) && st2.access[a].user == u
    ensures st2.access[a].pwdVersion > version && st2.access[a].session >= n
  {
  }

  /** In every run a token's pwdver is at most the current pwdVersion of its user. */
  lemma PwdVersionBound(init: State, steps: seq<Step>, a: nat)
    requires Init(init) && a < |Run(init, steps).access|
    ensures var st := Run(init, steps);
            st.access[a].user < |st.users| && st.access[a].pwdVersion <= st.users[st.access[a].user].pwdVersion
  {
    Reachable(init, steps);
    var st := Run(init, steps);
    assert AccessOk(st, st.access[a]);
  }

  /** A denylisted token is refused from then on: the entry outlives the token. */
  lemma DeniedForever(init: State, before: seq<Step>, op: nat, rest: seq<Step>)
    requires Init(init)
    requires var st := Run(init, before); op in st.ops && st.ops[op].Denying?
    ensures var st := Run(init, before);
            !TokenAdmitted(Run(Apply(st, Resume(op)), rest), st.ops[op].access)
  {
    Reachable(init, before);
    var st := Run(init, before);
    assert OpOk(st, st.ops[op]);
    var a := st.ops[op].access;
    var st1 := Apply(st, Resume(op));
    StepKeepsInv(st, Resume(op));
    RunKeepsInv(st1, rest);
    RunRowsEvolve(st1, rest);
    var st2 := Run(st1, rest);
    assert a in st1.denied;
    assert a in st2.denied && 1000 * st2.access[a].exp <= st2.denied[a];
  }

  /** The lifetime logout computes covers the token, and so does a whole access lifetime. */
  lemma LogoutTtlCovers(a: Access, now: int, later: int)
    requires now <= later
    ensures 1000 * a.exp <= later + LogoutTtl(a, now)
  {
  }
}
