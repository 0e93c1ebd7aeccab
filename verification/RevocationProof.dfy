/**
 * What a revocation leaves open, and how access tokens and refresh tokens are paired. A call
 * that passed its session check before a revocation still writes its successor token. That
 * is the only way a revoked session gains a token, and the token is the session's last.
 */
module RevocationProof {
  import opened Options
  import opened Sessions
  import opened SessionsProof

  // ------------------------------------------------ refresh tokens of a revoked session

  /** A refresh call of session `s` is past its session check and about to write its successor. */
  ghost predicate MintingIn(st: State, s: nat) {
    exists o | o in st.ops ::
      st.ops[o].Minting? && st.ops[o].token < |st.tokens| && st.tokens[st.ops[o].token].session == s
  }

  /** Session `s` is revoked and no call is about to write a token of it. */
  ghost predicate Sealed(st: State, s: nat) {
    s < |st.sessions| && st.sessions[s].revoked && !MintingIn(st, s)
  }

  /** The later state has a token of the session that the earlier one has not. */
  ghost predicate Gains(st: State, st': State, s: nat) {
    exists i | |st.tokens| <= i < |st'.tokens| :: st'.tokens[i].session == s
  }

  ghost predicate GainsOver(st: State, steps: seq<Step>, s: nat) {
    Gains(st, Run(st, steps), s)
  }

  lemma AdvanceKeepsSealed(st: State, op: nat, s: nat)
    requires Inv(st) && Sealed(st, s) && op in st.ops
    ensures Sealed(Advance(st, op), s) && !Gains(st, Advance(st, op), s)
  {
    var st' := Advance(st, op);
    AdvanceRowsEvolve(st, op);
    AdvanceTouchesOneOp(st, op);
    assert OpOk(st, st.ops[op]);
    if o :| o in st'.ops && st'.ops[o].Minting? && st'.ops[o].token < |st'.tokens| &&
            st'.tokens[st'.ops[o].token].session == s {
      if o != op {
        assert OpOk(st, st.ops[o]);
        assert MintingIn(st, s);
      }
    }
  }

  lemma StepKeepsSealed(st: State, step: Step, s: nat)
    requires Inv(st) && Sealed(st, s)
    ensures Sealed(Apply(st, step), s) && !Gains(st, Apply(st, step), s)
  {
    if step.Resume? {
      if step.op in st.ops {
        AdvanceKeepsSealed(st, step.op, s);
      }
    } else {
      StepRowsEvolve(st, step);
      BeginAddsNoRows(st, step);
    }
  }

  /** No run adds a token to a sealed session. */
  lemma {:induction false} SealedNeverGains(st: State, steps: seq<Step>, s: nat)
    requires Inv(st) && Sealed(st, s)
    ensures Sealed(Run(st, steps), s) && !Gains(st, Run(st, steps), s)
    decreases |steps|
  {
    if steps != [] {
      var st1 := Apply(st, steps[0]);
      StepKeepsInv(st, steps[0]);
      StepKeepsSealed(st, steps[0], s);
      SealedNeverGains(st1, steps[1..], s);
      RunRowsEvolve(st1, steps[1..]);
    }
  }

  /** A revoked session can still gain a refresh token exactly while a call is about to write one. */
  lemma GainsIffMinting(st: State, s: nat)
    requires Inv(st) && s < |st.sessions| && st.sessions[s].revoked
    ensures (exists steps :: GainsOver(st, steps, s)) <==> MintingIn(st, s)
  {
    if MintingIn(st, s) {
      var o :| o in st.ops && st.ops[o].Minting? && st.ops[o].token < |st.tokens| &&
               st.tokens[st.ops[o].token].session == s;
      var steps := [Resume(o)];
      assert steps[1..] == [] && Run(st, steps) == Apply(st, Resume(o));
      assert Run(st, steps).tokens[|st.tokens|].session == s;
      assert GainsOver(st, steps, s);
    } else {
      forall steps ensures !GainsOver(st, steps, s) {
        SealedNeverGains(st, steps, s);
      }
    }
  }

  /**
   * The token such a call writes is live, is the last the session ever gains, and is never
   * rotated: no later token has it as its predecessor.
   */
  lemma LateTokenIsLast(st: State, op: nat, rest: seq<Step>)
    requires Inv(st) && op in st.ops && st.ops[op].Minting?
    requires st.ops[op].token < |st.tokens|
    requires var s := st.tokens[st.ops[op].token].session; s < |st.sessions| && st.sessions[s].revoked
    ensures var s := st.tokens[st.ops[op].token].session;
            var late := |st.tokens|;
            var st1 := Apply(st, Resume(op));
            var st' := Run(st1, rest);
            && |st1.tokens| == late + 1 && st1.tokens[late].session == s && !st1.tokens[late].revoked
            && !Gains(st1, st', s)
            && forall i | 0 <= i < |st'.tokens| :: st'.tokens[i].parent != Some(late)
  {
    var s := st.tokens[st.ops[op].token].session;
    var late := |st.tokens|;
    var st1 := Apply(st, Resume(op));
    StepKeepsInv(st, Resume(op));
    LateMintSeals(st, op, s);
    SealedNeverGains(st1, rest, s);
    RunKeepsInv(st1, rest);
    RunRowsEvolve(st1, rest);
    var st' := Run(st1, rest);
    forall i: nat | i < |st'.tokens| ensures st'.tokens[i].parent != Some(late) {
      assert TokenOk(st', i);
    }
  }

  lemma LateMintSeals(st: State, op: nat, s: nat)
    requires Inv(st) && op in st.ops && st.ops[op].Minting? && st.ops[op].token < |st.tokens|
    requires st.tokens[st.ops[op].token].session == s && s < |st.sessions| && st.sessions[s].revoked
    ensures Sealed(Apply(st, Resume(op)), s)
  {
    var st1 := Apply(st, Resume(op));
    forall o | o in st1.ops && st1.ops[o].Minting? && st1.ops[o].token < |st1.tokens|
      ensures st1.tokens[st1.ops[o].token].session != s
    {
      assert InRotation(st.ops[o]) && InRotation(st.ops[op]) && OpOk(st, st.ops[o]);
    }
  }

  /** A login, then a refresh up to the point where it has passed its session check. */
  function ToSessionCheck(): seq<Step> {
    [Login(1, 0), Resume(1), Resume(1)] + [Present(2, 0), Resume(2), Resume(2), Resume(2)]
  }

  /** A whole revocation of the session, then the rest of the refresh. */
  function RevokeThenMint(): seq<Step> {
    [RevokeSession(3, 0, 0), Resume(3)] + [Resume(2), Resume(2)]
  }

  lemma {:induction false} RunSplits(st: State, a: seq<Step>, b: seq<Step>)
    ensures Run(st, a + b) == Run(Run(st, a), b)
    decreases |a|
  {
    if a == [] {
      assert a + b == b;
    } else {
      assert (a + b)[1..] == a[1..] + b;
      RunSplits(Apply(st, a[0]), a[1..], b);
    }
  }

  /** One session with its consumed first token, and call 2 about to write the successor. */
  ghost predicate AboutToMint(st: State) {
    && |st.sessions| == 1 && !st.sessions[0].revoked && st.sessions[0].user == 0
    && |st.tokens| == 1 && st.tokens[0].revoked && st.tokens[0].session == 0
    && st.ops.Keys == {1, 2} && st.ops[1] == Done && st.ops[2].Minting? && st.ops[2].token == 0
  }

  /** One session with its live first token. */
  ghost predicate LoggedIn(st: State) {
    && |st.users| > 0 && Usable(st.users[0])
    && |st.sessions| == 1 && !st.sessions[0].revoked && st.sessions[0].user == 0
    && |st.tokens| == 1 && !st.tokens[0].revoked && st.tokens[0].session == 0 && st.tokens[0].user == 0
    && st.now < st.tokens[0].expiresAt
    && st.ops == map[1 := Done]
  }

  lemma LoginRun(init: State)
    requires Init(init) && |init.users| > 0 && Usable(init.users[0]) && init.cfg.refreshTtlMs > 0
    ensures LoggedIn(Run(init, [Login(1, 0), Resume(1), Resume(1)]))
  {
    var steps := [Login(1, 0), Resume(1), Resume(1)];
    assert steps[1..] == [Resume(1), Resume(1)] && [Resume(1), Resume(1)][1..] == [Resume(1)];
    var st := Apply(Apply(init, Login(1, 0)), Resume(1));
    assert st.ops == map[1 := Signing(0, init.users[0], 0)];
    assert Run(init, steps) == Apply(st, Resume(1));
  }

  lemma PresentRun(st: State)
    requires LoggedIn(st)
    ensures AboutToMint(Run(st, [Present(2, 0), Resume(2), Resume(2), Resume(2)]))
  {
  }

  lemma RevokeRun(st: State)
    requires AboutToMint(st)
    ensures var st' := Run(st, [RevokeSession(3, 0, 0), Resume(3)]);
            && |st'.sessions| == 1 && st'.sessions[0].revoked
            && |st'.tokens| == 1 && st'.tokens[0].revoked && st'.tokens[0].session == 0
            && st'.ops == st.ops[3 := Done]
  {
    var st1 := Apply(st, RevokeSession(3, 0, 0));
    var steps := [RevokeSession(3, 0, 0), Resume(3)];
    assert steps[1..] == [Resume(3)] && [Resume(3)][1..] == [];
    assert Run(st, steps) == Apply(st1, Resume(3));
    assert st1.ops[3] == DroppingTokens(0);
  }

  lemma MintRun(st: State)
    requires |st.tokens| == 1 && st.tokens[0].revoked && st.tokens[0].session == 0
    requires st.ops.Keys == {1, 2, 3} && st.ops[1] == st.ops[3] == Done && st.ops[2].Minting? && st.ops[2].token == 0
    ensures var st' := Run(st, [Resume(2), Resume(2)]);
            && st'.sessions == st.sessions && |st'.tokens| == 2 && st'.tokens[0] == st.tokens[0]
            && !st'.tokens[1].revoked && st'.tokens[1].session == 0
            && forall o | o in st'.ops :: st'.ops[o] == Done
  {
    var st1 := Apply(st, Resume(2));
    var steps := [Resume(2), Resume(2)];
    assert steps[1..] == [Resume(2)] && [Resume(2)][1..] == [];
    assert Run(st, steps) == Apply(st1, Resume(2));
    assert st1.ops[2].Signing?;
  }

  /** Such a run ends with every call done, the session revoked and a live refresh token on it. */
  lemma RevokedSessionKeepsLiveToken(init: State)
    requires Init(init) && |init.users| > 0 && Usable(init.users[0]) && init.cfg.refreshTtlMs > 0
    ensures var st := Run(init, ToSessionCheck() + RevokeThenMint());
            && |st.sessions| == 1 && st.sessions[0].revoked
            && |st.tokens| == 2 && st.tokens[0].revoked && !st.tokens[1].revoked && st.tokens[1].session == 0
            && forall o | o in st.ops :: st.ops[o] == Done
  {
    RunSplits(init, ToSessionCheck(), RevokeThenMint());
    RunSplits(init, [Login(1, 0), Resume(1), Resume(1)], [Present(2, 0), Resume(2), Resume(2), Resume(2)]);
    LoginRun(init);
    PresentRun(Run(init, [Login(1, 0), Resume(1), Resume(1)]));
    var st := Run(init, ToSessionCheck());
    RunSplits(st, [RevokeSession(3, 0, 0), Resume(3)], [Resume(2), Resume(2)]);
    RevokeRun(st);
    MintRun(Run(st, [RevokeSession(3, 0, 0), Resume(3)]));
  }

  /**
   * Once a call that presented a consumed token has ended, a session its user had at the
   * presentation can gain a refresh token exactly while a call on it is about to write one.
   */
  lemma ReuseSealsIff(init: State, before: seq<Step>, op: nat, rest: seq<Step>, s: nat)
    requires Init(init)
    requires var st := Run(init, before);
             && op in st.ops
             && (st.ops[op].Presented? || st.ops[op].Consuming?)
             && st.ops[op].token < |st.tokens| && st.tokens[st.ops[op].token].revoked
             && s < |st.sessions| && st.sessions[s].user == st.tokens[st.ops[op].token].user
    requires Run(Run(init, before), rest).ops.Keys >= {op} && Run(Run(init, before), rest).ops[op] == Done
    ensures var st' := Run(Run(init, before), rest);
            (exists steps :: GainsOver(st', steps, s)) <==> MintingIn(st', s)
  {
    ReuseEndsSessions(init, before, op, rest);
    Reachable(init, before);
    RunKeepsInv(Run(init, before), rest);
    GainsIffMinting(Run(Run(init, before), rest), s);
  }

  // ------------------------------------------- access tokens and refresh tokens in pairs

  function RefreshCount(ts: seq<Refresh>, s: nat): nat {
    if ts == [] then 0 else RefreshCount(ts[..|ts| - 1], s) + if ts[|ts| - 1].session == s then 1 else 0
  }

  function AccessCount(ts: seq<Access>, s: nat): nat {
    if ts == [] then 0 else AccessCount(ts[..|ts| - 1], s) + if ts[|ts| - 1].session == s then 1 else 0
  }

  /** Calls that have written a refresh token of the session and still owe its access token. */
  ghost function SigningIn(ops: map<nat, Op>, s: nat): set<nat> {
    set o | o in ops && ops[o].Signing? && ops[o].session == s
  }

  ghost predicate PairedIn(st: State, s: nat) {
    AccessCount(st.access, s) + |SigningIn(st.ops, s)| == RefreshCount(st.tokens, s)
  }

  lemma {:induction false} SameSessionsSameCount(ts: seq<Refresh>, ts': seq<Refresh>, s: nat)
    requires |ts| == |ts'| && forall i | 0 <= i < |ts| :: ts[i].session == ts'[i].session
    ensures RefreshCount(ts, s) == RefreshCount(ts', s)
    decreases |ts|
  {
    if ts != [] {
      SameSessionsSameCount(ts[..|ts| - 1], ts'[..|ts| - 1], s);
    }
  }

  lemma SigningAfterPut(ops: map<nat, Op>, op: nat, pc: Op, s: nat)
    ensures |SigningIn(ops[op := pc], s)| ==
            |SigningIn(ops, s) - {op}| + if pc.Signing? && pc.session == s then 1 else 0
  {
    var others := SigningIn(ops, s) - {op};
    if pc.Signing? && pc.session == s {
      assert SigningIn(ops[op := pc], s) == others + {op};
    } else {
      assert SigningIn(ops[op := pc], s) == others;
    }
  }

  /** A segment that writes a token owes a signature from then on. */
  lemma WritingKeepsPairs(st: State, op: nat, s: nat)
    requires op in st.ops && OpOk(st, st.ops[op]) && PairedIn(st, s)
    requires st.ops[op].Minting? || st.ops[op].LoggingIn?
    ensures PairedIn(Advance(st, op), s)
  {
    var st' := Advance(st, op);
    assert st.ops[op := st.ops[op]] == st.ops && st'.ops == st.ops[op := st'.ops[op]];
    SigningAfterPut(st.ops, op, st.ops[op], s);
    SigningAfterPut(st.ops, op, st'.ops[op], s);
    assert st'.tokens[..|st.tokens|] == st.tokens;
  }

  /** Signing pays it. */
  lemma SigningKeepsPairs(st: State, op: nat, s: nat)
    requires op in st.ops && st.ops[op].Signing? && PairedIn(st, s)
    ensures PairedIn(Advance(st, op), s)
  {
    var st' := Advance(st, op);
    assert st.ops[op := st.ops[op]] == st.ops && st'.ops == st.ops[op := Done];
    SigningAfterPut(st.ops, op, st.ops[op], s);
    SigningAfterPut(st.ops, op, Done, s);
    assert st'.access[..|st.access|] == st.access;
  }

  /** Steps that add no token and leave the owed signatures alone. */
  lemma QuietKeepsPairs(st: State, st': State, s: nat)
    requires RowsEvolve(st, st') && |st.tokens| == |st'.tokens| && |st.access| == |st'.access|
    requires SigningIn(st.ops, s) == SigningIn(st'.ops, s) && PairedIn(st, s)
    ensures PairedIn(st', s)
  {
    SameSessionsSameCount(st.tokens, st'.tokens, s);
    assert st.access == st'.access;
  }

  /** Segments that neither write a token nor sign leave the owed signatures alone. */
  lemma OtherAdvanceOwesTheSame(st: State, op: nat, s: nat)
    requires op in st.ops && !st.ops[op].Minting? && !st.ops[op].LoggingIn? && !st.ops[op].Signing?
    ensures SigningIn(st.ops, s) == SigningIn(Advance(st, op).ops, s)
  {
    var st' := Advance(st, op);
    assert !st.ops[op].Signing? && !st'.ops[op].Signing?;
    assert st'.ops == st.ops[op := st'.ops[op]];
  }

  lemma BeginOwesTheSame(st: State, step: Step, s: nat)
    requires !step.Resume?
    ensures SigningIn(st.ops, s) == SigningIn(Apply(st, step).ops, s)
  {
    forall o | o in Apply(st, step).ops && Apply(st, step).ops[o].Signing? ensures o in st.ops {
    }
    forall o | o in st.ops ensures o in Apply(st, step).ops && Apply(st, step).ops[o] == st.ops[o] {
      OtherStepsKeepOp(st, step, o);
    }
  }

  lemma StepKeepsPairs(st: State, step: Step, s: nat)
    requires Inv(st) && PairedIn(st, s)
    ensures PairedIn(Apply(st, step), s)
  {
    StepRowsEvolve(st, step);
    if !step.Resume? {
      BeginAddsNoRows(st, step);
      BeginOwesTheSame(st, step, s);
      QuietKeepsPairs(st, Apply(st, step), s);
    } else if step.op in st.ops {
      var pc := st.ops[step.op];
      assert OpOk(st, pc);
      if pc.Minting? || pc.LoggingIn? {
        WritingKeepsPairs(st, step.op, s);
      } else if pc.Signing? {
        SigningKeepsPairs(st, step.op, s);
      } else {
        if !pc.Denying? {
          QuietAdvance(st, step.op);
        }
        OtherAdvanceOwesTheSame(st, step.op, s);
        QuietKeepsPairs(st, Apply(st, step), s);
      }
    }
  }

  lemma {:induction false} RunKeepsPairs(st: State, steps: seq<Step>, s: nat)
    requires Inv(st) && PairedIn(st, s)
    ensures PairedIn(Run(st, steps), s)
    decreases |steps|
  {
    if steps != [] {
      StepKeepsInv(st, steps[0]);
      StepKeepsPairs(st, steps[0], s);
      RunKeepsPairs(Apply(st, steps[0]), steps[1..], s);
    }
  }

  /**
   * In every interleaving a session has exactly as many refresh tokens as access tokens and
   * signatures still owed. As a refresh token has at most one successor, it yields at most
   * one new pair.
   */
  lemma TokensComeInPairs(init: State, steps: seq<Step>, s: nat)
    requires Init(init)
    ensures PairedIn(Run(init, steps), s)
  {
    assert SigningIn(init.ops, s) == {};
    RunKeepsPairs(init, steps, s);
  }

  /**
   * In every interleaving a consumed token has at most one successor, of the same session, and
   * the session's access tokens and owed signatures are exactly as many as its refresh tokens:
   * a token yields at most one new pair.
   */
  lemma OnePairPerToken(init: State, steps: seq<Step>, t: nat, i: nat)
    requires Init(init)
    requires var st := Run(init, steps); i < |st.tokens| && st.tokens[i].parent == Some(t)
    ensures var st := Run(init, steps);
            && t < i && st.tokens[t].revoked && st.tokens[t].session == st.tokens[i].session
            && (forall j | 0 <= j < |st.tokens| && st.tokens[j].parent == Some(t) :: j == i)
            && (forall o | o in st.ops && InRotation(st.ops[o]) :: st.ops[o].token != t)
            && PairedIn(st, st.tokens[t].session)
  {
    OneSuccessorPerToken(init, steps, t, i);
    TokensComeInPairs(init, steps, Run(init, steps).tokens[i].session);
  }
}
