/**
 * Single-use flow tokens: verify-email, reset-password and change-email. A call first
 * checks the token's signature and expiry and later, after other awaits, records the
 * jti in used_tokens in the transaction that takes the effect. A purge job removes
 * rows whose retention has passed.
 */
module ActionTokens {
  const DAY_MS: int := 86_400_000
  const USED_TOKEN_RETENTION_MS: int := 7 * DAY_MS
  const PURGE_RETENTION_MS: int := 7 * DAY_MS

  datatype Purpose = VerifyEmail | ResetPassword | ChangeEmail

  function TtlSeconds(p: Purpose): nat {
    if p == ResetPassword then 900 else 86_400
  }

  /** A signed token; its index stands for its jti. */
  datatype Token = Token(purpose: Purpose, issuedAt: int) {
    /** Expiry claim in whole seconds. */
    function Exp(): int { issuedAt / 1000 + TtlSeconds(purpose) }
  }

  /** A call that has verified a token and not yet run its transaction. */
  datatype Parsed = Parsed(jti: nat, at: int)

  /** `effects` lists the tokens that took effect, in order; it is history, not a table. */
  datatype State = State(issued: seq<Token>, used: map<nat, int>, ops: map<nat, Parsed>, effects: seq<nat>, now: int)

  datatype Step =
    | Tick(ms: nat)
    | Issue(purpose: Purpose)
    | Parse(op: nat, jti: nat, purpose: Purpose)
    | Consume(op: nat)
    | Purge(lag: nat)

  /** purgeOnce with a cutoff computed `lag` ms before the deletion runs. */
  function Purged(used: map<nat, int>, cutoff: int): map<nat, int> {
    map j | j in used && used[j] >= cutoff :: used[j]
  }

  function Apply(st: State, step: Step): State {
    match step
    case Tick(ms) => st.(now := st.now + ms)
    case Issue(purpose) => st.(issued := st.issued + [Token(purpose, st.now)])
    case Parse(op, jti, purpose) =>
      if op !in st.ops && jti < |st.issued| && st.issued[jti].purpose == purpose && st.now / 1000 < st.issued[jti].Exp()
      then st.(ops := st.ops[op := Parsed(jti, st.now)])
      else st
    case Consume(op) =>
      if op !in st.ops then st
      else
        var jti := st.ops[op].jti;
        var rest := st.(ops := st.ops - {op});
        if jti in st.used then rest  // the primary key refuses the row and the transaction aborts
        else rest.(used := st.used[jti := st.now + USED_TOKEN_RETENTION_MS], effects := st.effects + [jti])
    case Purge(lag) => st.(used := Purged(st.used, st.now - lag - PURGE_RETENTION_MS))
  }

  function Run(st: State, steps: seq<Step>): State
    decreases |steps|
  {
    if steps == [] then st else Run(Apply(st, steps[0]), steps[1..])
  }

  ghost predicate Init(st: State) {
    st.issued == [] && st.used == map[] && st.ops == map[] && st.effects == []
  }

  /** Every transaction of the run starts at most `d` ms after its token was verified. */
  ghost predicate Prompt(st: State, steps: seq<Step>, d: int)
    decreases |steps|
  {
    steps == [] ||
    (&& (steps[0].Consume? && steps[0].op in st.ops ==> st.now - st.ops[steps[0].op].at <= d)
     && Prompt(Apply(st, steps[0]), steps[1..], d))
  }

  ghost predicate NoRepeats(s: seq<nat>) {
    forall i, j | 0 <= i < j < |s| :: s[i] != s[j]
  }

  /** The longest delay under which no token can take effect twice. */
  const MAX_DELAY_MS: int := 13 * DAY_MS + 1

  /** A token that took effect is still recorded, or was issued more than 14 days ago. */
  ghost predicate Recorded(st: State, j: nat) {
    && j < |st.issued|
    && if j in st.used
       then st.issued[j].issuedAt + USED_TOKEN_RETENTION_MS <= st.used[j]
       else st.issued[j].issuedAt + USED_TOKEN_RETENTION_MS + PURGE_RETENTION_MS < st.now
  }

  ghost predicate OpOk(st: State, p: Parsed) {
    p.jti < |st.issued| && p.at / 1000 < st.issued[p.jti].Exp() && p.at <= st.now
  }

  ghost predicate Inv(st: State) {
    && NoRepeats(st.effects)
    && (forall i | 0 <= i < |st.effects| :: Recorded(st, st.effects[i]))
    && (forall o | o in st.ops :: OpOk(st, st.ops[o]))
    && (forall j | j in st.used :: j < |st.issued|)
    && (forall t | 0 <= t < |st.issued| :: st.issued[t].issuedAt <= st.now)
  }

  lemma StepKeepsInv(st: State, step: Step)
    requires Inv(st) && Prompt(st, [step], MAX_DELAY_MS)
    ensures Inv(Apply(st, step))
  {
  }

  lemma {:induction false} RunKeepsInv(st: State, steps: seq<Step>)
    requires Inv(st) && Prompt(st, steps, MAX_DELAY_MS)
    ensures Inv(Run(st, steps))
    decreases |steps|
  {
    if steps != [] {
      assert [steps[0]][1..] == [];
      StepKeepsInv(st, steps[0]);
      RunKeepsInv(Apply(st, steps[0]), steps[1..]);
    }
  }

  lemma {:induction false} PromptIsMonotone(st: State, steps: seq<Step>, d: int, d': int)
    requires Prompt(st, steps, d) && d <= d'
    ensures Prompt(st, steps, d')
    decreases |steps|
  {
    if steps != [] {
      PromptIsMonotone(Apply(st, steps[0]), steps[1..], d, d');
    }
  }

  /** Over any run, purges included, a token takes effect at most once. */
  lemma EffectAtMostOnce(init: State, steps: seq<Step>)
    requires Init(init) && Prompt(init, steps, MAX_DELAY_MS)
    ensures NoRepeats(Run(init, steps).effects)
  {
    RunKeepsInv(init, steps);
  }

  /** The run in which a transaction delayed by one millisecond more takes effect a second time. */
  function LateRun(): seq<Step> {
    [Issue(VerifyEmail), Parse(1, 0, VerifyEmail), Consume(1), Tick(DAY_MS - 1), Parse(2, 0, VerifyEmail),
     Tick(13 * DAY_MS + 2), Purge(0), Consume(2)]
  }

  lemma LateRunRepeats(init: State)
    requires Init(init) && init.now == 0
    ensures Prompt(init, LateRun(), MAX_DELAY_MS + 1)
    ensures Run(init, LateRun()).effects == [0, 0]
  {
    var s := LateRun();
    var s1 := Apply(init, s[0]);
    var s2 := Apply(s1, s[1]);
    var s3 := Apply(s2, s[2]);
    var s4 := Apply(s3, s[3]);
    var s5 := Apply(s4, s[4]);
    var s6 := Apply(s5, s[5]);
    var s7 := Apply(s6, s[6]);
    var s8 := Apply(s7, s[7]);
    assert s3.used == map[0 := 7 * DAY_MS] && s3.effects == [0];
    assert s5.ops == map[2 := Parsed(0, DAY_MS - 1)];
    assert s6.now == 14 * DAY_MS + 1;
    assert s7.used == map[];
    assert s8.effects == [0, 0];
    assert Run(s7, s[7..]) == s8 && Prompt(s7, s[7..], MAX_DELAY_MS + 1);
    assert s[6..][1..] == s[7..] && s[5..][1..] == s[6..] && s[4..][1..] == s[5..];
    assert Run(s5, s[5..]) == s8 && Prompt(s5, s[5..], MAX_DELAY_MS + 1);
    assert s[3..][1..] == s[4..] && s[2..][1..] == s[3..] && s[1..][1..] == s[2..];
    assert Run(s3, s[3..]) == s8 && Prompt(s3, s[3..], MAX_DELAY_MS + 1);
    assert Run(s1, s[1..]) == s8 && Prompt(s1, s[1..], MAX_DELAY_MS + 1);
  }

  /** Tokens are single-use exactly when no transaction lags its check by more than 13 days and 1 ms. */
  lemma SingleUseIffPrompt(d: int)
    ensures (forall init, steps | Init(init) && Prompt(init, steps, d) :: NoRepeats(Run(init, steps).effects))
            <==> d <= MAX_DELAY_MS
  {
    if d <= MAX_DELAY_MS {
      forall init, steps | Init(init) && Prompt(init, steps, d) ensures NoRepeats(Run(init, steps).effects) {
        PromptIsMonotone(init, steps, d, MAX_DELAY_MS);
        EffectAtMostOnce(init, steps);
      }
    } else {
      var init := State([], map[], map[], [], 0);
      LateRunRepeats(init);
      PromptIsMonotone(init, LateRun(), MAX_DELAY_MS + 1, d);
      var effects := Run(init, LateRun()).effects;
      assert effects[0] == effects[1];
      assert !NoRepeats(effects);
    }
  }

  /** The used-token table, its writers and the purge job, over mutable rows. */
  class UsedTokens {
    var issued: seq<Token>
    var used: map<nat, int>
    var ops: map<nat, Parsed>
    ghost var effects: seq<nat>
    var now: int

    ghost function Rows(): State
      reads this
    {
      State(issued, used, ops, effects, now)
    }

    constructor (clock: int)
      ensures Rows() == State([], map[], map[], [], clock) && Init(Rows())
    {
      issued, used, ops, effects, now := [], map[], map[], [], clock;
    }

    /**
     * parseActionToken: only a token this service signed for the purpose, and only before its
     * expiry, a quarter of an hour for a password reset and a day otherwise.
     */
    method ParseActionToken(op: nat, jti: nat, purpose: Purpose) returns (valid: bool)
      requires op !in ops
      modifies this
      ensures Rows() == Apply(old(Rows()), Parse(op, jti, purpose))
      ensures valid <==>
              && jti < |issued| && issued[jti].purpose == purpose
              && now / 1000 < issued[jti].issuedAt / 1000 + if purpose == ResetPassword then 900 else 86_400
      ensures Rows() == if valid then old(Rows()).(ops := old(ops)[op := Parsed(jti, now)]) else old(Rows())
    {
      valid := jti < |issued| && issued[jti].purpose == purpose &&
               now / 1000 < issued[jti].issuedAt / 1000 + TtlSeconds(purpose);
      if valid {
        ops := ops[op := Parsed(jti, now)];
      }
    }

    /** The transaction of verifyEmail, resetPassword and confirmChangeEmail. */
    method ConsumeToken(op: nat) returns (applied: bool)
      requires op in ops
      modifies this
      ensures Rows() == Apply(old(Rows()), Consume(op))
      ensures applied <==> old(ops)[op].jti !in old(used)
      ensures var jti := old(ops)[op].jti;
              Rows() == if applied
                        then old(Rows()).(used := old(used)[jti := now + 604_800_000], ops := old(ops) - {op},
                                          effects := old(effects) + [jti])
                        else old(Rows()).(ops := old(ops) - {op})
    {
      var jti := ops[op].jti;
      ops := ops - {op};
      if jti in used {
        return false;
      }
      used := used[jti := now + USED_TOKEN_RETENTION_MS];
      effects := effects + [jti];
      return true;
    }

    method PurgeOnce()
      modifies this
      ensures Rows() == Apply(old(Rows()), Purge(0))
      ensures Rows() == old(Rows()).(used := used)
      ensures forall j :: j in used <==> j in old(used) && now <= old(used)[j] + 604_800_000
      ensures forall j | j in used :: used[j] == old(used)[j]
    {
      used := map j | j in used && !(used[j] < now - PURGE_RETENTION_MS) :: used[j];
    }
  }
}
