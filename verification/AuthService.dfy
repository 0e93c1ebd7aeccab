/**
 * The session half of the auth service over mutable rows. `refresh`, `issueSession`,
 * `logout` and `revokeSession` are one method per segment between awaits; each is
 * proved to have the effect `Sessions.Apply` gives that step and to keep the invariant.
 */
module AuthService {
  import opened Common
  import opened Options
  import opened Sessions
  import opened SessionsProof

  /** Every session and refresh token of the user is revoked, and nothing else about them changes. */
  ghost predicate AllRevoked(
      ss: seq<Session>, ts: seq<Refresh>, ss': seq<Session>, ts': seq<Refresh>, u: nat)
  {
    && |ss'| == |ss| && |ts'| == |ts|
    && (forall i | 0 <= i < |ss| :: ss'[i] == ss[i].(revoked := ss[i].revoked || ss[i].user == u))
    && (forall i | 0 <= i < |ts| :: ts'[i] == ts[i].(revoked := ts[i].revoked || ts[i].user == u))
  }

  class AuthService {
    const cfg: Config
    var users: seq<User>
    var sessions: seq<Session>
    var tokens: seq<Refresh>
    var access: seq<Access>
    var denied: map<nat, int>
    var ops: map<nat, Op>
    var now: int

    function Rows(): State
      reads this
    {
      State(cfg, users, sessions, tokens, access, denied, ops, now)
    }

    constructor (cfg: Config, registered: seq<User>, clock: int)
      ensures Rows() == State(cfg, registered, [], [], [], map[], map[], clock)
      ensures Init(Rows()) && Inv(Rows())
    {
      this.cfg := cfg;
      users, sessions, tokens, access := registered, [], [], [];
      denied, ops, now := map[], map[], clock;
    }

    // ------------------------------------------------------------ issueSession

    method ReadUserForSession(op: nat, u: nat)
      requires Inv(Rows()) && op !in ops && u < |users|
      modifies this
      ensures Rows() == Apply(old(Rows()), Login(op, u)) && Inv(Rows())
      ensures Rows() == old(Rows()).(ops := old(ops)[op := LoggingIn(u, users[u], now + cfg.refreshTtlMs)])
    {
      StepKeepsInv(Rows(), Login(op, u));
      var expiresAt := now + cfg.refreshTtlMs;
      ops := ops[op := LoggingIn(u, users[u], expiresAt)];
    }

    method CreateSession(op: nat) returns (sid: nat)
      requires Inv(Rows()) && op in ops && ops[op].LoggingIn?
      modifies this
      ensures Rows() == Apply(old(Rows()), Resume(op)) && Inv(Rows())
      ensures sid == |old(sessions)|
      ensures var LoggingIn(u, snapshot, expiresAt) := old(ops)[op];
              Rows() == old(Rows()).(sessions := old(sessions) + [Session(u, false, expiresAt)],
                                     tokens := old(tokens) + [Refresh(u, sid, false, expiresAt, None)],
                                     ops := old(ops)[op := Signing(u, snapshot, sid)])
    {
      StepKeepsInv(Rows(), Resume(op));
      var LoggingIn(u, snapshot, expiresAt) := ops[op];
      sid := |sessions|;
      sessions := sessions + [Session(u, false, expiresAt)];
      tokens := tokens + [Refresh(u, sid, false, expiresAt, None)];
      ops := ops[op := Signing(u, snapshot, sid)];
    }

    /** Last segment of issueSession and of refresh. */
    method SignAccessToken(op: nat) returns (jti: nat)
      requires Inv(Rows()) && op in ops && ops[op].Signing?
      modifies this
      ensures Rows() == Apply(old(Rows()), Resume(op)) && Inv(Rows())
      ensures jti == |old(access)|
      ensures var Signing(u, snapshot, s) := old(ops)[op];
              Rows() == old(Rows()).(
                access := old(access) + [Access(u, s, snapshot.pwdVersion, now / 1000 + cfg.accessTtlSeconds)],
                ops := old(ops)[op := Done])
    {
      StepKeepsInv(Rows(), Resume(op));
      var Signing(u, snapshot, s) := ops[op];
      jti := |access|;
      access := access + [Access(u, s, snapshot.pwdVersion, now / 1000 + cfg.accessTtlSeconds)];
      ops := ops[op := Done];
    }

    // ------------------------------------------------------------------ refresh

    /** An unknown token is refused without any effect. */
    method PresentToken(op: nat, t: nat) returns (known: bool)
      requires Inv(Rows()) && op !in ops
      modifies this
      ensures Rows() == Apply(old(Rows()), Present(op, t)) && Inv(Rows())
      ensures known <==> t < |tokens|
      ensures Rows() == if known then old(Rows()).(ops := old(ops)[op := Presented(t)]) else old(Rows())
    {
      StepKeepsInv(Rows(), Present(op, t));
      known := t < |tokens|;
      if known {
        ops := ops[op := Presented(t)];
      }
    }

    /** A revoked token leads to the revocation of everything, before its expiry is even looked at. */
    method ReadRefreshToken(op: nat)
      requires Inv(Rows()) && op in ops && ops[op].Presented?
      modifies this
      ensures Rows() == Apply(old(Rows()), Resume(op)) && Inv(Rows())
      ensures var t := old(ops)[op].token;
              t < |tokens| && TokenOk(Rows(), t) &&
              Rows() == old(Rows()).(
                ops := old(ops)[op := if tokens[t].revoked then Punishing(tokens[t].user)
                                      else if tokens[t].expiresAt <= now then Done
                                      else Consuming(t, users[tokens[t].user])])
    {
      StepKeepsInv(Rows(), Resume(op));
      var t := ops[op].token;
      assert OpOk(Rows(), ops[op]) && TokenOk(Rows(), t);
      var row := tokens[t];
      if row.revoked {
        ops := ops[op := Punishing(row.user)];
        return;
      }
      if row.expiresAt <= now {
        ops := ops[op := Done];
        return;
      }
      ops := ops[op := Consuming(t, users[row.user])];
    }

    /** One conditional update decides which of several concurrent callers rotates. */
    method ConsumeRefreshToken(op: nat) returns (won: bool)
      requires Inv(Rows()) && op in ops && ops[op].Consuming?
      modifies this
      ensures Rows() == Apply(old(Rows()), Resume(op)) && Inv(Rows())
      ensures won <==> !old(tokens)[old(ops)[op].token].revoked
      ensures var Consuming(t, user) := old(ops)[op];
              Rows() == old(Rows()).(
                tokens := old(tokens)[t := old(tokens)[t].(revoked := true)],
                ops := old(ops)[op := if !won then Punishing(old(tokens)[t].user)
                                      else if !user.deleted && user.active && user.verified then Rotating(t, user)
                                      else Done])
    {
      StepKeepsInv(Rows(), Resume(op));
      assert OpOk(Rows(), ops[op]);
      var Consuming(t, user) := ops[op];
      assert tokens[t].revoked ==> tokens[t := tokens[t].(revoked := true)] == tokens;
      won := !tokens[t].revoked;
      if won {
        tokens := tokens[t := tokens[t].(revoked := true)];
      }
      if !won {
        ops := ops[op := Punishing(tokens[t].user)];
        return;
      }
      if user.deleted || !user.active || !user.verified {
        ops := ops[op := Done];
        return;
      }
      ops := ops[op := Rotating(t, user)];
    }

    /** A session past its expiry hands its own expiry on, so the successor is refused at once. */
    method ReadSessionForRefresh(op: nat)
      requires Inv(Rows()) && op in ops && ops[op].Rotating?
      modifies this
      ensures Rows() == Apply(old(Rows()), Resume(op)) && Inv(Rows())
      ensures var Rotating(t, user) := old(ops)[op];
              t < |tokens| && TokenOk(Rows(), t) &&
              var session := sessions[tokens[t].session];
              Rows() == old(Rows()).(
                ops := old(ops)[op := if session.revoked then Done
                                      else if session.expiresAt <= now then Minting(t, user, session.expiresAt)
                                      else Minting(t, user, now + cfg.refreshTtlMs)])
    {
      StepKeepsInv(Rows(), Resume(op));
      var Rotating(t, user) := ops[op];
      assert OpOk(Rows(), ops[op]) && TokenOk(Rows(), t);
      var session := sessions[tokens[t].session];
      if session.revoked {
        ops := ops[op := Done];
        return;
      }
      var nextExpiresAt := if session.expiresAt <= now then session.expiresAt else now + cfg.refreshTtlMs;
      ops := ops[op := Minting(t, user, nextExpiresAt)];
    }

    method MintRefreshToken(op: nat) returns (next: nat)
      requires Inv(Rows()) && op in ops && ops[op].Minting?
      modifies this
      ensures Rows() == Apply(old(Rows()), Resume(op)) && Inv(Rows())
      ensures next == |old(tokens)|
      ensures var Minting(t, user, expiresAt) := old(ops)[op];
              var row := old(tokens)[t];
              Rows() == old(Rows()).(
                tokens := old(tokens) + [Refresh(row.user, row.session, false, expiresAt, Some(t))],
                ops := old(ops)[op := Signing(row.user, user, row.session)])
    {
      StepKeepsInv(Rows(), Resume(op));
      assert OpOk(Rows(), ops[op]);
      var Minting(t, user, expiresAt) := ops[op];
      next := |tokens|;
      var row := tokens[t];
      tokens := tokens + [Refresh(row.user, row.session, false, expiresAt, Some(t))];
      ops := ops[op := Signing(row.user, user, row.session)];
    }

    method RevokeEverythingForUser(op: nat)
      requires Inv(Rows()) && op in ops && ops[op].Punishing?
      modifies this
      ensures Rows() == Apply(old(Rows()), Resume(op)) && Inv(Rows())
      ensures AllRevoked(old(sessions), old(tokens), sessions, tokens, old(ops)[op].user)
      ensures Rows() == old(Rows()).(sessions := sessions, tokens := tokens, ops := old(ops)[op := Done])
    {
      StepKeepsInv(Rows(), Resume(op));
      var u := ops[op].user;
      sessions := RevokeSessionsOf(sessions, u);
      tokens := RevokeTokensOf(tokens, u);
      ops := ops[op := Done];
    }

    // ---------------------------------------------------------------- revocation

    method BeginLogout(op: nat, a: nat)
      requires Inv(Rows()) && op !in ops && a < |access|
      modifies this
      ensures Rows() == Apply(old(Rows()), Logout(op, a)) && Inv(Rows())
      ensures var left := access[a].exp - now / 1000;
              Rows() == old(Rows()).(ops := old(ops)[op := LoggingOut(a, if left >= 1 then 1000 * left else 1000)])
    {
      StepKeepsInv(Rows(), Logout(op, a));
      var remaining := Max(0, access[a].exp - now / 1000);
      ops := ops[op := LoggingOut(a, Max(1000, remaining * 1000))];
    }

    method LogoutTransaction(op: nat)
      requires Inv(Rows()) && op in ops && ops[op].LoggingOut?
      modifies this
      ensures Rows() == Apply(old(Rows()), Resume(op)) && Inv(Rows())
      ensures var LoggingOut(a, ttlMs) := old(ops)[op];
              var s := access[a].session;
              && Rows() == old(Rows()).(sessions := old(sessions)[s := old(sessions)[s].(revoked := true)],
                                        tokens := tokens, ops := old(ops)[op := Denying(a, ttlMs)])
              && |tokens| == |old(tokens)|
              && forall i | 0 <= i < |tokens| ::
                   tokens[i] == old(tokens)[i].(revoked := old(tokens)[i].revoked || old(tokens)[i].session == s)
    {
      StepKeepsInv(Rows(), Resume(op));
      assert OpOk(Rows(), ops[op]);
      var LoggingOut(a, ttlMs) := ops[op];
      assert AccessOk(Rows(), access[a]);
      var s := access[a].session;
      sessions := sessions[s := sessions[s].(revoked := true)];
      tokens := RevokeTokensIn(tokens, s);
      ops := ops[op := Denying(a, ttlMs)];
    }

    method Deny(op: nat)
      requires Inv(Rows()) && op in ops && ops[op].Denying?
      modifies this
      ensures Rows() == Apply(old(Rows()), Resume(op)) && Inv(Rows())
      ensures var Denying(a, ttlMs) := old(ops)[op];
              Rows() == old(Rows()).(denied := old(denied)[a := now + ttlMs], ops := old(ops)[op := Done])
      ensures var a := old(ops)[op].access; a in denied && a < |access| && 1000 * access[a].exp <= denied[a]
    {
      var Denying(a, ttlMs) := ops[op];
      ghost var next := Rows().(denied := denied[a := now + ttlMs], ops := ops[op := Done]);
      assert Apply(Rows(), Resume(op)) == next;
      StepKeepsInv(Rows(), Resume(op));
      assert DeniedOk(next);
      denied := denied[a := now + ttlMs];
      ops := ops[op := Done];
    }

    /** Answers false for a missing session, one of another user, and one already revoked. */
    method RevokeOneSession(op: nat, u: nat, s: nat) returns (found: bool)
      requires Inv(Rows()) && op !in ops
      modifies this
      ensures Rows() == Apply(old(Rows()), RevokeSession(op, u, s)) && Inv(Rows())
      ensures found <==> s < |old(sessions)| && old(sessions)[s].user == u && !old(sessions)[s].revoked
      ensures Rows() == if !found then old(Rows())
                        else old(Rows()).(sessions := old(sessions)[s := old(sessions)[s].(revoked := true)],
                                          ops := old(ops)[op := DroppingTokens(s)])
    {
      StepKeepsInv(Rows(), RevokeSession(op, u, s));
      found := s < |sessions| && sessions[s].user == u && !sessions[s].revoked;
      if found {
        sessions := sessions[s := sessions[s].(revoked := true)];
        ops := ops[op := DroppingTokens(s)];
      }
    }

    method DropSessionTokens(op: nat)
      requires Inv(Rows()) && op in ops && ops[op].DroppingTokens?
      modifies this
      ensures Rows() == Apply(old(Rows()), Resume(op)) && Inv(Rows())
      ensures Rows() == old(Rows()).(tokens := tokens, ops := old(ops)[op := Done]) && |tokens| == |old(tokens)|
      ensures forall i | 0 <= i < |tokens| ::
                tokens[i] == old(tokens)[i].(
                  revoked := old(tokens)[i].revoked || old(tokens)[i].session == old(ops)[op].session)
    {
      StepKeepsInv(Rows(), Resume(op));
      tokens := RevokeTokensIn(tokens, ops[op].session);
      ops := ops[op := Done];
    }

    /** logoutAll, changePassword, resetPassword, confirmChangeEmail, totpDisable and a trust-changing admin update. */
    method BumpAndRevoke(op: nat, u: nat, deny: Option<nat>, isActive: Option<bool>) returns (found: bool)
      requires Inv(Rows()) && op !in ops && (deny.Some? ==> deny.value < |access|)
      modifies this
      ensures Rows() == Apply(old(Rows()), ChangeTrust(op, u, deny, isActive)) && Inv(Rows())
      ensures found <==> u < |old(users)|
      ensures !found ==> Rows() == old(Rows())
      ensures found ==> AllRevoked(old(sessions), old(tokens), sessions, tokens, u)
      ensures found ==>
                var row := old(users)[u];
                var active := if isActive.Some? then isActive.value else row.active;
                Rows() == old(Rows()).(
                  users := old(users)[u := User(row.pwdVersion + 1, active, row.deleted, row.verified)],
                  sessions := sessions, tokens := tokens,
                  ops := old(ops)[op := if deny.None? then Done
                                        else Denying(deny.value, 1000 * cfg.accessTtlSeconds)])
    {
      found := u < |users|;
      if !found {
        return;
      }
      var active := if isActive.Some? then isActive.value else users[u].active;
      ghost var next := Rows().(
        users := users[u := users[u].(pwdVersion := users[u].pwdVersion + 1, active := active)],
        sessions := RevokeSessionsOf(sessions, u), tokens := RevokeTokensOf(tokens, u),
        ops := ops[op := if deny.Some? then Denying(deny.value, cfg.accessTtlSeconds * 1000) else Done]);
      assert Apply(Rows(), ChangeTrust(op, u, deny, isActive)) == next;
      StepKeepsInv(Rows(), ChangeTrust(op, u, deny, isActive));
      sessions := RevokeSessionsOf(sessions, u);
      tokens := RevokeTokensOf(tokens, u);
      users := users[u := users[u].(pwdVersion := users[u].pwdVersion + 1, active := active)];
      ops := ops[op := if deny.Some? then Denying(deny.value, cfg.accessTtlSeconds * 1000) else Done];
    }

    /** Self-service and admin deactivation: no bump, but no session survives. */
    method DeactivateUser(op: nat, u: nat, deny: Option<nat>) returns (found: bool)
      requires Inv(Rows()) && op !in ops && (deny.Some? ==> deny.value < |access|)
      modifies this
      ensures Rows() == Apply(old(Rows()), Deactivate(op, u, deny)) && Inv(Rows())
      ensures found <==> u < |old(users)|
      ensures !found ==> Rows() == old(Rows())
      ensures found ==> AllRevoked(old(sessions), old(tokens), sessions, tokens, u)
      ensures found ==>
                var row := old(users)[u];
                Rows() == old(Rows()).(
                  users := old(users)[u := User(row.pwdVersion, false, true, row.verified)],
                  sessions := sessions, tokens := tokens,
                  ops := old(ops)[op := if deny.None? then Done
                                        else Denying(deny.value, 1000 * cfg.accessTtlSeconds)])
    {
      StepKeepsInv(Rows(), Deactivate(op, u, deny));
      found := u < |users|;
      if !found {
        return;
      }
      users := users[u := users[u].(deleted := true, active := false)];
      sessions := RevokeSessionsOf(sessions, u);
      tokens := RevokeTokensOf(tokens, u);
      ops := ops[op := if deny.Some? then Denying(deny.value, cfg.accessTtlSeconds * 1000) else Done];
    }
  }
}
