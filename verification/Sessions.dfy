/**
 * Sessions, refresh-token rotation and access-token revocation.
 *
 * Every service call is cut at its awaits: `ops` holds each call in flight with what
 * it has read so far, and `Resume` runs the call up to its next await. Calls of any
 * number of clients interleave freely. Row indexes stand for primary keys, and an
 * access token's index for its jti; a refresh token's index also stands for its hash.
 */
module Sessions {
  import opened Common
  import opened Options

  datatype User = User(pwdVersion: nat, active: bool, deleted: bool, verified: bool)

  datatype Session = Session(user: nat, revoked: bool, expiresAt: int)

  /** `parent` records the token a row was rotated from; it is history, not a column. */
  datatype Refresh = Refresh(user: nat, session: nat, revoked: bool, expiresAt: int, parent: Option<nat>)

  /** Claims of a signed access token; `exp` is in whole seconds as in RFC 7519, section 4.1.4. */
  datatype Access = Access(user: nat, session: nat, pwdVersion: nat, exp: int)

  /** Configured lifetimes. */
  datatype Config = Config(accessTtlSeconds: nat, refreshTtlMs: nat)

  /** Where a call in flight stands. A `snapshot` is the user row as the call read it. */
  datatype Op =
    | Presented(token: nat)
    | Consuming(token: nat, snapshot: User)
    | Rotating(token: nat, snapshot: User)
    | Minting(token: nat, snapshot: User, expiresAt: int)
    | Punishing(user: nat)
    | LoggingIn(user: nat, snapshot: User, expiresAt: int)
    | Signing(user: nat, snapshot: User, session: nat)
    | LoggingOut(access: nat, ttlMs: int)
    | Denying(access: nat, ttlMs: int)
    | DroppingTokens(session: nat)
    | Done

  datatype State = State(
    cfg: Config,
    users: seq<User>,
    sessions: seq<Session>,
    tokens: seq<Refresh>,
    access: seq<Access>,
    denied: map<nat, int>,
    ops: map<nat, Op>,
    now: int)

  datatype Step =
    | Tick(ms: nat)
    | Register(verified: bool)
    | VerifyEmail(user: nat)
    | Login(op: nat, user: nat)
    | Present(op: nat, token: nat)
    | Logout(op: nat, access: nat)
    | RevokeSession(op: nat, user: nat, session: nat)
    | ChangeTrust(op: nat, user: nat, deny: Option<nat>, isActive: Option<bool>)
    | Deactivate(op: nat, user: nat, deny: Option<nat>)
    | Reactivate(user: nat)
    | Resume(op: nat)

  /** Revocation of every session of a user. */
  function RevokeSessionsOf(ss: seq<Session>, u: nat): (r: seq<Session>)
    ensures |r| == |ss|
    ensures forall i | 0 <= i < |ss| :: r[i] == if ss[i].user == u then ss[i].(revoked := true) else ss[i]
  {
    seq(|ss|, i requires 0 <= i < |ss| => if ss[i].user == u then ss[i].(revoked := true) else ss[i])
  }

  /** Revocation of every refresh token of a user. */
  function RevokeTokensOf(ts: seq<Refresh>, u: nat): (r: seq<Refresh>)
    ensures |r| == |ts|
    ensures forall i | 0 <= i < |ts| :: r[i] == if ts[i].user == u then ts[i].(revoked := true) else ts[i]
  {
    seq(|ts|, i requires 0 <= i < |ts| => if ts[i].user == u then ts[i].(revoked := true) else ts[i])
  }

  /** Revocation of every refresh token of one session. */
  function RevokeTokensIn(ts: seq<Refresh>, s: nat): (r: seq<Refresh>)
    ensures |r| == |ts|
    ensures forall i | 0 <= i < |ts| :: r[i] == if ts[i].session == s then ts[i].(revoked := true) else ts[i]
  {
    seq(|ts|, i requires 0 <= i < |ts| => if ts[i].session == s then ts[i].(revoked := true) else ts[i])
  }

  function RevokeAll(st: State, u: nat): State {
    st.(sessions := RevokeSessionsOf(st.sessions, u), tokens := RevokeTokensOf(st.tokens, u))
  }

  /** Whole seconds left to an access token; signed tokens always carry an expiry. */
  function RemainingSeconds(a: Access, now: int): int {
    Max(0, a.exp - now / 1000)
  }

  /** The denylist lifetime logout computes before its transaction. */
  function LogoutTtl(a: Access, now: int): int {
    Max(1000, RemainingSeconds(a, now) * 1000)
  }

  function Put(st: State, op: nat, pc: Op): State {
    st.(ops := st.ops[op := pc])
  }

  /** The call then denylists the caller's token, when there is one. */
  function DenyNext(st: State, op: nat, deny: Option<nat>): State {
    if deny.Some? && deny.value < |st.access|
    then Put(st, op, Denying(deny.value, st.cfg.accessTtlSeconds * 1000))
    else Put(st, op, Done)
  }

  predicate Usable(u: User) {
    !u.deleted && u.active && u.verified
  }

  // The segments of a call, each from one await to the next.

  /** refresh reads the token row together with its user. */
  function ReadToken(st: State, op: nat, t: nat): State {
    if t >= |st.tokens| || st.tokens[t].user >= |st.users| then Put(st, op, Done)
    else if st.tokens[t].revoked then Put(st, op, Punishing(st.tokens[t].user))
    else if st.tokens[t].expiresAt <= st.now then Put(st, op, Done)
    else Put(st, op, Consuming(t, st.users[st.tokens[t].user]))
  }

  /** refresh consumes the token in one conditional update; a caller that loses is a re-use. */
  function Consume(st: State, op: nat, t: nat, u: User): State {
    if t >= |st.tokens| then Put(st, op, Done)
    else if st.tokens[t].revoked then Put(st, op, Punishing(st.tokens[t].user))
    else
      Put(st.(tokens := st.tokens[t := st.tokens[t].(revoked := true)]), op, if Usable(u) then Rotating(t, u) else Done)
  }

  /** refresh reads the session; a session past its expiry passes its own expiry on. */
  function ReadSession(st: State, op: nat, t: nat, u: User): State {
    if t >= |st.tokens| || st.tokens[t].session >= |st.sessions| then Put(st, op, Done)
    else
      var s := st.sessions[st.tokens[t].session];
      if s.revoked then Put(st, op, Done)
      else Put(st, op, Minting(t, u, if s.expiresAt <= st.now then s.expiresAt else st.now + st.cfg.refreshTtlMs))
  }

  /** refresh writes the successor token. */
  function Mint(st: State, op: nat, t: nat, u: User, expiresAt: int): State {
    if t >= |st.tokens| then Put(st, op, Done)
    else
      var row := st.tokens[t];
      Put(st.(tokens := st.tokens + [Refresh(row.user, row.session, false, expiresAt, Some(t))]),
          op, Signing(row.user, u, row.session))
  }

  /** issueSession writes a session with its first token. */
  function OpenSession(st: State, op: nat, u: nat, snapshot: User, expiresAt: int): State {
    var sid := |st.sessions|;
    Put(st.(sessions := st.sessions + [Session(u, false, expiresAt)],
            tokens := st.tokens + [Refresh(u, sid, false, expiresAt, None)]),
        op, Signing(u, snapshot, sid))
  }

  /** refresh and issueSession sign with the user row they read, however old it is. */
  function Sign(st: State, op: nat, u: nat, snapshot: User, s: nat): State {
    var signed := Access(u, s, snapshot.pwdVersion, st.now / 1000 + st.cfg.accessTtlSeconds);
    Put(st.(access := st.access + [signed]), op, Done)
  }

  /** logout revokes the session of the caller's token and the session's refresh tokens. */
  function CloseSession(st: State, op: nat, a: nat, ttl: int): State {
    if a >= |st.access| then Put(st, op, Done)
    else
      var s := st.access[a].session;
      Put(st.(sessions := if s < |st.sessions| then st.sessions[s := st.sessions[s].(revoked := true)] else st.sessions,
              tokens := RevokeTokensIn(st.tokens, s)),
          op, Denying(a, ttl))
  }

  function Advance(st: State, op: nat): State
    requires op in st.ops
  {
    match st.ops[op]
    case Presented(t) => ReadToken(st, op, t)
    case Consuming(t, u) => Consume(st, op, t, u)
    case Rotating(t, u) => ReadSession(st, op, t, u)
    case Minting(t, u, expiresAt) => Mint(st, op, t, u, expiresAt)
    case Punishing(u) => Put(RevokeAll(st, u), op, Done)
    case LoggingIn(u, snapshot, expiresAt) => OpenSession(st, op, u, snapshot, expiresAt)
    case Signing(u, snapshot, s) => Sign(st, op, u, snapshot, s)
    case LoggingOut(a, ttl) => CloseSession(st, op, a, ttl)
    case Denying(a, ttl) => Put(st.(denied := st.denied[a := st.now + ttl]), op, Done)
    case DroppingTokens(s) => Put(st.(tokens := RevokeTokensIn(st.tokens, s)), op, Done)
    case Done => st
  }

  function Apply(st: State, step: Step): State {
    match step
    case Tick(ms) => st.(now := st.now + ms)
    case Register(verified) => st.(users := st.users + [User(1, true, false, verified)])
    case VerifyEmail(u) =>
      if u < |st.users| then st.(users := st.users[u := st.users[u].(verified := true)]) else st
    case Login(op, u) =>
      if op in st.ops || u >= |st.users| then st
      else Put(st, op, LoggingIn(u, st.users[u], st.now + st.cfg.refreshTtlMs))
    case Present(op, t) =>
      if op in st.ops || t >= |st.tokens| then st else Put(st, op, Presented(t))
    case Logout(op, a) =>
      if op in st.ops || a >= |st.access| then st else Put(st, op, LoggingOut(a, LogoutTtl(st.access[a], st.now)))
    case RevokeSession(op, u, s) =>
      if op in st.ops || s >= |st.sessions| || st.sessions[s].user != u || st.sessions[s].revoked then st
      else Put(st.(sessions := st.sessions[s := st.sessions[s].(revoked := true)]), op, DroppingTokens(s))
    case ChangeTrust(op, u, deny, isActive) =>
      if op in st.ops || u >= |st.users| then st
      else
        var row := st.users[u];
        var bumped := row.(pwdVersion := row.pwdVersion + 1,
                           active := if isActive.Some? then isActive.value else row.active);
        DenyNext(RevokeAll(st, u).(users := st.users[u := bumped]), op, deny)
    case Deactivate(op, u, deny) =>
      if op in st.ops || u >= |st.users| then st
      else DenyNext(RevokeAll(st, u).(users := st.users[u := st.users[u].(deleted := true, active := false)]), op, deny)
    case Reactivate(u) =>
      if u < |st.users| then st.(users := st.users[u := st.users[u].(active := true)]) else st
    case Resume(op) => if op in st.ops then Advance(st, op) else st
  }

  function Run(st: State, steps: seq<Step>): State
    decreases |steps|
  {
    if steps == [] then st else Run(Apply(st, steps[0]), steps[1..])
  }

  ghost predicate Init(st: State) {
    st.sessions == [] && st.tokens == [] && st.access == [] && st.denied == map[] && st.ops == map[]
  }

  /** The bearer guard's first check: the signature's expiry and the denylist, at one instant. */
  predicate TokenAdmitted(st: State, a: nat) {
    && a < |st.access|
    && st.now / 1000 < st.access[a].exp
    && !(a in st.denied && st.now < st.denied[a])
  }

  /** Its second: the user row, read after an await. */
  predicate UserAdmitted(st: State, a: nat) {
    && a < |st.access|
    && st.access[a].user < |st.users|
    && var u := st.users[st.access[a].user];
       !u.deleted && u.active && u.pwdVersion == st.access[a].pwdVersion
  }

  /** Its third: the session row, read after another await. */
  predicate SessionAdmitted(st: State, a: nat) {
    && a < |st.access|
    && st.access[a].session < |st.sessions|
    && var s := st.sessions[st.access[a].session];
       !s.revoked && st.now < s.expiresAt
  }
}
