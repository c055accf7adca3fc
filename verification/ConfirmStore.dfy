/** Confirmation sessions: created pending, resolved once, kept as receipts. */
module ConfirmStore {
  import opened ConfirmPolicy
  import opened Wrappers

  type Token = nat

  datatype Status = Pending | Completed | Denied
  datatype Work = Operation(deviceId: string, operationId: string) | Plan(planId: string) | Action(action: string)

  /** The payload is `params`, what an operation is to run with, and the plan steps and action
      arguments, of which `held` says whether they are still there; everything else but the status
      outlives it. `secretFields` names parameters that were left out of `params`. */
  datatype Session = Session(
    token: Token, work: Work, risk: string, level: Level, params: map<string, string>, secretFields: set<string>,
    createdAt: int, ttl: nat, status: Status, confirmedBy: string, held: bool)

  const CONFIRM_TOKEN_TTL_SECONDS := 300
  const PAYLOAD_RETENTION_SECONDS := 24 * 60 * 60
  const CLEANUP_GRACE := 60

  /** `issued` are all tokens ever drawn. */
  datatype Store = Store(sessions: map<Token, Session>, issued: set<Token>)

  predicate IsExpired(x: Session, now: int) {
    now - x.createdAt > x.ttl
  }

  /** Completed and denied hold past the time limit; pending does not. */
  predicate IsPending(x: Session, now: int) {
    x.status == Pending && !IsExpired(x, now)
  }

  function Create(
    st: Store, token: Token, work: Work, risk: string, level: Level, params: map<string, string>,
    secretFields: set<string>, now: int): Store
  {
    var x := Session(token, work, risk, level, params, secretFields, now, CONFIRM_TOKEN_TTL_SECONDS, Pending, "", true);
    Store(Cleanup(st, now).sessions[token := x], st.issued + {token})
  }

  function Get(st: Store, token: Token, now: int): Option<Session> {
    if token !in st.sessions then None
    else
      var x := st.sessions[token];
      if IsExpired(x, now) && x.status == Pending then None else Some(x)
  }

  function Resolve(st: Store, token: Token, to: Status, actor: string, now: int): (Store, bool) {
    var x := Get(st, token, now);
    if x.None? || !IsPending(x.value, now) then (st, false)
    else (st.(sessions := st.sessions[token := x.value.(status := to, confirmedBy := actor)]), true)
  }

  function Complete(st: Store, token: Token, actor: string, now: int): (Store, bool) {
    Resolve(st, token, Completed, actor, now)
  }

  function Deny(st: Store, token: Token, actor: string, now: int): (Store, bool) {
    Resolve(st, token, Denied, actor, now)
  }

  function Stripped(x: Session): Session {
    x.(params := map[], held := false)
  }

  function Strip(st: Store, token: Token): (Store, bool) {
    if token in st.sessions && st.sessions[token].status == Completed
    then (st.(sessions := st.sessions[token := Stripped(st.sessions[token])]), true)
    else (st, false)
  }

  /** Unresolved and denied sessions go a minute after their time; completed ones stay, and lose
      a payload older than a day. */
  predicate Reaped(x: Session, now: int) {
    x.status != Completed && x.createdAt + x.ttl < now - CLEANUP_GRACE
  }

  predicate PayloadOverdue(x: Session, now: int) {
    x.status == Completed && x.createdAt < now - PAYLOAD_RETENTION_SECONDS
  }

  function Cleanup(st: Store, now: int): Store {
    st.(sessions := map token | token in st.sessions && !Reaped(st.sessions[token], now) ::
      if PayloadOverdue(st.sessions[token], now) then Stripped(st.sessions[token]) else st.sessions[token])
  }

  // ---- the store as the program keeps it ----------------------------------------------------------

  class SessionStore {
    var sessions: map<Token, Session>
    ghost var issued: set<Token>

    ghost function State(): Store
      reads this
    {
      Store(sessions, issued)
    }

    constructor ()
      ensures State() == Store(map[], {})
    {
      sessions, issued := map[], {};
    }

    /** `token` is the random value drawn for the new session. */
    method CreateSession(
      token: Token, work: Work, risk: string, level: Level, params: map<string, string>, secretFields: set<string>,
      now: int)
      returns (session: Session)
      requires token !in issued
      modifies this
      ensures State() == Create(old(State()), token, work, risk, level, params, secretFields, now)
      ensures token in sessions && session == sessions[token]
      ensures session == Session(token, work, risk, level, params, secretFields, now, 300, Pending, "", true)
    {
      CleanUp(now);
      session :=
        Session(token, work, risk, level, params, secretFields, now, CONFIRM_TOKEN_TTL_SECONDS, Pending, "", true);
      sessions, issued := sessions[token := session], issued + {token};
    }

    method GetSession(token: Token, now: int) returns (found: Option<Session>)
      ensures found == Get(State(), token, now)
    {
      if token !in sessions {
        return None;
      }
      var session := sessions[token];
      if IsExpired(session, now) && session.status != Completed && session.status != Denied {
        return None;
      }
      return Some(session);
    }

    method CompleteSession(token: Token, actor: string, now: int) returns (won: bool)
      modifies this
      ensures (State(), won) == Resolve(old(State()), token, Completed, actor, now)
    {
      won := ResolveSession(token, Completed, actor, now);
    }

    method DenySession(token: Token, actor: string, now: int) returns (won: bool)
      modifies this
      ensures (State(), won) == Resolve(old(State()), token, Denied, actor, now)
    {
      won := ResolveSession(token, Denied, actor, now);
    }

    method ResolveSession(token: Token, to: Status, actor: string, now: int) returns (won: bool)
      modifies this
      ensures (State(), won) == Resolve(old(State()), token, to, actor, now)
    {
      var found := GetSession(token, now);
      if found.None? || !IsPending(found.value, now) {
        return false;
      }
      sessions := sessions[token := sessions[token].(status := to, confirmedBy := actor)];
      return true;
    }

    method StripPayload(token: Token) returns (cleared: bool)
      modifies this
      ensures (State(), cleared) == Strip(old(State()), token)
    {
      if token !in sessions || sessions[token].status != Completed {
        return false;
      }
      sessions := sessions[token := Stripped(sessions[token])];
      return true;
    }

    method CleanUp(now: int)
      modifies this
      ensures State() == Cleanup(old(State()), now)
    {
      var kept := map token | token in sessions && !Reaped(sessions[token], now) :: sessions[token];
      sessions := map token | token in kept ::
        if PayloadOverdue(kept[token], now) then Stripped(kept[token]) else kept[token];
    }

    /** The newest pending session for a plan, unless it has expired. */
    method GetSessionByPlan(planId: string, now: int) returns (found: Option<Session>)
      ensures (forall token :: !IsPendingFor(sessions, planId, token)) ==> found == None
      ensures (exists token :: IsPendingFor(sessions, planId, token)) ==>
                exists token :: IsNewestPending(sessions, planId, token)
                  && found == if now <= sessions[token].createdAt + sessions[token].ttl
                              then Some(sessions[token]) else None
    {
      var todo := sessions.Keys;
      var best: Option<Token> := None;
      while todo != {}
        invariant todo <= sessions.Keys
        invariant best.Some? ==> best.value !in todo && IsPendingFor(sessions, planId, best.value)
        invariant forall token :: token !in todo && IsPendingFor(sessions, planId, token) ==>
                    best.Some? && sessions[token].createdAt <= sessions[best.value].createdAt
        decreases todo
      {
        var token :| token in todo;
        todo := todo - {token};
        if sessions[token].work == Plan(planId) && sessions[token].status == Pending {
          if best.None? || sessions[token].createdAt > sessions[best.value].createdAt {
            best := Some(token);
          }
        }
      }
      if best.None? || IsExpired(sessions[best.value], now) {
        return None;
      }
      return Some(sessions[best.value]);
    }
  }

  predicate IsPendingFor(sessions: map<Token, Session>, planId: string, token: Token) {
    token in sessions && sessions[token].work == Plan(planId) && sessions[token].status == Pending
  }

  ghost predicate IsNewestPending(sessions: map<Token, Session>, planId: string, token: Token) {
    && IsPendingFor(sessions, planId, token)
    && forall other :: IsPendingFor(sessions, planId, other) ==> sessions[other].createdAt <= sessions[token].createdAt
  }

  // ---- whole runs --------------------------------------------------------------------------------

  /** Anything any process may do to the shared table, each one atomic step. */
  datatype Op =
    | OpCreate(
        token: Token, work: Work, risk: string, level: Level, params: map<string, string>, secretFields: set<string>,
        now: int)
    | OpComplete(token: Token, actor: string, now: int)
    | OpDeny(token: Token, actor: string, now: int)
    | OpStrip(token: Token)
    | OpCleanup(now: int)

  /** A new session's token is random, so it is never one issued before. */
  function Apply(st: Store, op: Op): Store {
    match op
    case OpCreate(token, work, risk, level, params, secretFields, now) =>
      if token in st.issued then st else Create(st, token, work, risk, level, params, secretFields, now)
    case OpComplete(token, actor, now) => Complete(st, token, actor, now).0
    case OpDeny(token, actor, now) => Deny(st, token, actor, now).0
    case OpStrip(token) => Strip(st, token).0
    case OpCleanup(now) => Cleanup(st, now)
  }

  function Run(st: Store, ops: seq<Op>): Store
    decreases |ops|
  {
    if ops == [] then st else Run(Apply(st, ops[0]), ops[1..])
  }

  function Find(st: Store, token: Token): Option<Session> {
    if token in st.sessions then Some(st.sessions[token]) else None
  }

  /** What was asked for, and on what terms. */
  predicate SameTerms(a: Session, b: Session) {
    && a.token == b.token && a.work == b.work && a.risk == b.risk && a.level == b.level
    && a.secretFields == b.secretFields && a.createdAt == b.createdAt && a.ttl == b.ttl
  }

  /** All that time can do to a session whose token has been issued: resolve it once, strip all of its
      payload once it is completed, and forget it unless it is completed. */
  predicate Evolves(before: Option<Session>, after: Option<Session>) {
    if before.None? then after.None?
    else if after.None? then before.value.status != Completed
    else
      var (a, b) := (before.value, after.value);
      && SameTerms(a, b)
      && (a.status != Pending ==> b.status == a.status && b.confirmedBy == a.confirmedBy)
      && (b.status == Pending ==> b == a)
      && ((b.params == a.params && b.held == a.held) || (b.status == Completed && b.params == map[] && !b.held))
  }

  ghost predicate Sound(st: Store) {
    forall token :: token in st.sessions ==> token in st.issued && st.sessions[token].token == token
  }

  lemma StepEvolves(st: Store, op: Op, token: Token)
    requires Sound(st) && token in st.issued
    ensures Evolves(Find(st, token), Find(Apply(st, op), token))
  {
  }

  lemma StepKeepsSound(st: Store, op: Op)
    requires Sound(st)
    ensures Sound(Apply(st, op)) && st.issued <= Apply(st, op).issued
  {
  }

  /** Every session, over every run of the table: it is resolved at most once and then for good,
      its terms never change, its payload stays until it is completed, and a completed one is
      never deleted. */
  lemma {:induction false} SessionsEvolve(st: Store, ops: seq<Op>, token: Token)
    requires Sound(st) && token in st.issued
    ensures Sound(Run(st, ops)) && st.issued <= Run(st, ops).issued
    ensures Evolves(Find(st, token), Find(Run(st, ops), token))
    decreases |ops|
  {
    if ops != [] {
      StepEvolves(st, ops[0], token);
      StepKeepsSound(st, ops[0]);
      SessionsEvolve(Apply(st, ops[0]), ops[1..], token);
    }
  }

  /** Of all attempts to resolve a session, completing or denying, by anyone, one wins at most. */
  lemma ResolvedOnce(st: Store, token: Token, to: Status, actor: string, now: int,
                     between: seq<Op>, again: Status, other: string, later: int)
    requires Sound(st) && to != Pending && Resolve(st, token, to, actor, now).1
    ensures !Resolve(Run(Resolve(st, token, to, actor, now).0, between), token, again, other, later).1
  {
    var resolved := Resolve(st, token, to, actor, now).0;
    assert Sound(resolved) && token in resolved.issued;
    SessionsEvolve(resolved, between, token);
  }

  /** Once a cleanup has run, no session completed and older than a day ever has a payload again,
      whatever is done to the table afterwards; and it is still there. */
  lemma CleanupEndsPayloads(st: Store, now: int, token: Token, afterwards: seq<Op>)
    requires Sound(st) && token in st.sessions && st.sessions[token].status == Completed
    requires st.sessions[token].createdAt < now - PAYLOAD_RETENTION_SECONDS
    ensures var after := Run(Cleanup(st, now), afterwards);
            && token in after.sessions && !after.sessions[token].held && after.sessions[token].params == map[]
            && SameTerms(st.sessions[token], after.sessions[token])
  {
    StepKeepsSound(st, OpCleanup(now));
    SessionsEvolve(Cleanup(st, now), afterwards, token);
  }

  // ---- how long a token lives -------------------------------------------------------------------------

  /** The times of a step: every moment at which it has the table cleaned up. */
  predicate CleansAt(op: Op, now: int) {
    (op.OpCreate? || op.OpCleanup?) && op.now == now
  }

  /** A token made at `t` resolves its session, completing or denying it, exactly in the five minutes up to
      `t + 300` and while nobody has resolved it, whatever was done to the table meanwhile. */
  lemma TokenLivesFiveMinutes(
    st: Store, token: Token, work: Work, risk: string, level: Level, params: map<string, string>,
    secretFields: set<string>, t: int, between: seq<Op>, to: Status, actor: string, now: int)
    requires Sound(st) && token !in st.issued
    ensures var after := Run(Create(st, token, work, risk, level, params, secretFields, t), between);
            var (next, won) := Resolve(after, token, to, actor, now);
            && (won <==> token in after.sessions && after.sessions[token].status == Pending && now <= t + 300)
            && (won ==> token in next.sessions && next.sessions[token].status == to
                        && next.sessions[token].confirmedBy == actor)
            && (!won ==> next == after)
  {
    var made := Create(st, token, work, risk, level, params, secretFields, t);
    StepKeepsSound(st, OpCreate(token, work, risk, level, params, secretFields, t));
    SessionsEvolve(made, between, token);
  }

  /** The two ways to resolve a session: approving or consuming completes it, denying denies it. */
  lemma TwoWaysToResolve(st: Store, token: Token, actor: string, now: int)
    ensures Complete(st, token, actor, now) == Resolve(st, token, Completed, actor, now)
    ensures Deny(st, token, actor, now) == Resolve(st, token, Denied, actor, now)
    ensures Apply(st, OpComplete(token, actor, now)) == Resolve(st, token, Completed, actor, now).0
    ensures Apply(st, OpDeny(token, actor, now)) == Resolve(st, token, Denied, actor, now).0
  {
  }

  /** And it is seen for as long, or once it is resolved for as long as its row is there. */
  lemma TokenIsSeenFiveMinutes(
    st: Store, token: Token, work: Work, risk: string, level: Level, params: map<string, string>,
    secretFields: set<string>, t: int, between: seq<Op>, now: int)
    requires Sound(st) && token !in st.issued
    ensures var after := Run(Create(st, token, work, risk, level, params, secretFields, t), between);
            Get(after, token, now) ==
              if token in after.sessions && (after.sessions[token].status != Pending || now <= t + 300)
              then Some(after.sessions[token]) else None
  {
    StepKeepsSound(st, OpCreate(token, work, risk, level, params, secretFields, t));
    SessionsEvolve(Create(st, token, work, risk, level, params, secretFields, t), between, token);
  }

  /** What a strip takes: the payload of a completed session and nothing else of it, and it says so; of any
      other session nothing. */
  lemma StripTakesExactly(st: Store, token: Token)
    ensures var (after, cleared) := Strip(st, token);
            if token in st.sessions && st.sessions[token].status == Completed
            then
              var x := st.sessions[token];
              cleared && after == st.(sessions := st.sessions[token := x.(params := map[], held := false)])
            else !cleared && after == st
  {
  }

  /** What a cleanup takes: a row goes exactly if it is not completed and more than six minutes old. */
  lemma CleanupTakesExactly(st: Store, now: int, token: Token)
    requires token in st.sessions && st.sessions[token].ttl == 300
    ensures token in Cleanup(st, now).sessions <==>
            st.sessions[token].status == Completed || now <= st.sessions[token].createdAt + 360
    ensures token in Cleanup(st, now).sessions ==>
            var (x, y) := (st.sessions[token], Cleanup(st, now).sessions[token]);
            && SameTerms(x, y) && y.status == x.status && y.confirmedBy == x.confirmedBy
            && (y == x <==> !(x.status == Completed && x.createdAt + 86400 < now) || (x.params == map[] && !x.held))
  {
  }

  /** So no row is gone before its time: until somebody resolves it or six minutes have passed it stays,
      as it was made. */
  lemma {:induction false} LiveSessionStays(st: Store, token: Token, ops: seq<Op>)
    requires Sound(st) && token in st.sessions
    requires st.sessions[token].status == Pending && st.sessions[token].ttl == 300
    requires forall op <- ops :: !((op.OpComplete? || op.OpDeny?) && op.token == token)
    requires forall op, now :: op in ops && CleansAt(op, now) ==> now <= st.sessions[token].createdAt + 360
    ensures token in Run(st, ops).sessions && Run(st, ops).sessions[token] == st.sessions[token]
    decreases |ops|
  {
    if ops != [] {
      assert ops[0] in ops;
      if ops[0].OpCreate? || ops[0].OpCleanup? {
        assert CleansAt(ops[0], ops[0].now);
      }
      StepKeepsSound(st, ops[0]);
      LiveSessionStays(Apply(st, ops[0]), token, ops[1..]);
    }
  }
}
