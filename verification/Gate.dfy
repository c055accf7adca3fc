/** The gate and the consumer as the program runs them, one call at a time, over the session table. */
module Gate {
  import opened Approval
  import opened ConfirmPolicy
  import opened ConfirmStore
  import opened SecretParams
  import opened Wrappers

  // ---- the gate ------------------------------------------------------------------------------------------

  datatype Gated = RunNow | Held(session: Session)

  /** The secret values a caller gives do not get into the session, unless the lookup of them fails. */
  method ExecuteGatedOperation(
    store: SessionStore, overrides: map<string, string>, request: Request, token: Token, now: int)
    returns (r: Gated)
    requires token !in store.issued
    modifies store
    ensures r.RunNow? <==> ResolveConfirmation(overrides, request.risk) == NoConfirm
    ensures r.RunNow? ==> store.State() == old(store.State())
    ensures r.Held? ==>
              && store.State()
                 == ConfirmStore.Apply(old(store.State()), OperationSession(overrides, request, token, now))
              && token in store.sessions && r.session == store.sessions[token] && IsPending(r.session, now)
              && r.session.secretFields == (if request.lookupFails then {} else request.params.Keys * request.declared)
              && r.session.params.Keys == request.params.Keys - r.session.secretFields
  {
    var level := ResolveConfirmation(overrides, request.risk);
    if level != NoConfirm {
      var secretFields := SecretParamNames(request.declared, request.lookupFails, request.params);
      var session := store.CreateSession(
        token, Operation(request.deviceId, request.operationId), request.risk, level,
        StoredParams(request.params, secretFields), secretFields, now);
      return Held(session);
    }
    return RunNow;
  }

  /** Actions wait at `url_only` whatever the overrides say, unless the caller lets the operator
      configure them; an unknown action is refused. */
  method CreateActionSession(
    store: SessionStore, overrides: map<string, string>, action: string, risk: string, operatorConfigurable: bool,
    token: Token, now: int)
    returns (created: Option<Session>)
    requires token !in store.issued
    modifies store
    ensures created.None? <==> action !in ACTION_EXECUTORS
    ensures created.None? ==> store.State() == old(store.State())
    ensures created.Some? ==>
              && store.State()
                 == ConfirmStore.Apply(
                      old(store.State()), ActionSession(overrides, action, risk, operatorConfigurable, token, now))
              && token in store.sessions && created == Some(store.sessions[token])
              && created.value.level == if operatorConfigurable then ResolveConfirmation(overrides, risk) else UrlOnly
  {
    if action !in ACTION_EXECUTORS {
      return None;
    }
    var level := if operatorConfigurable then ResolveConfirmation(overrides, risk) else UrlOnly;
    var session := store.CreateSession(token, Action(action), risk, level, map[], {}, now);
    return Some(session);
  }

  // ---- the consumer --------------------------------------------------------------------------------------

  datatype Consumption = Invalid | UrlBlocked | NeedsSecrets | AlreadyUsed | Ran(session: Session)

  /** One call of the consumer: it reads at `now` and completes at `later`. */
  function Consume(st: Store, token: Token, actor: string, urlBlock: bool, now: int, later: int): (Store, Consumption) {
    var x := Get(st, token, now);
    if x.None? || !IsPending(x.value, now) then (st, Invalid)
    else if urlBlock && IsUrlLevel(x.value.level) then (st, UrlBlocked)
    else if x.value.secretFields != {} then (st, NeedsSecrets)
    else
      var (done, won) := Complete(st, token, actor, later);
      (done, if won then Ran(x.value) else AlreadyUsed)
  }

  /** Which call runs the work, and why another does not, told from the row alone: by its status and its
      five minutes when it is read, the URL levels when the block is on, the secret fields, and its
      five minutes again when it is completed. */
  lemma ConsumptionIsDecidedByTheRow(
    st: Store, token: Token, actor: string, urlBlock: bool, now: int, later: int)
    requires Sound(st) && (token in st.sessions ==> st.sessions[token].ttl == 300)
    ensures var (after, r) := Consume(st, token, actor, urlBlock, now, later);
            if token !in st.sessions || st.sessions[token].status != Pending || now > st.sessions[token].createdAt + 300
            then r == Invalid && after == st
            else
              var x := st.sessions[token];
              if urlBlock && x.level in {UrlOnly, UrlAndPassword} then r == UrlBlocked && after == st
              else if x.secretFields != {} then r == NeedsSecrets && after == st
              else if later > x.createdAt + 300 then r == AlreadyUsed && after == st
              else
                r == Ran(x)
                && after == st.(sessions := st.sessions[token := x.(status := Completed, confirmedBy := actor)])
  {
  }

  method ConsumeConfirmation(
    store: SessionStore, token: Token, actor: string, urlBlock: bool, now: int, later: int, tailSucceeds: bool)
    returns (r: Consumption)
    modifies store
    ensures r == Consume(old(store.State()), token, actor, urlBlock, now, later).1
    ensures store.State() == var st := Consume(old(store.State()), token, actor, urlBlock, now, later).0;
                             if r.Ran? && tailSucceeds then Strip(st, token).0 else st
  {
    var found := store.GetSession(token, now);
    if found.None? || !IsPending(found.value, now) {
      return Invalid;
    }
    var session := found.value;
    if urlBlock && IsUrlLevel(session.level) {
      return UrlBlocked;
    }
    if session.secretFields != {} {
      return NeedsSecrets;
    }
    var won := store.CompleteSession(token, actor, later);
    if !won {
      return AlreadyUsed;
    }
    if tailSucceeds {
      var stripped := store.StripPayload(token);
    }
    return Ran(session);
  }

  lemma ReadIsFirst(s: System, t: nat, token: Token, actor: string, urlBlock: bool, now: int, later: int)
    requires t in s.tasks && s.tasks[t].role.Idle?
    ensures var s1 := Next(s, ConsumeRead(t, token, urlBlock, now));
            var r := Consume(s.st, token, actor, urlBlock, now, later).1;
            if r.Ran? || r.AlreadyUsed?
            then Get(s.st, token, now).Some? && s1 == WithRole(s, t, Consuming(Get(s.st, token, now).value, urlBlock))
            else s1 == s
  {
  }

  lemma CompleteIsSecond(s: System, t: nat, x: Session, actor: string, urlBlock: bool, later: int)
    requires t in s.tasks && s.tasks[t].role == Consuming(x, urlBlock)
    ensures var (st, won) := Complete(s.st, x.token, actor, later);
            Next(s, ConsumeComplete(t, actor, later))
            == WithRole(s.(st := st), t, if won then ConsumeWon(x, urlBlock) else Idle)
  {
  }

  lemma RunIsThird(s: System, t: nat, x: Session, urlBlock: bool, succeeded: bool)
    requires t in s.tasks && s.tasks[t].role == ConsumeWon(x, urlBlock)
    ensures var s' := Next(s, ConsumeRun(t, succeeded));
            && s'.done == s.done + [Consumed(x, urlBlock, x.params)]
            && s'.st == if succeeded then Strip(s.st, x.token).0 else s.st
  {
  }

  /** The call is the three steps of the interleaved system with nothing in between: what is proved
      of every interleaving holds of it. */
  lemma ConsumeIsThreeSteps(
    s: System, t: nat, token: Token, actor: string, urlBlock: bool, now: int, later: int, succeeded: bool)
    requires t in s.tasks && s.tasks[t].role.Idle? && Sound(s.st)
    ensures var (st, r) := Consume(s.st, token, actor, urlBlock, now, later);
            var s1 := Next(s, ConsumeRead(t, token, urlBlock, now));
            var s2 := Next(s1, ConsumeComplete(t, actor, later));
            var s3 := Next(s2, ConsumeRun(t, succeeded));
            && s2.st == st
            && s3.done == s.done + (if r.Ran? then [Consumed(r.session, urlBlock, r.session.params)] else [])
            && s3.st == if r.Ran? && succeeded then Strip(st, token).0 else st
  {
    ReadIsFirst(s, t, token, actor, urlBlock, now, later);
    var r := Consume(s.st, token, actor, urlBlock, now, later).1;
    if r.Ran? || r.AlreadyUsed? {
      var x := Get(s.st, token, now).value;
      assert x.token == token;
      var s1 := Next(s, ConsumeRead(t, token, urlBlock, now));
      CompleteIsSecond(s1, t, x, actor, urlBlock, later);
      if r.Ran? {
        RunIsThird(Next(s1, ConsumeComplete(t, actor, later)), t, x, urlBlock, succeeded);
      } else {
        assert s.done + [] == s.done;
      }
    } else {
      assert s.done + [] == s.done;
    }
  }

  /** So a token runs through at most one of any two calls. */
  lemma SecondConsumerGetsNothing(
    st: Store, token: Token, actor: string, urlBlock: bool, now: int, later: int, between: seq<Op>,
    other: string, otherBlock: bool, now2: int, later2: int)
    requires Sound(st) && Consume(st, token, actor, urlBlock, now, later).1.Ran?
    ensures var meanwhile := Run(Consume(st, token, actor, urlBlock, now, later).0, between);
            !Consume(meanwhile, token, other, otherBlock, now2, later2).1.Ran?
  {
    ResolvedOnce(st, token, Completed, actor, later, between, Completed, other, later2);
  }
}
