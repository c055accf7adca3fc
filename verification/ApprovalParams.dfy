/** The parameters of a held operation, from its caller through the session table to whatever runs,
    over every interleaving of tasks. */
module ApprovalParams {
  import opened Approval
  import opened ConfirmPolicy
  import opened ConfirmStore
  import opened SecretParams
  import opened Wrappers

  predicate TermsOf(x: Session, request: Request) {
    && x.work == Operation(request.deviceId, request.operationId) && x.risk == request.risk
    && x.secretFields == SecretParamNames(request.declared, request.lookupFails, request.params)
  }

  /** The session holds what its caller asked for, without the secret values. */
  predicate AsAsked(asked: map<Token, Request>, x: Session) {
    if x.work.Operation? then
      x.token in asked && TermsOf(x, asked[x.token]) && x.params == StoredParams(asked[x.token].params, x.secretFields)
    else x.params == map[] && x.secretFields == {}
  }

  /** So does a row of the table, until its payload is cleared. */
  predicate RowAsAsked(asked: map<Token, Request>, x: Session) {
    || AsAsked(asked, x)
    || (x.status == Completed && x.params == map[]
        && if x.work.Operation? then x.token in asked && TermsOf(x, asked[x.token]) else x.secretFields == {})
  }

  /** What ran is what was asked for. */
  predicate RanAsAsked(asked: map<Token, Request>, d: Executed) {
    match d
    case Consumed(x, _, ran) =>
      x.work.Operation? ==>
        x.token in asked && TermsOf(x, asked[x.token]) && ran == StoredParams(asked[x.token].params, x.secretFields)
    case Approved(x, supplied, ran) =>
      x.work.Operation? ==>
        x.token in asked && TermsOf(x, asked[x.token])
        && IsAskedWith(ran, asked[x.token].params, x.secretFields, supplied)
    case _ => true
  }

  ghost predicate ParamsKept(s: System) {
    && s.asked.Keys <= s.st.issued
    && (forall token :: token in s.st.sessions ==> RowAsAsked(s.asked, s.st.sessions[token]))
    && (forall t :: t in s.tasks && !s.tasks[t].role.Idle? ==> AsAsked(s.asked, s.tasks[t].role.session))
    && (forall i :: 0 <= i < |s.done| ==> RanAsAsked(s.asked, s.done[i]))
  }

  // ---- each step ----------------------------------------------------------------------------------------

  lemma CleanupKeepsRows(asked: map<Token, Request>, st: Store, now: int)
    requires forall token :: token in st.sessions ==> RowAsAsked(asked, st.sessions[token])
    ensures forall token :: token in Cleanup(st, now).sessions ==> RowAsAsked(asked, Cleanup(st, now).sessions[token])
  {
  }

  lemma StoreStepKeepsParams(s: System, op: Op)
    requires ParamsKept(s) && Sound(s.st) && !op.OpCreate?
    ensures ParamsKept(s.(st := ConfirmStore.Apply(s.st, op)))
  {
    if op.OpCleanup? {
      CleanupKeepsRows(s.asked, s.st, op.now);
    }
  }

  /** A session created from a request, or one that is no operation's. */
  lemma CreatingKeepsParams(s: System, op: Op, asked: map<Token, Request>)
    requires ParamsKept(s) && op.OpCreate? && op.token !in s.st.issued
    requires asked.Keys <= s.asked.Keys + {op.token}
    requires forall token :: token in s.asked ==> token in asked && asked[token] == s.asked[token]
    requires AsAsked(asked, ConfirmStore.Apply(s.st, op).sessions[op.token])
    ensures ParamsKept(s.(st := ConfirmStore.Apply(s.st, op), asked := asked))
  {
    AskedGrows(s, asked);
    CleanupKeepsRows(asked, s.st, op.now);
  }

  lemma AskedGrows(s: System, asked: map<Token, Request>)
    requires ParamsKept(s) && forall token :: token in s.asked ==> token in asked && asked[token] == s.asked[token]
    ensures forall token :: token in s.st.sessions ==> RowAsAsked(asked, s.st.sessions[token])
    ensures forall t :: t in s.tasks && !s.tasks[t].role.Idle? ==> AsAsked(asked, s.tasks[t].role.session)
    ensures forall i :: 0 <= i < |s.done| ==> RanAsAsked(asked, s.done[i])
  {
  }

  lemma GateOpKeepsParams(s: System, request: Request, token: Token, now: int)
    requires ParamsKept(s)
    ensures ParamsKept(GateOp(s, request, token, now))
  {
    if ResolveConfirmation(s.overrides, request.risk) == NoConfirm {
      DoneKeepsParams(s, InlineOp(request.risk, s.overrides));
    } else if token !in s.st.issued {
      CreatingKeepsParams(s, OperationSession(s.overrides, request, token, now), s.asked[token := request]);
    }
  }

  lemma GatePlanKeepsParams(s: System, step: Step)
    requires ParamsKept(s) && step.GatePlan?
    ensures ParamsKept(GateWholePlan(s, step))
  {
    var level := PlanLevel(s.overrides, step.risks);
    if level == NoConfirm || (level == LlmConfirm && step.consent) {
      DoneKeepsParams(s, InlinePlan(step.risks, s.overrides, step.consent));
    } else if step.token !in s.st.issued {
      CreatingKeepsParams(s, PlanSession(s.overrides, step), s.asked);
    }
  }

  lemma GateStepKeepsParams(s: System, step: Step)
    requires ParamsKept(s) && Sound(s.st) && IsGate(step)
    ensures ParamsKept(GateStep(s, step))
  {
    match step
    case Configure(_) =>
    case StoreStep(op) =>
      if !op.OpCreate? {
        StoreStepKeepsParams(s, op);
      }
    case GateOperation(request, token, now) => GateOpKeepsParams(s, request, token, now);
    case GateAction(action, risk, operatorConfigurable, token, now) =>
      if token !in s.st.issued {
        CreatingKeepsParams(s, ActionSession(s.overrides, action, risk, operatorConfigurable, token, now), s.asked);
      }
    case GatePlan(_, _, _, _, _, _) => GatePlanKeepsParams(s, step);
  }

  lemma RoleKeepsParams(s: System, t: nat, task: Task)
    requires ParamsKept(s) && (task.role.Idle? || AsAsked(s.asked, task.role.session))
    ensures ParamsKept(s.(tasks := s.tasks[t := task]))
  {
  }

  /** A pending row has its payload: whoever reads it remembers the whole request. */
  lemma ReadsKeepParams(s: System, t: nat, token: Token, urlBlock: bool, now: int)
    requires ParamsKept(s) && t in s.tasks
    ensures ParamsKept(DoConsumeRead(s, t, token, urlBlock, now)) && ParamsKept(DoApproveRead(s, t, token, now))
  {
    var x := Get(s.st, token, now);
    if x.Some? && IsPending(x.value, now) {
      assert RowAsAsked(s.asked, s.st.sessions[token]);
      RoleKeepsParams(s, t, s.tasks[t].(role := Consuming(x.value, urlBlock)));
      RoleKeepsParams(s, t, s.tasks[t].(role := Approving(x.value)));
    }
  }

  lemma CompletesKeepParams(s: System, t: nat, actor: string, now: int)
    requires ParamsKept(s) && Sound(s.st) && t in s.tasks
    ensures s.tasks[t].role.Consuming? ==> ParamsKept(DoConsumeComplete(s, t, actor, now))
    ensures s.tasks[t].role.Approving? ==> ParamsKept(DoApproveComplete(s, t, actor, now))
  {
    var role := s.tasks[t].role;
    if role.Consuming? || role.Approving? {
      var op := OpComplete(role.session.token, actor, now);
      StoreStepKeepsParams(s, op);
      var done := s.(st := ConfirmStore.Apply(s.st, op));
      RoleKeepsParams(done, t, done.tasks[t].(role := Idle));
      RoleKeepsParams(done, t, done.tasks[t].(role := ApproveWon(role.session)));
      if role.Consuming? {
        RoleKeepsParams(done, t, done.tasks[t].(role := ConsumeWon(role.session, role.urlBlock)));
      }
    }
  }

  lemma DoneKeepsParams(s: System, d: Executed)
    requires ParamsKept(s) && RanAsAsked(s.asked, d)
    ensures ParamsKept(s.(done := s.done + [d]))
  {
  }

  lemma ConsumeRunKeepsParams(s: System, t: nat, succeeded: bool)
    requires ParamsKept(s) && Sound(s.st) && t in s.tasks && s.tasks[t].role.ConsumeWon?
    ensures ParamsKept(DoConsumeRun(s, t, succeeded))
  {
    var role := s.tasks[t].role;
    var d := Consumed(role.session, role.urlBlock, role.session.params);
    var idle := s.(tasks := s.tasks[t := s.tasks[t].(role := Idle)]);
    RoleKeepsParams(s, t, s.tasks[t].(role := Idle));
    DoneKeepsParams(idle, d);
    StoreStepKeepsParams(idle.(done := s.done + [d]), OpStrip(role.session.token));
  }

  lemma ApproveRunKeepsParams(s: System, t: nat, supplied: map<string, string>)
    requires ParamsKept(s) && t in s.tasks && s.tasks[t].role.ApproveWon?
    ensures ParamsKept(DoApproveRun(s, t, supplied))
  {
    var x := s.tasks[t].role.session;
    RoleKeepsParams(s, t, DoApproveRun(s, t, supplied).tasks[t]);
    if CanRun(x, supplied) {
      if x.work.Operation? {
        MergedAreThoseAsked(s.asked[x.token].params, x.secretFields, supplied);
      }
      DoneKeepsParams(s.(tasks := DoApproveRun(s, t, supplied).tasks), ApprovedRun(x, supplied));
    }
  }

  lemma NextKeepsParams(s: System, step: Step)
    requires Good(s) && ParamsKept(s)
    ensures ParamsKept(Next(s, step))
  {
    match step
    case ConsumeRead(t, token, urlBlock, now) =>
      if t in s.tasks {
        ReadsKeepParams(s, t, token, urlBlock, now);
      }
    case ApproveRead(t, token, now) =>
      if t in s.tasks {
        ReadsKeepParams(s, t, token, false, now);
      }
    case ConsumeComplete(t, actor, now) =>
      if t in s.tasks {
        CompletesKeepParams(s, t, actor, now);
      }
    case ApproveComplete(t, actor, now) =>
      if t in s.tasks {
        CompletesKeepParams(s, t, actor, now);
      }
    case ConsumeRun(t, succeeded) =>
      if t in s.tasks && s.tasks[t].role.ConsumeWon? {
        ConsumeRunKeepsParams(s, t, succeeded);
      }
    case ApproveRun(t, supplied) =>
      if t in s.tasks && s.tasks[t].role.ApproveWon? {
        ApproveRunKeepsParams(s, t, supplied);
      }
    case Leave(t) =>
      if t in s.tasks && s.tasks[t].saved != [] {
        RoleKeepsParams(s, t, DoLeave(s, t).tasks[t]);
      }
    case SpawnTask(t, child) =>
      if t in s.tasks {
        RoleKeepsParams(s, child, Task(s.tasks[t].ctx, [], Idle));
      }
    case OnboardPass(_, _, _) =>
    case _ => GateStepKeepsParams(s, step);
  }

  lemma {:induction false} RunKeepsParams(s: System, steps: seq<Step>)
    requires Good(s) && ParamsKept(s)
    ensures Good(RunSystem(s, steps)) && ParamsKept(RunSystem(s, steps))
    decreases |steps|
  {
    if steps != [] {
      NextKeepsGood(s, steps[0]);
      NextKeepsParams(s, steps[0]);
      RunKeepsParams(Next(s, steps[0]), steps[1..]);
    }
  }

  // ---- the main results -----------------------------------------------------------------------------------

  /** What a session is for is settled by the call that created it: the request of the first gated
      call with its token, never changed afterwards. */
  lemma AskedIsTheCall(s: System, step: Step, token: Token)
    requires ParamsKept(s)
    ensures token in s.asked ==> token in Next(s, step).asked && Next(s, step).asked[token] == s.asked[token]
    ensures token !in s.asked && token in Next(s, step).asked ==>
              step.GateOperation? && step.token == token && Next(s, step).asked[token] == step.request
  {
  }

  /** What the table may hold of an operation's parameters, in every reachable state: the row never has
      a field it says is secret; it has none but the values of the call that created it, and all of
      the others until its payload is cleared. And the exception to keeping declared secrets out of
      it: a row not yet completed has one exactly if its caller gave one and the lookup failed. */
  lemma SecretsReachTheTableIffUnclassified(s: System, steps: seq<Step>, token: Token)
    requires Fresh(s) && token in RunSystem(s, steps).st.sessions
    ensures var (x, asked) := (RunSystem(s, steps).st.sessions[token], RunSystem(s, steps).asked);
            && x.params.Keys !! x.secretFields
            && (!x.work.Operation? ==> x.params == map[] && x.secretFields == {})
            && (x.work.Operation? ==>
                  && token in asked
                  && var r := asked[token];
                     && (!r.lookupFails ==> x.params.Keys !! r.declared)
                     && (x.status != Completed ==>
                           && x.params.Keys + x.secretFields == r.params.Keys
                           && (x.params.Keys !! r.declared <==> !r.lookupFails || r.params.Keys !! r.declared))
                     && (forall k :: k in x.params ==> k in r.params && x.params[k] == r.params[k]))
  {
    FreshIsGood(s);
    RunKeepsParams(s, steps);
    var after := RunSystem(s, steps);
    assert Sound(after.st) && RowAsAsked(after.asked, after.st.sessions[token]);
  }

  /** Whatever happened between the call and the run, an operation that runs through a session is the
      one its caller asked for, on that device, with exactly the caller's parameters: through a
      consumer none of them known to be secret, through an approver each of those as typed there. */
  lemma WhatRunsIsWhatWasAsked(s: System, steps: seq<Step>, i: nat)
    requires Fresh(s) && i < |RunSystem(s, steps).done|
    requires var d := RunSystem(s, steps).done[i]; (d.Consumed? || d.Approved?) && d.session.work.Operation?
    ensures var (d, asked) := (RunSystem(s, steps).done[i], RunSystem(s, steps).asked);
            && d.session.token in asked
            && var r := asked[d.session.token];
               && d.session.work == Operation(r.deviceId, r.operationId) && d.session.risk == r.risk
               && (d.Consumed? ==> d.ran == r.params && (r.lookupFails || r.params.Keys !! r.declared))
               && (d.Approved? ==>
                     var secretFields := if r.lookupFails then {} else r.params.Keys * r.declared;
                     IsAskedWith(d.ran, r.params, secretFields, d.supplied))
  {
    FreshIsGood(s);
    RunKeepsParams(s, steps);
    var after := RunSystem(s, steps);
    assert DoneOk(after.st, after.done[i]) && RanAsAsked(after.asked, after.done[i]);
  }
}
