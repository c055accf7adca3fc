/** What a gate, an approver and an onboarding pass come to in the interleaved system, told from what
    they meet. */
module ApprovalSteps {
  import opened Approval
  import opened ApprovalContext
  import opened ConfirmPolicy
  import opened ConfirmStore
  import opened Onboarding
  import opened Provisioning
  import opened SecretParams
  import opened Wrappers

  /** The caller's parameters that the catalog declares secret, as far as it can be asked. */
  function SecretsOf(request: Request): set<string> {
    if request.lookupFails then {} else set k | k in request.params && k in request.declared
  }

  /** A session as a gate makes it: pending for five minutes, with everything it was asked for. */
  predicate IsMadeFor(
    st: Store, token: Token, work: Work, risk: string, level: Level, params: map<string, string>,
    secretFields: set<string>, now: int)
  {
    && token in st.sessions
    && st.sessions[token] == Session(token, work, risk, level, params, secretFields, now, 300, Pending, "", true)
  }

  /** The operation gate: at level `none` the operation runs at once and the table is left alone; at any
      other a session is made, at that level and without the secrets, and nothing runs. */
  lemma OperationGateDecides(s: System, request: Request, token: Token, now: int)
    requires token !in s.st.issued
    ensures var (after, level) := (Next(s, GateOperation(request, token, now)),
                                   ResolveConfirmation(s.overrides, request.risk));
            && after.tasks == s.tasks && after.worlds == s.worlds && after.writes == s.writes
            && (level == NoConfirm ==>
                  after.st == s.st && after.done == s.done + [InlineOp(request.risk, s.overrides)])
            && (level != NoConfirm ==>
                  && after.done == s.done
                  && IsMadeFor(after.st, token, Operation(request.deviceId, request.operationId), request.risk, level,
                               map k | k in request.params && k !in SecretsOf(request) :: request.params[k],
                               SecretsOf(request), now))
  {
  }

  /** The action gate: an unknown action is refused; a known one waits at `url_only`, or at its risk word's
      level where the caller lets the operator choose. */
  lemma ActionGateDecides(
    s: System, action: string, risk: string, operatorConfigurable: bool, token: Token, now: int)
    requires token !in s.st.issued
    ensures var after := Next(s, GateAction(action, risk, operatorConfigurable, token, now));
            && after.tasks == s.tasks && after.done == s.done && after.worlds == s.worlds
            && if action in ACTION_EXECUTORS
               then IsMadeFor(after.st, token, Action(action), risk,
                              if operatorConfigurable then ResolveConfirmation(s.overrides, risk) else UrlOnly,
                              map[], {}, now)
               else after.st == s.st
  {
  }

  /** The actions there are. */
  lemma ActionsThatExist(action: string)
    ensures action in ACTION_EXECUTORS <==>
            action in {"accept_baseline", "add_ignore_rules", "delete_device", "delete_devices", "set_event_ingest",
                       "create_task", "update_task", "delete_task", "create_action_rule", "delete_action_rule",
                       "assign_demo_fragment", "adopt_demo", "start_demo_survey", "register_discovered_device",
                       "create_temp_credentials", "import_firmware", "provision_device_credentials",
                       "add_discovered_devices"}
  {
  }

  predicate IsLivePlanSession(st: Store, token: Token, planId: string, now: int) {
    && token in st.sessions && st.sessions[token].work == Plan(planId) && st.sessions[token].status == Pending
    && now <= st.sessions[token].createdAt + st.sessions[token].ttl
  }

  lemma PlanSessionIsMade(s: System, step: Step)
    requires step.GatePlan? && step.token !in s.st.issued && !HasLivePlanSession(s.st, step.planId, step.now)
    requires PlanLevel(s.overrides, step.risks) in {UrlOnly, UrlAndPassword}
    ensures var after := GateWholePlan(s, step);
            && after.done == s.done && after.tasks == s.tasks && after.worlds == s.worlds
            && IsMadeFor(after.st, step.token, Plan(step.planId), step.drivenBy, PlanLevel(s.overrides, step.risks),
                         map[], {}, step.now)
  {
  }

  /** The plan gate: it runs at once at `none`, or at `llm_confirm` with consent; without consent nothing
      happens; at a URL level it waits for the session it already has, if one is still live, and
      otherwise for a new one at the plan's level. */
  lemma PlanGateDecides(
    s: System, planId: string, risks: seq<string>, drivenBy: string, consent: bool, token: Token, now: int)
    requires token !in s.st.issued
    ensures var after := Next(s, GatePlan(planId, risks, drivenBy, consent, token, now));
            var (level, live) := (PlanLevel(s.overrides, risks),
                                  exists t: Token :: IsLivePlanSession(s.st, t, planId, now));
            if level == NoConfirm || (level == LlmConfirm && consent) then
              after == s.(done := s.done + [InlinePlan(risks, s.overrides, consent)])
            else if level == LlmConfirm || live then after == s
            else
              && after.done == s.done && after.tasks == s.tasks && after.worlds == s.worlds
              && IsMadeFor(after.st, token, Plan(planId), drivenBy, level, map[], {}, now)
  {
    LiveMeansLive(s.st, planId, now);
    var step := GatePlan(planId, risks, drivenBy, consent, token, now);
    assert Next(s, step) == GateWholePlan(s, step);
    if PlanLevel(s.overrides, risks) in {UrlOnly, UrlAndPassword} && !HasLivePlanSession(s.st, planId, now) {
      PlanSessionIsMade(s, step);
    }
  }

  lemma LiveMeansLive(st: Store, planId: string, now: int)
    ensures HasLivePlanSession(st, planId, now) <==> exists t: Token :: IsLivePlanSession(st, t, planId, now)
  {
    if t: Token :| IsLivePlanSession(st, t, planId, now) {
      assert t in st.sessions && st.sessions[t].work == Plan(planId) && IsPending(st.sessions[t], now);
    }
    if HasLivePlanSession(st, planId, now) {
      var t :| t in st.sessions && st.sessions[t].work == Plan(planId) && IsPending(st.sessions[t], now);
      assert IsLivePlanSession(st, t, planId, now);
    }
  }

  /** The approver can carry the work out: any plan, an action that exists, an operation whose secret fields
      were all typed in. */
  predicate IsRunnable(x: Session, supplied: map<string, string>) {
    match x.work
    case Plan(_) => true
    case Action(action) => action in ACTION_EXECUTORS
    case Operation(_, _) => forall f <- x.secretFields :: f in supplied && supplied[f] != ""
  }

  /** The approver's run: what can be carried out is carried out, exactly once and with no change to the
      table; and it stands in a scope of its own exactly for the four covering actions. */
  lemma ApprovalRunsTheWork(s: System, t: nat, supplied: map<string, string>)
    requires t in s.tasks && s.tasks[t].role.ApproveWon?
    ensures var (after, x, task) := (Next(s, ApproveRun(t, supplied)), s.tasks[t].role.session, s.tasks[t]);
            && after.st == s.st && after.worlds == s.worlds && t in after.tasks && after.tasks[t].role == Idle
            && (if IsRunnable(x, supplied)
                then && |after.done| == |s.done| + 1 && after.done[..|s.done|] == s.done
                     && after.done[|s.done|].Approved? && after.done[|s.done|].session == x
                     && after.done[|s.done|].supplied == supplied
                else after.done == s.done)
            && (if IsRunnable(x, supplied) && x.work.Action?
                   && x.work.action in {"start_demo_survey", "register_discovered_device",
                                        "provision_device_credentials", "add_discovered_devices"}
                then after.tasks[t].ctx == Some(Marker(x.work.action, x.token))
                     && after.tasks[t].saved == task.saved + [task.ctx]
                else after.tasks[t].ctx == task.ctx && after.tasks[t].saved == task.saved)
  {
  }

  /** Onboarding asks the context of the task it runs in, and nothing else, whether it is approved. */
  lemma OnboardingAsksTheContext(s: System, t: nat, device: string, call: Call)
    requires t in s.tasks && device in s.worlds
    ensures var (after, ctx) := (Next(s, OnboardPass(t, device, call)), s.tasks[t].ctx);
            var approved := ctx.Some? && ctx.value.action in {"start_demo_survey", "register_discovered_device",
                                                              "provision_device_credentials",
                                                              "add_discovered_devices"};
            && after.worlds == s.worlds[device := Onboard(s.worlds[device], call.(approved := approved)).0]
            && after.st == s.st && after.tasks == s.tasks && after.done == s.done
  {
  }

  /** Whatever else is done to the table is done to it alone; sessions are made by the gates. */
  lemma OtherStoreStepsInFull(s: System, op: Op, overrides: map<string, string>)
    ensures Next(s, StoreStep(op)) == if op.OpCreate? then s else s.(st := ConfirmStore.Apply(s.st, op))
    ensures Next(s, Configure(overrides)) == s.(overrides := overrides)
  {
  }

  /** A spawned task starts with its parent's context and no scope to leave; leaving goes back one scope. */
  lemma ScopesInFull(s: System, t: nat, child: nat)
    requires t in s.tasks
    ensures child !in s.tasks ==>
              Next(s, SpawnTask(t, child)) == s.(tasks := s.tasks[child := Task(s.tasks[t].ctx, [], Idle)])
    ensures child in s.tasks ==> Next(s, SpawnTask(t, child)) == s
    ensures var n := |s.tasks[t].saved|;
            Next(s, Leave(t)) ==
              if n == 0 then s
              else s.(tasks := s.tasks[t := Task(s.tasks[t].saved[n - 1], s.tasks[t].saved[..n - 1], s.tasks[t].role)])
  {
  }
}
