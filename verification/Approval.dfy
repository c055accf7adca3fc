/** Operations behind the confirmation gate: when work runs at once, when it waits for a session,
    who may run it then, and what an approval covers, over every interleaving of tasks. */
module Approval {
  import opened ApprovalContext
  import opened ConfirmPolicy
  import opened ConfirmStore
  import opened Onboarding
  import opened Provisioning
  import opened SecretParams
  import opened Wrappers

  // ---- tasks --------------------------------------------------------------------------------------

  /** How far a task is with the session it is resolving. */
  datatype Role =
    | Idle
    | Consuming(session: Session, urlBlock: bool)
    | ConsumeWon(session: Session, urlBlock: bool)
    | Approving(session: Session)
    | ApproveWon(session: Session)

  /** A task's context variable, the values its open scopes will restore, and its role. */
  datatype Task = Task(ctx: Option<Marker>, saved: seq<Option<Marker>>, role: Role)

  /** Work that has run, and on what authority: through a session, with which of an operation's
      parameters. */
  datatype Executed =
    | InlineOp(risk: string, overrides: map<string, string>)
    | InlinePlan(risks: seq<string>, overrides: map<string, string>, consent: bool)
    | Consumed(session: Session, urlBlock: bool, ran: map<string, string>)
    | Approved(session: Session, supplied: map<string, string>, ran: map<string, string>)

  /** An onboarding pass that changed a device's accounts or its stored one, and the context it ran in. */
  datatype AccountWrite = AccountWrite(device: string, ctx: Option<Marker>)

  /** What a caller asks for; `declared` are the parameters the catalog declares secret, `lookupFails`
      whether looking them up finds no entry or raises. */
  datatype Request = Request(
    deviceId: string, operationId: string, risk: string, params: map<string, string>,
    declared: set<string>, lookupFails: bool)

  /** `asked` remembers, for each session of an operation, what its caller asked for. */
  datatype System = System(
    st: Store, tasks: map<nat, Task>, overrides: map<string, string>, worlds: map<string, World>,
    done: seq<Executed>, writes: seq<AccountWrite>, asked: map<Token, Request>)

  /** Sessions are created by the three gates alone; anything else may touch the table otherwise. */
  datatype Step =
    | Configure(overrides: map<string, string>)
    | StoreStep(op: Op)
    | GateOperation(request: Request, token: Token, now: int)
    | GateAction(action: string, risk: string, operatorConfigurable: bool, token: Token, now: int)
    | GatePlan(planId: string, risks: seq<string>, drivenBy: string, consent: bool, token: Token, now: int)
    | ConsumeRead(task: nat, token: Token, urlBlock: bool, now: int)
    | ConsumeComplete(task: nat, actor: string, now: int)
    | ConsumeRun(task: nat, succeeded: bool)
    | ApproveRead(task: nat, token: Token, now: int)
    | ApproveComplete(task: nat, actor: string, now: int)
    | ApproveRun(task: nat, supplied: map<string, string>)
    | Leave(task: nat)
    | SpawnTask(task: nat, child: nat)
    | OnboardPass(task: nat, device: string, call: Call)

  function WithRole(s: System, t: nat, role: Role): System
    requires t in s.tasks
  {
    s.(tasks := s.tasks[t := s.tasks[t].(role := role)])
  }

  /** The session of an operation that must wait: without the values of its secret parameters. */
  function OperationSession(overrides: map<string, string>, request: Request, token: Token, now: int): Op {
    var secretFields := SecretParamNames(request.declared, request.lookupFails, request.params);
    OpCreate(token, Operation(request.deviceId, request.operationId), request.risk,
             ResolveConfirmation(overrides, request.risk), StoredParams(request.params, secretFields), secretFields,
             now)
  }

  /** An operation runs at once only at level `none`; otherwise a session is created for it. */
  function GateOp(s: System, request: Request, token: Token, now: int): System {
    if ResolveConfirmation(s.overrides, request.risk) == NoConfirm then
      s.(done := s.done + [InlineOp(request.risk, s.overrides)])
    else
      s.(st := ConfirmStore.Apply(s.st, OperationSession(s.overrides, request, token, now)),
         asked := if token in s.st.issued then s.asked else s.asked[token := request])
  }

  /** Actions wait at `url_only` whatever the overrides say, unless the caller lets the operator
      configure them. */
  function ActionSession(
    overrides: map<string, string>, action: string, risk: string, operatorConfigurable: bool, token: Token, now: int)
    : Op
  {
    var level := if operatorConfigurable then ResolveConfirmation(overrides, risk) else UrlOnly;
    OpCreate(token, Action(action), risk, level, map[], {}, now)
  }

  function PlanSession(overrides: map<string, string>, step: Step): Op
    requires step.GatePlan?
  {
    OpCreate(step.token, Plan(step.planId), step.drivenBy, PlanLevel(overrides, step.risks), map[], {}, step.now)
  }

  predicate HasLivePlanSession(st: Store, planId: string, now: int) {
    exists token ::
      token in st.sessions && st.sessions[token].work == Plan(planId) && IsPending(st.sessions[token], now)
  }

  /** A plan at a `url` level waits for a session, the one it already has if that is still pending. */
  function GateWholePlan(s: System, step: Step): System
    requires step.GatePlan?
  {
    var level := PlanLevel(s.overrides, step.risks);
    if level == NoConfirm || (level == LlmConfirm && step.consent) then
      s.(done := s.done + [InlinePlan(step.risks, s.overrides, step.consent)])
    else if level == LlmConfirm || HasLivePlanSession(s.st, step.planId, step.now) then s
    else s.(st := ConfirmStore.Apply(s.st, PlanSession(s.overrides, step)))
  }

  /** What a consumer without a password is allowed to go on with. */
  predicate MayConsume(x: Session, urlBlock: bool) {
    !(urlBlock && IsUrlLevel(x.level)) && x.secretFields == {}
  }

  function DoConsumeRead(s: System, t: nat, token: Token, urlBlock: bool, now: int): System
    requires t in s.tasks
  {
    var x := Get(s.st, token, now);
    if x.None? || !IsPending(x.value, now) || !MayConsume(x.value, urlBlock) then s
    else WithRole(s, t, Consuming(x.value, urlBlock))
  }

  function DoConsumeComplete(s: System, t: nat, actor: string, now: int): System
    requires t in s.tasks && s.tasks[t].role.Consuming?
  {
    var role := s.tasks[t].role;
    var (st, won) := Complete(s.st, role.session.token, actor, now);
    WithRole(s.(st := st), t, if won then ConsumeWon(role.session, role.urlBlock) else Idle)
  }

  function DoConsumeRun(s: System, t: nat, succeeded: bool): System
    requires t in s.tasks && s.tasks[t].role.ConsumeWon?
  {
    var role := s.tasks[t].role;
    var ran := s.(done := s.done + [Consumed(role.session, role.urlBlock, role.session.params)]);
    WithRole(if succeeded then ran.(st := Strip(s.st, role.session.token).0) else ran, t, Idle)
  }

  function DoApproveRead(s: System, t: nat, token: Token, now: int): System
    requires t in s.tasks
  {
    var x := Get(s.st, token, now);
    if x.None? || !IsPending(x.value, now) then s else WithRole(s, t, Approving(x.value))
  }

  function DoApproveComplete(s: System, t: nat, actor: string, now: int): System
    requires t in s.tasks && s.tasks[t].role.Approving?
  {
    var x := s.tasks[t].role.session;
    var (st, won) := Complete(s.st, x.token, actor, now);
    WithRole(s.(st := st), t, if won then ApproveWon(x) else Idle)
  }

  /** The actions that exist; only some of them cover account writes. */
  const ACTION_EXECUTORS: set<string> :=
    {"accept_baseline", "add_ignore_rules", "delete_device", "delete_devices", "set_event_ingest", "create_task",
     "update_task", "delete_task", "create_action_rule", "delete_action_rule", "assign_demo_fragment", "adopt_demo",
     "start_demo_survey", "register_discovered_device", "create_temp_credentials", "import_firmware",
     "provision_device_credentials", "add_discovered_devices"}

  /** What an approver can carry out: any plan, a known action, an operation with a value for each of
      its secret fields. */
  predicate CanRun(x: Session, supplied: map<string, string>) {
    match x.work
    case Operation(_, _) => MergedParams(x.params, x.secretFields, supplied).Some?
    case Plan(_) => true
    case Action(action) => action in ACTION_EXECUTORS
  }

  function ApprovedRun(x: Session, supplied: map<string, string>): Executed
    requires CanRun(x, supplied)
  {
    Executed.Approved(
      x, supplied, if x.work.Operation? then MergedParams(x.params, x.secretFields, supplied).value else x.params)
  }

  /** Only the covering actions enter a scope. */
  function DoApproveRun(s: System, t: nat, supplied: map<string, string>): System
    requires t in s.tasks && s.tasks[t].role.ApproveWon?
  {
    var x := s.tasks[t].role.session;
    var task := s.tasks[t].(role := Idle);
    if !CanRun(x, supplied) then s.(tasks := s.tasks[t := task])
    else
      var entered :=
        if x.work.Action? && x.work.action in COVERING
        then task.(ctx := Some(Marker(x.work.action, x.token)), saved := task.saved + [task.ctx])
        else task;
      s.(done := s.done + [ApprovedRun(x, supplied)], tasks := s.tasks[t := entered])
  }

  /** The end of a scope, reached normally or by an exception. */
  function DoLeave(s: System, t: nat): System
    requires t in s.tasks && s.tasks[t].saved != []
  {
    var task := s.tasks[t];
    var n := |task.saved| - 1;
    s.(tasks := s.tasks[t := task.(ctx := task.saved[n], saved := task.saved[..n])])
  }

  /** A new task copies the context of the one that spawns it, and none of its scopes. */
  function DoSpawn(s: System, t: nat, child: nat): System
    requires t in s.tasks && child !in s.tasks
  {
    s.(tasks := s.tasks[child := Task(s.tasks[t].ctx, [], Idle)])
  }

  /** Onboarding asks the context at its gates. */
  function DoOnboard(s: System, t: nat, device: string, call: Call): System
    requires t in s.tasks && device in s.worlds
  {
    var ctx := s.tasks[t].ctx;
    var w := s.worlds[device];
    var (after, _) := Onboard(w, call.(approved := IsApprovedFor(ctx, COVERING)));
    s.(worlds := s.worlds[device := after],
       writes := if after.accounts == w.accounts && after.stored == w.stored then s.writes
                 else s.writes + [AccountWrite(device, ctx)])
  }

  /** A step at the gates or on the table, taken by no task. */
  predicate IsGate(step: Step) {
    step.Configure? || step.StoreStep? || step.GateOperation? || step.GateAction? || step.GatePlan?
  }

  function GateStep(s: System, step: Step): (after: System)
    requires IsGate(step)
    ensures after.tasks == s.tasks && after.worlds == s.worlds && after.writes == s.writes
  {
    match step
    case Configure(overrides) => s.(overrides := overrides)
    case StoreStep(op) => if op.OpCreate? then s else s.(st := ConfirmStore.Apply(s.st, op))
    case GateOperation(request, token, now) => GateOp(s, request, token, now)
    case GateAction(action, risk, operatorConfigurable, token, now) =>
      if action !in ACTION_EXECUTORS then s
      else
        s.(st := ConfirmStore.Apply(s.st, ActionSession(s.overrides, action, risk, operatorConfigurable, token, now)))
    case GatePlan(_, _, _, _, _, _) => GateWholePlan(s, step)
  }

  /** A step that cannot be taken changes nothing. */
  function Next(s: System, step: Step): System {
    match step
    case ConsumeRead(t, token, urlBlock, now) =>
      if t in s.tasks && s.tasks[t].role.Idle? then DoConsumeRead(s, t, token, urlBlock, now) else s
    case ConsumeComplete(t, actor, now) =>
      if t in s.tasks && s.tasks[t].role.Consuming? then DoConsumeComplete(s, t, actor, now) else s
    case ConsumeRun(t, succeeded) =>
      if t in s.tasks && s.tasks[t].role.ConsumeWon? then DoConsumeRun(s, t, succeeded) else s
    case ApproveRead(t, token, now) =>
      if t in s.tasks && s.tasks[t].role.Idle? then DoApproveRead(s, t, token, now) else s
    case ApproveComplete(t, actor, now) =>
      if t in s.tasks && s.tasks[t].role.Approving? then DoApproveComplete(s, t, actor, now) else s
    case ApproveRun(t, supplied) =>
      if t in s.tasks && s.tasks[t].role.ApproveWon? then DoApproveRun(s, t, supplied) else s
    case Leave(t) => if t in s.tasks && s.tasks[t].saved != [] then DoLeave(s, t) else s
    case SpawnTask(t, child) => if t in s.tasks && child !in s.tasks then DoSpawn(s, t, child) else s
    case OnboardPass(t, device, call) =>
      if t in s.tasks && device in s.worlds then DoOnboard(s, t, device, call) else s
    case _ => GateStep(s, step)
  }

  function RunSystem(s: System, steps: seq<Step>): System
    decreases |steps|
  {
    if steps == [] then s else RunSystem(Next(s, steps[0]), steps[1..])
  }

  // ---- what every step keeps ------------------------------------------------------------------------

  predicate IsCompleted(st: Store, x: Session) {
    x.token in st.sessions && st.sessions[x.token].status == Completed && SameTerms(x, st.sessions[x.token])
  }

  /** A session a task remembers: if the table still has it, it has it on the same terms. */
  predicate Remembers(st: Store, x: Session) {
    x.token in st.issued && (x.token in st.sessions ==> SameTerms(x, st.sessions[x.token]))
  }

  predicate RoleOk(st: Store, role: Role) {
    match role
    case Idle => true
    case Consuming(x, urlBlock) => Remembers(st, x) && MayConsume(x, urlBlock)
    case ConsumeWon(x, urlBlock) => IsCompleted(st, x) && x.token in st.issued && MayConsume(x, urlBlock)
    case Approving(x) => Remembers(st, x)
    case ApproveWon(x) => IsCompleted(st, x) && x.token in st.issued
  }

  /** The context is nothing, or the approval of a covering action by its completed session. */
  predicate CtxOk(st: Store, ctx: Option<Marker>) {
    ctx.Some? ==>
      && ctx.value.action in COVERING && ctx.value.token in st.issued && ctx.value.token in st.sessions
      && st.sessions[ctx.value.token].status == Completed
      && st.sessions[ctx.value.token].work == Action(ctx.value.action)
  }

  predicate DoneOk(st: Store, d: Executed) {
    match d
    case InlineOp(risk, overrides) => ResolveConfirmation(overrides, risk) == NoConfirm
    case InlinePlan(risks, overrides, consent) =>
      var level := PlanLevel(overrides, risks); level == NoConfirm || (level == LlmConfirm && consent)
    case Consumed(x, urlBlock, _) => IsCompleted(st, x) && x.token in st.issued && MayConsume(x, urlBlock)
    case Approved(x, supplied, _) => IsCompleted(st, x) && x.token in st.issued && CanRun(x, supplied)
  }

  ghost predicate TaskOk(st: Store, task: Task) {
    && RoleOk(st, task.role) && CtxOk(st, task.ctx)
    && forall i :: 0 <= i < |task.saved| ==> CtxOk(st, task.saved[i])
  }

  ghost predicate Good(s: System) {
    && Sound(s.st)
    && (forall t :: t in s.tasks ==> TaskOk(s.st, s.tasks[t]))
    && (forall i :: 0 <= i < |s.done| ==> DoneOk(s.st, s.done[i]))
    && (forall i :: 0 <= i < |s.writes| ==> s.writes[i].ctx.Some? && CtxOk(s.st, s.writes[i].ctx))
  }

  /** The token whose work the holder of this role, and nobody else, is about to run. */
  function WonToken(role: Role): Option<Token> {
    match role
    case ConsumeWon(x, _) => Some(x.token)
    case ApproveWon(x) => Some(x.token)
    case _ => None
  }

  function DoneToken(d: Executed): Option<Token> {
    match d
    case Consumed(x, _, _) => Some(x.token)
    case Approved(x, _, _) => Some(x.token)
    case _ => None
  }

  ghost predicate Exclusive(s: System) {
    && (forall t, u :: t in s.tasks && u in s.tasks && t != u && WonToken(s.tasks[t].role).Some? ==>
          WonToken(s.tasks[u].role) != WonToken(s.tasks[t].role))
    && (forall t, i :: t in s.tasks && 0 <= i < |s.done| && WonToken(s.tasks[t].role).Some? ==>
          DoneToken(s.done[i]) != WonToken(s.tasks[t].role))
    && (forall i, j :: 0 <= i < j < |s.done| && DoneToken(s.done[i]).Some? ==>
          DoneToken(s.done[j]) != DoneToken(s.done[i]))
  }

  // ---- the table only grows older -----------------------------------------------------------------------

  ghost predicate StoreGrows(a: Store, b: Store) {
    && Sound(b) && a.issued <= b.issued
    && forall token :: token in a.issued ==> Evolves(ConfirmStore.Find(a, token), ConfirmStore.Find(b, token))
  }

  lemma StoreStepGrows(st: Store, op: Op)
    requires Sound(st)
    ensures StoreGrows(st, ConfirmStore.Apply(st, op))
  {
    StepKeepsSound(st, op);
    forall token | token in st.issued
      ensures Evolves(ConfirmStore.Find(st, token), ConfirmStore.Find(ConfirmStore.Apply(st, op), token))
    {
      StepEvolves(st, op, token);
    }
  }

  lemma RoleGrows(a: Store, b: Store, role: Role)
    requires StoreGrows(a, b) && RoleOk(a, role)
    ensures RoleOk(b, role)
  {
    if !role.Idle? {
      var token := role.session.token;
      assert Evolves(ConfirmStore.Find(a, token), ConfirmStore.Find(b, token));
    }
  }

  lemma CtxGrows(a: Store, b: Store, ctx: Option<Marker>)
    requires StoreGrows(a, b) && CtxOk(a, ctx)
    ensures CtxOk(b, ctx)
  {
    if ctx.Some? {
      assert Evolves(ConfirmStore.Find(a, ctx.value.token), ConfirmStore.Find(b, ctx.value.token));
    }
  }

  lemma DoneGrows(a: Store, b: Store, d: Executed)
    requires StoreGrows(a, b) && DoneOk(a, d)
    ensures DoneOk(b, d)
  {
    if d.Consumed? || d.Approved? {
      assert Evolves(ConfirmStore.Find(a, d.session.token), ConfirmStore.Find(b, d.session.token));
    }
  }

  lemma GrowthKeepsGood(s: System, st: Store)
    requires Good(s) && StoreGrows(s.st, st)
    ensures Good(s.(st := st))
  {
    forall t | t in s.tasks
      ensures TaskOk(st, s.tasks[t])
    {
      TaskGrows(s.st, st, s.tasks[t]);
    }
    forall i | 0 <= i < |s.done|
      ensures DoneOk(st, s.done[i])
    {
      DoneGrows(s.st, st, s.done[i]);
    }
    forall i | 0 <= i < |s.writes|
      ensures CtxOk(st, s.writes[i].ctx)
    {
      CtxGrows(s.st, st, s.writes[i].ctx);
    }
  }

  lemma TaskGrows(a: Store, b: Store, task: Task)
    requires StoreGrows(a, b) && TaskOk(a, task)
    ensures TaskOk(b, task)
  {
    RoleGrows(a, b, task.role);
    CtxGrows(a, b, task.ctx);
    forall i | 0 <= i < |task.saved|
      ensures CtxOk(b, task.saved[i])
    {
      CtxGrows(a, b, task.saved[i]);
    }
  }

  lemma StoreStepKeepsGood(s: System, op: Op)
    requires Good(s)
    ensures Good(s.(st := ConfirmStore.Apply(s.st, op)))
  {
    StoreStepGrows(s.st, op);
    GrowthKeepsGood(s, ConfirmStore.Apply(s.st, op));
  }

  // ---- each step keeps the system good -----------------------------------------------------------------

  lemma TaskKeepsGood(s: System, t: nat, task: Task)
    requires Good(s) && TaskOk(s.st, task)
    ensures Good(s.(tasks := s.tasks[t := task]))
  {
  }

  lemma DoneKeepsGood(s: System, d: Executed)
    requires Good(s) && DoneOk(s.st, d)
    ensures Good(s.(done := s.done + [d]))
  {
  }

  lemma CompleteWins(st: Store, x: Session, actor: string, now: int)
    requires Sound(st) && Remembers(st, x) && Complete(st, x.token, actor, now).1
    ensures x.token in st.sessions && st.sessions[x.token].status == Pending
    ensures IsCompleted(Complete(st, x.token, actor, now).0, x)
  {
  }

  lemma ConsumeCompleteKeepsGood(s: System, t: nat, actor: string, now: int)
    requires Good(s) && t in s.tasks && s.tasks[t].role.Consuming?
    ensures Good(DoConsumeComplete(s, t, actor, now))
  {
    var role := s.tasks[t].role;
    assert TaskOk(s.st, s.tasks[t]);
    var (st, won) := Complete(s.st, role.session.token, actor, now);
    StoreStepKeepsGood(s, OpComplete(role.session.token, actor, now));
    assert TaskOk(st, s.tasks[t]);
    if won {
      CompleteWins(s.st, role.session, actor, now);
    }
    TaskKeepsGood(s.(st := st), t, s.tasks[t].(role := if won then ConsumeWon(role.session, role.urlBlock) else Idle));
  }

  lemma ApproveCompleteKeepsGood(s: System, t: nat, actor: string, now: int)
    requires Good(s) && t in s.tasks && s.tasks[t].role.Approving?
    ensures Good(DoApproveComplete(s, t, actor, now))
  {
    var x := s.tasks[t].role.session;
    assert TaskOk(s.st, s.tasks[t]);
    var (st, won) := Complete(s.st, x.token, actor, now);
    StoreStepKeepsGood(s, OpComplete(x.token, actor, now));
    assert TaskOk(st, s.tasks[t]);
    if won {
      CompleteWins(s.st, x, actor, now);
    }
    TaskKeepsGood(s.(st := st), t, s.tasks[t].(role := if won then ApproveWon(x) else Idle));
  }

  lemma ConsumeRunKeepsGood(s: System, t: nat, succeeded: bool)
    requires Good(s) && t in s.tasks && s.tasks[t].role.ConsumeWon?
    ensures Good(DoConsumeRun(s, t, succeeded))
  {
    var role := s.tasks[t].role;
    assert TaskOk(s.st, s.tasks[t]);
    var ran := s.(done := s.done + [Consumed(role.session, role.urlBlock, role.session.params)]);
    DoneKeepsGood(s, Consumed(role.session, role.urlBlock, role.session.params));
    StoreStepKeepsGood(ran, OpStrip(role.session.token));
    var next := if succeeded then ran.(st := Strip(s.st, role.session.token).0) else ran;
    assert Good(next) && TaskOk(next.st, next.tasks[t]);
    TaskKeepsGood(next, t, next.tasks[t].(role := Idle));
  }

  lemma ApproveRunKeepsGood(s: System, t: nat, supplied: map<string, string>)
    requires Good(s) && t in s.tasks && s.tasks[t].role.ApproveWon?
    ensures Good(DoApproveRun(s, t, supplied))
  {
    var x := s.tasks[t].role.session;
    var task := s.tasks[t].(role := Idle);
    assert TaskOk(s.st, s.tasks[t]);
    TaskKeepsGood(s, t, task);
    if CanRun(x, supplied) {
      var ran := s.(done := s.done + [ApprovedRun(x, supplied)]);
      DoneKeepsGood(s, ApprovedRun(x, supplied));
      if x.work.Action? && x.work.action in COVERING {
        var entered := task.(ctx := Some(Marker(x.work.action, x.token)), saved := task.saved + [task.ctx]);
        assert CtxOk(s.st, entered.ctx);
        TaskKeepsGood(ran, t, entered);
      } else {
        TaskKeepsGood(ran, t, task);
      }
    }
  }

  lemma OnboardKeepsGood(s: System, t: nat, device: string, call: Call)
    requires Good(s) && t in s.tasks && device in s.worlds
    ensures Good(DoOnboard(s, t, device, call))
  {
    var ctx := s.tasks[t].ctx;
    assert TaskOk(s.st, s.tasks[t]);
    PassEffect(s.worlds[device], call.(approved := IsApprovedFor(ctx, COVERING)));
  }

  lemma ReadKeepsGood(s: System, t: nat, token: Token, urlBlock: bool, now: int)
    requires Good(s) && t in s.tasks
    ensures Good(DoConsumeRead(s, t, token, urlBlock, now)) && Good(DoApproveRead(s, t, token, now))
  {
    assert TaskOk(s.st, s.tasks[t]);
    var x := Get(s.st, token, now);
    if x.Some? {
      assert Remembers(s.st, x.value);
      TaskKeepsGood(s, t, s.tasks[t].(role := Approving(x.value)));
      if MayConsume(x.value, urlBlock) {
        TaskKeepsGood(s, t, s.tasks[t].(role := Consuming(x.value, urlBlock)));
      }
    }
  }

  lemma ScopesKeepGood(s: System, t: nat)
    requires Good(s) && t in s.tasks
    ensures s.tasks[t].saved != [] ==> Good(DoLeave(s, t))
    ensures forall child: nat :: child !in s.tasks ==> Good(DoSpawn(s, t, child))
  {
    assert TaskOk(s.st, s.tasks[t]);
    if s.tasks[t].saved != [] {
      var task := s.tasks[t];
      var n := |task.saved| - 1;
      TaskKeepsGood(s, t, task.(ctx := task.saved[n], saved := task.saved[..n]));
    }
    forall child: nat | child !in s.tasks
      ensures Good(DoSpawn(s, t, child))
    {
      TaskKeepsGood(s, child, Task(s.tasks[t].ctx, [], Idle));
    }
  }

  lemma GateOpKeepsGood(s: System, request: Request, token: Token, now: int)
    requires Good(s)
    ensures Good(GateOp(s, request, token, now))
  {
    var op := OperationSession(s.overrides, request, token, now);
    StoreStepKeepsGood(s, op);
    var after := GateOp(s, request, token, now).st;
    assert after == s.st || after == ConfirmStore.Apply(s.st, op);
  }

  lemma GatePlanKeepsGood(s: System, step: Step)
    requires Good(s) && step.GatePlan?
    ensures Good(GateWholePlan(s, step))
  {
    var level := PlanLevel(s.overrides, step.risks);
    if level == NoConfirm || (level == LlmConfirm && step.consent) {
      DoneKeepsGood(s, InlinePlan(step.risks, s.overrides, step.consent));
    } else {
      StoreStepKeepsGood(s, PlanSession(s.overrides, step));
    }
  }

  lemma GateStepKeepsGood(s: System, step: Step)
    requires Good(s) && IsGate(step)
    ensures Good(GateStep(s, step))
  {
    match step
    case Configure(_) =>
    case StoreStep(op) => StoreStepKeepsGood(s, op);
    case GateOperation(request, token, now) => GateOpKeepsGood(s, request, token, now);
    case GateAction(action, risk, operatorConfigurable, token, now) =>
      StoreStepKeepsGood(s, ActionSession(s.overrides, action, risk, operatorConfigurable, token, now));
    case GatePlan(_, _, _, _, _, _) => GatePlanKeepsGood(s, step);
  }

  lemma NextKeepsGood(s: System, step: Step)
    requires Good(s)
    ensures Good(Next(s, step))
  {
    match step
    case ConsumeRead(t, token, urlBlock, now) =>
      if t in s.tasks {
        ReadKeepsGood(s, t, token, urlBlock, now);
      }
    case ApproveRead(t, token, now) =>
      if t in s.tasks {
        ReadKeepsGood(s, t, token, false, now);
      }
    case ConsumeComplete(t, actor, now) =>
      if t in s.tasks && s.tasks[t].role.Consuming? {
        ConsumeCompleteKeepsGood(s, t, actor, now);
      }
    case ApproveComplete(t, actor, now) =>
      if t in s.tasks && s.tasks[t].role.Approving? {
        ApproveCompleteKeepsGood(s, t, actor, now);
      }
    case ConsumeRun(t, succeeded) =>
      if t in s.tasks && s.tasks[t].role.ConsumeWon? {
        ConsumeRunKeepsGood(s, t, succeeded);
      }
    case ApproveRun(t, supplied) =>
      if t in s.tasks && s.tasks[t].role.ApproveWon? {
        ApproveRunKeepsGood(s, t, supplied);
      }
    case Leave(t) =>
      if t in s.tasks {
        ScopesKeepGood(s, t);
      }
    case SpawnTask(t, child) =>
      if t in s.tasks {
        ScopesKeepGood(s, t);
      }
    case OnboardPass(t, device, call) =>
      if t in s.tasks && device in s.worlds {
        OnboardKeepsGood(s, t, device, call);
      }
    case _ => GateStepKeepsGood(s, step);
  }

  // ---- one winner per token ---------------------------------------------------------------------------

  lemma LosingRoleKeepsExclusive(s: System, t: nat, task: Task)
    requires Exclusive(s) && WonToken(task.role).None?
    ensures Exclusive(s.(tasks := s.tasks[t := task]))
  {
  }

  /** Winning a token is exclusive: it was still pending, so nobody had won it or run it. */
  lemma WinnerIsNew(s: System, st: Store, t: nat, task: Task, x: Session)
    requires Good(s) && Exclusive(s) && WonToken(task.role) == Some(x.token)
    requires x.token in s.st.sessions && s.st.sessions[x.token].status == Pending
    ensures Exclusive(s.(st := st, tasks := s.tasks[t := task]))
  {
    forall u | u in s.tasks
      ensures WonToken(s.tasks[u].role) != Some(x.token)
    {
      assert TaskOk(s.st, s.tasks[u]);
    }
    forall i | 0 <= i < |s.done|
      ensures DoneToken(s.done[i]) != Some(x.token)
    {
      assert DoneOk(s.st, s.done[i]);
    }
  }

  /** Running it moves the token from its only winner to the record. */
  lemma RunningKeepsExclusive(s: System, t: nat, task: Task, d: Executed)
    requires Exclusive(s) && t in s.tasks && WonToken(s.tasks[t].role).Some? && WonToken(task.role).None?
    requires DoneToken(d) == WonToken(s.tasks[t].role)
    ensures Exclusive(s.(done := s.done + [d], tasks := s.tasks[t := task]))
  {
  }

  lemma InlineKeepsExclusive(s: System, d: Executed)
    requires Exclusive(s) && DoneToken(d).None?
    ensures Exclusive(s.(done := s.done + [d]))
  {
  }

  lemma CompletingKeepsExclusive(s: System, t: nat, actor: string, now: int)
    requires Good(s) && Exclusive(s) && t in s.tasks
    ensures s.tasks[t].role.Consuming? ==> Exclusive(DoConsumeComplete(s, t, actor, now))
    ensures s.tasks[t].role.Approving? ==> Exclusive(DoApproveComplete(s, t, actor, now))
  {
    var task := s.tasks[t];
    assert TaskOk(s.st, task);
    if task.role.Consuming? || task.role.Approving? {
      var x := task.role.session;
      var (st, won) := Complete(s.st, x.token, actor, now);
      if won {
        CompleteWins(s.st, x, actor, now);
        WinnerIsNew(s, st, t, task.(role := ApproveWon(x)), x);
        if task.role.Consuming? {
          WinnerIsNew(s, st, t, task.(role := ConsumeWon(x, task.role.urlBlock)), x);
        }
      } else {
        LosingRoleKeepsExclusive(s, t, task.(role := Idle));
      }
    }
  }

  lemma RunsKeepExclusive(s: System, t: nat, succeeded: bool, supplied: map<string, string>)
    requires Exclusive(s) && t in s.tasks
    ensures s.tasks[t].role.ConsumeWon? ==> Exclusive(DoConsumeRun(s, t, succeeded))
    ensures s.tasks[t].role.ApproveWon? ==> Exclusive(DoApproveRun(s, t, supplied))
  {
    var task := s.tasks[t];
    if task.role.ConsumeWon? {
      var x := task.role.session;
      RunningKeepsExclusive(s, t, task.(role := Idle), Consumed(x, task.role.urlBlock, x.params));
    } else if task.role.ApproveWon? && CanRun(task.role.session, supplied) {
      var x := task.role.session;
      var idle := task.(role := Idle);
      LosingRoleKeepsExclusive(s, t, idle);
      RunningKeepsExclusive(s, t, idle, ApprovedRun(x, supplied));
      RunningKeepsExclusive(s, t, idle.(ctx := Some(Marker(if x.work.Action? then x.work.action else "", x.token)),
                                        saved := idle.saved + [idle.ctx]), ApprovedRun(x, supplied));
    } else if task.role.ApproveWon? {
      LosingRoleKeepsExclusive(s, t, task.(role := Idle));
    }
  }

  lemma GatesKeepExclusive(s: System, step: Step)
    requires Exclusive(s) && IsGate(step)
    ensures Exclusive(GateStep(s, step))
  {
    if step.GateOperation? {
      InlineKeepsExclusive(s, InlineOp(step.request.risk, s.overrides));
    } else if step.GatePlan? {
      InlineKeepsExclusive(s, InlinePlan(step.risks, s.overrides, step.consent));
    }
  }

  lemma NextKeepsExclusive(s: System, step: Step)
    requires Good(s) && Exclusive(s)
    ensures Exclusive(Next(s, step))
  {
    match step
    case ConsumeComplete(t, actor, now) =>
      if t in s.tasks {
        CompletingKeepsExclusive(s, t, actor, now);
      }
    case ApproveComplete(t, actor, now) =>
      if t in s.tasks {
        CompletingKeepsExclusive(s, t, actor, now);
      }
    case ConsumeRun(t, succeeded) =>
      if t in s.tasks {
        RunsKeepExclusive(s, t, succeeded, map[]);
      }
    case ApproveRun(t, supplied) =>
      if t in s.tasks {
        RunsKeepExclusive(s, t, false, supplied);
      }
    case ConsumeRead(t, token, urlBlock, now) =>
      if t in s.tasks {
        ReadsKeepExclusive(s, t, token, urlBlock, now);
      }
    case ApproveRead(t, token, now) =>
      if t in s.tasks {
        ReadsKeepExclusive(s, t, token, false, now);
      }
    case Leave(_) => ScopesKeepExclusive(s, step);
    case SpawnTask(_, _) => ScopesKeepExclusive(s, step);
    case OnboardPass(_, _, _) => SameRolesKeepExclusive(s, Next(s, step));
    case _ => GatesKeepExclusive(s, step);
  }

  lemma ReadsKeepExclusive(s: System, t: nat, token: Token, urlBlock: bool, now: int)
    requires Exclusive(s) && t in s.tasks
    ensures Exclusive(DoConsumeRead(s, t, token, urlBlock, now)) && Exclusive(DoApproveRead(s, t, token, now))
  {
    var x := Get(s.st, token, now);
    if x.Some? {
      LosingRoleKeepsExclusive(s, t, s.tasks[t].(role := Consuming(x.value, urlBlock)));
      LosingRoleKeepsExclusive(s, t, s.tasks[t].(role := Approving(x.value)));
    }
  }

  lemma ScopesKeepExclusive(s: System, step: Step)
    requires Exclusive(s) && (step.Leave? || step.SpawnTask?)
    ensures Exclusive(Next(s, step))
  {
    if step.Leave? {
      SameRolesKeepExclusive(s, Next(s, step));
    } else if step.task in s.tasks {
      LosingRoleKeepsExclusive(s, step.child, Task(s.tasks[step.task].ctx, [], Idle));
    }
  }

  lemma SameRolesKeepExclusive(s: System, after: System)
    requires Exclusive(s) && after.done == s.done && after.tasks.Keys == s.tasks.Keys
    requires forall t :: t in s.tasks ==> after.tasks[t].role == s.tasks[t].role
    ensures Exclusive(after)
  {
    assert forall t :: t in after.tasks <==> t in s.tasks.Keys;
  }

  /** A system as it starts: no session resolved by anyone yet, no scope open. */
  predicate Fresh(s: System) {
    && s.st == Store(map[], {}) && s.done == [] && s.writes == [] && s.asked == map[]
    && forall t <- s.tasks.Keys :: s.tasks[t] == Task(None, [], Idle)
  }

  lemma {:induction false} RunKeepsAll(s: System, steps: seq<Step>)
    requires Good(s) && Exclusive(s)
    ensures Good(RunSystem(s, steps)) && Exclusive(RunSystem(s, steps))
    decreases |steps|
  {
    if steps != [] {
      NextKeepsGood(s, steps[0]);
      NextKeepsExclusive(s, steps[0]);
      RunKeepsAll(Next(s, steps[0]), steps[1..]);
    }
  }

  lemma FreshIsGood(s: System)
    requires Fresh(s)
    ensures Good(s) && Exclusive(s)
  {
    forall t | t in s.tasks
      ensures s.tasks[t] == Task(None, [], Idle)
    {
      assert t in s.tasks.Keys;
    }
  }

  // ---- the main results -----------------------------------------------------------------------------------

  /** Under every interleaving of consumers and approvers, the work behind a token runs at most
      once, by either path. */
  lemma WorkRunsAtMostOnce(s: System, steps: seq<Step>, i: nat, j: nat)
    requires Fresh(s) && i < j < |RunSystem(s, steps).done| && DoneToken(RunSystem(s, steps).done[i]).Some?
    ensures DoneToken(RunSystem(s, steps).done[j]) != DoneToken(RunSystem(s, steps).done[i])
  {
    FreshIsGood(s);
    RunKeepsAll(s, steps);
  }

  /** Nothing runs without authority: work of a session only when the session is completed, and an
      operation's only with all its secret fields supplied; through a consumer with the URL block
      on never at a `url` level, and never with secret fields; without a session only at level
      `none`, or, for a plan, at `llm_confirm` with consent. */
  lemma NothingRunsWithoutAuthority(s: System, steps: seq<Step>, i: nat)
    requires Fresh(s) && i < |RunSystem(s, steps).done|
    ensures var after := RunSystem(s, steps);
            match after.done[i]
            case InlineOp(risk, overrides) => ResolveConfirmation(overrides, risk) == NoConfirm
            case InlinePlan(risks, overrides, consent) =>
              var level := PlanLevel(overrides, risks); level == NoConfirm || (level == LlmConfirm && consent)
            case Consumed(x, urlBlock, _) =>
              IsCompleted(after.st, x) && x.secretFields == {} && (urlBlock ==> x.level !in {UrlOnly, UrlAndPassword})
            case Approved(x, supplied, _) => IsCompleted(after.st, x) && CanRun(x, supplied)
  {
    FreshIsGood(s);
    RunKeepsAll(s, steps);
    assert DoneOk(RunSystem(s, steps).st, RunSystem(s, steps).done[i]);
  }

  /** Every onboarding pass that changed a device's accounts, or the account stored for it, ran in a
      task inside an approved scope of a covering action, or spawned inside one; and that approval
      is a completed session holding that very action. */
  lemma AccountWritesTraceToAnApproval(s: System, steps: seq<Step>, i: nat)
    requires Fresh(s) && i < |RunSystem(s, steps).writes|
    ensures var after := RunSystem(s, steps);
            var ctx := after.writes[i].ctx;
            && ctx.Some?
            && ctx.value.action in {"start_demo_survey", "register_discovered_device", "provision_device_credentials",
                                    "add_discovered_devices"}
            && ctx.value.token in after.st.sessions
            && after.st.sessions[ctx.value.token].status == Completed
            && after.st.sessions[ctx.value.token].work == Action(ctx.value.action)
  {
    FreshIsGood(s);
    RunKeepsAll(s, steps);
    assert CtxOk(RunSystem(s, steps).st, RunSystem(s, steps).writes[i].ctx);
  }

  /** And every such change is on record: a step changes a device or its stored account only as a
      recorded onboarding pass. */
  lemma ChangesAreRecorded(s: System, step: Step, device: string)
    requires device in s.worlds
    ensures var after := Next(s, step);
            && device in after.worlds
            && (after.worlds[device].accounts != s.worlds[device].accounts
                || after.worlds[device].stored != s.worlds[device].stored ==>
                step.OnboardPass? && step.device == device
                && after.writes == s.writes + [AccountWrite(device, s.tasks[step.task].ctx)])
  {
  }

  /** The step is taken by `t` itself. */
  predicate IsStepOf(step: Step, t: nat) {
    !IsGate(step) && step.task == t
  }

  lemma OthersLeaveTheTaskAlone(s: System, step: Step, t: nat)
    requires t in s.tasks && (!IsStepOf(step, t) || step.SpawnTask? || step.OnboardPass?)
    ensures t in Next(s, step).tasks && Next(s, step).tasks[t] == s.tasks[t]
  {
  }

  predicate SameScopes(a: System, b: System, t: nat)
    requires t in a.tasks
  {
    t in b.tasks && b.tasks[t].ctx == a.tasks[t].ctx && b.tasks[t].saved == a.tasks[t].saved
  }

  lemma ReadingKeepsTheContext(s: System, step: Step, t: nat)
    requires t in s.tasks && (step.ConsumeRead? || step.ApproveRead?) && step.task == t
    ensures SameScopes(s, Next(s, step), t)
  {
  }

  lemma ResolvingKeepsTheContext(s: System, step: Step, t: nat)
    requires t in s.tasks && (step.ConsumeComplete? || step.ApproveComplete? || step.ConsumeRun?) && step.task == t
    ensures SameScopes(s, Next(s, step), t)
  {
  }

  /** Only entering and leaving touch a task's scopes. */
  lemma ScopesStay(s: System, step: Step, t: nat)
    requires t in s.tasks && !(IsStepOf(step, t) && (step.ApproveRun? || step.Leave?))
    ensures SameScopes(s, Next(s, step), t)
  {
    if !IsStepOf(step, t) || step.SpawnTask? || step.OnboardPass? {
      OthersLeaveTheTaskAlone(s, step, t);
    } else if step.ConsumeRead? || step.ApproveRead? {
      ReadingKeepsTheContext(s, step, t);
    } else {
      ResolvingKeepsTheContext(s, step, t);
    }
  }

  /** Contexts are private: only a task's own entering or leaving changes the one it has. So a spawned
      task keeps the approval it was born with after its parent's scope has ended, and none that
      its parent enters later. */
  lemma ContextsArePrivate(s: System, step: Step, t: nat)
    requires t in s.tasks
    ensures t in Next(s, step).tasks
    ensures Next(s, step).tasks[t].ctx != s.tasks[t].ctx ==>
              (step.ApproveRun? || step.Leave?) && step.task == t
    ensures step.SpawnTask? && step.task == t && step.child !in s.tasks ==>
              step.child in Next(s, step).tasks && Next(s, step).tasks[step.child].ctx == s.tasks[t].ctx
  {
    if !(IsStepOf(step, t) && (step.ApproveRun? || step.Leave?)) {
      ScopesStay(s, step, t);
    }
  }

  // ---- leaving a scope ----------------------------------------------------------------------------------

  /** The scopes `t` has open below depth `n` and what they restore are untouched. */
  predicate SameBelow(a: System, b: System, t: nat, n: nat) {
    t in a.tasks && t in b.tasks && n <= |a.tasks[t].saved| && n <= |b.tasks[t].saved|
    && a.tasks[t].saved[..n] == b.tasks[t].saved[..n]
  }

  /** `t` stays at depth `n` or deeper all along. */
  ghost predicate StaysInside(s: System, steps: seq<Step>, t: nat, n: nat)
    decreases |steps|
  {
    t in s.tasks && n <= |s.tasks[t].saved| && (steps != [] ==> StaysInside(Next(s, steps[0]), steps[1..], t, n))
  }

  lemma StepKeepsBelow(s: System, step: Step, t: nat, n: nat)
    requires t in s.tasks && n <= |s.tasks[t].saved|
    requires t in Next(s, step).tasks && n <= |Next(s, step).tasks[t].saved|
    ensures SameBelow(s, Next(s, step), t, n)
  {
    if !(IsStepOf(step, t) && (step.ApproveRun? || step.Leave?)) {
      ScopesStay(s, step, t);
    }
  }

  lemma {:induction false} RunKeepsBelow(s: System, steps: seq<Step>, t: nat, n: nat)
    requires StaysInside(s, steps, t, n)
    ensures SameBelow(s, RunSystem(s, steps), t, n)
    decreases |steps|
  {
    if steps != [] {
      StepKeepsBelow(s, steps[0], t, n);
      RunKeepsBelow(Next(s, steps[0]), steps[1..], t, n);
    }
  }

  predicate DepthIs(s: System, t: nat, n: nat) {
    t in s.tasks && |s.tasks[t].saved| == n
  }

  lemma EnteringSavesTheContext(s: System, t: nat, supplied: map<string, string>)
    requires t in s.tasks && s.tasks[t].role.ApproveWon?
    requires DepthIs(Next(s, ApproveRun(t, supplied)), t, |s.tasks[t].saved| + 1)
    ensures Next(s, ApproveRun(t, supplied)).tasks[t].saved == s.tasks[t].saved + [s.tasks[t].ctx]
  {
  }

  lemma LeavingRestoresTheLast(s: System, t: nat, saved: seq<Option<Marker>>, ctx: Option<Marker>)
    requires t in s.tasks && s.tasks[t].saved == saved + [ctx]
    ensures var left := Next(s, Leave(t));
            t in left.tasks && left.tasks[t].ctx == ctx && left.tasks[t].saved == saved
  {
  }

  /** Leaving a scope restores exactly the context it was entered with, whatever it and all other
      tasks did in between: nested scopes, spawned tasks, exceptions, other approvals. */
  lemma LeavingRestoresExactly(s: System, t: nat, supplied: map<string, string>, inside: seq<Step>)
    requires t in s.tasks && s.tasks[t].role.ApproveWon?
    requires var (entered, depth) := (Next(s, ApproveRun(t, supplied)), |s.tasks[t].saved| + 1);
             && DepthIs(entered, t, depth) && StaysInside(entered, inside, t, depth)
             && DepthIs(RunSystem(entered, inside), t, depth)
    ensures var left := Next(RunSystem(Next(s, ApproveRun(t, supplied)), inside), Leave(t));
            && t in left.tasks
            && left.tasks[t].ctx == s.tasks[t].ctx && left.tasks[t].saved == s.tasks[t].saved
  {
    var entered := Next(s, ApproveRun(t, supplied));
    var n := |s.tasks[t].saved|;
    EnteringSavesTheContext(s, t, supplied);
    RunKeepsBelow(entered, inside, t, n + 1);
    var after := RunSystem(entered, inside);
    assert after.tasks[t].saved[..n + 1] == after.tasks[t].saved;
    assert entered.tasks[t].saved[..n + 1] == entered.tasks[t].saved;
    LeavingRestoresTheLast(after, t, s.tasks[t].saved, s.tasks[t].ctx);
  }
}
