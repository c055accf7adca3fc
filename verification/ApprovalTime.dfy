/** When a token may be used, over every interleaving of tasks: five minutes from the gate that made it. */
module ApprovalTime {
  import opened Approval
  import opened ConfirmPolicy
  import opened ConfirmStore
  import opened Wrappers

  /** Every session, in the table or in somebody's hands, was given three hundred seconds. */
  ghost predicate Timed(s: System) {
    && (forall token :: token in s.st.sessions ==> s.st.sessions[token].ttl == 300)
    && (forall t :: t in s.tasks && !s.tasks[t].role.Idle? ==> s.tasks[t].role.session.ttl == 300)
  }

  lemma StoreStepKeepsTimed(s: System, op: Op)
    requires Timed(s)
    ensures Timed(s.(st := ConfirmStore.Apply(s.st, op)))
  {
  }

  lemma RoleKeepsTimed(s: System, t: nat, task: Task)
    requires Timed(s) && (task.role.Idle? || task.role.session.ttl == 300)
    ensures Timed(s.(tasks := s.tasks[t := task]))
  {
  }

  lemma GateStepKeepsTimed(s: System, step: Step)
    requires Timed(s) && IsGate(step)
    ensures Timed(GateStep(s, step))
  {
    match step
    case Configure(_) =>
    case StoreStep(op) => StoreStepKeepsTimed(s, op);
    case GateOperation(request, token, now) =>
      StoreStepKeepsTimed(s, OperationSession(s.overrides, request, token, now));
    case GateAction(action, risk, operatorConfigurable, token, now) =>
      StoreStepKeepsTimed(s, ActionSession(s.overrides, action, risk, operatorConfigurable, token, now));
    case GatePlan(_, _, _, _, _, _) => StoreStepKeepsTimed(s, PlanSession(s.overrides, step));
  }

  lemma ReadsKeepTimed(s: System, t: nat, token: Token, urlBlock: bool, now: int)
    requires Timed(s) && t in s.tasks
    ensures Timed(DoConsumeRead(s, t, token, urlBlock, now)) && Timed(DoApproveRead(s, t, token, now))
  {
    var x := Get(s.st, token, now);
    if x.Some? {
      RoleKeepsTimed(s, t, s.tasks[t].(role := Consuming(x.value, urlBlock)));
      RoleKeepsTimed(s, t, s.tasks[t].(role := Approving(x.value)));
    }
  }

  lemma CompletesKeepTimed(s: System, t: nat, actor: string, now: int)
    requires Timed(s) && t in s.tasks
    ensures s.tasks[t].role.Consuming? ==> Timed(DoConsumeComplete(s, t, actor, now))
    ensures s.tasks[t].role.Approving? ==> Timed(DoApproveComplete(s, t, actor, now))
  {
    var role := s.tasks[t].role;
    if role.Consuming? || role.Approving? {
      var op := OpComplete(role.session.token, actor, now);
      StoreStepKeepsTimed(s, op);
    }
  }

  lemma RunsKeepTimed(s: System, t: nat, succeeded: bool, supplied: map<string, string>)
    requires Timed(s) && t in s.tasks
    ensures s.tasks[t].role.ConsumeWon? ==> Timed(DoConsumeRun(s, t, succeeded))
    ensures s.tasks[t].role.ApproveWon? ==> Timed(DoApproveRun(s, t, supplied))
  {
    if s.tasks[t].role.ConsumeWon? {
      StoreStepKeepsTimed(s, OpStrip(s.tasks[t].role.session.token));
    }
  }

  lemma NextKeepsTimed(s: System, step: Step)
    requires Timed(s)
    ensures Timed(Next(s, step))
  {
    match step
    case ConsumeRead(t, token, urlBlock, now) =>
      if t in s.tasks {
        ReadsKeepTimed(s, t, token, urlBlock, now);
      }
    case ApproveRead(t, token, now) =>
      if t in s.tasks {
        ReadsKeepTimed(s, t, token, false, now);
      }
    case ConsumeComplete(t, actor, now) =>
      if t in s.tasks {
        CompletesKeepTimed(s, t, actor, now);
      }
    case ApproveComplete(t, actor, now) =>
      if t in s.tasks {
        CompletesKeepTimed(s, t, actor, now);
      }
    case ConsumeRun(t, succeeded) =>
      if t in s.tasks {
        RunsKeepTimed(s, t, succeeded, map[]);
      }
    case ApproveRun(t, supplied) =>
      if t in s.tasks {
        RunsKeepTimed(s, t, false, supplied);
      }
    case Leave(_) =>
    case SpawnTask(_, _) =>
    case OnboardPass(_, _, _) =>
    case _ => GateStepKeepsTimed(s, step);
  }

  lemma {:induction false} RunKeepsTimed(s: System, steps: seq<Step>)
    requires Good(s) && Timed(s)
    ensures Good(RunSystem(s, steps)) && Timed(RunSystem(s, steps))
    decreases |steps|
  {
    if steps != [] {
      NextKeepsGood(s, steps[0]);
      NextKeepsTimed(s, steps[0]);
      RunKeepsTimed(Next(s, steps[0]), steps[1..]);
    }
  }

  // ---- who gets a token, and when ------------------------------------------------------------------------

  /** The table has the row, nobody has resolved it, and its five minutes are not over. */
  predicate IsLive(st: Store, token: Token, now: int) {
    && token in st.sessions && st.sessions[token].status == Pending
    && now <= st.sessions[token].createdAt + 300
  }

  predicate HasWon(s: System, t: nat) {
    t in s.tasks && (s.tasks[t].role.ConsumeWon? || s.tasks[t].role.ApproveWon?)
  }

  lemma CompletesInTime(s: System, t: nat, actor: string, now: int)
    requires Timed(s) && t in s.tasks
    ensures var role := s.tasks[t].role;
            && (role.Consuming? ==>
                  DoConsumeComplete(s, t, actor, now).tasks[t].role
                  == if IsLive(s.st, role.session.token, now) then ConsumeWon(role.session, role.urlBlock) else Idle)
            && (role.Approving? ==>
                  DoApproveComplete(s, t, actor, now).tasks[t].role
                  == if IsLive(s.st, role.session.token, now) then ApproveWon(role.session) else Idle)
  {
  }

  lemma ReadsInTime(s: System, t: nat, token: Token, urlBlock: bool, now: int)
    requires Timed(s) && t in s.tasks && s.tasks[t].role == Idle
    ensures var live := IsLive(s.st, token, now);
            && DoApproveRead(s, t, token, now).tasks[t].role
               == (if live then Approving(s.st.sessions[token]) else Idle)
            && DoConsumeRead(s, t, token, urlBlock, now).tasks[t].role
               == (if live && s.st.sessions[token].secretFields == {}
                      && !(urlBlock && s.st.sessions[token].level in {UrlOnly, UrlAndPassword})
                   then Consuming(s.st.sessions[token], urlBlock) else Idle)
  {
  }

  /** In every reachable state, a task that has read a session and asks to complete it gets it exactly if
      it is still pending and still in its time; then it, and no one else, may run the work. */
  lemma AskedInTimeIsWon(s: System, steps: seq<Step>, t: nat, actor: string, now: int)
    requires Fresh(s) && t in RunSystem(s, steps).tasks
    ensures var (before, role) := (RunSystem(s, steps), RunSystem(s, steps).tasks[t].role);
            && (role.Consuming? ==>
                  Next(before, ConsumeComplete(t, actor, now)).tasks[t].role
                  == if IsLive(before.st, role.session.token, now)
                     then ConsumeWon(role.session, role.urlBlock) else Idle)
            && (role.Approving? ==>
                  Next(before, ApproveComplete(t, actor, now)).tasks[t].role
                  == if IsLive(before.st, role.session.token, now) then ApproveWon(role.session) else Idle)
  {
    FreshIsGood(s);
    RunKeepsTimed(s, steps);
    CompletesInTime(RunSystem(s, steps), t, actor, now);
  }

  /** And there is no other way to it: whatever step gives a task the right to run a session's work is
      its own completion of that session, while the session was pending and in its time. */
  lemma NoTokenIsWonLate(s: System, steps: seq<Step>, step: Step, t: nat)
    requires Fresh(s) && !HasWon(RunSystem(s, steps), t) && HasWon(Next(RunSystem(s, steps), step), t)
    ensures var (before, after) := (RunSystem(s, steps), Next(RunSystem(s, steps), step));
            && (step.ConsumeComplete? || step.ApproveComplete?) && step.task == t
            && IsLive(before.st, after.tasks[t].role.session.token, step.now)
            && step.now <= after.tasks[t].role.session.createdAt + 300
  {
    FreshIsGood(s);
    RunKeepsTimed(s, steps);
    var before := RunSystem(s, steps);
    if IsStepOf(step, t) && (step.ConsumeComplete? || step.ApproveComplete?) {
      assert TaskOk(before.st, before.tasks[t]);
    } else {
      OnlyCompletingWins(before, step, t);
    }
  }

  lemma OnlyCompletingWins(s: System, step: Step, t: nat)
    requires !HasWon(s, t) && !(IsStepOf(step, t) && (step.ConsumeComplete? || step.ApproveComplete?))
    ensures !HasWon(Next(s, step), t)
  {
  }

  /** Who may read a token: an idle task, while the session is live; a consumer moreover not past the
      URL block, and never a session with secret fields. */
  lemma LiveSessionIsRead(s: System, steps: seq<Step>, t: nat, token: Token, urlBlock: bool, now: int)
    requires Fresh(s) && t in RunSystem(s, steps).tasks && RunSystem(s, steps).tasks[t].role == Idle
    ensures var (before, live) := (RunSystem(s, steps), IsLive(RunSystem(s, steps).st, token, now));
            && Next(before, ApproveRead(t, token, now)).tasks[t].role
               == (if live then Approving(before.st.sessions[token]) else Idle)
            && Next(before, ConsumeRead(t, token, urlBlock, now)).tasks[t].role
               == (if live && before.st.sessions[token].secretFields == {}
                      && !(urlBlock && before.st.sessions[token].level in {UrlOnly, UrlAndPassword})
                   then Consuming(before.st.sessions[token], urlBlock) else Idle)
  {
    FreshIsGood(s);
    RunKeepsTimed(s, steps);
    ReadsInTime(RunSystem(s, steps), t, token, urlBlock, now);
  }
}
