/** What holds in every state of every run of the handshake, restarts and lost answers included. */
module HandshakeSafety {
  import opened Handshake

  /** The agent answered, or is about to answer, this i_am_here with `false`. */
  predicate Accepted(c: Call) {
    c.kind.IAmHere? && (c.at == Notifying || c.at == Answered(false))
  }

  predicate AnsweredFalse(c: Call) {
    c.kind.IAmHere? && c.at == Answered(false)
  }

  /** The i_am_ready handler has set the flag. */
  predicate Signalled(c: Call) {
    c.kind.IAmReady? && !c.at.Sent? && !c.at.Entering?
  }

  /** Call `via` was answered with `false` by agent `agent` to controller `controller`. */
  predicate Grants(calls: seq<Call>, via: nat, agent: nat, controller: nat) {
    && via < |calls| && AnsweredFalse(calls[via])
    && calls[via].agent == agent && calls[via].controller == controller
  }

  ghost predicate Unused(calls: seq<Call>, via: nat) {
    forall k :: 0 <= k < |calls| ==> calls[k].kind != IAmReady(via)
  }

  predicate CallOk(s: State, c: Call) {
    && c.agent <= s.agentNo && c.controller <= s.controllerNo
    && c.at != SleepingMyself
    && (c.kind.IAmHere? ==> c.at != AwaitingMyself)
    && (c.kind.IAmReady? ==> Grants(s.calls, c.kind.via, c.agent, c.controller))
    && (c.kind.IAmReady? && c.at.Answered? ==> c.agent in s.registered)
    && (c.agent == s.agentNo && (Accepted(c) || c.kind.IAmReady?) ==> s.agent.hereSeen)
    && (c.agent == s.agentNo && Signalled(c) ==> s.agent.readySeen)
    && (c.agent == s.agentNo ==> s.agent.pc != Boot)
  }

  ghost predicate CallsOk(s: State) {
    forall k :: 0 <= k < |s.calls| ==> CallOk(s, s.calls[k])
  }

  /** At most one i_am_here per agent incarnation is answered with `false`. */
  ghost predicate OneAdmission(calls: seq<Call>) {
    forall j, k :: 0 <= j < k < |calls| && Accepted(calls[j]) && Accepted(calls[k]) ==> calls[j].agent != calls[k].agent
  }

  /** Each `false` allows one i_am_ready. */
  ghost predicate OneReadiness(calls: seq<Call>) {
    forall j, k :: 0 <= j < k < |calls| && calls[j].kind.IAmReady? ==> calls[j].kind != calls[k].kind
  }

  ghost predicate ControllerOk(s: State) {
    match s.controller
    case Connecting => true
    case AwaitingHere(k) =>
      k < |s.calls| && s.calls[k].kind.IAmHere? && s.calls[k].controller == s.controllerNo && Unused(s.calls, k)
    case Admitted(via) =>
      via < |s.calls| && Grants(s.calls, via, s.calls[via].agent, s.controllerNo) && Unused(s.calls, via)
    case AwaitingReady(via, k) =>
      && k < |s.calls| && s.calls[k].kind == IAmReady(via)
      && Grants(s.calls, via, s.calls[k].agent, s.controllerNo)
    case Up(via, k) =>
      && k < |s.calls| && s.calls[k].kind == IAmReady(via) && s.calls[k].at.Answered?
      && Grants(s.calls, via, s.calls[k].agent, s.controllerNo)
  }

  predicate AgentOk(s: State) {
    var a := s.agent;
    && (a.bound <==> !a.pc.Boot? && !a.pc.HoldHere? && !a.pc.SleepHere? && !a.pc.WantHere? && !a.pc.Binding?)
    && (a.bound <==> s.agentNo in s.registered)
    && (forall n :: n in s.registered ==> n <= s.agentNo)
    && (a.readyMyself <==> a.pc.NotifyingMyself? || a.pc.WantReady? || a.pc.SleepReady? || a.pc.Initialised?)
    && (a.bound || a.pc.Binding? ==> a.hereSeen)
    && (a.pc.Initialised? ==> a.readySeen)
    && (a.pc.HoldHere? ==> !a.hereSeen)
    && (a.stopped ==> a.resetDue || (a.hereSeen && !s.hasSystem))
  }

  ghost predicate SomeAccepted(calls: seq<Call>, agent: nat) {
    exists k :: 0 <= k < |calls| && calls[k].agent == agent && Accepted(calls[k])
  }

  ghost predicate SomeSignalled(calls: seq<Call>, agent: nat) {
    exists k :: 0 <= k < |calls| && calls[k].agent == agent && Signalled(calls[k])
  }

  ghost predicate Granted(calls: seq<Call>, agent: nat, controller: nat) {
    exists via: nat :: Grants(calls, via, agent, controller)
  }

  /** Some handler of the agent, of i_am_here or of i_am_ready, is about to call notify_all. */
  ghost predicate Pending(calls: seq<Call>, agent: nat, here: bool) {
    exists k :: 0 <= k < |calls| && calls[k].agent == agent && calls[k].at == Notifying && calls[k].kind.IAmHere? == here
  }

  /** Flags of the running agent were set by calls it received. */
  ghost predicate FlagsOk(s: State) {
    && (s.agent.hereSeen ==> SomeAccepted(s.calls, s.agentNo))
    && (s.agent.readySeen ==> SomeSignalled(s.calls, s.agentNo))
  }

  /** No wake-up is lost: a thread that sleeps although its condition holds is about to be notified. */
  ghost predicate NoLostWakeUp(s: State) {
    && (s.agent.pc == SleepHere && s.agent.hereSeen ==> Pending(s.calls, s.agentNo, true))
    && (s.agent.pc == SleepReady && s.agent.readySeen ==> Pending(s.calls, s.agentNo, false))
  }

  /** Every worker RPC was served to the controller that the serving agent had admitted. */
  ghost predicate ServedOk(s: State) {
    forall i :: 0 <= i < |s.served| ==>
      s.served[i].agent in s.registered && Granted(s.calls, s.served[i].agent, s.served[i].controller)
  }

  ghost predicate Inv(s: State) {
    && CallsOk(s) && OneAdmission(s.calls) && OneReadiness(s.calls)
    && ControllerOk(s) && AgentOk(s) && FlagsOk(s) && NoLostWakeUp(s) && ServedOk(s)
  }

  lemma NobodyToWake(s: State)
    requires CallsOk(s)
    ensures WakeAllMyself(s.calls, s.agentNo) == s.calls
  {}

  lemma InvStart(hasSystem: bool)
    ensures Inv(Start(hasSystem))
  {}

  // ---------- calls only advance ----------

  ghost predicate Later(calls: seq<Call>, calls': seq<Call>) {
    && |calls| <= |calls'|
    && forall k :: 0 <= k < |calls| ==>
      && calls'[k].kind == calls[k].kind && calls'[k].agent == calls[k].agent
      && calls'[k].controller == calls[k].controller
      && (Accepted(calls[k]) ==> Accepted(calls'[k]))
      && (Signalled(calls[k]) ==> Signalled(calls'[k]))
      && (calls[k].at.Answered? ==> calls'[k] == calls[k])
  }

  lemma LaterWitnesses(calls: seq<Call>, calls': seq<Call>, agent: nat)
    requires Later(calls, calls')
    ensures SomeAccepted(calls, agent) ==> SomeAccepted(calls', agent)
    ensures SomeSignalled(calls, agent) ==> SomeSignalled(calls', agent)
  {
    if SomeAccepted(calls, agent) {
      var k :| 0 <= k < |calls| && calls[k].agent == agent && Accepted(calls[k]);
      assert calls'[k].agent == agent && Accepted(calls'[k]);
    }
    if SomeSignalled(calls, agent) {
      var k :| 0 <= k < |calls| && calls[k].agent == agent && Signalled(calls[k]);
      assert calls'[k].agent == agent && Signalled(calls'[k]);
    }
  }

  lemma LaterServed(s: State, s': State)
    requires ServedOk(s) && Later(s.calls, s'.calls) && s.served == s'.served && s.registered <= s'.registered
    ensures ServedOk(s')
  {
    forall i | 0 <= i < |s.served| ensures Granted(s'.calls, s.served[i].agent, s.served[i].controller) {
      var via: nat :| Grants(s.calls, via, s.served[i].agent, s.served[i].controller);
      assert Grants(s'.calls, via, s.served[i].agent, s.served[i].controller);
    }
  }

  lemma LaterPending(calls: seq<Call>, calls': seq<Call>, agent: nat, here: bool)
    requires |calls| <= |calls'| && Pending(calls, agent, here)
    requires forall k :: 0 <= k < |calls| && calls[k].at == Notifying ==> calls'[k] == calls[k]
    ensures Pending(calls', agent, here)
  {
    var k :| 0 <= k < |calls| && calls[k].agent == agent && calls[k].at == Notifying && calls[k].kind.IAmHere? == here;
    assert calls'[k] == calls[k];
  }

  /** The history part of the invariant, for a step that changes no flag the agent was signalled with. */
  lemma LaterHistory(s: State, s': State)
    requires FlagsOk(s) && NoLostWakeUp(s) && ServedOk(s) && Later(s.calls, s'.calls)
    requires s.served == s'.served && s.registered <= s'.registered && s.agentNo == s'.agentNo
    requires s'.agent.hereSeen == s.agent.hereSeen && s'.agent.readySeen == s.agent.readySeen
    requires forall k :: 0 <= k < |s.calls| && s.calls[k].at == Notifying ==> s'.calls[k] == s.calls[k]
    requires s'.agent.pc == s.agent.pc || (!s'.agent.pc.SleepHere? && !s'.agent.pc.SleepReady?)
    ensures FlagsOk(s') && NoLostWakeUp(s') && ServedOk(s')
  {
    LaterWitnesses(s.calls, s'.calls, s.agentNo);
    LaterServed(s, s');
    if Pending(s.calls, s.agentNo, true) {
      LaterPending(s.calls, s'.calls, s.agentNo, true);
    }
    if Pending(s.calls, s.agentNo, false) {
      LaterPending(s.calls, s'.calls, s.agentNo, false);
    }
  }

  lemma InvStartServer(s: State, step: Step)
    requires Inv(s) && Enabled(s, step) && step.StartServer?
    ensures Inv(Apply(s, step))
  {}

  lemma InvTestHere(s: State, step: Step)
    requires Inv(s) && Enabled(s, step) && step.TestHere?
    ensures Inv(Apply(s, step))
  {}

  lemma InvRegister(s: State, step: Step)
    requires Inv(s) && Enabled(s, step) && step.Register?
    ensures Inv(Apply(s, step))
  {}

  lemma InvAnnounce(s: State, step: Step)
    requires Inv(s) && Enabled(s, step) && step.Announce?
    ensures Inv(Apply(s, step))
  {}

  lemma InvNotifyMyself(s: State, step: Step)
    requires Inv(s) && Enabled(s, step) && step.NotifyMyself?
    ensures Inv(Apply(s, step))
  {
    NobodyToWake(s);
  }

  lemma InvTestReady(s: State, step: Step)
    requires Inv(s) && Enabled(s, step) && step.TestReady?
    ensures Inv(Apply(s, step))
  {}

  lemma InvTakeHereAnswer(s: State, step: Step)
    requires Inv(s) && Enabled(s, step) && step.TakeHereAnswer?
    ensures Inv(Apply(s, step))
  {}

  lemma InvTakeReadyAnswer(s: State, step: Step)
    requires Inv(s) && Enabled(s, step) && step.TakeReadyAnswer?
    ensures Inv(Apply(s, step))
  {}

  lemma InvCallWorker(s: State, step: Step)
    requires Inv(s) && Enabled(s, step) && step.CallWorker?
    ensures Inv(Apply(s, step))
  {
    var s' := Apply(s, step);
    assert Grants(s.calls, s.controller.via, s.agentNo, s.controllerNo);
    assert Granted(s.calls, s.agentNo, s.controllerNo);
  }

  lemma InvCallReset(s: State, step: Step)
    requires Inv(s) && Enabled(s, step) && step.CallReset?
    ensures Inv(Apply(s, step))
  {
    assert Grants(s.calls, s.controller.via, s.agentNo, s.controllerNo);
    assert Granted(s.calls, s.agentNo, s.controllerNo);
  }

  lemma InvWakeHere(s: State, step: Step)
    requires Inv(s) && Enabled(s, step) && step.WakeHere?
    ensures Inv(Apply(s, step))
  {}

  lemma InvWakeReady(s: State, step: Step)
    requires Inv(s) && Enabled(s, step) && step.WakeReady?
    ensures Inv(Apply(s, step))
  {}

  lemma InvTimeOut(s: State, step: Step)
    requires Inv(s) && Enabled(s, step) && step.TimeOut?
    ensures Inv(Apply(s, step))
  {}

  lemma InvRestartController(s: State, step: Step)
    requires Inv(s) && Enabled(s, step) && step.RestartController?
    ensures Inv(Apply(s, step))
  {}

  lemma InvExitController(s: State, step: Step)
    requires Inv(s) && Enabled(s, step) && step.ExitController?
    ensures Inv(Apply(s, step))
  {}

  lemma InvResetAgent(s: State, step: Step)
    requires Inv(s) && Enabled(s, step) && step.ResetAgent?
    ensures Inv(Apply(s, step))
  {}

  lemma InvWatchdog(s: State, step: Step)
    requires Inv(s) && Enabled(s, step) && step.Watchdog?
    ensures Inv(Apply(s, step))
  {}

  lemma InvRestartAgent(s: State, step: Step)
    requires Inv(s) && Enabled(s, step) && step.RestartAgent?
    ensures Inv(Apply(s, step))
  {}

  // ---------- new calls ----------

  /** `s'` differs from `s` in a new call `c` and in the controller's state. */
  ghost predicate Appended(s: State, s': State, c: Call) {
    s' == s.(calls := s.calls + [c], controller := s'.controller) && c.at == Sent
  }

  lemma AppendedLater(s: State, s': State, c: Call)
    requires Appended(s, s', c)
    ensures Later(s.calls, s'.calls)
    ensures s'.calls[|s.calls|] == c && forall k :: 0 <= k < |s.calls| ==> s'.calls[k] == s.calls[k]
  {}

  lemma AppendedCalls(s: State, s': State, c: Call)
    requires Appended(s, s', c) && CallsOk(s) && OneAdmission(s.calls) && OneReadiness(s.calls) && CallOk(s', c)
    requires c.kind.IAmReady? ==> Unused(s.calls, c.kind.via)
    ensures CallsOk(s') && OneAdmission(s'.calls) && OneReadiness(s'.calls)
  {
    AppendedLater(s, s', c);
    forall k | 0 <= k < |s'.calls| ensures CallOk(s', s'.calls[k]) {
      if k < |s.calls| {
        assert CallOk(s, s.calls[k]);
      }
    }
  }

  lemma AppendedHistory(s: State, s': State, c: Call)
    requires Appended(s, s', c) && FlagsOk(s) && NoLostWakeUp(s) && ServedOk(s)
    ensures FlagsOk(s') && NoLostWakeUp(s') && ServedOk(s')
  {
    AppendedLater(s, s', c);
    LaterHistory(s, s');
  }

  lemma InvConnect(s: State, step: Step)
    requires Inv(s) && Enabled(s, step) && step.Connect?
    ensures Inv(Apply(s, step))
  {
    var s', c := Apply(s, step), Call(IAmHere, s.controllerNo, s.agentNo, Sent);
    AppendedCalls(s, s', c);
    AppendedHistory(s, s', c);
    forall k | 0 <= k < |s.calls| ensures s.calls[k].kind != IAmReady(|s.calls|) {
      assert CallOk(s, s.calls[k]);
    }
  }

  lemma InvCallReady(s: State, step: Step)
    requires Inv(s) && Enabled(s, step) && step.CallReady?
    ensures Inv(Apply(s, step))
  {
    var via := s.controller.via;
    var s', c := Apply(s, step), Call(IAmReady(via), s.controllerNo, s.calls[via].agent, Sent);
    assert CallOk(s, s.calls[via]);
    AppendedCalls(s, s', c);
    AppendedHistory(s, s', c);
  }

  // ---------- steps of the handlers ----------

  /** `s'` differs from `s` in the progress of call `k` and in the agent's threads and flags, which are only set. */
  ghost predicate Moved(s: State, s': State, k: nat) {
    && k < |s.calls| && s.calls[k].agent == s.agentNo && !s.calls[k].at.Answered?
    && |s'.calls| == |s.calls| && s'.calls == s.calls[k := s.calls[k].(at := s'.calls[k].at)]
    && (Accepted(s.calls[k]) ==> Accepted(s'.calls[k]))
    && (Signalled(s.calls[k]) ==> Signalled(s'.calls[k]))
    && s' == s.(calls := s'.calls, agent := s'.agent)
    && (s.agent.hereSeen ==> s'.agent.hereSeen) && (s.agent.readySeen ==> s'.agent.readySeen)
    && (s.agent.pc != Boot ==> s'.agent.pc != Boot)
  }

  lemma MovedLater(s: State, s': State, k: nat)
    requires Moved(s, s', k)
    ensures Later(s.calls, s'.calls)
  {}

  lemma MovedController(s: State, s': State, k: nat)
    requires Moved(s, s', k) && ControllerOk(s)
    ensures ControllerOk(s')
  {
    MovedLater(s, s', k);
  }

  lemma MovedCalls(s: State, s': State, k: nat)
    requires Moved(s, s', k) && CallsOk(s) && CallOk(s', s'.calls[k])
    ensures CallsOk(s')
  {
    forall j | 0 <= j < |s'.calls| ensures CallOk(s', s'.calls[j]) {
      assert CallOk(s, s.calls[j]);
    }
  }

  lemma MovedOnce(s: State, s': State, k: nat)
    requires Moved(s, s', k) && CallsOk(s) && OneAdmission(s.calls) && OneReadiness(s.calls)
    requires Accepted(s'.calls[k]) ==> Accepted(s.calls[k]) || !s.agent.hereSeen
    ensures OneAdmission(s'.calls) && OneReadiness(s'.calls)
  {
    forall i, j | 0 <= i < j < |s'.calls| && Accepted(s'.calls[i]) && Accepted(s'.calls[j])
      ensures s'.calls[i].agent != s'.calls[j].agent
    {
      assert CallOk(s, s.calls[i]) && CallOk(s, s.calls[j]);
    }
  }

  lemma MovedInv(s: State, s': State, k: nat)
    requires Inv(s) && Moved(s, s', k) && CallOk(s', s'.calls[k])
    requires Accepted(s'.calls[k]) ==> Accepted(s.calls[k]) || !s.agent.hereSeen
    requires AgentOk(s')
    ensures CallsOk(s') && OneAdmission(s'.calls) && OneReadiness(s'.calls) && ControllerOk(s') && ServedOk(s')
    ensures Later(s.calls, s'.calls)
  {
    MovedLater(s, s', k);
    MovedController(s, s', k);
    MovedCalls(s, s', k);
    MovedOnce(s, s', k);
    LaterServed(s, s');
  }

  lemma PendingElsewhere(calls: seq<Call>, calls': seq<Call>, k: nat, agent: nat, here: bool)
    requires k < |calls| == |calls'| && calls[k].kind.IAmHere? != here
    requires forall j :: 0 <= j < |calls| && j != k ==> calls'[j] == calls[j]
    ensures Pending(calls, agent, here) ==> Pending(calls', agent, here)
  {
    if j :| 0 <= j < |calls| && calls[j].agent == agent && calls[j].at == Notifying && calls[j].kind.IAmHere? == here {
      assert calls'[j] == calls[j];
    }
  }

  lemma InvDeliver(s: State, k: nat)
    requires Inv(s) && Enabled(s, Deliver(k))
    ensures Inv(Apply(s, Deliver(k)))
  {
    var s' := Apply(s, Deliver(k));
    assert CallOk(s, s.calls[k]);
    MovedInv(s, s', k);
    LaterHistory(s, s');
  }

  lemma InvTestMyself(s: State, k: nat)
    requires Inv(s) && Enabled(s, TestMyself(k))
    ensures Inv(Apply(s, TestMyself(k)))
  {
    var s' := Apply(s, TestMyself(k));
    assert CallOk(s, s.calls[k]);
    MovedInv(s, s', k);
    LaterHistory(s, s');
  }

  lemma InvEnterHere(s: State, k: nat)
    requires Inv(s) && Enabled(s, Enter(k)) && s.calls[k].kind.IAmHere?
    ensures Inv(Apply(s, Enter(k)))
  {
    var s' := Apply(s, Enter(k));
    assert CallOk(s, s.calls[k]);
    MovedInv(s, s', k);
    if s.agent.hereSeen {
      LaterHistory(s, s');
    } else {
      assert s'.calls[k].agent == s.agentNo && Accepted(s'.calls[k]);
      LaterWitnesses(s.calls, s'.calls, s.agentNo);
    }
  }

  lemma InvEnterReady(s: State, k: nat)
    requires Inv(s) && Enabled(s, Enter(k)) && s.calls[k].kind.IAmReady?
    ensures Inv(Apply(s, Enter(k)))
  {
    var s' := Apply(s, Enter(k));
    assert CallOk(s, s.calls[k]);
    MovedInv(s, s', k);
    assert s'.calls[k].agent == s.agentNo && Signalled(s'.calls[k]);
    LaterWitnesses(s.calls, s'.calls, s.agentNo);
  }

  lemma NotifyHistory(s: State, k: nat)
    requires FlagsOk(s) && NoLostWakeUp(s) && Enabled(s, Notify(k)) && Moved(s, Apply(s, Notify(k)), k)
    ensures FlagsOk(Apply(s, Notify(k))) && NoLostWakeUp(Apply(s, Notify(k)))
  {
    var s' := Apply(s, Notify(k));
    MovedLater(s, s', k);
    LaterWitnesses(s.calls, s'.calls, s.agentNo);
    PendingElsewhere(s.calls, s'.calls, k, s.agentNo, !s.calls[k].kind.IAmHere?);
  }

  lemma NotifyMoves(s: State, k: nat)
    requires AgentOk(s) && Enabled(s, Notify(k)) && CallOk(s, s.calls[k])
    ensures var s' := Apply(s, Notify(k));
            && Moved(s, s', k) && AgentOk(s')
            && (Accepted(s'.calls[k]) ==> Accepted(s.calls[k]))
            && s'.calls[k].at != SleepingMyself && (s'.calls[k].kind.IAmHere? ==> s'.calls[k].at != AwaitingMyself)
            && (s'.calls[k].kind.IAmReady? ==> !s'.calls[k].at.Answered?)
            && s'.agent.hereSeen == s.agent.hereSeen && s'.agent.readySeen == s.agent.readySeen
  {}

  lemma InvNotify(s: State, k: nat)
    requires Inv(s) && Enabled(s, Notify(k))
    ensures Inv(Apply(s, Notify(k)))
  {
    var s' := Apply(s, Notify(k));
    assert CallOk(s, s.calls[k]);
    NotifyMoves(s, k);
    MovedLater(s, s', k);
    MovedInv(s, s', k);
    NotifyHistory(s, k);
  }

  // ---------- every run ----------

  lemma InvStep(s: State, step: Step)
    requires Inv(s) && Enabled(s, step)
    ensures Inv(Apply(s, step))
  {
    match step
    case StartServer => InvStartServer(s, step);
    case TestHere => InvTestHere(s, step);
    case Register => InvRegister(s, step);
    case Announce => InvAnnounce(s, step);
    case NotifyMyself => InvNotifyMyself(s, step);
    case TestReady => InvTestReady(s, step);
    case Deliver(k) => InvDeliver(s, k);
    case Enter(k) => if s.calls[k].kind.IAmHere? { InvEnterHere(s, k); } else { InvEnterReady(s, k); }
    case Notify(k) => InvNotify(s, k);
    case TestMyself(k) => InvTestMyself(s, k);
    case Connect => InvConnect(s, step);
    case TakeHereAnswer => InvTakeHereAnswer(s, step);
    case CallReady => InvCallReady(s, step);
    case TakeReadyAnswer => InvTakeReadyAnswer(s, step);
    case CallWorker => InvCallWorker(s, step);
    case CallReset => InvCallReset(s, step);
    case WakeHere => InvWakeHere(s, step);
    case WakeReady => InvWakeReady(s, step);
    case WakeMyself(k) => assert false; // nobody sleeps there
    case TimeOut => InvTimeOut(s, step);
    case RestartController => InvRestartController(s, step);
    case ExitController => InvExitController(s, step);
    case ResetAgent => InvResetAgent(s, step);
    case Watchdog => InvWatchdog(s, step);
    case RestartAgent => InvRestartAgent(s, step);
  }

  lemma {:induction false} InvRun(s: State, steps: seq<Step>)
    requires Inv(s) && IsRun(s, steps)
    ensures Inv(End(s, steps))
    decreases |steps|
  {
    if steps == [] {
    } else {
      InvStep(s, steps[0]);
      InvRun(Apply(s, steps[0]), steps[1..]);
    }
  }

  /** In no run does an i_am_ready handler sleep in its second wait: it cannot get at the lock before the
      condition holds. */
  lemma NobodySleepsMyself(hasSystem: bool, steps: seq<Step>)
    requires IsRun(Start(hasSystem), steps)
    ensures var s := End(Start(hasSystem), steps);
            forall k :: 0 <= k < |s.calls| ==> s.calls[k].at != SleepingMyself
  {
    InvStart(hasSystem);
    InvRun(Start(hasSystem), steps);
  }

  /** Session pairing. In every run an agent incarnation answers at most one i_am_here with `false`, and
      serves worker RPCs to one controller incarnation only: the one that got this answer. */
  lemma SessionPairing(hasSystem: bool, steps: seq<Step>)
    requires IsRun(Start(hasSystem), steps)
    ensures var s := End(Start(hasSystem), steps);
            && (forall j, k :: 0 <= j < k < |s.calls| && AnsweredFalse(s.calls[j]) && AnsweredFalse(s.calls[k])
                  ==> s.calls[j].agent != s.calls[k].agent)
            && (forall i, j :: 0 <= i < |s.served| && 0 <= j < |s.served| && s.served[i].agent == s.served[j].agent
                  ==> s.served[i] == s.served[j])
            && (forall i :: 0 <= i < |s.served| ==> Granted(s.calls, s.served[i].agent, s.served[i].controller))
  {
    InvStart(hasSystem);
    InvRun(Start(hasSystem), steps);
    var s := End(Start(hasSystem), steps);
    forall i, j | 0 <= i < |s.served| && 0 <= j < |s.served| && s.served[i].agent == s.served[j].agent
      ensures s.served[i] == s.served[j]
    {
      var v: nat :| Grants(s.calls, v, s.served[i].agent, s.served[i].controller);
      var w: nat :| Grants(s.calls, w, s.served[j].agent, s.served[j].controller);
      assert Accepted(s.calls[v]) && Accepted(s.calls[w]);
    }
  }

  /** The barrier. A controller past i_am_ready was admitted by an agent that has registered its worker
      callbacks; an agent leaves init only after the controller it admitted called i_am_ready. */
  lemma Barrier(hasSystem: bool, steps: seq<Step>)
    requires IsRun(Start(hasSystem), steps)
    ensures var s := End(Start(hasSystem), steps);
            && (s.controller.Up? ==>
                  && s.controller.via < |s.calls|
                  && Grants(s.calls, s.controller.via, s.calls[s.controller.via].agent, s.controllerNo)
                  && s.calls[s.controller.via].agent in s.registered
                  && (s.calls[s.controller.via].agent == s.agentNo ==> s.agent.bound))
            && (s.agent.pc == Initialised ==>
                  exists k :: 0 <= k < |s.calls| && s.calls[k].agent == s.agentNo && Signalled(s.calls[k])
                              && Grants(s.calls, s.calls[k].kind.via, s.agentNo, s.calls[k].controller))
            && NoLostWakeUp(s)
  {
    InvStart(hasSystem);
    InvRun(Start(hasSystem), steps);
    var s := End(Start(hasSystem), steps);
    if s.agent.pc == Initialised {
      var k :| 0 <= k < |s.calls| && s.calls[k].agent == s.agentNo && Signalled(s.calls[k]);
      assert CallOk(s, s.calls[k]);
    }
  }
}
