/** Which states the agent cannot leave by itself. The handshake is meant to detect the re-connect of a
    controller that was lost; it does, except in the states that Doomed describes. */
module HandshakeStuck {
  import opened Handshake
  import opened HandshakeSafety

  /** The controller still holds, or may still receive, the agent's `false`. */
  predicate Coming(s: State) {
    match s.controller
    case AwaitingHere(k) => k < |s.calls| && s.calls[k].agent == s.agentNo && Accepted(s.calls[k])
    case Admitted(via) => via < |s.calls| && s.calls[via].agent == s.agentNo
    case _ => false
  }

  /** This i_am_ready will still set the agent's flag. */
  predicate WillSignal(s: State, c: Call) {
    c.agent == s.agentNo && c.kind.IAmReady? && (c.at == Entering || (c.at == Sent && !s.agent.stopped))
  }

  ghost predicate NoneWillSignal(s: State) {
    forall k :: 0 <= k < |s.calls| ==> !WillSignal(s, s.calls[k])
  }

  /** The agent admitted a controller that is lost to it before calling i_am_ready, unless a call is still on its
      way. A re-connect is not detected: its i_am_here waits for the lock that init holds, or there is no
      system module to reset. */
  predicate CutOff(s: State) {
    && s.agent.hereSeen && !s.agent.readySeen && !s.agent.resetDue
    && (s.agent.stopped || !Coming(s))
    && (HereLocked(s.agent.pc) || !s.hasSystem)
  }

  /** Cut off, and no call on its way will change it. */
  ghost predicate Doomed(s: State) {
    CutOff(s) && NoneWillSignal(s)
  }

  /** Help from outside: the agent is power-cycled, or a controller that terminates in order tells it to exit. */
  predicate IsHelp(step: Step) {
    step.RestartAgent? || step.ExitController?
  }

  /** A step that nobody has to hope for: neither help nor a spurious wake-up. */
  predicate IsOwn(step: Step) {
    !IsHelp(step) && !step.WakeHere? && !step.WakeReady? && !step.WakeMyself?
  }

  /** The agent gets out of init, or into its next incarnation, by the steps of the protocol alone. */
  ghost predicate Escapes(s: State) {
    exists steps :: IsRun(s, steps) && Own(steps) && Out(s.agentNo, End(s, steps))
  }

  ghost predicate WithoutHelp(steps: seq<Step>) {
    forall i :: 0 <= i < |steps| ==> !IsHelp(steps[i])
  }

  ghost predicate Own(steps: seq<Step>) {
    forall i :: 0 <= i < |steps| ==> IsOwn(steps[i])
  }

  predicate Out(agentNo: nat, s: State) {
    s.agentNo > agentNo || s.agent.pc == Initialised
  }

  // ---------- doomed states stay doomed ----------

  lemma NoneWillSignalStep(s: State, step: Step)
    requires Inv(s) && Doomed(s) && Enabled(s, step) && !IsHelp(step)
    ensures NoneWillSignal(Apply(s, step))
  {
    var s' := Apply(s, step);
    forall k | 0 <= k < |s'.calls| ensures !WillSignal(s', s'.calls[k]) {
      if k < |s.calls| {
        assert CallOk(s, s.calls[k]) && !WillSignal(s, s.calls[k]);
      }
    }
  }

  predicate IsHandlerStep(step: Step) {
    step.Deliver? || step.Enter? || step.Notify? || step.TestMyself? || step.WakeMyself?
  }

  predicate IsControllerStep(step: Step) {
    || step.Connect? || step.TakeHereAnswer? || step.CallReady? || step.TakeReadyAnswer?
    || step.CallWorker? || step.CallReset? || step.TimeOut? || step.RestartController?
  }

  lemma CutOffAgentStep(s: State, step: Step)
    requires Inv(s) && Doomed(s) && Enabled(s, step) && !IsHelp(step) && !IsHandlerStep(step) && !IsControllerStep(step)
    ensures CutOff(Apply(s, step)) && Apply(s, step).agentNo == s.agentNo
  {
    NobodyToWake(s);
  }

  lemma CutOffHandlerStep(s: State, step: Step)
    requires Inv(s) && Doomed(s) && Enabled(s, step) && IsHandlerStep(step)
    ensures CutOff(Apply(s, step)) && Apply(s, step).agentNo == s.agentNo
  {
    assert CallOk(s, s.calls[step.call]) && !WillSignal(s, s.calls[step.call]);
  }

  lemma CutOffControllerStep(s: State, step: Step)
    requires Inv(s) && Doomed(s) && Enabled(s, step) && IsControllerStep(step)
    ensures CutOff(Apply(s, step)) && Apply(s, step).agentNo == s.agentNo
  {}

  lemma DoomedStep(s: State, step: Step)
    requires Inv(s) && Doomed(s) && Enabled(s, step) && !IsHelp(step)
    ensures Doomed(Apply(s, step)) && Apply(s, step).agentNo == s.agentNo
  {
    NoneWillSignalStep(s, step);
    if IsHandlerStep(step) {
      CutOffHandlerStep(s, step);
    } else if IsControllerStep(step) {
      CutOffControllerStep(s, step);
    } else {
      CutOffAgentStep(s, step);
    }
  }

  lemma {:induction false} DoomedRun(s: State, steps: seq<Step>)
    requires Inv(s) && Doomed(s) && IsRun(s, steps) && WithoutHelp(steps)
    ensures Doomed(End(s, steps)) && End(s, steps).agentNo == s.agentNo && Inv(End(s, steps))
    decreases |steps|
  {
    if steps == [] {
    } else {
      DoomedStep(s, steps[0]);
      InvStep(s, steps[0]);
      DoomedRun(Apply(s, steps[0]), steps[1..]);
    }
  }

  // ---------- all other states are left ----------

  lemma EscapeBy(s: State, step: Step)
    requires Enabled(s, step) && IsOwn(step) && Escapes(Apply(s, step)) && Apply(s, step).agentNo == s.agentNo
    ensures Escapes(s)
  {
    var s' := Apply(s, step);
    var rest :| IsRun(s', rest) && Own(rest) && Out(s'.agentNo, End(s', rest));
    var steps := [step] + rest;
    assert steps[1..] == rest;
    assert IsRun(s, steps) && End(s, steps) == End(s', rest);
    assert Own(steps);
  }

  lemma EscapeOut(s: State)
    requires s.agent.pc == Initialised || s.agent.resetDue
    ensures Escapes(s)
  {
    if s.agent.pc == Initialised {
      assert IsRun(s, []) && Own([]) && End(s, []) == s;
    } else {
      var steps := [ResetAgent];
      assert steps[1..] == [];
      assert IsRun(s, steps) && Own(steps) && End(s, steps) == NewAgent(s);
    }
  }

  function StepsLeft(a: Agent): nat {
    match a.pc
    case Boot => 9
    case HoldHere => 8
    case SleepHere => 7
    case WantHere => 6
    case Binding => 5
    case Announcing => 4
    case NotifyingMyself => 3
    case SleepReady => 2
    case WantReady => 1
    case Initialised => 0
  }

  /** How init moves on once both flags are set; no spurious wake-up is needed because none is lost. */
  lemma NextInit(s: State) returns (step: Step)
    requires Inv(s) && s.agent.hereSeen && s.agent.readySeen && s.agent.pc != Initialised
    ensures IsOwn(step) && Enabled(s, step) && Apply(s, step).agentNo == s.agentNo
    ensures Apply(s, step).agent.hereSeen && Apply(s, step).agent.readySeen
    ensures StepsLeft(Apply(s, step).agent) < StepsLeft(s.agent)
  {
    if s.agent.pc == SleepReady {
      step := NextWhenAsleep(s);
    } else {
      step := NextOfInit(s.agent.pc);
    }
  }

  function NextOfInit(pc: InitPc): Step {
    match pc
    case WantHere => TestHere
    case Binding => Register
    case Announcing => Announce
    case NotifyingMyself => NotifyMyself
    case _ => TestReady
  }

  lemma NextWhenAsleep(s: State) returns (step: Step)
    requires Inv(s) && s.agent.hereSeen && s.agent.readySeen && s.agent.pc == SleepReady
    ensures IsOwn(step) && Enabled(s, step) && Apply(s, step).agentNo == s.agentNo
    ensures Apply(s, step).agent.hereSeen && Apply(s, step).agent.readySeen
    ensures StepsLeft(Apply(s, step).agent) < StepsLeft(s.agent)
  {
    var k := Notifier(s.calls, s.agentNo, false);
    step := Notify(k);
  }

  lemma Notifier(calls: seq<Call>, agent: nat, here: bool) returns (k: nat)
    requires Pending(calls, agent, here)
    ensures k < |calls| && calls[k].agent == agent && calls[k].at == Notifying && calls[k].kind.IAmHere? == here
  {
    k :| 0 <= k < |calls| && calls[k].agent == agent && calls[k].at == Notifying && calls[k].kind.IAmHere? == here;
  }

  lemma EscapeSignalled(s: State)
    requires Inv(s) && s.agent.hereSeen && s.agent.readySeen
    ensures Escapes(s)
    decreases StepsLeft(s.agent)
  {
    if s.agent.pc == Initialised {
      EscapeOut(s);
    } else {
      var step := NextInit(s);
      InvStep(s, step);
      EscapeSignalled(Apply(s, step));
      EscapeBy(s, step);
    }
  }

  /** An i_am_ready that will set the flag takes the agent out of init. */
  lemma EscapeReadyCall(s: State, k: nat)
    requires Inv(s) && k < |s.calls| && WillSignal(s, s.calls[k])
    ensures Escapes(s)
    decreases s.calls[k].at.Sent?
  {
    assert CallOk(s, s.calls[k]);
    var step := if s.calls[k].at.Sent? then Deliver(k) else Enter(k);
    InvStep(s, step);
    if step.Deliver? {
      EscapeReadyCall(Apply(s, step), k);
      EscapeBy(s, step);
    } else if s.agent.readySeen {
      EscapeSignalled(s);
    } else {
      EscapeSignalled(Apply(s, step));
      EscapeBy(s, step);
    }
  }

  /** So does a controller that holds, or is about to receive, the agent's `false`. */
  lemma EscapeAdmitted(s: State)
    requires Inv(s) && !s.agent.stopped && Coming(s)
    ensures Escapes(s)
    decreases if s.controller.Admitted? then 0 else if s.calls[s.controller.call].at.Answered? then 1 else 2
  {
    match s.controller
    case Admitted(via) =>
      InvStep(s, CallReady);
      EscapeReadyCall(Apply(s, CallReady), |s.calls|);
      EscapeBy(s, CallReady);
    case AwaitingHere(k) =>
      var step := if s.calls[k].at.Answered? then TakeHereAnswer else Notify(k);
      InvStep(s, step);
      EscapeAdmitted(Apply(s, step));
      EscapeBy(s, step);
  }

  /** An i_am_here that reaches its handler while the lock is free is answered: with `false`, or with a reset. */
  lemma EscapeHereCall(s: State, k: nat)
    requires Inv(s) && !s.agent.stopped && s.controller == AwaitingHere(k) && Handling(s, k, Entering)
    requires s.calls[k].kind.IAmHere? && !HereLocked(s.agent.pc)
    requires !s.agent.hereSeen || s.hasSystem
    ensures Escapes(s)
  {
    InvStep(s, Enter(k));
    if s.agent.hereSeen {
      EscapeOut(Apply(s, Enter(k)));
    } else {
      EscapeAdmitted(Apply(s, Enter(k)));
    }
    EscapeBy(s, Enter(k));
  }

  lemma EscapeByConnect(s: State)
    requires Inv(s) && !s.agent.stopped && s.agent.pc != Boot && !HereLocked(s.agent.pc)
    requires (!s.agent.hereSeen || s.hasSystem) && s.controller == Connecting
    ensures Escapes(s)
  {
    var k := |s.calls|;
    var s' := Apply(s, Connect);
    InvStep(s, Connect);
    InvStep(s', Deliver(k));
    EscapeHereCall(Apply(s', Deliver(k)), k);
    EscapeBy(s', Deliver(k));
    EscapeBy(s, Connect);
  }

  /** A new controller connects to an agent whose lock is free and gets as far as its handler. */
  lemma EscapeByReconnect(s: State)
    requires Inv(s) && !s.agent.stopped && s.agent.pc != Boot && !HereLocked(s.agent.pc)
    requires !s.agent.hereSeen || s.hasSystem
    ensures Escapes(s)
  {
    InvStep(s, RestartController);
    EscapeByConnect(Apply(s, RestartController));
    EscapeBy(s, RestartController);
  }

  lemma EscapeFresh(s: State)
    requires Inv(s) && !s.agent.hereSeen && !s.agent.resetDue
    ensures Escapes(s)
    decreases StepsLeft(s.agent)
  {
    if s.agent.pc == Boot || s.agent.pc == HoldHere {
      var step := if s.agent.pc == Boot then StartServer else TestHere;
      InvStep(s, step);
      EscapeFresh(Apply(s, step));
      EscapeBy(s, step);
    } else {
      EscapeByReconnect(s);
    }
  }

  lemma EscapeUndoomed(s: State)
    requires Inv(s) && !Doomed(s)
    ensures Escapes(s)
  {
    if s.agent.resetDue {
      EscapeOut(s);
    } else if !s.agent.hereSeen {
      EscapeFresh(s);
    } else if s.agent.readySeen {
      EscapeSignalled(s);
    } else if !s.agent.stopped && Coming(s) {
      EscapeAdmitted(s);
    } else if k :| 0 <= k < |s.calls| && WillSignal(s, s.calls[k]) {
      EscapeReadyCall(s, k);
    } else {
      EscapeByReconnect(s);
    }
  }

  /** In every reachable state of the model, where every handler has a thread of its own, the agent can get out of init,
      or reset, by itself if and only if it is not doomed. */
  lemma EscapesIffNotDoomed(hasSystem: bool, history: seq<Step>)
    requires IsRun(Start(hasSystem), history)
    ensures var s := End(Start(hasSystem), history);
            Escapes(s) <==> !Doomed(s)
  {
    InvStart(hasSystem);
    InvRun(Start(hasSystem), history);
    var s := End(Start(hasSystem), history);
    if Doomed(s) {
      forall steps | IsRun(s, steps) && Own(steps) ensures !Out(s.agentNo, End(s, steps)) {
        DoomedRun(s, steps);
      }
    } else {
      EscapeUndoomed(s);
    }
  }

  /** No i_am_here made to the running agent since the call numbered `from` was answered. */
  ghost predicate Silent(s: State, from: nat) {
    forall k :: from <= k < |s.calls| && s.calls[k].agent == s.agentNo && s.calls[k].kind.IAmHere? ==>
      s.calls[k].at == Sent || s.calls[k].at == Entering
  }

  lemma SilentStep(s: State, step: Step, from: nat)
    requires Inv(s) && Doomed(s) && s.hasSystem && Enabled(s, step) && !IsHelp(step) && Silent(s, from)
    ensures Silent(Apply(s, step), from)
  {
    var s' := Apply(s, step);
    forall k | from <= k < |s'.calls| && s'.calls[k].agent == s'.agentNo && s'.calls[k].kind.IAmHere?
      ensures s'.calls[k].at == Sent || s'.calls[k].at == Entering
    {
      if k < |s.calls| {
        assert s.calls[k].agent == s.agentNo && s.calls[k].kind.IAmHere?;
      }
    }
  }

  /** A doomed agent that has a system module answers no new i_am_here and stays in init, and no controller gets
      up with it, whatever the controllers do: a re-connect goes undetected until help arrives. */
  lemma {:induction false} ReconnectUndetected(s: State, steps: seq<Step>, from: nat)
    requires Inv(s) && Doomed(s) && s.hasSystem && IsRun(s, steps) && WithoutHelp(steps) && Silent(s, from)
    ensures var e := End(s, steps);
            && e.agentNo == s.agentNo && e.agent.pc != Initialised && Silent(e, from)
            && !(e.controller.Up? && Serves(e, e.controller.via))
    decreases |steps|
  {
    if steps == [] {
      if s.controller.Up? {
        assert CallOk(s, s.calls[s.controller.call]);
      }
    } else {
      DoomedStep(s, steps[0]);
      InvStep(s, steps[0]);
      SilentStep(s, steps[0], from);
      ReconnectUndetected(Apply(s, steps[0]), steps[1..], from);
    }
  }

  /** The first controller's i_am_here, up to `at`, while init is at `pc`. */
  function Opening(hasSystem: bool, pc: InitPc, at: Progress): State {
    State(hasSystem, 0, FRESH_AGENT.(pc := pc, hereSeen := at != Sent && at != Entering), 0, AwaitingHere(0),
          [Call(IAmHere, 0, 0, at)], {}, [])
  }

  lemma OpeningSent(hasSystem: bool) returns (history: seq<Step>)
    ensures IsRun(Start(hasSystem), history) && End(Start(hasSystem), history) == Opening(hasSystem, SleepHere, Sent)
  {
    var s := Start(hasSystem);
    RunSnoc(s, [], StartServer);
    RunSnoc(s, [] + [StartServer], TestHere);
    RunSnoc(s, [] + [StartServer] + [TestHere], Connect);
    history := [] + [StartServer] + [TestHere] + [Connect];
  }

  lemma OpeningAccepted(hasSystem: bool) returns (history: seq<Step>)
    ensures IsRun(Start(hasSystem), history)
    ensures End(Start(hasSystem), history) == Opening(hasSystem, WantHere, Answered(false))
  {
    var s := Start(hasSystem);
    history := OpeningSent(hasSystem);
    assert Apply(Opening(hasSystem, SleepHere, Sent), Deliver(0)) == Opening(hasSystem, SleepHere, Entering);
    RunSnoc(s, history, Deliver(0));
    RunSnoc(s, history + [Deliver(0)], Enter(0));
    RunSnoc(s, history + [Deliver(0)] + [Enter(0)], Notify(0));
    history := history + [Deliver(0)] + [Enter(0)] + [Notify(0)];
  }

  /** The detection of a re-connect is reachable without a restart of either side: the first answer is lost, the controller
      gives up waiting for it and connects again before init takes its lock back. */
  lemma DetectionIsReachable(hasSystem: bool) returns (history: seq<Step>)
    ensures IsRun(Start(hasSystem), history)
    ensures var s := End(Start(hasSystem), history);
            && s.agentNo == 0 && s.controllerNo == 0 && s.agent.stopped
            && exists k :: 0 <= k < |s.calls| && s.calls[k] == Call(IAmHere, 0, 0, Answered(true))
  {
    var start := Start(hasSystem);
    history := OpeningAccepted(hasSystem);
    RunSnoc(start, history, TimeOut);
    RunSnoc(start, history + [TimeOut], Connect);
    RunSnoc(start, history + [TimeOut] + [Connect], Deliver(1));
    RunSnoc(start, history + [TimeOut] + [Connect] + [Deliver(1)], Enter(1));
    history := history + [TimeOut] + [Connect] + [Deliver(1)] + [Enter(1)];
    assert End(start, history).calls[1] == Call(IAmHere, 0, 0, Answered(true));
  }

  /** The doomed states are reachable: the controller is restarted just after its i_am_here was accepted. */
  lemma DoomedIsReachable(hasSystem: bool) returns (history: seq<Step>)
    ensures IsRun(Start(hasSystem), history) && Doomed(End(Start(hasSystem), history))
  {
    history := OpeningAccepted(hasSystem);
    RunSnoc(Start(hasSystem), history, TestHere);
    RunSnoc(Start(hasSystem), history + [TestHere], RestartController);
    history := history + [TestHere] + [RestartController];
  }
}
