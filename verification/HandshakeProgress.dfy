/** Where the handshake gets to: without faults both sides become ready, and with faults it is settled
    exactly which states the agent cannot leave by itself. */
module HandshakeProgress {
  import opened Handshake
  import opened HandshakeSafety

  // ---------- runs without faults ----------

  predicate BothReady(s: State) {
    s.controller.Up? && s.agent.pc == Initialised
  }

  /** The shape of the states that regular steps reach. */
  ghost predicate Regular(s: State) {
    && Inv(s) && s.agentNo == 0 && !s.agent.stopped
    && (s.agent.pc == WantHere ==> s.agent.hereSeen)
    && (match s.controller
        case Connecting => s.calls == [] && !s.agent.hereSeen && !s.agent.readySeen
        case AwaitingHere(k) => k == 0 && |s.calls| == 1 && s.calls[0].at != Answered(true) && !s.agent.readySeen
                                && (s.agent.hereSeen <==> Accepted(s.calls[0]))
        case Admitted(via) => via == 0 && |s.calls| == 1 && !s.agent.readySeen
        case AwaitingReady(via, k) => via == 0 && k == 1 && |s.calls| == 2
        case Up(via, k) => via == 0 && k == 1 && |s.calls| == 2)
  }

  function PcRank(a: Agent): nat {
    match a.pc
    case Boot => 10
    case HoldHere => 9
    case SleepHere => 8
    case WantHere => 7
    case Binding => 6
    case Announcing => 5
    case NotifyingMyself => 4
    case WantReady => if a.readySeen then 1 else 3
    case SleepReady => 2
    case Initialised => 0
  }

  function ControllerRank(c: Controller): nat {
    match c
    case Connecting => 20
    case AwaitingHere(_) => 14
    case Admitted(_) => 12
    case AwaitingReady(_, _) => 4
    case Up(_, _) => 0
  }

  function AtRank(at: Progress): nat {
    match at
    case Sent => 4
    case Entering => 3
    case Notifying => 2
    case AwaitingMyself => 1
    case SleepingMyself => 1
    case Answered(_) => 0
  }

  function CallRanks(calls: seq<Call>): nat {
    if calls == [] then 0 else CallRanks(calls[..|calls| - 1]) + AtRank(calls[|calls| - 1].at)
  }

  function Measure(s: State): nat {
    PcRank(s.agent) + ControllerRank(s.controller) + CallRanks(s.calls)
  }

  lemma RegularStart(hasSystem: bool)
    ensures Regular(Start(hasSystem)) && Measure(Start(hasSystem)) == 30
  {
    InvStart(hasSystem);
  }

  lemma CallRanksAppend(calls: seq<Call>, c: Call)
    ensures CallRanks(calls + [c]) == CallRanks(calls) + AtRank(c.at)
  {
    assert (calls + [c])[..|calls|] == calls;
  }

  lemma {:induction false} CallRanksUpdate(calls: seq<Call>, k: nat, c: Call)
    requires k < |calls|
    ensures CallRanks(calls[k := c]) + AtRank(calls[k].at) == CallRanks(calls) + AtRank(c.at)
  {
    var init, last := calls[..|calls| - 1], calls[|calls| - 1];
    if k == |calls| - 1 {
      assert calls[k := c] == init + [c];
    } else {
      CallRanksUpdate(init, k, c);
      assert calls[k := c] == init[k := c] + [last];
      CallRanksAppend(init[k := c], last);
    }
  }

  predicate IsInitStep(step: Step) {
    step.StartServer? || step.TestHere? || step.Register? || step.Announce? || step.NotifyMyself? || step.TestReady?
  }

  predicate IsHandlerStep(step: Step) {
    step.Deliver? || step.Enter? || step.Notify? || step.TestMyself?
  }

  lemma RegularInitShape(s: State, step: Step)
    requires Regular(s) && IsInitStep(step) && Enabled(s, step) && Inv(Apply(s, step))
    ensures Regular(Apply(s, step))
  {
    NobodyToWake(s);
  }

  lemma InitKeepsCalls(s: State, step: Step)
    requires CallsOk(s) && IsInitStep(step) && Enabled(s, step)
    ensures Apply(s, step).calls == s.calls && Apply(s, step).controller == s.controller
  {
    NobodyToWake(s);
  }

  lemma InitAdvances(s: State, step: Step)
    requires IsInitStep(step) && Enabled(s, step) && (s.agent.pc == WantHere ==> s.agent.hereSeen)
    ensures PcRank(Apply(s, step).agent) < PcRank(s.agent)
  {}

  lemma InitRank(s: State, step: Step)
    requires CallsOk(s) && IsInitStep(step) && Enabled(s, step) && (s.agent.pc == WantHere ==> s.agent.hereSeen)
    ensures Measure(Apply(s, step)) < Measure(s)
  {
    InitKeepsCalls(s, step);
    InitAdvances(s, step);
  }

  /** A handler works on the call that the controller waits for. */
  lemma RegularHandlerCall(s: State, k: nat)
    requires Regular(s) && k < |s.calls| && !s.calls[k].at.Answered?
    ensures s.controller == AwaitingHere(k) || (s.controller.AwaitingReady? && s.controller.call == k)
    ensures s.controller.AwaitingReady? ==> s.calls[0].at == Answered(false)
  {}

  lemma RegularHandlerShape(s: State, step: Step)
    requires Regular(s) && IsHandlerStep(step) && Enabled(s, step) && Inv(Apply(s, step))
    ensures Regular(Apply(s, step))
  {
    RegularHandlerCall(s, step.call);
  }

  lemma MeasureMoved(s: State, a: Agent, k: nat, at: Progress)
    requires k < |s.calls|
    ensures Measure(Move(s.(agent := a), k, at)) + PcRank(s.agent) + AtRank(s.calls[k].at)
            == Measure(s) + PcRank(a) + AtRank(at)
  {
    CallRanksUpdate(s.calls, k, s.calls[k].(at := at));
  }

  lemma DeliverRank(s: State, k: nat)
    requires Enabled(s, Deliver(k))
    ensures Measure(Apply(s, Deliver(k))) < Measure(s)
  {
    MeasureMoved(s, s.agent, k, Entering);
  }

  lemma EnterHereRank(s: State, k: nat)
    requires k < |s.calls| && s.calls[k].at == Entering
    ensures Measure(EnterHere(s, k)) < Measure(s)
  {
    if s.agent.hereSeen {
      MeasureMoved(s, s.agent.(stopped := true, resetDue := s.agent.resetDue || s.hasSystem), k, Answered(true));
    } else {
      MeasureMoved(s, s.agent.(hereSeen := true), k, Notifying);
    }
  }

  lemma EnterReadyRank(s: State, k: nat)
    requires k < |s.calls| && s.calls[k].at == Entering
    ensures Measure(EnterReady(s, k)) < Measure(s)
  {
    if s.agent.readySeen {
      MeasureMoved(s, s.agent, k, Answered(true));
    } else {
      MeasureMoved(s, s.agent.(readySeen := true), k, Notifying);
    }
  }

  lemma NotifyRank(s: State, k: nat)
    requires Enabled(s, Notify(k)) && CallOk(s, s.calls[k])
    ensures Measure(Apply(s, Notify(k))) < Measure(s)
  {
    var s' := Apply(s, Notify(k));
    assert PcRank(s'.agent) <= PcRank(s.agent);
    MeasureMoved(s, s'.agent, k, s'.calls[k].at);
  }

  lemma TestMyselfRank(s: State, k: nat)
    requires AgentOk(s) && s.agent.pc != Boot && Enabled(s, TestMyself(k))
    ensures Measure(Apply(s, TestMyself(k))) < Measure(s)
  {
    MeasureMoved(s, s.agent, k, Answered(true));
  }

  lemma HandlerRank(s: State, step: Step)
    requires AgentOk(s) && s.agent.pc != Boot && IsHandlerStep(step) && Enabled(s, step)
    requires CallOk(s, s.calls[step.call])
    ensures Measure(Apply(s, step)) < Measure(s)
  {
    match step
    case Deliver(k) => DeliverRank(s, k);
    case Enter(k) => if s.calls[k].kind.IAmHere? { EnterHereRank(s, k); } else { EnterReadyRank(s, k); }
    case Notify(k) => NotifyRank(s, k);
    case TestMyself(k) => TestMyselfRank(s, k);
  }

  predicate IsControllerStep(step: Step) {
    step.Connect? || step.TakeHereAnswer? || step.CallReady? || step.TakeReadyAnswer?
  }

  lemma RegularControllerShape(s: State, step: Step)
    requires Regular(s) && IsControllerStep(step) && Enabled(s, step) && Inv(Apply(s, step))
    ensures Regular(Apply(s, step))
    ensures step.TakeHereAnswer? ==> Apply(s, step).controller.Admitted?
  {}

  lemma ConnectRank(s: State)
    requires Enabled(s, Connect)
    ensures Measure(Apply(s, Connect)) < Measure(s)
  {
    CallRanksAppend(s.calls, Call(IAmHere, s.controllerNo, s.agentNo, Sent));
  }

  lemma CallReadyRank(s: State)
    requires Enabled(s, CallReady)
    ensures Measure(Apply(s, CallReady)) < Measure(s)
  {
    CallRanksAppend(s.calls, Call(IAmReady(s.controller.via), s.controllerNo, s.calls[s.controller.via].agent, Sent));
  }

  lemma ControllerRankDrops(s: State, step: Step)
    requires IsControllerStep(step) && Enabled(s, step)
    requires step.TakeHereAnswer? ==> Apply(s, step).controller.Admitted?
    ensures Measure(Apply(s, step)) < Measure(s)
  {
    if step.Connect? {
      ConnectRank(s);
    } else if step.CallReady? {
      CallReadyRank(s);
    }
  }

  /** Every regular step makes progress. */
  lemma RegularStep(s: State, step: Step)
    requires Regular(s) && IsRegular(step) && Enabled(s, step)
    ensures Regular(Apply(s, step)) && Measure(Apply(s, step)) < Measure(s)
  {
    InvStep(s, step);
    if IsInitStep(step) {
      RegularInitShape(s, step);
      InitRank(s, step);
    } else if IsHandlerStep(step) {
      assert CallOk(s, s.calls[step.call]);
      RegularHandlerShape(s, step);
      HandlerRank(s, step);
    } else {
      RegularControllerShape(s, step);
      ControllerRankDrops(s, step);
    }
  }

  /** The step a call of the running agent takes next, if the agent's locks allow it. */
  function NextOf(s: State, k: nat): Step
    requires k < |s.calls|
  {
    match s.calls[k].at
    case Sent => Deliver(k)
    case Entering => Enter(k)
    case Notifying => Notify(k)
    case _ => TestMyself(k)
  }

  /** Nothing regular is ever blocked for good. */
  lemma RegularEnabled(s: State) returns (step: Step)
    requires Regular(s) && !BothReady(s)
    ensures IsRegular(step) && Enabled(s, step)
  {
    match s.agent.pc
    case Boot => step := StartServer;
    case HoldHere => step := TestHere;
    case WantHere => step := TestHere;
    case Binding => step := Register;
    case Announcing => step := Announce;
    case NotifyingMyself => step := NotifyMyself;
    case WantReady => step := TestReady;
    case _ => step := RegularPeerEnabled(s);
  }

  /** While init sleeps or is done, the controller or a handler can move. */
  lemma RegularPeerEnabled(s: State) returns (step: Step)
    requires Regular(s) && !BothReady(s) && (s.agent.pc.SleepHere? || s.agent.pc.SleepReady? || s.agent.pc.Initialised?)
    ensures IsRegular(step) && Enabled(s, step)
  {
    match s.controller
    case Connecting => step := Connect;
    case AwaitingHere(k) =>
      assert CallOk(s, s.calls[k]);
      step := if s.calls[k].at.Answered? then TakeHereAnswer else NextOf(s, k);
    case Admitted(via) => step := CallReady;
    case AwaitingReady(via, k) =>
      assert CallOk(s, s.calls[k]);
      step := if s.calls[k].at.Answered? then TakeReadyAnswer else NextOf(s, k);
    case Up(via, k) =>
      assert false; // the answered i_am_ready has notified init
  }

  lemma {:induction false} RegularRun(s: State, steps: seq<Step>)
    requires Regular(s) && IsRun(s, steps) && forall i :: 0 <= i < |steps| ==> IsRegular(steps[i])
    ensures Regular(End(s, steps)) && Measure(End(s, steps)) + |steps| <= Measure(s)
    decreases |steps|
  {
    if steps == [] {
    } else {
      RegularStep(s, steps[0]);
      RegularRun(Apply(s, steps[0]), steps[1..]);
    }
  }

  /** Progress. In a run without faults, whatever the interleaving, both sides are ready after at most 30 steps:
      no run is longer, and none can stop earlier. */
  lemma Progress(hasSystem: bool, steps: seq<Step>) returns (next: Step)
    requires IsRun(Start(hasSystem), steps) && forall i :: 0 <= i < |steps| ==> IsRegular(steps[i])
    ensures |steps| <= 30
    ensures !BothReady(End(Start(hasSystem), steps)) ==> IsRegular(next) && Enabled(End(Start(hasSystem), steps), next)
  {
    RegularStart(hasSystem);
    RegularRun(Start(hasSystem), steps);
    if BothReady(End(Start(hasSystem), steps)) {
      next := RestartAgent;
    } else {
      next := RegularEnabled(End(Start(hasSystem), steps));
    }
  }

  /** The session can be used: worker RPCs are served, the "exit" call gets through, so does a reset request if there is a
      system module, and the agent watches its controller. */
  predicate Usable(s: State) {
    && Enabled(s, CallWorker) && Apply(s, CallWorker).served == s.served + [Service(s.agentNo, s.controllerNo)]
    && Enabled(s, ExitController) && Enabled(s, Watchdog) && (Enabled(s, CallReset) <==> s.hasSystem)
  }

  lemma ReadyIsUsable(s: State)
    requires Regular(s) && BothReady(s)
    ensures Usable(s)
  {
    assert CallOk(s, s.calls[0]);
  }

  /** Once both sides are ready without faults, the session can be used. */
  lemma UsableWhenReady(hasSystem: bool, steps: seq<Step>)
    requires IsRun(Start(hasSystem), steps) && forall i :: 0 <= i < |steps| ==> IsRegular(steps[i])
    requires BothReady(End(Start(hasSystem), steps))
    ensures Usable(End(Start(hasSystem), steps))
  {
    RegularStart(hasSystem);
    RegularRun(Start(hasSystem), steps);
    ReadyIsUsable(End(Start(hasSystem), steps));
  }
}
