/** When the agent's RPC server is stopped, and what that prevents. */
module HandshakeStop {
  import opened Sequences
  import opened Handshake
  import opened HandshakeSafety

  /** The agent told a controller that it has seen one before. */
  predicate ToldSeen(c: Call) {
    c.kind.IAmHere? && c.at == Answered(true)
  }

  /** Agent incarnation `agent` detected a re-connect. */
  ghost predicate Reconnected(calls: seq<Call>, agent: nat) {
    exists k :: 0 <= k < |calls| && calls[k].agent == agent && ToldSeen(calls[k])
  }

  /** The controller tells the agent to go down: its "exit" call, or a reset request. */
  predicate TakesDown(step: Step) {
    step == ExitController || step == CallReset
  }

  /** In the run `steps`, the agent incarnation that runs at its end was told so at step `i`. */
  ghost predicate ToldAt(s: State, steps: seq<Step>, i: nat)
    requires IsRun(s, steps) && i < |steps|
  {
    TakesDown(steps[i]) && IsRun(s, steps[..i]) && End(s, steps[..i]).agentNo == End(s, steps).agentNo
  }

  ghost predicate ToldDown(s: State, steps: seq<Step>)
    requires IsRun(s, steps)
  {
    exists i :: 0 <= i < |steps| && ToldAt(s, steps, i)
  }

  // ---------- one step ----------

  predicate Restarts(step: Step) {
    step == ResetAgent || step == Watchdog || step == RestartAgent
  }

  /** The step by which the i_am_here handler detects a re-connect. */
  predicate Detects(s: State, step: Step)
    requires Enabled(s, step)
  {
    step.Enter? && s.calls[step.call].kind.IAmHere? && s.agent.hereSeen
  }

  lemma RestartStep(s: State, step: Step)
    requires Enabled(s, step) && Restarts(step)
    ensures Apply(s, step) == s.(agentNo := s.agentNo + 1, agent := FRESH_AGENT)
  {}

  lemma HandlerStop(s: State, step: Step)
    requires Enabled(s, step) && (step.Deliver? || step.Enter? || step.Notify? || step.TestMyself? || step.WakeMyself?)
    ensures var s' := Apply(s, step);
            && s'.agentNo == s.agentNo && s'.hasSystem == s.hasSystem
            && s'.agent.stopped == (s.agent.stopped || Detects(s, step))
            && s'.agent.resetDue == (s.agent.resetDue || (Detects(s, step) && s.hasSystem))
  {}

  lemma StopStep(s: State, step: Step)
    requires Enabled(s, step)
    ensures var s' := Apply(s, step);
            if Restarts(step) then s'.agentNo == s.agentNo + 1 && !s'.agent.stopped && !s'.agent.resetDue && s'.calls == s.calls
            else
              && s'.agentNo == s.agentNo
              && s'.agent.stopped == (s.agent.stopped || TakesDown(step) || Detects(s, step))
              && s'.agent.resetDue == (s.agent.resetDue || TakesDown(step) || (Detects(s, step) && s.hasSystem))
    ensures Apply(s, step).hasSystem == s.hasSystem
  {
    if Restarts(step) {
      RestartStep(s, step);
    } else if step.Deliver? || step.Enter? || step.Notify? || step.TestMyself? || step.WakeMyself? {
      HandlerStop(s, step);
    }
  }

  /** A call is told so only by the detecting step. */
  lemma ToldStep(s: State, step: Step, k: nat)
    requires Enabled(s, step) && k < |Apply(s, step).calls|
    requires k < |s.calls| ==> CallOk(s, s.calls[k])
    ensures var c := Apply(s, step).calls[k];
            ToldSeen(c) <==> (k < |s.calls| && ToldSeen(s.calls[k])) || (Detects(s, step) && k == step.call)
    ensures k < |s.calls| ==> Apply(s, step).calls[k].agent == s.calls[k].agent
  {}

  lemma CallsGrow(s: State, step: Step)
    requires Enabled(s, step)
    ensures |s.calls| <= |Apply(s, step).calls|
  {}

  lemma ReconnectedStep(s: State, step: Step)
    requires Inv(s) && Enabled(s, step)
    ensures Reconnected(Apply(s, step).calls, s.agentNo) <==> Reconnected(s.calls, s.agentNo) || Detects(s, step)
  {
    var s' := Apply(s, step);
    CallsGrow(s, step);
    forall k | 0 <= k < |s'.calls|
      ensures ToldSeen(s'.calls[k]) <==> (k < |s.calls| && ToldSeen(s.calls[k])) || (Detects(s, step) && k == step.call)
      ensures k < |s.calls| ==> s'.calls[k].agent == s.calls[k].agent
    {
      assert k < |s.calls| ==> CallOk(s, s.calls[k]);
      ToldStep(s, step, k);
    }
    if k :| 0 <= k < |s.calls| && s.calls[k].agent == s.agentNo && ToldSeen(s.calls[k]) {
      assert s'.calls[k].agent == s.agentNo && ToldSeen(s'.calls[k]);
    }
    if Detects(s, step) {
      assert s'.calls[step.call].agent == s.agentNo && ToldSeen(s'.calls[step.call]);
    }
  }

  lemma FreshNotReconnected(s: State)
    requires CallsOk(s)
    ensures !Reconnected(s.calls, s.agentNo + 1)
  {
    forall k | 0 <= k < |s.calls| ensures s.calls[k].agent != s.agentNo + 1 {
      assert CallOk(s, s.calls[k]);
    }
  }

  // ---------- every run ----------

  lemma {:induction false} AgentsSucceed(s: State, steps: seq<Step>)
    requires IsRun(s, steps)
    ensures s.agentNo <= End(s, steps).agentNo
    decreases |steps|
  {
    if steps == [] {
    } else {
      StopStep(s, steps[0]);
      AgentsSucceed(Apply(s, steps[0]), steps[1..]);
    }
  }

  lemma AgentsSoFar(s: State, steps: seq<Step>, i: nat)
    requires IsRun(s, steps) && i <= |steps|
    ensures IsRun(s, steps[..i]) && End(s, steps[..i]).agentNo <= End(s, steps).agentNo
  {
    assert steps == steps[..i] + steps[i..];
    RunAppend(s, steps[..i], steps[i..]);
    AgentsSucceed(End(s, steps[..i]), steps[i..]);
  }

  lemma ToldAtKept(s: State, steps: seq<Step>, step: Step, i: nat)
    requires IsRun(s, steps) && IsRun(s, steps + [step]) && i < |steps|
    requires End(s, steps + [step]).agentNo == End(s, steps).agentNo
    ensures ToldAt(s, steps + [step], i) <==> ToldAt(s, steps, i)
  {
    assert (steps + [step])[..i] == steps[..i];
  }

  /** A new incarnation has not been told to go down. */
  lemma NotYetTold(s: State, steps: seq<Step>, step: Step)
    requires IsRun(s, steps) && IsRun(s, steps + [step])
    requires End(s, steps + [step]).agentNo > End(s, steps).agentNo && !TakesDown(step)
    ensures !ToldDown(s, steps + [step])
  {
    var all := steps + [step];
    forall i | 0 <= i < |all| ensures !ToldAt(s, all, i) {
      if i < |steps| {
        assert all[..i] == steps[..i];
        AgentsSoFar(s, steps, i);
      }
    }
  }

  lemma ToldKept(s: State, steps: seq<Step>, step: Step)
    requires IsRun(s, steps) && IsRun(s, steps + [step])
    requires End(s, steps + [step]).agentNo == End(s, steps).agentNo
    ensures ToldDown(s, steps + [step]) <==> ToldDown(s, steps) || TakesDown(step)
  {
    var all := steps + [step];
    forall i | 0 <= i < |steps| ensures ToldAt(s, all, i) <==> ToldAt(s, steps, i) {
      ToldAtKept(s, steps, step, i);
    }
    assert all[..|steps|] == steps;
    assert ToldAt(s, all, |steps|) <==> TakesDown(step);
  }

  lemma ToldDownSnoc(s: State, steps: seq<Step>, step: Step)
    requires IsRun(s, steps + [step])
    ensures IsRun(s, steps) && Enabled(End(s, steps), step) && End(s, steps + [step]) == Apply(End(s, steps), step)
    ensures ToldDown(s, steps + [step]) <==> !Restarts(step) && (ToldDown(s, steps) || TakesDown(step))
  {
    RunInit(s, steps, step);
    StopStep(End(s, steps), step);
    if Restarts(step) {
      NotYetTold(s, steps, step);
    } else {
      ToldKept(s, steps, step);
    }
  }

  ghost predicate StopExplained(s: State, told: bool) {
    && (s.agent.stopped <==> Reconnected(s.calls, s.agentNo) || told)
    && (s.agent.resetDue <==> (Reconnected(s.calls, s.agentNo) && s.hasSystem) || told)
  }

  lemma ExplainedStep(s: State, step: Step, told: bool)
    requires Inv(s) && Enabled(s, step) && StopExplained(s, told)
    ensures StopExplained(Apply(s, step), !Restarts(step) && (told || TakesDown(step)))
  {
    StopStep(s, step);
    if Restarts(step) {
      FreshNotReconnected(s);
    } else {
      ReconnectedStep(s, step);
    }
  }

  /** In every run, the running agent's server is stopped if and only if it answered an i_am_here with `true` or was told to
      go down; and a reset is due if and only if it was told to go down, or answered so and has a system module. */
  lemma {:induction false} StoppedIff(hasSystem: bool, steps: seq<Step>)
    requires IsRun(Start(hasSystem), steps)
    ensures var s, told := End(Start(hasSystem), steps), ToldDown(Start(hasSystem), steps);
            && s.hasSystem == hasSystem
            && (s.agent.stopped <==> Reconnected(s.calls, s.agentNo) || told)
            && (s.agent.resetDue <==> (Reconnected(s.calls, s.agentNo) && hasSystem) || told)
    decreases |steps|
  {
    var start := Start(hasSystem);
    if steps == [] {
      assert StopExplained(start, false);
    } else {
      var init, step := steps[..|steps| - 1], steps[|steps| - 1];
      InitLast(steps);
      ToldDownSnoc(start, init, step);
      StoppedIff(hasSystem, init);
      InvStart(hasSystem);
      InvRun(start, init);
      ExplainedStep(End(start, init), step, ToldDown(start, init));
      StopStep(End(start, init), step);
    }
  }

  /** A re-connect is detected as soon as init does not hold the lock: before it has taken the lock back after its first
      wait, or after it has returned, but not in between. */
  lemma DetectedIff(hasSystem: bool, steps: seq<Step>, k: nat)
    requires IsRun(Start(hasSystem), steps)
    requires var s := End(Start(hasSystem), steps); Handling(s, k, Entering) && s.calls[k].kind.IAmHere? && s.agent.hereSeen
    ensures var s := End(Start(hasSystem), steps);
            (Enabled(s, Enter(k)) && ToldSeen(Apply(s, Enter(k)).calls[k])) <==>
            s.agent.pc == SleepHere || s.agent.pc == WantHere || s.agent.pc == Initialised
  {
    InvStart(hasSystem);
    InvRun(Start(hasSystem), steps);
    var s := End(Start(hasSystem), steps);
    assert CallOk(s, s.calls[k]);
  }

  /** An i_am_ready that waits for the agent is answered if and only if the agent has registered its callbacks and said so. */
  lemma ReadyAnsweredIff(hasSystem: bool, steps: seq<Step>, k: nat)
    requires IsRun(Start(hasSystem), steps) && Handling(End(Start(hasSystem), steps), k, AwaitingMyself)
    ensures var s := End(Start(hasSystem), steps);
            (Enabled(s, TestMyself(k)) && Apply(s, TestMyself(k)).calls[k].at.Answered?) <==>
            s.agentNo in s.registered && s.agent.pc != Announcing
  {
    InvStart(hasSystem);
    InvRun(Start(hasSystem), steps);
    var s := End(Start(hasSystem), steps);
    assert CallOk(s, s.calls[k]);
  }

  // ---------- what a stopped server prevents ----------

  /** `s'` is later than `s` in the life of the same agent, whose server was stopped at `s`: it has served no worker RPC,
      handled no call that had not reached it before, and not been connected to again. */
  ghost predicate Frozen(s: State, s': State) {
    && s'.agentNo == s.agentNo && s'.agent.stopped && (s.agent.resetDue ==> s'.agent.resetDue) && s'.served == s.served
    && |s.calls| <= |s'.calls|
    && (forall k :: 0 <= k < |s.calls| ==>
          && s'.calls[k].kind == s.calls[k].kind && s'.calls[k].agent == s.calls[k].agent
          && (s.calls[k].agent == s.agentNo && s.calls[k].at == Sent ==> s'.calls[k].at == Sent))
    && (forall k :: |s.calls| <= k < |s'.calls| && s'.calls[k].agent == s.agentNo ==>
          s'.calls[k].at == Sent && s'.calls[k].kind.IAmReady?)
  }

  lemma FrozenStep(s: State, step: Step)
    requires Enabled(s, step) && s.agent.stopped && !Restarts(step)
    ensures Frozen(s, Apply(s, step))
  {
    StopStep(s, step);
  }

  lemma FrozenTransitive(s: State, s': State, s'': State)
    requires Frozen(s, s') && Frozen(s', s'')
    ensures Frozen(s, s'')
  {
    forall k | 0 <= k < |s.calls| ensures s''.calls[k].kind == s.calls[k].kind && s''.calls[k].agent == s.calls[k].agent {
      assert s'.calls[k].kind == s.calls[k].kind;
    }
  }

  lemma {:induction false} FrozenRun(s: State, steps: seq<Step>)
    requires IsRun(s, steps) && s.agent.stopped && End(s, steps).agentNo == s.agentNo
    ensures Frozen(s, End(s, steps))
    decreases |steps|
  {
    if steps == [] {
    } else {
      StopStep(s, steps[0]);
      AgentsSucceed(Apply(s, steps[0]), steps[1..]);
      FrozenStep(s, steps[0]);
      FrozenRun(Apply(s, steps[0]), steps[1..]);
      FrozenTransitive(s, Apply(s, steps[0]), End(s, steps));
    }
  }

  /** A detected re-connect ends the session: once an i_am_here of the running agent was answered with `true`, its server
      is stopped, and a reset is due if there is a system module; as long as this agent lives it serves no worker RPC,
      handles no new call and is not connected to again. */
  lemma ReconnectStops(hasSystem: bool, history: seq<Step>, k: nat, later: seq<Step>)
    requires IsRun(Start(hasSystem), history) && IsRun(End(Start(hasSystem), history), later)
    requires var s := End(Start(hasSystem), history);
             k < |s.calls| && s.calls[k].agent == s.agentNo && s.calls[k].kind.IAmHere? && s.calls[k].at == Answered(true)
    ensures var s := End(Start(hasSystem), history);
            && s.agent.stopped && (hasSystem ==> s.agent.resetDue)
            && (End(s, later).agentNo == s.agentNo ==> Frozen(s, End(s, later)))
  {
    StoppedIff(hasSystem, history);
    var s := End(Start(hasSystem), history);
    assert ToldSeen(s.calls[k]);
    if End(s, later).agentNo == s.agentNo {
      FrozenRun(s, later);
    }
  }

  const HEALING := [TakeHereAnswer, ResetAgent, StartServer, Connect]

  lemma TwoSteps(s: State, first: Step, second: Step)
    requires Enabled(s, first) && Enabled(Apply(s, first), second)
    ensures IsRun(s, [first, second]) && End(s, [first, second]) == Apply(Apply(s, first), second)
  {
    RunSnoc(s, [], first);
    RunSnoc(s, [first], second);
  }

  lemma ToldThenReset(s: State, k: nat)
    requires s.controller == AwaitingHere(k) && Handling(s, k, Answered(true)) && s.agent.resetDue
    ensures IsRun(s, [TakeHereAnswer, ResetAgent])
    ensures End(s, [TakeHereAnswer, ResetAgent]) ==
            s.(controller := Connecting, agentNo := s.agentNo + 1, agent := FRESH_AGENT)
  {
    TwoSteps(s, TakeHereAnswer, ResetAgent);
  }

  lemma FreshThenConnected(s: State)
    requires s.controller == Connecting && s.agent == FRESH_AGENT
    ensures IsRun(s, [StartServer, Connect])
    ensures End(s, [StartServer, Connect]).controller == AwaitingHere(|s.calls|)
    ensures End(s, [StartServer, Connect]).calls == s.calls + [Call(IAmHere, s.controllerNo, s.agentNo, Sent)]
  {
    TwoSteps(s, StartServer, Connect);
  }

  lemma HealingRun(s: State, k: nat)
    requires s.controller == AwaitingHere(k) && Handling(s, k, Answered(true)) && s.agent.resetDue
    ensures IsRun(s, HEALING)
    ensures End(s, HEALING).controller == AwaitingHere(|s.calls|)
    ensures End(s, HEALING).calls == s.calls + [Call(IAmHere, s.controllerNo, s.agentNo + 1, Sent)]
  {
    ToldThenReset(s, k);
    FreshThenConnected(s.(controller := Connecting, agentNo := s.agentNo + 1, agent := FRESH_AGENT));
    RunAppend(s, [TakeHereAnswer, ResetAgent], [StartServer, Connect]);
    assert [TakeHereAnswer, ResetAgent] + [StartServer, Connect] == HEALING;
  }

  /** A detected re-connect heals itself if there is a system module: the controller, told `true`, gives up this connection,
      the agent is reset, and the same controller gets through to the next incarnation. */
  lemma HealsByReset(hasSystem: bool, history: seq<Step>, k: nat)
    requires IsRun(Start(hasSystem), history) && hasSystem
    requires var s := End(Start(hasSystem), history);
             s.controller == AwaitingHere(k) && Handling(s, k, Answered(true)) && s.calls[k].kind.IAmHere?
    ensures var s := End(Start(hasSystem), history);
            && IsRun(s, HEALING)
            && End(s, HEALING).controller == AwaitingHere(|s.calls|)
            && End(s, HEALING).calls == s.calls + [Call(IAmHere, s.controllerNo, s.agentNo + 1, Sent)]
  {
    StoppedIff(hasSystem, history);
    var s := End(Start(hasSystem), history);
    assert ToldSeen(s.calls[k]);
    HealingRun(s, k);
  }

  /** The running controller made an i_am_here to the running agent. */
  ghost predicate Connected(s: State) {
    exists k :: 0 <= k < |s.calls| && s.calls[k].kind.IAmHere?
                && s.calls[k].agent == s.agentNo && s.calls[k].controller == s.controllerNo
  }

  lemma ConnectedWhenTold(hasSystem: bool, history: seq<Step>, step: Step)
    requires IsRun(Start(hasSystem), history) && Enabled(End(Start(hasSystem), history), step) && TakesDown(step)
    ensures Connected(End(Start(hasSystem), history))
  {
    InvStart(hasSystem);
    InvRun(Start(hasSystem), history);
    var before := End(Start(hasSystem), history);
    var k := before.controller.Connection();
    assert before.calls[k].kind.IAmHere? && before.calls[k].agent == before.agentNo
           && before.calls[k].controller == before.controllerNo;
  }

  /** The same after an "exit" call or a reset request, with a reset due in any case. It comes from a controller whose
      connection leads to this very agent. */
  lemma ToldStops(hasSystem: bool, history: seq<Step>, step: Step, later: seq<Step>)
    requires step == ExitController || step == CallReset
    requires IsRun(Start(hasSystem), history + [step]) && IsRun(End(Start(hasSystem), history + [step]), later)
    ensures var s := End(Start(hasSystem), history + [step]);
            && s.agent.stopped && s.agent.resetDue && Enabled(s, ResetAgent)
            && (End(s, later).agentNo == s.agentNo ==> Frozen(s, End(s, later)))
    ensures IsRun(Start(hasSystem), history) && Connected(End(Start(hasSystem), history))
  {
    ToldDownSnoc(Start(hasSystem), history, step);
    ConnectedWhenTold(hasSystem, history, step);
    StoppedIff(hasSystem, history + [step]);
    var s := End(Start(hasSystem), history + [step]);
    if End(s, later).agentNo == s.agentNo {
      FrozenRun(s, later);
    }
  }

  // ---------- one i_am_ready per agent ----------

  predicate IsReadyCall(s: State, k: nat) {
    k < |s.calls| && s.calls[k].kind.IAmReady?
  }

  lemma OneReadyCall(s: State, j: nat, k: nat)
    requires CallsOk(s) && OneAdmission(s.calls) && OneReadiness(s.calls)
    requires IsReadyCall(s, j) && IsReadyCall(s, k) && s.calls[j].agent == s.calls[k].agent
    ensures j == k
  {
    assert CallOk(s, s.calls[j]) && CallOk(s, s.calls[k]);
    var v, w := s.calls[j].kind.via, s.calls[k].kind.via;
    assert Accepted(s.calls[v]) && Accepted(s.calls[w]);
  }

  /** In no run does an agent get a second i_am_ready, so that its handler's branch for repeated calls is never taken. */
  lemma ReadyNeverRepeated(hasSystem: bool, steps: seq<Step>)
    requires IsRun(Start(hasSystem), steps)
    ensures var s := End(Start(hasSystem), steps);
            && (forall j: nat, k: nat ::
                  IsReadyCall(s, j) && IsReadyCall(s, k) && s.calls[j].agent == s.calls[k].agent ==> j == k)
            && (forall k: nat :: IsReadyCall(s, k) && Handling(s, k, Entering) ==> !s.agent.readySeen)
  {
    InvStart(hasSystem);
    InvRun(Start(hasSystem), steps);
    var s := End(Start(hasSystem), steps);
    forall j: nat, k: nat | IsReadyCall(s, j) && IsReadyCall(s, k) && s.calls[j].agent == s.calls[k].agent ensures j == k {
      OneReadyCall(s, j, k);
    }
    if s.agent.readySeen {
      var j :| 0 <= j < |s.calls| && s.calls[j].agent == s.agentNo && Signalled(s.calls[j]);
      assert IsReadyCall(s, j);
    }
  }

  // ---------- incarnations and services ----------

  const RESTARTS: Step -> bool := (step: Step) => step.ResetAgent? || step.Watchdog? || step.RestartAgent?
  const REPLACES: Step -> bool := (step: Step) => step.RestartController? || step.ExitController?
  const SERVES: Step -> bool := (step: Step) => step.CallWorker? || step.CallReset?

  lemma IncarnationStep(s: State, step: Step)
    requires Enabled(s, step)
    ensures var s' := Apply(s, step);
            && s'.agentNo == s.agentNo + (if RESTARTS(step) then 1 else 0)
            && s'.controllerNo == s.controllerNo + (if REPLACES(step) then 1 else 0)
            && s'.served == s.served + if SERVES(step) then [Service(s'.agentNo, s'.controllerNo)] else []
  {}

  /** Every restart gives a new incarnation, and every worker RPC is one more service, for the two incarnations of
      that moment. */
  lemma {:induction false} Incarnations(hasSystem: bool, steps: seq<Step>)
    requires IsRun(Start(hasSystem), steps)
    ensures var s := End(Start(hasSystem), steps);
            && s.agentNo == Tally(steps, RESTARTS) && s.controllerNo == Tally(steps, REPLACES)
            && |s.served| == Tally(steps, SERVES)
            && (steps != [] && SERVES(steps[|steps| - 1]) ==>
                  s.served != [] && s.served[|s.served| - 1] == Service(s.agentNo, s.controllerNo))
    decreases |steps|
  {
    if steps == [] {
    } else {
      var init, step := steps[..|steps| - 1], steps[|steps| - 1];
      InitLast(steps);
      RunInit(Start(hasSystem), init, step);
      Incarnations(hasSystem, init);
      IncarnationStep(End(Start(hasSystem), init), step);
    }
  }
}
