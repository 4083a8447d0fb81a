/** The start-up handshake between a SatelliteController and a SatelliteAgent as a state machine.

    A step is one critical section of one thread. The agent's init thread, every RPC handler and the
    controller interleave freely; messages may be delayed or never arrive; either process may be
    restarted at any time, which gives it the next incarnation number. */
module Handshake {

  /** Where the agent's init thread is. `lock_i_am_here_seen` and `lock_i_am_ready_myself` are held across
      steps, as HereLocked and MyselfLocked say; every other critical section is a single step. */
  datatype InitPc =
    | Boot            // the RPC server does not run yet
    | HoldHere        // about to test `i_am_here_seen` for the first time
    | SleepHere       // in the wait set of `cv_i_am_here_seen`
    | WantHere        // woken, has to test again
    | Binding         // init_rpc_binds
    | Announcing      // about to set `i_am_ready_myself`
    | NotifyingMyself // about to notify `cv_i_am_ready_myself`
    | WantReady       // about to test `i_am_ready_seen`
    | SleepReady      // in the wait set of `cv_i_am_ready_seen`
    | Initialised     // init has returned

  predicate HereLocked(pc: InitPc) {
    !pc.Boot? && !pc.SleepHere? && !pc.WantHere? && !pc.Initialised?
  }

  predicate MyselfLocked(pc: InitPc) {
    pc.HoldHere? || pc.SleepHere? || pc.WantHere? || pc.Binding? || pc.Announcing?
  }

  datatype Agent = Agent(
    pc: InitPc,
    hereSeen: bool,
    readySeen: bool,
    readyMyself: bool,
    bound: bool,   // the worker callbacks are registered
    stopped: bool, // the RPC server accepts no further calls
    resetDue: bool // a reset of this board is scheduled
  )

  const FRESH_AGENT := Agent(Boot, false, false, false, false, false, false)

  datatype Kind =
    | IAmHere
    | IAmReady(via: nat) // `via` is the i_am_here call whose answer allowed this one

  /** How far a call has got, from the wire through its handler to its answer. */
  datatype Progress =
    | Sent
    | Entering       // the handler waits for the lock of its flag
    | Notifying      // the flag is set, the lock released, notify_all is next
    | AwaitingMyself // i_am_ready only: about to test `i_am_ready_myself`
    | SleepingMyself // i_am_ready only: in the wait set of `cv_i_am_ready_myself`
    | Answered(value: bool)

  datatype Call = Call(kind: Kind, controller: nat, agent: nat, at: Progress)

  datatype Controller =
    | Connecting
    | AwaitingHere(call: nat)
    | Admitted(via: nat)
    | AwaitingReady(via: nat, call: nat)
    | Up(via: nat, call: nat) // past i_am_ready
  {
    /** A call made over the controller's connection. */
    function Connection(): nat
      requires !Connecting?
    {
      match this
      case AwaitingHere(k) => k
      case Admitted(k) => k
      case AwaitingReady(k, _) => k
      case Up(k, _) => k
    }
  }

  /** A worker RPC that the agent incarnation `agent` served to the controller incarnation `controller`. */
  datatype Service = Service(agent: nat, controller: nat)

  datatype State = State(
    hasSystem: bool, // the agent is connected to a system module, which can reset the board
    agentNo: nat, agent: Agent,
    controllerNo: nat, controller: Controller,
    calls: seq<Call>,      // every handshake call ever made
    registered: set<nat>,  // history: agent incarnations that registered their worker callbacks
    served: seq<Service>   // history
  )

  function Start(hasSystem: bool): State {
    State(hasSystem, 0, FRESH_AGENT, 0, Connecting, [], {}, [])
  }

  datatype Step =
    // the agent's init thread
    | StartServer | TestHere | Register | Announce | NotifyMyself | TestReady
    // the agent's RPC handlers
    | Deliver(call: nat) | Enter(call: nat) | Notify(call: nat) | TestMyself(call: nat)
    // the controller
    | Connect | TakeHereAnswer | CallReady | TakeReadyAnswer
    | CallWorker | CallReset                       // worker RPCs: any that only does its work, and the reset request
    // faults, and recoveries from faults
    | WakeHere | WakeReady | WakeMyself(call: nat) // spurious wake-ups
    | TimeOut                                      // the controller gives up on i_am_here and reconnects
    | RestartController                            // also after an unanswered i_am_ready
    | ExitController                               // the controller's destructor calls "exit"
    | ResetAgent                                   // a scheduled reset happens
    | Watchdog                                     // the agent's ready loop misses its controller
    | RestartAgent                                 // from outside: crash, power cycle

  /** The steps of a run without crashes, timeouts and spurious wake-ups, up to both sides being ready. */
  predicate IsRegular(step: Step) {
    || step.StartServer? || step.TestHere? || step.Register? || step.Announce? || step.NotifyMyself? || step.TestReady?
    || step.Deliver? || step.Enter? || step.Notify? || step.TestMyself?
    || step.Connect? || step.TakeHereAnswer? || step.CallReady? || step.TakeReadyAnswer?
  }

  /** Call `k` belongs to the running agent and has got to `at`. */
  predicate Handling(s: State, k: nat, at: Progress) {
    k < |s.calls| && s.calls[k].agent == s.agentNo && s.calls[k].at == at
  }

  predicate Enabled(s: State, step: Step) {
    match step
    case StartServer => s.agent.pc == Boot
    case TestHere => s.agent.pc == HoldHere || s.agent.pc == WantHere
    case Register => s.agent.pc == Binding
    case Announce => s.agent.pc == Announcing
    case NotifyMyself => s.agent.pc == NotifyingMyself
    case TestReady => s.agent.pc == WantReady
    case Deliver(k) => Handling(s, k, Sent) && s.agent.pc != Boot && !s.agent.stopped
    case Enter(k) => Handling(s, k, Entering) && (s.calls[k].kind.IAmHere? ==> !HereLocked(s.agent.pc))
    case Notify(k) => Handling(s, k, Notifying)
    case TestMyself(k) => Handling(s, k, AwaitingMyself) && !MyselfLocked(s.agent.pc)
    case Connect => s.controller.Connecting? && s.agent.pc != Boot && !s.agent.stopped
    case TakeHereAnswer => s.controller.AwaitingHere? && IsAnswered(s, s.controller.call)
    case CallReady => s.controller.Admitted? && s.controller.via < |s.calls|
    case TakeReadyAnswer => s.controller.AwaitingReady? && IsAnswered(s, s.controller.call)
    case CallWorker => s.controller.Up? && Serves(s, s.controller.via)
    case CallReset => s.controller.Up? && Serves(s, s.controller.via) && s.hasSystem
    case WakeHere => s.agent.pc == SleepHere
    case WakeReady => s.agent.pc == SleepReady
    case WakeMyself(k) => Handling(s, k, SleepingMyself)
    case TimeOut => s.controller.AwaitingHere?
    case RestartController => true
    case ExitController => !s.controller.Connecting? && Serves(s, s.controller.Connection())
    case ResetAgent => s.agent.resetDue
    case Watchdog => s.agent.pc == Initialised
    case RestartAgent => true
  }

  predicate IsAnswered(s: State, k: nat) {
    k < |s.calls| && s.calls[k].at.Answered?
  }

  /** The connection that call `via` opened still leads to a serving agent. */
  predicate Serves(s: State, via: nat) {
    via < |s.calls| && s.calls[via].agent == s.agentNo && !s.agent.stopped
  }

  function Move(s: State, k: nat, at: Progress): State
    requires k < |s.calls|
  {
    s.(calls := s.calls[k := s.calls[k].(at := at)])
  }

  function At(s: State, pc: InitPc): State {
    s.(agent := s.agent.(pc := pc))
  }

  function NewAgent(s: State): State {
    s.(agentNo := s.agentNo + 1, agent := FRESH_AGENT)
  }

  /** notify_all on `cv_i_am_ready_myself`. */
  function WakeAllMyself(calls: seq<Call>, agentNo: nat): (r: seq<Call>)
    ensures |r| == |calls|
  {
    seq(|calls|, k requires 0 <= k < |calls| =>
      if calls[k].agent == agentNo && calls[k].at == SleepingMyself then calls[k].(at := AwaitingMyself) else calls[k])
  }

  /** The i_am_here handler, once it holds the lock. */
  function EnterHere(s: State, k: nat): State
    requires k < |s.calls|
  {
    if !s.agent.hereSeen then Move(s.(agent := s.agent.(hereSeen := true)), k, Notifying)
    else Move(s.(agent := s.agent.(stopped := true, resetDue := s.agent.resetDue || s.hasSystem)), k, Answered(true))
  }

  /** The i_am_ready handler, once it holds the lock; a repeated call returns at once. */
  function EnterReady(s: State, k: nat): State
    requires k < |s.calls|
  {
    if !s.agent.readySeen then Move(s.(agent := s.agent.(readySeen := true)), k, Notifying)
    else Move(s, k, Answered(true))
  }

  function NotifyCall(s: State, k: nat): State
    requires k < |s.calls|
  {
    if s.calls[k].kind.IAmHere? then
      Move(if s.agent.pc == SleepHere then At(s, WantHere) else s, k, Answered(false))
    else
      Move(if s.agent.pc == SleepReady then At(s, WantReady) else s, k, AwaitingMyself)
  }

  function Apply(s: State, step: Step): State
    requires Enabled(s, step)
  {
    match step
    case StartServer => At(s, HoldHere)
    case TestHere => At(s, if s.agent.hereSeen then Binding else SleepHere)
    case Register => s.(agent := s.agent.(pc := Announcing, bound := true), registered := s.registered + {s.agentNo})
    case Announce => s.(agent := s.agent.(pc := NotifyingMyself, readyMyself := true))
    case NotifyMyself => At(s, WantReady).(calls := WakeAllMyself(s.calls, s.agentNo))
    case TestReady => At(s, if s.agent.readySeen then Initialised else SleepReady)
    case Deliver(k) => Move(s, k, Entering)
    case Enter(k) => if s.calls[k].kind.IAmHere? then EnterHere(s, k) else EnterReady(s, k)
    case Notify(k) => NotifyCall(s, k)
    case TestMyself(k) => Move(s, k, if s.agent.readyMyself then Answered(true) else SleepingMyself)
    case Connect =>
      s.(controller := AwaitingHere(|s.calls|), calls := s.calls + [Call(IAmHere, s.controllerNo, s.agentNo, Sent)])
    case TakeHereAnswer =>
      var k := s.controller.call;
      s.(controller := if s.calls[k].at.value then Connecting else Admitted(k))
    case CallReady =>
      var via := s.controller.via;
      s.(controller := AwaitingReady(via, |s.calls|),
         calls := s.calls + [Call(IAmReady(via), s.controllerNo, s.calls[via].agent, Sent)])
    case TakeReadyAnswer => s.(controller := Up(s.controller.via, s.controller.call))
    case CallWorker => s.(served := s.served + [Service(s.agentNo, s.controllerNo)])
    case CallReset =>
      s.(agent := s.agent.(stopped := true, resetDue := true), served := s.served + [Service(s.agentNo, s.controllerNo)])
    case WakeHere => At(s, WantHere)
    case WakeReady => At(s, WantReady)
    case WakeMyself(k) => Move(s, k, AwaitingMyself)
    case TimeOut => s.(controller := Connecting)
    case RestartController => s.(controllerNo := s.controllerNo + 1, controller := Connecting)
    case ExitController =>
      s.(agent := s.agent.(stopped := true, resetDue := true),
         controllerNo := s.controllerNo + 1, controller := Connecting)
    case ResetAgent => NewAgent(s)
    case Watchdog => NewAgent(s)
    case RestartAgent => NewAgent(s)
  }

  /** `steps` can be taken one after the other from `s`. */
  ghost predicate IsRun(s: State, steps: seq<Step>)
    decreases |steps|
  {
    steps == [] || (Enabled(s, steps[0]) && IsRun(Apply(s, steps[0]), steps[1..]))
  }

  ghost function End(s: State, steps: seq<Step>): State
    requires IsRun(s, steps)
    decreases |steps|
  {
    if steps == [] then s else End(Apply(s, steps[0]), steps[1..])
  }

  lemma {:induction false} RunSnoc(s: State, steps: seq<Step>, step: Step)
    requires IsRun(s, steps) && Enabled(End(s, steps), step)
    ensures IsRun(s, steps + [step]) && End(s, steps + [step]) == Apply(End(s, steps), step)
    decreases |steps|
  {
    if steps == [] {
      assert (steps + [step])[1..] == [];
    } else {
      RunSnoc(Apply(s, steps[0]), steps[1..], step);
      assert (steps + [step])[1..] == steps[1..] + [step];
    }
  }

  lemma {:induction false} RunAppend(s: State, steps: seq<Step>, later: seq<Step>)
    ensures IsRun(s, steps + later) <==> IsRun(s, steps) && IsRun(End(s, steps), later)
    ensures IsRun(s, steps + later) ==> End(s, steps + later) == End(End(s, steps), later)
    decreases |steps|
  {
    if steps == [] {
      assert steps + later == later;
    } else {
      assert (steps + later)[1..] == steps[1..] + later;
      if Enabled(s, steps[0]) {
        RunAppend(Apply(s, steps[0]), steps[1..], later);
      }
    }
  }

  lemma RunInit(s: State, steps: seq<Step>, step: Step)
    requires IsRun(s, steps + [step])
    ensures IsRun(s, steps) && Enabled(End(s, steps), step) && End(s, steps + [step]) == Apply(End(s, steps), step)
  {
    RunAppend(s, steps, [step]);
    assert [step][1..] == [];
  }
}
