/** The gym environment's handshake with the simulator: the initial space
    exchange, receiving states, sending actions and close requests, and the
    `newStateRx` / `envDirty` / `gameOver` flags that `step` and `reset`
    steer by.

    The message channel is a list of messages the running simulation will
    still send (`inbox`) and the log of everything sent to it (`sent`);
    reading from an empty inbox blocks forever and is reported as `Blocked`.
    A restart hands in the message list of the new simulation. */
module GymEnv {
  import opened Common
  import opened GymSpaces

  /** Messages from the simulation. */
  datatype SimMsg =
    | SimInit(actSpace: SpaceDesc, obsSpace: SpaceDesc)
    | EnvState(obsData: Container, reward: real, isGameOver: bool, reason: int, info: string)

  /** Messages to the simulation: the initial acknowledgement (done, no stop
      request), an action, and a stop request. */
  datatype EnvMsg = InitAck | Act(actData: Container) | Close

  /** `extraInfo`: `None` before any state arrives, `{}` when the state's
      info string is empty, the string otherwise. */
  datatype ExtraInfo = NoInfo | EmptyInfo | Info(text: string)

  datatype Env = Env(
    newStateRx: bool,
    envDirty: bool,
    obsData: Value,
    reward: real,
    gameOver: bool,
    gameOverReason: Option<int>,
    extraInfo: ExtraInfo,
    actionSpace: Space,
    observationSpace: Space,
    inbox: seq<SimMsg>,
    sent: seq<EnvMsg>)

  datatype EnvError =
    | Blocked            // waiting for a message that never comes
    | UnexpectedMessage  // the message read is not of the expected kind
    | PackFailed(cause: PackError)
    | AlreadyCreated

  /** What `step` returns: observation, reward, terminated, truncated, info. */
  datatype StepResult = StepResult(obs: Value, reward: real, terminated: bool, truncated: bool, info: ExtraInfo)

  /** The state of a fresh or restarted environment before its handshake. */
  function Blank(inbox: seq<SimMsg>, sent: seq<EnvMsg>): (e: Env)
    ensures !e.newStateRx && !e.gameOver && e.obsData == NoneV && e.inbox == inbox && e.sent == sent
  {
    Env(false, false, NoneV, 0.0, false, None, NoInfo, NoSpace, NoSpace, inbox, sent)
  }

  /** `initialize_env`: read the initial message, create both spaces from
      it, and acknowledge. */
  function InitializeEnv(e: Env): (r: Result<Env, EnvError>)
    ensures e.inbox == [] ==> r == Failure(Blocked)
    ensures e.inbox != [] && !e.inbox[0].SimInit? ==> r == Failure(UnexpectedMessage)
    ensures r.Success? <==> e.inbox != [] && e.inbox[0].SimInit?
    ensures r.Success? ==>
              && r.value.actionSpace == CreateSpace(e.inbox[0].actSpace)
              && r.value.observationSpace == CreateSpace(e.inbox[0].obsSpace)
              && r.value.inbox == e.inbox[1..]
              && r.value.sent == e.sent + [InitAck]
              && r.value.(actionSpace := e.actionSpace, observationSpace := e.observationSpace,
                          inbox := e.inbox, sent := e.sent) == e
  {
    if e.inbox == [] then Failure(Blocked)
    else match e.inbox[0]
      case SimInit(act, obs) =>
        Success(e.(actionSpace := CreateSpace(act), observationSpace := CreateSpace(obs),
                   inbox := e.inbox[1..], sent := e.sent + [InitAck]))
      case EnvState(_, _, _, _, _) => Failure(UnexpectedMessage)
  }

  /** `send_close_command`: ask the simulation to stop. */
  function SendClose(e: Env): (e': Env)
    ensures e'.sent == e.sent + [Close] && !e'.newStateRx
    ensures e'.(sent := e.sent, newStateRx := e.newStateRx) == e
  {
    e.(sent := e.sent + [Close], newStateRx := false)
  }

  /** `rx_env_state`: nothing to do when a state is already pending;
      otherwise read one state, answer a final one at once with a close
      request, and mark a state as pending. */
  function RxEnvState(e: Env): (r: Result<Env, EnvError>)
    ensures e.newStateRx ==> r == Success(e)
    ensures !e.newStateRx ==> (r.Success? <==> e.inbox != [] && e.inbox[0].EnvState?)
    ensures !e.newStateRx && e.inbox == [] ==> r == Failure(Blocked)
    ensures r.Success? ==> r.value.newStateRx
    ensures r.Success? && !e.newStateRx ==>
              var m := e.inbox[0];
              && r.value.obsData == CreateData(m.obsData)
              && r.value.reward == m.reward
              && r.value.gameOver == m.isGameOver
              && r.value.gameOverReason == Some(m.reason)
              && (r.value.extraInfo == EmptyInfo <==> m.info == "")
              && (m.info != "" ==> r.value.extraInfo == Info(m.info))
              && r.value.inbox == e.inbox[1..]
              && r.value.sent == e.sent + (if m.isGameOver then [Close] else [])
    ensures r.Success? ==>
              && r.value.envDirty == e.envDirty
              && r.value.actionSpace == e.actionSpace
              && r.value.observationSpace == e.observationSpace
  {
    if e.newStateRx then Success(e)
    else if e.inbox == [] then Failure(Blocked)
    else match e.inbox[0]
      case SimInit(_, _) => Failure(UnexpectedMessage)
      case EnvState(obs, reward, over, reason, info) =>
        var e1 := e.(inbox := e.inbox[1..], obsData := CreateData(obs), reward := reward,
                     gameOver := over, gameOverReason := Some(reason));
        var e2 := if over then SendClose(e1) else e1;
        Success(e2.(extraInfo := if info == "" then EmptyInfo else Info(info), newStateRx := true))
  }

  /** `send_actions`: pack the action against the action space and send it;
      the pending state is consumed. */
  function SendActions(e: Env, actions: Value): (r: Result<Env, EnvError>)
    ensures PackData(actions, e.actionSpace, e.actionSpace).Failure? ==>
              r == Failure(PackFailed(PackData(actions, e.actionSpace, e.actionSpace).error))
    ensures r.Success? <==> PackData(actions, e.actionSpace, e.actionSpace).Success?
    ensures r.Success? ==>
              && r.value.sent == e.sent + [Act(PackData(actions, e.actionSpace, e.actionSpace).value)]
              && !r.value.newStateRx
              && r.value.(sent := e.sent, newStateRx := e.newStateRx) == e
  {
    match PackData(actions, e.actionSpace, e.actionSpace)
    case Failure(err) => Failure(PackFailed(err))
    case Success(c) => Success(e.(sent := e.sent + [Act(c)], newStateRx := false))
  }

  /** `get_state`. */
  function GetState(e: Env): (s: StepResult)
    ensures s.obs == e.obsData && s.reward == e.reward && s.terminated == e.gameOver
    ensures !s.truncated && s.info == e.extraInfo
  {
    StepResult(e.obsData, e.reward, e.gameOver, false, e.extraInfo)
  }

  /** `step`: send the action, take the next state, and mark the
      environment as having been stepped. */
  function Step(e: Env, actions: Value): (r: Result<(Env, StepResult), EnvError>)
    ensures r.Success? <==>
              PackData(actions, e.actionSpace, e.actionSpace).Success? && e.inbox != [] && e.inbox[0].EnvState?
    ensures r.Success? ==>
              var e' := r.value.0;
              && e'.envDirty && e'.newStateRx
              && r.value.1 == GetState(e')
              && e'.inbox == e.inbox[1..]
              && e'.actionSpace == e.actionSpace
    ensures r.Success? ==>
              var e' := r.value.0;
              var m := e.inbox[0];
              && e'.obsData == CreateData(m.obsData)
              && e'.reward == m.reward
              && e'.gameOver == m.isGameOver
              && e'.gameOverReason == Some(m.reason)
              && (e'.extraInfo == EmptyInfo <==> m.info == "")
              && (m.info != "" ==> e'.extraInfo == Info(m.info))
              && e'.sent == e.sent + [Act(PackData(actions, e.actionSpace, e.actionSpace).value)]
                                   + (if e'.gameOver then [Close] else [])
  {
    match SendActions(e, actions)
    case Failure(err) => Failure(err)
    case Success(e1) =>
      match RxEnvState(e1)
      case Failure(err) => Failure(err)
      case Success(e2) =>
        var e3 := e2.(envDirty := true);
        Success((e3, GetState(e3)))
  }

  /** `reset`: an environment that was never stepped is returned as it is;
      otherwise the current simulation is told to stop (unless it already
      ended), a new one is started and handshaken, and its first state is
      taken. */
  function Reset(e: Env, restart: seq<SimMsg>): (r: Result<(Env, Value), EnvError>)
    ensures !e.envDirty ==> r == Success((e, e.obsData))
    ensures r.Success? && e.envDirty ==>
              var e' := r.value.0;
              && !e'.envDirty && e'.newStateRx
              && r.value.1 == e'.obsData
              && |restart| >= 2 && restart[0].SimInit? && restart[1].EnvState?
              && e'.actionSpace == CreateSpace(restart[0].actSpace)
              && e'.observationSpace == CreateSpace(restart[0].obsSpace)
              && e'.obsData == CreateData(restart[1].obsData)
              && e'.reward == restart[1].reward
              && e'.gameOver == restart[1].isGameOver
              && e'.inbox == restart[2..]
    ensures r.Success? && e.envDirty && e.newStateRx ==>
              r.value.0.sent == e.sent + (if e.gameOver then [] else [Close]) + [InitAck]
                                       + (if r.value.0.gameOver then [Close] else [])
  {
    if !e.envDirty then Success((e, e.obsData))
    else
      match StopRun(e)
      case Failure(err) => Failure(err)
      case Success(e1) =>
        match Handshake(Blank(restart, e1.sent))
        case Failure(err) => Failure(err)
        case Success(e2) => Success((e2, e2.obsData))
  }

  /** The part of `reset` that ends the current simulation: unless the game
      is over, take any outstanding state and send a close request. */
  function StopRun(e: Env): (r: Result<Env, EnvError>)
    ensures e.gameOver ==> r == Success(e)
    ensures !e.gameOver && e.newStateRx ==> r == Success(SendClose(e))
  {
    if e.gameOver then Success(e)
    else
      match RxEnvState(e)
      case Failure(err) => Failure(err)
      case Success(e1) => Success(SendClose(e1))
  }

  /** The part of construction and `reset` that talks to a freshly started
      simulation: `initialize_env`, the first `rx_env_state`, and clearing
      `envDirty`. */
  function Handshake(e: Env): (r: Result<Env, EnvError>)
    requires !e.newStateRx
    ensures r.Success? <==> |e.inbox| >= 2 && e.inbox[0].SimInit? && e.inbox[1].EnvState?
    ensures r.Success? ==>
              && !r.value.envDirty && r.value.newStateRx
              && r.value.actionSpace == CreateSpace(e.inbox[0].actSpace)
              && r.value.observationSpace == CreateSpace(e.inbox[0].obsSpace)
              && r.value.obsData == CreateData(e.inbox[1].obsData)
              && r.value.gameOver == e.inbox[1].isGameOver
              && r.value.inbox == e.inbox[2..]
              && r.value.sent == e.sent + [InitAck] + (if r.value.gameOver then [Close] else [])
  {
    match InitializeEnv(e)
    case Failure(err) => Failure(err)
    case Success(e1) =>
      assert e1.inbox == e.inbox[1..];
      match RxEnvState(e1)
      case Failure(err) => Failure(err)
      case Success(e2) =>
        assert e2.inbox == e.inbox[2..];
        Success(e2.(envDirty := false))
  }

  // ---------------------------------------------------------------------
  // Construction and the one-environment-per-process guard

  /** Whether an environment has been constructed in this process. */
  datatype Registry = Registry(created: bool)

  /** The constructor with the guard working as intended: the flag lives on
      the class, so once one environment has been constructed every further
      construction is refused, even one that fails later in its handshake. */
  function Construct(reg: Registry, stream: seq<SimMsg>): (r: (Result<Env, EnvError>, Registry))
    ensures reg.created ==> r == (Failure(AlreadyCreated), reg)
    ensures !reg.created ==> r.1.created && r.0 == Handshake(Blank(stream, []))
    ensures r.0.Success? ==> !reg.created && r.0.value.sent[0] == InitAck && r.0.value.newStateRx
  {
    if reg.created then (Failure(AlreadyCreated), reg)
    else (Handshake(Blank(stream, [])), Registry(true))
  }

  /** The constructor as written: the guard reads the class-level flag but
      the assignment creates an attribute on the new instance, so the
      class-level flag never changes. */
  function ConstructAsWritten(reg: Registry, stream: seq<SimMsg>): (r: (Result<Env, EnvError>, Registry))
    ensures reg.created ==> r.0 == Failure(AlreadyCreated)
    ensures r.1 == reg
    ensures !reg.created ==> r.0 == Handshake(Blank(stream, []))
  {
    if reg.created then (Failure(AlreadyCreated), reg)
    else (Handshake(Blank(stream, [])), reg)
  }
}
