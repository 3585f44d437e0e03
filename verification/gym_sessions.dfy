/** Properties of whole environment sessions: what a step and a reset send
    to the simulation, and the one-environment-per-process guard. */
module GymSessions {
  import opened Common
  import opened GymSpaces
  import opened GymRoundTrip
  import opened GymEnv

  /** A step on an action that fits the action space, while the simulation
      has a state to send, succeeds and sends a container that `_create_data`
      on the other side would read back as that very action. */
  lemma StepSendsAction(e: Env, actions: Value)
    requires Fits(actions, e.actionSpace, e.actionSpace)
    requires e.inbox != [] && e.inbox[0].EnvState?
    ensures Step(e, actions).Success?
    ensures var sent := Step(e, actions).value.0.sent;
            |sent| > |e.sent| && sent[|e.sent|].Act? && CreateData(sent[|e.sent|].actData) == actions
  {
    PackCreateRoundTrip(actions, e.actionSpace, e.actionSpace);
  }

  /** Whether the state a step receives ends the game or not, a step
      followed by a reset sends the old simulation exactly one close request,
      right after the action and before the new simulation's acknowledgement. */
  lemma StepThenResetClosesOnce(e: Env, actions: Value, restart: seq<SimMsg>)
    requires Step(e, actions).Success?
    requires Reset(Step(e, actions).value.0, restart).Success?
    ensures var c := PackData(actions, e.actionSpace, e.actionSpace).value;
            var e' := Reset(Step(e, actions).value.0, restart).value.0;
            e'.sent == e.sent + [Act(c), Close, InitAck] + (if e'.gameOver then [Close] else [])
  {
    var e1 := Step(e, actions).value.0;
    var e' := Reset(e1, restart).value.0;
    CloseOnce(e.sent, Act(PackData(actions, e.actionSpace, e.actionSpace).value), e1.gameOver,
              if e'.gameOver then [Close] else [], e1.sent, e'.sent);
  }

  /** The close request comes from the step when the game ended there, and
      from the reset otherwise: either way exactly one. */
  lemma CloseOnce(before: seq<EnvMsg>, act: EnvMsg, over: bool, tail: seq<EnvMsg>,
                  mid: seq<EnvMsg>, after: seq<EnvMsg>)
    requires mid == before + [act] + (if over then [Close] else [])
    requires after == mid + (if over then [] else [Close]) + [InitAck] + tail
    ensures after == before + [act, Close, InitAck] + tail
  {
    assert before + [act] + [Close] + [InitAck] == before + [act, Close, InitAck];
    if over {
      assert after == before + [act] + [Close] + [] + [InitAck] + tail;
    }
  }

  /** A simulation that sends its initial message and one state. */
  function TwoMessageStream(): seq<SimMsg>
  {
    var d := SpaceDesc("", DiscreteD(2));
    [SimInit(d, d), EnvState(Container("", DiscreteP(0)), 0.0, false, 0, "")]
  }

  /** As written, the guard never fires: two environments in one process are
      both constructed. */
  lemma AsWrittenSecondConstructionSucceeds()
    ensures var first := ConstructAsWritten(Registry(false), TwoMessageStream());
            && first.0.Success?
            && ConstructAsWritten(first.1, TwoMessageStream()).0.Success?
  {
    var s := TwoMessageStream();
    assert |s| >= 2 && s[0].SimInit? && s[1].EnvState?;
  }

  /** With the guard as intended, the second construction is refused
      whatever either simulation sends. */
  lemma SecondConstructionRejected(first: seq<SimMsg>, second: seq<SimMsg>)
    ensures Construct(Construct(Registry(false), first).1, second).0 == Failure(AlreadyCreated)
  {
  }
}
