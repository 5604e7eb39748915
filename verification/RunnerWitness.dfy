/** A run that gets all the way: the contract is not kept by doing nothing. */
module RunnerWitness {
  import opened Prelude
  import opened Protocol
  import opened RunnerModel
  import Backoff
  import Correlate
  import Session

  /** One attempt, a welcome, a successful login, and one call asked for and written. */
  function Welcome(name: string, params: seq<Json>): seq<Tick> {
    [Tick(0, Jitter(0)), Tick(0, Dialled), Tick(0, SinkTakes),
     Tick(0, Arrives(Text(Connected("s")), {})), Tick(0, SinkTakes),
     Tick(0, Arrives(Text(Result(Correlate.IdOf("m", 0), None, None)), {})),
     Tick(0, Asks(Call(name, params), true)), Tick(0, SinkTakes)]
  }

  /** A socket is up and nothing is wrong or left to write. */
  predicate Quiet(s: State, config: Config, calls: nat) {
    && s.stage.Driving? && s.clock == 0 && s.priority == [] && s.app == [] && s.fatal.None? && !s.shutdown
    && s.config == config.Clamped() && s.methods.prefix == "m" && s.methods.nextId == calls
  }

  lemma {:induction false} WelcomeAsksForLogin(s: State, config: Config)
    requires Quiet(s, config, 0) && s.session.phase.Handshaking?
    ensures var t := Step(s, Tick(0, Arrives(Text(Connected("s")), {})));
            && Quiet(t.(priority := []), config, 1) && t.session.loginCall == Some(Correlate.IdOf("m", 0))
            && t.session.phase.Authenticating? && |t.priority| == 1
  {
    hide Correlate.IdOf;
    var heard := Note(s.(liveness := s.liveness.SawTraffic(0)), Received(Connected("s")));
    var greeted := heard.(session := heard.session.Handle(Connected("s")).0);
    assert heard.session.Handle(Connected("s")).1 == [Session.Login];
    assert ApplyAll(greeted, [Session.Login]) == Apply(greeted, Session.Login);
  }

  lemma {:induction false} LoginSucceeds(s: State, config: Config, id: string)
    requires Quiet(s, config, 1) && s.session.loginCall == Some(id)
    ensures var t := Step(s, Tick(0, Arrives(Text(Result(id, None, None)), {})));
            Quiet(t, config, 1) && t.session.phase.Ready?
  {
    var reply := Result(id, None, None);
    var heard := Note(s.(liveness := s.liveness.SawTraffic(0)), Received(reply));
    var ready := heard.(session := heard.session.Handle(reply).0);
    assert heard.session.Handle(reply).1 == [Session.Action.Resubscribe];
    assert ApplyAll(ready, [Session.Action.Resubscribe]) == Apply(ready, Session.Action.Resubscribe);
    hide Correlate.Table.Outcome;
  }

  lemma {:induction false} CallIsWritten(s: State, config: Config, name: string, params: seq<Json>)
    requires Quiet(s, config, 1) && s.session.phase.Ready?
    ensures var t := Step(Step(s, Tick(0, Asks(Call(name, params), true))), Tick(0, SinkTakes));
            && t.session.phase.Ready? && t.log != []
            && t.log[|t.log| - 1] == Accepted(Application, Method(Correlate.IdOf("m", 1), name, params))
  {
    hide Correlate.IdOf;
    var id := Correlate.IdOf("m", 1);
    var asked := HandleCommand(s, Call(name, params), true);
    assert asked.app == [Outbound(Method(id, name, params), Some(MethodMark(id)))];
    assert Step(s, Tick(0, Asks(Call(name, params), true))) == ArmTimer(asked);
    assert Step(ArmTimer(asked), Tick(0, SinkTakes)) == WriteOne(ArmTimer(asked));
  }

  lemma {:induction false} FirstAttemptIsImmediate(config: Config)
    requires config.Valid()
    ensures var s := Step(Initial(config), Tick(0, Jitter(0)));
            s.stage.Dialling? && Quiet(s.(stage := Driving), config, 0)
  {
    assert Backoff.Window(config.backoffBase, config.backoffCap, 0) == 0;
  }

  lemma {:induction false} ConnectIsWritten(s: State, config: Config)
    requires s.stage.Dialling? && Quiet(s.(stage := Driving), config, 0)
    ensures var t := Step(Step(s, Tick(0, Dialled)), Tick(0, SinkTakes));
            Quiet(t, config, 0) && t.session.phase.Handshaking?
  {
    var open := StartDriving(s);
    assert open.priority == [Outbound(ClientMessage.Connect(DDP_VERSION, [DDP_VERSION]), None)];
    assert Step(open, Tick(0, SinkTakes)) == WriteOne(open);
  }

  lemma {:induction false} OneMoreTick(config: Config, env: seq<Tick>, n: nat)
    requires n < |env|
    ensures Run(config, env, n + 1) == Step(Run(config, env, n), env[n])
  {
  }

  /** A call gets through: there is an environment in which a socket accepts it after a login. */
  lemma {:induction false} CallsGetThrough(config: Config, name: string, params: seq<Json>)
    requires config.Valid()
    ensures var s := Run(config, Welcome(name, params), 8);
            && s.session.phase.Ready? && s.log != []
            && s.log[|s.log| - 1] == Accepted(Application, Method(Correlate.IdOf("m", 1), name, params))
  {
    var env, id := Welcome(name, params), Correlate.IdOf("m", 0);
    FirstAttemptIsImmediate(config);
    assert Run(config, env, 0) == Initial(config);
    OneMoreTick(config, env, 0);
    OneMoreTick(config, env, 1);
    OneMoreTick(config, env, 2);
    OneMoreTick(config, env, 3);
    OneMoreTick(config, env, 4);
    OneMoreTick(config, env, 5);
    OneMoreTick(config, env, 6);
    OneMoreTick(config, env, 7);
    hide Run, Initial, Step, Quiet;
    ConnectIsWritten(Run(config, env, 1), config);
    WelcomeAsksForLogin(Run(config, env, 3), config);
    LoginIsWritten(Run(config, env, 4), config, id);
    LoginSucceeds(Run(config, env, 5), config, id);
    CallIsWritten(Run(config, env, 6), config, name, params);
  }

  lemma {:induction false} LoginIsWritten(s: State, config: Config, id: string)
    requires Quiet(s.(priority := []), config, 1) && |s.priority| == 1 && s.session.loginCall == Some(id)
    ensures var t := Step(s, Tick(0, SinkTakes)); Quiet(t, config, 1) && t.session == s.session
  {
  }
}
