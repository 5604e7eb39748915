/** The runner itself: one object that owns the socket's queues, tables and timers. */
module Runner {
  import opened Prelude
  import opened Protocol
  import opened RunnerModel
  import Backoff
  import Correlate
  import Liveness
  import RunnerContract
  import RunnerKnowledge
  import RunnerRetold
  import RunnerSafety
  import RunnerStory
  import Session

  /** What one poll of the socket, the command lane and the timer reports. */
  datatype Turn =
    | Inbound(frame: RunnerModel.Inbound, hungUp: set<string>)
    | Eof
    | SocketError
    | Asked(command: Command, listening: bool)
    | Abandoned
    | Deadline

  class Runner {
    ghost const given: Config
    const config: Config
    const session: Session.Session
    const methods: Correlate.Correlator
    const subs: Correlate.Correlator
    const backoff: Backoff.Backoff
    var liveness: Liveness.LivenessPolicy
    var priority: seq<Outbound>
    var app: seq<Outbound>
    var unflushed: seq<Mark>
    var needsFlush: bool
    var readyAt: Option<nat>
    var timer: nat
    var handshake: Option<nat>
    var fatal: Option<Session.Fatal>
    var shutdown: bool
    var clock: nat
    ghost var stage: Stage
    ghost var log: seq<Fact>

    ghost predicate Valid()
    {
      && methods != subs
      && given.Valid() && config == given.Clamped()
      && backoff.base == config.backoffBase && backoff.cap == config.backoffCap
    }

    ghost function Parts(): set<object>
      reads this`liveness
    {
      {this, session, methods, subs, backoff, liveness}
    }

    ghost function View(): State
      reads this, session, methods, subs, backoff, liveness
    {
      State(config, stage, session.View(), methods.View(), subs.View(), liveness.View(), backoff.attempt,
            priority, app, unflushed, needsFlush, readyAt, timer, handshake, fatal, shutdown, clock, log)
    }

    constructor (config: Config)
      requires config.Valid()
      ensures Valid() && given == config && fresh(Parts())
      ensures View() == Initial(config)
    {
      given := config;
      this.config := config.Clamped();
      session := new Session.Session(DDP_VERSION);
      methods := new Correlate.Correlator("m");
      subs := new Correlate.Correlator("s");
      backoff := new Backoff.Backoff.WithLimits(config.backoffBase, config.backoffCap);
      liveness := new Liveness.LivenessPolicy.WithThresholds(config.pingAfter, config.deadAfter, 0);
      priority, app, unflushed, needsFlush := [], [], [], false;
      readyAt, timer, handshake, fatal, shutdown, clock := None, 0, None, None, false, 0;
      stage, log := Top, [];
    }

    method EmitEvent(event: Event)
      requires Valid()
      modifies this`log
      ensures log == old(log) + [Emitted(event, clock)]
    {
      log := log + [Emitted(event, clock)];
    }

    // ---- settling ----------------------------------------------------------------------

    /** Marks every frame handed to the sink as sent. */
    method DrainUnflushed()
      requires Valid()
      modifies this`unflushed, this`needsFlush, methods, subs
      ensures unflushed == [] && !needsFlush
      ensures methods.View() == old(methods.View()).MarkSent(MethodIds(old(unflushed)))
      ensures subs.View() == old(subs.View()).MarkSent(SubIds(old(unflushed)))
    {
      ghost var m, b := methods.View(), subs.View();
      MarkNone(m);
      MarkNone(b);
      for i := 0 to |unflushed|
        invariant unflushed == old(unflushed)
        invariant methods.View() == m.MarkSent(MethodIds(unflushed[..i]))
        invariant subs.View() == b.MarkSent(SubIds(unflushed[..i]))
      {
        MarkOneMore(m, b, unflushed, i);
        match unflushed[i] {
          case MethodMark(id) => methods.MarkSent(id);
          case SubMark(id) => subs.MarkSent(id);
        }
      }
      assert unflushed[..|unflushed|] == unflushed;
      unflushed := [];
      needsFlush := false;
    }

    method DropQueues()
      requires Valid()
      modifies this`priority, this`app, this`unflushed, this`needsFlush, this`handshake, methods, subs
      ensures View() == MarkUnflushed(old(View())).(priority := [], app := [], handshake := None)
    {
      hide Correlate.Table.MarkSent, MethodIds, SubIds;
      ClearedFirst(View());
      hide MarkUnflushed;
      priority, app := [], [];
      Flushed();
      handshake := None;
    }

    method EndCalls()
      requires Valid()
      modifies this`log, methods, subs
      ensures View() ==
          Note(old(View()).(methods := old(methods.View()).Disconnect(), subs := old(subs.View()).Disconnect()),
                             Settled(old(methods.View()).Verdicts() + old(subs.View()).Verdicts()))
    {
      hide Correlate.Enumerates, Correlate.Table.Verdicts;
      log := log + [Settled(methods.View().Verdicts() + subs.View().Verdicts())];
      var abandoned, _ := methods.Disconnect();
      var dropped, _ := subs.Disconnect();
    }

    /** Both lanes are emptied, and each waiter learns whether its call may be repeated. */
    method SettleAll()
      requires Valid()
      modifies this`priority, this`app, this`unflushed, this`needsFlush, this`handshake, this`log, methods, subs
      ensures View() == Settle(old(View()))
    {
      hide Correlate.Table.Verdicts, Correlate.Table.MarkSent, MethodIds, SubIds;
      DropQueues();
      EndCalls();
    }

    /** Only a session that stayed ready long enough forgives the failures before it. */
    method LeaveSession()
      requires Valid()
      modifies this`readyAt, session, backoff
      ensures View() == AfterLoss(old(View())).(session := AfterLoss(old(View())).session.Disconnect())
    {
      if readyAt.Some? && clock - readyAt.value >= config.stableAfter {
        backoff.Reset();
      }
      readyAt := None;
      session.Disconnect();
    }

    method Disconnected()
      requires Valid()
      modifies this`priority, this`app, this`unflushed, this`needsFlush, this`handshake, this`readyAt, this`log
      modifies session, methods, subs, backoff
      ensures View() == Unplugged(old(View()))
    {
      hide Settle, AfterLoss;
      LeaveSession();
      SettleAll();
      EmitEvent(Event.Disconnected);
    }

    // ---- inbound frames ----------------------------------------------------------------

    method PushPriorityFrame(frame: ClientMessage, mark: Option<Mark>)
      modifies this`priority
      ensures priority == old(priority) + [Outbound(frame, mark)]
    {
      priority := priority + [Outbound(frame, mark)];
    }

    method PushAppFrame(frame: ClientMessage, mark: Option<Mark>)
      modifies this`app
      ensures app == old(app) + [Outbound(frame, mark)]
    {
      app := app + [Outbound(frame, mark)];
    }

    /** The login goes out on the protocol lane, under a method id of its own. */
    method StartLogin()
      requires Valid()
      modifies this`priority, this`log, session, methods
      ensures View() == Apply(old(View()), Session.Login)
    {
      var id := methods.Register();
      log := log + [Registered(id)];
      session.ExpectLogin(id);
      PushPriorityFrame(Method(id, "login", config.credential), Some(MethodMark(id)));
    }

    method BecomeReady()
      requires Valid()
      modifies this`handshake, this`readyAt, this`log
      ensures View() == Apply(old(View()), Session.Action.Resubscribe)
    {
      var epoch := methods.epoch;
      handshake := None;
      readyAt := Some(clock);
      EmitEvent(ReadyNow(epoch));
      EmitEvent(Event.Resubscribe(epoch));
    }

    method ApplyAction(action: Session.Action)
      requires Valid()
      modifies this`priority, this`handshake, this`readyAt, this`fatal, this`log, session, methods
      ensures View() == Apply(old(View()), action)
    {
      match action {
        case Send(frame) => PushPriorityFrame(frame, None);
        case Login => StartLogin();
        case Resubscribe => BecomeReady();
        case Stop(failure) =>
          fatal := Some(failure);
          log := log + [Doomed(failure)];
        case ProtocolViolation(_) =>
      }
    }

    method ResolveCall(id: string, outcome: Prelude.Result<Json, DdpError>, hungUp: set<string>)
      requires Valid()
      modifies this`log, methods
      ensures View() == ResolveMethod(old(View()), id, outcome, hungUp)
    {
      var resolution := methods.Resolve(id, outcome, id !in hungUp);
      log := log + ReplyFact(id, resolution);
    }

    method ResolveSubscription(id: string, outcome: Prelude.Result<Json, DdpError>, hungUp: set<string>)
      requires Valid()
      modifies this`log, subs
      ensures View() == ResolveSub(old(View()), id, outcome, hungUp)
    {
      var resolution := subs.Resolve(id, outcome, id !in hungUp);
      log := log + ReplyFact(id, resolution);
    }

    /** One frame may confirm several subscriptions. */
    method ConfirmSubscriptions(ids: seq<string>, hungUp: set<string>)
      requires Valid()
      modifies this`log, subs
      ensures View() == ResolveSubs(old(View()), ids, hungUp)
    {
      hide ReplyFact, ResolveSub;
      for i := 0 to |ids|
        invariant ResolveSubs(old(View()), ids, hungUp) == ResolveSubs(View(), ids[i..], hungUp)
      {
        ResolveSubscription(ids[i], Prelude.Success(JsonNull), hungUp);
        assert ids[i..][1..] == ids[i + 1..];
      }
    }

    method RouteReply(message: ServerMessage, hungUp: set<string>)
      requires Valid()
      modifies this`log, methods, subs
      ensures View() == Route(old(View()), message, hungUp)
    {
      hide ReplyFact, ResolveMethod, ResolveSub, ResolveSubs;
      match message {
        case Result(id, result, error) =>
          var outcome := if error.Some? then Prelude.Failure(error.value)
                         else Prelude.Success(if result.Some? then result.value else JsonNull);
          ResolveCall(id, outcome, hungUp);
        case SubsReady(ids) =>
          ConfirmSubscriptions(ids, hungUp);
        case Nosub(id, error) =>
          var outcome := if error.Some? then Prelude.Failure(error.value) else Prelude.Success(JsonNull);
          ResolveSubscription(id, outcome, hungUp);
        case _ =>
      }
    }

    method HandleText(message: ServerMessage, hungUp: set<string>)
      requires Valid()
      modifies this`priority, this`handshake, this`readyAt, this`fatal, this`log, session, methods, subs
      ensures View() == OnText(old(View()), message, hungUp)
    {
      hide Apply, Route, Session.Lifecycle.Handle;
      log := log + [Received(message)];
      var actions := session.Handle(message);
      ghost var heard := View();
      for i := 0 to |actions|
        invariant ApplyAll(heard, actions) == ApplyAll(View(), actions[i..])
      {
        ApplyAction(actions[i]);
        assert actions[i..][1..] == actions[i + 1..];
      }
      RouteReply(message, hungUp);
      if message.Connected? {
        EmitEvent(ConnectedTo(message.session));
      } else if message.IsForwarded() {
        EmitEvent(Event.Frame(message));
      }
    }

    method HandleFrame(frame: RunnerModel.Inbound, hungUp: set<string>) returns (outcome: Option<Outcome>)
      requires Valid()
      modifies this`priority, this`handshake, this`readyAt, this`fatal, this`log, session, methods, subs, liveness
      ensures (View(), outcome) == OnFrame(old(View()), frame, hungUp)
    {
      hide OnText;
      liveness.SawTraffic(clock);
      match frame {
        case Text(message) =>
          HandleText(message, hungUp);
          outcome := None;
        case CloseFrame =>
          outcome := Some(Closed);
        case _ =>
          outcome := None;
      }
    }

    // ---- commands and timers -----------------------------------------------------------

    /** A call whose caller is already gone is forgotten at once. */
    method RunCall(name: string, params: seq<Json>, listening: bool)
      requires Valid()
      modifies this`app, this`log, methods
      ensures View() == HandleCommand(old(View()), Call(name, params), listening)
    {
      var id := methods.Register();
      log := log + [Registered(id)];
      if !listening {
        var gone := methods.Cancel(id);
        log := log + [Cancelled(id)];
        return;
      }
      PushAppFrame(Method(id, name, params), Some(MethodMark(id)));
    }

    method RunSubscribe(name: string, params: seq<Json>, listening: bool)
      requires Valid()
      modifies this`app, this`log, subs
      ensures View() == HandleCommand(old(View()), Subscribe(name, params), listening)
    {
      var id := subs.Register();
      log := log + [Registered(id)];
      if !listening {
        var gone := subs.Cancel(id);
        log := log + [Cancelled(id)];
        return;
      }
      PushAppFrame(Sub(id, name, params), Some(SubMark(id)));
    }

    method RunCommand(command: Command, listening: bool)
      requires Valid()
      modifies this`app, this`shutdown, this`log, methods, subs
      ensures View() == HandleCommand(old(View()), command, listening)
    {
      match command {
        case Call(name, params) => RunCall(name, params, listening);
        case Subscribe(name, params) => RunSubscribe(name, params, listening);
        case Unsubscribe(id) =>
          PushAppFrame(Unsub(id), None);
        case Shutdown =>
          shutdown := true;
      }
    }

    method HandleDeadline() returns (outcome: Option<Outcome>)
      requires Valid()
      modifies this`priority, this`handshake, liveness
      ensures (View(), outcome) == OnDeadline(old(View()))
    {
      if session.phase == Session.Ready {
        handshake := None;
      }
      if handshake.Some? && clock >= handshake.value {
        return Some(Closed);
      }
      var verdict := liveness.Poll(clock);
      match verdict {
        case Healthy =>
          outcome := None;
        case SendPing =>
          PushPriorityFrame(Ping(None), None);
          outcome := None;
        case Dead =>
          outcome := Some(Closed);
      }
    }

    method Arm()
      requires Valid()
      modifies this`timer
      ensures View() == ArmTimer(old(View()))
    {
      var silent := liveness.NextDeadline(clock);
      timer := if handshake.Some? && handshake.value < silent then handshake.value else silent;
    }

    // ---- one socket --------------------------------------------------------------------

    /** Hands the next frame to the sink: the protocol lane first, always. */
    method Write()
      requires Valid() && CanWrite(View())
      modifies this`priority, this`app, this`unflushed, this`needsFlush, this`log
      ensures View() == WriteOne(old(View()))
    {
      var lane, out;
      if priority != [] {
        lane, out := Protocol, priority[0];
        priority := priority[1..];
      } else {
        lane, out := Application, app[0];
        app := app[1..];
      }
      log := log + [Accepted(lane, out.frame)];
      if out.mark.Some? {
        unflushed := unflushed + [out.mark.value];
      }
      needsFlush := true;
    }

    /** When a flush completes, every call accepted before it counts as sent. */
    method Flushed()
      requires Valid()
      modifies this`unflushed, this`needsFlush, methods, subs
      ensures View() == MarkUnflushed(old(View()))
    {
      hide Correlate.Table.MarkSent, MethodIds, SubIds;
      DrainUnflushed();
    }

    /**
     * Offers one readiness to the sink: writes first, protocol frames unconditionally and
     * application frames only once ready, then the flush. Not `done` means it was for neither.
     */
    method PollSink(what: Happening) returns (done: bool, turn: Option<Turn>)
      requires Valid() && stage.Driving?
      modifies this`priority, this`app, this`unflushed, this`needsFlush, this`log, methods, subs
      ensures !done ==> View() == old(View())
      ensures !done && (what.SinkTakes? || what.SinkFails? || what.FlushDone? || what.FlushFails?) ==>
                Drive(View(), what) == View()
      ensures done && turn.None? ==> View() == Drive(old(View()), what)
      ensures turn.Some? ==>
          done && turn.value.SocketError? && AfterTurn(View(), turn.value) == Drive(old(View()), what)
    {
      hide OnFrame, HandleCommand, Conclude, OnDeadline, WriteOne, MarkUnflushed;
      done, turn := true, None;
      if priority != [] || (session.phase == Session.Ready && app != []) {
        if what.SinkTakes? {
          Write();
          return;
        }
        if what.SinkFails? {
          return true, Some(SocketError);
        }
      }
      if needsFlush {
        if what.FlushDone? {
          Flushed();
          return;
        }
        if what.FlushFails? {
          return true, Some(SocketError);
        }
      }
      done := false;
    }

    /** The sink first, then reads and commands, then the timer. */
    method Poll(tick: Tick) returns (turn: Option<Turn>)
      requires Valid() && stage.Driving?
      modifies this`clock, this`priority, this`app, this`unflushed, this`needsFlush, this`log, methods, subs
      ensures turn.None? ==> View() == Step(old(View()), tick)
      ensures turn.Some? ==> AfterTurn(View(), turn.value) == Step(old(View()), tick)
    {
      hide Drive, AfterTurn;
      if tick.at < clock {
        return None;
      }
      clock := tick.at;
      var done;
      done, turn := PollSink(tick.what);
      if done {
        return;
      }
      turn := PollSources(tick.what);
    }

    /** Reads, commands while the outbox has room, and the timer last. */
    method PollSources(what: Happening) returns (turn: Option<Turn>)
      requires Valid() && stage.Driving?
      requires what.SinkTakes? || what.SinkFails? || what.FlushDone? || what.FlushFails? ==>
          Drive(View(), what) == View()
      ensures turn.None? ==> View() == Drive(View(), what)
      ensures turn.Some? ==> AfterTurn(View(), turn.value) == Drive(View(), what)
    {
      hide OnFrame, HandleCommand, Conclude, OnDeadline, WriteOne, MarkUnflushed;
      var acceptCommands := |app| < config.outboxCapacity;
      match what {
        case Arrives(frame, hungUp) => turn := Some(Inbound(frame, hungUp));
        case EndOfStream => turn := Some(Eof);
        case ReadFails => turn := Some(SocketError);
        case Asks(command, listening) => turn := if acceptCommands then Some(Asked(command, listening)) else None;
        case HandlesDropped => turn := if acceptCommands then Some(Abandoned) else None;
        case TimerFires => turn := if clock >= timer then Some(Deadline) else None;
        case _ => turn := None;
      }
    }

    /** Polls until something must be acted on, or the environment has nothing more to say. */
    method PollStep(env: seq<Tick>, from: nat) returns (to: nat, turn: Option<Turn>)
      requires Valid() && stage.Driving? && from <= |env|
      requires View() == Run(given, env, from)
      modifies this`clock, this`priority, this`app, this`unflushed, this`needsFlush, this`log, methods, subs
      ensures from <= to <= |env|
      ensures turn.None? ==> to == |env| && View() == Run(given, env, to)
      ensures turn.Some? ==> from < to && AfterTurn(View(), turn.value) == Run(given, env, to)
    {
      hide AfterTurn, Step, Initial;
      to := from;
      while to < |env|
        invariant from <= to <= |env|
        invariant View() == Run(given, env, to)
      {
        turn := Poll(env[to]);
        to := to + 1;
        if turn.Some? {
          return;
        }
      }
      turn := None;
    }

    /** What a turn does, before asking whether it ended the connection. */
    method Act(turn: Turn) returns (outcome: Option<Outcome>)
      requires Valid()
      modifies this`priority, this`app, this`handshake, this`readyAt, this`fatal, this`shutdown, this`log
      modifies session, methods, subs, liveness
      ensures Conclude(View(), outcome) == AfterTurn(old(View()), turn)
    {
      hide OnFrame, HandleCommand, OnDeadline, Conclude;
      outcome := None;
      match turn {
        case Inbound(frame, hungUp) => outcome := HandleFrame(frame, hungUp);
        case Eof => outcome := Some(Closed);
        case SocketError => outcome := Some(Closed);
        case Asked(command, listening) => RunCommand(command, listening);
        case Abandoned => outcome := Some(ShutDown);
        case Deadline => outcome := HandleDeadline();
      }
    }

    /** Acts on one turn; reports how driving ended, if it did. */
    method TakeTurn(turn: Turn) returns (end: Option<End>)
      requires Valid()
      modifies this`priority, this`app, this`handshake, this`readyAt, this`fatal, this`shutdown, this`timer, this`log
      modifies session, methods, subs, liveness
      ensures end.None? ==> View() == AfterTurn(old(View()), turn)
      ensures end.Some? ==> Close(View(), end.value) == AfterTurn(old(View()), turn)
    {
      hide AfterTurn, Close, ArmTimer;
      var outcome := Act(turn);
      end := None;
      if fatal.Some? {
        end := Some(Terminal(fatal.value));
        fatal := None;
      } else if shutdown || outcome == Some(ShutDown) {
        end := Some(Quit);
      } else if outcome == Some(Closed) {
        end := Some(Gone);
      } else {
        Arm();
      }
    }

    method OpenSocket()
      requires Valid()
      modifies Parts()
      ensures fresh(liveness)
      ensures View() == StartDriving(old(View()))
    {
      hide Apply, ArmTimer;
      InstallSocket();
      var action := session.Connect();
      Greet(action);
    }

    /** A fresh socket has a fresh watchdog and a handshake budget. */
    method InstallSocket()
      requires Valid()
      modifies this`liveness, this`handshake, this`stage, this`log
      ensures fresh(liveness)
      ensures View() == Note(old(View()).(
        stage := Driving,
        liveness := Liveness.Watchdog(config.pingAfter, config.deadAfter, clock, false),
        handshake := Some(clock + config.handshakeTimeout)), Opened)
    {
      var watchdog := new Liveness.LivenessPolicy.WithThresholds(config.pingAfter, config.deadAfter, clock);
      liveness, handshake := watchdog, Some(clock + config.handshakeTimeout);
      stage, log := Driving, log + [Opened];
    }

    /** The opening frame goes out under a fresh timer. */
    method Greet(action: Session.Action)
      requires Valid() && action.Send?
      modifies this`priority, this`handshake, this`readyAt, this`fatal, this`log, this`timer, session, methods
      ensures View() == ArmTimer(Apply(old(View()), action))
    {
      hide Apply;
      ApplyAction(action);
      Arm();
    }

    /** From an open socket to its end: turn after turn, until one of them closes it. */
    method DriveSocket(env: seq<Tick>, from: nat) returns (to: nat, end: Option<End>)
      requires Valid() && from <= |env|
      requires StartDriving(View()) == Run(given, env, from)
      modifies Parts()
      ensures fresh(liveness) && from <= to <= |env|
      ensures end.None? ==> to == |env| && View() == Run(given, env, to)
      ensures end.Some? ==> Close(View(), end.value) == Run(given, env, to)
    {
      hide Run, Close, AfterTurn;
      OpenSocket();
      StartsDriving(old(View()));
      to := from;
      ghost var watchdog := liveness;
      while true
        invariant from <= to <= |env| && liveness == watchdog
        invariant stage.Driving? && View() == Run(given, env, to)
        decreases |env| - to
      {
        var turn;
        to, turn := PollStep(env, to);
        if turn.None? {
          return to, None;
        }
        end := TakeTurn(turn.value);
        if end.Some? {
          return;
        }
      }
    }

    // ---- the whole run -----------------------------------------------------------------

    /** One readiness while waiting out a delay: `woke` when it ran out. */
    method IdleStep(until: nat, tick: Tick) returns (woke: bool)
      requires Valid() && stage == Idling(until) && !shutdown
      modifies this`clock, this`app, this`shutdown, this`log, methods, subs
      ensures woke ==> !shutdown && Dial(View()) == Step(old(View()), tick)
      ensures !woke && shutdown ==> Finish(View()) == Step(old(View()), tick)
      ensures !woke && !shutdown ==> View() == Step(old(View()), tick)
    {
      hide HandleCommand, Finish, Dial;
      if tick.at < clock {
        return false;
      }
      clock := tick.at;
      if |app| < config.outboxCapacity {
        if tick.what.Asks? {
          RunCommand(tick.what.command, tick.what.listening);
        } else if tick.what.HandlesDropped? {
          shutdown := true;
        }
      }
      woke := tick.what.Wake? && clock >= until;
    }

    /**
     * The pause before the next attempt, with commands taken meanwhile. `woke` once it is over;
     * otherwise a shutdown was asked for, or the environment has nothing more to say.
     */
    method IdleUntil(until: nat, env: seq<Tick>, from: nat) returns (to: nat, woke: bool)
      requires Valid() && stage == Idling(until) && !shutdown && from <= |env|
      requires View() == Run(given, env, from)
      modifies this`clock, this`app, this`shutdown, this`log, methods, subs
      ensures from <= to <= |env|
      ensures woke ==> !shutdown && Dial(View()) == Run(given, env, to)
      ensures !woke && shutdown ==> Finish(View()) == Run(given, env, to)
      ensures !woke && !shutdown ==> to == |env| && View() == Run(given, env, to)
    {
      hide Finish, Dial, Initial, Step;
      to, woke := from, false;
      while to < |env|
        invariant from <= to <= |env| && !shutdown && !woke
        invariant View() == Run(given, env, to)
      {
        woke := IdleStep(until, env[to]);
        to := to + 1;
        if woke || shutdown {
          return;
        }
      }
    }

    /** Skips to the tick that brings the next random roll. */
    method AwaitRoll(env: seq<Tick>, from: nat) returns (to: nat, roll: Option<nat>)
      requires Valid() && stage.Top? && from <= |env|
      requires View() == Run(given, env, from)
      modifies this`clock
      ensures from <= to <= |env|
      ensures roll.None? ==> to == |env| && View() == Run(given, env, to)
      ensures roll.Some? ==> from < to && Pace(View(), roll.value) == Run(given, env, to)
    {
      hide Pace, Initial;
      to := from;
      while to < |env|
        invariant from <= to <= |env| && View() == Run(given, env, to)
      {
        var tick := env[to];
        to := to + 1;
        if tick.at >= clock {
          clock := tick.at;
          if tick.what.Jitter? {
            return to, Some(tick.what.roll);
          }
        }
      }
      roll := None;
    }

    /** Waits for the connection attempt to succeed or fail. */
    method Open(env: seq<Tick>, from: nat) returns (to: nat, isOpen: Option<bool>)
      requires Valid() && stage.Dialling? && from <= |env|
      requires View() == Run(given, env, from)
      modifies this`clock
      ensures from <= to <= |env|
      ensures isOpen.None? ==> to == |env| && View() == Run(given, env, to)
      ensures isOpen.Some? && isOpen.value ==> from < to && StartDriving(View()) == Run(given, env, to)
      ensures isOpen.Some? && !isOpen.value ==> from < to && Lost(View()) == Run(given, env, to)
    {
      hide StartDriving, Lost, Initial;
      to := from;
      while to < |env|
        invariant from <= to <= |env| && View() == Run(given, env, to)
      {
        var tick := env[to];
        to := to + 1;
        if tick.at >= clock {
          clock := tick.at;
          if tick.what.Dialled? {
            return to, Some(true);
          }
          if tick.what.DialFailed? {
            return to, Some(false);
          }
        }
      }
      isOpen := None;
    }

    /** Draws the reconnect delay. */
    method NextDelay(roll: nat) returns (delay: nat)
      requires Valid()
      modifies backoff
      ensures View() == old(View()).(attempt := Backoff.Bump(old(backoff.attempt)))
      ensures delay == Backoff.Drawn(Backoff.Window(config.backoffBase, config.backoffCap, old(backoff.attempt)), roll)
    {
      delay := backoff.NextDelay(roll);
    }

    method Announce()
      requires Valid()
      modifies this`stage, this`log
      ensures View() == Dial(old(View()))
    {
      EmitEvent(Connecting(if backoff.attempt == 0 then 0 else backoff.attempt - 1));
      stage := Dialling;
    }

    /** The last acts of a connection that will not be retried. */
    method CloseForGood(end: End)
      requires Valid() && !end.Gone?
      modifies this`priority, this`app, this`unflushed, this`needsFlush, this`handshake, this`log
      modifies session, methods, subs
      ensures Finish(View()) == Close(old(View()), end)
    {
      hide Finish, Settle;
      SettleAll();
      match end {
        case Quit => session.Disconnect();
        case Terminal(failure) => EmitEvent(FatalError(failure));
      }
    }

    method Return()
      requires Valid()
      modifies this`priority, this`app, this`unflushed, this`needsFlush, this`handshake, this`log, this`stage
      modifies methods, subs
      ensures View() == Finish(old(View()))
    {
      hide Settle;
      SettleAll();
      log := log + [Returned];
      stage := Stopped;
    }

    /** The head of the reconnect loop: the delay, then the announcement of an attempt. */
    method PaceAttempt(env: seq<Tick>, from: nat) returns (to: nat, next: Next)
      requires Valid() && stage.Top? && !shutdown && from <= |env|
      requires View() == Run(given, env, from)
      modifies this`clock, this`app, this`shutdown, this`log, this`stage, methods, subs, backoff
      ensures from <= to <= |env|
      ensures next.Again? ==> from < to && stage.Dialling? && View() == Run(given, env, to)
      ensures next.Starved? ==> to == |env| && View() == Run(given, env, to)
      ensures next.Done? ==> Finish(View()) == Run(given, env, to)
    {
      hide Run, Finish, Backoff.Drawn, Backoff.Window, Backoff.Bump;
      var roll;
      to, roll := AwaitRoll(env, from);
      if roll.None? {
        return to, Starved;
      }
      var delay := NextDelay(roll.value);
      if delay != 0 {
        stage := Idling(clock + delay);
        var woke;
        to, woke := IdleUntil(clock + delay, env, to);
        if !woke {
          return to, if shutdown then Done else Starved;
        }
      }
      Announce();
      next := Again;
    }

    /** One attempt: open a socket and drive it. */
    method Attempt(env: seq<Tick>, from: nat) returns (to: nat, next: Next)
      requires Valid() && stage.Dialling? && from <= |env|
      requires View() == Run(given, env, from)
      modifies Parts()
      ensures from <= to <= |env| && (liveness == old(liveness) || fresh(liveness))
      ensures next.Again? ==> Head(View()) == Run(given, env, to)
      ensures next.Starved? ==> to == |env| && View() == Run(given, env, to)
      ensures next.Done? ==> Finish(View()) == Run(given, env, to)
    {
      hide Run, Finish, Head, Unplugged, StartDriving, Settle;
      var isOpen;
      to, isOpen := Open(env, from);
      if isOpen.None? {
        return to, Starved;
      }
      if !isOpen.value {
        Disconnected();
        return to, Again;
      }
      var end;
      to, end := DriveSocket(env, to);
      match end {
        case None =>
          next := Starved;
        case Some(Gone) =>
          Disconnected();
          next := Again;
        case Some(other) =>
          CloseForGood(other);
          next := Done;
      }
    }

    /** The runner: for every environment, what it does is the run of the step system. */
    method Execute(env: seq<Tick>)
      requires Valid() && View() == Initial(given)
      modifies Parts()
      ensures View() == Run(given, env, |env|)
      ensures RunnerContract.Obeys(given.stableAfter, log) && log == RunnerStory.Told(given, env, |env|)
      ensures multiset(methods.replies) + multiset(subs.replies) == RunnerStory.StoryOf(given, env, |env|).given
    {
      hide Run, Finish, Initial, RunnerContract.Obeys, RunnerStory.Told, RunnerStory.StoryOf;
      RunIsTold(given, env);
      RunStarts(given, env);
      RunnerSafety.EveryRunObeys(given, env, |env|);
      var at := 0;
      while !shutdown
        invariant at <= |env| && (liveness == old(liveness) || fresh(liveness))
        invariant Head(View()) == Run(given, env, at)
        decreases |env| - at
      {
        stage := Top;
        var next;
        at, next := PaceAttempt(env, at);
        if next.Again? {
          at, next := Attempt(env, at);
        }
        if next.Starved? {
          return;
        }
        if next.Done? {
          break;
        }
      }
      FinishStops(View());
      Return();
      StoppedStays(given, env, at, |env|);
    }
  }

  /** How one pass of the reconnect loop ended. */
  datatype Next = Again | Starved | Done

  lemma RunIsTold(config: Config, env: seq<Tick>)
    requires config.Valid()
    ensures var s := Run(config, env, |env|);
            && s.log == RunnerStory.Told(config, env, |env|)
            && s.methods.handed + s.subs.handed == RunnerStory.StoryOf(config, env, |env|).given
  {
    hide Run, RunnerStory.Told, RunnerStory.StoryOf, RunnerKnowledge.Staged, RunnerKnowledge.Tuned,
         RunnerKnowledge.Wired, RunnerKnowledge.Frames, RunnerContract.Observe;
    RunnerRetold.EveryRunIsTold(config, env, |env|);
  }

  lemma FinishStops(s: State)
    ensures Finish(s).stage.Stopped?
  {
  }

  /** Emptying the queues and marking the unflushed calls commute. */
  lemma ClearedFirst(s: State)
    ensures MarkUnflushed(s.(priority := [], app := [])) == MarkUnflushed(s).(priority := [], app := [])
  {
    hide Correlate.Table.MarkSent, MethodIds, SubIds;
  }

  lemma RunStarts(config: Config, env: seq<Tick>)
    ensures Run(config, env, 0) == Head(Initial(config))
  {
  }

  lemma {:induction false} StoppedStays(config: Config, env: seq<Tick>, n: nat, m: nat)
    requires n <= m <= |env| && Run(config, env, n).stage.Stopped?
    ensures Run(config, env, m) == Run(config, env, n)
    decreases m
  {
    if n < m {
      StoppedStays(config, env, n, m - 1);
    }
  }

  lemma StartsDriving(s: State)
    ensures StartDriving(s).stage.Driving?
  {
  }

  /** What the socket loop makes of one reported turn. */
  function AfterTurn(s: State, turn: Turn): State {
    match turn
    case Inbound(frame, hungUp) => var (next, outcome) := OnFrame(s, frame, hungUp); Conclude(next, outcome)
    case Eof => Conclude(s, Some(Closed))
    case SocketError => Conclude(s, Some(Closed))
    case Asked(command, listening) => Conclude(HandleCommand(s, command, listening), None)
    case Abandoned => Conclude(s, Some(ShutDown))
    case Deadline => var (next, outcome) := OnDeadline(s); Conclude(next, outcome)
  }

  lemma MarkNone(t: Correlate.Table)
    ensures t.MarkSent({}) == t
    ensures MethodIds([]) == {} && SubIds([]) == {}
  {
    assert t.MarkSent({}).pending == t.pending;
  }

  lemma MarkOneMore(m: Correlate.Table, b: Correlate.Table, marks: seq<Mark>, i: nat)
    requires i < |marks|
    ensures var before, after := marks[..i], marks[..i + 1];
            match marks[i]
            case MethodMark(id) =>
              m.MarkSent(MethodIds(before)).MarkSent({id}) == m.MarkSent(MethodIds(after)) &&
                SubIds(after) == SubIds(before)
            case SubMark(id) =>
              b.MarkSent(SubIds(before)).MarkSent({id}) == b.MarkSent(SubIds(after)) &&
                MethodIds(after) == MethodIds(before)
  {
    var before, after := marks[..i], marks[..i + 1];
    assert after == before + [marks[i]];
    assert forall mark :: mark in after <==> mark in before || mark == marks[i];
    match marks[i] {
      case MethodMark(id) =>
        assert MethodIds(after) == MethodIds(before) + {id};
        assert m.MarkSent(MethodIds(before)).MarkSent({id}).pending == m.MarkSent(MethodIds(after)).pending;
      case SubMark(id) =>
        assert SubIds(after) == SubIds(before) + {id};
        assert b.MarkSent(SubIds(before)).MarkSent({id}).pending == b.MarkSent(SubIds(after)).pending;
    }
  }
}
