/**
 * The connection runner as a step system: one state value, one total step function.
 *
 * The environment (network, server, callers, clock, random generator) is a sequence of
 * `Tick`s: whatever becomes ready next, and when. A tick the runner is not waiting for leaves
 * it unchanged, so every sequence of ticks is a run.
 */
module RunnerModel {
  import opened Prelude
  import opened Protocol
  import Backoff
  import Correlate
  import Liveness
  import Session

  datatype Config = Config(
    credential: seq<Json>, pingAfter: nat, deadAfter: nat, handshakeTimeout: nat,
    outboxCapacity: nat, backoffBase: nat, backoffCap: nat, stableAfter: nat)
  {
    /** The thresholds the constructor insists on. */
    predicate Valid() {
      pingAfter < deadAfter
    }

    /** A zero outbox would never accept a command again, so it is clamped. */
    function Clamped(): Config {
      this.(outboxCapacity := if outboxCapacity == 0 then 1 else outboxCapacity)
    }
  }

  // ---- the environment -----------------------------------------------------------------

  datatype Command =
    | Call(name: string, params: seq<Json>)
    | Subscribe(name: string, params: seq<Json>)
    | Unsubscribe(id: string)
    | Shutdown

  datatype Inbound = Text(message: ServerMessage) | Undecodable | CloseFrame | Ignored

  datatype Happening =
    | Jitter(roll: nat)                                // the random generator, at the loop head
    | Wake                                             // the reconnect delay ran out
    | Dialled                                          // the socket opened
    | DialFailed
    | SinkTakes                                        // the sink is ready and accepts a frame
    | SinkFails                                        // not ready, or the send was refused
    | FlushDone
    | FlushFails
    | Arrives(frame: Inbound, hungUp: set<string>)     // a frame, and the callers gone by then
    | EndOfStream
    | ReadFails
    | Asks(command: Command, listening: bool)          // a command, and whether its caller still waits
    | HandlesDropped
    | TimerFires

  datatype Tick = Tick(at: nat, what: Happening)

  // ---- what a run leaves behind --------------------------------------------------------

  datatype Lane = Protocol | Application

  datatype Event =
    | Connecting(attempt: nat)
    | ConnectedTo(session: string)
    | ReadyNow(epoch: nat)
    | Resubscribe(epoch: nat)
    | Frame(message: ServerMessage)
    | Disconnected
    | FatalError(fatal: Session.Fatal)

  /** One observable fact about a run. */
  datatype Fact =
    | Opened                                           // a socket opened
    | Accepted(lane: Lane, frame: ClientMessage)       // the sink accepted a frame
    | Received(message: ServerMessage)
    | Registered(id: string)
    | Resolved(id: string)                             // a reply left the table for its caller
    | Cancelled(id: string)
    | Dropped(id: string)                              // a reply discarded as stale
    | Settled(errors: map<string, Correlate.CallError>)  // every waiter handed its error
    | Doomed(fatal: Session.Fatal)                     // the session failed terminally
    | Emitted(event: Event, at: nat)
    | Returned                                         // the runner stopped

  // ---- the state -----------------------------------------------------------------------

  datatype Mark = MethodMark(id: string) | SubMark(id: string)

  datatype Outbound = Outbound(frame: ClientMessage, mark: Option<Mark>)

  datatype Stage = Top | Idling(until: nat) | Dialling | Driving | Stopped

  datatype Outcome = Closed | ShutDown

  datatype State = State(
    config: Config,
    stage: Stage,
    session: Session.Lifecycle,
    methods: Correlate.Table,
    subs: Correlate.Table,
    liveness: Liveness.Watchdog,
    attempt: nat,
    priority: seq<Outbound>,
    app: seq<Outbound>,
    unflushed: seq<Mark>,
    needsFlush: bool,
    readyAt: Option<nat>,
    timer: nat,
    handshake: Option<nat>,
    fatal: Option<Session.Fatal>,
    shutdown: bool,
    clock: nat,
    log: seq<Fact>)

  function Initial(config: Config): State {
    State(config.Clamped(), Top, Session.NewLifecycle(DDP_VERSION),
          Correlate.NewTable("m"), Correlate.NewTable("s"),
          Liveness.Watchdog(config.pingAfter, config.deadAfter, 0, false),
          0, [], [], [], false, None, 0, None, None, false, 0, [])
  }

  // ---- small operations ----------------------------------------------------------------

  function Note(s: State, fact: Fact): State {
    s.(log := s.log + [fact])
  }

  function Emit(s: State, event: Event): State {
    Note(s, Emitted(event, s.clock))
  }

  function PushPriority(s: State, frame: ClientMessage, mark: Option<Mark>): State {
    s.(priority := s.priority + [Outbound(frame, mark)])
  }

  function PushApp(s: State, frame: ClientMessage, mark: Option<Mark>): State {
    s.(app := s.app + [Outbound(frame, mark)])
  }

  function RegisterMethod(s: State): State {
    Note(s.(methods := s.methods.Register()), Registered(s.methods.NextCall()))
  }

  function RegisterSub(s: State): State {
    Note(s.(subs := s.subs.Register()), Registered(s.subs.NextCall()))
  }

  /** The facts one reply leaves behind: none for an unknown id. */
  function ReplyFact(id: string, resolution: Correlate.Resolution): seq<Fact> {
    match resolution
    case UnknownCall => []
    case StaleEpoch => [Dropped(id)]
    case _ => [Resolved(id)]
  }

  /** What a caller is told by a frame that answers its call: the error, else the result, else null. */
  function Answer(message: ServerMessage): Prelude.Result<Json, DdpError> {
    match message
    case Result(_, result, error) =>
      if error.Some? then Prelude.Failure(error.value)
      else Prelude.Success(if result.Some? then result.value else JsonNull)
    case Nosub(_, error) => if error.Some? then Prelude.Failure(error.value) else Prelude.Success(JsonNull)
    case _ => Prelude.Success(JsonNull)
  }

  function ResolveMethod(
      s: State, id: string, outcome: Prelude.Result<Json, DdpError>, hungUp: set<string>): State
  {
    s.(methods := s.methods.Resolve(id, outcome, id !in hungUp),
       log := s.log + ReplyFact(id, s.methods.Outcome(id, id !in hungUp)))
  }

  function ResolveSub(s: State, id: string, outcome: Prelude.Result<Json, DdpError>, hungUp: set<string>): State {
    s.(subs := s.subs.Resolve(id, outcome, id !in hungUp),
       log := s.log + ReplyFact(id, s.subs.Outcome(id, id !in hungUp)))
  }

  function ResolveSubs(s: State, ids: seq<string>, hungUp: set<string>): State
    decreases |ids|
  {
    if ids == [] then s
    else ResolveSubs(ResolveSub(s, ids[0], Prelude.Success(JsonNull), hungUp), ids[1..], hungUp)
  }

  function MethodIds(marks: seq<Mark>): set<string> {
    set mark | mark in marks && mark.MethodMark? :: mark.id
  }

  function SubIds(marks: seq<Mark>): set<string> {
    set mark | mark in marks && mark.SubMark? :: mark.id
  }

  /** Every frame handed to the sink counts as sent. */
  function MarkUnflushed(s: State): State {
    s.(methods := s.methods.MarkSent(MethodIds(s.unflushed)),
       subs := s.subs.MarkSent(SubIds(s.unflushed)),
       unflushed := [],
       needsFlush := false)
  }

  /** Both lanes are emptied, and each waiter learns whether its call may be repeated. */
  function Settle(s: State): State {
    var m := MarkUnflushed(s);
    Note(m.(priority := [], app := [], handshake := None,
            methods := m.methods.Disconnect(), subs := m.subs.Disconnect()),
         Settled(m.methods.Verdicts() + m.subs.Verdicts()))
  }

  /** A session that stayed ready long enough earns an immediate retry. */
  function AfterLoss(s: State): State {
    var stable := s.readyAt.Some? && s.clock - s.readyAt.value >= s.config.stableAfter;
    s.(readyAt := None, attempt := if stable then 0 else s.attempt)
  }

  function Finish(s: State): State {
    Note(Settle(s), Returned).(stage := Stopped)
  }

  /** The reconnect loop's guard. */
  function Head(s: State): State {
    if s.shutdown then Finish(s) else s.(stage := Top)
  }

  function Unplugged(s: State): State {
    var after := AfterLoss(s);
    Emit(Settle(after.(session := after.session.Disconnect())), Disconnected)
  }

  function Lost(s: State): State {
    Head(Unplugged(s))
  }

  // ---- inbound frames ------------------------------------------------------------------

  function Apply(s: State, action: Session.Action): State {
    match action
    case Send(frame) => PushPriority(s, frame, None)
    case Login =>
      var id := s.methods.NextCall();
      var registered := RegisterMethod(s);
      PushPriority(registered.(session := registered.session.ExpectLogin(id)),
                   Method(id, "login", s.config.credential), Some(MethodMark(id)))
    case Resubscribe =>
      Emit(Emit(s.(handshake := None, readyAt := Some(s.clock)), ReadyNow(s.methods.epoch)),
           Event.Resubscribe(s.methods.epoch))
    case Stop(fatal) => Note(s.(fatal := Some(fatal)), Doomed(fatal))
    case ProtocolViolation(_) => s
  }

  function ApplyAll(s: State, actions: seq<Session.Action>): State
    decreases |actions|
  {
    if actions == [] then s else ApplyAll(Apply(s, actions[0]), actions[1..])
  }

  function Route(s: State, message: ServerMessage, hungUp: set<string>): State {
    match message
    case Result(id, _, _) => ResolveMethod(s, id, Answer(message), hungUp)
    case SubsReady(ids) => ResolveSubs(s, ids, hungUp)
    case Nosub(id, _) => ResolveSub(s, id, Answer(message), hungUp)
    case _ => s
  }

  function Announce(s: State, message: ServerMessage): State {
    if message.Connected? then Emit(s, ConnectedTo(message.session))
    else if message.IsForwarded() then Emit(s, Frame(message))
    else s
  }

  function OnText(s: State, message: ServerMessage, hungUp: set<string>): State {
    var heard := Note(s, Received(message));
    var (session, actions) := heard.session.Handle(message);
    Announce(Route(ApplyAll(heard.(session := session), actions), message, hungUp), message)
  }

  function OnFrame(s: State, frame: Inbound, hungUp: set<string>): (State, Option<Outcome>) {
    var seen := s.(liveness := s.liveness.SawTraffic(s.clock));
    match frame
    case Text(message) => (OnText(seen, message, hungUp), None)
    case CloseFrame => (seen, Some(Closed))
    case _ => (seen, None)
  }

  // ---- commands and timers -------------------------------------------------------------

  function HandleCommand(s: State, command: Command, listening: bool): State {
    match command
    case Call(name, params) =>
      var id := s.methods.NextCall();
      var r := RegisterMethod(s);
      if !listening then Note(r.(methods := r.methods.Forget(id)), Cancelled(id))
      else PushApp(r, Method(id, name, params), Some(MethodMark(id)))
    case Subscribe(name, params) =>
      var id := s.subs.NextCall();
      var r := RegisterSub(s);
      if !listening then Note(r.(subs := r.subs.Forget(id)), Cancelled(id))
      else PushApp(r, Sub(id, name, params), Some(SubMark(id)))
    case Unsubscribe(id) => PushApp(s, Unsub(id), None)
    case Shutdown => s.(shutdown := true)
  }

  function OnDeadline(s: State): (State, Option<Outcome>) {
    var s := if s.session.phase.Ready? then s.(handshake := None) else s;
    if s.handshake.Some? && s.clock >= s.handshake.value then (s, Some(Closed))
    else
      var verdict := s.liveness.Judge(s.clock);
      var polled := s.(liveness := s.liveness.Poll(s.clock));
      match verdict
      case Healthy => (polled, None)
      case SendPing => (PushPriority(polled, Ping(None), None), None)
      case Dead => (polled, Some(Closed))
  }

  function ArmTimer(s: State): State {
    var silent := s.liveness.NextDeadline(s.clock);
    s.(timer := if s.handshake.Some? && s.handshake.value < silent then s.handshake.value else silent)
  }

  // ---- stages --------------------------------------------------------------------------

  function Dial(s: State): State {
    Emit(s, Connecting(if s.attempt == 0 then 0 else s.attempt - 1)).(stage := Dialling)
  }

  /** The head of the reconnect loop. */
  function Pace(s: State, roll: nat): State {
    var delay := Backoff.Drawn(
                   Backoff.Window(s.config.backoffBase, s.config.backoffCap, s.attempt), roll);
    var paced := s.(attempt := Backoff.Bump(s.attempt));
    if delay == 0 then Dial(paced) else paced.(stage := Idling(s.clock + delay))
  }

  function StartDriving(s: State): State {
    var (session, action) := s.session.Connect();
    ArmTimer(Apply(Note(s.(
      stage := Driving,
      session := session,
      liveness := Liveness.Watchdog(s.config.pingAfter, s.config.deadAfter, s.clock, false),
      handshake := Some(s.clock + s.config.handshakeTimeout)), Opened), action))
  }

  /** How driving one socket ended. */
  datatype End = Gone | Quit | Terminal(fatal: Session.Fatal)

  /** A terminal failure outranks a shutdown, which outranks a closure. */
  function EndOf(s: State, outcome: Option<Outcome>): Option<End> {
    if s.fatal.Some? then Some(Terminal(s.fatal.value))
    else if s.shutdown || outcome == Some(ShutDown) then Some(Quit)
    else if outcome == Some(Closed) then Some(Gone)
    else None
  }

  function Close(s: State, end: End): State {
    match end
    case Gone => Lost(s)
    case Quit =>
      var settled := Settle(s);
      Finish(settled.(session := settled.session.Disconnect()))
    case Terminal(fatal) => Finish(Emit(Settle(s), FatalError(fatal)))
  }

  /** Where a finished turn leads. */
  function Conclude(s: State, outcome: Option<Outcome>): State {
    match EndOf(s, outcome)
    case None => ArmTimer(s)
    case Some(end) => Close(s.(fatal := None), end)
  }

  predicate CanWrite(s: State) {
    s.priority != [] || (s.session.phase.Ready? && s.app != [])
  }

  predicate TakesCommands(s: State) {
    |s.app| < s.config.outboxCapacity
  }

  function Noted(marks: seq<Mark>, mark: Option<Mark>): seq<Mark> {
    if mark.Some? then marks + [mark.value] else marks
  }

  /** Protocol frames first, always; application frames only once ready. */
  function WriteOne(s: State): State
    requires CanWrite(s)
  {
    var fromPriority := s.priority != [];
    var out := if fromPriority then s.priority[0] else s.app[0];
    Note(s.(priority := if fromPriority then s.priority[1..] else s.priority,
            app := if fromPriority then s.app else s.app[1..],
            unflushed := Noted(s.unflushed, out.mark),
            needsFlush := true),
         Accepted(if fromPriority then Protocol else Application, out.frame))
  }

  function Drive(s: State, what: Happening): State
    requires s.stage.Driving?
  {
    match what
    case SinkTakes => if CanWrite(s) then WriteOne(s) else s
    case SinkFails => if CanWrite(s) then Conclude(s, Some(Closed)) else s
    case FlushDone => if s.needsFlush then MarkUnflushed(s) else s
    case FlushFails => if s.needsFlush then Conclude(s, Some(Closed)) else s
    case Arrives(frame, hungUp) =>
      var (next, outcome) := OnFrame(s, frame, hungUp);
      Conclude(next, outcome)
    case EndOfStream => Conclude(s, Some(Closed))
    case ReadFails => Conclude(s, Some(Closed))
    case Asks(command, listening) =>
      if TakesCommands(s) then Conclude(HandleCommand(s, command, listening), None) else s
    case HandlesDropped => if TakesCommands(s) then Conclude(s, Some(ShutDown)) else s
    case TimerFires =>
      if s.clock < s.timer then s
      else
        var (next, outcome) := OnDeadline(s);
        Conclude(next, outcome)
    case _ => s
  }

  function Idle(s: State, what: Happening): State
    requires s.stage.Idling?
  {
    match what
    case Wake => if s.clock >= s.stage.until then Dial(s) else s
    case Asks(command, listening) =>
      if !TakesCommands(s) then s
      else
        var handled := HandleCommand(s, command, listening);
        if handled.shutdown then Finish(handled) else handled
    case HandlesDropped => if TakesCommands(s) then Finish(s.(shutdown := true)) else s
    case _ => s
  }

  /** The clock never runs backwards; a tick from the past is ignored. */
  function Step(s: State, tick: Tick): State {
    if tick.at < s.clock || s.stage.Stopped? then s
    else
      var s := s.(clock := tick.at);
      match s.stage
      case Top => if tick.what.Jitter? then Pace(s, tick.what.roll) else s
      case Idling(_) => Idle(s, tick.what)
      case Dialling =>
        if tick.what.Dialled? then StartDriving(s)
        else if tick.what.DialFailed? then Lost(s)
        else s
      case Driving => Drive(s, tick.what)
      case Stopped => s
  }

  /** The state after the first `n` ticks of `env`. */
  function Run(config: Config, env: seq<Tick>, n: nat): State
    requires n <= |env|
  {
    if n == 0 then Initial(config) else Step(Run(config, env, n - 1), env[n - 1])
  }
}
