/**
 * The runner retold from outside: a reader of the ticks keeps a few counts and lists, and from these
 * says which facts each tick leaves behind. There are no tables, phases, marks or timers in it.
 */
module RunnerStory {
  import opened Prelude
  import opened Protocol
  import opened RunnerModel
  import opened RunnerContract
  import Backoff
  import Correlate
  import Session

  /** Between attempts, with an attempt announced, with a socket open, or returned. */
  datatype Life = Resting | Announced | Online | Over

  datatype Story = Story(
    clock: nat,
    life: Life,
    pause: Option<nat>,              // while resting: when the pause before the next attempt ends, once it began
    outage: nat,                     // attempts announced since the start or the latest loss of a stable session
    readySince: Option<nat>,
    ready: bool,                     // the socket's session is logged in
    login: Option<string>,           // the socket's login call that is not yet answered
    heardAt: nat,                    // when the socket opened or last brought anything
    probed: bool,                    // whether it was probed since
    budget: Option<nat>,             // when its handshake must be over, unless it is
    dirty: bool,                     // whether it accepted anything since its last flush
    due: seq<ClientMessage>,         // protocol frames owed on the socket, and those it accepted
    sent: seq<ClientMessage>,
    asked: seq<ClientMessage>,       // application frames asked for since the last settling, and those accepted
    written: seq<ClientMessage>,
    calls: nat,                      // method calls and subscriptions registered
    subs: nat,
    ids: Ids,
    given: multiset<(string, Correlate.Reply)>)   // what callers were handed, and for which call

  const BEGINNING := Story(
    0, Resting, None, 0, None, false, None, 0, false, None, false, [], [], [], [], 0, 0,
    Ids({}, {}, {}, {}, 0), multiset{})

  // ---- what a tick is about --------------------------------------------------------------------------

  /** The delay before an attempt, given how many were announced in this outage. */
  function Delay(config: Config, outage: nat, roll: nat): nat {
    Backoff.Drawn(Backoff.Window(config.backoffBase, config.backoffCap, outage), roll)
  }

  function Room(config: Config): nat {
    if config.outboxCapacity == 0 then 1 else config.outboxCapacity
  }

  /** Commands are taken while pausing and while online, as long as fewer frames wait than there is room for. */
  predicate Serves(config: Config, t: Story) {
    && (t.life.Online? || (t.life.Resting? && t.pause.Some?))
    && |t.asked| - |t.written| < Room(config)
  }

  function Silence(t: Story): nat {
    if t.clock >= t.heardAt then t.clock - t.heardAt else 0
  }

  /** The socket is given up: the handshake took too long, or nothing came for too long. */
  predicate GivesUp(config: Config, t: Story) {
    (t.budget.Some? && t.clock >= t.budget.value) || Silence(t) >= config.deadAfter
  }

  predicate Probes(config: Config, t: Story) {
    !GivesUp(config, t) && Silence(t) >= config.pingAfter && !t.probed
  }

  predicate HasToWrite(t: Story) {
    |t.sent| < |t.due| || (t.ready && |t.written| < |t.asked|)
  }

  /** The call is registered and has not left its table. */
  predicate Waits(ids: Ids, id: string) {
    id in ids.registered && id !in ids.settled
  }

  predicate IsCall(id: string) {
    id != "" && id[0] == 'm'
  }

  predicate IsSub(id: string) {
    id != "" && id[0] == 's'
  }

  /** The calls a frame answers, in order. */
  function Answered(message: ServerMessage): seq<string> {
    match message
    case Result(id, _, _) => if IsCall(id) then [id] else []
    case Nosub(id, _) => if IsSub(id) then [id] else []
    case SubsReady(ids) => Subs(ids)
    case _ => []
  }

  function Subs(ids: seq<string>): seq<string> {
    if ids == [] then [] else (if IsSub(ids[0]) then [ids[0]] else []) + Subs(ids[1..])
  }

  /** What it answers them with: its error, else its result, else null. */
  function Verdict(message: ServerMessage): Correlate.Reply {
    var error := if message.Result? || message.Nosub? then message.error else None;
    if error.Some? then Correlate.Reply.Failure(Correlate.Server(error.value))
    else if message.Result? && message.result.Some? then Correlate.Reply.Success(message.result.value)
    else Correlate.Reply.Success(JsonNull)
  }

  /** Why a login was refused: an expired session, if the server says so in either text; else a rejection. */
  function Refusal(error: DdpError): Session.Fatal {
    var detail := if error.reason.Some? then error.reason.value
                  else if error.message.Some? then error.message.value
                  else error.code;
    if (error.reason.Some? && SaysExpired(error.reason.value)) ||
       (error.message.Some? && SaysExpired(error.message.value))
    then Session.SessionExpired(detail)
    else Session.LoginRejected(detail)
  }

  predicate SaysExpired(text: string) {
    exists i | 0 <= i <= |text| ::
      "been logged out by the server" <= text[i..] || "session has expired" <= text[i..]
  }

  // ---- the facts a tick leaves behind ------------------------------------------------------------------

  /** Everyone who waits: told `Abandoned` if this socket accepted the frame, `NotSent` if not. */
  function Errors(ids: Ids): map<string, Correlate.CallError> {
    map id | id in ids.registered - ids.settled ::
      if id in ids.carried then Correlate.Abandoned(id) else Correlate.NotSent
  }

  function Announcement(t: Story): seq<Fact> {
    [Emitted(Connecting(Backoff.Min(t.outage, Backoff.U32_MAX - 1)), t.clock)]
  }

  function Loss(t: Story): seq<Fact> {
    [Settled(Errors(t.ids)), Emitted(Disconnected, t.clock)]
  }

  function Goodbye(t: Story): seq<Fact> {
    if t.life.Online? then [Settled(Errors(t.ids)), Settled(map[]), Returned] else [Settled(Errors(t.ids)), Returned]
  }

  function Downfall(t: Story, ids: Ids, fatal: Session.Fatal): seq<Fact> {
    [Settled(Errors(ids)), Emitted(FatalError(fatal), t.clock), Settled(map[]), Returned]
  }

  /** A command registers its call, and drops it at once if its caller is gone. */
  function Orders(t: Story, command: Command, listening: bool): seq<Fact> {
    match command
    case Call(_, _) =>
      var id := Correlate.IdOf("m", t.calls); [Registered(id)] + if listening then [] else [Cancelled(id)]
    case Subscribe(_, _) =>
      var id := Correlate.IdOf("s", t.subs); [Registered(id)] + if listening then [] else [Cancelled(id)]
    case Unsubscribe(_) => []
    case Shutdown => Goodbye(t)
  }

  /** The frame is the answer to the socket's login. */
  predicate AnswersLogin(t: Story, message: ServerMessage) {
    message.Result? && t.login == Some(message.id)
  }

  /** What the frame means for the session. */
  function Turning(t: Story, message: ServerMessage): seq<Fact> {
    if message.Connected? then [Registered(Correlate.IdOf("m", t.calls))]
    else if message.Failed? then [Doomed(Session.VersionMismatch(DDP_VERSION, message.version))]
    else if AnswersLogin(t, message) && message.error.Some? then [Doomed(Refusal(message.error.value))]
    else if AnswersLogin(t, message) then
      var epoch := t.ids.settles % Correlate.EPOCHS;
      [Emitted(ReadyNow(epoch), t.clock), Emitted(Event.Resubscribe(epoch), t.clock)]
    else []
  }

  /** Whoever waits for one of these is answered, once. */
  function Replies(ids: Ids, answered: seq<string>): seq<Fact>
    decreases |answered|
  {
    if answered == [] then []
    else if Waits(ids, answered[0]) then
      [Resolved(answered[0])] + Replies(SeeIds(ids, Resolved(answered[0])), answered[1..])
    else Replies(ids, answered[1..])
  }

  /** What the application is told of a frame: a new session, a collection frame, an error report. */
  function News(t: Story, message: ServerMessage): seq<Fact> {
    match message
    case Connected(session) => [Emitted(ConnectedTo(session), t.clock)]
    case Added(_, _) => [Emitted(Frame(message), t.clock)]
    case Changed(_, _) => [Emitted(Frame(message), t.clock)]
    case Removed(_, _) => [Emitted(Frame(message), t.clock)]
    case AddedBefore(_, _) => [Emitted(Frame(message), t.clock)]
    case MovedBefore(_, _) => [Emitted(Frame(message), t.clock)]
    case Error(_) => [Emitted(Frame(message), t.clock)]
    case _ => []
  }

  /** The frame itself, what it means for the session, whom it answers, and what the application is told. */
  function Reading(t: Story, message: ServerMessage): seq<Fact> {
    [Received(message)] + Turning(t, message) + Replies(t.ids, Answered(message)) + News(t, message)
  }

  /** Why the session is over for good, if the frame says so. */
  function Doom(t: Story, message: ServerMessage): Option<Session.Fatal> {
    if message.Failed? then Some(Session.VersionMismatch(DDP_VERSION, message.version))
    else if AnswersLogin(t, message) && message.error.Some? then Some(Refusal(message.error.value))
    else None
  }

  function SeeAll(ids: Ids, facts: seq<Fact>): Ids
    decreases |facts|
  {
    if facts == [] then ids else SeeAll(SeeIds(ids, facts[0]), facts[1..])
  }

  function Hearing(t: Story, frame: Inbound): seq<Fact> {
    match frame
    case Text(message) =>
      var reading := Reading(t, message);
      reading + (match Doom(t, message)
                 case Some(fatal) => Downfall(t, SeeAll(t.ids, reading), fatal)
                 case None => [])
    case CloseFrame => Loss(t)
    case _ => []
  }

  /** The frame the sink is given: what is owed comes first, then what was asked for. */
  function Writing(t: Story): seq<Fact>
    requires HasToWrite(t)
  {
    if |t.sent| < |t.due| then [Accepted(Protocol, t.due[|t.sent|])]
    else [Accepted(Application, t.asked[|t.written|])]
  }

  function Socket(config: Config, t: Story, what: Happening): seq<Fact> {
    match what
    case SinkTakes => if HasToWrite(t) then Writing(t) else []
    case SinkFails => if HasToWrite(t) then Loss(t) else []
    case FlushFails => if t.dirty then Loss(t) else []
    case Arrives(frame, _) => Hearing(t, frame)
    case EndOfStream => Loss(t)
    case ReadFails => Loss(t)
    case TimerFires => if GivesUp(config, t) then Loss(t) else []
    case _ => []
  }

  /** The facts the tick leaves behind; the clock of `t` is already the tick's. */
  function Due(config: Config, t: Story, what: Happening): seq<Fact> {
    if what.Asks? then if Serves(config, t) then Orders(t, what.command, what.listening) else []
    else if what.HandlesDropped? then if Serves(config, t) then Goodbye(t) else []
    else
      match t.life
      case Resting =>
        if t.pause.None? then
          if what.Jitter? && Delay(config, t.outage, what.roll) == 0 then Announcement(t) else []
        else if what.Wake? && t.clock >= t.pause.value then Announcement(t)
        else []
      case Announced => if what.Dialled? then [Opened] else if what.DialFailed? then Loss(t) else []
      case Online => Socket(config, t, what)
      case Over => []
  }

  // ---- keeping the counts and lists ------------------------------------------------------------------------

  /** What the tick changes without leaving a fact behind. */
  function Unspoken(config: Config, t: Story, what: Happening): Story {
    match what
    case Jitter(roll) =>
      if t.life.Resting? && t.pause.None? && Delay(config, t.outage, roll) > 0 then
        t.(pause := Some(t.clock + Delay(config, t.outage, roll)))
      else t
    case Arrives(_, _) => if t.life.Online? then t.(heardAt := t.clock, probed := false) else t
    case FlushDone => t.(dirty := false)
    case TimerFires =>
      if t.life.Online? && Probes(config, t) then t.(probed := true, due := t.due + [Ping(None)]) else t
    case Asks(command, _) =>
      if command.Unsubscribe? && Serves(config, t) then t.(asked := t.asked + [Unsub(command.id)]) else t
    case _ => t
  }

  /** The frame a registered call is asked for with, if its caller still listens. */
  function Ordered(what: Happening, id: string): seq<ClientMessage> {
    if !what.Asks? || !what.listening then []
    else
      match what.command
      case Call(name, params) => [Method(id, name, params)]
      case Subscribe(name, params) => [Sub(id, name, params)]
      case _ => []
  }

  function Read(config: Config, t: Story, what: Happening, fact: Fact): Story {
    ReadRest(config, t, what, fact).(ids := SeeIds(t.ids, fact))
  }

  function ReadRest(config: Config, t: Story, what: Happening, fact: Fact): Story {
    match fact
    case Opened =>
      t.(life := Online, ready := false, login := None, heardAt := t.clock, probed := false,
         budget := Some(t.clock + config.handshakeTimeout),
         due := [ClientMessage.Connect(DDP_VERSION, [DDP_VERSION])], sent := [])
    case Accepted(lane, frame) =>
      if lane.Protocol? then t.(sent := t.sent + [frame], dirty := true)
      else t.(written := t.written + [frame], dirty := true)
    case Received(message) =>
      t.(ready := t.ready && !message.Connected?,
         login := if AnswersLogin(t, message) then None else t.login,
         due := t.due + if message.ServerPing? then [Pong(message.pingId)] else [])
    case Registered(id) =>
      if what.Arrives? then
        t.(calls := t.calls + 1, login := Some(id), due := t.due + [Method(id, "login", config.credential)])
      else
        t.(calls := t.calls + if what.Asks? && what.command.Call? then 1 else 0,
           subs := t.subs + if what.Asks? && what.command.Subscribe? then 1 else 0,
           asked := t.asked + Ordered(what, id))
    case Resolved(id) =>
      if what.Arrives? && what.frame.Text? && id !in what.hungUp
      then t.(given := t.given + multiset{(id, Verdict(what.frame.message))})
      else t
    case Settled(errors) =>
      t.(life := Resting, pause := None, ready := false, login := None, budget := None, dirty := false,
         asked := [], written := [], given := t.given + Correlate.Errors(errors))
    case Doomed(_) => t.(ready := false)
    case Emitted(event, at) =>
      (match event
       case Connecting(_) => t.(life := Announced, outage := t.outage + 1, pause := None)
       case ReadyNow(_) => t.(ready := true, readySince := Some(at), budget := None)
       case Disconnected =>
         var stable := t.readySince.Some? && at - t.readySince.value >= config.stableAfter;
         t.(outage := if stable then 0 else t.outage, readySince := None)
       case _ => t)
    case Returned => t.(life := Over)
    case _ => t
  }

  function ReadAll(config: Config, t: Story, what: Happening, facts: seq<Fact>): Story
    decreases |facts|
  {
    if facts == [] then t else ReadAll(config, Read(config, t, what, facts[0]), what, facts[1..])
  }

  /** A tick from the past, or after the return, is nothing. */
  predicate Counts(t: Story, tick: Tick) {
    tick.at >= t.clock && !t.life.Over?
  }

  function Tell(config: Config, t: Story, tick: Tick): Story {
    if !Counts(t, tick) then t
    else
      var now := t.(clock := tick.at);
      ReadAll(config, Unspoken(config, now, tick.what), tick.what, Due(config, now, tick.what))
  }

  function Facts(config: Config, t: Story, tick: Tick): seq<Fact> {
    if Counts(t, tick) then Due(config, t.(clock := tick.at), tick.what) else []
  }

  /** The story after the first `n` ticks. */
  function StoryOf(config: Config, env: seq<Tick>, n: nat): Story
    requires n <= |env|
  {
    if n == 0 then BEGINNING else Tell(config, StoryOf(config, env, n - 1), env[n - 1])
  }

  /** All the facts of the first `n` ticks. */
  function Told(config: Config, env: seq<Tick>, n: nat): seq<Fact>
    requires n <= |env|
  {
    if n == 0 then []
    else Told(config, env, n - 1) + Facts(config, StoryOf(config, env, n - 1), env[n - 1])
  }
}
