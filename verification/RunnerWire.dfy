/**
 * What every run puts on the wire, told from the log and the ticks: the frames commands asked for, the frames the
 * protocol owes, which of them the sink is given next, and when the watchdog speaks up.
 */
module RunnerWire {
  import opened Prelude
  import opened Protocol
  import opened RunnerModel
  import opened RunnerContract
  import opened RunnerStory
  import opened RunnerLog
  import opened RunnerPacing
  import Correlate
  import K = RunnerKnowledge
  import Retold = RunnerRetold
  import Session
  import T = RunnerTheorems

  // ---- told from the log alone ----------------------------------------------------------------------------

  /** Application frames accepted since the latest settling. */
  function Written(log: seq<Fact>): seq<ClientMessage> {
    if log == [] then []
    else
      match log[|log| - 1]
      case Accepted(Application, frame) => Written(log[..|log| - 1]) + [frame]
      case Settled(_) => []
      case _ => Written(log[..|log| - 1])
  }

  /** Protocol frames accepted since the latest socket opened. */
  function Sent(log: seq<Fact>): seq<ClientMessage> {
    if log == [] then []
    else
      match log[|log| - 1]
      case Accepted(Protocol, frame) => Sent(log[..|log| - 1]) + [frame]
      case Opened => []
      case _ => Sent(log[..|log| - 1])
  }

  /** The session of the socket is logged in. */
  predicate LoggedIn(log: seq<Fact>) {
    log != [] &&
    match log[|log| - 1]
    case Emitted(ReadyNow(_), _) => true
    case Received(Connected(_)) => false
    case Opened => false
    case Settled(_) => false
    case Doomed(_) => false
    case _ => LoggedIn(log[..|log| - 1])
  }

  predicate MintsCall(fact: Fact) {
    fact.Registered? && IsCall(fact.id)
  }

  predicate MintsSub(fact: Fact) {
    fact.Registered? && IsSub(fact.id)
  }

  /** Registrations are either of calls or of subscriptions, as the tick says. */
  predicate Mints(what: Happening, fact: Fact) {
    fact.Registered? ==>
      if what.Asks? && what.command.Subscribe? then IsSub(fact.id)
      else IsCall(fact.id) && (what.Arrives? || (what.Asks? && what.command.Call?))
  }

  /** What the log says of the story. */
  predicate Logged(t: Story, log: seq<Fact>) {
    && t.written == Written(log) && t.sent == Sent(log) && (t.ready <==> LoggedIn(log))
    && t.calls == T.Count(log, MintsCall) && t.subs == T.Count(log, MintsSub)
  }

  lemma ReadingWritten(config: Config, t: Story, what: Happening, log: seq<Fact>, fact: Fact)
    requires t.written == Written(log)
    ensures Read(config, t, what, fact).written == Written(log + [fact])
  {
    assert (log + [fact])[..|log|] == log;
    hide SeeIds, Ordered, Correlate.Errors, Verdict, AnswersLogin;
  }

  lemma ReadingSent(config: Config, t: Story, what: Happening, log: seq<Fact>, fact: Fact)
    requires t.sent == Sent(log)
    ensures Read(config, t, what, fact).sent == Sent(log + [fact])
  {
    assert (log + [fact])[..|log|] == log;
    hide SeeIds, Ordered, Correlate.Errors, Verdict, AnswersLogin;
  }

  lemma ReadingReady(config: Config, t: Story, what: Happening, log: seq<Fact>, fact: Fact)
    requires t.ready <==> LoggedIn(log)
    ensures Read(config, t, what, fact).ready <==> LoggedIn(log + [fact])
  {
    assert (log + [fact])[..|log|] == log;
    hide SeeIds, Ordered, Correlate.Errors, Verdict, AnswersLogin;
  }

  lemma ReadingMints(config: Config, t: Story, what: Happening, log: seq<Fact>, fact: Fact)
    requires t.calls == T.Count(log, MintsCall) && t.subs == T.Count(log, MintsSub) && Mints(what, fact)
    ensures var u, more := Read(config, t, what, fact), log + [fact];
            u.calls == T.Count(more, MintsCall) && u.subs == T.Count(more, MintsSub)
  {
    assert (log + [fact])[..|log|] == log;
    hide SeeIds, Ordered, Correlate.Errors, Verdict;
  }

  lemma {:induction false} ReadingLogged(config: Config, t: Story, what: Happening, log: seq<Fact>, facts: seq<Fact>)
    requires Logged(t, log) && forall f | f in facts :: Mints(what, f)
    ensures Logged(ReadAll(config, t, what, facts), log + facts)
    decreases |facts|
  {
    hide Read, Written, Sent, LoggedIn, T.Count, Mints;
    if facts == [] {
      assert log + facts == log;
    } else {
      assert log + facts == (log + [facts[0]]) + facts[1..];
      ReadingWritten(config, t, what, log, facts[0]);
      ReadingSent(config, t, what, log, facts[0]);
      ReadingReady(config, t, what, log, facts[0]);
      ReadingMints(config, t, what, log, facts[0]);
      ReadingLogged(config, Read(config, t, what, facts[0]), what, log + [facts[0]], facts[1..]);
    }
  }

  lemma {:induction false} RepliesMint(ids: Ids, answered: seq<string>)
    ensures forall f | f in Replies(ids, answered) :: f.Resolved?
    decreases |answered|
  {
    if answered != [] {
      RepliesMint(ids, answered[1..]);
      RepliesMint(SeeIds(ids, Resolved(answered[0])), answered[1..]);
      hide SeeIds;
    }
  }

  lemma HearingMints(t: Story, what: Happening)
    requires what.Arrives?
    ensures forall f | f in Hearing(t, what.frame) :: Mints(what, f)
  {
    if what.frame.Text? {
      var message := what.frame.message;
      RepliesMint(t.ids, Answered(message));
      hide Replies, Answered, Errors, SeeAll, Refusal, AnswersLogin;
      assert forall f | f in Turning(t, message) :: Mints(what, f);
      assert forall f | f in News(t, message) :: Mints(what, f);
      assert forall f | f in Reading(t, message) :: Mints(what, f);
    }
  }

  lemma DueMints(config: Config, t: Story, what: Happening)
    ensures forall f | f in Due(config, t, what) :: Mints(what, f)
  {
    if what.Arrives? {
      HearingMints(t, what);
    }
    hide Hearing, Errors, GivesUp, HasToWrite, Delay, Serves, Correlate.Decimal;
  }

  lemma UnspokenLogged(config: Config, t: Story, what: Happening, log: seq<Fact>)
    requires Logged(t, log)
    ensures Logged(Unspoken(config, t, what), log)
  {
    hide Written, Sent, LoggedIn, T.Count, Probes, Delay, Serves;
  }

  lemma TellingLogged(config: Config, t: Story, tick: Tick, log: seq<Fact>)
    requires Logged(t, log)
    ensures Logged(Tell(config, t, tick), log + Facts(config, t, tick))
  {
    if Counts(t, tick) {
      var now := t.(clock := tick.at);
      assert Logged(now, log);
      hide Logged, Mints, Due, Unspoken, ReadAll;
      UnspokenLogged(config, now, tick.what, log);
      DueMints(config, now, tick.what);
      ReadingLogged(config, Unspoken(config, now, tick.what), tick.what, log, Due(config, now, tick.what));
    } else {
      assert log + [] == log;
    }
  }

  lemma NothingLogged()
    ensures Logged(BEGINNING, [])
  {
  }

  lemma {:induction false} LoggedAt(config: Config, env: seq<Tick>, n: nat)
    requires n <= |env|
    ensures Logged(StoryOf(config, env, n), Told(config, env, n))
  {
    hide *;
    if n == 0 {
      FirstStory(config, env);
      NothingLogged();
    } else {
      LoggedAt(config, env, n - 1);
      NextStory(config, env, n - 1);
      TellingLogged(config, StoryOf(config, env, n - 1), env[n - 1], Told(config, env, n - 1));
    }
  }

  // ---- frames commands ask for ----------------------------------------------------------------------------

  ghost predicate Settles(facts: seq<Fact>) {
    exists f | f in facts :: f.Settled?
  }

  /** Commands are taken while a socket is open or a pause is running, if there is room in the outbox. */
  predicate Takes(config: Config, env: seq<Tick>, n: nat, waiting: int)
    requires n < |env|
  {
    && InTime(config, env, n) && (waiting < 1 || waiting < config.outboxCapacity)
    && (LifeOf(LogAt(config, env, n)).Online? || Draw(config, env, n).Some?)
  }

  /** The frame of a command: its own name and parameters under the next id, or the id to unsubscribe. */
  function FrameOf(log: seq<Fact>, command: Command, listening: bool): seq<ClientMessage> {
    match command
    case Call(name, params) =>
      if listening then [Method(Correlate.IdOf("m", T.Count(log, MintsCall)), name, params)] else []
    case Subscribe(name, params) =>
      if listening then [Sub(Correlate.IdOf("s", T.Count(log, MintsSub)), name, params)] else []
    case Unsubscribe(id) => [Unsub(id)]
    case Shutdown => []
  }

  /** The application frames asked for since the latest settling, in order. */
  ghost function Wanted(config: Config, env: seq<Tick>, n: nat): seq<ClientMessage>
    requires n <= |env|
  {
    if n == 0 then []
    else
      var before, log, what := Wanted(config, env, n - 1), LogAt(config, env, n - 1), env[n - 1].what;
      if Settles(NewFacts(config, env, n - 1)) then []
      else if what.Asks? && Takes(config, env, n - 1, |before| - |Written(log)|) then
        before + FrameOf(log, what.command, what.listening)
      else before
  }

  lemma {:induction false} AskedStays(config: Config, t: Story, what: Happening, facts: seq<Fact>)
    requires what.Asks? ==> what.command.Shutdown?
    ensures ReadAll(config, t, what, facts).asked == if Settles(facts) then [] else t.asked
    decreases |facts|
  {
    if facts != [] {
      var u := Read(config, t, what, facts[0]);
      assert u.asked == (if facts[0].Settled? then [] else t.asked) by {
        assert t.asked + [] == t.asked;
        hide SeeIds, Correlate.Errors;
      }
      hide Read;
      assert facts == [facts[0]] + facts[1..];
      AskedStays(config, u, what, facts[1..]);
    }
  }

  lemma OrdersDoNotSettle(t: Story, command: Command, listening: bool)
    requires !command.Shutdown?
    ensures !Settles(Orders(t, command, listening))
  {
    hide Correlate.IdOf;
  }

  lemma TellingAsked(config: Config, t: Story, tick: Tick)
    ensures Tell(config, t, tick).asked ==
            if Settles(Facts(config, t, tick)) then []
            else if Counts(t, tick) && tick.what.Asks? && Serves(config, t) then
              t.asked + K.Wish(t, tick.what.command, tick.what.listening)
            else t.asked
  {
    if Counts(t, tick) {
      var now, what := t.(clock := tick.at), tick.what;
      assert Serves(config, now) == Serves(config, t);
      hide Read, ReadAll, Correlate.IdOf, Correlate.Errors, Serves, Orders;
      if what.Asks? && Serves(config, now) && !what.command.Shutdown? {
        K.CommandTaken(config, now, what);
        OrdersDoNotSettle(now, what.command, what.listening);
        hide Settles;
      } else if what.Asks? && !Serves(config, now) {
        K.ReadNone(config, Unspoken(config, now, what), what);
      } else {
        AskedStays(config, Unspoken(config, now, what), what, Due(config, now, what));
        hide Due, Settles;
        assert t.asked + [] == t.asked;
      }
    }
  }

  lemma {:induction false} WantedIs(config: Config, env: seq<Tick>, n: nat)
    requires config.Valid() && n <= |env|
    ensures StoryOf(config, env, n).asked == Wanted(config, env, n)
  {
    hide StoryOf, LogAt, Written, NewFacts, Settles, Takes, FrameOf, Told, Facts, Tell, Counts, Serves, K.Wish, Run;
    if n == 0 {
      FirstStory(config, env);
    } else {
      WantedIs(config, env, n - 1);
      NextStory(config, env, n - 1);
      TellingAsked(config, StoryOf(config, env, n - 1), env[n - 1]);
      TakesIs(config, env, n - 1);
      Grows(config, env, n - 1);
    }
  }

  /** The story serves commands when the log and the ticks say so, and asks for the frame they say. */
  lemma TakesIs(config: Config, env: seq<Tick>, n: nat)
    requires config.Valid() && n < |env|
    ensures var t, log := StoryOf(config, env, n), LogAt(config, env, n);
            && t.written == Written(log)
            && (Counts(t, env[n]) && Serves(config, t) <==> Takes(config, env, n, |t.asked| - |Written(log)|))
            && forall command, listening :: K.Wish(t, command, listening) == FrameOf(log, command, listening)
  {
    hide StoryOf, LogAt, Written, Sent, LoggedIn, T.Count, InTime, LifeOf, Draw, Told, NewFacts, Facts, Tell, Counts,
         Outage, PauseEnd, Correlate.IdOf, Run;
    Grows(config, env, n);
    LoggedAt(config, env, n);
    PauseIs(config, env, n);
    TickIs(config, env, n);
    DrawNext(config, env, n);
    forall command, listening
      ensures K.Wish(StoryOf(config, env, n), command, listening) == FrameOf(LogAt(config, env, n), command, listening)
    {
    }
  }

  // ---- the watchdog ---------------------------------------------------------------------------------------

  /** Something comes in on the open socket. */
  predicate Incoming(config: Config, env: seq<Tick>, n: nat)
    requires n < |env|
  {
    InTime(config, env, n) && LifeOf(LogAt(config, env, n)).Online? && env[n].what.Arrives?
  }

  /** When the socket opened or last brought anything. */
  function HeardAt(config: Config, env: seq<Tick>, n: nat): nat
    requires n <= |env|
  {
    if n == 0 then 0
    else if Opened in NewFacts(config, env, n - 1) || Incoming(config, env, n - 1) then env[n - 1].at
    else HeardAt(config, env, n - 1)
  }

  ghost predicate EndsHandshake(facts: seq<Fact>) {
    exists f | f in facts :: f.Settled? || (f.Emitted? && f.event.ReadyNow?)
  }

  /** When the handshake must be over: some time after the socket opened, until the first login or the settling. */
  ghost function Budget(config: Config, env: seq<Tick>, n: nat): Option<nat>
    requires n <= |env|
  {
    if n == 0 then None
    else
      var facts := NewFacts(config, env, n - 1);
      if Opened in facts then Some(env[n - 1].at + config.handshakeTimeout)
      else if EndsHandshake(facts) then None
      else Budget(config, env, n - 1)
  }

  /** At this time the handshake took too long, or nothing came for too long. */
  ghost predicate TooLate(config: Config, env: seq<Tick>, n: nat, at: nat)
    requires n <= |env|
  {
    || (Budget(config, env, n).Some? && at >= Budget(config, env, n).value)
    || at >= HeardAt(config, env, n) + config.deadAfter
  }

  /** The socket was probed since it was last heard. */
  ghost predicate Probed(config: Config, env: seq<Tick>, n: nat)
    requires n <= |env|
    decreases n, 0
  {
    n > 0 && !(Opened in NewFacts(config, env, n - 1)) && !Incoming(config, env, n - 1) &&
    (Probed(config, env, n - 1) || Probing(config, env, n - 1))
  }

  /** The timer finds a socket that was silent for a while, though not too long, and not probed since. */
  ghost predicate Probing(config: Config, env: seq<Tick>, n: nat)
    requires n < |env|
    decreases n, 1
  {
    && InTime(config, env, n) && LifeOf(LogAt(config, env, n)).Online? && env[n].what.TimerFires?
    && !TooLate(config, env, n, env[n].at)
    && env[n].at >= HeardAt(config, env, n) + config.pingAfter && !Probed(config, env, n)
  }

  lemma {:induction false} WatchStays(config: Config, t: Story, what: Happening, facts: seq<Fact>)
    requires Opened !in facts
    ensures var u := ReadAll(config, t, what, facts);
            && u.heardAt == t.heardAt && u.probed == t.probed
            && u.budget == if EndsHandshake(facts) then None else t.budget
    decreases |facts|
  {
    if facts != [] {
      var u := Read(config, t, what, facts[0]);
      assert facts == [facts[0]] + facts[1..];
      FactKeepsWatch(config, t, what, facts[0]);
      hide Read;
      WatchStays(config, u, what, facts[1..]);
    }
  }

  lemma FactKeepsWatch(config: Config, t: Story, what: Happening, fact: Fact)
    requires !fact.Opened?
    ensures var u := Read(config, t, what, fact);
            && u.heardAt == t.heardAt && u.probed == t.probed
            && u.budget == if fact.Settled? || (fact.Emitted? && fact.event.ReadyNow?) then None else t.budget
  {
    hide SeeIds, Correlate.Errors, Ordered, Verdict, AnswersLogin;
  }

  lemma SocketDoesNotOpen(config: Config, t: Story, what: Happening)
    ensures Opened !in Socket(config, t, what)
  {
    hide Errors, Waits, Answered, SeeAll, Refusal, AnswersLogin, Correlate.IdOf, GivesUp, HasToWrite;
    if what.Arrives? && what.frame.Text? {
      var message := what.frame.message;
      RepliesMint(t.ids, Answered(message));
      hide Replies;
      assert Opened !in Turning(t, message) && Opened !in News(t, message);
      assert Opened !in Reading(t, message);
      hide Reading;
    }
  }

  /** A socket opens when the dial succeeds, and nothing else happens then. */
  lemma OpensExactly(config: Config, t: Story, what: Happening)
    ensures Opened in Due(config, t, what) <==> t.life.Announced? && what.Dialled?
    ensures Opened in Due(config, t, what) ==> Due(config, t, what) == [Opened]
  {
    SocketDoesNotOpen(config, t, what);
    hide Socket, Errors, Delay, Correlate.IdOf, Serves;
  }

  lemma UnspokenWatch(config: Config, t: Story, what: Happening)
    ensures var u := Unspoken(config, t, what);
            && u.heardAt == (if t.life.Online? && what.Arrives? then t.clock else t.heardAt)
            && u.probed == (if t.life.Online? && what.Arrives? then false
                            else t.probed || (t.life.Online? && what.TimerFires? && Probes(config, t)))
            && u.budget == t.budget && u.login == t.login && u.calls == t.calls && u.clock == t.clock
            && u.due == t.due + if t.life.Online? && what.TimerFires? && Probes(config, t) then [Ping(None)] else []
  {
    hide Probes, Serves, Delay;
    assert t.due + [] == t.due;
  }

  /** The watch the story keeps on the socket. */
  lemma TellingWatch(config: Config, t: Story, tick: Tick)
    requires t.heardAt <= t.clock
    ensures var u, facts, now := Tell(config, t, tick), Facts(config, t, tick), t.(clock := tick.at);
            var incoming := Counts(t, tick) && t.life.Online? && tick.what.Arrives?;
            && u.heardAt == (if Opened in facts || incoming then tick.at else t.heardAt) && u.heardAt <= u.clock
            && u.probed == (!(Opened in facts) && !incoming &&
                            (t.probed || (Counts(t, tick) && t.life.Online? && tick.what.TimerFires? &&
                              Probes(config, now))))
            && u.budget == (if Opened in facts then Some(tick.at + config.handshakeTimeout)
                            else if EndsHandshake(facts) then None else t.budget)
  {
    if Counts(t, tick) {
      var now, what := t.(clock := tick.at), tick.what;
      var v := Unspoken(config, now, what);
      UnspokenWatch(config, now, what);
      OpensExactly(config, now, what);
      SameClock(config, v, what, Due(config, now, what));
      hide Due, Unspoken, Probes;
      if Opened in Due(config, now, what) {
        K.ReadOne(config, v, what, Opened);
        hide ReadAll, SeeIds;
      } else {
        WatchStays(config, v, what, Due(config, now, what));
      }
    }
  }

  lemma {:induction false} SameClock(config: Config, t: Story, what: Happening, facts: seq<Fact>)
    ensures ReadAll(config, t, what, facts).clock == t.clock
    decreases |facts|
  {
    if facts != [] {
      FactKeepsClock(config, t, what, facts[0]);
      hide Read;
      SameClock(config, Read(config, t, what, facts[0]), what, facts[1..]);
    }
  }

  lemma FactKeepsClock(config: Config, t: Story, what: Happening, fact: Fact)
    ensures Read(config, t, what, fact).clock == t.clock
  {
    hide SeeIds, Correlate.Errors, Ordered, Verdict, AnswersLogin;
  }

  /** What the story knows of the watch is what the log and the ticks say. */
  ghost predicate Watched(config: Config, env: seq<Tick>, n: nat)
    requires n <= |env|
  {
    var t := StoryOf(config, env, n);
    && t.heardAt == HeardAt(config, env, n) && t.heardAt <= t.clock
    && t.probed == Probed(config, env, n) && t.budget == Budget(config, env, n)
  }

  lemma {:induction false} WatchIs(config: Config, env: seq<Tick>, n: nat)
    requires config.Valid() && n <= |env|
    ensures Watched(config, env, n)
  {
    hide StoryOf, LogAt, NewFacts, Told, Facts, Tell, Counts, InTime, LifeOf, EndsHandshake, Probing, Probes, Outage,
         GivesUp, TooLate, Run;
    if n == 0 {
      WatchAtFirst(config, env);
    } else {
      WatchIs(config, env, n - 1);
      NextStory(config, env, n - 1);
      Grows(config, env, n - 1);
      TickIs(config, env, n - 1);
      TellingWatch(config, StoryOf(config, env, n - 1), env[n - 1]);
      ProbesIs(config, env, n - 1);
    }
  }

  lemma WatchAtFirst(config: Config, env: seq<Tick>)
    ensures Watched(config, env, 0)
  {
  }

  lemma ProbesIs(config: Config, env: seq<Tick>, n: nat)
    requires config.Valid() && n < |env| && Watched(config, env, n)
    ensures var t := StoryOf(config, env, n); var now := t.(clock := env[n].at);
            && (InTime(config, env, n) ==> (GivesUp(config, now) <==> TooLate(config, env, n, env[n].at)))
            && (InTime(config, env, n) && t.life.Online? && env[n].what.TimerFires? && Probes(config, now)
                <==> Probing(config, env, n))
  {
    hide StoryOf, LogAt, Tell, InTime, LifeOf, Outage, HeardAt, Probed, Budget, Run;
    TickIs(config, env, n);
  }

  // ---- frames the protocol owes ---------------------------------------------------------------------------

  /** What an incoming frame or the timer adds to the frames owed on the socket. */
  ghost function Owing(config: Config, env: seq<Tick>, n: nat): seq<ClientMessage>
    requires n < |env|
  {
    if Probing(config, env, n) then [Ping(None)]
    else if !Incoming(config, env, n) || !env[n].what.frame.Text? then []
    else Response(config, LogAt(config, env, n), env[n].what.frame.message)
  }

  /** A pong for a ping, and the login for a welcome, with the credential configured. */
  function Response(config: Config, log: seq<Fact>, message: ServerMessage): seq<ClientMessage> {
    match message
    case ServerPing(id) => [Pong(id)]
    case Connected(_) => [Method(Correlate.IdOf("m", T.Count(log, MintsCall)), "login", config.credential)]
    case _ => []
  }

  /** The protocol frames owed on the latest socket, in order. */
  ghost function Owed(config: Config, env: seq<Tick>, n: nat): seq<ClientMessage>
    requires n <= |env|
  {
    if n == 0 then []
    else if Opened in NewFacts(config, env, n - 1) then [ClientMessage.Connect(DDP_VERSION, [DDP_VERSION])]
    else Owed(config, env, n - 1) + Owing(config, env, n - 1)
  }

  /** The fact changes nothing that is owed on the socket. */
  predicate OwesNothing(what: Happening, fact: Fact) {
    !fact.Opened? && !fact.Received? && !(fact.Registered? && what.Arrives?)
  }

  lemma FactOwesNothing(config: Config, t: Story, what: Happening, fact: Fact)
    requires OwesNothing(what, fact)
    ensures var u := Read(config, t, what, fact);
            u.due == t.due && u.login == if fact.Settled? then None else t.login
  {
    hide SeeIds, Correlate.Errors, Ordered, Verdict;
  }

  lemma {:induction false} OwedStays(config: Config, t: Story, what: Happening, facts: seq<Fact>)
    requires forall f | f in facts :: OwesNothing(what, f)
    ensures var u := ReadAll(config, t, what, facts);
            u.due == t.due && u.login == if Settles(facts) then None else t.login
    decreases |facts|
  {
    if facts != [] {
      assert facts == [facts[0]] + facts[1..];
      FactOwesNothing(config, t, what, facts[0]);
      hide Read, OwesNothing;
      OwedStays(config, Read(config, t, what, facts[0]), what, facts[1..]);
    }
  }

  /** The frame the story owes for an incoming one. */
  function StoryResponse(config: Config, t: Story, message: ServerMessage): seq<ClientMessage> {
    match message
    case ServerPing(id) => [Pong(id)]
    case Connected(_) => [Method(Correlate.IdOf("m", t.calls), "login", config.credential)]
    case _ => []
  }

  /** The login call awaited after an incoming frame. */
  function StoryLogin(t: Story, message: ServerMessage): Option<string> {
    if message.Connected? then Some(Correlate.IdOf("m", t.calls))
    else if AnswersLogin(t, message) then None
    else t.login
  }

  lemma ReceivedOwes(config: Config, t: Story, what: Happening, message: ServerMessage)
    ensures var u := Read(config, t, what, Received(message));
            && u.due == t.due + (if message.ServerPing? then [Pong(message.pingId)] else [])
            && u.login == if AnswersLogin(t, message) then None else t.login
  {
    hide SeeIds;
  }

  lemma RegisteredOwes(config: Config, t: Story, what: Happening, id: string)
    requires what.Arrives?
    ensures var u := Read(config, t, what, Registered(id));
            u.due == t.due + [Method(id, "login", config.credential)] && u.login == Some(id)
  {
    hide SeeIds;
  }

  /** The rest of what a frame leaves behind owes nothing. */
  lemma RestOwesNothing(t: Story, what: Happening, message: ServerMessage)
    ensures forall f | f in Replies(t.ids, Answered(message)) + News(t, message) :: OwesNothing(what, f)
    ensures !message.Connected? ==> forall f | f in Turning(t, message) :: OwesNothing(what, f)
    ensures !Settles(Replies(t.ids, Answered(message)) + News(t, message)) && !Settles(Turning(t, message))
  {
    RepliesMint(t.ids, Answered(message));
    hide Replies, Answered, AnswersLogin, Refusal, Correlate.IdOf;
  }

  lemma ReadingOwes(config: Config, t: Story, what: Happening, message: ServerMessage)
    requires what.Arrives?
    ensures var u := ReadAll(config, t, what, Reading(t, message));
            u.due == t.due + StoryResponse(config, t, message) && u.login == StoryLogin(t, message)
  {
    var turning, rest := Turning(t, message), Replies(t.ids, Answered(message)) + News(t, message);
    RestOwesNothing(t, what, message);
    ReceivedOwes(config, t, what, message);
    var v := Read(config, t, what, Received(message));
    assert Reading(t, message) == ([Received(message)] + turning) + rest;
    K.ReadConcat(config, t, what, [Received(message)] + turning, rest);
    K.ReadConcat(config, t, what, [Received(message)], turning);
    K.ReadOne(config, t, what, Received(message));
    var w := ReadAll(config, v, what, turning);
    if message.Connected? {
      RegisteredOwes(config, v, what, Correlate.IdOf("m", t.calls));
      K.ReadOne(config, v, what, Registered(Correlate.IdOf("m", t.calls)));
      hide Read, ReadAll, Replies, News, OwesNothing, Correlate.IdOf;
      assert t.due + [] == t.due;
      OwedStays(config, w, what, rest);
    } else {
      hide Read, ReadAll, Reading, Turning, Replies, News, OwesNothing, Correlate.IdOf, AnswersLogin, Settles;
      OwedStays(config, v, what, turning);
      OwedStays(config, w, what, rest);
    }
  }

  lemma DownfallOwesNothing(t: Story, what: Happening, ids: Ids, fatal: Session.Fatal)
    ensures forall f | f in Downfall(t, ids, fatal) :: OwesNothing(what, f)
    ensures Settles(Downfall(t, ids, fatal))
  {
    hide Errors;
    assert Settled(Errors(ids)) in Downfall(t, ids, fatal);
  }

  /** What the story owes after a frame came in. */
  lemma TextOwes(config: Config, t: Story, v: Story, what: Happening)
    requires what.Arrives? && what.frame.Text? && v == t.(heardAt := v.heardAt, probed := v.probed)
    ensures var u, facts := ReadAll(config, v, what, Hearing(t, what.frame)), Hearing(t, what.frame);
            && u.due == t.due + StoryResponse(config, t, what.frame.message)
            && u.login == if Settles(facts) then None else StoryLogin(t, what.frame.message)
  {
    var message := what.frame.message;
    var reading := Reading(t, message);
    SameReading(t, v, message);
    ReadingOwes(config, v, what, message);
    ReadingDoesNotSettle(t, message);
    if Doom(t, message).Some? {
      var downfall := Downfall(t, SeeAll(t.ids, reading), Doom(t, message).value);
      DownfallOwesNothing(t, what, SeeAll(t.ids, reading), Doom(t, message).value);
      K.ReadConcat(config, v, what, reading, downfall);
      hide Reading, Downfall, ReadAll, SeeAll, Doom, OwesNothing, StoryResponse, StoryLogin;
      OwedStays(config, ReadAll(config, v, what, reading), what, downfall);
      SettlesLater(reading, downfall);
      hide Settles;
    } else {
      assert reading + [] == reading;
      hide Reading, Downfall, ReadAll, SeeAll, Settles, StoryResponse, StoryLogin;
    }
  }

  lemma SettlesLater(a: seq<Fact>, b: seq<Fact>)
    requires Settles(b)
    ensures Settles(a + b)
  {
    var f :| f in b && f.Settled?;
    assert f in a + b;
  }

  lemma SameReading(t: Story, v: Story, message: ServerMessage)
    requires v == t.(heardAt := v.heardAt, probed := v.probed)
    ensures Reading(v, message) == Reading(t, message)
  {
    hide Replies, Answered, Refusal;
  }

  lemma ReadingDoesNotSettle(t: Story, message: ServerMessage)
    ensures !Settles(Reading(t, message))
  {
    RestOwesNothing(t, Wake, message);
    hide Replies, News, Turning, OwesNothing;
    forall f | f in Reading(t, message) ensures !f.Settled? {
      assert f == Received(message) || f in Turning(t, message) ||
        f in Replies(t.ids, Answered(message)) + News(t, message);
    }
  }

  lemma OtherFactsOweNothing(config: Config, t: Story, what: Happening)
    requires !(t.life.Online? && what.Arrives? && what.frame.Text?) && Opened !in Due(config, t, what)
    ensures forall f | f in Due(config, t, what) :: OwesNothing(what, f)
  {
    hide Errors, Correlate.IdOf, GivesUp, HasToWrite, Delay, Serves, Replies;
  }

  /** What the story owes on the socket after a tick, and the login it awaits. */
  lemma DueOwes(config: Config, t: Story, what: Happening)
    ensures var facts := Due(config, t, what); var u := ReadAll(config, Unspoken(config, t, what), what, facts);
            var text := t.life.Online? && what.Arrives? && what.frame.Text?;
            && u.due == (if Opened in facts then [ClientMessage.Connect(DDP_VERSION, [DDP_VERSION])]
                         else if text then t.due + StoryResponse(config, t, what.frame.message)
                         else if t.life.Online? && what.TimerFires? && Probes(config, t) then t.due + [Ping(None)]
                         else t.due)
            && u.login == if Opened in facts || Settles(facts) then None
                          else if text then StoryLogin(t, what.frame.message) else t.login
  {
    var v, facts := Unspoken(config, t, what), Due(config, t, what);
    OpensExactly(config, t, what);
    UnspokenWatch(config, t, what);
    assert t.due + [] == t.due;
    if Opened in facts {
      K.ReadOne(config, v, what, Opened);
      hide ReadAll, SeeIds, Due, Unspoken, Probes;
    } else if t.life.Online? && what.Arrives? && what.frame.Text? {
      assert v == t.(heardAt := v.heardAt, probed := v.probed);
      assert facts == Hearing(t, what.frame);
      hide ReadAll, Due, Unspoken, Hearing, StoryResponse, StoryLogin, Settles;
      TextOwes(config, t, v, what);
    } else {
      OtherFactsOweNothing(config, t, what);
      hide ReadAll, Due, Unspoken, OwesNothing, Settles, Probes;
      OwedStays(config, v, what, facts);
    }
  }

  /** The login call awaited on the socket: the latest asked for, until it is answered. */
  ghost function LoginCall(config: Config, env: seq<Tick>, n: nat): Option<string>
    requires n <= |env|
  {
    if n == 0 then None
    else
      var facts, before, log := NewFacts(config, env, n - 1), LoginCall(config, env, n - 1), LogAt(config, env, n - 1);
      if Opened in facts || Settles(facts) then None
      else if Incoming(config, env, n - 1) && env[n - 1].what.frame.Text? then
        var message := env[n - 1].what.frame.message;
        if message.Connected? then Some(Correlate.IdOf("m", T.Count(log, MintsCall)))
        else if message.Result? && before == Some(message.id) then None
        else before
      else before
  }

  /** What the story owes and awaits is what the log and the ticks say. */
  ghost predicate Owes(config: Config, env: seq<Tick>, n: nat)
    requires n <= |env|
  {
    var t := StoryOf(config, env, n); t.due == Owed(config, env, n) && t.login == LoginCall(config, env, n)
  }

  lemma TellingOwes(config: Config, t: Story, tick: Tick)
    ensures var u, facts, now := Tell(config, t, tick), Facts(config, t, tick), t.(clock := tick.at);
            var text := Counts(t, tick) && t.life.Online? && tick.what.Arrives? && tick.what.frame.Text?;
            && u.due == (if Opened in facts then [ClientMessage.Connect(DDP_VERSION, [DDP_VERSION])]
                         else if text then t.due + StoryResponse(config, t, tick.what.frame.message)
                         else if Counts(t, tick) && t.life.Online? && tick.what.TimerFires? && Probes(config, now)
                         then t.due + [Ping(None)]
                         else t.due)
            && u.login == if Opened in facts || Settles(facts) then None
                          else if text then StoryLogin(t, tick.what.frame.message) else t.login
  {
    if Counts(t, tick) {
      DueOwes(config, t.(clock := tick.at), tick.what);
      hide Due, Unspoken, ReadAll, Settles, Probes;
    }
  }

  lemma StoryAnswers(config: Config, t: Story, log: seq<Fact>, message: ServerMessage)
    requires t.calls == T.Count(log, MintsCall)
    ensures StoryResponse(config, t, message) == Response(config, log, message)
    ensures StoryLogin(t, message) ==
            if message.Connected? then Some(Correlate.IdOf("m", T.Count(log, MintsCall)))
            else if message.Result? && t.login == Some(message.id) then None
            else t.login
  {
  }

  lemma OwesAtFirst(config: Config, env: seq<Tick>)
    ensures Owes(config, env, 0)
  {
  }

  lemma {:induction false} OwesIs(config: Config, env: seq<Tick>, n: nat)
    requires config.Valid() && n <= |env|
    ensures Owes(config, env, n)
  {
    hide StoryOf, LogAt, NewFacts, Told, Facts, Tell, Counts, InTime, LifeOf, Settles, Probes, Outage, GivesUp, TooLate,
         Written, Sent, LoggedIn, T.Count, Watched, StoryResponse, StoryLogin, Response, Correlate.IdOf, Run, Probed;
    if n == 0 {
      OwesAtFirst(config, env);
    } else {
      var t, log := StoryOf(config, env, n - 1), LogAt(config, env, n - 1);
      OwesIs(config, env, n - 1);
      NextStory(config, env, n - 1);
      Grows(config, env, n - 1);
      TickIs(config, env, n - 1);
      TellingOwes(config, t, env[n - 1]);
      WatchIs(config, env, n - 1);
      ProbesIs(config, env, n - 1);
      LoggedAt(config, env, n - 1);
      if env[n - 1].what.Arrives? && env[n - 1].what.frame.Text? {
        StoryAnswers(config, t, log, env[n - 1].what.frame.message);
      }
      NothingMore(t.due);
    }
  }

  lemma NothingMore(frames: seq<ClientMessage>)
    ensures frames + [] == frames
  {
  }

  // ---- the theorems ---------------------------------------------------------------------------------------

  /**
   * Over every run: the application frames accepted since the latest settling are the first of those the commands
   * taken since then asked for, in order, each with the command's own name and parameters; and on an open socket the
   * protocol frames accepted are the first of those owed there.
   */
  lemma FramesGoOutInOrder(config: Config, env: seq<Tick>, n: nat)
    requires config.Valid() && n <= |env|
    ensures Written(LogAt(config, env, n)) <= Wanted(config, env, n)
    ensures LifeOf(LogAt(config, env, n)).Online? ==> Sent(LogAt(config, env, n)) <= Owed(config, env, n)
  {
    hide StoryOf, LogAt, LifeOf, Written, Sent, LoggedIn, T.Count, Wanted, Owed, LoginCall, K.Staged, K.Tuned,
         K.Frames, Observe, Told, Run;
    StoryAt(config, env, n);
    WantedIs(config, env, n);
    OwesIs(config, env, n);
    PrefixBy(StoryOf(config, env, n).written, K.Frames(Run(config, env, n).app));
    PrefixBy(StoryOf(config, env, n).sent, K.Frames(Run(config, env, n).priority));
  }

  lemma PrefixBy(a: seq<ClientMessage>, b: seq<ClientMessage>)
    ensures a <= a + b
  {
  }

  lemma StoryAt(config: Config, env: seq<Tick>, n: nat)
    requires config.Valid() && n <= |env|
    ensures LogAt(config, env, n) == Told(config, env, n)
    ensures K.Knows(config, Run(config, env, n), StoryOf(config, env, n))
    ensures Logged(StoryOf(config, env, n), LogAt(config, env, n))
    ensures StoryOf(config, env, n).life == LifeOf(LogAt(config, env, n))
  {
    hide Run, StoryOf, Told, K.Knows, Logged, LifeOf;
    Retold.EveryRunIsTold(config, env, n);
    LoggedAt(config, env, n);
    LifeIs(config, env, n);
  }

  lemma SinkTakesNext(config: Config, t: Story, tick: Tick)
    requires tick.what.SinkTakes?
    ensures Facts(config, t, tick) ==
            if !Counts(t, tick) || !t.life.Online? then []
            else if |t.sent| < |t.due| then [Accepted(Protocol, t.due[|t.sent|])]
            else if t.ready && |t.written| < |t.asked| then [Accepted(Application, t.asked[|t.written|])]
            else []
  {
  }

  /**
   * The sink that is ready is given the next frame owed on the socket; if none is owed and the session is logged in,
   * the next one commands asked for; and nothing else, over every run.
   */
  lemma TheNextFrameGoes(config: Config, env: seq<Tick>, n: nat)
    requires config.Valid() && n < |env| && env[n].what.SinkTakes?
    ensures var log, owed, wanted := LogAt(config, env, n), Owed(config, env, n), Wanted(config, env, n);
            NewFacts(config, env, n) ==
            if !InTime(config, env, n) || !LifeOf(log).Online? then []
            else if |Sent(log)| < |owed| then [Accepted(Protocol, owed[|Sent(log)|])]
            else if LoggedIn(log) && |Written(log)| < |wanted| then [Accepted(Application, wanted[|Written(log)|])]
            else []
  {
    hide StoryOf, LogAt, LifeOf, InTime, Written, Sent, LoggedIn, T.Count, Wanted, Owed, LoginCall, NewFacts, Told,
         Facts, Tell, Counts, Outage, K.Knows, Run;
    StoryAt(config, env, n);
    TickIs(config, env, n);
    Grows(config, env, n);
    WantedIs(config, env, n);
    OwesIs(config, env, n);
    SinkTakesNext(config, StoryOf(config, env, n), env[n]);
  }

  lemma OnlyTheSinkAccepts(config: Config, t: Story, what: Happening)
    requires !what.SinkTakes?
    ensures forall f | f in Due(config, t, what) :: !f.Accepted?
  {
    if what.Arrives? && what.frame.Text? {
      RepliesMint(t.ids, Answered(what.frame.message));
    }
    hide Errors, Correlate.IdOf, GivesUp, HasToWrite, Delay, Serves, Replies, Answered, SeeAll, Refusal, AnswersLogin;
  }

  lemma FactsAccept(config: Config, t: Story, tick: Tick)
    requires !tick.what.SinkTakes?
    ensures forall f | f in Facts(config, t, tick) :: !f.Accepted?
  {
    OnlyTheSinkAccepts(config, t.(clock := tick.at), tick.what);
    hide Due;
  }

  /** Frames the protocol may owe. */
  predicate OwedKind(config: Config, frame: ClientMessage) {
    || frame == ClientMessage.Connect(DDP_VERSION, [DDP_VERSION]) || frame == Ping(None) || frame.Pong?
    || (frame.Method? && frame.name == "login" && frame.params == config.credential)
  }

  lemma OwingKinds(config: Config, env: seq<Tick>, n: nat)
    requires n < |env|
    ensures forall frame | frame in Owing(config, env, n) :: OwedKind(config, frame)
  {
    hide Probing, Incoming, LogAt, Correlate.IdOf;
  }

  lemma {:induction false} OwedKinds(config: Config, env: seq<Tick>, n: nat)
    requires n <= |env|
    ensures forall frame | frame in Owed(config, env, n) :: OwedKind(config, frame)
  {
    hide Owing, NewFacts;
    if n > 0 {
      OwedKinds(config, env, n - 1);
      OwingKinds(config, env, n - 1);
    }
  }

  /**
   * Every login a socket accepts carries the configured credential, and no other method call uses the protocol
   * lane.
   */
  lemma {:induction false} LoginsCarryTheCredential(config: Config, env: seq<Tick>, n: nat, i: nat)
    requires config.Valid() && n <= |env| && i < |LogAt(config, env, n)|
    requires LogAt(config, env, n)[i].Accepted? && LogAt(config, env, n)[i].lane.Protocol?
    ensures OwedKind(config, LogAt(config, env, n)[i].frame)
    decreases n
  {
    hide *;
    if n == 0 {
      NothingLoggedYet(config, env);
    } else {
      Grows(config, env, n - 1);
      var before, facts := LogAt(config, env, n - 1), NewFacts(config, env, n - 1);
      if i < |before| {
        LoginsCarryTheCredential(config, env, n - 1, i);
      } else {
        assert LogAt(config, env, n)[i] == facts[i - |before|];
        if env[n - 1].what.SinkTakes? {
          TheNextFrameGoes(config, env, n - 1);
          OwedKinds(config, env, n - 1);
        } else {
          FactsAccept(config, StoryOf(config, env, n - 1), env[n - 1]);
        }
      }
    }
  }

  lemma TimerTick(config: Config, t: Story, tick: Tick)
    requires tick.what.TimerFires?
    ensures var facts := Facts(config, t, tick);
            if Counts(t, tick) && t.life.Online? && GivesUp(config, t.(clock := tick.at))
            then |facts| == 2 && facts[0].Settled? && facts[1] == Emitted(Disconnected, tick.at)
            else facts == []
  {
    hide Errors, GivesUp;
  }

  /** When the timer of an open socket is due: exactly at the first of the moments the watchdog has to act. */
  predicate Alarm(budget: Option<nat>, heardAt: nat, quiet: nat, at: nat) {
    (budget.Some? && at >= budget.value) || at >= heardAt + quiet
  }

  /**
   * The watchdog is exact, over every run: the timer gives the socket up if and only if the handshake took too long or
   * nothing came for too long, and the timer of an open socket is due exactly when the handshake, or the silence that
   * is allowed before or after a probe, is over.
   */
  lemma TheWatchdogIsExact(config: Config, env: seq<Tick>, n: nat)
    requires config.Valid() && n < |env|
    ensures env[n].what.TimerFires? ==>
              var facts := NewFacts(config, env, n);
              if InTime(config, env, n) && LifeOf(LogAt(config, env, n)).Online? && TooLate(config, env, n, env[n].at)
              then |facts| == 2 && facts[0].Settled? && facts[1] == Emitted(Disconnected, env[n].at)
              else facts == []
    ensures LifeOf(LogAt(config, env, n)).Online? ==>
              var quiet := if Probed(config, env, n) then config.deadAfter else config.pingAfter;
              forall at: nat | at >= Latest(env, n) ::
                at >= Run(config, env, n).timer <==> Alarm(Budget(config, env, n), HeardAt(config, env, n), quiet, at)
  {
    hide StoryOf, LogAt, LifeOf, InTime, Logged, HeardAt, Probed, Budget, TooLate, Probing, Probes, GivesUp, NewFacts,
         Told, Facts, Tell, Counts, Outage, K.Knows, Latest, Alarm, Run;
    StoryAt(config, env, n);
    TickIs(config, env, n);
    LifeIs(config, env, n);
    Grows(config, env, n);
    WatchIs(config, env, n);
    ProbesIs(config, env, n);
    if env[n].what.TimerFires? {
      TimerTick(config, StoryOf(config, env, n), env[n]);
    }
    TimerFits(config, Run(config, env, n), StoryOf(config, env, n));
  }

  lemma TimerFits(config: Config, s: State, t: Story)
    requires K.Knows(config, s, t)
    ensures t.life.Online? ==>
              var quiet := if t.probed then config.deadAfter else config.pingAfter;
              forall at: nat | at >= t.clock :: at >= s.timer <==> Alarm(t.budget, t.heardAt, quiet, at)
  {
    if t.life.Online? {
      assert s.clock == t.clock;
      assert K.Wired(config, s, t) && K.Tuned(s);
      hide Observe, K.Knows, K.Frames;
      var quiet := if t.probed then config.deadAfter else config.pingAfter;
      forall at: nat | at >= t.clock
        ensures at >= s.timer <==> Alarm(t.budget, t.heardAt, quiet, at)
      {
        assert at >= s.timer <==> K.Overdue(s, at);
      }
    }
  }
}
