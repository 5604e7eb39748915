/** What the application is told in every run, and when a run ends, told from the log and the ticks. */
module RunnerEvents {
  import opened Prelude
  import opened Protocol
  import opened RunnerModel
  import opened RunnerContract
  import opened RunnerStory
  import opened RunnerLog
  import opened RunnerDelivery
  import opened RunnerWire
  import Correlate
  import K = RunnerKnowledge
  import P = RunnerPacing
  import Session

  /** The frames the application gets as they are: changes of its collections, and error reports. */
  predicate Forwarded(message: ServerMessage) {
    || message.Added? || message.Changed? || message.Removed? || message.AddedBefore? || message.MovedBefore?
    || message.Error?
  }

  /** The frame that ends the session for good, and why. */
  predicate Dooms(login: Option<string>, message: ServerMessage, fatal: Session.Fatal) {
    || (message.Failed? && fatal == Session.VersionMismatch(DDP_VERSION, message.version))
    || (message.Result? && login == Some(message.id) && message.error.Some? && fatal == Refusal(message.error.value))
  }

  predicate LogsIn(login: Option<string>, message: ServerMessage) {
    message.Result? && login == Some(message.id) && message.error.None?
  }

  /** What a frame leaves behind besides replies. */
  lemma HearingTells(t: Story, message: ServerMessage, f: Fact)
    ensures !f.Resolved? && !f.Received? && !f.Settled? && !f.Returned? ==>
              (f in Hearing(t, Text(message)) <==>
               || f in Turning(t, message) || f in News(t, message)
               || (Doom(t, message).Some? && f == Emitted(FatalError(Doom(t, message).value), t.clock)))
    ensures f.Returned? ==> (f in Hearing(t, Text(message)) <==> Doom(t, message).Some?)
  {
    HearingHas(t, message, f);
    ReadingHas(t, message, f);
    RepliesHave(t.ids, Answered(message), "");
    hide Errors, Hearing, Reading, Replies, Answered, SeeAll, AnswersLogin, Refusal, Correlate.IdOf;
  }

  lemma NewsOf(t: Story, message: ServerMessage, f: Fact)
    requires f.Emitted? && (f.event.Frame? || f.event.ConnectedTo?)
    ensures f in Hearing(t, Text(message)) <==>
            f.at == t.clock &&
            if f.event.Frame? then f.event.message == message && Forwarded(message)
            else message == Connected(f.event.session)
  {
    HearingTells(t, message, f);
    hide Hearing, AnswersLogin, Refusal, Correlate.IdOf;
  }

  lemma DueTells(config: Config, t: Story, what: Happening, f: Fact)
    requires (f.Emitted? && (f.event.Frame? || f.event.ConnectedTo? || f.event.ReadyNow?)) || f.Doomed?
    ensures f in Due(config, t, what) <==>
            t.life.Online? && what.Arrives? && what.frame.Text? && f in Hearing(t, what.frame)
  {
    assert what.Arrives? && !what.frame.Text? ==> f !in Hearing(t, what.frame);
    hide Errors, Serves, Correlate.IdOf, Delay, GivesUp, HasToWrite, Reading, Downfall, SeeAll, Doom;
  }

  lemma ReadyOf(t: Story, message: ServerMessage)
    ensures (exists epoch :: Emitted(ReadyNow(epoch), t.clock) in Hearing(t, Text(message))) <==>
            LogsIn(t.login, message)
    ensures forall fatal :: Doomed(fatal) in Hearing(t, Text(message)) <==> Dooms(t.login, message, fatal)
  {
    forall epoch ensures Emitted(ReadyNow(epoch), t.clock) in Hearing(t, Text(message)) <==>
                         LogsIn(t.login, message) && epoch == t.ids.settles % Correlate.EPOCHS
    {
      HearingTells(t, message, Emitted(ReadyNow(epoch), t.clock));
      hide Hearing, Refusal, Correlate.IdOf;
    }
    forall fatal ensures Doomed(fatal) in Hearing(t, Text(message)) <==> Dooms(t.login, message, fatal) {
      HearingTells(t, message, Doomed(fatal));
      hide Hearing, Refusal, Correlate.IdOf;
    }
  }

  lemma ReturnedIn(config: Config, t: Story, what: Happening)
    ensures Returned in Due(config, t, what) <==>
            || (Serves(config, t) && (what == HandlesDropped || (what.Asks? && what.command.Shutdown?)))
            || (t.life.Online? && what.Arrives? && what.frame.Text? && Doom(t, what.frame.message).Some?)
  {
    if what.Arrives? && what.frame.Text? {
      HearingTells(t, what.frame.message, Returned);
    }
    hide Errors, Serves, Correlate.IdOf, Delay, GivesUp, HasToWrite, Reading, Downfall, SeeAll, Doom;
  }

  // ---- the theorems ---------------------------------------------------------------------------------------

  /** The tick brings this frame to an open socket. */
  lemma ReceivedExactly(config: Config, env: seq<Tick>, n: nat, message: ServerMessage)
    requires config.Valid() && n < |env|
    ensures Received(message) in NewFacts(config, env, n) <==>
            Incoming(config, env, n) && env[n].what.frame == Text(message)
  {
    hide NewFacts, LogAt, InTime, StoryOf, Told, Facts, LifeOf, Counts, Run, Latest;
    Grows(config, env, n);
    CountedMeans(config, env, n);
    FactsReceive(config, StoryOf(config, env, n), env[n], message);
  }

  lemma FactsReceive(config: Config, t: Story, tick: Tick, message: ServerMessage)
    ensures Received(message) in Facts(config, t, tick) <==>
            Counts(t, tick) && t.life.Online? && tick.what.Arrives? && tick.what.frame == Text(message)
  {
    ReceivedIn(config, t.(clock := tick.at), tick.what, message);
    hide Due;
  }

  lemma FactsTell(config: Config, t: Story, tick: Tick, f: Fact)
    requires f.Emitted? && (f.event.Frame? || f.event.ConnectedTo?)
    ensures f in Facts(config, t, tick) <==>
            && Counts(t, tick) && t.life.Online? && tick.what.Arrives? && tick.what.frame.Text? && f.at == tick.at
            && if f.event.Frame? then f.event.message == tick.what.frame.message && Forwarded(tick.what.frame.message)
               else tick.what.frame.message == Connected(f.event.session)
  {
    var now := t.(clock := tick.at);
    DueTells(config, now, tick.what, f);
    if tick.what.Arrives? && tick.what.frame.Text? {
      NewsOf(now, tick.what.frame.message, f);
    }
    hide Due, Hearing;
  }

  /**
   * The application is told of a frame if and only if it is a collection frame or an error report, and of a session if
   * and only if the server opened it, in the tick that brings it, over every run.
   */
  lemma NewsFollows(config: Config, env: seq<Tick>, n: nat, message: ServerMessage, session: string, at: nat)
    requires config.Valid() && n < |env|
    ensures Emitted(Frame(message), at) in NewFacts(config, env, n) <==>
            Received(message) in NewFacts(config, env, n) && Forwarded(message) && at == env[n].at
    ensures Emitted(ConnectedTo(session), at) in NewFacts(config, env, n) <==>
            Received(Connected(session)) in NewFacts(config, env, n) && at == env[n].at
  {
    hide *;
    Grows(config, env, n);
    var t, tick := StoryOf(config, env, n), env[n];
    FactsTell(config, t, tick, Emitted(Frame(message), at));
    FactsTell(config, t, tick, Emitted(ConnectedTo(session), at));
    FactsReceive(config, t, tick, message);
    FactsReceive(config, t, tick, Connected(session));
  }

  lemma FactsTurn(config: Config, t: Story, tick: Tick)
    ensures var text := Counts(t, tick) && t.life.Online? && tick.what.Arrives? && tick.what.frame.Text?;
            && ((exists epoch :: Emitted(ReadyNow(epoch), tick.at) in Facts(config, t, tick)) <==>
                text && LogsIn(t.login, tick.what.frame.message))
            && (forall fatal :: Doomed(fatal) in Facts(config, t, tick) <==>
                  text && Dooms(t.login, tick.what.frame.message, fatal))
            && (Returned in Facts(config, t, tick) <==>
                || (Counts(t, tick) && Serves(config, t) &&
                    (tick.what == HandlesDropped || (tick.what.Asks? && tick.what.command.Shutdown?)))
                || exists fatal :: Doomed(fatal) in Facts(config, t, tick))
  {
    var now, what := t.(clock := tick.at), tick.what;
    forall epoch ensures Emitted(ReadyNow(epoch), tick.at) in Due(config, now, what) <==>
                         t.life.Online? && what.Arrives? && what.frame.Text? &&
                         Emitted(ReadyNow(epoch), tick.at) in Hearing(now, what.frame)
    {
      DueTells(config, now, what, Emitted(ReadyNow(epoch), tick.at));
    }
    forall fatal ensures Doomed(fatal) in Due(config, now, what) <==>
                         t.life.Online? && what.Arrives? && what.frame.Text? &&
                           Doomed(fatal) in Hearing(now, what.frame)
    {
      DueTells(config, now, what, Doomed(fatal));
    }
    ReturnedIn(config, now, what);
    assert Serves(config, now) == Serves(config, t);
    if what.Arrives? && what.frame.Text? {
      ReadyOf(now, what.frame.message);
      DoomIsDooms(now, what.frame.message);
    }
    hide Due, Hearing, Serves, Dooms, LogsIn, Doom;
  }

  lemma DoomIsDooms(t: Story, message: ServerMessage)
    ensures Doom(t, message).Some? <==> exists fatal :: Dooms(t.login, message, fatal)
  {
    hide Refusal;
    if Doom(t, message).Some? {
      assert Dooms(t.login, message, Doom(t, message).value);
    }
  }

  /** The command or the end of all handles that ends the run, if it is taken. */
  predicate AsksToEnd(what: Happening) {
    what == HandlesDropped || (what.Asks? && what.command.Shutdown?)
  }

  /**
   * Over every run: the session is announced ready when the login awaited is answered with success, and then only; it
   * is doomed when the server refuses the version or the login, and then only, for the reason given; and the runner
   * returns when it is told to end and takes commands, or when its session is doomed, and then only.
   */
  lemma TurningsAreExact(config: Config, env: seq<Tick>, n: nat)
    requires config.Valid() && n < |env|
    ensures var facts, login := NewFacts(config, env, n), LoginCall(config, env, n);
            && ((exists epoch :: Emitted(ReadyNow(epoch), env[n].at) in facts) <==>
                exists message :: Received(message) in facts && LogsIn(login, message))
            && (forall fatal :: Doomed(fatal) in facts <==>
                  exists message :: Received(message) in facts && Dooms(login, message, fatal))
            && (Returned in facts <==>
                || (AsksToEnd(env[n].what) &&
                    Takes(config, env, n, |Wanted(config, env, n)| - |Written(LogAt(config, env, n))|))
                || exists fatal :: Doomed(fatal) in facts)
  {
    hide NewFacts, LogAt, InTime, StoryOf, Told, Facts, LifeOf, Counts, Run, Takes, Wanted, Written, LoginCall,
         Owed, LogsIn, Dooms, Serves, Tell, P.Outage, K.Wish, FrameOf;
    var t, tick, facts, login := StoryOf(config, env, n), env[n], NewFacts(config, env, n), LoginCall(config, env, n);
    Grows(config, env, n);
    P.TickIs(config, env, n);
    OwesIs(config, env, n);
    WantedIs(config, env, n);
    TakesIs(config, env, n);
    FactsTurn(config, t, tick);
    forall message ensures Received(message) in facts <==>
                           Counts(t, tick) && t.life.Online? && tick.what.Arrives? && tick.what.frame == Text(message)
    {
      FactsReceive(config, t, tick, message);
    }
  }

  // ---- losses ---------------------------------------------------------------------------------------------

  /** Something accepted may still wait to be flushed. */
  ghost predicate Unflushed(config: Config, env: seq<Tick>, n: nat)
    requires n <= |env|
  {
    n > 0 && !Settles(NewFacts(config, env, n - 1)) &&
    ((exists f | f in NewFacts(config, env, n - 1) :: f.Accepted?) ||
     (Unflushed(config, env, n - 1) && !(InTime(config, env, n - 1) && env[n - 1].what.FlushDone?)))
  }

  /** The tick ends the connection: the dial failed, the socket failed or closed, or the watchdog gave it up. */
  predicate Cuts(config: Config, t: Story, what: Happening) {
    if t.life.Announced? then what.DialFailed?
    else
      t.life.Online? &&
      match what
      case SinkFails => HasToWrite(t)
      case FlushFails => t.dirty
      case Arrives(frame, _) => frame.CloseFrame?
      case EndOfStream => true
      case ReadFails => true
      case TimerFires => GivesUp(config, t)
      case _ => false
  }

  lemma HearingKeeps(t: Story, message: ServerMessage, at: nat)
    ensures Emitted(Disconnected, at) !in Hearing(t, Text(message))
  {
    HearingTells(t, message, Emitted(Disconnected, at));
    hide Hearing, Refusal, Correlate.IdOf, AnswersLogin;
  }

  lemma CutsExactly(config: Config, t: Story, what: Happening, at: nat)
    ensures Emitted(Disconnected, at) in Due(config, t, what) <==> Cuts(config, t, what) && at == t.clock
  {
    if what.Arrives? && what.frame.Text? {
      HearingKeeps(t, what.frame.message, at);
    }
    assert what.Arrives? && (what.frame.Undecodable? || what.frame.Ignored?) ==> Hearing(t, what.frame) == [];
    assert what.Arrives? && what.frame.CloseFrame? ==> Hearing(t, what.frame) == Loss(t);
    hide Errors, Serves, Correlate.IdOf, Delay, GivesUp, HasToWrite, Hearing;
  }

  ghost predicate Accepts(facts: seq<Fact>) {
    exists f | f in facts :: f.Accepted?
  }

  lemma FactSoils(config: Config, t: Story, what: Happening, fact: Fact)
    ensures Read(config, t, what, fact).dirty <==> fact.Accepted? || (t.dirty && !fact.Settled?)
  {
    hide SeeIds, Correlate.Errors, Ordered, Verdict, AnswersLogin;
  }

  lemma {:induction false} FactsSoil(config: Config, t: Story, what: Happening, facts: seq<Fact>)
    requires !Accepts(facts)
    ensures ReadAll(config, t, what, facts).dirty <==> t.dirty && !Settles(facts)
    decreases |facts|
  {
    if facts != [] {
      assert facts == [facts[0]] + facts[1..];
      FactSoils(config, t, what, facts[0]);
      hide Read;
      FactsSoil(config, Read(config, t, what, facts[0]), what, facts[1..]);
    }
  }

  lemma UnspokenSoil(config: Config, t: Story, what: Happening)
    ensures Unspoken(config, t, what).dirty == (t.dirty && !what.FlushDone?)
  {
  }

  lemma WritingSoils(config: Config, t: Story, what: Happening)
    requires what.SinkTakes?
    ensures var facts := Due(config, t, what);
            (facts == [] || (|facts| == 1 && facts[0].Accepted?)) && !Settles(facts)
  {
  }

  lemma TellingSoils(config: Config, t: Story, tick: Tick)
    ensures var facts := Facts(config, t, tick);
            Tell(config, t, tick).dirty <==>
            !Settles(facts) && (Accepts(facts) || (t.dirty && !(Counts(t, tick) && tick.what.FlushDone?)))
  {
    if Counts(t, tick) {
      var now, what := t.(clock := tick.at), tick.what;
      var v, facts := Unspoken(config, now, what), Due(config, now, what);
      UnspokenSoil(config, now, what);
      if what.SinkTakes? {
        WritingSoils(config, now, what);
        hide Due, Unspoken, Read, ReadAll, Settles;
        if facts == [] {
          K.ReadNone(config, v, what);
        } else {
          assert Accepts(facts);
          K.ReadOne(config, v, what, facts[0]);
          FactSoils(config, v, what, facts[0]);
        }
      } else {
        OnlyTheSinkAccepts(config, now, what);
        hide Due, Unspoken, ReadAll, Settles;
        FactsSoil(config, v, what, facts);
      }
    }
  }

  lemma SoilAtFirst(config: Config, env: seq<Tick>)
    ensures !StoryOf(config, env, 0).dirty && !Unflushed(config, env, 0)
  {
  }

  lemma {:induction false} UnflushedIs(config: Config, env: seq<Tick>, n: nat)
    requires config.Valid() && n <= |env|
    ensures StoryOf(config, env, n).dirty == Unflushed(config, env, n)
  {
    hide NewFacts, LogAt, InTime, StoryOf, Told, Facts, LifeOf, Counts, Run, Settles, Tell, P.Outage;
    if n == 0 {
      SoilAtFirst(config, env);
    } else {
      UnflushedIs(config, env, n - 1);
      NextStory(config, env, n - 1);
      Grows(config, env, n - 1);
      P.TickIs(config, env, n - 1);
      TellingSoils(config, StoryOf(config, env, n - 1), env[n - 1]);
    }
  }

  lemma FactsCut(config: Config, t: Story, tick: Tick, at: nat)
    ensures Emitted(Disconnected, at) in Facts(config, t, tick) <==>
            Counts(t, tick) && Cuts(config, t.(clock := tick.at), tick.what) && at == tick.at
  {
    CutsExactly(config, t.(clock := tick.at), tick.what, at);
    hide Due, Cuts;
  }

  /**
   * A connection ends, over every run, if and only if the dial failed, or the open socket failed while it had something
   * to take or to flush, was closed or failed to read, or was given up by the watchdog.
   */
  lemma LossesAreExact(config: Config, env: seq<Tick>, n: nat, at: nat)
    requires config.Valid() && n < |env|
    ensures var log, owed, wanted := LogAt(config, env, n), Owed(config, env, n), Wanted(config, env, n);
            Emitted(Disconnected, at) in NewFacts(config, env, n) <==>
            && at == env[n].at && InTime(config, env, n)
            && if LifeOf(log).Announced? then env[n].what.DialFailed?
               else
                 LifeOf(log).Online? &&
                 match env[n].what
                 case SinkFails => |Sent(log)| < |owed| || (LoggedIn(log) && |Written(log)| < |wanted|)
                 case FlushFails => Unflushed(config, env, n)
                 case Arrives(frame, _) => frame.CloseFrame?
                 case EndOfStream => true
                 case ReadFails => true
                 case TimerFires => TooLate(config, env, n, env[n].at)
                 case _ => false
  {
    hide NewFacts, LogAt, InTime, StoryOf, Told, Facts, LifeOf, Counts, Run, Wanted, Written, Owed, Sent, LoggedIn,
         LoginCall, TooLate, GivesUp, Probes, Probing, Unflushed, Watched, Tell, P.Outage, K.Knows, T.Count;
    var t, tick := StoryOf(config, env, n), env[n];
    StoryAt(config, env, n);
    Grows(config, env, n);
    P.TickIs(config, env, n);
    OwesIs(config, env, n);
    WantedIs(config, env, n);
    UnflushedIs(config, env, n);
    WatchIs(config, env, n);
    ProbesIs(config, env, n);
    FactsCut(config, t, tick, at);
  }
}
