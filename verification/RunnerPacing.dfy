/**
 * How attempts are counted and paced in every run, told from the log and the ticks: the number an attempt
 * is announced with, and the earliest and the only moments at which it is announced.
 */
module RunnerPacing {
  import opened Prelude
  import opened Protocol
  import opened RunnerModel
  import opened RunnerContract
  import opened RunnerStory
  import opened RunnerLog
  import Backoff
  import Correlate
  import K = RunnerKnowledge
  import Session
  import T = RunnerTheorems

  // ---- counting -------------------------------------------------------------------------------------------

  /** Since when the session has been ready, told from the log. */
  function ReadySince(log: seq<Fact>): Option<nat> {
    if log == [] then None
    else
      match log[|log| - 1]
      case Emitted(ReadyNow(_), at) => Some(at)
      case Emitted(Disconnected, _) => None
      case _ => ReadySince(log[..|log| - 1])
  }

  /** The last fact is the loss of a session that had stayed ready long enough. */
  predicate LosesStable(stableAfter: nat, log: seq<Fact>) {
    && log != [] && log[|log| - 1].Emitted? && log[|log| - 1].event.Disconnected?
    && ReadySince(log[..|log| - 1]).Some?
    && log[|log| - 1].at - ReadySince(log[..|log| - 1]).value >= stableAfter
  }

  predicate Announces(fact: Fact) {
    fact.Emitted? && fact.event.Connecting?
  }

  /** The attempts announced since the start or the latest loss of a stable session. */
  function Outage(stableAfter: nat, log: seq<Fact>): nat {
    if log == [] || LosesStable(stableAfter, log) then 0
    else Outage(stableAfter, log[..|log| - 1]) + if Announces(log[|log| - 1]) then 1 else 0
  }

  /** The count starts at the beginning, or just after the latest loss of a stable session. */
  lemma {:induction false} OutageCounts(stableAfter: nat, log: seq<Fact>) returns (from: nat)
    ensures from <= |log| && Outage(stableAfter, log) == T.Count(log[from..], Announces)
    ensures from == 0 || LosesStable(stableAfter, log[..from])
    ensures forall i | from < i <= |log| :: !LosesStable(stableAfter, log[..i])
    decreases |log|
  {
    hide LosesStable;
    if log == [] {
      from := 0;
    } else if LosesStable(stableAfter, log) {
      from := |log|;
      assert log[..from] == log;
    } else {
      var before := log[..|log| - 1];
      from := OutageCounts(stableAfter, before);
      assert log[from..][..|log[from..]| - 1] == before[from..];
      assert before[..from] == log[..from];
      forall i | from < i <= |log| ensures !LosesStable(stableAfter, log[..i]) {
        if i < |log| {
          assert before[..i] == log[..i];
        } else {
          assert log[..i] == log;
        }
      }
    }
  }

  lemma ReadingOutage(config: Config, t: Story, what: Happening, log: seq<Fact>, fact: Fact)
    requires t.outage == Outage(config.stableAfter, log) && t.readySince == ReadySince(log)
    ensures var u := Read(config, t, what, fact);
            u.outage == Outage(config.stableAfter, log + [fact]) && u.readySince == ReadySince(log + [fact])
  {
    assert (log + [fact])[..|log|] == log;
    hide SeeIds, Ordered, Correlate.Errors, Verdict, AnswersLogin;
  }

  lemma {:induction false} ReadingOutages(config: Config, t: Story, what: Happening, log: seq<Fact>, facts: seq<Fact>)
    requires t.outage == Outage(config.stableAfter, log) && t.readySince == ReadySince(log)
    ensures var u := ReadAll(config, t, what, facts);
            u.outage == Outage(config.stableAfter, log + facts) && u.readySince == ReadySince(log + facts)
    decreases |facts|
  {
    hide Read, Outage, ReadySince;
    if facts == [] {
      assert log + facts == log;
    } else {
      assert log + facts == (log + [facts[0]]) + facts[1..];
      ReadingOutage(config, t, what, log, facts[0]);
      ReadingOutages(config, Read(config, t, what, facts[0]), what, log + [facts[0]], facts[1..]);
    }
  }

  lemma UnspokenOutage(config: Config, t: Story, what: Happening)
    ensures Unspoken(config, t, what).outage == t.outage && Unspoken(config, t, what).readySince == t.readySince
  {
  }

  /** Telling one tick takes a log that grows by the tick's facts along. */
  lemma TellingOutage(config: Config, t: Story, tick: Tick, log: seq<Fact>)
    requires t.outage == Outage(config.stableAfter, log) && t.readySince == ReadySince(log)
    ensures var u := Tell(config, t, tick);
            && u.outage == Outage(config.stableAfter, log + Facts(config, t, tick))
            && u.readySince == ReadySince(log + Facts(config, t, tick))
  {
    hide Outage, ReadySince, Due, Unspoken, ReadAll;
    if Counts(t, tick) {
      var now := t.(clock := tick.at);
      UnspokenOutage(config, now, tick.what);
      ReadingOutages(config, Unspoken(config, now, tick.what), tick.what, log, Due(config, now, tick.what));
    } else {
      assert log + [] == log;
    }
  }

  lemma {:induction false} OutageIs(config: Config, env: seq<Tick>, n: nat)
    requires n <= |env|
    ensures StoryOf(config, env, n).outage == Outage(config.stableAfter, Told(config, env, n))
    ensures StoryOf(config, env, n).readySince == ReadySince(Told(config, env, n))
  {
    hide StoryOf, Told, Facts, Tell, LosesStable, Announces;
    if n == 0 {
      FirstStory(config, env);
    } else {
      OutageIs(config, env, n - 1);
      NextStory(config, env, n - 1);
      TellingOutage(config, StoryOf(config, env, n - 1), env[n - 1], Told(config, env, n - 1));
    }
  }

  // ---- which ticks announce -------------------------------------------------------------------------------

  /** The tick ends the wait for the next attempt: a delay of nothing was drawn, or the pause is over. */
  predicate Ends(config: Config, t: Story, what: Happening) {
    t.life.Resting? &&
    if t.pause.None? then what.Jitter? && Delay(config, t.outage, what.roll) == 0
    else what.Wake? && t.clock >= t.pause.value
  }

  ghost predicate Quiet(facts: seq<Fact>) {
    forall f | f in facts :: !Announces(f)
  }

  lemma {:induction false} RepliesAreQuiet(ids: Ids, answered: seq<string>)
    ensures Quiet(Replies(ids, answered))
    decreases |answered|
  {
    if answered != [] {
      RepliesAreQuiet(ids, answered[1..]);
      RepliesAreQuiet(SeeIds(ids, Resolved(answered[0])), answered[1..]);
      hide SeeIds;
    }
  }

  lemma HearingIsQuiet(t: Story, frame: Inbound)
    ensures Quiet(Hearing(t, frame))
  {
    if frame.Text? {
      RepliesAreQuiet(t.ids, Answered(frame.message));
      hide Replies, Answered, Errors, SeeAll, Refusal;
      assert Quiet(Turning(t, frame.message)) && Quiet(News(t, frame.message));
      assert Quiet(Reading(t, frame.message));
    }
  }

  lemma SocketIsQuiet(config: Config, t: Story, what: Happening)
    ensures Quiet(Socket(config, t, what))
  {
    if what.Arrives? {
      HearingIsQuiet(t, what.frame);
    }
    hide Hearing, Errors, GivesUp, HasToWrite;
  }

  lemma AnnouncesExactly(config: Config, t: Story, what: Happening)
    ensures if Ends(config, t, what) then Due(config, t, what) == Announcement(t) else Quiet(Due(config, t, what))
  {
    SocketIsQuiet(config, t, what);
    hide Socket, Errors, Delay, Correlate.IdOf, Serves;
  }

  // ---- pauses ---------------------------------------------------------------------------------------------

  /** The tick that drew the delay of the pause now running, if one is running. */
  function Draw(config: Config, env: seq<Tick>, n: nat): Option<nat>
    requires n <= |env|
  {
    if n == 0 || !LifeOf(LogAt(config, env, n)).Resting? then None
    else if Draw(config, env, n - 1).Some? then Draw(config, env, n - 1)
    else if InTime(config, env, n - 1) && LifeOf(LogAt(config, env, n - 1)).Resting? && env[n - 1].what.Jitter? then
      Some(n - 1)
    else None
  }

  /** When the pause drawn at tick `p` is over. */
  function PauseEnd(config: Config, env: seq<Tick>, p: nat): nat
    requires p < |env|
  {
    env[p].at + if env[p].what.Jitter?
                then Delay(config, Outage(config.stableAfter, LogAt(config, env, p)), env[p].what.roll) else 0
  }

  lemma {:induction false} DrawMeans(config: Config, env: seq<Tick>, n: nat)
    requires n <= |env| && Draw(config, env, n).Some?
    ensures var p := Draw(config, env, n).value;
            && p < n && env[p].what.Jitter? && InTime(config, env, p) && Draw(config, env, p).None?
            && forall i | p <= i <= n :: LifeOf(LogAt(config, env, i)).Resting?
  {
    hide LogAt, LifeOf, InTime;
    if Draw(config, env, n - 1).Some? {
      DrawMeans(config, env, n - 1);
    }
  }

  lemma {:induction false} NoPauseComes(config: Config, t: Story, what: Happening, facts: seq<Fact>)
    requires t.pause.None?
    ensures ReadAll(config, t, what, facts).pause.None?
    decreases |facts|
  {
    if facts != [] {
      assert Read(config, t, what, facts[0]).pause.None? by { hide SeeIds; }
      hide Read;
      NoPauseComes(config, Read(config, t, what, facts[0]), what, facts[1..]);
    }
  }

  predicate Shapely(t: Story) {
    t.life.Resting? || t.pause.None?
  }

  lemma OrdersKeepPausing(config: Config, t: Story, u: Story, what: Happening)
    requires what.Asks? && t.life.Resting? && u.life.Resting? && u.pause == t.pause
    ensures var v := ReadAll(config, u, what, Orders(t, what.command, what.listening));
            (v.life.Resting? && v.pause == t.pause) || (v.life.Over? && v.pause.None?)
  {
    var facts := Orders(t, what.command, what.listening);
    hide SeeIds, Correlate.IdOf, Errors, Correlate.Errors, Read;
    K.ReadNone(config, u, what);
    if what.command.Shutdown? {
      GoodbyeEnds(config, t, u, what);
    } else if what.command.Unsubscribe? {
    } else {
      OrderKeepsPausing(config, u, what, facts[0]);
      K.ReadOne(config, u, what, facts[0]);
      if !what.listening {
        OrderKeepsPausing(config, Read(config, u, what, facts[0]), what, facts[1]);
        K.ReadTwo(config, u, what, facts[0], facts[1]);
      }
    }
  }

  lemma OrderKeepsPausing(config: Config, t: Story, what: Happening, fact: Fact)
    requires fact.Registered? || fact.Cancelled?
    ensures Read(config, t, what, fact).life == t.life && Read(config, t, what, fact).pause == t.pause
  {
    hide SeeIds;
  }

  lemma GoodbyeEnds(config: Config, t: Story, u: Story, what: Happening)
    requires t.life.Resting?
    ensures var v := ReadAll(config, u, what, Goodbye(t)); v.life.Over? && v.pause.None?
  {
    K.ReadTwo(config, u, what, Settled(Errors(t.ids)), Returned);
    hide SeeIds, Errors, Correlate.Errors, ReadAll;
  }

  lemma AnnouncementEnds(config: Config, t: Story, u: Story, what: Happening)
    ensures var v := ReadAll(config, u, what, Announcement(t)); v.life.Announced? && v.pause.None?
  {
    K.ReadOne(config, u, what, Announcement(t)[0]);
    hide SeeIds, ReadAll, Backoff.Min;
  }

  /** What a tick makes of the pause. */
  lemma PauseAfter(config: Config, t: Story, what: Happening)
    requires Shapely(t)
    ensures var u := ReadAll(config, Unspoken(config, t, what), what, Due(config, t, what));
            && (!u.life.Resting? || !t.life.Resting? ==> u.pause.None?)
            && (u.life.Resting? && t.life.Resting? ==>
                  u.pause == if t.pause.None? && what.Jitter? then Some(t.clock + Delay(config, t.outage, what.roll))
                             else t.pause)
  {
    var v := Unspoken(config, t, what);
    hide SeeIds, Errors, Correlate.Errors, Correlate.IdOf, Read, ReadAll, Orders, Delay, Serves, Socket, Goodbye,
         Announcement;
    K.ReadNone(config, v, what);
    if !t.life.Resting? {
      assert v.pause.None? by { hide Due; }
      NoPauseComes(config, v, what, Due(config, t, what));
    } else if what.Asks? {
      OrdersKeepPausing(config, t, v, what);
    } else {
      GoodbyeEnds(config, t, v, what);
      AnnouncementEnds(config, t, v, what);
    }
  }

  lemma TellingPause(config: Config, t: Story, tick: Tick)
    requires Shapely(t)
    ensures var u := Tell(config, t, tick);
            if !Counts(t, tick) then u == t
            else
              && (!u.life.Resting? || !t.life.Resting? ==> u.pause.None?)
              && (u.life.Resting? && t.life.Resting? ==>
                    u.pause == if t.pause.None? && tick.what.Jitter?
                               then Some(tick.at + Delay(config, t.outage, tick.what.roll)) else t.pause)
  {
    PauseAfter(config, t.(clock := tick.at), tick.what);
    hide Due, Unspoken, ReadAll, Delay;
  }

  /** The pause the story tells of. */
  predicate PauseFits(config: Config, env: seq<Tick>, n: nat)
    requires n <= |env|
  {
    var t, draw := StoryOf(config, env, n), Draw(config, env, n);
    && (draw.Some? ==> draw.value < n)
    && t.pause == if draw.Some? && draw.value < n then Some(PauseEnd(config, env, draw.value)) else None
  }

  lemma DrawNext(config: Config, env: seq<Tick>, n: nat)
    requires config.Valid() && n < |env|
    ensures Draw(config, env, n + 1) ==
            if !LifeOf(LogAt(config, env, n + 1)).Resting? then None
            else if Draw(config, env, n).Some? then Draw(config, env, n)
            else if InTime(config, env, n) && LifeOf(LogAt(config, env, n)).Resting? && env[n].what.Jitter? then Some(n)
            else None
    ensures !LifeOf(LogAt(config, env, n)).Resting? ==> Draw(config, env, n).None?
  {
    hide LogAt, LifeOf, InTime;
  }

  /** Both sides of a tick, in the story's terms. */
  lemma TickIs(config: Config, env: seq<Tick>, n: nat)
    requires config.Valid() && n < |env|
    ensures var t, u := StoryOf(config, env, n), StoryOf(config, env, n + 1);
            && u == Tell(config, t, env[n])
            && t.life == LifeOf(LogAt(config, env, n)) && u.life == LifeOf(LogAt(config, env, n + 1))
            && (InTime(config, env, n) <==> Counts(t, env[n]))
            && t.outage == Outage(config.stableAfter, LogAt(config, env, n))
  {
    Grows(config, env, n);
    CountedMeans(config, env, n);
    LifeIs(config, env, n + 1);
    OutageIs(config, env, n);
    hide LogAt, LifeOf, InTime, Tell, Outage, Told, Counts, Run;
  }

  lemma NoPauseYet(config: Config, env: seq<Tick>)
    ensures PauseFits(config, env, 0)
  {
  }

  lemma {:induction false} PauseIs(config: Config, env: seq<Tick>, n: nat)
    requires config.Valid() && n <= |env|
    ensures PauseFits(config, env, n)
  {
    hide StoryOf, Draw, LogAt, LifeOf, InTime, Outage, Delay, Tell, Counts, Run;
    if n == 0 {
      NoPauseYet(config, env);
    } else {
      PauseIs(config, env, n - 1);
      TickIs(config, env, n - 1);
      DrawNext(config, env, n - 1);
      TellingPause(config, StoryOf(config, env, n - 1), env[n - 1]);
    }
  }

  // ---- the theorems ---------------------------------------------------------------------------------------

  /**
   * Exactly when an attempt is announced, over every run: while none is under way, at the first tick that draws
   * a delay of nothing, or at the first wake-up no earlier than the drawing plus the delay drawn. The number it
   * is announced with is how many were announced since the start or the latest loss of a stable session.
   */
  lemma AttemptsArePacedExactly(config: Config, env: seq<Tick>, n: nat)
    requires config.Valid() && n < |env|
    ensures var log, draw := LogAt(config, env, n), Draw(config, env, n);
            (exists fact | fact in NewFacts(config, env, n) :: Announces(fact)) <==>
            && InTime(config, env, n) && LifeOf(log).Resting?
            && if draw.Some? && draw.value < n then env[n].what.Wake? && env[n].at >= PauseEnd(config, env, draw.value)
               else env[n].what.Jitter? && Delay(config, Outage(config.stableAfter, log), env[n].what.roll) == 0
    ensures (exists fact | fact in NewFacts(config, env, n) :: Announces(fact)) ==>
              var outage := Outage(config.stableAfter, LogAt(config, env, n));
              NewFacts(config, env, n) == [Emitted(Connecting(Backoff.Min(outage, Backoff.U32_MAX - 1)), env[n].at)]
  {
    hide StoryOf, Draw, LogAt, LifeOf, InTime, Outage, Delay, Tell, Counts, Run, NewFacts, Facts, Told, PauseEnd,
         Announces, Backoff.Min;
    var t, tick := StoryOf(config, env, n), env[n];
    TickIs(config, env, n);
    Grows(config, env, n);
    PauseIs(config, env, n);
    FactsAnnounce(config, t, tick);
  }

  lemma FactsAnnounce(config: Config, t: Story, tick: Tick)
    ensures var now := t.(clock := tick.at);
            if Counts(t, tick) && Ends(config, now, tick.what)
            then Facts(config, t, tick) == Announcement(now) &&
              exists fact | fact in Facts(config, t, tick) :: Announces(fact)
            else Quiet(Facts(config, t, tick))
  {
    AnnouncesExactly(config, t.(clock := tick.at), tick.what);
    hide Ends, Due, Backoff.Min;
    assert Announces(Announcement(t.(clock := tick.at))[0]);
  }

  lemma NothingLoggedYet(config: Config, env: seq<Tick>)
    ensures LogAt(config, env, 0) == []
  {
  }

  lemma SaturatesAbove(outage: nat)
    ensures Backoff.Min(outage, Backoff.U32_MAX - 1) == 0 <==> outage == 0
  {
  }

  /** The number an attempt is announced with, at any place of the log of any run. */
  lemma {:induction false} AttemptsAreCounted(config: Config, env: seq<Tick>, n: nat, i: nat)
    requires config.Valid() && n <= |env|
    requires i < |LogAt(config, env, n)| && Announces(LogAt(config, env, n)[i])
    ensures var log := LogAt(config, env, n); var outage := Outage(config.stableAfter, log[..i]);
            && log[i].event.attempt == Backoff.Min(outage, Backoff.U32_MAX - 1)
            && (log[i].event.attempt == 0 <==> outage == 0)
    decreases n
  {
    hide *;
    if n == 0 {
      NothingLoggedYet(config, env);
    } else {
      SaturatesAbove(Outage(config.stableAfter, LogAt(config, env, n)[..i]));
      Grows(config, env, n - 1);
      var log, before := LogAt(config, env, n), LogAt(config, env, n - 1);
      if i < |before| {
        AttemptsAreCounted(config, env, n - 1, i);
        assert log[..i] == before[..i];
      } else {
        AttemptsArePacedExactly(config, env, n - 1);
        assert log[i] in NewFacts(config, env, n - 1);
        assert log[..i] == before;
      }
    }
  }

  /**
   * The delays that can be drawn when so many attempts were announced: the window doubles from the base up to
   * the cap.
   */
  lemma DelaysAre(config: Config, outage: nat, delay: nat)
    requires config.backoffCap <= Backoff.DURATION_MAX
    ensures var base, cap := config.backoffBase, config.backoffCap;
            (exists roll: nat :: Delay(config, outage, roll) == delay) <==>
            && delay % Backoff.MILLI == 0 && delay <= Backoff.U64_MAX * Backoff.MILLI
            && delay <= if outage == 0 then 0
                        else Backoff.Min(cap, base * if outage <= 32 then Backoff.Pow2(outage - 1) else Backoff.U32_MAX)
  {
    var window := Backoff.Window(config.backoffBase, config.backoffCap, outage);
    Backoff.Schedule(config.backoffBase, config.backoffCap, outage);
    Backoff.DrawnExactly(window, delay);
    hide Backoff.Window, Backoff.Drawn, Backoff.Pow2, Backoff.Min;
    if roll: nat :| Delay(config, outage, roll) == delay {
      assert Backoff.Drawn(window, roll) == delay;
    }
    if roll: nat :| Backoff.Drawn(window, roll) == delay {
      assert Delay(config, outage, roll) == delay;
    }
  }
}
