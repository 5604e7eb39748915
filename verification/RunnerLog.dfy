/** The log of a run, tick by tick. */
module RunnerLog {
  import opened Prelude
  import opened RunnerModel
  import opened RunnerContract
  import opened RunnerStory
  import K = RunnerKnowledge
  import Retold = RunnerRetold

  function LogAt(config: Config, env: seq<Tick>, n: nat): seq<Fact>
    requires n <= |env|
  {
    Run(config, env, n).log
  }

  /** The facts tick number `n` leaves behind. */
  function NewFacts(config: Config, env: seq<Tick>, n: nat): seq<Fact>
    requires n < |env|
  {
    var before, after := LogAt(config, env, n), LogAt(config, env, n + 1);
    if |before| <= |after| then after[|before|..] else []
  }

  lemma Grows(config: Config, env: seq<Tick>, n: nat)
    requires config.Valid() && n < |env|
    ensures LogAt(config, env, n) == Told(config, env, n) && LogAt(config, env, n + 1) == Told(config, env, n + 1)
    ensures LogAt(config, env, n + 1) == LogAt(config, env, n) + NewFacts(config, env, n)
    ensures NewFacts(config, env, n) == Facts(config, StoryOf(config, env, n), env[n])
  {
    Retold.EveryRunIsTold(config, env, n);
    Retold.EveryRunIsTold(config, env, n + 1);
    hide Run, Facts, K.Knows;
  }

  lemma NextStory(config: Config, env: seq<Tick>, n: nat)
    requires n < |env|
    ensures StoryOf(config, env, n + 1) == Tell(config, StoryOf(config, env, n), env[n])
    ensures Told(config, env, n + 1) == Told(config, env, n) + Facts(config, StoryOf(config, env, n), env[n])
  {
    hide Tell, Facts;
  }

  lemma FirstStory(config: Config, env: seq<Tick>)
    ensures StoryOf(config, env, 0) == BEGINNING && Told(config, env, 0) == []
    ensures BEGINNING.asked == [] && BEGINNING.life.Resting? && BEGINNING.clock == BEGINNING.outage == 0
    ensures BEGINNING.readySince.None?
  {
  }

  /** What the runner is doing, told from the log. */
  function LifeOf(log: seq<Fact>): Life {
    if log == [] then Resting
    else
      match log[|log| - 1]
      case Opened => Online
      case Settled(_) => Resting
      case Returned => Over
      case Emitted(Connecting(_), _) => Announced
      case _ => LifeOf(log[..|log| - 1])
  }

  /** The latest of the first `n` ticks. */
  function Latest(env: seq<Tick>, n: nat): nat
    requires n <= |env|
  {
    if n == 0 then 0 else if env[n - 1].at >= Latest(env, n - 1) then env[n - 1].at else Latest(env, n - 1)
  }

  /** Ticks from the past, and ticks after the return, do not count. */
  predicate InTime(config: Config, env: seq<Tick>, n: nat)
    requires n < |env|
  {
    env[n].at >= Latest(env, n) && !LifeOf(LogAt(config, env, n)).Over?
  }

  lemma ReadingLife(config: Config, t: Story, what: Happening, log: seq<Fact>, fact: Fact)
    requires t.life == LifeOf(log)
    ensures Read(config, t, what, fact).life == LifeOf(log + [fact]) && Read(config, t, what, fact).clock == t.clock
  {
    assert (log + [fact])[..|log|] == log;
    hide SeeIds;
  }

  lemma {:induction false} ReadingLives(config: Config, t: Story, what: Happening, log: seq<Fact>, facts: seq<Fact>)
    requires t.life == LifeOf(log)
    ensures var u := ReadAll(config, t, what, facts); u.life == LifeOf(log + facts) && u.clock == t.clock
    decreases |facts|
  {
    hide Read, LifeOf;
    if facts == [] {
      assert log + facts == log;
    } else {
      assert log + facts == (log + [facts[0]]) + facts[1..];
      ReadingLife(config, t, what, log, facts[0]);
      ReadingLives(config, Read(config, t, what, facts[0]), what, log + [facts[0]], facts[1..]);
    }
  }

  lemma UnspokenLife(config: Config, t: Story, what: Happening)
    ensures var u := Unspoken(config, t, what); u.life == t.life && u.clock == t.clock && u.ids == t.ids
  {
  }

  lemma TellingLife(config: Config, t: Story, tick: Tick, log: seq<Fact>)
    requires t.life == LifeOf(log)
    ensures var u := Tell(config, t, tick);
            && u.life == LifeOf(log + Facts(config, t, tick))
            && u.clock == if Counts(t, tick) then tick.at else t.clock
  {
    hide LifeOf, Due, Unspoken, ReadAll;
    if Counts(t, tick) {
      var now := t.(clock := tick.at);
      UnspokenLife(config, now, tick.what);
      ReadingLives(config, Unspoken(config, now, tick.what), tick.what, log, Due(config, now, tick.what));
    } else {
      assert log + [] == log;
    }
  }

  lemma {:induction false} LifeIs(config: Config, env: seq<Tick>, n: nat)
    requires n <= |env|
    ensures StoryOf(config, env, n).life == LifeOf(Told(config, env, n))
    ensures !StoryOf(config, env, n).life.Over? ==> StoryOf(config, env, n).clock == Latest(env, n)
  {
    hide StoryOf, Told, Facts, Tell;
    if n == 0 {
      FirstStory(config, env);
    } else {
      LifeIs(config, env, n - 1);
      NextStory(config, env, n - 1);
      var t, tick := StoryOf(config, env, n - 1), env[n - 1];
      TellingLife(config, t, tick, Told(config, env, n - 1));
      if t.life.Over? {
        OverStays(config, t, tick);
      }
    }
  }

  lemma OverStays(config: Config, t: Story, tick: Tick)
    requires t.life.Over?
    ensures Tell(config, t, tick) == t && Facts(config, t, tick) == []
  {
  }

  lemma CountedMeans(config: Config, env: seq<Tick>, n: nat)
    requires config.Valid() && n < |env|
    ensures InTime(config, env, n) <==> Counts(StoryOf(config, env, n), env[n])
    ensures StoryOf(config, env, n).life == LifeOf(LogAt(config, env, n))
    ensures InTime(config, env, n) ==> StoryOf(config, env, n).clock == Latest(env, n)
  {
    Grows(config, env, n);
    LifeIs(config, env, n);
    hide LogAt, LifeOf, StoryOf, Latest, Run;
  }
}
