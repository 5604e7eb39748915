/**
 * What reaches whom in every run, told from the log and the ticks: the replies callers get, the frames the
 * server gets, and the events the application gets.
 */
module RunnerDelivery {
  import opened Prelude
  import opened Protocol
  import opened RunnerModel
  import opened RunnerContract
  import opened RunnerStory
  import opened RunnerLog
  import Correlate
  import K = RunnerKnowledge
  import Retold = RunnerRetold
  import S = RunnerSafety
  import Session
  import T = RunnerTheorems

  // ---- replies --------------------------------------------------------------------------------------------

  /** The tick brings this frame to an open socket. */
  predicate Brings(t: Story, what: Happening, message: ServerMessage) {
    t.life.Online? && what.Arrives? && what.frame == Text(message)
  }

  lemma {:induction false} RepliesHave(ids: Ids, answered: seq<string>, id: string)
    ensures Resolved(id) in Replies(ids, answered) <==> id in answered && Waits(ids, id)
    ensures forall f | f in Replies(ids, answered) :: f.Resolved?
    decreases |answered|
  {
    if answered != [] {
      var rest := answered[1..];
      assert answered == [answered[0]] + rest;
      if Waits(ids, answered[0]) {
        RepliesHave(SeeIds(ids, Resolved(answered[0])), rest, id);
      } else {
        RepliesHave(ids, rest, id);
      }
    }
  }

  /** Everything but the replies in what a frame leaves behind. */
  lemma ReadingHas(t: Story, message: ServerMessage, f: Fact)
    ensures f in Reading(t, message) <==>
            f == Received(message) || f in Turning(t, message) || f in Replies(t.ids, Answered(message)) ||
            f in News(t, message)
  {
    hide Turning, Replies, Answered, News;
  }

  lemma HearingHas(t: Story, message: ServerMessage, f: Fact)
    ensures f in Hearing(t, Text(message)) <==>
            || f in Reading(t, message)
            || (Doom(t, message).Some? &&
                f in Downfall(t, SeeAll(t.ids, Reading(t, message)), Doom(t, message).value))
  {
    hide Reading, Downfall, Doom, SeeAll;
  }

  lemma ResolvedIn(config: Config, t: Story, what: Happening, id: string)
    ensures Resolved(id) in Due(config, t, what) <==>
            exists message :: Brings(t, what, message) && id in Answered(message) && Waits(t.ids, id)
  {
    hide Errors, Waits, Answered, Serves, SeeAll, Refusal, AnswersLogin, Correlate.IdOf, Delay, GivesUp, HasToWrite;
    if what.Arrives? && what.frame.Text? && t.life.Online? {
      var message := what.frame.message;
      RepliesHave(t.ids, Answered(message), id);
      HearingHas(t, message, Resolved(id));
      ReadingHas(t, message, Resolved(id));
      hide Reading, Hearing, Replies;
      assert Resolved(id) in Hearing(t, Text(message)) <==> id in Answered(message) && Waits(t.ids, id);
      assert Brings(t, what, message);
    } else {
      hide Reading, Replies;
    }
  }

  lemma ReceivedIn(config: Config, t: Story, what: Happening, message: ServerMessage)
    ensures Received(message) in Due(config, t, what) <==> Brings(t, what, message)
  {
    hide Errors, Waits, Answered, Serves, SeeAll, Refusal, AnswersLogin, Correlate.IdOf, Delay, GivesUp, HasToWrite;
    if what.Arrives? && what.frame.Text? && t.life.Online? {
      var frame := what.frame.message;
      RepliesHave(t.ids, Answered(frame), "");
      HearingHas(t, frame, Received(message));
      ReadingHas(t, frame, Received(message));
      hide Reading, Hearing, Replies;
    } else {
      hide Reading, Replies;
    }
  }

  lemma WaitsMeans(stableAfter: nat, log: seq<Fact>, id: string)
    requires Obeys(stableAfter, log)
    ensures Waits(Observe(stableAfter, log).ids, id) <==> T.Registrations(log, id) > T.Departures(log, id)
  {
    T.AtMostOnce(stableAfter, log, id);
    hide Obeys, Observe, T.Registrations, T.Departures;
  }

  /** The story counts what the log of the run counts. */
  lemma WaitsAt(config: Config, env: seq<Tick>, n: nat, id: string)
    requires config.Valid() && n <= |env|
    ensures Waits(StoryOf(config, env, n).ids, id) <==>
            T.Registrations(LogAt(config, env, n), id) > T.Departures(LogAt(config, env, n), id)
    ensures Obeys(config.stableAfter, LogAt(config, env, n))
  {
    hide Run, Told, StoryOf, Observe, Obeys, Waits, K.Base, K.Staged, K.Wired, K.Tuned, T.Registrations,
         T.Departures;
    Retold.EveryRunIsTold(config, env, n);
    S.EveryRunObeys(config, env, n);
    WaitsMeans(config.stableAfter, LogAt(config, env, n), id);
  }

  /** The frame answers the call: a result under its id, or the end or the start of its subscription. */
  predicate Answers(message: ServerMessage, id: string) {
    match message
    case Result(of, _, _) => of == id && IsCall(id)
    case Nosub(of, _) => of == id && IsSub(id)
    case SubsReady(ids) => id in ids && IsSub(id)
    case _ => false
  }

  lemma {:induction false} SubsMean(ids: seq<string>, id: string)
    ensures id in Subs(ids) <==> id in ids && IsSub(id)
  {
    if ids != [] {
      SubsMean(ids[1..], id);
    }
  }

  lemma AnsweredMeans(message: ServerMessage, id: string)
    ensures id in Answered(message) <==> Answers(message, id)
  {
    if message.SubsReady? {
      SubsMean(message.subs, id);
    }
    hide Subs;
  }

  /** What the caller is told: the error the frame carries, else the result it carries, else null. */
  predicate Tells(message: ServerMessage, reply: Correlate.Reply) {
    if (message.Result? || message.Nosub?) && message.error.Some? then
      reply == Correlate.Reply.Failure(Correlate.Server(message.error.value))
    else if message.Result? && message.result.Some? then reply == Correlate.Reply.Success(message.result.value)
    else reply == Correlate.Reply.Success(JsonNull)
  }

  lemma VerdictMeans(message: ServerMessage, reply: Correlate.Reply)
    ensures reply == Verdict(message) <==> Tells(message, reply)
  {
  }

  /**
   * A reply settles its call at once, over every run: in the tick that brings a `result` for a call that waits, a
   * `nosub`, or a `ready` listing the subscription, and in no other.
   */
  lemma RepliesFollow(config: Config, env: seq<Tick>, n: nat, id: string)
    requires config.Valid() && n < |env|
    ensures Resolved(id) in NewFacts(config, env, n) <==>
            exists message ::
              && Received(message) in NewFacts(config, env, n) && Answers(message, id)
              && T.Registrations(LogAt(config, env, n), id) > T.Departures(LogAt(config, env, n), id)
  {
    hide *;
    Grows(config, env, n);
    WaitsAt(config, env, n, id);
    forall message ensures id in Answered(message) <==> Answers(message, id) {
      AnsweredMeans(message, id);
    }
    FactsReply(config, StoryOf(config, env, n), env[n], id);
  }

  lemma FactsReply(config: Config, t: Story, tick: Tick, id: string)
    ensures Resolved(id) in Facts(config, t, tick) <==>
            exists message :: Received(message) in Facts(config, t, tick) && id in Answered(message) && Waits(t.ids, id)
  {
    var now := t.(clock := tick.at);
    ResolvedIn(config, now, tick.what, id);
    forall message ensures Received(message) in Due(config, now, tick.what) <==> Brings(now, tick.what, message) {
      ReceivedIn(config, now, tick.what, message);
    }
    hide Due, Waits, Answered, Brings;
  }

  /** What callers were handed, and for which calls. */
  function Handed(config: Config, env: seq<Tick>, n: nat): multiset<(string, Correlate.Reply)>
    requires n <= |env|
  {
    Run(config, env, n).methods.handed + Run(config, env, n).subs.handed
  }

  /**
   * The caller of `id` hears `reply`: the reply's error, else its result, else null, unless it hung up; or the
   * error its call was settled with.
   */
  ghost predicate Hears(what: Happening, facts: seq<Fact>, id: string, reply: Correlate.Reply) {
    || (Resolved(id) in facts && what.Arrives? && what.frame.Text? && id !in what.hungUp
        && Tells(what.frame.message, reply))
    || exists errors :: Settled(errors) in facts && id in errors && reply == Correlate.Reply.Failure(errors[id])
  }

  lemma ErrorsCount(errors: map<string, Correlate.CallError>, id: string, reply: Correlate.Reply)
    ensures Correlate.Errors(errors)[(id, reply)] ==
            if id in errors && reply == Correlate.Reply.Failure(errors[id]) then 1 else 0
  {
  }

  /** What one fact adds to what callers were handed. */
  function Adds(what: Happening, fact: Fact, id: string, reply: Correlate.Reply): nat {
    if || (fact == Resolved(id) && what.Arrives? && what.frame.Text? && id !in what.hungUp
           && Tells(what.frame.message, reply))
       || (fact.Settled? && id in fact.errors && reply == Correlate.Reply.Failure(fact.errors[id]))
    then 1 else 0
  }

  lemma ReadingGives(config: Config, t: Story, what: Happening, fact: Fact)
    ensures Read(config, t, what, fact).given ==
            t.given +
            match fact
            case Resolved(id) =>
              if what.Arrives? && what.frame.Text? && id !in what.hungUp
              then multiset{(id, Verdict(what.frame.message))} else multiset{}
            case Settled(errors) => Correlate.Errors(errors)
            case _ => multiset{}
  {
    hide SeeIds, Correlate.Errors, Verdict, Ordered, AnswersLogin;
  }

  lemma ReadingHands(config: Config, t: Story, what: Happening, fact: Fact, id: string, reply: Correlate.Reply)
    ensures Read(config, t, what, fact).given[(id, reply)] == t.given[(id, reply)] + Adds(what, fact, id, reply)
  {
    ReadingGives(config, t, what, fact);
    if fact.Settled? {
      ErrorsCount(fact.errors, id, reply);
    }
    if what.Arrives? && what.frame.Text? {
      VerdictMeans(what.frame.message, reply);
    }
    hide Read, Correlate.Errors, Verdict, Tells;
  }

  /** The call leaves its table at most once. */
  predicate Once(facts: seq<Fact>, id: string) {
    forall i, j | 0 <= i < j < |facts| :: !(T.Leaves(facts[i], id) && T.Leaves(facts[j], id))
  }

  lemma OnceFirst(first: Fact, rest: seq<Fact>, id: string)
    requires Once([first] + rest, id)
    ensures Once(rest, id) && forall f | f in rest :: !(T.Leaves(first, id) && T.Leaves(f, id))
  {
    var facts := [first] + rest;
    forall i, j | 0 <= i < j < |rest| ensures !(T.Leaves(rest[i], id) && T.Leaves(rest[j], id)) {
      assert facts[i + 1] == rest[i] && facts[j + 1] == rest[j];
    }
    forall f | f in rest ensures !(T.Leaves(first, id) && T.Leaves(f, id)) {
      var j :| 0 <= j < |rest| && rest[j] == f;
      assert facts[0] == first && facts[j + 1] == f;
    }
  }

  /** Each fact that lets the call leave its table lets its caller hear something; it leaves at most once. */
  lemma {:induction false} FactsHand(
      config: Config, t: Story, what: Happening, facts: seq<Fact>, id: string, reply: Correlate.Reply)
    requires Once(facts, id)
    ensures ReadAll(config, t, what, facts).given[(id, reply)] ==
            t.given[(id, reply)] + if Hears(what, facts, id, reply) then 1 else 0
    decreases |facts|
  {
    hide Read, Tells, Once, Hears, T.Leaves;
    if facts == [] {
      NothingHeard(what, id, reply);
    } else {
      ReadingHands(config, t, what, facts[0], id, reply);
      var rest := facts[1..];
      assert facts == [facts[0]] + rest;
      OnceFirst(facts[0], rest, id);
      FactsHand(config, Read(config, t, what, facts[0]), what, rest, id, reply);
      HearsFirst(what, facts[0], rest, id, reply);
    }
  }

  lemma NothingHeard(what: Happening, id: string, reply: Correlate.Reply)
    ensures !Hears(what, [], id, reply)
  {
  }

  lemma HearsFirst(what: Happening, first: Fact, rest: seq<Fact>, id: string, reply: Correlate.Reply)
    requires forall f | f in rest :: !(T.Leaves(first, id) && T.Leaves(f, id))
    ensures (if Hears(what, [first] + rest, id, reply) then 1 else 0) ==
            Adds(what, first, id, reply) + if Hears(what, rest, id, reply) then 1 else 0
  {
    hide Tells;
    assert forall f :: f in [first] + rest <==> f == first || f in rest;
    if Hears(what, rest, id, reply) {
      if Resolved(id) in rest {
        assert T.Leaves(Resolved(id), id);
      } else {
        var errors :| Settled(errors) in rest && id in errors;
        assert T.Leaves(Settled(errors), id);
      }
    }
  }

  lemma {:induction false} CountAtLeast(log: seq<Fact>, p: Fact -> bool, i: nat, j: nat)
    requires j < |log| && p(log[j]) && i <= j && p(log[i])
    ensures T.Count(log, p) >= if i < j then 2 else 1
  {
    if j < |log| - 1 {
      CountAtLeast(log[..|log| - 1], p, i, j);
    } else if i < j {
      CountAtLeast(log[..|log| - 1], p, i, i);
    }
  }

  lemma LeavesOnce(stableAfter: nat, log: seq<Fact>, id: string, i: nat, j: nat)
    requires Obeys(stableAfter, log) && i < j < |log|
    ensures !(T.Leaves(log[i], id) && T.Leaves(log[j], id))
  {
    T.AtMostOnce(stableAfter, log, id);
    hide Obeys, Observe, T.Leaves;
    if T.Leaves(log[i], id) && T.Leaves(log[j], id) {
      CountAtLeast(log, fact => T.Leaves(fact, id), i, j);
    }
  }

  lemma OnceAfter(stableAfter: nat, before: seq<Fact>, facts: seq<Fact>, id: string)
    requires Obeys(stableAfter, before + facts)
    ensures Once(facts, id)
  {
    hide Obeys, T.Leaves;
    var log := before + facts;
    forall i, j | 0 <= i < j < |facts| ensures !(T.Leaves(facts[i], id) && T.Leaves(facts[j], id)) {
      LeavesOnce(stableAfter, log, id, |before| + i, |before| + j);
      assert log[|before| + i] == facts[i] && log[|before| + j] == facts[j];
    }
  }

  lemma UnspokenGiven(config: Config, t: Story, what: Happening)
    ensures Unspoken(config, t, what).given == t.given
  {
  }

  lemma TickHands(config: Config, t: Story, tick: Tick, id: string, reply: Correlate.Reply)
    requires Once(Facts(config, t, tick), id)
    ensures Tell(config, t, tick).given[(id, reply)] ==
            t.given[(id, reply)] + if Hears(tick.what, Facts(config, t, tick), id, reply) then 1 else 0
  {
    if Counts(t, tick) {
      var now := t.(clock := tick.at);
      UnspokenGiven(config, now, tick.what);
      hide Hears, ReadAll, Due, Unspoken, Once;
      FactsHand(config, Unspoken(config, now, tick.what), tick.what, Due(config, now, tick.what), id, reply);
    }
  }

  /**
   * What callers are handed, over every run: one entry for each answer and each settling error that is due to the
   * caller, and nothing else.
   */
  lemma CallersHearExactly(config: Config, env: seq<Tick>, n: nat, id: string, reply: Correlate.Reply)
    requires config.Valid() && n < |env|
    ensures Handed(config, env, n + 1)[(id, reply)] ==
            Handed(config, env, n)[(id, reply)] + if Hears(env[n].what, NewFacts(config, env, n), id, reply)
              then 1 else 0
  {
    hide *;
    Grows(config, env, n);
    GivenAt(config, env, n);
    GivenAt(config, env, n + 1);
    WaitsAt(config, env, n + 1, id);
    var before, facts := LogAt(config, env, n), NewFacts(config, env, n);
    OnceAfter(config.stableAfter, before, facts, id);
    NextStory(config, env, n);
    TickHands(config, StoryOf(config, env, n), env[n], id, reply);
  }

  lemma GivenAt(config: Config, env: seq<Tick>, n: nat)
    requires config.Valid() && n <= |env|
    ensures Handed(config, env, n) == StoryOf(config, env, n).given
  {
    hide Run, Told, StoryOf, Observe, K.Staged, K.Wired, K.Tuned, K.Frames;
    Retold.EveryRunIsTold(config, env, n);
  }
}
