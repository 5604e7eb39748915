/** The runner leaves behind exactly the facts of the story, tick by tick. */
module RunnerRetold {
  import opened Prelude
  import opened Protocol
  import opened RunnerModel
  import opened RunnerContract
  import opened RunnerKnowledge
  import opened RunnerStory
  import Backoff
  import Correlate
  import S = RunnerSafety
  import Session

  // ---- one tick -------------------------------------------------------------------------------------------------

  /** The state `n` is what the story expects of this tick. */
  ghost predicate Follows(config: Config, s: State, t: Story, what: Happening, n: State) {
    var facts := Due(config, t, what);
    n.log == s.log + facts && Fits(config, n, ReadAll(config, Unspoken(config, t, what), what, facts))
  }

  ghost predicate Fits(config: Config, n: State, u: Story) {
    && Base(config, n, u) && Staged(n, u)
    && (!u.life.Over? ==> Paced(n, u) && (u.life.Online? || !u.dirty))
    && (u.life.Online? ==> Wired(config, n, u) && Tuned(n))
  }

  lemma FollowsBy(config: Config, s: State, t: Story, what: Happening, n: State, facts: seq<Fact>, u: Story)
    requires facts == Due(config, t, what) && u == ReadAll(config, Unspoken(config, t, what), what, facts)
    requires n.log == s.log + facts && Fits(config, n, u)
    ensures Follows(config, s, t, what, n)
  {
    hide Due, ReadAll, Unspoken, Fits;
  }

  lemma Nothing(config: Config, s: State, t: Story, what: Happening, n: State)
    requires Due(config, t, what) == [] && n.log == s.log && Fits(config, n, Unspoken(config, t, what))
    ensures Follows(config, s, t, what, n)
  {
    hide Due, Unspoken, Fits, Read;
    assert s.log + [] == s.log;
  }

  lemma WindowSaturates(base: nat, cap: nat, k: nat)
    ensures Backoff.Window(base, cap, Backoff.Min(k, Backoff.U32_MAX)) == Backoff.Window(base, cap, k)
  {
    hide Backoff.Pow2;
  }

  lemma DialKnown(config: Config, s: State, t: Story, what: Happening)
    requires Base(config, s, t) && s.attempt == Backoff.Min(t.outage + 1, Backoff.U32_MAX) && !t.dirty
    ensures Dial(s).log == s.log + Announcement(t)
    ensures Fits(config, Dial(s), ReadAll(config, t, what, Announcement(t)))
  {
    ReadOne(config, t, what, Announcement(t)[0]);
    assert Announcement(t) == [Announcement(t)[0]];
    hide ReadAll, SeeIds, Frames;
  }

  lemma PaceFollows(config: Config, s: State, t: Story, roll: nat)
    requires Fits(config, s, t) && t.life.Resting? && t.pause.None?
    ensures Follows(config, s, t, Jitter(roll), Pace(s, roll))
  {
    var paced := s.(attempt := Backoff.Bump(s.attempt));
    WindowSaturates(config.backoffBase, config.backoffCap, t.outage);
    hide Backoff.Window, Backoff.Drawn, Read, Frames;
    if Delay(config, t.outage, roll) == 0 {
      DialKnown(config, paced, t, Jitter(roll));
      FollowsBy(config, s, t, Jitter(roll), Dial(paced), Announcement(t),
        ReadAll(config, t, Jitter(roll), Announcement(t)));
    } else {
      Nothing(config, s, t, Jitter(roll), Pace(s, roll));
    }
  }

  lemma WakeFollows(config: Config, s: State, t: Story)
    requires Fits(config, s, t) && t.life.Resting? && t.pause.Some? && t.clock >= t.pause.value
    ensures Follows(config, s, t, Wake, Dial(s))
  {
    DialKnown(config, s, t, Wake);
    hide Read, Frames, Dial, ReadAll;
    FollowsBy(config, s, t, Wake, Dial(s), Announcement(t), ReadAll(config, t, Wake, Announcement(t)));
  }

  lemma RestingCommand(config: Config, s: State, t: Story, what: Happening)
    requires Fits(config, s, t) && t.life.Resting? && t.pause.Some? && Serves(config, t)
    requires what.Asks? && !what.command.Shutdown?
    ensures Follows(config, s, t, what, HandleCommand(s, what.command, what.listening))
    ensures HandleCommand(s, what.command, what.listening).shutdown == s.shutdown
  {
    var u := ReadAll(config, Unspoken(config, t, what), what, Orders(t, what.command, what.listening));
    CommandKnown(config, s, t, what, u);
    hide HandleCommand, ReadAll, Unspoken, Orders, Base, Wish;
    FollowsBy(config, s, t, what, HandleCommand(s, what.command, what.listening),
      Orders(t, what.command, what.listening), u);
  }

  lemma RestingGoodbye(config: Config, s: State, t: Story, what: Happening)
    requires Fits(config, s, t) && t.life.Resting? && t.pause.Some? && Serves(config, t)
    requires what.HandlesDropped? || (what.Asks? && what.command.Shutdown?)
    requires S.Ledger(s.methods, s.subs, s.unflushed, t.ids)
    ensures Follows(config, s, t, what, Finish(s.(shutdown := true)))
  {
    var ended, facts := s.(shutdown := true), Goodbye(t);
    assert Base(config, ended, t) && Due(config, t, what) == facts &&
      Unspoken(config, t, what) == t by { hide Errors, Frames; }
    assert facts == [Settled(Errors(t.ids)), Returned] && ended.log == s.log;
    assert S.Ledger(ended.methods, ended.subs, ended.unflushed, t.ids);
    hide *;
    FinishKnown(config, ended, t, what);
    OverFits(config, Finish(ended), ReadAll(config, t, what, facts));
    FollowsBy(config, s, t, what, Finish(ended), facts, ReadAll(config, t, what, facts));
  }

  lemma OpenFollows(config: Config, s: State, t: Story)
    requires Fits(config, s, t) && t.life.Announced? && s.priority == [] && !s.needsFlush
    ensures Follows(config, s, t, Dialled, StartDriving(s))
  {
    StartKnown(config, s, t, Dialled);
    hide StartDriving, ReadAll, Base, Wired, Tuned;
    FollowsBy(config, s, t, Dialled, StartDriving(s), [Opened], ReadAll(config, t, Dialled, [Opened]));
  }

  /** Any tick at which the connection is lost. */
  lemma LossFollows(config: Config, s: State, t: Story, what: Happening, v: Story)
    requires Base(config, s, v) && Paced(s, v) && v.pause.None? && !s.shutdown
    requires S.Ledger(s.methods, s.subs, s.unflushed, v.ids)
    requires v == Unspoken(config, t, what) && Due(config, t, what) == Loss(v)
    ensures Lost(s).log == s.log + Due(config, t, what)
    ensures Fits(config, Lost(s), ReadAll(config, Unspoken(config, t, what), what, Due(config, t, what)))
  {
    LossKnown(config, s, v, what);
    hide Base, Loss, Due, Unspoken, Lost, ReadAll, S.Ledger;
  }

  // ---- a tick while online ----------------------------------------------------------------------------------------

  /** Online, and nothing ended yet. */
  ghost predicate Running(config: Config, s: State, t: Story, o: Observed) {
    && Base(config, s, t) && Wired(config, s, t) && Paced(s, t) && Staged(s, t) && t.life.Online? && Tuned(s)
    && S.Alive(s, o) && S.OnLine(s, o) && !s.shutdown && t.ids == o.ids && s.liveness.lastSeen <= s.clock
  }

  lemma RunningLedger(config: Config, s: State, t: Story, o: Observed)
    requires Running(config, s, t, o)
    ensures S.Ledger(s.methods, s.subs, s.unflushed, t.ids) && Holds(s.methods, 'm', t.ids) && Holds(s.subs, 's', t.ids)
    ensures t.ids.settles % Correlate.EPOCHS == s.methods.epoch && S.Core(s, o) && !o.over
  {
    SoundHolds(s.methods, 'm', MethodIds(s.unflushed), t.ids);
    SoundHolds(s.subs, 's', SubIds(s.unflushed), t.ids);
    hide Holds, S.Queues, Observe, Obeys, S.Books;
  }

  lemma RunningParts(config: Config, s: State, t: Story, o: Observed)
    requires Running(config, s, t, o)
    ensures Base(config, s, t) && Wired(config, s, t) && Paced(s, t) && t.pause.None? && t.life.Online?
    ensures s.stage.Driving?
    ensures s.fatal.None? && !s.shutdown && Tuned(s) && Fits(config, s, t)
  {
    hide Base, Wired, Tuned, S.Core, S.OnLine;
  }

  lemma GoneState(s: State, outcome: Option<Outcome>)
    requires s.fatal.None? && !s.shutdown
    ensures Conclude(s, Some(Closed)) == Lost(s)
    ensures Conclude(s, None) == ArmTimer(s)
    ensures Conclude(s, Some(ShutDown)) == Close(s, Quit)
    ensures Conclude(s.(shutdown := true), None) == Close(s.(shutdown := true), Quit)
  {
    assert s.(fatal := None) == s && s.(shutdown := true).(fatal := None) == s.(shutdown := true);
    hide Lost, Settle, Finish, ArmTimer;
  }

  /** A tick that ends the connection and marks nothing. */
  lemma GoneFollows(config: Config, s: State, t: Story, o: Observed, what: Happening)
    requires Running(config, s, t, o) && Due(config, t, what) == Loss(t) && Unspoken(config, t, what) == t
    ensures Follows(config, s, t, what, Conclude(s, Some(Closed)))
  {
    hide *;
    RunningParts(config, s, t, o);
    RunningLedger(config, s, t, o);
    GoneState(s, None);
    LossFollows(config, s, t, what, t);
    FollowsBy(config, s, t, what, Lost(s), Due(config, t, what), ReadAll(config, t, what, Due(config, t, what)));
  }

  lemma SameTuning(s: State, n: State)
    requires Tuned(s) && n.handshake == s.handshake && n.liveness == s.liveness
    requires n.timer == s.timer && n.clock == s.clock
    ensures Tuned(n)
  {
    forall at: nat | at >= n.clock ensures at >= n.timer <==> Overdue(n, at) {
      assert at >= s.timer <==> Overdue(s, at);
    }
  }

  lemma SinkFollows(config: Config, s: State, t: Story, o: Observed)
    requires Running(config, s, t, o) && CanWrite(s)
    ensures Follows(config, s, t, SinkTakes, WriteOne(s))
  {
    CanWriteSame(config, s, t);
    var u := ReadAll(config, t, SinkTakes, Writing(t));
    assert Due(config, t, SinkTakes) == Writing(t) && Unspoken(config, t, SinkTakes) == t;
    SameTuning(s, WriteOne(s));
    WriteKnown(config, s, t, SinkTakes, u);
    hide Due, Unspoken, ReadAll, Base, Wired, Tuned, Writing, S.Alive, S.OnLine;
    FollowsBy(config, s, t, SinkTakes, WriteOne(s), Writing(t), u);
  }

  lemma FlushFollows(config: Config, s: State, t: Story, o: Observed)
    requires Running(config, s, t, o)
    ensures Follows(config, s, t, FlushDone, if s.needsFlush then MarkUnflushed(s) else s)
  {
    RunningParts(config, s, t, o);
    var n := if s.needsFlush then MarkUnflushed(s) else s;
    SameTuning(s, n);
    hide Correlate.Table.MarkSent, MethodIds, SubIds, S.Alive, S.OnLine, Frames, Tuned;
    Nothing(config, s, t, FlushDone, n);
  }

  lemma QuitFollows(config: Config, s: State, t: Story, o: Observed, what: Happening, ended: State)
    requires Running(config, s, t, o) && ended == s.(shutdown := ended.shutdown)
    requires Due(config, t, what) == Goodbye(t) && Unspoken(config, t, what) == t
    ensures Follows(config, s, t, what, Close(ended, Quit))
  {
    var facts := Goodbye(t);
    RunningLedger(config, s, t, o);
    assert Base(config, ended, t) && S.Core(ended, o) by { RunningParts(config, s, t, o); SameCore(s, ended, o); }
    assert facts == [Settled(Errors(t.ids)), Settled(map[]), Returned] && ended.log == s.log;
    hide *;
    QuitKnown(config, ended, t, what, o, facts);
    OverFits(config, Close(ended, Quit), ReadAll(config, t, what, facts));
    FollowsBy(config, s, t, what, Close(ended, Quit), facts, ReadAll(config, t, what, facts));
  }

  lemma SameCore(s: State, ended: State, o: Observed)
    requires S.Core(s, o) && ended == s.(shutdown := ended.shutdown, fatal := ended.fatal)
    ensures S.Core(ended, o)
  {
    hide S.Ledger, S.Queues, Observe, Obeys;
  }

  lemma OverFits(config: Config, n: State, u: Story)
    requires Base(config, n, u) && Staged(n, u) && u.life.Over?
    ensures Fits(config, n, u)
  {
    hide Base;
  }

  lemma ArmFits(config: Config, h: State, u: Story)
    requires Base(config, h, u) && Wired(config, h, u) && Paced(h, u) && Staged(h, u) && u.life.Online?
    requires h.liveness.lastSeen <= h.clock
    ensures Fits(config, ArmTimer(h), u) && ArmTimer(h).log == h.log
  {
    ArmIsTuned(h);
    hide Tuned, Frames;
  }

  lemma OnlineCommand(config: Config, s: State, t: Story, o: Observed, what: Happening)
    requires Running(config, s, t, o) && Serves(config, t) && what.Asks? && !what.command.Shutdown?
    ensures Follows(config, s, t, what, Conclude(HandleCommand(s, what.command, what.listening), None))
  {
    var facts := Orders(t, what.command, what.listening);
    var u := ReadAll(config, Unspoken(config, t, what), what, facts);
    var h := HandleCommand(s, what.command, what.listening);
    assert Due(config, t, what) == facts;
    RunningParts(config, s, t, o);
    CommandKnown(config, s, t, what, u);
    hide HandleCommand, ReadAll, Unspoken, Orders, Base, Wish, Tuned, S.Alive, S.OnLine, Due, Frames;
    GoneState(h, None);
    ArmFits(config, h, u);
    FollowsBy(config, s, t, what, ArmTimer(h), facts, u);
  }

  lemma DeadlineFollows(config: Config, s: State, t: Story, o: Observed)
    requires Running(config, s, t, o) && config.Valid()
    ensures Follows(config, s, t, TimerFires, Drive(s, TimerFires))
  {
    RunningParts(config, s, t, o);
    assert s.clock >= s.timer <==> Overdue(s, s.clock);
    if s.clock < s.timer {
      NothingDue(config, s, t);
      Nothing(config, s, t, TimerFires, s);
    } else if GivesUp(config, t) {
      GivingUp(config, s, t);
      GoneFollows(config, s, t, o, TimerFires);
    } else {
      StayingOn(config, s, t);
    }
  }

  lemma NothingDue(config: Config, s: State, t: Story)
    requires Base(config, s, t) && Wired(config, s, t) && t.life.Online? && !Overdue(s, s.clock) && config.Valid()
    requires s.liveness.lastSeen <= s.clock
    ensures Due(config, t, TimerFires) == [] && Unspoken(config, t, TimerFires) == t
  {
    hide Frames;
  }

  lemma GivingUp(config: Config, s: State, t: Story)
    requires Base(config, s, t) && Wired(config, s, t) && t.life.Online? && GivesUp(config, t)
    ensures Due(config, t, TimerFires) == Loss(t) && Unspoken(config, t, TimerFires) == t
    ensures s.stage.Driving? && s.clock >= s.timer ==> Drive(s, TimerFires) == Conclude(s, Some(Closed))
  {
    hide Frames, Loss, Conclude;
  }

  lemma Checked(config: Config, s: State, t: Story, next: State, u: Story)
    requires Base(config, s, t) && Wired(config, s, t) && Paced(s, t) && Staged(s, t) && t.life.Online?
    requires !GivesUp(config, t) && s.fatal.None? && !s.shutdown && s.liveness.lastSeen <= s.clock
    requires next == OnDeadline(s).0 && u == Unspoken(config, t, TimerFires)
    ensures OnDeadline(s).1.None? && Base(config, next, u) && Wired(config, next, u) && Paced(next, u)
    ensures Staged(next, u)
    ensures next.log == s.log && next.fatal.None? && !next.shutdown && next.liveness.lastSeen <= next.clock
    ensures u.life.Online?
  {
    FramesPush(s.priority, Outbound(Ping(None), None));
    assert t.sent + (Frames(s.priority) + [Ping(None)]) == (t.sent + Frames(s.priority)) + [Ping(None)];
    assert !(s.handshake.Some? && s.clock >= s.handshake.value);
    hide Frames;
  }

  lemma StayingOn(config: Config, s: State, t: Story)
    requires Base(config, s, t) && Wired(config, s, t) && Paced(s, t) && Staged(s, t) && t.life.Online?
    requires !GivesUp(config, t) && s.clock >= s.timer && s.fatal.None? && !s.shutdown && s.liveness.lastSeen <= s.clock
    ensures s.stage.Driving? && Follows(config, s, t, TimerFires, Drive(s, TimerFires))
  {
    var next, u := OnDeadline(s).0, Unspoken(config, t, TimerFires);
    assert Due(config, t, TimerFires) == [] && s.stage.Driving?;
    assert Drive(s, TimerFires) == Conclude(next, OnDeadline(s).1) by { hide Conclude, OnDeadline; }
    hide *;
    Checked(config, s, t, next, u);
    GoneState(next, None);
    ArmFits(config, next, u);
    Nothing(config, s, t, TimerFires, ArmTimer(next));
  }

  // ---- a frame --------------------------------------------------------------------------------------------------

  function Heard(s: State): State {
    s.(liveness := s.liveness.SawTraffic(s.clock))
  }

  lemma HeardKnown(config: Config, s: State, t: Story, o: Observed, what: Happening, v: Story)
    requires Running(config, s, t, o) && what.Arrives? && v == Unspoken(config, t, what)
    ensures v == t.(heardAt := t.clock, probed := false)
    ensures Base(config, Heard(s), v) && Wired(config, Heard(s), v) && Paced(Heard(s), v) && Staged(Heard(s), v)
    ensures S.Alive(Heard(s), o) && S.OnLine(Heard(s), o) && Heard(s).fatal.None? && !Heard(s).shutdown
    ensures Due(config, t, what) == Hearing(v, what.frame) && Heard(s).log == s.log
    ensures Heard(s).liveness.lastSeen <= Heard(s).clock
  {
    hide S.Ledger, S.Queues, Observe, Obeys, S.PongIds, S.Underway, Frames, Turning, Replies, News, SeeAll, Errors;
    SameHearing(t, v, what.frame);
  }

  lemma SameHearing(t: Story, v: Story, frame: Inbound)
    requires v == t.(heardAt := v.heardAt, probed := v.probed)
    ensures Hearing(v, frame) == Hearing(t, frame)
  {
    hide Replies, SeeAll, Errors, Refusal;
  }

  lemma ClosingFollows(config: Config, s: State, t: Story, o: Observed, what: Happening)
    requires Running(config, s, t, o) && what.Arrives? && what.frame.CloseFrame?
    ensures Follows(config, s, t, what, Conclude(Heard(s), Some(Closed)))
  {
    var v := Unspoken(config, t, what);
    assert Hearing(v, what.frame) == Loss(v);
    assert Heard(s).methods == s.methods && Heard(s).subs == s.subs && Heard(s).unflushed == s.unflushed;
    hide *;
    HeardKnown(config, s, t, o, what, v);
    RunningLedger(config, s, t, o);
    RunningParts(config, s, t, o);
    GoneState(Heard(s), None);
    LossFollows(config, Heard(s), t, what, v);
    FollowsBy(config, s, t, what, Lost(Heard(s)), Due(config, t, what), ReadAll(config, v, what, Due(config, t, what)));
  }

  lemma NoiseFollows(config: Config, s: State, t: Story, o: Observed, what: Happening)
    requires Running(config, s, t, o) && what.Arrives? && !what.frame.CloseFrame? && !what.frame.Text?
    ensures Follows(config, s, t, what, Conclude(Heard(s), None))
  {
    var v := Unspoken(config, t, what);
    assert Hearing(v, what.frame) == [] && v.life == t.life;
    hide *;
    HeardKnown(config, s, t, o, what, v);
    RunningParts(config, s, t, o);
    GoneState(Heard(s), None);
    ArmFits(config, Heard(s), v);
    Nothing(config, s, t, what, ArmTimer(Heard(s)));
  }

  lemma TextFits(config: Config, s: State, t: Story, message: ServerMessage, h: State, u: Story)
    requires TextRead(config, s, t, message, h, u) && Doom(t, message).None? && !s.shutdown
    requires Paced(s, t) && Staged(s, t) && t.life.Online? && s.liveness.lastSeen <= s.clock
    ensures Paced(h, u) && Staged(h, u) && u.life.Online? && h.fatal.None? && !h.shutdown
    ensures Base(config, h, u) && Wired(config, h, u) && h.liveness.lastSeen <= h.clock
    ensures h.log == s.log + Reading(t, message)
  {
    hide Base, Wired, Doom, Reading;
  }

  lemma TextFollows(config: Config, s: State, t: Story, o: Observed, what: Happening, v: Story, h: State)
    requires Running(config, s, t, o) && what.Arrives? && what.frame.Text? && v == Unspoken(config, t, what)
    requires h == OnText(Heard(s), what.frame.message, what.hungUp) && Doom(v, what.frame.message).None?
    ensures Follows(config, s, t, what, Conclude(h, None))
  {
    var message := what.frame.message;
    var u := ReadAll(config, v, what, Reading(v, message));
    assert Hearing(v, what.frame) == Reading(v, message) by {
      assert Reading(v, message) + [] == Reading(v, message);
    }
    assert v.life == t.life && Heard(s).methods == s.methods && Heard(s).subs == s.subs && v.ids == t.ids;
    hide *;
    HeardKnown(config, s, t, o, what, v);
    RunningParts(config, s, t, o);
    RunningLedger(config, s, t, o);
    ReadyBy(config, Heard(s), v, what);
    TextKnown(config, Heard(s), v, what, h, u);
    TextFits(config, Heard(s), v, message, h, u);
    GoneState(h, None);
    ArmFits(config, h, u);
    FollowsBy(config, s, t, what, ArmTimer(h), Reading(v, message), u);
  }

  lemma ReadyBy(config: Config, s: State, t: Story, what: Happening)
    requires Base(config, s, t) && Wired(config, s, t) && s.fatal.None? && what.Arrives? && what.frame.Text?
    ensures Ready(config, s, t, what)
  {
    hide Base, Wired;
  }

  lemma DoomState(config: Config, s: State, t: Story, message: ServerMessage, h: State, u: Story)
    requires TextRead(config, s, t, message, h, u) && Doom(t, message).Some?
    ensures Conclude(h, None) == Close(h.(fatal := None), Terminal(Doom(t, message).value))
    ensures Base(config, h.(fatal := None), u) && h.config == s.config && h.log == s.log + Reading(t, message)
    ensures u.clock == t.clock
    ensures Downfall(u, u.ids, Doom(t, message).value) == Downfall(t, u.ids, Doom(t, message).value)
  {
    hide Close, Doom, Reading, Frames, Errors, Wired;
  }

  lemma DoomIds(config: Config, t: Story, what: Happening, s: State, h: State, o: Observed, reading: seq<Fact>)
    requires S.Core(h, o) && h.log == s.log + reading && h.config.stableAfter == config.stableAfter
    requires t.ids == Observe(config.stableAfter, s.log).ids
    ensures ReadAll(config, t, what, reading).ids == o.ids == SeeAll(t.ids, reading)
  {
    assert o == Observe(config.stableAfter, h.log);
    hide Observe, S.Core, ReadAll, SeeAll;
    ObserveAll(config.stableAfter, s.log, reading);
    ReadIds(config, t, what, reading);
  }

  lemma DoomFacts(config: Config, t: Story, what: Happening, log: seq<Fact>, reading: seq<Fact>, downfall: seq<Fact>)
    ensures ReadAll(config, t, what, reading + downfall) ==
        ReadAll(config, ReadAll(config, t, what, reading), what, downfall)
    ensures log + reading + downfall == log + (reading + downfall)
  {
    hide *;
    ReadConcat(config, t, what, reading, downfall);
    assert log + reading + downfall == log + (reading + downfall);
  }

  lemma DoomFollows(
      config: Config, s: State, t: Story, o: Observed, what: Happening, v: Story, h: State, fatal: Session.Fatal)
    requires Running(config, s, t, o) && what.Arrives? && what.frame.Text? && v == Unspoken(config, t, what)
    requires h == OnText(Heard(s), what.frame.message, what.hungUp) && Doom(v, what.frame.message) == Some(fatal)
    ensures Follows(config, s, t, what, Conclude(h, None))
  {
    var message := what.frame.message;
    var reading := Reading(v, message);
    var u := ReadAll(config, v, what, reading);
    var downfall := Downfall(v, SeeAll(v.ids, reading), fatal);
    var n := Close(h.(fatal := None), Terminal(fatal));
    assert Hearing(v, what.frame) == reading + downfall;
    assert Heard(s).methods == s.methods && Heard(s).subs == s.subs && v.ids == t.ids && Heard(s).config == s.config;
    assert s.config.stableAfter == config.stableAfter && t.ids == Observe(config.stableAfter, s.log).ids by {
      RunningIds(config, s, t, o);
    }
    hide *;
    HeardKnown(config, s, t, o, what, v);
    RunningParts(config, s, t, o);
    RunningLedger(config, s, t, o);
    ReadyBy(config, Heard(s), v, what);
    TextKnown(config, Heard(s), v, what, h, u);
    DoomState(config, Heard(s), v, message, h, u);
    var o' := S.KeepText(Heard(s), o, message, what.hungUp);
    DoomIds(config, v, what, s, h, o', reading);
    SameCore(h, h.(fatal := None), o');
    NotOver(h, o');
    TerminalKnown(config, h.(fatal := None), u, what, o', fatal, downfall);
    OverFits(config, n, ReadAll(config, u, what, downfall));
    DoomFacts(config, v, what, s.log, reading, downfall);
    FollowsBy(config, s, t, what, n, reading + downfall, ReadAll(config, u, what, downfall));
  }

  lemma NotOver(s: State, o: Observed)
    requires S.Ending(s, o)
    ensures !o.over
  {
  }

  lemma RunningIds(config: Config, s: State, t: Story, o: Observed)
    requires Running(config, s, t, o)
    ensures s.config.stableAfter == config.stableAfter && t.ids == Observe(config.stableAfter, s.log).ids
  {
    hide Observe, Obeys, S.Ledger, S.Queues, S.OnLine, Wired, Frames;
  }

  lemma ArrivalState(config: Config, s: State, what: Happening)
    requires s.stage.Driving? && what.Arrives?
    ensures what.frame.Text? ==> Drive(s, what) == Conclude(OnText(Heard(s), what.frame.message, what.hungUp), None)
    ensures what.frame.CloseFrame? ==> Drive(s, what) == Conclude(Heard(s), Some(Closed))
    ensures !what.frame.Text? && !what.frame.CloseFrame? ==> Drive(s, what) == Conclude(Heard(s), None)
  {
    hide OnText, Conclude;
  }

  lemma ArrivalFollows(config: Config, s: State, t: Story, o: Observed, what: Happening)
    requires Running(config, s, t, o) && what.Arrives?
    ensures s.stage.Driving? && Follows(config, s, t, what, Drive(s, what))
  {
    hide *;
    RunningParts(config, s, t, o);
    ArrivalState(config, s, what);
    if what.frame.Text? {
      var v, h := Unspoken(config, t, what), OnText(Heard(s), what.frame.message, what.hungUp);
      if Doom(v, what.frame.message).Some? {
        DoomFollows(config, s, t, o, what, v, h, Doom(v, what.frame.message).value);
      } else {
        TextFollows(config, s, t, o, what, v, h);
      }
    } else if what.frame.CloseFrame? {
      ClosingFollows(config, s, t, o, what);
    } else {
      NoiseFollows(config, s, t, o, what);
    }
  }

  lemma SinkOrFlush(config: Config, s: State, t: Story, o: Observed, what: Happening)
    requires Running(config, s, t, o) && (what.SinkTakes? || what.SinkFails? || what.FlushDone? || what.FlushFails?)
    ensures s.stage.Driving? && Follows(config, s, t, what, Drive(s, what))
  {
    RunningParts(config, s, t, o);
    CanWriteSame(config, s, t);
    assert s.needsFlush == t.dirty;
    hide Base, Wired, Running, Fits, Follows, Conclude, MarkUnflushed, WriteOne, HasToWrite, CanWrite, Loss, Writing;
    if what.SinkTakes? && CanWrite(s) {
      SinkFollows(config, s, t, o);
    } else if (what.SinkFails? && CanWrite(s)) || (what.FlushFails? && s.needsFlush) {
      GoneFollows(config, s, t, o, what);
    } else if what.FlushDone? {
      FlushFollows(config, s, t, o);
    } else {
      Nothing(config, s, t, what, s);
    }
  }

  lemma AskedIs(config: Config, s: State, t: Story, what: Happening)
    requires s.stage.Driving? && (what.Asks? || what.HandlesDropped?) && t.life.Online?
    requires Serves(config, t) <==> TakesCommands(s)
    ensures !TakesCommands(s) ==> Drive(s, what) == s && Due(config, t, what) == [] && Unspoken(config, t, what) == t
    ensures TakesCommands(s) && what.HandlesDropped? ==>
              && Drive(s, what) == Conclude(s, Some(ShutDown))
              && Due(config, t, what) == Goodbye(t) && Unspoken(config, t, what) == t
    ensures TakesCommands(s) && what.Asks? ==>
        Drive(s, what) == Conclude(HandleCommand(s, what.command, what.listening), None)
    ensures TakesCommands(s) && what.Asks? && what.command.Shutdown? ==>
              Due(config, t, what) == Goodbye(t) && Unspoken(config, t, what) == t
  {
    hide Conclude, HandleCommand, Serves, TakesCommands, Goodbye;
  }

  lemma CommandOrEnd(config: Config, s: State, t: Story, o: Observed, what: Happening)
    requires Running(config, s, t, o) && (what.Asks? || what.HandlesDropped?)
    ensures s.stage.Driving? && Follows(config, s, t, what, Drive(s, what))
  {
    hide *;
    RunningParts(config, s, t, o);
    ServesAsRoom(config, s, t);
    AskedIs(config, s, t, what);
    if !TakesCommands(s) {
      Nothing(config, s, t, what, s);
    } else if what.HandlesDropped? {
      GoneState(s, None);
      QuitFollows(config, s, t, o, what, s);
    } else if what.command.Shutdown? {
      ShutdownState(s, t, what.command, what.listening);
      QuitFollows(config, s, t, o, what, s.(shutdown := true));
    } else {
      OnlineCommand(config, s, t, o, what);
    }
  }

  lemma DriveFollows(config: Config, s: State, t: Story, o: Observed, what: Happening)
    requires Running(config, s, t, o) && config.Valid()
    ensures s.stage.Driving? && Follows(config, s, t, what, Drive(s, what))
  {
    RunningParts(config, s, t, o);
    hide Base, Wired, Running, Fits, Follows, Conclude, OnDeadline, OnFrame, GivesUp, Hearing, Loss;
    match what
    case Arrives(_, _) => ArrivalFollows(config, s, t, o, what);
    case EndOfStream => GoneFollows(config, s, t, o, what);
    case ReadFails => GoneFollows(config, s, t, o, what);
    case TimerFires => DeadlineFollows(config, s, t, o);
    case Asks(_, _) => CommandOrEnd(config, s, t, o, what);
    case HandlesDropped => CommandOrEnd(config, s, t, o, what);
    case SinkTakes => SinkOrFlush(config, s, t, o, what);
    case SinkFails => SinkOrFlush(config, s, t, o, what);
    case FlushDone => SinkOrFlush(config, s, t, o, what);
    case FlushFails => SinkOrFlush(config, s, t, o, what);
    case _ => Nothing(config, s, t, what, s);
  }

  lemma ShutdownState(s: State, t: Story, command: Command, listening: bool)
    requires command.Shutdown? && s.fatal.None? && !s.shutdown
    ensures Conclude(HandleCommand(s, command, listening), None) == Close(s.(shutdown := true), Quit)
    ensures Orders(t, command, listening) == Goodbye(t)
  {
    assert HandleCommand(s, command, listening) == s.(shutdown := true);
    hide HandleCommand, Conclude, Close, Goodbye;
    GoneState(s, None);
  }

  // ---- every tick -------------------------------------------------------------------------------------------------

  lemma RestingOrders(config: Config, s: State, t: Story, what: Happening)
    requires Fits(config, s, t) && t.life.Resting? && S.Ledger(s.methods, s.subs, s.unflushed, t.ids) && !s.shutdown
    requires t.pause.Some? && (what.Asks? || what.HandlesDropped?)
    ensures s.stage.Idling? && Follows(config, s, t, what, Idle(s, what))
  {
    assert s.stage == Idling(t.pause.value);
    ServesAsRoom(config, s, t);
    IdleShutdown(s, what);
    hide Fits, Follows, HandleCommand, Finish, Dial, Serves, TakesCommands, Goodbye, Orders, S.Ledger;
    if !TakesCommands(s) {
      Nothing(config, s, t, what, s);
    } else if what.HandlesDropped? || what.command.Shutdown? {
      RestingGoodbye(config, s, t, what);
    } else {
      RestingCommand(config, s, t, what);
    }
  }

  lemma RestingFollows(config: Config, s: State, t: Story, what: Happening)
    requires Fits(config, s, t) && t.life.Resting? && S.Ledger(s.methods, s.subs, s.unflushed, t.ids) && !s.shutdown
    requires t.pause.Some?
    ensures s.stage.Idling? && Follows(config, s, t, what, Idle(s, what))
  {
    assert s.stage == Idling(t.pause.value) && s.clock == t.clock && !t.dirty && t.(dirty := false) == t;
    hide Fits, Follows, HandleCommand, Finish, Dial, Announcement, S.Ledger;
    if what.Asks? || what.HandlesDropped? {
      RestingOrders(config, s, t, what);
    } else if what.Wake? && t.clock >= t.pause.value {
      WakeFollows(config, s, t);
    } else {
      Nothing(config, s, t, what, s);
    }
  }

  lemma IdleShutdown(s: State, what: Happening)
    ensures what.Asks? && what.command.Shutdown? ==>
              HandleCommand(s, what.command, what.listening) == s.(shutdown := true)
  {
  }

  lemma QuietTick(config: Config, s: State, t: Story, what: Happening)
    requires Fits(config, s, t)
    requires (t.life.Resting? && t.pause.None? && !what.Jitter?) ||
        (t.life.Announced? && !what.Dialled? && !what.DialFailed?)
    ensures Follows(config, s, t, what, s)
  {
    assert !t.dirty && t.(dirty := false) == t && !Serves(config, t);
    hide Fits, Orders, Goodbye;
    Nothing(config, s, t, what, s);
  }

  lemma FailedDial(config: Config, s: State, t: Story)
    requires Fits(config, s, t) && t.life.Announced? && S.Ledger(s.methods, s.subs, s.unflushed, t.ids) && !s.shutdown
    ensures Follows(config, s, t, DialFailed, Lost(s))
  {
    assert Base(config, s, t) && Paced(s, t) && t.pause.None?;
    assert Due(config, t, DialFailed) == Loss(t) && Unspoken(config, t, DialFailed) == t;
    hide *;
    LossFollows(config, s, t, DialFailed, t);
    FollowsBy(config, s, t, DialFailed, Lost(s), Due(config, t, DialFailed),
      ReadAll(config, t, DialFailed, Due(config, t, DialFailed)));
  }

  /** What the invariant of the run adds to what the story knows. */
  ghost predicate Sane(s: State, o: Observed) {
    && S.Core(s, o) && S.Ending(s, o) && s.fatal.None? && !s.shutdown
    && (if s.stage.Driving? then S.OnLine(s, o) else S.OffLine(s, o))
  }

  lemma StageFollows(config: Config, s: State, t: Story, o: Observed, tick: Tick)
    requires config.Valid() && Fits(config, s, t) && !t.life.Over? && Sane(s, o) && t.ids == o.ids
    requires s.liveness.lastSeen <= s.clock
    ensures var what := tick.what;
            match s.stage
            case Top => Follows(config, s, t, what, if what.Jitter? then Pace(s, what.roll) else s)
            case Idling(_) => Follows(config, s, t, what, Idle(s, what))
            case Dialling => Follows(config, s, t, what,
              if what.Dialled? then StartDriving(s) else if what.DialFailed? then Lost(s) else s)
            case Driving => Follows(config, s, t, what, Drive(s, what))
            case Stopped => false
  {
    var what := tick.what;
    SaneLedger(s, o);
    assert Staged(s, t) && (t.life.Online? ==> Running(config, s, t, o)) &&
      (!t.life.Online? ==> s.priority == [] && !s.needsFlush);
    hide *;
    StagesOf(s, t);
    if t.life.Online? {
      DriveFollows(config, s, t, o, what);
    } else if t.life.Announced? {
      if what.Dialled? {
        OpenFollows(config, s, t);
      } else if what.DialFailed? {
        FailedDial(config, s, t);
      } else {
        QuietTick(config, s, t, what);
      }
    } else if t.pause.Some? {
      RestingFollows(config, s, t, what);
    } else if what.Jitter? {
      PaceFollows(config, s, t, what.roll);
    } else {
      QuietTick(config, s, t, what);
    }
  }

  lemma SaneLedger(s: State, o: Observed)
    requires Sane(s, o)
    ensures S.Ledger(s.methods, s.subs, s.unflushed, o.ids)
  {
    hide S.Ledger, S.Queues, S.OnLine, S.OffLine;
  }

  lemma StagesOf(s: State, t: Story)
    requires Staged(s, t)
    ensures t.life.Online? <==> s.stage.Driving?
    ensures t.life.Announced? <==> s.stage.Dialling?
    ensures t.life.Over? <==> s.stage.Stopped?
    ensures t.life.Resting? && t.pause.Some? <==> s.stage.Idling?
    ensures t.life.Resting? && t.pause.None? <==> s.stage.Top?
  {
  }

  lemma KnowsIsFits(config: Config, s: State, t: Story)
    ensures Knows(config, s, t) <==> Fits(config, s, t) && t.ids == Observe(config.stableAfter, s.log).ids
  {
    hide Base, Wired, Tuned, Paced, Staged, Observe;
  }

  /** Later on the clock, everything still fits. */
  lemma FitsLater(config: Config, s: State, t: Story, at: nat)
    requires Fits(config, s, t) && at >= s.clock
    ensures s.clock == t.clock && Fits(config, s.(clock := at), t.(clock := at))
  {
    if t.life.Online? {
      var later := s.(clock := at);
      forall now: nat | now >= at ensures now >= later.timer <==> Overdue(later, now) {
        assert now >= s.timer <==> Overdue(s, now);
      }
      assert Tuned(later);
    }
    hide Tuned, Frames, Overdue;
  }

  lemma SaneBy(s: State, o: Observed, at: nat)
    requires S.Invariant(s, o) && !s.stage.Stopped?
    ensures Sane(s.(clock := at), o) && o == Observe(s.config.stableAfter, s.log)
  {
    hide S.Ledger, S.Queues, Observe, Obeys, S.PongIds, S.Underway;
  }

  lemma StepIs(s: State, tick: Tick)
    requires tick.at >= s.clock && !s.stage.Stopped?
    ensures var now := s.(clock := tick.at); var what := tick.what;
            Step(s, tick) == match s.stage
                             case Top => if what.Jitter? then Pace(now, what.roll) else now
                             case Idling(_) => Idle(now, what)
                             case Dialling => if what.Dialled? then StartDriving(now) else if what.DialFailed?
                               then Lost(now) else now
                             case Driving => Drive(now, what)
                             case Stopped => now
  {
    hide Pace, Idle, StartDriving, Lost, Drive;
  }

  lemma StepFollows(config: Config, s: State, t: Story, o: Observed, tick: Tick)
    requires config.Valid() && Fits(config, s, t) && S.Invariant(s, o) && t.ids == o.ids
    requires tick.at >= s.clock && !t.life.Over? && s.liveness.lastSeen <= s.clock
    ensures Follows(config, s.(clock := tick.at), t.(clock := tick.at), tick.what, Step(s, tick))
  {
    assert Staged(s, t) && s.(clock := tick.at).stage == s.stage;
    hide *;
    StagesOf(s, t);
    FitsLater(config, s, t, tick.at);
    SaneBy(s, o, tick.at);
    StepIs(s, tick);
    StageFollows(config, s.(clock := tick.at), t.(clock := tick.at), o, tick);
  }

  lemma FollowsMeans(config: Config, s: State, t: Story, tick: Tick, n: State)
    requires Counts(t, tick) && Follows(config, s.(clock := tick.at), t.(clock := tick.at), tick.what, n)
    ensures n.log == s.log + Facts(config, t, tick) && Fits(config, n, Tell(config, t, tick))
    ensures Tell(config, t, tick).ids == SeeAll(t.ids, Facts(config, t, tick))
  {
    hide Fits, Due, Read, SeeAll;
    var now := t.(clock := tick.at);
    ReadIds(config, Unspoken(config, now, tick.what), tick.what, Due(config, now, tick.what));
  }

  lemma StepKnown(config: Config, s: State, t: Story, o: Observed, tick: Tick)
    requires config.Valid() && Knows(config, s, t) && S.Invariant(s, o) && s.liveness.lastSeen <= s.clock
    requires o == Observe(config.stableAfter, s.log)
    ensures Step(s, tick).log == s.log + Facts(config, t, tick) && Knows(config, Step(s, tick), Tell(config, t, tick))
  {
    KnowsIsFits(config, s, t);
    assert s.clock == t.clock && (t.life.Over? <==> s.stage.Stopped?);
    if Counts(t, tick) {
      hide *;
      CountsMeans(t, tick);
      StepFollows(config, s, t, o, tick);
      FollowsMeans(config, s, t, tick, Step(s, tick));
      ObserveAll(config.stableAfter, s.log, Facts(config, t, tick));
      KnowsIsFits(config, Step(s, tick), Tell(config, t, tick));
    } else {
      assert s.log + [] == s.log;
      hide Pace, Idle, StartDriving, Lost, Drive, Knows, Due;
    }
  }

  lemma CountsMeans(t: Story, tick: Tick)
    requires Counts(t, tick)
    ensures tick.at >= t.clock && !t.life.Over?
  {
  }

  lemma JudgedAt(config: Config, s: State, o: Observed)
    requires S.Invariant(s, o) && S.Timed(s, config)
    ensures s.liveness.lastSeen <= s.clock && o == Observe(config.stableAfter, s.log)
  {
    hide S.Ledger, S.Queues, Observe, Obeys, S.OnLine, S.OffLine, S.Earned;
  }

  lemma KnownAtFirst(config: Config)
    ensures Knows(config, Initial(config), BEGINNING) && Initial(config).log == []
  {
    assert [] + Frames([]) == [];
  }

  /**
   * For every environment and every number of ticks, the log of the runner is the story's, and the story
   * knows the state: nothing the runner does depends on anything but what a reader of ticks and facts can tell.
   */
  lemma {:induction false} EveryRunIsTold(config: Config, env: seq<Tick>, n: nat)
    requires config.Valid() && n <= |env|
    ensures Run(config, env, n).log == Told(config, env, n)
    ensures Knows(config, Run(config, env, n), StoryOf(config, env, n))
  {
    hide Knows, Step, Tell, Facts, S.Invariant, S.Timed, Observe, Initial;
    if n == 0 {
      KnownAtFirst(config);
    } else {
      EveryRunIsTold(config, env, n - 1);
      var o := S.InvariantHolds(config, env, n - 1);
      S.TimeHolds(config, env, n - 1);
      JudgedAt(config, Run(config, env, n - 1), o);
      StepKnown(config, Run(config, env, n - 1), StoryOf(config, env, n - 1), o, env[n - 1]);
    }
  }
}
