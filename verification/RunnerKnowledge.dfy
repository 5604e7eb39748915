/** What the story knows of the runner's state, and what commands, writes, replies and frames make of it. */
module RunnerKnowledge {
  import opened Prelude
  import opened Protocol
  import opened RunnerModel
  import opened RunnerContract
  import opened RunnerStory
  import Backoff
  import Correlate
  import Liveness
  import S = RunnerSafety
  import Session

  // ---- what the story knows of the state -------------------------------------------------------------------

  function Frames(queue: seq<Outbound>): (frames: seq<ClientMessage>)
    ensures |frames| == |queue|
  {
    seq(|queue|, i requires 0 <= i < |queue| => queue[i].frame)
  }

  lemma FramesPush(queue: seq<Outbound>, out: Outbound)
    ensures Frames(queue + [out]) == Frames(queue) + [out.frame]
  {
  }

  lemma FramesTake(queue: seq<Outbound>)
    requires queue != []
    ensures Frames(queue) == [queue[0].frame] + Frames(queue[1..])
  {
  }

  predicate Base(config: Config, s: State, t: Story) {
    && s.config == config.Clamped() && s.clock == t.clock && s.readyAt == t.readySince
    && s.methods.prefix == "m" && s.subs.prefix == "s"
    && s.methods.nextId == t.calls && s.subs.nextId == t.subs
    && t.asked == t.written + Frames(s.app)
    && s.session.proposed == DDP_VERSION
    && t.given == s.methods.handed + s.subs.handed
  }

  predicate Wired(config: Config, s: State, t: Story) {
    && (s.session.phase.Ready? <==> t.ready) && s.session.loginCall == t.login
    && s.liveness == Liveness.Watchdog(config.pingAfter, config.deadAfter, t.heardAt, t.probed)
    && s.handshake == t.budget && (t.ready ==> t.budget == None)
    && s.needsFlush == t.dirty && t.due == t.sent + Frames(s.priority)
  }

  predicate Paced(s: State, t: Story) {
    s.attempt == Backoff.Min(t.outage + if t.pause.Some? then 1 else 0, Backoff.U32_MAX)
  }

  predicate Staged(s: State, t: Story) {
    match t.life
    case Resting => s.stage == if t.pause.Some? then Idling(t.pause.value) else Top
    case Announced => s.stage.Dialling? && t.pause.None?
    case Online => s.stage.Driving? && t.pause.None?
    case Over => s.stage.Stopped?
  }

  /** From the clock on, the timer is due exactly when the handshake or the silence allowed is over. */
  ghost predicate Tuned(s: State) {
    forall at: nat | at >= s.clock :: at >= s.timer <==> Overdue(s, at)
  }

  predicate Overdue(s: State, at: nat) {
    (s.handshake.Some? && at >= s.handshake.value) ||
    at >= s.liveness.lastSeen + if s.liveness.pingInFlight then s.liveness.deadAfter else s.liveness.pingAfter
  }

  ghost predicate Knows(config: Config, s: State, t: Story) {
    && Base(config, s, t) && Staged(s, t) && t.ids == Observe(config.stableAfter, s.log).ids
    && (!t.life.Over? ==> Paced(s, t) && (t.life.Online? || !t.dirty))
    && (t.life.Online? ==> Wired(config, s, t) && Tuned(s))
  }

  // ---- reading ----------------------------------------------------------------------------------------------

  lemma {:induction false} ReadConcat(config: Config, t: Story, what: Happening, a: seq<Fact>, b: seq<Fact>)
    ensures ReadAll(config, t, what, a + b) == ReadAll(config, ReadAll(config, t, what, a), what, b)
    decreases |a|
  {
    hide Read;
    if a == [] {
      assert a + b == b;
    } else {
      assert (a + b)[1..] == a[1..] + b;
      ReadConcat(config, Read(config, t, what, a[0]), what, a[1..], b);
    }
  }

  lemma ReadOne(config: Config, t: Story, what: Happening, a: Fact)
    ensures ReadAll(config, t, what, [a]) == Read(config, t, what, a)
  {
    hide Read;
  }

  lemma ReadTwo(config: Config, t: Story, what: Happening, a: Fact, b: Fact)
    ensures ReadAll(config, t, what, [a, b]) == Read(config, Read(config, t, what, a), what, b)
  {
    hide Read;
    assert [a, b][1..] == [b];
    ReadOne(config, Read(config, t, what, a), what, b);
  }

  lemma {:induction false} ReadIds(config: Config, t: Story, what: Happening, facts: seq<Fact>)
    ensures ReadAll(config, t, what, facts).ids == SeeAll(t.ids, facts)
    decreases |facts|
  {
    hide ReadRest, SeeIds;
    if facts != [] {
      ReadIds(config, Read(config, t, what, facts[0]), what, facts[1..]);
    }
  }

  lemma {:induction false} ObserveAll(stableAfter: nat, log: seq<Fact>, facts: seq<Fact>)
    ensures Observe(stableAfter, log + facts).ids == SeeAll(Observe(stableAfter, log).ids, facts)
    decreases |facts|
  {
    if facts == [] {
      assert log + facts == log;
    } else {
      var more := log + [facts[0]];
      assert log + facts == more + facts[1..];
      ObserveAll(stableAfter, more, facts[1..]);
      assert more[..|log|] == log;
      hide SeeRest, SeeIds;
      assert Observe(stableAfter, more).ids == SeeIds(Observe(stableAfter, log).ids, facts[0]);
    }
  }

  // ---- settling ---------------------------------------------------------------------------------------------

  lemma ErrorsSplit(a: map<string, Correlate.CallError>, b: map<string, Correlate.CallError>)
    requires a.Keys !! b.Keys
    ensures Correlate.Errors(a + b) == Correlate.Errors(a) + Correlate.Errors(b)
  {
    var all, one, two := (set id | id in a + b :: (id, Correlate.Reply.Failure((a + b)[id]))),
                         (set id | id in a :: (id, Correlate.Reply.Failure(a[id]))),
                         (set id | id in b :: (id, Correlate.Reply.Failure(b[id])));
    forall p ensures p in all <==> p in one || p in two {
      if p in one { assert p.0 in a + b && p == (p.0, Correlate.Reply.Failure((a + b)[p.0])); }
      if p in two { assert p.0 in a + b && p == (p.0, Correlate.Reply.Failure((a + b)[p.0])); }
    }
    assert one !! two;
    assert all == one + two;
  }

  lemma VerdictsAre(t: Correlate.Table, kind: char, ids: Ids)
    requires S.Sound(t, kind, {}, ids) && S.Books(ids)
    ensures t.Verdicts().Keys == set id | id in S.Waiting(ids) && S.HasKind(id, kind)
    ensures forall id | id in t.Verdicts() ::
              t.Verdicts()[id] == if id in ids.carried then Correlate.Abandoned(id) else Correlate.NotSent
  {
  }

  lemma BothVerdicts(m: State, ids: Ids)
    requires S.Ledger(m.methods, m.subs, [], ids)
    ensures m.methods.Verdicts() + m.subs.Verdicts() == Errors(ids)
    ensures m.methods.Verdicts().Keys !! m.subs.Verdicts().Keys
  {
    assert MethodIds([]) == {} && SubIds([]) == {};
    VerdictsAre(m.methods, 'm', ids);
    VerdictsAre(m.subs, 's', ids);
    hide S.Sound, Correlate.Table.Verdicts;
    var all := m.methods.Verdicts() + m.subs.Verdicts();
    assert all.Keys == Errors(ids).Keys;
  }

  lemma Handed(m: State)
    requires m.methods.Verdicts().Keys !! m.subs.Verdicts().Keys
    ensures m.methods.Disconnect().handed + m.subs.Disconnect().handed ==
            (m.methods.handed + m.subs.handed) + Correlate.Errors(m.methods.Verdicts() + m.subs.Verdicts())
  {
    ErrorsSplit(m.methods.Verdicts(), m.subs.Verdicts());
    hide Correlate.Errors, Correlate.Table.Verdicts;
  }

  lemma SettleKnown(config: Config, s: State, t: Story, what: Happening)
    requires Base(config, s, t) && S.Ledger(s.methods, s.subs, s.unflushed, t.ids)
    ensures Settle(s).log == s.log + [Settled(Errors(t.ids))]
    ensures Base(config, Settle(s), Read(config, t, what, Settled(Errors(t.ids))))
    ensures !Settle(s).needsFlush
  {
    var m := MarkUnflushed(s);
    S.LedgerFlushed(s, t.ids);
    BothVerdicts(m, t.ids);
    Handed(m);
    assert m.methods.handed == s.methods.handed && m.subs.handed == s.subs.handed;
    hide S.Ledger, Errors, Correlate.Errors, Correlate.Table.Verdicts, Correlate.Table.MarkSent, SeeIds;
    assert [] + Frames([]) == [];
  }

  lemma LossState(s: State)
    requires !s.shutdown
    ensures Lost(s) == Emit(Settle(s), Disconnected).(
              stage := Top, readyAt := None, attempt := AfterLoss(s).attempt, session := s.session.Disconnect())
  {
    hide Correlate.Table.Verdicts, Correlate.Table.MarkSent, MethodIds, SubIds;
  }

  lemma LossKnown(config: Config, s: State, t: Story, what: Happening)
    requires Base(config, s, t) && Paced(s, t) && t.pause.None? && !s.shutdown
    requires S.Ledger(s.methods, s.subs, s.unflushed, t.ids)
    ensures Lost(s).log == s.log + Loss(t)
    ensures var u := ReadAll(config, t, what, Loss(t));
            Base(config, Lost(s), u) && Paced(Lost(s), u) && Staged(Lost(s), u) && u.life.Resting? && !u.dirty
  {
    var settled := Read(config, t, what, Settled(Errors(t.ids)));
    SettleKnown(config, s, t, what);
    LossState(s);
    ReadTwo(config, t, what, Settled(Errors(t.ids)), Emitted(Disconnected, t.clock));
    hide S.Ledger, Errors, Correlate.Errors, Settle, Lost, Observe, SeeIds, ReadAll;
    assert (s.log + [Settled(Errors(t.ids))]) + [Emitted(Disconnected, t.clock)] == s.log + Loss(t);
  }

  lemma NobodyWaits(o: Observed)
    ensures Errors(S.AllSettled(o).ids) == map[]
  {
  }

  lemma SettledIds(config: Config, t: Story, what: Happening, o: Observed)
    requires t.ids == o.ids && o.ids.settled <= o.ids.registered
    ensures Read(config, t, what, Settled(Errors(t.ids))).ids == S.AllSettled(o).ids
  {
    assert o.ids.settled + (o.ids.registered - o.ids.settled) == o.ids.registered;
  }

  lemma FinishKnown(config: Config, s: State, t: Story, what: Happening)
    requires Base(config, s, t) && S.Ledger(s.methods, s.subs, s.unflushed, t.ids)
    ensures Finish(s).log == s.log + [Settled(Errors(t.ids)), Returned]
    ensures var u := ReadAll(config, t, what, [Settled(Errors(t.ids)), Returned]);
            Base(config, Finish(s), u) && Staged(Finish(s), u) && u.life.Over?
  {
    SettleKnown(config, s, t, what);
    ReadTwo(config, t, what, Settled(Errors(t.ids)), Returned);
    hide S.Ledger, Errors, Correlate.Errors, Settle, Observe, SeeIds, ReadAll;
    assert (s.log + [Settled(Errors(t.ids))]) + [Returned] == s.log + [Settled(Errors(t.ids)), Returned];
  }

  /** Settling twice hands nobody a second error. */
  lemma FinishAgain(config: Config, s: State, t: Story, what: Happening, o: Observed, ended: State)
    requires Base(config, s, t) && S.Core(s, o) && !o.over && t.ids == o.ids
    requires ended.methods == Settle(s).methods && ended.subs == Settle(s).subs && ended.unflushed == []
    requires Base(config, ended, Read(config, t, what, Settled(Errors(t.ids))))
    ensures var u := Read(config, t, what, Settled(Errors(t.ids)));
            && Finish(ended).log == ended.log + [Settled(map[]), Returned]
            && var v := ReadAll(config, u, what, [Settled(map[]), Returned]);
               Base(config, Finish(ended), v) && Staged(Finish(ended), v) && v.life.Over?
  {
    hide *;
    LedgerOf(s, o);
    S.KeepSettle(s, o);
    LedgerOf(Settle(s), S.AllSettled(o));
    SettledIds(config, t, what, o);
    NobodyWaits(o);
    SettleEmpties(s);
    FinishKnown(config, ended, Read(config, t, what, Settled(Errors(t.ids))), what);
  }

  lemma SettleEmpties(s: State)
    ensures Settle(s).unflushed == []
  {
  }

  lemma LedgerOf(s: State, o: Observed)
    requires S.Core(s, o)
    ensures S.Ledger(s.methods, s.subs, s.unflushed, o.ids) && o.ids.settled <= o.ids.registered
  {
    hide S.Sound;
  }

  lemma Chained(
      config: Config, t: Story, what: Happening, log: seq<Fact>, first: seq<Fact>, last: seq<Fact>, all: seq<Fact>)
    requires all == first + last
    ensures log + first + last == log + all
    ensures ReadAll(config, ReadAll(config, t, what, first), what, last) == ReadAll(config, t, what, all)
  {
    hide *;
    ReadConcat(config, t, what, first, last);
    assert log + first + last == log + all;
  }

  lemma QuitState(config: Config, s: State, t: Story, what: Happening, ended: State)
    requires Base(config, s, t) && S.Ledger(s.methods, s.subs, s.unflushed, t.ids)
    requires ended == Settle(s).(session := Settle(s).session.Disconnect())
    ensures Base(config, ended, Read(config, t, what, Settled(Errors(t.ids))))
    ensures ended.log == s.log + [Settled(Errors(t.ids))] && ended.unflushed == []
    ensures Close(s, Quit) == Finish(ended)
  {
    SettleKnown(config, s, t, what);
    SettleEmpties(s);
    hide Settle, Finish, Read, S.Ledger, Errors;
  }

  lemma QuitKnown(config: Config, s: State, t: Story, what: Happening, o: Observed, facts: seq<Fact>)
    requires Base(config, s, t) && S.Core(s, o) && !o.over && t.ids == o.ids
    requires facts == [Settled(Errors(t.ids)), Settled(map[]), Returned]
    ensures Close(s, Quit).log == s.log + facts
    ensures var u := ReadAll(config, t, what, facts);
            Base(config, Close(s, Quit), u) && Staged(Close(s, Quit), u) && u.life.Over?
  {
    var ended := Settle(s).(session := Settle(s).session.Disconnect());
    assert facts == [Settled(Errors(t.ids))] + [Settled(map[]), Returned];
    hide *;
    LedgerOf(s, o);
    QuitState(config, s, t, what, ended);
    FinishAgain(config, s, t, what, o, ended);
    ReadOne(config, t, what, Settled(Errors(t.ids)));
    Chained(config, t, what, s.log, [Settled(Errors(t.ids))], [Settled(map[]), Returned], facts);
  }

  lemma TerminalState(
      config: Config, s: State, t: Story, what: Happening, fatal: Session.Fatal, ended: State, told: Fact)
    requires Base(config, s, t) && S.Ledger(s.methods, s.subs, s.unflushed, t.ids)
    requires ended == Emit(Settle(s), FatalError(fatal)) && told == Emitted(FatalError(fatal), t.clock)
    ensures Base(config, ended, Read(config, t, what, Settled(Errors(t.ids))))
    ensures ended.log == s.log + [Settled(Errors(t.ids))] + [told] && ended.unflushed == []
    ensures Close(s, Terminal(fatal)) == Finish(ended)
    ensures ReadAll(config, t, what, [Settled(Errors(t.ids)), told]) == Read(config, t, what, Settled(Errors(t.ids)))
  {
    SettleKnown(config, s, t, what);
    SettleEmpties(s);
    var u := Read(config, t, what, Settled(Errors(t.ids)));
    assert Read(config, u, what, told) == u;
    assert Settle(s).clock == s.clock;
    ReadTwo(config, t, what, Settled(Errors(t.ids)), told);
    hide Settle, Finish, Read, ReadAll, S.Ledger, Errors;
  }

  lemma TerminalKnown(
      config: Config, s: State, t: Story, what: Happening, o: Observed, fatal: Session.Fatal, facts: seq<Fact>)
    requires Base(config, s, t) && S.Core(s, o) && !o.over && t.ids == o.ids && facts == Downfall(t, t.ids, fatal)
    ensures var q := Close(s, Terminal(fatal)); var u := ReadAll(config, t, what, facts);
            q.log == s.log + facts && Base(config, q, u) && Staged(q, u) && u.life.Over?
  {
    var ended, told := Emit(Settle(s), FatalError(fatal)), Emitted(FatalError(fatal), t.clock);
    var first := [Settled(Errors(t.ids)), told];
    assert facts == first + [Settled(map[]), Returned] && Settle(s).methods == ended.methods &&
      Settle(s).subs == ended.subs;
    hide *;
    LedgerOf(s, o);
    TerminalState(config, s, t, what, fatal, ended, told);
    FinishAgain(config, s, t, what, o, ended);
    assert s.log + [Settled(Errors(t.ids))] + [told] == s.log + first;
    Chained(config, t, what, s.log, first, [Settled(map[]), Returned], facts);
  }

  lemma ArmIsTuned(s: State)
    requires s.liveness.lastSeen <= s.clock
    ensures Tuned(ArmTimer(s))
  {
  }

  // ---- commands -----------------------------------------------------------------------------------------------

  lemma ServesAsRoom(config: Config, s: State, t: Story)
    requires Base(config, s, t) && (t.life.Online? || (t.life.Resting? && t.pause.Some?))
    ensures Serves(config, t) <==> TakesCommands(s)
  {
  }

  /** The frame a command that is taken is asked for with, if any. */
  function Wish(t: Story, command: Command, listening: bool): seq<ClientMessage> {
    match command
    case Call(name, params) => if listening then [Method(Correlate.IdOf("m", t.calls), name, params)] else []
    case Subscribe(name, params) => if listening then [Sub(Correlate.IdOf("s", t.subs), name, params)] else []
    case Unsubscribe(id) => [Unsub(id)]
    case Shutdown => []
  }

  /** The story once the command is taken: what it asks for is on the list, and its call is counted. */
  predicate Took(config: Config, t: Story, u: Story, command: Command, listening: bool) {
    u == t.(calls := t.calls + if command.Call? then 1 else 0,
            subs := t.subs + if command.Subscribe? then 1 else 0,
            asked := t.asked + Wish(t, command, listening),
            ids := u.ids)
  }

  lemma CallTaken(config: Config, t: Story, what: Happening)
    requires what.Asks? && (what.command.Call? || what.command.Subscribe?)
    ensures Took(config, t, ReadAll(config, t, what, Orders(t, what.command, what.listening)), what.command,
        what.listening)
  {
    var facts := Orders(t, what.command, what.listening);
    var id := if what.command.Call? then Correlate.IdOf("m", t.calls) else Correlate.IdOf("s", t.subs);
    hide SeeIds, Correlate.IdOf;
    if what.listening {
      assert facts == [Registered(id)];
      ReadOne(config, t, what, Registered(id));
    } else {
      assert facts == [Registered(id), Cancelled(id)];
      ReadTwo(config, t, what, Registered(id), Cancelled(id));
    }
    hide ReadAll;
  }

  lemma CommandTaken(config: Config, t: Story, what: Happening)
    requires what.Asks? && !what.command.Shutdown? && Serves(config, t)
    ensures Took(config, t, ReadAll(config, Unspoken(config, t, what), what, Orders(t, what.command, what.listening)),
                 what.command, what.listening)
  {
    if what.command.Unsubscribe? {
      hide Read;
    } else {
      CallTaken(config, t, what);
      hide ReadAll, Read, Orders, Took;
    }
  }

  lemma HandledFrames(s: State, t: Story, command: Command, listening: bool)
    requires !command.Shutdown? && s.methods.prefix == "m" && s.subs.prefix == "s"
    requires s.methods.nextId == t.calls && s.subs.nextId == t.subs
    ensures var h := HandleCommand(s, command, listening);
            && h == s.(methods := h.methods, subs := h.subs, app := h.app, log := h.log)
            && h.log == s.log + Orders(t, command, listening)
            && Frames(h.app) == Frames(s.app) + Wish(t, command, listening)
            && h.methods.nextId == t.calls + (if command.Call? then 1 else 0) && h.methods.prefix == "m"
            && h.subs.nextId == t.subs + (if command.Subscribe? then 1 else 0) && h.subs.prefix == "s"
            && h.methods.handed == s.methods.handed && h.subs.handed == s.subs.handed
  {
    hide Correlate.IdOf;
    var h := HandleCommand(s, command, listening);
    var id := if command.Call? then s.methods.NextCall() else s.subs.NextCall();
    if h.app != s.app {
      FramesPush(s.app, h.app[|s.app|]);
    }
    assert Frames(s.app) + [] == Frames(s.app) && s.log + [] == s.log;
    assert s.log + [Registered(id)] + [Cancelled(id)] == s.log + ([Registered(id)] + [Cancelled(id)]);
    assert [Registered(id)] + [] == [Registered(id)];
  }

  lemma CommandKnown(config: Config, s: State, t: Story, what: Happening, u: Story)
    requires Base(config, s, t) && what.Asks? && !what.command.Shutdown? && Serves(config, t)
    requires u == ReadAll(config, Unspoken(config, t, what), what, Orders(t, what.command, what.listening))
    ensures Took(config, t, u, what.command, what.listening)
    ensures var h := HandleCommand(s, what.command, what.listening);
            && h.log == s.log + Orders(t, what.command, what.listening) && Base(config, h, u)
            && h == s.(methods := h.methods, subs := h.subs, app := h.app, log := h.log)
  {
    CommandTaken(config, t, what);
    HandledFrames(s, t, what.command, what.listening);
    hide ReadAll, Unspoken, Orders, Wish, HandleCommand, Frames;
  }

  // ---- the sink -----------------------------------------------------------------------------------------------

  lemma CanWriteSame(config: Config, s: State, t: Story)
    requires Base(config, s, t) && Wired(config, s, t)
    ensures HasToWrite(t) <==> CanWrite(s)
  {
  }

  lemma Moved(lane: seq<ClientMessage>, first: ClientMessage, rest: seq<ClientMessage>, all: seq<ClientMessage>)
    requires all == lane + ([first] + rest)
    ensures |lane| < |all| && all[|lane|] == first && all == (lane + [first]) + rest
  {
  }

  lemma OwedFrameKnown(config: Config, s: State, t: Story, what: Happening, u: Story)
    requires Base(config, s, t) && Wired(config, s, t) && s.priority != [] && HasToWrite(t)
    requires u == Read(config, t, what, Accepted(Protocol, s.priority[0].frame))
    ensures Writing(t) == [Accepted(Protocol, s.priority[0].frame)]
    ensures WriteOne(s).log == s.log + Writing(t) && Base(config, WriteOne(s), u) && Wired(config, WriteOne(s), u)
    ensures u == t.(sent := u.sent, dirty := u.dirty, ids := u.ids)
  {
    FramesTake(s.priority);
    Moved(t.sent, s.priority[0].frame, Frames(s.priority[1..]), t.due);
    hide SeeIds, Frames;
  }

  lemma AskedFrameKnown(config: Config, s: State, t: Story, what: Happening, u: Story)
    requires Base(config, s, t) && Wired(config, s, t) && s.priority == [] && s.app != [] && HasToWrite(t)
    requires u == Read(config, t, what, Accepted(Application, s.app[0].frame))
    ensures Writing(t) == [Accepted(Application, s.app[0].frame)]
    ensures WriteOne(s).log == s.log + Writing(t) && Base(config, WriteOne(s), u) && Wired(config, WriteOne(s), u)
    ensures u == t.(written := u.written, dirty := u.dirty, ids := u.ids)
  {
    FramesTake(s.app);
    Moved(t.written, s.app[0].frame, Frames(s.app[1..]), t.asked);
    assert Frames(s.priority) == [] && t.due == t.sent;
    hide SeeIds, Frames;
  }

  lemma WriteKnown(config: Config, s: State, t: Story, what: Happening, u: Story)
    requires Base(config, s, t) && Wired(config, s, t) && CanWrite(s)
    requires HasToWrite(t) ==> u == ReadAll(config, t, what, Writing(t))
    ensures HasToWrite(t) && WriteOne(s).log == s.log + Writing(t)
    ensures Base(config, WriteOne(s), u) && Wired(config, WriteOne(s), u)
    ensures u == t.(sent := u.sent, written := u.written, dirty := u.dirty, ids := u.ids)
  {
    CanWriteSame(config, s, t);
    var fact := Writing(t)[0];
    assert Writing(t) == [fact] && (s.priority != [] || s.app != []);
    hide *;
    ReadOne(config, t, what, fact);
    if s.priority != [] {
      OwedFrameKnown(config, s, t, what, Read(config, t, what, Accepted(Protocol, s.priority[0].frame)));
    } else {
      AskedFrameKnown(config, s, t, what, Read(config, t, what, Accepted(Application, s.app[0].frame)));
    }
  }

  // ---- opening ------------------------------------------------------------------------------------------------

  lemma StartKnown(config: Config, s: State, t: Story, what: Happening)
    requires Base(config, s, t) && Paced(s, t) && t.pause.None? && s.priority == [] && !s.needsFlush && !t.dirty
    ensures StartDriving(s).log == s.log + [Opened]
    ensures var u := ReadAll(config, t, what, [Opened]);
            && Base(config, StartDriving(s), u) && Paced(StartDriving(s), u) && Staged(StartDriving(s), u)
            && Wired(config, StartDriving(s), u) && Tuned(StartDriving(s))
  {
    ReadOne(config, t, what, Opened);
    hide SeeIds;
    var connect := ClientMessage.Connect(DDP_VERSION, [DDP_VERSION]);
    assert Frames([] + [Outbound(connect, None)]) == [connect];
    assert [] + [connect] == [connect];
  }

  // ---- replies ------------------------------------------------------------------------------------------------

  /** The table holds exactly the calls of its kind that wait, all of this epoch. */
  ghost predicate Holds(t: Correlate.Table, kind: char, ids: Ids) {
    && (forall id :: id in t.pending <==> Waits(ids, id) && S.HasKind(id, kind))
    && (forall id | id in t.pending :: t.pending[id].epoch == t.epoch)
  }

  lemma SoundHolds(t: Correlate.Table, kind: char, marked: set<string>, ids: Ids)
    requires S.Sound(t, kind, marked, ids)
    ensures Holds(t, kind, ids)
  {
  }

  lemma ResolveHolds(
      t: Correlate.Table, kind: char, ids: Ids, id: string, outcome: Prelude.Result<Json, DdpError>, alive: bool)
    requires Holds(t, kind, ids) && S.HasKind(id, kind)
    ensures Waits(ids, id) ==> Holds(t.Resolve(id, outcome, alive), kind, SeeIds(ids, Resolved(id)))
    ensures !Waits(ids, id) ==> t.Resolve(id, outcome, alive) == t
    ensures ReplyFact(id, t.Outcome(id, alive)) == if Waits(ids, id) then [Resolved(id)] else []
    ensures t.Resolve(id, outcome, alive).handed ==
            t.handed + if Waits(ids, id) && alive then multiset{(id, Correlate.AsReply(outcome))} else multiset{}
    ensures var r := t.Resolve(id, outcome, alive); r == t.(pending := r.pending, handed := r.handed)
  {
    if !Waits(ids, id) {
      assert t.pending - {id} == t.pending;
    }
  }

  lemma VerdictSame(message: ServerMessage)
    ensures Correlate.AsReply(Answer(message)) == Verdict(message)
  {
  }

  /** Nothing but the replies, the books and the log has changed. */
  predicate OnlyReplies(s: State, r: State, t: Story, u: Story) {
    && r == s.(methods := r.methods, subs := r.subs, log := r.log)
    && u == t.(given := u.given, ids := u.ids)
  }

  /** The story after one answered id. */
  function Replied(config: Config, t: Story, what: Happening, id: string): Story {
    if Waits(t.ids, id) then Read(config, t, what, Resolved(id)) else t
  }

  function ReplyTo(ids: Ids, id: string): seq<Fact> {
    if Waits(ids, id) then [Resolved(id)] else []
  }

  /** What reading a reply changes. */
  predicate Credited(t: Story, u: Story, id: string, reply: Correlate.Reply, alive: bool) {
    && u == t.(given := u.given, ids := if Waits(t.ids, id) then SeeIds(t.ids, Resolved(id)) else t.ids)
    && u.given == t.given + if Waits(t.ids, id) && alive then multiset{(id, reply)} else multiset{}
  }

  lemma ReplyRead(config: Config, t: Story, what: Happening, id: string)
    requires what.Arrives? && what.frame.Text?
    ensures Credited(t, Replied(config, t, what, id), id, Verdict(what.frame.message), id !in what.hungUp)
  {
    hide Verdict, SeeIds;
  }

  lemma ReplyFirst(
      config: Config, t: Story, what: Happening, id: string, rest: seq<string>, all: seq<string>, log: seq<Fact>)
    requires all == [id] + rest
    ensures var v := Replied(config, t, what, id);
            && ReadAll(config, t, what, Replies(t.ids, all)) == ReadAll(config, v, what, Replies(v.ids, rest))
            && log + ReplyTo(t.ids, id) + Replies(v.ids, rest) == log + Replies(t.ids, all)
  {
    assert all[0] == id && all[1..] == rest;
    hide ReadRest, Waits, SeeIds;
    var v := Replied(config, t, what, id);
    if Waits(t.ids, id) {
      assert Replies(t.ids, all) == [Resolved(id)] + Replies(v.ids, rest);
      hide Read, ReadAll, Replies;
      ReadConcat(config, t, what, [Resolved(id)], Replies(v.ids, rest));
      ReadOne(config, t, what, Resolved(id));
      assert log + [Resolved(id)] + Replies(v.ids, rest) == log + ([Resolved(id)] + Replies(v.ids, rest));
    } else {
      assert log + [] == log;
    }
  }

  lemma ReplyOnly(config: Config, t: Story, what: Happening, id: string, log: seq<Fact>)
    ensures ReadAll(config, t, what, Replies(t.ids, [id])) == Replied(config, t, what, id)
    ensures log + ReplyTo(t.ids, id) == log + Replies(t.ids, [id])
  {
    assert [id] == [id] + [];
    hide ReadRest, Waits, SeeIds;
    ReplyFirst(config, t, what, id, [], [id], log);
    assert log + ReplyTo(t.ids, id) + [] == log + ReplyTo(t.ids, id);
  }

  lemma MethodReply(config: Config, s: State, t: Story, what: Happening, id: string, u: Story)
    requires Base(config, s, t) && Holds(s.methods, 'm', t.ids) && IsCall(id)
    requires what.Arrives? && what.frame.Text? && u == Replied(config, t, what, id)
    ensures var r := ResolveMethod(s, id, Answer(what.frame.message), what.hungUp);
            r.log == s.log + ReplyTo(t.ids, id) && Base(config, r, u) && OnlyReplies(s, r, t, u)
  {
    ResolveHolds(s.methods, 'm', t.ids, id, Answer(what.frame.message), id !in what.hungUp);
    VerdictSame(what.frame.message);
    ReplyRead(config, t, what, id);
    hide ReplyFact, Answer, Verdict, Correlate.Table.Resolve, Correlate.Table.Outcome, Holds, SeeIds, Frames, Replied;
    hide Waits;
  }

  lemma SubReply(
      config: Config, s: State, t: Story, what: Happening, id: string, outcome: Prelude.Result<Json, DdpError>,
        u: Story)
    requires Base(config, s, t) && Holds(s.subs, 's', t.ids) && IsSub(id)
    requires what.Arrives? && what.frame.Text? && Correlate.AsReply(outcome) == Verdict(what.frame.message)
    requires u == Replied(config, t, what, id)
    ensures var r := ResolveSub(s, id, outcome, what.hungUp);
            r.log == s.log + ReplyTo(t.ids, id) && Base(config, r, u) && OnlyReplies(s, r, t, u) &&
              Holds(r.subs, 's', u.ids)
  {
    ResolveHolds(s.subs, 's', t.ids, id, outcome, id !in what.hungUp);
    ReplyRead(config, t, what, id);
    hide ReplyFact, Verdict, Correlate.Table.Resolve, Correlate.Table.Outcome, Holds, Frames, SeeIds, Replied, Waits;
  }

  /** An id of another kind is in no table of this kind. */
  lemma NoSubReply(s: State, ids: Ids, id: string, outcome: Prelude.Result<Json, DdpError>, hungUp: set<string>)
    requires Holds(s.subs, 's', ids) && !IsSub(id)
    ensures ResolveSub(s, id, outcome, hungUp) == s
  {
    assert id !in s.subs.pending;
    assert s.subs.pending - {id} == s.subs.pending && s.log + [] == s.log;
  }

  lemma NoMethodReply(s: State, ids: Ids, id: string, outcome: Prelude.Result<Json, DdpError>, hungUp: set<string>)
    requires Holds(s.methods, 'm', ids) && !IsCall(id)
    ensures ResolveMethod(s, id, outcome, hungUp) == s
  {
    assert id !in s.methods.pending;
    assert s.methods.pending - {id} == s.methods.pending && s.log + [] == s.log;
  }

  lemma SubsCons(list: seq<string>)
    requires list != []
    ensures Subs(list) == if IsSub(list[0]) then [list[0]] + Subs(list[1..]) else Subs(list[1..])
  {
    assert [] + Subs(list[1..]) == Subs(list[1..]);
  }

  lemma ResolveFirst(s: State, list: seq<string>, hungUp: set<string>)
    requires list != []
    ensures ResolveSubs(s, list, hungUp) ==
            ResolveSubs(ResolveSub(s, list[0], Prelude.Success(JsonNull), hungUp), list[1..], hungUp)
  {
    hide ResolveSub;
  }

  lemma NoReplies(config: Config, s: State, t: Story, what: Happening)
    ensures s.log + Replies(t.ids, []) == s.log && ReadAll(config, t, what, Replies(t.ids, [])) == t
    ensures Subs([]) == [] && ResolveSubs(s, [], {}) == s && OnlyReplies(s, s, t, t)
    ensures forall hungUp :: ResolveSubs(s, [], hungUp) == s
  {
  }

  lemma StillOnlyReplies(s: State, next: State, r: State, t: Story, v: Story, u: Story)
    requires OnlyReplies(s, next, t, v) && OnlyReplies(next, r, v, u)
    ensures OnlyReplies(s, r, t, u)
  {
  }

  lemma NullIsTheVerdict(message: ServerMessage)
    requires message.SubsReady?
    ensures Correlate.AsReply(Prelude.Success(JsonNull)) == Verdict(message)
  {
  }

  lemma {:induction false} SubReplies(config: Config, s: State, t: Story, what: Happening, list: seq<string>, u: Story)
    requires Base(config, s, t) && Holds(s.subs, 's', t.ids)
    requires what.Arrives? && what.frame.Text? && what.frame.message.SubsReady?
    requires u == ReadAll(config, t, what, Replies(t.ids, Subs(list)))
    ensures var r := ResolveSubs(s, list, what.hungUp);
            r.log == s.log + Replies(t.ids, Subs(list)) && Base(config, r, u) && OnlyReplies(s, r, t, u)
    decreases |list|
  {
    hide *;
    if list == [] {
      NoReplies(config, s, t, what);
    } else {
      SubsCons(list);
      ResolveFirst(s, list, what.hungUp);
      if IsSub(list[0]) {
        var v := Replied(config, t, what, list[0]);
        var next := ResolveSub(s, list[0], Prelude.Success(JsonNull), what.hungUp);
        NullIsTheVerdict(what.frame.message);
        SubReply(config, s, t, what, list[0], Prelude.Success(JsonNull), v);
        ReplyFirst(config, t, what, list[0], Subs(list[1..]), Subs(list), s.log);
        SubReplies(config, next, v, what, list[1..], u);
        StillOnlyReplies(s, next, ResolveSubs(s, list, what.hungUp), t, v, u);
      } else {
        NoSubReply(s, t.ids, list[0], Prelude.Success(JsonNull), what.hungUp);
        SubReplies(config, s, t, what, list[1..], u);
      }
    }
  }

  lemma RouteIs(s: State, message: ServerMessage, hungUp: set<string>)
    ensures message.Result? ==> Route(s, message, hungUp) == ResolveMethod(s, message.id, Answer(message), hungUp)
    ensures message.Nosub? ==> Route(s, message, hungUp) == ResolveSub(s, message.id, Answer(message), hungUp)
    ensures message.SubsReady? ==> Route(s, message, hungUp) == ResolveSubs(s, message.subs, hungUp)
    ensures !message.Result? && !message.Nosub? && !message.SubsReady? ==> Route(s, message, hungUp) == s
    ensures message.Result? ==> Answered(message) == if IsCall(message.id) then [message.id] else []
    ensures message.Nosub? ==> Answered(message) == if IsSub(message.id) then [message.id] else []
    ensures message.SubsReady? ==> Answered(message) == Subs(message.subs)
    ensures !message.Result? && !message.Nosub? && !message.SubsReady? ==> Answered(message) == []
  {
    hide ResolveMethod, ResolveSub, ResolveSubs, Answer, Subs;
  }

  lemma RouteKnown(config: Config, s: State, t: Story, what: Happening, u: Story)
    requires Base(config, s, t) && Holds(s.methods, 'm', t.ids) && Holds(s.subs, 's', t.ids)
    requires what.Arrives? && what.frame.Text?
    requires u == ReadAll(config, t, what, Replies(t.ids, Answered(what.frame.message)))
    ensures var r := Route(s, what.frame.message, what.hungUp);
            && r.log == s.log + Replies(t.ids, Answered(what.frame.message))
            && Base(config, r, u) && OnlyReplies(s, r, t, u)
  {
    var message := what.frame.message;
    hide *;
    RouteIs(s, message, what.hungUp);
    NoReplies(config, s, t, what);
    if message.Result? {
      if IsCall(message.id) {
        MethodReply(config, s, t, what, message.id, Replied(config, t, what, message.id));
        ReplyOnly(config, t, what, message.id, s.log);
      } else {
        NoMethodReply(s, t.ids, message.id, Answer(message), what.hungUp);
      }
    } else if message.Nosub? {
      if IsSub(message.id) {
        VerdictSame(message);
        SubReply(config, s, t, what, message.id, Answer(message), Replied(config, t, what, message.id));
        ReplyOnly(config, t, what, message.id, s.log);
      } else {
        NoSubReply(s, t.ids, message.id, Answer(message), what.hungUp);
      }
    } else if message.SubsReady? {
      SubReplies(config, s, t, what, message.subs, u);
    }
  }

  // ---- inbound text -------------------------------------------------------------------------------------------

  lemma SameRefusal(error: DdpError)
    ensures Session.ClassifyLoginFailure(error) == Refusal(error)
  {
    forall text: string
      ensures SaysExpired(text) <==>
              Contains(text, "been logged out by the server") || Contains(text, "session has expired")
    {
      SaysContains(text, "been logged out by the server", "session has expired");
    }
    hide SaysExpired, Contains;
  }

  lemma SaysContains(text: string, a: string, b: string)
    ensures (exists i | 0 <= i <= |text| :: a <= text[i..] || b <= text[i..]) <==>
        Contains(text, a) || Contains(text, b)
  {
    if i :| 0 <= i <= |text| && (a <= text[i..] || b <= text[i..]) {
      assert a <= text[i..] ==> StartsAt(text, i, a);
      assert b <= text[i..] ==> StartsAt(text, i, b);
    }
  }

  /** Where the session stands after a frame: the state with the frame noted and the actions applied. */
  function Turned(s: State, message: ServerMessage): State {
    var heard := Note(s, Received(message));
    var (session, actions) := heard.session.Handle(message);
    ApplyAll(heard.(session := session), actions)
  }

  /** What a frame may change before its replies are routed. */
  predicate OnlyTurned(s: State, h: State) {
    && h == s.(session := h.session, methods := h.methods, priority := h.priority, handshake := h.handshake,
               readyAt := h.readyAt, fatal := h.fatal, log := h.log)
    && h.subs == s.subs
  }

  predicate OnlyHeard(t: Story, u: Story) {
    u == t.(ready := u.ready, readySince := u.readySince, login := u.login, due := u.due, budget := u.budget,
            calls := u.calls, given := u.given, ids := u.ids)
  }

  /** The frame and its turning have been read. */
  predicate TurnKnown(config: Config, s: State, t: Story, message: ServerMessage, h: State, u: Story) {
    && h.log == s.log + [Received(message)] + Turning(t, message)
    && Base(config, h, u) && OnlyTurned(s, h) && OnlyHeard(t, u) && h.fatal == Doom(t, message)
    && (Doom(t, message).None? ==> Wired(config, h, u))
    && (!message.Connected? ==> h.methods == s.methods && u.ids == t.ids)
  }

  predicate Ready(config: Config, s: State, t: Story, what: Happening) {
    && Base(config, s, t) && Wired(config, s, t) && s.fatal.None?
    && what.Arrives? && what.frame.Text?
  }

  lemma ApplyOne(s: State, action: Session.Action)
    ensures ApplyAll(s, [action]) == Apply(s, action) && ApplyAll(s, []) == s
  {
    hide Apply;
    assert [action][1..] == [];
  }

  lemma PingTurns(config: Config, s: State, t: Story, what: Happening, h: State, u: Story)
    requires Ready(config, s, t, what) && what.frame.message.ServerPing? && h == Turned(s, what.frame.message)
    requires u == Read(config, t, what, Received(what.frame.message))
    ensures TurnKnown(config, s, t, what.frame.message, h, u) && Turning(t, what.frame.message) == []
  {
    var id := what.frame.message.pingId;
    ApplyOne(Note(s, Received(what.frame.message)), Session.Send(Pong(id)));
    FramesPush(s.priority, Outbound(Pong(id), None));
    assert s.log + [Received(what.frame.message)] + [] == s.log + [Received(what.frame.message)];
    assert t.sent + (Frames(s.priority) + [Pong(id)]) == (t.sent + Frames(s.priority)) + [Pong(id)];
    hide ApplyAll, Frames;
  }

  lemma ConnectedTurns(config: Config, s: State, t: Story, what: Happening, h: State, v: Story, u: Story)
    requires Ready(config, s, t, what) && what.frame.message.Connected? && h == Turned(s, what.frame.message)
    requires v == Read(config, t, what, Received(what.frame.message))
    requires u == Read(config, v, what, Registered(Correlate.IdOf("m", t.calls)))
    ensures TurnKnown(config, s, t, what.frame.message, h, u)
  {
    hide Correlate.IdOf;
    var message := what.frame.message;
    var id := Correlate.IdOf("m", t.calls);
    var out := Outbound(Method(id, "login", s.config.credential), Some(MethodMark(id)));
    ApplyOne(Note(s, Received(message)).(session := s.session.Handle(message).0), Session.Login);
    FramesPush(s.priority, out);
    assert t.sent + (Frames(s.priority) + [out.frame]) == (t.sent + Frames(s.priority)) + [out.frame];
    assert t.due + [] == t.due;
    hide ApplyAll, Frames, SeeIds;
  }

  lemma DoomTurns(config: Config, s: State, t: Story, what: Happening, h: State, v: Story, u: Story)
    requires Ready(config, s, t, what) && Doom(t, what.frame.message).Some? && h == Turned(s, what.frame.message)
    requires v == Read(config, t, what, Received(what.frame.message))
    requires u == Read(config, v, what, Doomed(Doom(t, what.frame.message).value))
    ensures TurnKnown(config, s, t, what.frame.message, h, u)
    ensures Turning(t, what.frame.message) == [Doomed(Doom(t, what.frame.message).value)]
  {
    var message, fatal := what.frame.message, Doom(t, what.frame.message).value;
    DoomedState(config, s, t, what, fatal);
    assert t.due + [] == t.due;
    hide Refusal, Turned, Frames, Doom;
  }

  lemma DoomedState(config: Config, s: State, t: Story, what: Happening, fatal: Session.Fatal)
    requires Ready(config, s, t, what) && Doom(t, what.frame.message) == Some(fatal)
    ensures var h := Turned(s, what.frame.message); var message := what.frame.message;
            && h == Note(Note(s, Received(message)), Doomed(fatal)).(session := h.session, fatal := Some(fatal))
            && h.session.proposed == DDP_VERSION
  {
    var message := what.frame.message;
    if message.Result? && message.error.Some? {
      SameRefusal(message.error.value);
    }
    hide Refusal, Session.ClassifyLoginFailure, Frames;
    ApplyOne(Note(s, Received(message)).(session := s.session.Handle(message).0), Session.Stop(fatal));
    assert s.session.Handle(message).1 == [Session.Stop(fatal)];
    hide ApplyAll;
  }

  lemma WelcomeTurns(
      config: Config, s: State, t: Story, what: Happening, h: State, v: Story, w: Story, u: Story, epoch: nat)
    requires Ready(config, s, t, what) && h == Turned(s, what.frame.message)
    requires AnswersLogin(t, what.frame.message) && what.frame.message.error.None?
    requires epoch == t.ids.settles % Correlate.EPOCHS == s.methods.epoch
    requires v == Read(config, t, what, Received(what.frame.message))
    requires w == Read(config, v, what, Emitted(ReadyNow(epoch), t.clock))
    requires u == Read(config, w, what, Emitted(Event.Resubscribe(epoch), t.clock))
    ensures TurnKnown(config, s, t, what.frame.message, h, u)
  {
    var message := what.frame.message;
    ApplyOne(Note(s, Received(message)).(session := s.session.Handle(message).0), Session.Action.Resubscribe);
    assert t.due + [] == t.due;
    hide ApplyAll, Frames;
    var log, a, b :=
      s.log + [Received(message)], Emitted(ReadyNow(epoch), t.clock), Emitted(Event.Resubscribe(epoch), t.clock);
    assert log + [a] + [b] == log + [a, b];
  }

  lemma OtherTurns(config: Config, s: State, t: Story, what: Happening, h: State, u: Story)
    requires Ready(config, s, t, what) && h == Turned(s, what.frame.message)
    requires var m := what.frame.message; !m.ServerPing? && !m.Connected? && !m.Failed? && !AnswersLogin(t, m)
    requires u == Read(config, t, what, Received(what.frame.message))
    ensures TurnKnown(config, s, t, what.frame.message, h, u) && Turning(t, what.frame.message) == []
  {
    var message := what.frame.message;
    var heard := Note(s, Received(message));
    ApplyOne(heard, Session.ProtocolViolation(if message.Unknown? then message.msg else None));
    assert s.log + [Received(message)] + [] == s.log + [Received(message)];
    assert t.due + [] == t.due;
    hide Frames, ApplyAll;
  }

  lemma TextTurns(config: Config, s: State, t: Story, what: Happening, h: State, u: Story)
    requires Ready(config, s, t, what) && h == Turned(s, what.frame.message)
    requires t.ids.settles % Correlate.EPOCHS == s.methods.epoch
    requires u == ReadAll(config, t, what, [Received(what.frame.message)] + Turning(t, what.frame.message))
    ensures TurnKnown(config, s, t, what.frame.message, h, u)
  {
    var message := what.frame.message;
    var received := Received(message);
    var v := Read(config, t, what, received);
    TurningIs(t, message);
    hide *;
    ReadConcat(config, t, what, [received], Turning(t, message));
    ReadOne(config, t, what, received);
    if message.ServerPing? {
      PingTurns(config, s, t, what, h, v);
      ReadNone(config, v, what);
    } else if message.Connected? {
      ReadOne(config, v, what, Registered(Correlate.IdOf("m", t.calls)));
      ConnectedTurns(config, s, t, what, h, v, u);
    } else if Doom(t, message).Some? {
      ReadOne(config, v, what, Doomed(Doom(t, message).value));
      DoomTurns(config, s, t, what, h, v, u);
    } else if AnswersLogin(t, message) {
      var epoch := t.ids.settles % Correlate.EPOCHS;
      var first, second := Emitted(ReadyNow(epoch), t.clock), Emitted(Event.Resubscribe(epoch), t.clock);
      ReadTwo(config, v, what, first, second);
      WelcomeTurns(config, s, t, what, h, v, Read(config, v, what, first), u, epoch);
    } else {
      OtherTurns(config, s, t, what, h, v);
      ReadNone(config, v, what);
    }
  }

  lemma ReadNone(config: Config, t: Story, what: Happening)
    ensures ReadAll(config, t, what, []) == t
  {
  }

  lemma TurningIs(t: Story, message: ServerMessage)
    ensures message.Connected? ==> Turning(t, message) == [Registered(Correlate.IdOf("m", t.calls))]
    ensures Doom(t, message).Some? ==> Turning(t, message) == [Doomed(Doom(t, message).value)]
    ensures Doom(t, message).None? ==> !message.Failed? && (AnswersLogin(t, message) ==> message.error.None?)
    ensures AnswersLogin(t, message) && Doom(t, message).None? ==>
              var epoch := t.ids.settles % Correlate.EPOCHS;
              Turning(t, message) == [Emitted(ReadyNow(epoch), t.clock), Emitted(Event.Resubscribe(epoch), t.clock)]
  {
    hide Refusal, Correlate.IdOf;
  }

  /** The frame has been read. */
  predicate TextRead(config: Config, s: State, t: Story, message: ServerMessage, h: State, u: Story) {
    && h.log == s.log + Reading(t, message) && Base(config, h, u)
    && h == s.(session := h.session, methods := h.methods, subs := h.subs, priority := h.priority,
               handshake := h.handshake, readyAt := h.readyAt, fatal := h.fatal, log := h.log)
    && OnlyHeard(t, u) && h.fatal == Doom(t, message)
    && (Doom(t, message).None? ==> Wired(config, h, u))
  }

  lemma TextIs(s: State, message: ServerMessage, hungUp: set<string>)
    ensures OnText(s, message, hungUp) == Announce(Route(Turned(s, message), message, hungUp), message)
  {
    hide Announce, Route, ApplyAll, Session.Lifecycle.Handle;
  }

  lemma NewsKnown(config: Config, s: State, t: Story, what: Happening, message: ServerMessage)
    requires s.clock == t.clock
    ensures Announce(s, message) == s.(log := s.log + News(t, message))
    ensures ReadAll(config, t, what, News(t, message)) == t
  {
    var news := News(t, message);
    if news == [] {
      assert s.log + [] == s.log;
      hide Read;
    } else {
      assert news == [news[0]];
      ReadOne(config, t, what, news[0]);
      TidingsChangeNothing(config, t, what, news[0]);
      hide ReadAll, Read;
    }
  }

  lemma TidingsChangeNothing(config: Config, t: Story, what: Happening, fact: Fact)
    requires fact.Emitted? && (fact.event.ConnectedTo? || fact.event.Frame?)
    ensures Read(config, t, what, fact) == t
  {
  }

  lemma Composed(
      config: Config, t: Story, what: Happening, message: ServerMessage, log: seq<Fact>, turned: seq<Fact>,
      replies: seq<Fact>, news: seq<Fact>)
    requires turned + replies + news == Reading(t, message)
    ensures ReadAll(config, ReadAll(config, ReadAll(config, t, what, turned), what, replies), what, news) ==
            ReadAll(config, t, what, Reading(t, message))
    ensures log + turned + replies + news == log + Reading(t, message)
  {
    hide *;
    ReadConcat(config, t, what, turned + replies, news);
    ReadConcat(config, t, what, turned, replies);
    assert log + turned + replies + news == log + (turned + replies + news);
  }

  lemma RouteAfterTurn(config: Config, s: State, t: Story, what: Happening, h: State, u: Story, v: Story)
    requires Ready(config, s, t, what) && Holds(s.methods, 'm', t.ids) && Holds(s.subs, 's', t.ids)
    requires TurnKnown(config, s, t, what.frame.message, h, u)
    requires v == ReadAll(config, u, what, Replies(t.ids, Answered(what.frame.message)))
    ensures var r := Route(h, what.frame.message, what.hungUp);
            r.log == h.log + Replies(t.ids, Answered(what.frame.message)) && Base(config, r, v) &&
              OnlyReplies(h, r, u, v)
  {
    var message := what.frame.message;
    assert Base(config, h, u) && h.subs == s.subs && (!message.Connected? ==> h.methods == s.methods && u.ids == t.ids);
    hide *;
    if message.Connected? {
      RouteIs(h, message, what.hungUp);
      NoReplies(config, h, u, what);
      NobodyAnswered(t, u);
    } else {
      RouteKnown(config, h, u, what, v);
    }
  }

  lemma NobodyAnswered(t: Story, u: Story)
    ensures Replies(t.ids, []) == Replies(u.ids, []) == []
  {
  }

  lemma TextKnown(config: Config, s: State, t: Story, what: Happening, h: State, u: Story)
    requires Ready(config, s, t, what) && Holds(s.methods, 'm', t.ids) && Holds(s.subs, 's', t.ids)
    requires t.ids.settles % Correlate.EPOCHS == s.methods.epoch
    requires h == OnText(s, what.frame.message, what.hungUp)
    requires u == ReadAll(config, t, what, Reading(t, what.frame.message))
    ensures TextRead(config, s, t, what.frame.message, h, u)
  {
    var message := what.frame.message;
    var turned, replies, news :=
      [Received(message)] + Turning(t, message), Replies(t.ids, Answered(message)), News(t, message);
    var a := ReadAll(config, t, what, turned);
    var b := ReadAll(config, a, what, replies);
    var turn, route := Turned(s, message), Route(Turned(s, message), message, what.hungUp);
    assert turned + replies + news == Reading(t, message);
    hide *;
    TextIs(s, message, what.hungUp);
    TextTurns(config, s, t, what, turn, a);
    RouteAfterTurn(config, s, t, what, turn, a, b);
    SameNews(config, s, t, message, turn, a, route, b);
    assert route.clock == b.clock by { SameClock(config, route, b); }
    NewsKnown(config, route, b, what, message);
    Composed(config, t, what, message, s.log, turned, replies, news);
    TextComes(config, s, t, message, turn, a, route, h, u, replies, news);
  }

  lemma SameNews(
      config: Config, s: State, t: Story, message: ServerMessage, turn: State, a: Story, route: State, b: Story)
    requires TurnKnown(config, s, t, message, turn, a) && OnlyReplies(turn, route, a, b)
    ensures News(b, message) == News(t, message)
  {
  }

  lemma SameClock(config: Config, s: State, t: Story)
    requires Base(config, s, t)
    ensures s.clock == t.clock
  {
  }

  lemma TextComes(
      config: Config, s: State, t: Story, message: ServerMessage, turn: State, a: Story, route: State, h: State,
        u: Story,
      replies: seq<Fact>, news: seq<Fact>)
    requires TurnKnown(config, s, t, message, turn, a) && Base(config, route, u) && OnlyReplies(turn, route, a, u)
    requires route.log == turn.log + replies && h == route.(log := route.log + news)
    requires s.log + ([Received(message)] + Turning(t, message)) + replies + news == s.log + Reading(t, message)
    ensures TextRead(config, s, t, message, h, u)
  {
    assert s.log + [Received(message)] + Turning(t, message) == s.log + ([Received(message)] + Turning(t, message));
    hide Reading, Turning, Doom, Frames;
  }
}
