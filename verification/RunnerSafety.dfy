/**
 * Every run obeys the contract: the inductive invariant, and its preservation operation by
 * operation. Lemmas about one component see that component's definition; lemmas that combine
 * them hide it.
 */
module RunnerSafety {
  import opened Prelude
  import opened Protocol
  import opened RunnerModel
  import opened RunnerContract
  import Backoff
  import Correlate
  import Session

  // ---- the invariant: call tables ------------------------------------------------------

  ghost predicate HasKind(id: string, kind: char) {
    |id| > 0 && id[0] == kind
  }

  function Waiting(ids: Ids): set<string> {
    ids.registered - ids.settled
  }

  function Unused(ids: Ids): set<string> {
    ids.registered - ids.everCarried
  }

  /**
   * A table minted every registered id of its kind, holds exactly those still waiting, keeps
   * every entry on the current epoch, and knows which of them the current socket accepted.
   */
  ghost predicate Sound(t: Correlate.Table, kind: char, marked: set<string>, ids: Ids) {
    && t.prefix == [kind]
    && (forall id | id in ids.registered && HasKind(id, kind) :: t.Issued(id))
    && (forall id :: id in t.pending <==> id in Waiting(ids) && HasKind(id, kind))
    && t.epoch == ids.settles % Correlate.EPOCHS
    && (forall id | id in t.pending :: t.pending[id].epoch == t.epoch)
    && marked <= ids.carried
    && (forall id | id in t.pending ::
          && (t.pending[id].sent || id in marked <==> id in ids.carried)
          && (id in ids.everCarried ==> id in ids.carried))
  }

  ghost predicate Books(ids: Ids) {
    && ids.settled <= ids.registered
    && ids.carried <= ids.everCarried <= ids.registered
    && (forall id | id in ids.registered :: HasKind(id, 'm') || HasKind(id, 's'))
  }

  ghost predicate Ledger(methods: Correlate.Table, subs: Correlate.Table, unflushed: seq<Mark>, ids: Ids) {
    && Books(ids)
    && Sound(methods, 'm', MethodIds(unflushed), ids)
    && Sound(subs, 's', SubIds(unflushed), ids)
  }

  // ---- the invariant: queues -----------------------------------------------------------

  /** The mark matches the frame, and the id it carries is registered and was never accepted. */
  ghost predicate GoodOutbound(unused: set<string>, out: Outbound) {
    && Cargo(out.frame) <= unused
    && match out.frame
       case Method(id, _, _) => out.mark == Some(MethodMark(id)) && HasKind(id, 'm')
       case Sub(id, _, _) => out.mark == Some(SubMark(id)) && HasKind(id, 's')
       case _ => out.mark == None
  }

  predicate ProtocolFrame(frame: ClientMessage) {
    frame.Connect? || frame.Ping? || frame.Pong? || (frame.Method? && frame.name == "login")
  }

  predicate ApplicationFrame(frame: ClientMessage) {
    frame.Method? || frame.Sub? || frame.Unsub?
  }

  /** Queued frames are on their lane and carry unused ids, each id at most once. */
  ghost predicate Queues(priority: seq<Outbound>, app: seq<Outbound>, unused: set<string>) {
    && (forall i | 0 <= i < |priority| ::
          ProtocolFrame(priority[i].frame) && GoodOutbound(unused, priority[i]))
    && (forall i | 0 <= i < |app| ::
          ApplicationFrame(app[i].frame) && GoodOutbound(unused, app[i]))
    && (forall i, j | 0 <= i < j < |priority| :: Cargo(priority[i].frame) !! Cargo(priority[j].frame))
    && (forall i, j | 0 <= i < j < |app| :: Cargo(app[i].frame) !! Cargo(app[j].frame))
    && (forall i, j | 0 <= i < |priority| && 0 <= j < |app| ::
          Cargo(priority[i].frame) !! Cargo(app[j].frame))
  }

  function PongIds(queue: seq<Outbound>): seq<Option<string>> {
    if queue == [] then []
    else PongIds(queue[..|queue| - 1]) +
         var last := queue[|queue| - 1].frame; if last.Pong? then [last.pongId] else []
  }

  /** The owed pongs are the ones queued. */
  ghost predicate Beats(priority: seq<Outbound>, o: Observed) {
    o.pings == o.pongs + PongIds(priority)
  }

  ghost predicate Greeting(priority: seq<Outbound>, o: Observed) {
    && o.live
    && (o.frames == 0 ==> priority != [])
    && (forall i | 0 <= i < |priority| :: priority[i].frame.Connect? <==> i == 0 && o.frames == 0)
  }

  /** The login `id` was accepted on this socket or is queued ahead of every application frame. */
  ghost predicate Underway(priority: seq<Outbound>, logins: set<string>, id: string) {
    || id in logins
    || exists i :: 0 <= i < |priority| && priority[i].frame.Method? && priority[i].frame.id == id
  }

  ghost predicate Access(session: Session.Lifecycle, priority: seq<Outbound>, o: Observed) {
    && (session.loginCall.Some? ==> Underway(priority, o.logins, session.loginCall.value))
    && (session.phase.Ready? ==> exists id :: id in o.answered && Underway(priority, o.logins, id))
  }

  // ---- the invariant: all of it --------------------------------------------------------

  /** `o` is what the log shows, and the log obeys the contract. */
  ghost predicate Judged(s: State, o: Observed) {
    o == Observe(s.config.stableAfter, s.log) && Obeys(s.config.stableAfter, s.log)
  }

  ghost predicate Ending(s: State, o: Observed) {
    o.doomed == s.fatal && !o.fatalSeen && !o.over
  }

  ghost predicate Earned(s: State, o: Observed) {
    && o.readySince == s.readyAt
    && o.quick <= o.stable + if s.attempt == 0 then 0 else 1
  }

  /** Between sockets nothing but application frames is queued, and nothing pending was ever sent. */
  ghost predicate OffLine(s: State, o: Observed) {
    && !o.live
    && s.priority == [] && s.unflushed == [] && !s.needsFlush
    && o.ids.carried !! Waiting(o.ids)
  }

  /** What holds in every state, also between the operations of one step. */
  ghost predicate Core(s: State, o: Observed) {
    && Judged(s, o)
    && Ledger(s.methods, s.subs, s.unflushed, o.ids)
    && Queues(s.priority, s.app, Unused(o.ids))
    && Earned(s, o)
  }

  /** What holds while a socket is being driven. */
  ghost predicate OnLine(s: State, o: Observed) {
    && Beats(s.priority, o)
    && Greeting(s.priority, o)
    && Access(s.session, s.priority, o)
  }

  ghost predicate Invariant(s: State, o: Observed) {
    && Core(s, o)
    && (if s.stage.Stopped? then o.over && o.ids.settled == o.ids.registered
        else Ending(s, o) && s.fatal.None? && !s.shutdown)
    && (if s.stage.Driving? then OnLine(s, o) else OffLine(s, o))
    && (s.stage.Idling? ==> s.attempt >= 2)
    && (s.stage.Dialling? ==> s.attempt >= 1)
  }

  /** A run so far without a terminal failure. */
  ghost predicate Alive(s: State, o: Observed) {
    Core(s, o) && Ending(s, o) && s.fatal.None?
  }

  // ---- one more fact -------------------------------------------------------------------

  lemma Extend(s: State, o: Observed, fact: Fact)
    requires Judged(s, o) && Legal(o, fact)
    ensures Judged(Note(s, fact), See(s.config.stableAfter, o, fact))
  {
    OneMoreFact(s.config.stableAfter, s.log, fact);
  }

  /** Announcing something that is not a lifecycle event changes nothing the invariant speaks of. */
  lemma KeepEmit(s: State, o: Observed, event: Event)
    requires Alive(s, o)
    requires || event.ConnectedTo? || event.Frame?
             || (event.Resubscribe? && event.epoch == o.ids.settles % Correlate.EPOCHS)
             || (event.Connecting? && event.attempt > 0)
    ensures Core(Emit(s, event), o)
  {
    hide Sound, Queues, Observe, Obeys;
    Extend(s, o, Emitted(event, s.clock));
  }

  // ---- call tables ---------------------------------------------------------------------

  lemma SoundRegister(t: Correlate.Table, kind: char, marked: set<string>, ids: Ids)
    requires Sound(t, kind, marked, ids) && Books(ids) && kind in {'m', 's'}
    ensures var id := t.NextCall(); var more := SeeIds(ids, Registered(id));
            && HasKind(id, kind) && id !in ids.registered
            && Sound(t.Register(), kind, marked, more) && Books(more)
  {
    var id := t.NextCall();
    if id in ids.registered {
      var n: nat :| n < t.nextId && id == Correlate.IdOf(t.prefix, n);
      Correlate.IdsNeverCollide(kind, n, kind, t.nextId);
    }
    Correlate.RegisterIssues(t);
  }

  lemma SoundForget(
      t: Correlate.Table, kind: char, marked: set<string>, ids: Ids, id: string,
      handed: multiset<(string, Correlate.Reply)>)
    requires Sound(t, kind, marked, ids) && Books(ids) && id in ids.registered
    ensures Sound(t.Forget(id).(handed := handed), kind, marked, ids.(settled := ids.settled + {id}))
    ensures Books(ids.(settled := ids.settled + {id}))
  {
  }

  /** What happens to an id of one kind does not concern the table of the other. */
  lemma SoundElsewhere(t: Correlate.Table, kind: char, marked: set<string>, ids: Ids, id: string)
    requires Sound(t, kind, marked, ids) && !HasKind(id, kind)
    ensures Sound(t, kind, marked, ids.(registered := ids.registered + {id}))
    ensures Sound(t, kind, marked, ids.(settled := ids.settled + {id}))
  {
  }

  lemma SoundMarkSent(t: Correlate.Table, kind: char, marked: set<string>, ids: Ids)
    requires Sound(t, kind, marked, ids)
    ensures Sound(t.MarkSent(marked), kind, {}, ids)
  {
  }

  lemma SoundDisconnect(t: Correlate.Table, kind: char, ids: Ids)
    requires Sound(t, kind, {}, ids)
    ensures Sound(t.Disconnect(), kind, {}, ids.(settled := ids.registered, settles := ids.settles + 1))
  {
  }

  /** A new socket forgets what the last one carried; nothing waiting was carried by it. */
  lemma SoundOpened(t: Correlate.Table, kind: char, ids: Ids)
    requires Sound(t, kind, {}, ids) && ids.carried !! Waiting(ids)
    ensures Sound(t, kind, {}, ids.(carried := {}))
  {
  }

  /** Handing a frame over moves its id into `carried` and its mark into `unflushed`, together. */
  lemma SoundAccepted(t: Correlate.Table, kind: char, marked: set<string>, ids: Ids, frame: ClientMessage)
    requires Sound(t, kind, marked, ids) && Books(ids) && Cargo(frame) <= Unused(ids)
    ensures var cargo := set id | id in Cargo(frame) && HasKind(id, kind);
            Sound(t, kind, marked + cargo, SeeIds(ids, Accepted(Protocol, frame)))
  {
  }

  lemma QueuesGrow(priority: seq<Outbound>, app: seq<Outbound>, unused: set<string>, more: set<string>)
    requires Queues(priority, app, unused) && unused <= more
    ensures Queues(priority, app, more)
  {
  }

  /** Registering a call: the new id is fresh for everything that is queued. */
  lemma KeepRegisterMethod(s: State, o: Observed)
    requires Alive(s, o)
    ensures var id := s.methods.NextCall();
            && id !in o.ids.registered && HasKind(id, 'm')
            && Alive(RegisterMethod(s), o.(ids := SeeIds(o.ids, Registered(id))))
  {
    hide Sound, Queues, Observe, Obeys;
    var id := s.methods.NextCall();
    SoundRegister(s.methods, 'm', MethodIds(s.unflushed), o.ids);
    SoundElsewhere(s.subs, 's', SubIds(s.unflushed), o.ids, id);
    Extend(s, o, Registered(id));
    QueuesGrow(s.priority, s.app, Unused(o.ids), Unused(SeeIds(o.ids, Registered(id))));
  }

  lemma KeepRegisterSub(s: State, o: Observed)
    requires Alive(s, o)
    ensures var id := s.subs.NextCall();
            && id !in o.ids.registered && HasKind(id, 's')
            && Alive(RegisterSub(s), o.(ids := SeeIds(o.ids, Registered(id))))
  {
    hide Sound, Queues, Observe, Obeys;
    var id := s.subs.NextCall();
    SoundRegister(s.subs, 's', SubIds(s.unflushed), o.ids);
    SoundElsewhere(s.methods, 'm', MethodIds(s.unflushed), o.ids, id);
    Extend(s, o, Registered(id));
    QueuesGrow(s.priority, s.app, Unused(o.ids), Unused(SeeIds(o.ids, Registered(id))));
  }

  lemma PendingWaits(t: Correlate.Table, kind: char, marked: set<string>, ids: Ids, id: string)
    requires Sound(t, kind, marked, ids) && id in t.pending
    ensures id in Waiting(ids) && HasKind(id, kind) && t.pending[id].epoch == t.epoch
  {
  }

  /** A pending method call leaves its table, by a reply or by cancellation. */
  lemma KeepForgetMethod(
      s: State, o: Observed, id: string, fact: Fact, handed: multiset<(string, Correlate.Reply)>)
    requires Core(s, o) && Ending(s, o) && id in s.methods.pending
    requires fact == Resolved(id) || (fact == Cancelled(id) && s.fatal.None?)
    ensures Core(Note(s.(methods := s.methods.Forget(id).(handed := handed)), fact), o.(ids := SeeIds(o.ids, fact)))
  {
    hide Sound, Queues, Observe, Obeys;
    PendingWaits(s.methods, 'm', MethodIds(s.unflushed), o.ids, id);
    SoundForget(s.methods, 'm', MethodIds(s.unflushed), o.ids, id, handed);
    SoundElsewhere(s.subs, 's', SubIds(s.unflushed), o.ids, id);
    Extend(s, o, fact);
  }

  lemma KeepForgetSub(s: State, o: Observed, id: string, fact: Fact, handed: multiset<(string, Correlate.Reply)>)
    requires Core(s, o) && Ending(s, o) && id in s.subs.pending
    requires fact == Resolved(id) || (fact == Cancelled(id) && s.fatal.None?)
    ensures Core(Note(s.(subs := s.subs.Forget(id).(handed := handed)), fact), o.(ids := SeeIds(o.ids, fact)))
  {
    hide Sound, Queues, Observe, Obeys;
    PendingWaits(s.subs, 's', SubIds(s.unflushed), o.ids, id);
    SoundForget(s.subs, 's', SubIds(s.unflushed), o.ids, id, handed);
    SoundElsewhere(s.methods, 'm', MethodIds(s.unflushed), o.ids, id);
    Extend(s, o, fact);
  }

  // ---- replies -------------------------------------------------------------------------

  /** A reply is never stale: it settles a pending call, or it is about no pending call at all. */
  lemma KeepResolveMethod(
      s: State, o: Observed, id: string, outcome: Prelude.Result<Json, DdpError>, hungUp: set<string>)
    returns (o': Observed)
    requires Core(s, o) && Ending(s, o)
    ensures Core(ResolveMethod(s, id, outcome, hungUp), o') && o' == o.(ids := o'.ids)
  {
    hide Sound, Queues, Observe, Obeys, Legal;
    if id in s.methods.pending {
      PendingWaits(s.methods, 'm', MethodIds(s.unflushed), o.ids, id);
      KeepForgetMethod(s, o, id, Resolved(id), s.methods.Resolve(id, outcome, id !in hungUp).handed);
      o' := o.(ids := SeeIds(o.ids, Resolved(id)));
    } else {
      assert s.methods.Resolve(id, outcome, id !in hungUp) == s.methods && s.log + [] == s.log;
      o' := o;
    }
  }

  lemma KeepResolveSub(
      s: State, o: Observed, id: string, outcome: Prelude.Result<Json, DdpError>, hungUp: set<string>)
    returns (o': Observed)
    requires Core(s, o) && Ending(s, o)
    ensures Core(ResolveSub(s, id, outcome, hungUp), o') && o' == o.(ids := o'.ids)
  {
    hide Sound, Queues, Observe, Obeys, Legal;
    if id in s.subs.pending {
      PendingWaits(s.subs, 's', SubIds(s.unflushed), o.ids, id);
      KeepForgetSub(s, o, id, Resolved(id), s.subs.Resolve(id, outcome, id !in hungUp).handed);
      o' := o.(ids := SeeIds(o.ids, Resolved(id)));
    } else {
      assert s.subs.Resolve(id, outcome, id !in hungUp) == s.subs && s.log + [] == s.log;
      o' := o;
    }
  }

  lemma {:induction false} KeepResolveSubs(s: State, o: Observed, ids: seq<string>, hungUp: set<string>)
    returns (o': Observed)
    requires Core(s, o) && Ending(s, o)
    ensures Core(ResolveSubs(s, ids, hungUp), o') && o' == o.(ids := o'.ids)
    ensures var r := ResolveSubs(s, ids, hungUp); r == s.(subs := r.subs, log := r.log)
    decreases |ids|
  {
    hide Core;
    if ids == [] {
      o' := o;
    } else {
      var next := KeepResolveSub(s, o, ids[0], Prelude.Success(JsonNull), hungUp);
      o' := KeepResolveSubs(ResolveSub(s, ids[0], Prelude.Success(JsonNull), hungUp), next, ids[1..], hungUp);
    }
  }

  // ---- queueing ------------------------------------------------------------------------

  /** No queued frame carries `id`, because none of them carries an id outside `unused`. */
  lemma QueuePriority(
      priority: seq<Outbound>, app: seq<Outbound>, before: set<string>, unused: set<string>, out: Outbound)
    requires Queues(priority, app, before) && before <= unused
    requires ProtocolFrame(out.frame) && GoodOutbound(unused, out) && Cargo(out.frame) !! before
    ensures Queues(priority + [out], app, unused)
  {
  }

  lemma QueueApp(priority: seq<Outbound>, app: seq<Outbound>, before: set<string>, unused: set<string>, out: Outbound)
    requires Queues(priority, app, before) && before <= unused
    requires ApplicationFrame(out.frame) && GoodOutbound(unused, out) && Cargo(out.frame) !! before
    ensures Queues(priority, app + [out], unused)
  {
  }

  lemma TakePriority(priority: seq<Outbound>, app: seq<Outbound>, unused: set<string>)
    requires Queues(priority, app, unused) && priority != []
    ensures Queues(priority[1..], app, unused - Cargo(priority[0].frame))
    ensures ProtocolFrame(priority[0].frame) && GoodOutbound(unused, priority[0])
  {
  }

  lemma TakeApp(app: seq<Outbound>, unused: set<string>)
    requires Queues([], app, unused) && app != []
    ensures Queues([], app[1..], unused - Cargo(app[0].frame))
    ensures ApplicationFrame(app[0].frame) && GoodOutbound(unused, app[0])
  {
  }

  lemma PongIdsGrow(queue: seq<Outbound>, out: Outbound)
    ensures PongIds(queue + [out]) ==
            PongIds(queue) + if out.frame.Pong? then [out.frame.pongId] else []
  {
    assert (queue + [out])[..|queue|] == queue;
  }

  lemma {:induction false} PongIdsShrink(queue: seq<Outbound>)
    requires queue != []
    ensures PongIds(queue) ==
            (if queue[0].frame.Pong? then [queue[0].frame.pongId] else []) + PongIds(queue[1..])
  {
    var n := |queue|;
    if n > 1 {
      PongIdsShrink(queue[..n - 1]);
      assert queue[..n - 1][1..] == queue[1..][..n - 2];
    }
  }

  // ---- the sink ------------------------------------------------------------------------

  lemma MarksGrow(marks: seq<Mark>, mark: Option<Mark>)
    ensures MethodIds(Noted(marks, mark)) ==
            MethodIds(marks) + if mark.Some? && mark.value.MethodMark? then {mark.value.id} else {}
    ensures SubIds(Noted(marks, mark)) ==
            SubIds(marks) + if mark.Some? && mark.value.SubMark? then {mark.value.id} else {}
  {
    if mark.Some? {
      var more := marks + [mark.value];
      assert forall m :: m in more <==> m in marks || m == mark.value;
    }
  }

  lemma LedgerAccepted(s: State, ids: Ids, lane: Lane, out: Outbound)
    requires Ledger(s.methods, s.subs, s.unflushed, ids) && GoodOutbound(Unused(ids), out)
    ensures Ledger(s.methods, s.subs, Noted(s.unflushed, out.mark), SeeIds(ids, Accepted(lane, out.frame)))
    ensures Unused(SeeIds(ids, Accepted(lane, out.frame))) == Unused(ids) - Cargo(out.frame)
  {
    hide Sound;
    MarksGrow(s.unflushed, out.mark);
    var cargo := Cargo(out.frame);
    SoundAccepted(s.methods, 'm', MethodIds(s.unflushed), ids, out.frame);
    SoundAccepted(s.subs, 's', SubIds(s.unflushed), ids, out.frame);
    var marks := Noted(s.unflushed, out.mark);
    assert MethodIds(marks) == MethodIds(s.unflushed) + set id | id in cargo && HasKind(id, 'm');
    assert SubIds(marks) == SubIds(s.unflushed) + set id | id in cargo && HasKind(id, 's');
  }

  lemma PriorityWriteIsLegal(s: State, o: Observed)
    requires Alive(s, o) && OnLine(s, o) && s.priority != []
    ensures Legal(o, Accepted(Protocol, s.priority[0].frame))
  {
    hide Sound, Queues, Observe, Obeys;
    TakePriority(s.priority, s.app, Unused(o.ids));
    PongIdsShrink(s.priority);
  }

  /** An application frame leaves only once ready and with the protocol lane empty, so its login went first. */
  lemma AppWriteIsLegal(s: State, o: Observed)
    requires Alive(s, o) && OnLine(s, o)
    requires s.priority == [] && s.session.phase.Ready? && s.app != []
    ensures Legal(o, Accepted(Application, s.app[0].frame))
  {
    hide Sound, Queues, Observe, Obeys;
    TakeApp(s.app, Unused(o.ids));
    var login :| login in o.answered && Underway(s.priority, o.logins, login);
    assert login in o.logins * o.answered;
  }

  /** Taking the head of the protocol lane turns its owed pong, greeting or login into an accepted one. */
  lemma OnLineAccepted(s: State, o: Observed)
    requires OnLine(s, o) && s.priority != []
    ensures OnLine(s.(priority := s.priority[1..]),
                   See(s.config.stableAfter, o, Accepted(Protocol, s.priority[0].frame)))
  {
    hide SeeIds;
    PongIdsShrink(s.priority);
    var rest := s.priority[1..];
    var o' := See(s.config.stableAfter, o, Accepted(Protocol, s.priority[0].frame));
    forall id | Underway(s.priority, o.logins, id)
      ensures Underway(rest, o'.logins, id)
    {
      if id !in o'.logins {
        var i :| 0 <= i < |s.priority| && s.priority[i].frame.Method? && s.priority[i].frame.id == id;
        assert i > 0 && rest[i - 1].frame.id == id;
      }
    }
  }

  lemma KeepWriteOne(s: State, o: Observed) returns (o': Observed)
    requires Alive(s, o) && OnLine(s, o) && CanWrite(s)
    ensures Alive(WriteOne(s), o') && OnLine(WriteOne(s), o')
  {
    hide Sound, Queues, Observe, Obeys, Legal, PongIds, Underway, SeeIds;
    if s.priority != [] {
      var fact := Accepted(Protocol, s.priority[0].frame);
      PriorityWriteIsLegal(s, o);
      Extend(s, o, fact);
      TakePriority(s.priority, s.app, Unused(o.ids));
      LedgerAccepted(s, o.ids, Protocol, s.priority[0]);
      OnLineAccepted(s, o);
      o' := See(s.config.stableAfter, o, fact);
    } else {
      var fact := Accepted(Application, s.app[0].frame);
      AppWriteIsLegal(s, o);
      Extend(s, o, fact);
      TakeApp(s.app, Unused(o.ids));
      LedgerAccepted(s, o.ids, Application, s.app[0]);
      o' := See(s.config.stableAfter, o, fact);
      assert o'.logins == o.logins && o'.pongs == o.pongs;
    }
  }

  lemma LedgerFlushed(s: State, ids: Ids)
    requires Ledger(s.methods, s.subs, s.unflushed, ids)
    ensures var m := MarkUnflushed(s); Ledger(m.methods, m.subs, [], ids)
  {
    hide Sound;
    SoundMarkSent(s.methods, 'm', MethodIds(s.unflushed), ids);
    SoundMarkSent(s.subs, 's', SubIds(s.unflushed), ids);
    assert MethodIds([]) == {} && SubIds([]) == {};
  }

  // ---- ending a connection -------------------------------------------------------------

  /** Each waiter of a table hears `Abandoned` if this socket accepted its frame, `NotSent` if none did. */
  lemma VerdictsAreFair(t: Correlate.Table, kind: char, ids: Ids, errors: map<string, Correlate.CallError>)
    requires Sound(t, kind, {}, ids) && Books(ids) && errors == t.Verdicts()
    ensures errors.Keys == set id | id in Waiting(ids) && HasKind(id, kind)
    ensures forall id | id in errors ::
              && (errors[id] == Correlate.NotSent || errors[id] == Correlate.Abandoned(id))
              && (errors[id] == Correlate.NotSent <==> id !in ids.everCarried)
              && (errors[id] == Correlate.Abandoned(id) <==> id in ids.carried)
  {
  }

  lemma SettlingIsLegal(m: State, o: Observed)
    requires Ledger(m.methods, m.subs, [], o.ids) && !o.over
    ensures var errors := m.methods.Verdicts() + m.subs.Verdicts();
            && Legal(o, Settled(errors))
            && SeeIds(o.ids, Settled(errors)) ==
               o.ids.(settled := o.ids.registered, settles := o.ids.settles + 1)
  {
    hide Sound, Correlate.Table.Verdicts;
    assert MethodIds([]) == {} && SubIds([]) == {};
    VerdictsAreFair(m.methods, 'm', o.ids, m.methods.Verdicts());
    VerdictsAreFair(m.subs, 's', o.ids, m.subs.Verdicts());
    var errors := m.methods.Verdicts() + m.subs.Verdicts();
    assert errors.Keys == Waiting(o.ids);
    assert o.ids.settled + Waiting(o.ids) == o.ids.registered;
  }

  /** What an observer has seen once a connection is settled. */
  function AllSettled(o: Observed): Observed {
    o.(live := false, ids := o.ids.(settled := o.ids.registered, settles := o.ids.settles + 1))
  }

  lemma KeepSettle(s: State, o: Observed)
    requires Core(s, o) && !o.over
    ensures Core(Settle(s), AllSettled(o)) && OffLine(Settle(s), AllSettled(o))
  {
    hide Sound, Queues, Observe, Obeys, Legal, SeeIds, Correlate.Table.Verdicts;
    var m := MarkUnflushed(s);
    var errors := m.methods.Verdicts() + m.subs.Verdicts();
    LedgerFlushed(s, o.ids);
    SettlingIsLegal(m, o);
    Extend(s, o, Settled(errors));
    assert MethodIds([]) == {} && SubIds([]) == {};
    SoundDisconnect(m.methods, 'm', o.ids);
    SoundDisconnect(m.subs, 's', o.ids);
    NoQueues(Unused(AllSettled(o).ids));
  }

  lemma NoQueues(unused: set<string>)
    ensures Queues([], [], unused)
  {
  }

  lemma KeepFinish(s: State, o: Observed) returns (o': Observed)
    requires Core(s, o) && !o.over && (o.doomed.Some? ==> o.fatalSeen)
    ensures Invariant(Finish(s), o')
  {
    hide Ledger, Queues, Observe, Obeys;
    KeepSettle(s, o);
    Extend(Settle(s), AllSettled(o), Returned);
    o' := AllSettled(o).(over := true);
  }

  lemma KeepHead(s: State, o: Observed) returns (o': Observed)
    requires Alive(s, o) && OffLine(s, o)
    ensures Invariant(Head(s), o')
  {
    hide Ledger, Queues, Observe, Obeys, Finish;
    if s.shutdown {
      o' := KeepFinish(s, o);
    } else {
      o' := o;
    }
  }

  /** A lost connection: every waiter settled, a stable session credited, and back to the loop head. */
  lemma KeepLost(s: State, o: Observed) returns (o': Observed)
    requires Alive(s, o)
    ensures Invariant(Lost(s), o')
  {
    hide Ledger, Queues, Observe, Obeys, Head, Correlate.Table.Verdicts, Correlate.Table.MarkSent;
    var ended := s.(session := s.session.Disconnect());
    KeepSettle(ended, o);
    var settled := Settle(ended);
    Extend(settled, AllSettled(o), Emitted(Disconnected, s.clock));
    var lost := Emit(settled, Disconnected).(readyAt := None, attempt := AfterLoss(s).attempt);
    var seen := See(s.config.stableAfter, AllSettled(o), Emitted(Disconnected, s.clock));
    o' := KeepHead(lost, seen);
    var after := AfterLoss(s);
    assert lost == Emit(Settle(after.(session := after.session.Disconnect())), Disconnected);
  }

  /** When a turn is over: a doomed session stops for good, and nothing else does harm. */
  lemma KeepConclude(s: State, o: Observed, outcome: Option<Outcome>) returns (o': Observed)
    requires Core(s, o) && Ending(s, o) && s.stage.Driving?
    requires s.fatal.Some? || OnLine(s, o)
    ensures Invariant(Conclude(s, outcome), o')
  {
    hide Ledger, Queues, Observe, Obeys, Lost, Correlate.Table.Verdicts, Correlate.Table.MarkSent;
    match EndOf(s, outcome) {
      case None =>
        o' := o;
      case Some(Gone) =>
        o' := KeepLost(s, o);
      case Some(Quit) =>
        KeepSettle(s, o);
        var settled := Settle(s);
        o' := KeepFinish(settled.(session := settled.session.Disconnect()), AllSettled(o));
      case Some(Terminal(fatal)) =>
        var taken := s.(fatal := None);
        KeepSettle(taken, o);
        Extend(Settle(taken), AllSettled(o), Emitted(FatalError(fatal), s.clock));
        o' := KeepFinish(Emit(Settle(taken), FatalError(fatal)), AllSettled(o).(fatalSeen := true));
    }
  }

  // ---- commands ------------------------------------------------------------------------

  /** A command registers and queues at most one application call, or cancels it at once. */
  lemma KeepCommand(s: State, o: Observed, command: Command, listening: bool) returns (o': Observed)
    requires Alive(s, o)
    ensures Alive(HandleCommand(s, command, listening), o') && o' == o.(ids := o'.ids)
    ensures o.ids.carried !! Waiting(o.ids) ==> o'.ids.carried !! Waiting(o'.ids)
  {
    hide Sound, Queues, Observe, Obeys, Legal;
    match command
    case Call(name, params) =>
      var id := s.methods.NextCall();
      KeepRegisterMethod(s, o);
      o' := o.(ids := SeeIds(o.ids, Registered(id)));
      var r := RegisterMethod(s);
      if listening {
        QueueApp(s.priority, s.app, Unused(o.ids), Unused(o'.ids),
          Outbound(Method(id, name, params), Some(MethodMark(id))));
      } else {
        KeepForgetMethod(r, o', id, Cancelled(id), r.methods.handed);
        o' := o'.(ids := SeeIds(o'.ids, Cancelled(id)));
      }
    case Subscribe(name, params) =>
      var id := s.subs.NextCall();
      KeepRegisterSub(s, o);
      o' := o.(ids := SeeIds(o.ids, Registered(id)));
      var r := RegisterSub(s);
      if listening {
        QueueApp(s.priority, s.app, Unused(o.ids), Unused(o'.ids), Outbound(Sub(id, name, params), Some(SubMark(id))));
      } else {
        KeepForgetSub(r, o', id, Cancelled(id), r.subs.handed);
        o' := o'.(ids := SeeIds(o'.ids, Cancelled(id)));
      }
    case Unsubscribe(id) =>
      QueueApp(s.priority, s.app, Unused(o.ids), Unused(o.ids), Outbound(Unsub(id), None));
      o' := o;
    case Shutdown =>
      o' := o;
  }

  // ---- inbound frames ------------------------------------------------------------------

  lemma UnderwayGrows(priority: seq<Outbound>, out: Outbound, logins: set<string>, id: string)
    requires Underway(priority, logins, id) || (out.frame.Method? && out.frame.id == id)
    ensures Underway(priority + [out], logins, id)
  {
    if id !in logins {
      var more := priority + [out];
      if out.frame.Method? && out.frame.id == id {
        assert more[|priority|].frame.id == id;
      } else {
        var i :| 0 <= i < |priority| && priority[i].frame.Method? && priority[i].frame.id == id;
        assert more[i].frame.id == id;
      }
    }
  }

  /** Queueing a protocol frame that carries no call: an owed pong, or a probe. */
  lemma KeepPushPriority(s: State, o: Observed, frame: ClientMessage)
    requires Core(s, o) && (frame.Pong? || frame.Ping?)
    requires Greeting(s.priority, o) && Access(s.session, s.priority, o)
    requires o.pings == o.pongs + PongIds(s.priority) + if frame.Pong? then [frame.pongId] else []
    ensures var p := PushPriority(s, frame, None); Core(p, o) && OnLine(p, o)
  {
    hide Ledger, Queues, Observe, Obeys, Underway;
    var out := Outbound(frame, None);
    QueuePriority(s.priority, s.app, Unused(o.ids), Unused(o.ids), out);
    PongIdsGrow(s.priority, out);
    forall id | Underway(s.priority, o.logins, id)
      ensures Underway(s.priority + [out], o.logins, id)
    {
      UnderwayGrows(s.priority, out, o.logins, id);
    }
  }

  lemma KeepReceived(s: State, o: Observed, message: ServerMessage)
    requires Alive(s, o) && o.live
    ensures Alive(Note(s, Received(message)), See(s.config.stableAfter, o, Received(message)))
    ensures See(s.config.stableAfter, o, Received(message)).ids == o.ids
  {
    hide Ledger, Queues, Observe, Obeys;
    Extend(s, o, Received(message));
  }

  lemma KeepPing(s: State, o: Observed, id: Option<string>, hungUp: set<string>) returns (o': Observed)
    requires Alive(s, o) && OnLine(s, o)
    ensures var t := OnText(s, ServerPing(id), hungUp); Alive(t, o') && OnLine(t, o')
  {
    hide Ledger, Queues, Observe, Obeys, PongIds, Underway;
    KeepReceived(s, o, ServerPing(id));
    o' := See(s.config.stableAfter, o, Received(ServerPing(id)));
    var heard := Note(s, Received(ServerPing(id)));
    KeepPushPriority(heard, o', Pong(id));
    var actions := s.session.Handle(ServerPing(id)).1;
    assert ApplyAll(heard, actions) == PushPriority(heard, Pong(id), None) by {
      assert actions == [Session.Send(Pong(id))] && actions[1..] == [];
    }
  }

  /** `connected` issues a login on the protocol lane and forgets earlier successes. */
  lemma KeepConnected(s: State, o: Observed, session: string, hungUp: set<string>) returns (o': Observed)
    requires Alive(s, o) && OnLine(s, o)
    ensures var t := OnText(s, Connected(session), hungUp); Alive(t, o') && OnLine(t, o')
  {
    hide Sound, Queues, Observe, Obeys, PongIds, Underway, Legal;
    var message := Connected(session);
    KeepReceived(s, o, message);
    var o1 := See(s.config.stableAfter, o, Received(message));
    var heard := Note(s, Received(message)).(session := s.session.Handle(message).0);
    var id := heard.methods.NextCall();
    KeepRegisterMethod(heard, o1);
    o' := o1.(ids := SeeIds(o1.ids, Registered(id)));
    var out := Outbound(Method(id, "login", s.config.credential), Some(MethodMark(id)));
    QueuePriority(s.priority, s.app, Unused(o1.ids), Unused(o'.ids), out);
    PongIdsGrow(s.priority, out);
    UnderwayGrows(s.priority, out, o.logins, id);
    var asked := PushPriority(RegisterMethod(heard).(session := heard.session.ExpectLogin(id)), out.frame, out.mark);
    assert Alive(asked, o');
    KeepEmit(asked, o', ConnectedTo(session));
    var actions := s.session.Handle(message).1;
    assert ApplyAll(heard, actions) == asked by { assert actions == [Session.Login] && actions[1..] == []; }
  }

  lemma KeepDoomed(s: State, o: Observed, fatal: Session.Fatal)
    requires Alive(s, o)
    ensures var d := Note(s.(fatal := Some(fatal)), Doomed(fatal));
            Core(d, o.(doomed := Some(fatal))) && Ending(d, o.(doomed := Some(fatal)))
  {
    hide Ledger, Queues, Observe, Obeys;
    Extend(s, o, Doomed(fatal));
  }

  /** A refused version or a refused login dooms the session; the reply that said so still settles its call. */
  lemma KeepRefusal(s: State, o: Observed, message: ServerMessage, hungUp: set<string>) returns (o': Observed)
    requires Alive(s, o) && OnLine(s, o)
    requires message.Failed? || (s.session.AnswersLogin(message) && message.error.Some?)
    ensures var t := OnText(s, message, hungUp); Core(t, o') && Ending(t, o') && t.fatal.Some?
  {
    hide Ledger, Queues, Observe, Obeys, Legal, ReplyFact;
    KeepReceived(s, o, message);
    var o1 := See(s.config.stableAfter, o, Received(message));
    var (session, actions) := s.session.Handle(message);
    var heard := Note(s, Received(message)).(session := session);
    var fatal := actions[0].fatal;
    assert actions == [Session.Stop(fatal)] && actions[1..] == [];
    KeepDoomed(heard, o1, fatal);
    var doomed := Note(heard.(fatal := Some(fatal)), Doomed(fatal));
    assert ApplyAll(heard, actions) == doomed;
    o' := o1.(doomed := Some(fatal));
    if message.Result? {
      o' := KeepResolveMethod(doomed, o', message.id, Answer(message), hungUp);
    }
  }

  /** A login success: ready, on the epoch of the connections settled so far. */
  lemma KeepWelcome(s: State, o: Observed, message: ServerMessage, hungUp: set<string>) returns (o': Observed)
    requires Alive(s, o) && OnLine(s, o)
    requires s.session.AnswersLogin(message) && message.error.None?
    ensures var t := OnText(s, message, hungUp); Alive(t, o') && OnLine(t, o')
  {
    hide Queues, Observe, Obeys, PongIds, Underway, Legal, ReplyFact;
    KeepReceived(s, o, message);
    var o1 := See(s.config.stableAfter, o, Received(message));
    var (session, actions) := s.session.Handle(message);
    assert actions == [Session.Action.Resubscribe] && actions[1..] == [];
    var heard := Note(s, Received(message)).(session := session, handshake := None);
    assert Underway(s.priority, o1.logins, message.id) && message.id in o1.answered;
    var ready := Emit(heard.(readyAt := Some(s.clock)), ReadyNow(s.methods.epoch));
    KeepReadyNow(heard, o1);
    var o2 := o1.(readySince := Some(s.clock));
    KeepEmit(ready, o2, Event.Resubscribe(s.methods.epoch));
    o' := KeepResolveMethod(Emit(ready, Event.Resubscribe(s.methods.epoch)), o2, message.id, Answer(message), hungUp);
  }

  lemma KeepReadyNow(s: State, o: Observed)
    requires Alive(s, o) && o.live
    ensures Alive(Emit(s.(readyAt := Some(s.clock)), ReadyNow(s.methods.epoch)), o.(readySince := Some(s.clock)))
  {
    hide Queues, Observe, Obeys;
    Extend(s, o, Emitted(ReadyNow(s.methods.epoch), s.clock));
  }

  /** Every other frame: announced to the application, or routed to the callers it answers. */
  lemma KeepOther(s: State, o: Observed, message: ServerMessage, hungUp: set<string>) returns (o': Observed)
    requires Alive(s, o) && OnLine(s, o)
    requires !message.ServerPing? && !message.Connected? && !message.Failed? && !s.session.AnswersLogin(message)
    ensures var t := OnText(s, message, hungUp); Alive(t, o') && OnLine(t, o')
  {
    hide Ledger, Queues, Observe, Obeys, PongIds, Underway, Legal, Route, See;
    KeepReceived(s, o, message);
    var heard := Note(s, Received(message));
    var o1 := See(s.config.stableAfter, o, Received(message));
    assert OnLine(heard, o1) by { OnLineHeard(s, o, message); }
    assert s.session.Handle(message).0 == s.session && ApplyAll(heard, s.session.Handle(message).1) == heard;
    o' := KeepRoute(heard, o1, message, hungUp);
    if message.IsForwarded() {
      KeepEmit(Route(heard, message, hungUp), o', Frame(message));
    }
  }

  lemma OnLineHeard(s: State, o: Observed, message: ServerMessage)
    requires OnLine(s, o) && !message.ServerPing? && !message.Connected?
    ensures OnLine(s, See(s.config.stableAfter, o, Received(message)))
  {
    hide PongIds, Underway;
  }

  lemma KeepRoute(s: State, o: Observed, message: ServerMessage, hungUp: set<string>) returns (o': Observed)
    requires Alive(s, o) && OnLine(s, o)
    ensures var t := Route(s, message, hungUp); Alive(t, o') && OnLine(t, o')
  {
    hide Ledger, Queues, Observe, Obeys, PongIds, Underway, ReplyFact, ResolveSubs;
    match message {
      case Result(id, _, _) => o' := KeepResolveMethod(s, o, id, Answer(message), hungUp);
      case SubsReady(ids) => o' := KeepResolveSubs(s, o, ids, hungUp);
      case Nosub(id, _) => o' := KeepResolveSub(s, o, id, Answer(message), hungUp);
      case _ => o' := o;
    }
  }

  lemma KeepText(s: State, o: Observed, message: ServerMessage, hungUp: set<string>) returns (o': Observed)
    requires Alive(s, o) && OnLine(s, o)
    ensures var t := OnText(s, message, hungUp);
            Core(t, o') && Ending(t, o') && (t.fatal.Some? || OnLine(t, o'))
  {
    hide OnText, Core, OnLine;
    if message.ServerPing? {
      o' := KeepPing(s, o, message.pingId, hungUp);
    } else if message.Connected? {
      o' := KeepConnected(s, o, message.session, hungUp);
    } else if message.Failed? || (s.session.AnswersLogin(message) && message.error.Some?) {
      o' := KeepRefusal(s, o, message, hungUp);
    } else if s.session.AnswersLogin(message) {
      o' := KeepWelcome(s, o, message, hungUp);
    } else {
      o' := KeepOther(s, o, message, hungUp);
    }
  }

  // ---- the remaining steps -------------------------------------------------------------

  /** A new socket: nothing is queued for it but the greeting, and nothing waiting was ever sent. */
  lemma KeepStart(s: State, o: Observed) returns (o': Observed)
    requires Invariant(s, o) && s.stage.Dialling?
    ensures Invariant(StartDriving(s), o')
  {
    hide Sound, Queues, Observe, Obeys;
    o' := See(s.config.stableAfter, o, Opened);
    Extend(s, o, Opened);
    assert MethodIds([]) == {} && SubIds([]) == {};
    SoundOpened(s.methods, 'm', o.ids);
    SoundOpened(s.subs, 's', o.ids);
    var out := Outbound(ClientMessage.Connect(DDP_VERSION, [DDP_VERSION]), None);
    QueuePriority([], s.app, Unused(o.ids), Unused(o'.ids), out);
    assert [] + [out] == [out] && PongIds([out]) == [];
  }

  lemma KeepDeadline(s: State, o: Observed)
    requires Alive(s, o) && OnLine(s, o)
    ensures var t := OnDeadline(s).0; Alive(t, o) && OnLine(t, o)
  {
    hide Ledger, Queues, Observe, Obeys, PongIds, Underway;
    KeepPushPriority(s, o, Ping(None));
  }

  lemma KeepDial(s: State, o: Observed) returns (o': Observed)
    requires Alive(s, o) && OffLine(s, o) && !s.shutdown && s.attempt >= 1
    requires s.attempt == 1 ==> o.quick <= o.stable
    ensures Invariant(Dial(s), o')
  {
    hide Ledger, Queues, Observe, Obeys;
    Extend(s, o, Emitted(Connecting(s.attempt - 1), s.clock));
    o' := See(s.config.stableAfter, o, Emitted(Connecting(s.attempt - 1), s.clock));
  }

  lemma KeepPace(s: State, o: Observed, roll: nat) returns (o': Observed)
    requires Invariant(s, o) && s.stage.Top?
    ensures Invariant(Pace(s, roll), o')
  {
    hide Ledger, Queues, Observe, Obeys, Dial, Backoff.Window, Backoff.Drawn;
    var paced := s.(attempt := Backoff.Bump(s.attempt));
    var delay := Backoff.Drawn(Backoff.Window(s.config.backoffBase, s.config.backoffCap, s.attempt), roll);
    if s.attempt == 0 {
      assert delay == 0 by { FirstIsImmediate(s.config.backoffBase, s.config.backoffCap, roll); }
    }
    if delay == 0 {
      o' := KeepDial(paced, o);
    } else {
      o' := o;
    }
  }

  lemma FirstIsImmediate(base: nat, cap: nat, roll: nat)
    ensures Backoff.Drawn(Backoff.Window(base, cap, 0), roll) == 0
  {
  }

  lemma KeepIdle(s: State, o: Observed, what: Happening) returns (o': Observed)
    requires Invariant(s, o) && s.stage.Idling?
    ensures Invariant(Idle(s, what), o')
  {
    hide Ledger, Queues, Observe, Obeys, Dial, Finish, HandleCommand;
    o' := o;
    match what {
      case Wake =>
        if s.clock >= s.stage.until {
          o' := KeepDial(s, o);
        }
      case Asks(command, listening) =>
        if TakesCommands(s) {
          var handled := HandleCommand(s, command, listening);
          o' := KeepCommand(s, o, command, listening);
          CommandFrame(s, command, listening);
          if handled.shutdown {
            o' := KeepFinish(handled, o');
          }
        }
      case HandlesDropped =>
        if TakesCommands(s) {
          o' := KeepFinish(s.(shutdown := true), o);
        }
      case _ =>
    }
  }

  lemma CommandFrame(s: State, command: Command, listening: bool)
    ensures var h := HandleCommand(s, command, listening);
            h == s.(methods := h.methods, subs := h.subs, app := h.app, shutdown := h.shutdown, log := h.log)
  {
  }

  /** Neither the configuration, the clock nor the watchdog changed. */
  predicate SameWatch(s: State, t: State) {
    t.config == s.config && t.clock == s.clock && t.liveness == s.liveness
  }

  lemma TextFrame(s: State, message: ServerMessage, hungUp: set<string>)
    ensures var t := OnText(s, message, hungUp); t.stage == s.stage && SameWatch(s, t)
  {
    hide Observe, ReplyFact, Session.Lifecycle.Handle, ApplyAll, ResolveSubs;
    var heard := Note(s, Received(message));
    var (session, actions) := heard.session.Handle(message);
    var applied := ApplyAll(heard.(session := session), actions);
    ActionsFrame(heard.(session := session), actions);
    if message.SubsReady? {
      SubsFrame(applied, message.subs, hungUp);
    }
  }

  lemma {:induction false} ActionsFrame(s: State, actions: seq<Session.Action>)
    ensures var t := ApplyAll(s, actions); t.stage == s.stage && SameWatch(s, t)
    decreases |actions|
  {
    if actions != [] {
      ActionsFrame(Apply(s, actions[0]), actions[1..]);
    }
  }

  lemma {:induction false} SubsFrame(s: State, ids: seq<string>, hungUp: set<string>)
    ensures var t := ResolveSubs(s, ids, hungUp); t.stage == s.stage && SameWatch(s, t)
    decreases |ids|
  {
    if ids != [] {
      SubsFrame(ResolveSub(s, ids[0], Prelude.Success(JsonNull), hungUp), ids[1..], hungUp);
    }
  }

  lemma DeadlineFrame(s: State)
    ensures var t := OnDeadline(s).0;
            && t.stage == s.stage && t.config == s.config && t.clock == s.clock
            && t.liveness in {s.liveness, s.liveness.Poll(s.clock)}
  {
  }

  lemma EndingFrame(s: State, outcome: Option<Outcome>)
    ensures SameWatch(s, Lost(s)) && SameWatch(s, Finish(s)) && SameWatch(s, Conclude(s, outcome))
  {
    hide Correlate.Table.Verdicts, Correlate.Table.MarkSent;
  }

  lemma KeepDrive(s: State, o: Observed, what: Happening) returns (o': Observed)
    requires Invariant(s, o) && s.stage.Driving?
    ensures Invariant(Drive(s, what), o')
  {
    hide Ledger, Queues, Observe, Obeys, PongIds, Underway, Conclude, HandleCommand, OnText, OnDeadline;
    o' := o;
    match what {
      case SinkTakes =>
        if CanWrite(s) {
          o' := KeepWriteOne(s, o);
        }
      case SinkFails =>
        o' := KeepConclude(s, o, Some(Closed));
        if !CanWrite(s) { o' := o; }
      case FlushDone =>
        LedgerFlushed(s, o.ids);
      case FlushFails =>
        o' := KeepConclude(s, o, Some(Closed));
        if !s.needsFlush { o' := o; }
      case Arrives(frame, hungUp) =>
        var seen := s.(liveness := s.liveness.SawTraffic(s.clock));
        o' := o;
        if frame.Text? {
          o' := KeepText(seen, o, frame.message, hungUp);
          TextFrame(seen, frame.message, hungUp);
        }
        var (next, outcome) := OnFrame(s, frame, hungUp);
        o' := KeepConclude(next, o', outcome);
      case EndOfStream => o' := KeepConclude(s, o, Some(Closed));
      case ReadFails => o' := KeepConclude(s, o, Some(Closed));
      case Asks(command, listening) =>
        if TakesCommands(s) {
          o' := KeepCommand(s, o, command, listening);
          CommandFrame(s, command, listening);
          o' := KeepConclude(HandleCommand(s, command, listening), o', None);
        }
      case HandlesDropped =>
        if TakesCommands(s) {
          o' := KeepConclude(s, o, Some(ShutDown));
        }
      case TimerFires =>
        if s.clock >= s.timer {
          KeepDeadline(s, o);
          DeadlineFrame(s);
          var (next, outcome) := OnDeadline(s);
          o' := KeepConclude(next, o, outcome);
        }
      case _ =>
    }
  }

  lemma KeepStep(s: State, o: Observed, tick: Tick) returns (o': Observed)
    requires Invariant(s, o)
    ensures Invariant(Step(s, tick), o')
  {
    hide Ledger, Queues, Observe, Obeys, PongIds, Underway, Pace, Idle, StartDriving, Lost, Drive;
    o' := o;
    if tick.at >= s.clock {
      var s := s.(clock := tick.at);
      match s.stage {
        case Top => if tick.what.Jitter? { o' := KeepPace(s, o, tick.what.roll); }
        case Idling(_) => o' := KeepIdle(s, o, tick.what);
        case Dialling =>
          if tick.what.Dialled? {
            o' := KeepStart(s, o);
          } else if tick.what.DialFailed? {
            o' := KeepLost(s, o);
          }
        case Driving => o' := KeepDrive(s, o, tick.what);
        case Stopped =>
      }
    }
  }

  lemma InitiallySound(config: Config)
    ensures Invariant(Initial(config), NOTHING_YET)
  {
    assert MethodIds([]) == {} && SubIds([]) == {};
  }

  lemma {:induction false} InvariantHolds(config: Config, env: seq<Tick>, n: nat) returns (o: Observed)
    requires n <= |env|
    ensures Invariant(Run(config, env, n), o)
  {
    hide Invariant, Step, Initial;
    if n == 0 {
      InitiallySound(config);
      o := NOTHING_YET;
    } else {
      var before := InvariantHolds(config, env, n - 1);
      o := KeepStep(Run(config, env, n - 1), before, env[n - 1]);
    }
  }

  // ---- time ----------------------------------------------------------------------------

  /** The watchdog has the configured thresholds and never looks into the future. */
  ghost predicate Timed(s: State, config: Config) {
    && s.config == config.Clamped()
    && s.liveness.pingAfter == config.pingAfter && s.liveness.deadAfter == config.deadAfter
    && s.liveness.lastSeen <= s.clock
  }

  lemma StepKeepsTime(s: State, tick: Tick, config: Config)
    requires Timed(s, config)
    ensures Timed(Step(s, tick), config)
  {
    var now := s.(clock := tick.at);
    hide OnText, HandleCommand, Conclude, Lost, Finish, OnDeadline, StartDriving, Pace, WriteOne, MarkUnflushed, Dial;
    forall s, outcome ensures SameWatch(s, Conclude(s, outcome)) { EndingFrame(s, outcome); }
    forall s ensures SameWatch(s, Lost(s)) { EndingFrame(s, None); }
    forall s ensures SameWatch(s, Finish(s)) { EndingFrame(s, None); }
    forall s, m, h ensures SameWatch(s, OnText(s, m, h)) { TextFrame(s, m, h); }
    forall s, c, l ensures SameWatch(s, HandleCommand(s, c, l)) { CommandFrame(s, c, l); }
    DeadlineFrame(now);
    OtherFrames(now, tick);
  }

  lemma OtherFrames(s: State, tick: Tick)
    ensures tick.what.Jitter? ==> SameWatch(s, Pace(s, tick.what.roll))
    ensures SameWatch(s, Dial(s)) && SameWatch(s, MarkUnflushed(s)) && (CanWrite(s) ==> SameWatch(s, WriteOne(s)))
    ensures StartDriving(s).config == s.config && StartDriving(s).clock == s.clock
    ensures StartDriving(s).liveness == Liveness.Watchdog(s.config.pingAfter, s.config.deadAfter, s.clock, false)
  {
    hide Correlate.Table.MarkSent;
  }

  lemma {:induction false} TimeHolds(config: Config, env: seq<Tick>, n: nat)
    requires n <= |env|
    ensures Timed(Run(config, env, n), config)
  {
    hide Step;
    if n > 0 {
      TimeHolds(config, env, n - 1);
      StepKeepsTime(Run(config, env, n - 1), env[n - 1], config);
    }
  }

  /** Against any server, network, clock and callers, every run of the runner obeys the contract. */
  lemma EveryRunObeys(config: Config, env: seq<Tick>, n: nat)
    requires n <= |env|
    ensures Obeys(config.stableAfter, Run(config, env, n).log)
  {
    var o := InvariantHolds(config, env, n);
    TimeHolds(config, env, n);
  }
}
