/**
 * What a run of the runner may do, judged from outside: a monitor that reads the log of facts
 * and knows nothing of the runner's queues, tables or phases.
 */
module RunnerContract {
  import opened Prelude
  import opened Protocol
  import opened RunnerModel
  import Correlate
  import Session

  /** The call ids an observer has seen come and go. */
  datatype Ids = Ids(
    registered: set<string>,
    settled: set<string>,                // left their table, one way or another
    carried: set<string>,                // in a frame accepted on the current socket
    everCarried: set<string>,            // in a frame accepted on any socket
    settles: nat)                        // connections settled so far

  /** What an observer of the log remembers. */
  datatype Observed = Observed(
    ids: Ids,
    live: bool,                          // a socket is open and not yet settled
    frames: nat,                         // frames accepted on the current socket
    logins: set<string>,                 // login calls accepted on the current socket
    answered: set<string>,               // calls that succeeded since the latest `connected`
    pings: seq<Option<string>>,          // ids of the pings received on the current socket
    pongs: seq<Option<string>>,          // ids of the pongs accepted on the current socket
    doomed: Option<Session.Fatal>,
    fatalSeen: bool,
    over: bool,
    readySince: Option<nat>,
    quick: nat,                          // attempts announced as the first of an outage
    stable: nat)                         // sessions lost after staying ready long enough

  const NOTHING_YET :=
    Observed(Ids({}, {}, {}, {}, 0), false, 0, {}, {}, [], [], None, false, false, None, 0, 0)

  /** The call id a frame carries, if its reply is awaited under it. */
  function Cargo(frame: ClientMessage): set<string> {
    match frame
    case Method(id, _, _) => {id}
    case Sub(id, _, _) => {id}
    case _ => {}
  }

  function SeeIds(ids: Ids, fact: Fact): Ids {
    match fact
    case Opened => ids.(carried := {})
    case Accepted(_, frame) =>
      ids.(carried := ids.carried + Cargo(frame), everCarried := ids.everCarried + Cargo(frame))
    case Registered(id) => ids.(registered := ids.registered + {id})
    case Resolved(id) => ids.(settled := ids.settled + {id})
    case Cancelled(id) => ids.(settled := ids.settled + {id})
    case Dropped(id) => ids.(settled := ids.settled + {id})
    case Settled(errors) => ids.(settled := ids.settled + errors.Keys, settles := ids.settles + 1)
    case _ => ids
  }

  function See(stableAfter: nat, o: Observed, fact: Fact): Observed {
    SeeRest(stableAfter, o, fact).(ids := SeeIds(o.ids, fact))
  }

  function SeeRest(stableAfter: nat, o: Observed, fact: Fact): Observed {
    match fact
    case Opened =>
      o.(live := true, frames := 0, logins := {}, answered := {}, pings := [], pongs := [])
    case Accepted(lane, frame) =>
      o.(frames := o.frames + 1,
         logins := o.logins + (if lane.Protocol? && frame.Method? then {frame.id} else {}),
         pongs := o.pongs + (if frame.Pong? then [frame.pongId] else []))
    case Received(message) =>
      (match message
       case Connected(_) => o.(answered := {})
       case ServerPing(id) => o.(pings := o.pings + [id])
       case Result(id, _, error) => if error.None? then o.(answered := o.answered + {id}) else o
       case _ => o)
    case Settled(_) => o.(live := false)
    case Doomed(fatal) => o.(doomed := Some(fatal))
    case Emitted(event, at) =>
      (match event
       case Connecting(attempt) => if attempt == 0 then o.(quick := o.quick + 1) else o
       case ReadyNow(_) => o.(readySince := Some(at))
       case Disconnected =>
         o.(readySince := None,
            stable := o.stable + if o.readySince.Some? && at - o.readySince.value >= stableAfter then 1 else 0)
       case FatalError(_) => o.(fatalSeen := true)
       case _ => o)
    case Returned => o.(over := true)
    case _ => o
  }

  function Observe(stableAfter: nat, log: seq<Fact>): Observed {
    if log == [] then NOTHING_YET
    else See(stableAfter, Observe(stableAfter, log[..|log| - 1]), log[|log| - 1])
  }

  // ---- the contract, clause by clause --------------------------------------------------

  /** One socket at a time: the next opens only after the last was settled, and frames need one. */
  predicate OneSocket(o: Observed, fact: Fact) {
    && (fact.Opened? ==> !o.live)
    && (fact.Accepted? || fact.Received? || (fact.Emitted? && fact.event.ReadyNow?) ==> o.live)
  }

  /**
   * On every socket the first accepted frame, and only the first, is `connect`; only protocol
   * frames use the protocol lane; and an application frame is accepted only after a login was
   * accepted on this socket and answered with success.
   */
  predicate WireOrder(o: Observed, fact: Fact) {
    fact.Accepted? ==>
      && (fact.frame.Connect? <==> o.frames == 0)
      && (fact.lane.Protocol? ==>
            fact.frame.Connect? || fact.frame.Ping? || fact.frame.Pong? ||
            (fact.frame.Method? && fact.frame.name == "login"))
      && (fact.lane.Application? ==>
            (fact.frame.Method? || fact.frame.Sub? || fact.frame.Unsub?) &&
            o.logins * o.answered != {})
  }

  /** Pongs answer pings in order, and no application frame overtakes an owed pong. */
  predicate Heartbeat(o: Observed, fact: Fact) {
    fact.Accepted? ==>
      && (fact.frame.Pong? ==> |o.pongs| < |o.pings| && fact.frame.pongId == o.pings[|o.pongs|])
      && (fact.lane.Application? ==> o.pongs == o.pings)
  }

  /**
   * When a connection is settled a waiter hears `NotSent` exactly if no socket ever accepted its
   * frame, and `Abandoned` exactly if the closing socket did; there is no third answer.
   */
  predicate RetrySafety(o: Observed, fact: Fact) {
    fact.Settled? ==>
      forall id | id in fact.errors ::
        && (fact.errors[id] == Correlate.NotSent || fact.errors[id] == Correlate.Abandoned(id))
        && (fact.errors[id] == Correlate.NotSent <==> id !in o.ids.everCarried)
        && (fact.errors[id] == Correlate.Abandoned(id) <==> id in o.ids.carried)
  }

  /**
   * Ids are never reused, no id's frame is accepted twice, every id leaves its table once, and
   * nothing is left waiting after a disconnect or when the runner returns.
   */
  predicate OnceOnly(o: Observed, fact: Fact) {
    match fact
    case Registered(id) => id !in o.ids.registered
    case Accepted(_, frame) => Cargo(frame) <= o.ids.registered && Cargo(frame) !! o.ids.everCarried
    case Resolved(id) => id in o.ids.registered - o.ids.settled
    case Cancelled(id) => id in o.ids.registered - o.ids.settled
    case Settled(errors) => errors.Keys == o.ids.registered - o.ids.settled
    case Emitted(event, _) => event.Disconnected? ==> o.ids.settled == o.ids.registered
    case Returned => o.ids.settled == o.ids.registered
    case _ => true
  }

  /** No reply is ever dropped as stale, and readiness carries the number of settled connections. */
  predicate Lockstep(o: Observed, fact: Fact) {
    && !fact.Dropped?
    && (fact.Emitted? && fact.event.ReadyNow? ==> fact.event.epoch == o.ids.settles % Correlate.EPOCHS)
    && (fact.Emitted? && fact.event.Resubscribe? ==> fact.event.epoch == o.ids.settles % Correlate.EPOCHS)
  }

  /**
   * A terminal failure is followed only by the reply that carried it, the settling of every
   * waiter, the one `Fatal` event, and the runner's return; nothing follows the return.
   */
  predicate Terminality(o: Observed, fact: Fact) {
    && !o.over
    && (fact.Emitted? && fact.event.FatalError? ==>
          o.doomed == Some(fact.event.fatal) && o.ids.settled == o.ids.registered && !o.fatalSeen)
    && (o.doomed.Some? ==>
          || fact.Resolved? || fact.Settled?
          || (fact.Emitted? && fact.event.FatalError?)
          || (fact.Returned? && o.fatalSeen))
    && (o.fatalSeen ==> fact.Settled? || fact.Returned?)
  }

  /** First-of-an-outage attempts are earned: one to start with, one per stable session. */
  predicate Pacing(o: Observed, fact: Fact) {
    fact.Emitted? && fact.event == Connecting(0) ==> o.quick <= o.stable
  }

  predicate Legal(o: Observed, fact: Fact) {
    && OneSocket(o, fact)
    && WireOrder(o, fact)
    && Heartbeat(o, fact)
    && RetrySafety(o, fact)
    && OnceOnly(o, fact)
    && Lockstep(o, fact)
    && Terminality(o, fact)
    && Pacing(o, fact)
  }

  predicate LegalAt(stableAfter: nat, log: seq<Fact>, i: nat)
    requires i < |log|
  {
    Legal(Observe(stableAfter, log[..i]), log[i])
  }

  /** Every fact of the log was legal when it happened. */
  predicate Obeys(stableAfter: nat, log: seq<Fact>) {
    forall i | 0 <= i < |log| :: LegalAt(stableAfter, log, i)
  }

  lemma OneMoreFact(stableAfter: nat, log: seq<Fact>, fact: Fact)
    ensures Observe(stableAfter, log + [fact]) == See(stableAfter, Observe(stableAfter, log), fact)
    ensures Obeys(stableAfter, log) && Legal(Observe(stableAfter, log), fact) ==>
              Obeys(stableAfter, log + [fact])
  {
    var more := log + [fact];
    assert more[..|log|] == log;
    if Obeys(stableAfter, log) && Legal(Observe(stableAfter, log), fact) {
      forall i | 0 <= i < |more|
        ensures LegalAt(stableAfter, more, i)
      {
        if i < |log| {
          assert LegalAt(stableAfter, log, i);
          assert more[..i] == log[..i];
        }
      }
    }
  }
}
