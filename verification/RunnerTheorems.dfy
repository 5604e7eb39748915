/** What the contract means for whole runs, in terms of the log alone. */
module RunnerTheorems {
  import opened Prelude
  import opened Protocol
  import opened RunnerModel
  import opened RunnerContract
  import Correlate
  import Liveness
  import RunnerSafety
  import Session

  function LogOf(config: Config, env: seq<Tick>): seq<Fact> {
    Run(config, env, |env|).log
  }

  /** A monitored log: what every run leaves behind. */
  lemma LogObeys(config: Config, env: seq<Tick>)
    ensures Obeys(config.stableAfter, LogOf(config, env))
  {
    RunnerSafety.EveryRunObeys(config, env, |env|);
  }

  lemma LegalThere(stableAfter: nat, log: seq<Fact>, i: nat)
    requires Obeys(stableAfter, log) && i < |log|
    ensures Legal(Observe(stableAfter, log[..i]), log[i]) && Obeys(stableAfter, log[..i])
  {
    assert LegalAt(stableAfter, log, i);
    forall j | 0 <= j < i
      ensures LegalAt(stableAfter, log[..i], j)
    {
      assert LegalAt(stableAfter, log, j) && log[..i][..j] == log[..j];
    }
  }

  // ---- wire order ----------------------------------------------------------------------

  /** No socket was opened after position `at`. */
  ghost predicate SameSocketSince(log: seq<Fact>, at: int) {
    forall j | at < j < |log| && 0 <= j :: !log[j].Opened?
  }

  /** The last fact starts a new socket, or leaves every earlier position where it was. */
  lemma SameSocketStep(log: seq<Fact>)
    requires log != []
    ensures forall j | 0 <= j < |log| - 1 ::
              SameSocketSince(log, j) <==> SameSocketSince(log[..|log| - 1], j) && !log[|log| - 1].Opened?
    ensures SameSocketSince(log, |log| - 1)
  {
    var before := log[..|log| - 1];
    forall j | 0 <= j < |before|
      ensures SameSocketSince(log, j) <==> SameSocketSince(before, j) && !log[|log| - 1].Opened?
    {
      assert forall k | 0 <= k < |before| :: log[k] == before[k];
      if SameSocketSince(log, j) {
        assert !log[|log| - 1].Opened?;
      }
    }
  }

  /** Some fact of this kind happened since the current socket opened. */
  ghost predicate Here(log: seq<Fact>, p: Fact -> bool) {
    exists j :: 0 <= j < |log| && p(log[j]) && SameSocketSince(log, j)
  }

  lemma HereStep(log: seq<Fact>, p: Fact -> bool)
    requires log != []
    ensures Here(log, p) <==>
            p(log[|log| - 1]) || (Here(log[..|log| - 1], p) && !log[|log| - 1].Opened?)
  {
    var before := log[..|log| - 1];
    SameSocketStep(log);
    if Here(log, p) && !p(log[|log| - 1]) {
      var j :| 0 <= j < |log| && p(log[j]) && SameSocketSince(log, j);
      assert before[j] == log[j];
    }
    if Here(before, p) {
      var j :| 0 <= j < |before| && p(before[j]) && SameSocketSince(before, j);
      assert log[j] == before[j];
    }
  }

  lemma ObserveStep(stableAfter: nat, log: seq<Fact>)
    requires log != []
    ensures var before := Observe(stableAfter, log[..|log| - 1]);
            && Observe(stableAfter, log) == See(stableAfter, before, log[|log| - 1])
            && Observe(stableAfter, log).ids == SeeIds(before.ids, log[|log| - 1])
  {
  }

  predicate LoginAccepted(fact: Fact, id: string) {
    fact.Accepted? && fact.lane.Protocol? && fact.frame.Method? && fact.frame.id == id
  }

  predicate Succeeded(fact: Fact, id: string) {
    fact.Received? && fact.message.Result? && fact.message.id == id && fact.message.error.None?
  }

  ghost predicate NotReconnectedSince(log: seq<Fact>, at: int) {
    forall j | at < j < |log| && 0 <= j :: !(log[j].Received? && log[j].message.Connected?)
  }

  lemma LoginsStep(stableAfter: nat, o: Observed, fact: Fact, id: string)
    ensures id in See(stableAfter, o, fact).logins <==>
            LoginAccepted(fact, id) || (id in o.logins && !fact.Opened?)
    ensures id in See(stableAfter, o, fact).answered <==>
            || Succeeded(fact, id)
            || (id in o.answered && !fact.Opened? && !(fact.Received? && fact.message.Connected?))
  {
    hide SeeIds;
  }

  lemma {:induction false} LoginsMean(stableAfter: nat, log: seq<Fact>, id: string) returns (at: nat)
    requires id in Observe(stableAfter, log).logins
    ensures at < |log| && LoginAccepted(log[at], id) && SameSocketSince(log, at)
  {
    hide See;
    LoginsStep(stableAfter, Observe(stableAfter, log[..|log| - 1]), log[|log| - 1], id);
    if LoginAccepted(log[|log| - 1], id) {
      at := |log| - 1;
    } else {
      at := LoginsMean(stableAfter, log[..|log| - 1], id);
    }
  }

  lemma {:induction false} AnsweredMeans(stableAfter: nat, log: seq<Fact>, id: string) returns (at: nat)
    requires id in Observe(stableAfter, log).answered
    ensures at < |log| && Succeeded(log[at], id)
    ensures SameSocketSince(log, at) && NotReconnectedSince(log, at)
  {
    hide See;
    LoginsStep(stableAfter, Observe(stableAfter, log[..|log| - 1]), log[|log| - 1], id);
    if Succeeded(log[|log| - 1], id) {
      at := |log| - 1;
    } else {
      at := AnsweredMeans(stableAfter, log[..|log| - 1], id);
    }
  }

  const ANY_FRAME: Fact -> bool := (fact: Fact) => fact.Accepted?

  /** `frames` counts what the current socket accepted. */
  lemma {:induction false} FramesMean(stableAfter: nat, log: seq<Fact>)
    ensures Observe(stableAfter, log).frames > 0 <==> Here(log, ANY_FRAME)
  {
    if log != [] {
      hide Observe, Here, SeeIds;
      FramesMean(stableAfter, log[..|log| - 1]);
      ObserveStep(stableAfter, log);
      HereStep(log, ANY_FRAME);
    }
  }

  /**
   * Wire order, unfolded: the first frame a socket accepts, and no other, is `connect`; and an
   * application frame comes only after a login frame this socket accepted and a success reply to
   * that login, with no `connected` in between that would have asked for another.
   */
  lemma NothingBeforeLogin(config: Config, env: seq<Tick>, i: nat)
    returns (login: nat, reply: nat, id: string)
    requires i < |LogOf(config, env)| && LogOf(config, env)[i].Accepted?
    ensures var log := LogOf(config, env);
            log[i].frame.Connect? <==> !Here(log[..i], ANY_FRAME)
    ensures var log := LogOf(config, env);
            log[i].lane.Application? ==>
              && login < i && LoginAccepted(log[login], id) && log[login].frame.name == "login"
              && SameSocketSince(log[..i], login)
              && reply < i && Succeeded(log[reply], id)
              && SameSocketSince(log[..i], reply) && NotReconnectedSince(log[..i], reply)
  {
    var log := LogOf(config, env);
    LogObeys(config, env);
    LegalThere(config.stableAfter, log, i);
    FramesMean(config.stableAfter, log[..i]);
    login, reply, id := 0, 0, "";
    if log[i].lane.Application? {
      var o := Observe(config.stableAfter, log[..i]);
      id :| id in o.logins * o.answered;
      login := LoginsMean(config.stableAfter, log[..i], id);
      reply := AnsweredMeans(config.stableAfter, log[..i], id);
      LegalThere(config.stableAfter, log, login);
    }
  }

  // ---- exactly once --------------------------------------------------------------------

  predicate Registers(fact: Fact, id: string) {
    fact == Registered(id)
  }

  predicate Leaves(fact: Fact, id: string) {
    fact == Resolved(id) || fact == Cancelled(id) || fact == Dropped(id) ||
    (fact.Settled? && id in fact.errors)
  }

  predicate Carries(fact: Fact, id: string) {
    fact.Accepted? && id in Cargo(fact.frame)
  }

  function Count(log: seq<Fact>, p: Fact -> bool): nat {
    if log == [] then 0
    else Count(log[..|log| - 1], p) + if p(log[|log| - 1]) then 1 else 0
  }

  function Registrations(log: seq<Fact>, id: string): nat {
    Count(log, fact => Registers(fact, id))
  }

  function Departures(log: seq<Fact>, id: string): nat {
    Count(log, fact => Leaves(fact, id))
  }

  function Sends(log: seq<Fact>, id: string): nat {
    Count(log, fact => Carries(fact, id))
  }

  /** Each id is registered, leaves its table and is accepted by a socket at most once; the books agree. */
  lemma {:induction false} AtMostOnce(stableAfter: nat, log: seq<Fact>, id: string)
    requires Obeys(stableAfter, log)
    ensures var ids := Observe(stableAfter, log).ids;
            && Registrations(log, id) == (if id in ids.registered then 1 else 0)
            && Departures(log, id) == (if id in ids.settled then 1 else 0)
            && Sends(log, id) == (if id in ids.everCarried then 1 else 0)
            && (id in ids.settled || id in ids.everCarried ==> id in ids.registered)
  {
    if log != [] {
      hide Observe, Obeys, See, WireOrder, Heartbeat, RetrySafety, Lockstep, Terminality, Pacing, OneSocket;
      LegalThere(stableAfter, log, |log| - 1);
      AtMostOnce(stableAfter, log[..|log| - 1], id);
      ObserveStep(stableAfter, log);
    }
  }

  /**
   * Over any run: an id is never reused, no id's frame is accepted twice over all sockets, a call
   * leaves its table at most once, and once the runner has returned every registered call has
   * left, both tables being empty.
   */
  lemma EveryCallSettlesOnce(config: Config, env: seq<Tick>, id: string)
    ensures var log := LogOf(config, env); var s := Run(config, env, |env|);
            && Registrations(log, id) <= 1
            && Sends(log, id) <= Registrations(log, id)
            && Departures(log, id) <= Registrations(log, id)
            && (s.stage.Stopped? ==>
                  Departures(log, id) == Registrations(log, id) && s.methods.pending == map[] == s.subs.pending)
            && (!s.stage.Stopped? ==>
                  (Departures(log, id) < Registrations(log, id) <==> id in s.methods.pending || id in s.subs.pending))
  {
    LogObeys(config, env);
    AtMostOnce(config.stableAfter, LogOf(config, env), id);
    var o := RunnerSafety.InvariantHolds(config, env, |env|);
    RunnerSafety.TimeHolds(config, env, |env|);
  }

  // ---- retry safety --------------------------------------------------------------------

  function CarriesId(id: string): Fact -> bool {
    fact => Carries(fact, id)
  }

  lemma {:induction false} CarriedMeans(stableAfter: nat, log: seq<Fact>, id: string)
    ensures id in Observe(stableAfter, log).ids.carried <==> Here(log, CarriesId(id))
  {
    if log != [] {
      hide Observe, Here, See;
      CarriedMeans(stableAfter, log[..|log| - 1], id);
      ObserveStep(stableAfter, log);
      HereStep(log, CarriesId(id));
    }
  }

  /**
   * Retry safety is exact: a settled waiter hears `NotSent` if and only if no socket ever accepted
   * its frame, and `Abandoned` if and only if the socket being closed accepted it, flushed or not.
   */
  lemma NotSentMeansNeverAccepted(config: Config, env: seq<Tick>, i: nat, id: string)
    requires i < |LogOf(config, env)| && LogOf(config, env)[i].Settled? && id in LogOf(config, env)[i].errors
    ensures var log := LogOf(config, env); var verdict := log[i].errors[id];
            && (verdict == Correlate.NotSent <==> Sends(log[..i], id) == 0)
            && (verdict == Correlate.Abandoned(id) <==> Here(log[..i], CarriesId(id)))
            && (verdict == Correlate.NotSent || verdict == Correlate.Abandoned(id))
  {
    var log := LogOf(config, env);
    LogObeys(config, env);
    LegalThere(config.stableAfter, log, i);
    AtMostOnce(config.stableAfter, log[..i], id);
    CarriedMeans(config.stableAfter, log[..i], id);
  }

  // ---- heartbeats ----------------------------------------------------------------------

  /** The ids of the pings received since the current socket opened, in order. */
  function PingsHere(log: seq<Fact>): seq<Option<string>> {
    if log == [] then []
    else
      var before, fact := PingsHere(log[..|log| - 1]), log[|log| - 1];
      if fact.Opened? then []
      else if fact.Received? && fact.message.ServerPing? then before + [fact.message.pingId]
      else before
  }

  /** The ids of the pongs accepted since the current socket opened, in order. */
  function PongsHere(log: seq<Fact>): seq<Option<string>> {
    if log == [] then []
    else
      var before, fact := PongsHere(log[..|log| - 1]), log[|log| - 1];
      if fact.Opened? then []
      else if fact.Accepted? && fact.frame.Pong? then before + [fact.frame.pongId]
      else before
  }

  lemma BeatsStep(stableAfter: nat, o: Observed, fact: Fact)
    ensures See(stableAfter, o, fact).pings ==
            if fact.Opened? then []
            else if fact.Received? && fact.message.ServerPing? then o.pings + [fact.message.pingId] else o.pings
    ensures See(stableAfter, o, fact).pongs ==
            if fact.Opened? then []
            else if fact.Accepted? && fact.frame.Pong? then o.pongs + [fact.frame.pongId] else o.pongs
  {
    hide SeeIds;
    assert o.pongs + [] == o.pongs;
  }

  /** What the observer remembers of pings and pongs is what the log says. */
  lemma {:induction false} BeatsMean(stableAfter: nat, log: seq<Fact>)
    ensures Observe(stableAfter, log).pings == PingsHere(log) && Observe(stableAfter, log).pongs == PongsHere(log)
  {
    if log != [] {
      hide Observe, See;
      BeatsMean(stableAfter, log[..|log| - 1]);
      ObserveStep(stableAfter, log);
      BeatsStep(stableAfter, Observe(stableAfter, log[..|log| - 1]), log[|log| - 1]);
    } else {
      assert Observe(stableAfter, log) == NOTHING_YET;
    }
  }

  lemma PongsStep(stableAfter: nat, o: Observed, fact: Fact)
    requires Heartbeat(o, fact) && o.pongs <= o.pings
    ensures See(stableAfter, o, fact).pongs <= See(stableAfter, o, fact).pings
  {
    hide SeeIds;
  }

  lemma {:induction false} PongsArePrefix(stableAfter: nat, log: seq<Fact>)
    requires Obeys(stableAfter, log)
    ensures Observe(stableAfter, log).pongs <= Observe(stableAfter, log).pings
  {
    if log == [] {
      assert Observe(stableAfter, log) == NOTHING_YET;
    } else {
      LegalThere(stableAfter, log, |log| - 1);
      var before := log[..|log| - 1];
      assert Heartbeat(Observe(stableAfter, before), log[|log| - 1]);
      hide *;
      PongsArePrefix(stableAfter, before);
      PongsStep(stableAfter, Observe(stableAfter, before), log[|log| - 1]);
      ObserveStep(stableAfter, log);
    }
  }

  /** On each socket, at any time, the accepted pongs are a prefix of the received pings, in order. */
  lemma PongsFollowPings(stableAfter: nat, log: seq<Fact>)
    requires Obeys(stableAfter, log)
    ensures PongsHere(log) <= PingsHere(log)
  {
    PongsArePrefix(stableAfter, log);
    BeatsMean(stableAfter, log);
  }

  /** While no socket opens, what was counted stays counted. */
  lemma {:induction false} BeatsStay(log: seq<Fact>, at: nat)
    requires at <= |log| && forall j | at <= j < |log| :: !log[j].Opened?
    ensures PingsHere(log[..at]) <= PingsHere(log) && PongsHere(log[..at]) <= PongsHere(log)
    decreases |log|
  {
    if at == |log| {
      assert log[..at] == log;
    } else {
      var before := log[..|log| - 1];
      assert before[..at] == log[..at];
      BeatsStay(before, at);
    }
  }

  /** Where the pong number `n` of the current socket was accepted. */
  lemma {:induction false} PongStands(log: seq<Fact>, n: nat) returns (at: nat)
    requires n < |PongsHere(log)|
    ensures at < |log| && log[at].Accepted? && log[at].frame == Pong(PongsHere(log)[n])
    ensures |PongsHere(log[..at])| == n && SameSocketSince(log, at)
    decreases |log|
  {
    var before, fact := log[..|log| - 1], log[|log| - 1];
    if fact.Accepted? && fact.frame.Pong? && n == |PongsHere(before)| {
      at := |log| - 1;
    } else {
      at := PongStands(before, n);
      assert before[..at] == log[..at];
    }
  }

  lemma OneMorePing(log: seq<Fact>, ping: nat)
    requires ping < |log| && log[ping].Received? && log[ping].message.ServerPing?
    ensures PingsHere(log[..ping + 1]) == PingsHere(log[..ping]) + [log[ping].message.pingId]
  {
    assert log[..ping + 1][..ping] == log[..ping];
  }

  lemma OneMorePong(log: seq<Fact>, pong: nat)
    requires pong < |log| && log[pong].Accepted? && log[pong].frame.Pong?
    ensures PongsHere(log[..pong + 1]) == PongsHere(log[..pong]) + [log[pong].frame.pongId]
  {
    assert log[..pong + 1][..pong] == log[..pong];
  }

  /** A pong that answers a ping comes after it. */
  lemma PongIsLater(stableAfter: nat, log: seq<Fact>, ping: nat, pong: nat)
    requires Obeys(stableAfter, log) && ping < |log| && pong < |log|
    requires log[ping].Received? && log[ping].message.ServerPing? && log[pong].Accepted? && log[pong].frame.Pong?
    requires SameSocketSince(log, pong) && |PongsHere(log[..pong])| == |PingsHere(log[..ping])|
    ensures ping < pong
  {
    if pong < ping {
      LegalThere(stableAfter, log, ping);
      PongsFollowPings(stableAfter, log[..ping]);
      OneMorePong(log, pong);
      assert log[..ping][..pong + 1] == log[..pong + 1];
      hide PingsHere, PongsHere, Obeys;
      BeatsStay(log[..ping], pong + 1);
      assert false;
    }
  }

  /**
   * No application frame between a ping and its pong: when a socket accepts one, every ping received on
   * that socket so far was followed by its own pong, the one with its id and its number among the pongs.
   */
  lemma NoFrameBeforeThePong(config: Config, env: seq<Tick>, ping: nat, i: nat) returns (pong: nat)
    requires ping < i < |LogOf(config, env)| && SameSocketSince(LogOf(config, env)[..i], ping)
    requires var log := LogOf(config, env);
             && log[ping].Received? && log[ping].message.ServerPing?
             && log[i].Accepted? && log[i].lane.Application?
    ensures var log := LogOf(config, env);
            && ping < pong < i && SameSocketSince(log[..i], pong)
            && log[pong].Accepted? && log[pong].frame == Pong(log[ping].message.pingId)
            && |PongsHere(log[..pong])| == |PingsHere(log[..ping])|
  {
    var log := LogOf(config, env);
    var here, n := log[..i], |PingsHere(log[..ping])|;
    LogObeys(config, env);
    LegalThere(config.stableAfter, log, i);
    BeatsMean(config.stableAfter, here);
    assert PongsHere(here) == PingsHere(here);
    hide LogOf, Obeys, Observe, PingsHere, PongsHere, Legal;
    assert here[..ping + 1] == log[..ping + 1];
    BeatsStay(here, ping + 1);
    OneMorePing(log, ping);
    pong := PongStands(here, n);
    assert here[..pong] == log[..pong] && here[..ping] == log[..ping];
    PongIsLater(config.stableAfter, here, ping, pong);
  }

  // ---- terminal failures ---------------------------------------------------------------

  lemma {:induction false} DoomLasts(stableAfter: nat, log: seq<Fact>, i: nat)
    requires Obeys(stableAfter, log) && i < |log|
    ensures log[i].Doomed? ==> Observe(stableAfter, log).doomed.Some?
    ensures log[i].Emitted? && log[i].event.FatalError? ==> Observe(stableAfter, log).fatalSeen
    ensures log[i].Returned? ==> Observe(stableAfter, log).over
  {
    LegalThere(stableAfter, log, |log| - 1);
    if i < |log| - 1 {
      DoomLasts(stableAfter, log[..|log| - 1], i);
    }
  }

  /**
   * After a terminal failure no frame is accepted or received and no socket is opened; after the
   * fatal event nothing is emitted; after the return nothing happens at all.
   */
  lemma TerminalMeansTerminal(config: Config, env: seq<Tick>, i: nat, j: nat)
    requires i < j < |LogOf(config, env)|
    ensures var log := LogOf(config, env);
            && !log[i].Returned?
            && (log[i].Doomed? ==>
                  && !log[j].Accepted? && !log[j].Received? && !log[j].Opened? && !log[j].Registered?
                  && (log[j].Emitted? ==> log[j].event.FatalError?))
            && (log[i].Emitted? && log[i].event.FatalError? ==> !log[j].Emitted?)
  {
    LogObeys(config, env);
    LegalThere(config.stableAfter, LogOf(config, env), j);
    DoomLasts(config.stableAfter, LogOf(config, env)[..j], i);
  }

  // ---- epochs --------------------------------------------------------------------------

  function Settles(log: seq<Fact>): nat {
    Count(log, (fact: Fact) => fact.Settled?)
  }

  lemma {:induction false} SettlesCount(stableAfter: nat, log: seq<Fact>)
    ensures Observe(stableAfter, log).ids.settles == Settles(log)
  {
    if log != [] {
      hide Observe, See;
      SettlesCount(stableAfter, log[..|log| - 1]);
      ObserveStep(stableAfter, log);
    }
  }

  /** Opening a socket while `live` is forbidden, so two sockets have a settling between them. */
  lemma {:induction false} LiveOrSettled(stableAfter: nat, log: seq<Fact>, i: nat)
    requires Obeys(stableAfter, log) && i <= |log| && Observe(stableAfter, log[..i]).live
    requires i < |log|
    ensures Settles(log) >= Settles(log[..i])
    ensures !Observe(stableAfter, log).live ==> Settles(log) > Settles(log[..i])
    ensures (exists j :: i <= j < |log| && log[j].Opened?) ==> Settles(log) > Settles(log[..i])
  {
    hide Observe, Obeys, WireOrder, Heartbeat, RetrySafety, Lockstep, Terminality, Pacing, OnceOnly, SeeIds;
    var n := |log| - 1;
    LegalThere(stableAfter, log, n);
    ObserveStep(stableAfter, log);
    assert log[..n][..i] == log[..i];
    if i < n {
      LiveOrSettled(stableAfter, log[..n], i);
      if j :| i <= j < |log| && log[j].Opened? {
        if j < n {
          assert log[..n][j].Opened?;
        }
      }
    }
  }

  /** Readiness on a later socket carries a strictly larger epoch, until the 64-bit counter wraps. */
  lemma LaterSocketLaterEpoch(config: Config, env: seq<Tick>, i: nat, m: nat, j: nat)
    requires i < m < j < |LogOf(config, env)|
    requires var log := LogOf(config, env);
             && log[i].Emitted? && log[i].event.ReadyNow?
             && log[m].Opened?
             && log[j].Emitted? && log[j].event.ReadyNow?
    ensures var log := LogOf(config, env);
            && log[i].event.epoch == Settles(log[..i]) % Correlate.EPOCHS
            && log[j].event.epoch == Settles(log[..j]) % Correlate.EPOCHS
            && Settles(log[..i]) < Settles(log[..j])
            && (Settles(log[..j]) < Correlate.EPOCHS ==> log[i].event.epoch < log[j].event.epoch)
  {
    hide Observe, Obeys, WireOrder, Heartbeat, RetrySafety, Terminality, Pacing, OnceOnly, Run, Count;
    var log := LogOf(config, env);
    LogObeys(config, env);
    LegalThere(config.stableAfter, log, i);
    LegalThere(config.stableAfter, log, j);
    SettlesCount(config.stableAfter, log[..i]);
    SettlesCount(config.stableAfter, log[..j]);
    assert log[..j][..i] == log[..i] && log[..j][m].Opened?;
    LiveOrSettled(config.stableAfter, log[..j], i);
  }

  // ---- pacing --------------------------------------------------------------------------

  predicate Quick(fact: Fact) {
    fact.Emitted? && fact.event == Connecting(0)
  }

  /** First-of-an-outage attempts, the only ones made at once, number at most one plus the stable sessions. */
  lemma {:induction false} QuickAttemptsAreEarned(stableAfter: nat, log: seq<Fact>)
    requires Obeys(stableAfter, log)
    ensures Count(log, Quick) == Observe(stableAfter, log).quick <= Observe(stableAfter, log).stable + 1
  {
    if log != [] {
      hide Observe, Obeys, SeeIds, WireOrder, Heartbeat, RetrySafety, Lockstep, Terminality, OnceOnly, OneSocket;
      LegalThere(stableAfter, log, |log| - 1);
      QuickAttemptsAreEarned(stableAfter, log[..|log| - 1]);
      ObserveStep(stableAfter, log);
    }
  }

  // ---- timers --------------------------------------------------------------------------

  /**
   * A timer firing at or after its armed time makes progress: it closes the socket exactly when
   * the handshake budget or the silence allowed is used up, and otherwise re-arms strictly later.
   */
  lemma TimersNeverSpin(config: Config, env: seq<Tick>, n: nat)
    requires config.Valid() && n < |env|
    requires Run(config, env, n).stage.Driving?
    requires env[n].what.TimerFires? && env[n].at >= Run(config, env, n).clock
    requires env[n].at >= Run(config, env, n).timer
    ensures var s, t := Run(config, env, n), Run(config, env, n + 1);
            && (!t.stage.Driving? <==>
                  || (!s.session.phase.Ready? && s.handshake.Some? && env[n].at >= s.handshake.value)
                  || env[n].at - s.liveness.lastSeen >= config.deadAfter)
            && (t.stage.Driving? ==> t.timer > env[n].at)
  {
    hide Observe, Lost, RunnerSafety.Core, RunnerSafety.OnLine;
    var o := RunnerSafety.InvariantHolds(config, env, n);
    RunnerSafety.TimeHolds(config, env, n);
    var s := Run(config, env, n).(clock := env[n].at);
    var (next, outcome) := OnDeadline(s);
    LostStops(next);
    if outcome.None? {
      Liveness.RearmsInTheFuture(s.liveness, s.clock, s.clock);
    }
  }

  lemma LostStops(s: State)
    ensures !Lost(s).stage.Driving?
  {
  }

  // ---- probes ----------------------------------------------------------------------------

  function Pings(queue: seq<Outbound>): nat {
    if queue == [] then 0 else Pings(queue[..|queue| - 1]) + if queue[|queue| - 1].frame.Ping? then 1 else 0
  }

  lemma PingsPush(queue: seq<Outbound>, out: Outbound)
    ensures Pings(queue + [out]) == Pings(queue) + if out.frame.Ping? then 1 else 0
  {
    assert (queue + [out])[..|queue|] == queue;
  }

  lemma {:induction false} PingsTake(queue: seq<Outbound>)
    requires queue != []
    ensures Pings(queue[1..]) <= Pings(queue)
  {
    if |queue| > 1 {
      PingsTake(queue[..|queue| - 1]);
      assert queue[1..][..|queue| - 2] == queue[..|queue| - 1][1..];
    }
  }

  /** One more ping of ours waits to be written, and the socket is still driven. */
  predicate Probes(s: State, t: State) {
    s.stage.Driving? && t.stage.Driving? && Pings(t.priority) > Pings(s.priority)
  }

  /** Anything at all comes in. */
  predicate Hears(s: State, tick: Tick) {
    s.stage.Driving? && tick.at >= s.clock && tick.what.Arrives?
  }

  lemma {:induction false} ActionsQueueNoPing(s: State, actions: seq<Session.Action>)
    requires forall i | 0 <= i < |actions| :: actions[i].Send? ==> !actions[i].frame.Ping?
    ensures Pings(ApplyAll(s, actions).priority) == Pings(s.priority)
    decreases |actions|
  {
    hide Pings;
    if actions != [] {
      forall frame: ClientMessage, mark | !frame.Ping?
        ensures Pings(s.priority + [Outbound(frame, mark)]) == Pings(s.priority)
      {
        PingsPush(s.priority, Outbound(frame, mark));
      }
      ActionsQueueNoPing(Apply(s, actions[0]), actions[1..]);
    }
  }

  lemma {:induction false} SubsQueueNothing(s: State, ids: seq<string>, hungUp: set<string>)
    ensures ResolveSubs(s, ids, hungUp).priority == s.priority
    decreases |ids|
  {
    if ids != [] {
      SubsQueueNothing(ResolveSub(s, ids[0], Prelude.Success(JsonNull), hungUp), ids[1..], hungUp);
    }
  }

  lemma TextQueuesNoPing(s: State, message: ServerMessage, hungUp: set<string>)
    ensures Pings(OnText(s, message, hungUp).priority) == Pings(s.priority)
  {
    var heard := Note(s, Received(message));
    var (session, actions) := heard.session.Handle(message);
    var applied := ApplyAll(heard.(session := session), actions);
    ActionsQueueNoPing(heard.(session := session), actions);
    hide Pings, ApplyAll, ResolveSubs;
    if message.SubsReady? {
      SubsQueueNothing(applied, message.subs, hungUp);
    }
  }

  lemma ConcludedQueue(s: State, outcome: Option<Outcome>)
    requires Conclude(s, outcome).stage.Driving?
    ensures Conclude(s, outcome).priority == s.priority && Conclude(s, outcome).liveness == s.liveness
  {
    hide Correlate.Table.Verdicts, Correlate.Table.MarkSent;
  }

  /** Only the watchdog queues a ping, and only while none of its own is unanswered. */
  lemma ProbeIsTheWatchdogs(s: State, tick: Tick)
    requires Probes(s, Step(s, tick))
    ensures !s.liveness.pingInFlight && Step(s, tick).liveness.pingInFlight
  {
    var now := s.(clock := tick.at);
    hide Pings, OnText, HandleCommand, Conclude, Correlate.Table.MarkSent;
    forall s: State, outcome | Conclude(s, outcome).stage.Driving?
      ensures Conclude(s, outcome).priority == s.priority && Conclude(s, outcome).liveness == s.liveness
    {
      ConcludedQueue(s, outcome);
    }
    match tick.what
    case SinkTakes =>
      if s.priority != [] {
        PingsTake(s.priority);
      }
    case Arrives(frame, hungUp) =>
      if frame.Text? {
        TextQueuesNoPing(now.(liveness := now.liveness.SawTraffic(now.clock)), frame.message, hungUp);
      }
    case Asks(command, listening) => RunnerSafety.CommandFrame(now, command, listening);
    case TimerFires => PingsPush(s.priority, Outbound(Ping(None), None));
    case _ =>
  }

  /** A ping stays unanswered until something comes in. */
  lemma SilenceKeepsProbe(s: State, tick: Tick)
    requires s.stage.Driving? && Step(s, tick).stage.Driving? && s.liveness.pingInFlight && !Hears(s, tick)
    ensures Step(s, tick).liveness.pingInFlight
  {
    var now := s.(clock := tick.at);
    hide OnText, HandleCommand, Conclude, Correlate.Table.MarkSent, OnDeadline;
    forall s: State, outcome | Conclude(s, outcome).stage.Driving?
      ensures Conclude(s, outcome).liveness == s.liveness
    {
      ConcludedQueue(s, outcome);
    }
    RunnerSafety.DeadlineFrame(now);
    if tick.what.Asks? {
      RunnerSafety.CommandFrame(now, tick.what.command, tick.what.listening);
    }
  }

  lemma {:induction false} SomethingWasHeard(config: Config, env: seq<Tick>, i: nat, j: nat) returns (m: nat)
    requires i <= j <= |env| && forall k | i <= k <= j :: Run(config, env, k).stage.Driving?
    requires Run(config, env, i).liveness.pingInFlight && !Run(config, env, j).liveness.pingInFlight
    ensures i <= m < j && Hears(Run(config, env, m), env[m])
    decreases j - i
  {
    hide Step;
    var s := Run(config, env, i);
    assert i < j && Run(config, env, i + 1) == Step(s, env[i]);
    hide Run;
    if Hears(s, env[i]) {
      m := i;
    } else {
      SilenceKeepsProbe(s, env[i]);
      m := SomethingWasHeard(config, env, i + 1, j);
    }
  }

  /** Over any run: between two pings of ours queued on one socket, something came in. */
  lemma ProbesNeedTrafficBetween(config: Config, env: seq<Tick>, i: nat, j: nat) returns (m: nat)
    requires i < j < |env| && forall k | i <= k <= j :: Run(config, env, k).stage.Driving?
    requires Probes(Run(config, env, i), Run(config, env, i + 1))
    requires Probes(Run(config, env, j), Run(config, env, j + 1))
    ensures i < m < j && Hears(Run(config, env, m), env[m])
  {
    hide Step;
    assert Run(config, env, i + 1) == Step(Run(config, env, i), env[i]);
    assert Run(config, env, j + 1) == Step(Run(config, env, j), env[j]);
    hide Run, Probes;
    ProbeIsTheWatchdogs(Run(config, env, i), env[i]);
    ProbeIsTheWatchdogs(Run(config, env, j), env[j]);
    m := SomethingWasHeard(config, env, i + 1, j);
  }
}
