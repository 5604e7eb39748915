/** The keepalive policy: when to probe a silent connection and when to give up on it. */
module Liveness {
  datatype Verdict = Healthy | SendPing | Dead

  datatype Watchdog = Watchdog(pingAfter: nat, deadAfter: nat, lastSeen: nat, pingInFlight: bool) {
    function SawTraffic(now: nat): Watchdog {
      this.(lastSeen := now, pingInFlight := false)
    }

    /** Saturating: a clock reading before the last traffic counts as no silence. */
    function IdleFor(now: nat): nat {
      if now >= lastSeen then now - lastSeen else 0
    }

    function Judge(now: nat): Verdict {
      if IdleFor(now) >= deadAfter then Dead
      else if IdleFor(now) >= pingAfter && !pingInFlight then SendPing
      else Healthy
    }

    function Poll(now: nat): Watchdog {
      this.(pingInFlight := pingInFlight || Judge(now).SendPing?)
    }

    function NextDeadline(now: nat): nat {
      var target := if pingInFlight then deadAfter else pingAfter;
      lastSeen + if target >= IdleFor(now) then target else IdleFor(now)
    }

    /** The constructor's panic: a probe must be given time to be answered. */
    predicate Valid() {
      pingAfter < deadAfter
    }

    /** What a stretch of polls without inbound traffic answers. */
    function Stretch(polls: seq<nat>): (answers: seq<Verdict>)
      ensures |answers| == |polls|
      decreases |polls|
    {
      if polls == [] then [] else [Judge(polls[0])] + Poll(polls[0]).Stretch(polls[1..])
    }
  }

  /**
   * Over any silent stretch, `Dead` is answered exactly at the polls with `deadAfter` of
   * silence behind them, and the one `SendPing` is the first poll in the probing window
   * (none, if a probe is already in flight).
   */
  lemma {:induction false} OneProbePerSilence(w: Watchdog, polls: seq<nat>, k: nat)
    requires k < |polls|
    ensures var answers := w.Stretch(polls);
            && (answers[k].Dead? <==> w.IdleFor(polls[k]) >= w.deadAfter)
            && (answers[k].SendPing? <==>
                  && w.pingAfter <= w.IdleFor(polls[k]) < w.deadAfter
                  && !w.pingInFlight
                  && forall j | 0 <= j < k :: !(w.pingAfter <= w.IdleFor(polls[j]) < w.deadAfter))
    decreases |polls|
  {
    if k > 0 {
      var after := w.Poll(polls[0]);
      OneProbePerSilence(after, polls[1..], k - 1);
      assert forall j | 0 < j < |polls| :: polls[j] == polls[1..][j - 1];
      assert forall j | 0 <= j < |polls| - 1 :: polls[1..][j] == polls[j + 1];
    }
  }

  /** The armed deadline is exactly when the next poll stops answering `Healthy`. */
  lemma DeadlineIsExact(w: Watchdog, armedAt: nat, polledAt: nat)
    requires w.Valid() && w.lastSeen <= armedAt <= polledAt
    ensures !w.Judge(polledAt).Healthy? <==>
            polledAt >= w.NextDeadline(w.lastSeen)
    ensures w.Judge(armedAt).Healthy? ==> w.NextDeadline(armedAt) == w.NextDeadline(w.lastSeen) > armedAt
  {
  }

  /** A poll that does not end the connection re-arms strictly later than the poll itself. */
  lemma RearmsInTheFuture(w: Watchdog, polledAt: nat, armedAt: nat)
    requires w.Valid() && w.lastSeen <= polledAt <= armedAt
    requires !w.Judge(polledAt).Dead?
    ensures w.Poll(polledAt).NextDeadline(armedAt) > polledAt
  {
  }

  class LivenessPolicy {
    const pingAfter: nat
    const deadAfter: nat
    var lastSeen: nat
    var pingInFlight: bool

    ghost function View(): Watchdog
      reads this
    {
      Watchdog(pingAfter, deadAfter, lastSeen, pingInFlight)
    }

    constructor WithThresholds(pingAfter: nat, deadAfter: nat, now: nat)
      requires pingAfter < deadAfter
      ensures View() == Watchdog(pingAfter, deadAfter, now, false)
    {
      this.pingAfter := pingAfter;
      this.deadAfter := deadAfter;
      lastSeen := now;
      pingInFlight := false;
    }

    method SawTraffic(now: nat)
      modifies this
      ensures View() == old(View()).SawTraffic(now)
    {
      lastSeen := now;
      pingInFlight := false;
    }

    method Poll(now: nat) returns (verdict: Verdict)
      modifies this
      ensures verdict == old(View()).Judge(now)
      ensures View() == old(View()).Poll(now)
    {
      var idle := if now >= lastSeen then now - lastSeen else 0;
      if idle >= deadAfter {
        return Dead;
      }
      if idle >= pingAfter && !pingInFlight {
        pingInFlight := true;
        return SendPing;
      }
      return Healthy;
    }

    method NextDeadline(now: nat) returns (deadline: nat)
      ensures deadline == View().NextDeadline(now)
    {
      var idle := if now >= lastSeen then now - lastSeen else 0;
      var target := if pingInFlight then deadAfter else pingAfter;
      deadline := lastSeen + if target >= idle then target else idle;
    }
  }
}
