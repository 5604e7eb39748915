/** Replay of every remembered subscription after a reconnect. */
module Client {
  import opened Prelude
  import opened Protocol
  import opened Subscription

  /** A subscription the application makes while the replay is waiting for the server. */
  datatype Arrival = Arrival(id: string, key: StreamKey, params: seq<Json>)

  /**
   * What the rest of the world does while one entry is replayed: subscriptions the application
   * adds first, then the connection's answer, a fresh id or any error.
   */
  datatype Round = Round(arrivals: seq<Arrival>, answer: Option<string>)

  function AsRemembered(arrival: Arrival): Remembered {
    Remembered(arrival.id, Entry(arrival.key, arrival.params, Pending))
  }

  function AllRemembered(arrivals: seq<Arrival>): (list: seq<Remembered>)
    ensures |list| == |arrivals|
  {
    seq(|arrivals|, i requires 0 <= i < |arrivals| => AsRemembered(arrivals[i]))
  }

  // ---- the closed form -----------------------------------------------------------------

  /** What became of each replayed id: its new id, or nothing when the replay failed. */
  type Fates = map<string, Option<string>>

  /** The list after the replay: successes under their new id, failures gone, the rest untouched. */
  function Settled(list: seq<Remembered>, fates: Fates): seq<Remembered> {
    if list == [] then []
    else
      var before, last := Settled(list[..|list| - 1], fates), list[|list| - 1];
      if last.id !in fates then before + [last]
      else match fates[last.id]
        case Some(now) => before + [Remembered(now, last.entry.(state := Pending))]
        case None => before
  }

  /** The same on ids alone. */
  function SettledIds(ids: seq<string>, fates: Fates): seq<string> {
    if ids == [] then []
    else
      var before, last := SettledIds(ids[..|ids| - 1], fates), ids[|ids| - 1];
      if last !in fates then before + [last]
      else match fates[last]
        case Some(now) => before + [now]
        case None => before
  }

  /** Entry `i` of the replay order meets the answer of round `i`. */
  function FatesOf(order: seq<Remembered>, world: nat -> Round): (fates: Fates)
    ensures forall id :: id in fates <==> Listed(order, id)
  {
    if order == [] then map[]
    else
      var before, last := order[..|order| - 1], order[|order| - 1];
      assert forall id | Listed(before, id) :: Listed(order, id) by {
        assert forall i | 0 <= i < |before| :: before[i] == order[i];
      }
      assert Listed(order, last.id);
      assert forall id | Listed(order, id) && id != last.id :: Listed(before, id) by {
        forall id | Listed(order, id) && id != last.id ensures Listed(before, id) {
          var i :| 0 <= i < |order| && order[i].id == id;
          assert before[i].id == id;
        }
      }
      FatesOf(before, world)[last.id := world(|order| - 1).answer]
  }

  function Arrived(world: nat -> Round, rounds: nat): seq<Remembered> {
    if rounds == 0 then [] else Arrived(world, rounds - 1) + AllRemembered(world(rounds - 1).arrivals)
  }

  function Restored(world: nat -> Round, rounds: nat): nat {
    if rounds == 0 then 0
    else
      var before := Restored(world, rounds - 1);
      if world(rounds - 1).answer.Some? then before + 1 else before
  }

  // ---- fresh ids -----------------------------------------------------------------------

  function IdsOf(list: seq<Remembered>): set<string> {
    set i | 0 <= i < |list| :: list[i].id
  }

  function AnswerId(round: Round): set<string> {
    if round.answer.Some? then {round.answer.value} else {}
  }

  /** Every id in the registry or handed out by the connection before this round. */
  function Used(list: seq<Remembered>, world: nat -> Round, rounds: nat): set<string> {
    if rounds == 0 then IdsOf(list)
    else
      var round := world(rounds - 1);
      Used(list, world, rounds - 1) + IdsOf(AllRemembered(round.arrivals)) + AnswerId(round)
  }

  /** The connection never hands out an id twice. */
  ghost predicate Fresh(used: set<string>, round: Round) {
    && Distinct(AllRemembered(round.arrivals))
    && used !! IdsOf(AllRemembered(round.arrivals)) !! AnswerId(round)
  }

  ghost predicate AlwaysFresh(list: seq<Remembered>, world: nat -> Round) {
    forall i: nat :: Fresh(Used(list, world, i), world(i))
  }

  // ---- one round on the list -----------------------------------------------------------

  lemma {:induction false} MovedMiddle(list: seq<Remembered>, fates: Fates, was: string, now: string)
    requires Distinct(list) && was !in fates
    requires forall id | id in fates && fates[id].Some? :: fates[id].value != was
    ensures Moved(Settled(list, fates), was, now) == Settled(list, fates[was := Some(now)])
  {
    if list != [] {
      var before := list[..|list| - 1];
      assert forall i | 0 <= i < |before| :: before[i] == list[i];
      MovedMiddle(before, fates, was, now);
    }
  }

  lemma {:induction false} ForgottenMiddle(list: seq<Remembered>, fates: Fates, was: string)
    requires Distinct(list) && was !in fates
    requires forall id | id in fates && fates[id].Some? :: fates[id].value != was
    ensures Forgotten(Settled(list, fates), was) == Settled(list, fates[was := None])
  {
    if list != [] {
      var before := list[..|list| - 1];
      assert forall i | 0 <= i < |before| :: before[i] == list[i];
      ForgottenMiddle(before, fates, was);
      var last := list[|list| - 1];
      if last.id !in fates {
        ForgottenAppend(Settled(before, fates), last, was);
      } else if fates[last.id].Some? {
        ForgottenAppend(Settled(before, fates), Remembered(fates[last.id].value, last.entry.(state := Pending)), was);
      }
    }
  }

  lemma ForgottenAppend(list: seq<Remembered>, sub: Remembered, id: string)
    ensures Forgotten(list + [sub], id) == if sub.id == id then Forgotten(list, id) else Forgotten(list, id) + [sub]
  {
    assert (list + [sub])[..|list|] == list;
  }

  lemma {:induction false} ForgottenTail(list: seq<Remembered>, tail: seq<Remembered>, id: string)
    requires forall i | 0 <= i < |tail| :: tail[i].id != id
    ensures Forgotten(list + tail, id) == Forgotten(list, id) + tail
  {
    if tail == [] {
      assert list + tail == list;
    } else {
      var before, last := tail[..|tail| - 1], tail[|tail| - 1];
      ForgottenTail(list, before, id);
      assert list + tail == (list + before) + [last];
      ForgottenAppend(list + before, last, id);
    }
  }

  lemma MovedTail(list: seq<Remembered>, tail: seq<Remembered>, was: string, now: string)
    requires forall i | 0 <= i < |tail| :: tail[i].id != was
    ensures Moved(list + tail, was, now) == Moved(list, was, now) + tail
  {
  }

  /** The ids after some rounds are among the used ones, and nothing new reuses an old id. */
  lemma {:induction false} SettledUses(list: seq<Remembered>, fates: Fates)
    ensures forall id :: Listed(Settled(list, fates), id) ==>
      (Listed(list, id) && id !in fates) || (exists was :: was in fates && fates[was] == Some(id))
  {
    if list != [] {
      var before, last := list[..|list| - 1], list[|list| - 1];
      SettledUses(before, fates);
      assert forall i | 0 <= i < |before| :: before[i] == list[i];
      forall id | Listed(Settled(list, fates), id)
        ensures (Listed(list, id) && id !in fates) || (exists was :: was in fates && fates[was] == Some(id))
      {
        if !Listed(Settled(before, fates), id) {
          if last.id !in fates {
            assert list[|list| - 1].id == id;
          } else {
            assert fates[last.id] == Some(id);
          }
        }
      }
    }
  }

  /** Between rounds every id that is not an original one was handed out during the replay. */
  ghost predicate Reached(list: seq<Remembered>, fates: Fates, arrived: seq<Remembered>, used: set<string>) {
    && IdsOf(list) <= used
    && (forall id | id in fates && fates[id].Some? :: fates[id].value in used && fates[id].value !in IdsOf(list))
    && (forall i | 0 <= i < |arrived| :: arrived[i].id in used && arrived[i].id !in IdsOf(list))
  }

  lemma ReachedIsUsed(list: seq<Remembered>, fates: Fates, arrived: seq<Remembered>, used: set<string>, id: string)
    requires Reached(list, fates, arrived, used) && Listed(Settled(list, fates) + arrived, id)
    ensures id in used
  {
    SettledUses(list, fates);
    var i :| 0 <= i < |Settled(list, fates) + arrived| && (Settled(list, fates) + arrived)[i].id == id;
    if i < |Settled(list, fates)| {
      assert Listed(Settled(list, fates), id);
    }
  }

  lemma ReachedNext(
      list: seq<Remembered>, fates: Fates, arrived: seq<Remembered>, used: set<string>, was: string, round: Round)
    requires Reached(list, fates, arrived, used) && Fresh(used, round)
    ensures Reached(list, fates[was := round.answer], arrived + AllRemembered(round.arrivals),
                    used + IdsOf(AllRemembered(round.arrivals)) + AnswerId(round))
  {
    var more := AllRemembered(round.arrivals);
    forall i | 0 <= i < |more| ensures more[i].id in IdsOf(more) && more[i].id !in IdsOf(list) {
      assert more[i].id in IdsOf(more);
    }
    if round.answer.Some? {
      assert round.answer.value in AnswerId(round);
    }
  }

  /** The answer of a round, applied to the list as it stands, settles one more entry. */
  lemma AnswerSettles(list: seq<Remembered>, fates: Fates, arrived: seq<Remembered>, used: set<string>,
                      was: string, answer: Option<string>)
    requires Distinct(list) && Reached(list, fates, arrived, used)
    requires was in IdsOf(list) && was !in fates
    ensures var now := Settled(list, fates) + arrived;
            Settled(list, fates[was := answer]) + arrived ==
            match answer case Some(id) => Moved(now, was, id) case None => Forgotten(now, was)
  {
    match answer
    case Some(id) =>
      MovedMiddle(list, fates, was, id);
      MovedTail(Settled(list, fates), arrived, was, id);
    case None =>
      ForgottenMiddle(list, fates, was);
      ForgottenTail(Settled(list, fates), arrived, was);
  }

  // ---- the loop ------------------------------------------------------------------------

  /** The application's own subscriptions, one insertion at a time. */
  method Admit(registry: Registry, ghost current: seq<Remembered>, arrivals: seq<Arrival>)
    requires Agrees(registry.Contents(), current)
    requires Distinct(AllRemembered(arrivals))
    requires forall i | 0 <= i < |arrivals| :: !Listed(current, arrivals[i].id)
    modifies registry
    ensures Agrees(registry.Contents(), current + AllRemembered(arrivals))
  {
    hide Agrees;
    ghost var list := current;
    assert current + AllRemembered([]) == current;
    for i := 0 to |arrivals|
      invariant list == current + AllRemembered(arrivals[..i])
      invariant Agrees(registry.Contents(), list)
    {
      var arrival := arrivals[i];
      ghost var t := registry.Contents();
      StillFresh(t, current, arrivals, i);
      registry.Insert(arrival.id, arrival.key, arrival.params);
      InsertAgrees(t, list, arrival.id, arrival.key, arrival.params);
      assert AllRemembered(arrivals[..i + 1]) == AllRemembered(arrivals[..i]) + [AsRemembered(arrival)];
      list := list + [AsRemembered(arrival)];
    }
    assert arrivals[..|arrivals|] == arrivals;
  }

  lemma StillFresh(t: Tables, current: seq<Remembered>, arrivals: seq<Arrival>, i: nat)
    requires i < |arrivals| && Distinct(AllRemembered(arrivals))
    requires Agrees(t, current + AllRemembered(arrivals[..i]))
    requires !Listed(current, arrivals[i].id)
    ensures arrivals[i].id !in t.byId
  {
    var list := current + AllRemembered(arrivals[..i]);
    forall j | 0 <= j < |list| ensures list[j].id != arrivals[i].id {
      if j >= |current| {
        assert list[j] == AllRemembered(arrivals)[j - |current|];
        assert AllRemembered(arrivals)[i].id == arrivals[i].id;
      }
    }
    assert !Listed(list, arrivals[i].id);
  }

  lemma FatesGrow(order: seq<Remembered>, world: nat -> Round, i: nat)
    requires i < |order|
    ensures FatesOf(order[..i + 1], world) == FatesOf(order[..i], world)[order[i].id := world(i).answer]
  {
    assert order[..i + 1][..i] == order[..i];
  }

  lemma {:induction false} NothingSettled(list: seq<Remembered>)
    ensures Settled(list, map[]) == list
  {
    if list != [] {
      NothingSettled(list[..|list| - 1]);
      assert list == list[..|list| - 1] + [list[|list| - 1]];
    }
  }

  /** One turn of the loop. */
  method ReplayOne(registry: Registry, was: string, round: Round,
                   ghost list: seq<Remembered>, ghost fates: Fates, ghost arrived: seq<Remembered>,
                   ghost used: set<string>)
    returns (restored: bool)
    requires Distinct(list) && Reached(list, fates, arrived, used) && Fresh(used, round)
    requires was in IdsOf(list) && was !in fates
    requires Agrees(registry.Contents(), Settled(list, fates) + arrived)
    modifies registry
    ensures restored == round.answer.Some?
    ensures Agrees(registry.Contents(),
                   Settled(list, fates[was := round.answer]) + (arrived + AllRemembered(round.arrivals)))
  {
    ghost var more := AllRemembered(round.arrivals);
    ghost var current := Settled(list, fates) + (arrived + more);
    ghost var known := used + IdsOf(more);
    ArrivalsAreNew(list, fates, arrived, used, round);
    assert Settled(list, fates) + arrived + more == current;
    hide Agrees, Settled, Moved, Forgotten;
    Admit(registry, Settled(list, fates) + arrived, round.arrivals);
    ReachedArrivals(list, fates, arrived, used, round);
    AnswerSettles(list, fates, arrived + more, known, was, round.answer);
    ghost var t := registry.Contents();
    match round.answer {
      case Some(now) =>
        AnswerIsNew(t, list, fates, arrived + more, known, now);
        RekeyAgrees(t, current, was, now);
        var _ := registry.Rekey(was, now);
        restored := true;
      case None =>
        RemoveAgrees(t, current, was);
        var _ := registry.Remove(was);
        restored := false;
    }
  }

  lemma ArrivalsAreNew(list: seq<Remembered>, fates: Fates, arrived: seq<Remembered>, used: set<string>, round: Round)
    requires Reached(list, fates, arrived, used) && Fresh(used, round)
    ensures Distinct(AllRemembered(round.arrivals))
    ensures forall i | 0 <= i < |round.arrivals| :: !Listed(Settled(list, fates) + arrived, round.arrivals[i].id)
  {
    forall i | 0 <= i < |round.arrivals| ensures !Listed(Settled(list, fates) + arrived, round.arrivals[i].id) {
      assert AllRemembered(round.arrivals)[i].id in IdsOf(AllRemembered(round.arrivals));
      if Listed(Settled(list, fates) + arrived, round.arrivals[i].id) {
        ReachedIsUsed(list, fates, arrived, used, round.arrivals[i].id);
      }
    }
  }

  lemma ReachedArrivals(list: seq<Remembered>, fates: Fates, arrived: seq<Remembered>, used: set<string>, round: Round)
    requires Reached(list, fates, arrived, used) && Fresh(used, round)
    ensures Reached(list, fates, arrived + AllRemembered(round.arrivals), used + IdsOf(AllRemembered(round.arrivals)))
    ensures (used + IdsOf(AllRemembered(round.arrivals))) !! AnswerId(round)
  {
    var more := AllRemembered(round.arrivals);
    forall i | 0 <= i < |more| ensures more[i].id in IdsOf(more) && more[i].id !in IdsOf(list) {
      assert more[i].id in IdsOf(more);
    }
  }

  lemma AnswerIsNew(
      t: Tables, list: seq<Remembered>, fates: Fates, arrived: seq<Remembered>, used: set<string>, now: string)
    requires Agrees(t, Settled(list, fates) + arrived)
    requires Reached(list, fates, arrived, used) && now !in used
    ensures now !in t.byId
  {
    if now in t.byId {
      ReachedIsUsed(list, fates, arrived, used, now);
    }
  }

  /** An entry is replayed once, so its fate is still open when its turn comes. */
  lemma TurnIsOpen(byId: map<string, Entry>, list: seq<Remembered>, order: seq<Remembered>, world: nat -> Round, i: nat)
    requires Entries(byId, list) && InReplayOrder(byId, order) && i < |order|
    ensures order[i].id in IdsOf(list) && order[i].id !in FatesOf(order[..i], world)
  {
    assert order[i].id in byId;
    forall j | 0 <= j < i ensures order[j].id != order[i].id {
      BeforeIsTotal(order[i].id, order[i].id);
    }
    var k :| 0 <= k < |list| && list[k].id == order[i].id;
  }

  /** Where things stand before round `i`. */
  ghost predicate Halfway(t: Tables, list: seq<Remembered>, order: seq<Remembered>, world: nat -> Round, i: nat)
    requires i <= |order|
  {
    && Reached(list, FatesOf(order[..i], world), Arrived(world, i), Used(list, world, i))
    && Agrees(t, Settled(list, FatesOf(order[..i], world)) + Arrived(world, i))
  }

  method ReplayTurn(registry: Registry, was: string, round: Round, ghost byId: map<string, Entry>,
                    ghost list: seq<Remembered>, ghost order: seq<Remembered>, ghost world: nat -> Round, ghost i: nat)
    returns (restored: bool)
    requires Distinct(list) && Entries(byId, list) && InReplayOrder(byId, order) && AlwaysFresh(list, world)
    requires i < |order| && was == order[i].id && round == world(i)
    requires Halfway(registry.Contents(), list, order, world, i)
    modifies registry
    ensures restored == round.answer.Some?
    ensures Halfway(registry.Contents(), list, order, world, i + 1)
  {
    ghost var fates, arrived, used := FatesOf(order[..i], world), Arrived(world, i), Used(list, world, i);
    assert Fresh(used, round);
    TurnIsOpen(byId, list, order, world, i);
    FatesGrow(order, world, i);
    hide FatesOf, Agrees, Entries, Distinct, Settled, InReplayOrder, Reached, Fresh, AlwaysFresh;
    ReachedNext(list, fates, arrived, used, was, round);
    restored := ReplayOne(registry, was, round, list, fates, arrived, used);
  }

  method ReplayAll(registry: Registry, replay: seq<Remembered>, ghost byId: map<string, Entry>,
                   ghost list: seq<Remembered>, world: nat -> Round)
    returns (restored: nat)
    requires Distinct(list) && Entries(byId, list) && InReplayOrder(byId, replay) && AlwaysFresh(list, world)
    requires Halfway(registry.Contents(), list, replay, world, 0)
    modifies registry
    ensures Halfway(registry.Contents(), list, replay, world, |replay|)
    ensures restored == Restored(world, |replay|)
  {
    NoneRestored(world);
    hide *;
    restored := 0;
    for i := 0 to |replay|
      invariant Halfway(registry.Contents(), list, replay, world, i)
      invariant restored == Restored(world, i)
    {
      RestoredGrows(world, i);
      var sent := ReplayTurn(registry, replay[i].id, world(i), byId, list, replay, world, i);
      if sent {
        restored := restored + 1;
      }
    }
  }

  lemma NoneRestored(world: nat -> Round)
    ensures Restored(world, 0) == 0
  {
  }

  /**
   * Whatever the application adds meanwhile and whatever the server answers, each entry ends under
   * its new id in its old place, or gone if its replay failed; the rest is untouched.
   */
  method Replay(registry: Registry, ghost list: seq<Remembered>, world: nat -> Round)
    returns (restored: nat, ghost order: seq<Remembered>)
    requires Agrees(registry.Contents(), list) && AlwaysFresh(list, world)
    modifies registry
    ensures InReplayOrder(old(registry.byId), order)
    ensures Agrees(registry.Contents(), Settled(list, FatesOf(order, world)) + Arrived(world, |order|))
    ensures restored == |Settled(list, FatesOf(order, world))|
  {
    ghost var t := registry.Contents();
    var replay := registry.ToReplay();
    order := replay;
    assert t.byId == registry.byId;
    hide *;
    AtTheStart(t, list, order, world);
    restored := ReplayAll(registry, replay, t.byId, list, world);
    AtTheEnd(registry.Contents(), list, order, world);
    RestoredMeansSurvived(t.byId, list, order, world);
  }

  lemma AtTheEnd(t: Tables, list: seq<Remembered>, order: seq<Remembered>, world: nat -> Round)
    requires Halfway(t, list, order, world, |order|)
    ensures Agrees(t, Settled(list, FatesOf(order, world)) + Arrived(world, |order|))
  {
    assert order[..|order|] == order;
  }

  lemma RestoredGrows(world: nat -> Round, i: nat)
    ensures Restored(world, i + 1) == if world(i).answer.Some? then Restored(world, i) + 1 else Restored(world, i)
  {
  }

  lemma AtTheStart(t: Tables, list: seq<Remembered>, order: seq<Remembered>, world: nat -> Round)
    requires Agrees(t, list)
    ensures Halfway(t, list, order, world, 0) && Distinct(list) && Entries(t.byId, list)
  {
    NothingSettled(list);
    assert FatesOf(order[..0], world) == map[];
    assert Settled(list, map[]) + Arrived(world, 0) == list;
  }

  // ---- what the closed form says -------------------------------------------------------

  lemma {:induction false} IdsForConcat(list: seq<Remembered>, tail: seq<Remembered>, key: StreamKey)
    ensures IdsFor(list + tail, key) == IdsFor(list, key) + IdsFor(tail, key)
  {
    if tail == [] {
      assert list + tail == list;
    } else {
      var before, last := tail[..|tail| - 1], tail[|tail| - 1];
      assert list + tail == (list + before) + [last] && before + [last] == tail;
      hide IdsFor;
      IdsForConcat(list, before, key);
      IdsForAppend(list + before, last, key);
      IdsForAppend(before, last, key);
    }
  }

  lemma {:induction false} SettledRoutes(list: seq<Remembered>, fates: Fates, key: StreamKey)
    ensures IdsFor(Settled(list, fates), key) == SettledIds(IdsFor(list, key), fates)
  {
    if list != [] {
      var before, last := list[..|list| - 1], list[|list| - 1];
      SettledRoutes(before, fates, key);
      if last.id !in fates {
        IdsForAppend(Settled(before, fates), last, key);
      } else if fates[last.id].Some? {
        IdsForAppend(Settled(before, fates), Remembered(fates[last.id].value, last.entry.(state := Pending)), key);
      }
      if last.entry.key == key {
        assert (IdsFor(before, key) + [last.id])[..|IdsFor(before, key)|] == IdsFor(before, key);
      }
    }
  }

  /** In every bucket the survivors keep their positions and the newcomers follow them. */
  lemma BucketsKeepTheirOrder(list: seq<Remembered>, fates: Fates, arrived: seq<Remembered>, key: StreamKey)
    ensures IdsFor(Settled(list, fates) + arrived, key) == SettledIds(IdsFor(list, key), fates) + IdsFor(arrived, key)
  {
    IdsForConcat(Settled(list, fates), arrived, key);
    SettledRoutes(list, fates, key);
  }

  function Successes(fates: Fates): set<string> {
    set id | id in fates && fates[id].Some?
  }

  lemma IdsOfLast(list: seq<Remembered>)
    requires Distinct(list) && list != []
    ensures var before, last := list[..|list| - 1], list[|list| - 1];
            Distinct(before) && IdsOf(list) == IdsOf(before) + {last.id} && last.id !in IdsOf(before)
  {
  }

  lemma {:induction false} SettledCounts(list: seq<Remembered>, fates: Fates)
    requires Distinct(list) && IdsOf(list) <= fates.Keys
    ensures |Settled(list, fates)| == |IdsOf(list) * Successes(fates)|
  {
    if list != [] {
      var before, last := list[..|list| - 1], list[|list| - 1];
      IdsOfLast(list);
      hide Distinct, IdsOf;
      SettledCounts(before, fates);
      assert last.id in fates;
      assert last.id in Successes(fates) <==> fates[last.id].Some?;
      hide Successes;
      OneMoreSuccess(IdsOf(before), last.id, Successes(fates));
    }
  }

  lemma OneMoreSuccess(ids: set<string>, id: string, successes: set<string>)
    requires id !in ids
    ensures |(ids + {id}) * successes| == |ids * successes| + if id in successes then 1 else 0
  {
    assert (ids + {id}) * successes == if id in successes then ids * successes + {id} else ids * successes;
  }

  lemma {:induction false} RestoredCounts(order: seq<Remembered>, world: nat -> Round)
    requires Distinct(order)
    ensures |Successes(FatesOf(order, world))| == Restored(world, |order|)
  {
    if order != [] {
      var before, last := order[..|order| - 1], order[|order| - 1];
      RestoredCounts(before, world);
      RestoredGrows(world, |before|);
      assert !Listed(before, last.id);
      var fates := FatesOf(before, world);
      assert FatesOf(order, world) == fates[last.id := world(|before|).answer];
      assert Successes(FatesOf(order, world)) ==
             if world(|before|).answer.Some? then Successes(fates) + {last.id} else Successes(fates);
    }
  }

  lemma IdsOfEntries(byId: map<string, Entry>, list: seq<Remembered>)
    requires Entries(byId, list)
    ensures IdsOf(list) == byId.Keys
  {
  }

  /** The count reported to the application is the number of entries that survived. */
  lemma RestoredMeansSurvived(
      byId: map<string, Entry>, list: seq<Remembered>, order: seq<Remembered>, world: nat -> Round)
    requires Distinct(list) && Entries(byId, list) && InReplayOrder(byId, order)
    ensures |Settled(list, FatesOf(order, world))| == Restored(world, |order|)
  {
    var fates := FatesOf(order, world);
    forall i, j | 0 <= i < j < |order| ensures order[i].id != order[j].id {
      BeforeIsTotal(order[i].id, order[i].id);
    }
    IdsOfEntries(byId, list);
    IdsOfEntries(byId, order);
    assert fates.Keys == IdsOf(order);
    RestoredCounts(order, world);
    SettledCounts(list, fates);
    assert IdsOf(list) * Successes(fates) == Successes(fates);
  }
}
