/** Subscription intent, routing, and its replay after a reconnect. */
module Subscription {
  import opened Prelude
  import opened Protocol
  import opened Sequences

  datatype StreamKey = StreamKey(stream: string, event: string)

  datatype SubState = Pending | Acknowledged | Inactive

  datatype Entry = Entry(key: StreamKey, params: seq<Json>, state: SubState)

  /** The registry's two tables: intent by subscription id, and the routing index by stream key. */
  datatype Tables = Tables(byId: map<string, Entry>, byKey: map<StreamKey, seq<string>>) {
    function Bucket(key: StreamKey): seq<string> {
      if key in byKey then byKey[key] else []
    }

    function Insert(id: string, key: StreamKey, params: seq<Json>): Tables {
      Tables(byId[id := Entry(key, params, Pending)], byKey[key := Bucket(key) + [id]])
    }

    function Remove(id: string): Tables {
      if id !in byId then this
      else
        var key := byId[id].key;
        var kept := Without(Bucket(key), id);
        Tables(byId - {id}, if kept == [] then byKey - {key} else byKey[key := kept])
    }

    function Rekey(was: string, now: string): Tables {
      if was !in byId then this
      else
        var entry := byId[was];
        Tables((byId - {was})[now := entry.(state := Pending)],
               if entry.key in byKey then byKey[entry.key := Renamed(byKey[entry.key], was, now)] else byKey)
    }

    function SetStates(state: SubState): Tables {
      this.(byId := map id | id in byId :: byId[id].(state := state))
    }

    function Acknowledge(id: string): Tables {
      if id in byId then this.(byId := byId[id := byId[id].(state := Acknowledged)]) else this
    }
  }

  function Renamed(ids: seq<string>, was: string, now: string): seq<string> {
    seq(|ids|, i requires 0 <= i < |ids| => if ids[i] == was then now else ids[i])
  }

  // ---- the simple form: one list of subscriptions in order -----------------------------

  datatype Remembered = Remembered(id: string, entry: Entry)

  ghost predicate Distinct(list: seq<Remembered>) {
    forall i, j | 0 <= i < j < |list| :: list[i].id != list[j].id
  }

  ghost predicate Listed(list: seq<Remembered>, id: string) {
    exists i :: 0 <= i < |list| && list[i].id == id
  }

  /** The ids that want events for `key`, in order. */
  function IdsFor(list: seq<Remembered>, key: StreamKey): seq<string> {
    if list == [] then []
    else
      var before, last := IdsFor(list[..|list| - 1], key), list[|list| - 1];
      if last.entry.key == key then before + [last.id] else before
  }

  function Forgotten(list: seq<Remembered>, id: string): seq<Remembered> {
    if list == [] then []
    else
      var before, last := Forgotten(list[..|list| - 1], id), list[|list| - 1];
      if last.id == id then before else before + [last]
  }

  /** The subscription keeps its place, key and parameters; only its wire id is new. */
  function Moved(list: seq<Remembered>, was: string, now: string): seq<Remembered> {
    seq(|list|, i requires 0 <= i < |list| =>
      if list[i].id == was then Remembered(now, list[i].entry.(state := Pending)) else list[i])
  }

  /**
   * The tables say what the list says: the entries are the list's, and each bucket is the list
   * filtered by its key, with no bucket for a key nobody wants.
   */
  ghost predicate Agrees(t: Tables, list: seq<Remembered>) {
    && Distinct(list)
    && Entries(t.byId, list)
    && Routes(t.byKey, list)
  }

  ghost predicate Entries(byId: map<string, Entry>, list: seq<Remembered>) {
    && (forall id :: id in byId ==> Listed(list, id))
    && (forall i | 0 <= i < |list| :: list[i].id in byId && byId[list[i].id] == list[i].entry)
  }

  ghost predicate Routes(byKey: map<StreamKey, seq<string>>, list: seq<Remembered>) {
    && (forall key :: key in byKey <==> IdsFor(list, key) != [])
    && (forall key | key in byKey :: byKey[key] == IdsFor(list, key))
  }

  // ---- the list's functions, item by item ----------------------------------------------

  lemma IdsForAppend(list: seq<Remembered>, sub: Remembered, key: StreamKey)
    ensures IdsFor(list + [sub], key) ==
            if sub.entry.key == key then IdsFor(list, key) + [sub.id] else IdsFor(list, key)
  {
    assert (list + [sub])[..|list|] == list;
  }

  lemma {:induction false} IdsForMember(list: seq<Remembered>, key: StreamKey, id: string)
    ensures id in IdsFor(list, key) <==> exists i :: 0 <= i < |list| && list[i].id == id && list[i].entry.key == key
  {
    if list != [] {
      var before := list[..|list| - 1];
      IdsForMember(before, key, id);
      assert forall i | 0 <= i < |before| :: before[i] == list[i];
    }
  }

  lemma {:induction false} IdsForForgotten(list: seq<Remembered>, id: string, key: StreamKey)
    ensures IdsFor(Forgotten(list, id), key) == Without(IdsFor(list, key), id)
  {
    if list != [] {
      var before, last := list[..|list| - 1], list[|list| - 1];
      IdsForForgotten(before, id, key);
      IdsForAppend(Forgotten(before, id), last, key);
      WithoutAppend(IdsFor(before, key), last.id, id);
    }
  }

  lemma {:induction false} IdsForMoved(list: seq<Remembered>, was: string, now: string, key: StreamKey)
    ensures IdsFor(Moved(list, was, now), key) == Renamed(IdsFor(list, key), was, now)
  {
    if list != [] {
      var before := list[..|list| - 1];
      IdsForMoved(before, was, now, key);
      assert Moved(list, was, now)[..|list| - 1] == Moved(before, was, now);
    }
  }

  lemma {:induction false} ForgottenMembers(list: seq<Remembered>, id: string)
    ensures forall sub :: sub in Forgotten(list, id) <==> sub in list && sub.id != id
    ensures Distinct(list) ==> Distinct(Forgotten(list, id))
  {
    if list != [] {
      var before, last := list[..|list| - 1], list[|list| - 1];
      ForgottenMembers(before, id);
      assert list == before + [last];
      if Distinct(list) && last.id != id {
        assert forall i | 0 <= i < |before| :: before[i] == list[i];
        forall sub | sub in Forgotten(before, id) ensures sub.id != last.id { }
      }
    }
  }

  /** Renaming an id that is not there changes nothing. */
  lemma RenamedAbsent(ids: seq<string>, was: string, now: string)
    requires was !in ids
    ensures Renamed(ids, was, now) == ids
  {
  }

  lemma EntriesGrow(byId: map<string, Entry>, list: seq<Remembered>, sub: Remembered)
    requires Distinct(list) && Entries(byId, list) && sub.id !in byId
    ensures Distinct(list + [sub]) && Entries(byId[sub.id := sub.entry], list + [sub])
  {
    forall id | id in byId[sub.id := sub.entry] ensures Listed(list + [sub], id) {
      if id == sub.id {
        assert (list + [sub])[|list|].id == id;
      } else {
        var i :| 0 <= i < |list| && list[i].id == id;
        assert (list + [sub])[i].id == id;
      }
    }
  }

  lemma RoutesGrow(byKey: map<StreamKey, seq<string>>, list: seq<Remembered>, sub: Remembered)
    requires Routes(byKey, list)
    ensures Routes(byKey[sub.entry.key := IdsFor(list, sub.entry.key) + [sub.id]], list + [sub])
  {
    forall key
      ensures IdsFor(list + [sub], key) ==
              if sub.entry.key == key then IdsFor(list, key) + [sub.id] else IdsFor(list, key)
    {
      IdsForAppend(list, sub, key);
    }
  }

  lemma InsertAgrees(t: Tables, list: seq<Remembered>, id: string, key: StreamKey, params: seq<Json>)
    requires Agrees(t, list) && id !in t.byId
    ensures Agrees(t.Insert(id, key, params), list + [Remembered(id, Entry(key, params, Pending))])
  {
    var sub := Remembered(id, Entry(key, params, Pending));
    assert t.Bucket(key) == IdsFor(list, key);
    hide IdsFor, Distinct, Entries, Routes;
    EntriesGrow(t.byId, list, sub);
    RoutesGrow(t.byKey, list, sub);
  }

  lemma EntriesForget(byId: map<string, Entry>, list: seq<Remembered>, id: string)
    requires Distinct(list) && Entries(byId, list)
    ensures Entries(byId - {id}, Forgotten(list, id))
  {
    ForgottenMembers(list, id);
    var left := Forgotten(list, id);
    forall i | 0 <= i < |left|
      ensures left[i].id in byId && left[i].id != id && byId[left[i].id] == left[i].entry
    {
      assert left[i] in left;
      var j :| 0 <= j < |list| && list[j] == left[i];
    }
    forall other | other in byId && other != id ensures Listed(left, other) {
      var j :| 0 <= j < |list| && list[j].id == other;
      assert list[j] in left;
      var i :| 0 <= i < |left| && left[i] == list[j];
    }
  }

  /** A remembered id is routed under its own key only. */
  lemma RoutedOnce(byId: map<string, Entry>, list: seq<Remembered>, id: string, key: StreamKey)
    requires Distinct(list) && Entries(byId, list)
    ensures id in IdsFor(list, key) <==> id in byId && byId[id].key == key
  {
    IdsForMember(list, key, id);
    if id in byId {
      var i :| 0 <= i < |list| && list[i].id == id;
    }
  }

  lemma RoutesForget(byKey: map<StreamKey, seq<string>>, list: seq<Remembered>, id: string, key: StreamKey)
    requires Routes(byKey, list) && id in IdsFor(list, key)
    requires forall k | k != key :: id !in IdsFor(list, k)
    ensures var kept := Without(IdsFor(list, key), id);
            Routes(if kept == [] then byKey - {key} else byKey[key := kept], Forgotten(list, id))
  {
    forall k
      ensures IdsFor(Forgotten(list, id), k) == if k == key then Without(IdsFor(list, k), id) else IdsFor(list, k)
    {
      IdsForForgotten(list, id, k);
      if k != key {
        WithoutAbsent(IdsFor(list, k), id);
      }
    }
  }

  lemma RemoveAgrees(t: Tables, list: seq<Remembered>, id: string)
    requires Agrees(t, list)
    ensures Agrees(t.Remove(id), Forgotten(list, id))
  {
    if id in t.byId {
      var key := t.byId[id].key;
      forall k ensures id in IdsFor(list, k) <==> k == key {
        RoutedOnce(t.byId, list, id, k);
      }
      hide Forgotten, Without, IdsFor, Distinct, Entries;
      assert t.Bucket(key) == IdsFor(list, key);
      ForgottenMembers(list, id);
      EntriesForget(t.byId, list, id);
      RoutesForget(t.byKey, list, id, key);
    } else {
      ForgottenAbsent(list, id);
    }
  }

  lemma {:induction false} ForgottenAbsent(list: seq<Remembered>, id: string)
    requires !Listed(list, id)
    ensures Forgotten(list, id) == list
  {
    if list != [] {
      var before := list[..|list| - 1];
      assert forall i | 0 <= i < |before| :: before[i] == list[i];
      ForgottenAbsent(before, id);
      assert list == before + [list[|list| - 1]];
    }
  }

  lemma RoutesMove(byKey: map<StreamKey, seq<string>>, list: seq<Remembered>, was: string, now: string, key: StreamKey)
    requires Routes(byKey, list) && key in byKey
    requires forall k | k != key :: was !in IdsFor(list, k)
    ensures Routes(byKey[key := Renamed(byKey[key], was, now)], Moved(list, was, now))
  {
    forall k
      ensures IdsFor(Moved(list, was, now), k) ==
              if k == key then Renamed(IdsFor(list, k), was, now) else IdsFor(list, k)
    {
      IdsForMoved(list, was, now, k);
      if k != key {
        RenamedAbsent(IdsFor(list, k), was, now);
      }
    }
  }

  lemma RekeyAgrees(t: Tables, list: seq<Remembered>, was: string, now: string)
    requires Agrees(t, list) && (was !in t.byId || now == was || now !in t.byId)
    ensures Agrees(t.Rekey(was, now), Moved(list, was, now))
  {
    assert was !in t.byId ==> Moved(list, was, now) == list;
    if was in t.byId {
      forall k ensures was in IdsFor(list, k) <==> k == t.byId[was].key {
        RoutedOnce(t.byId, list, was, k);
      }
      hide Moved, Renamed, IdsFor, Distinct, Entries;
      EntriesMove(t.byId, list, was, now);
      RoutesMove(t.byKey, list, was, now, t.byId[was].key);
    }
  }

  lemma EntriesMove(byId: map<string, Entry>, list: seq<Remembered>, was: string, now: string)
    requires Distinct(list) && Entries(byId, list)
    requires was in byId && (now !in byId || now == was)
    ensures Distinct(Moved(list, was, now))
    ensures Entries((byId - {was})[now := byId[was].(state := Pending)], Moved(list, was, now))
  {
    var to := Moved(list, was, now);
    forall id | id in (byId - {was})[now := byId[was].(state := Pending)] ensures Listed(to, id) {
      var i :| 0 <= i < |list| && list[i].id == if id == now then was else id;
      assert to[i].id == id;
    }
  }

  /** Every subscription in the same state, otherwise unchanged. */
  function InState(list: seq<Remembered>, state: SubState): seq<Remembered> {
    seq(|list|, i requires 0 <= i < |list| => list[i].(entry := list[i].entry.(state := state)))
  }

  function WithAcknowledged(list: seq<Remembered>, id: string): seq<Remembered> {
    seq(|list|, i requires 0 <= i < |list| =>
      if list[i].id == id then list[i].(entry := list[i].entry.(state := Acknowledged)) else list[i])
  }

  /** Ids and keys are those of the other list, place by place. */
  predicate SameRoutes(list: seq<Remembered>, other: seq<Remembered>) {
    |list| == |other| &&
    forall i | 0 <= i < |list| :: list[i].id == other[i].id && list[i].entry.key == other[i].entry.key
  }

  lemma {:induction false} SameRoutesSameIds(list: seq<Remembered>, other: seq<Remembered>, key: StreamKey)
    requires SameRoutes(list, other)
    ensures IdsFor(list, key) == IdsFor(other, key)
  {
    if list != [] {
      SameRoutesSameIds(list[..|list| - 1], other[..|other| - 1], key);
    }
  }

  lemma StatesOnly(t: Tables, list: seq<Remembered>, to: Tables, other: seq<Remembered>)
    requires Agrees(t, list) && SameRoutes(list, other) && to.byKey == t.byKey && to.byId.Keys == t.byId.Keys
    requires forall i | 0 <= i < |other| :: other[i].id in to.byId && to.byId[other[i].id] == other[i].entry
    ensures Agrees(to, other)
  {
    forall key ensures IdsFor(list, key) == IdsFor(other, key) {
      SameRoutesSameIds(list, other, key);
    }
    forall id | id in to.byId ensures Listed(other, id) {
      assert Listed(list, id);
      var i :| 0 <= i < |list| && list[i].id == id;
      assert other[i].id == id;
    }
    hide IdsFor, Listed;
  }

  /** Losing the connection and replaying change no route, only states. */
  lemma SetStatesAgrees(t: Tables, list: seq<Remembered>, state: SubState)
    requires Agrees(t, list)
    ensures Agrees(t.SetStates(state), InState(list, state))
  {
    hide IdsFor, Listed;
    StatesOnly(t, list, t.SetStates(state), InState(list, state));
  }

  /** The server's answer to one subscription changes that one's state only. */
  lemma AcknowledgeAgrees(t: Tables, list: seq<Remembered>, id: string)
    requires Agrees(t, list)
    ensures Agrees(t.Acknowledge(id), WithAcknowledged(list, id))
  {
    hide IdsFor, Listed;
    StatesOnly(t, list, t.Acknowledge(id), WithAcknowledged(list, id));
  }

  // ---- when the tables stay in agreement -----------------------------------------------

  ghost predicate Consistent(t: Tables) {
    exists list :: Agrees(t, list)
  }

  lemma {:induction false} RoutedWithoutRepeats(list: seq<Remembered>, key: StreamKey)
    requires Distinct(list)
    ensures forall i, j | 0 <= i < j < |IdsFor(list, key)| :: IdsFor(list, key)[i] != IdsFor(list, key)[j]
  {
    if list != [] {
      var before := list[..|list| - 1];
      assert forall i | 0 <= i < |before| :: before[i] == list[i];
      RoutedWithoutRepeats(before, key);
      IdsForMember(before, key, list[|list| - 1].id);
    }
  }

  /** In consistent tables an id is in the bucket of its own key, once, and in no other bucket. */
  lemma ConsistentMeans(t: Tables, id: string, key: StreamKey)
    requires Consistent(t)
    ensures id in t.Bucket(key) <==> id in t.byId && t.byId[id].key == key
    ensures forall i, j | 0 <= i < j < |t.Bucket(key)| :: t.Bucket(key)[i] != t.Bucket(key)[j]
    ensures key in t.byKey ==> t.byKey[key] != []
  {
    var list :| Agrees(t, list);
    RoutedOnce(t.byId, list, id, key);
    RoutedWithoutRepeats(list, key);
    assert t.Bucket(key) == IdsFor(list, key);
  }

  lemma DoubledIsInconsistent(t: Tables, key: StreamKey, i: nat, j: nat)
    requires i < j < |t.Bucket(key)| && t.Bucket(key)[i] == t.Bucket(key)[j]
    ensures !Consistent(t)
  {
    if Consistent(t) {
      ConsistentMeans(t, "", key);
    }
  }

  lemma MisroutedIsInconsistent(t: Tables, id: string, key: StreamKey)
    requires id in t.Bucket(key) && (id in t.byId ==> t.byId[id].key != key)
    ensures !Consistent(t)
  {
    if Consistent(t) {
      ConsistentMeans(t, id, key);
    }
  }

  /** The caller's duty to bring a fresh id is exactly what keeps routing consistent. */
  lemma InsertIsSafeExactlyWhenFresh(t: Tables, id: string, key: StreamKey, params: seq<Json>)
    requires Consistent(t)
    ensures Consistent(t.Insert(id, key, params)) <==> id !in t.byId
  {
    if id !in t.byId {
      var list :| Agrees(t, list);
      InsertAgrees(t, list, id, key, params);
    } else {
      var held := t.byId[id].key;
      ConsistentMeans(t, id, held);
      if held == key {
        var i :| 0 <= i < |t.Bucket(key)| && t.Bucket(key)[i] == id;
        DoubledIsInconsistent(t.Insert(id, key, params), key, i, |t.Bucket(key)|);
      } else {
        MisroutedIsInconsistent(t.Insert(id, key, params), id, held);
      }
    }
  }

  lemma RekeyOntoAnotherBreaks(t: Tables, was: string, now: string)
    requires Consistent(t) && was in t.byId && now in t.byId && now != was
    ensures !Consistent(t.Rekey(was, now))
  {
    var from, held := t.byId[was].key, t.byId[now].key;
    var to := t.Rekey(was, now);
    ConsistentMeans(t, was, from);
    ConsistentMeans(t, now, held);
    var j :| 0 <= j < |t.Bucket(held)| && t.Bucket(held)[j] == now;
    assert to.Bucket(held)[j] == now;
    if from == held {
      var i :| 0 <= i < |t.Bucket(from)| && t.Bucket(from)[i] == was;
      assert to.Bucket(from)[i] == now;
      DoubledIsInconsistent(to, from, if i < j then i else j, if i < j then j else i);
    } else {
      MisroutedIsInconsistent(to, now, held);
    }
  }

  /** Rekeying onto an id that another subscription holds merges the two; otherwise it is safe. */
  lemma RekeyIsSafeExactlyWhenFree(t: Tables, was: string, now: string)
    requires Consistent(t)
    ensures Consistent(t.Rekey(was, now)) <==> was !in t.byId || now == was || now !in t.byId
  {
    if was in t.byId && now in t.byId && now != was {
      RekeyOntoAnotherBreaks(t, was, now);
    } else {
      var list :| Agrees(t, list);
      RekeyAgrees(t, list, was, now);
    }
  }

  lemma RemoveIsSafe(t: Tables, id: string)
    requires Consistent(t)
    ensures Consistent(t.Remove(id))
  {
    var list :| Agrees(t, list);
    RemoveAgrees(t, list, id);
  }

  lemma StatesAreSafe(t: Tables, state: SubState, id: string)
    requires Consistent(t)
    ensures Consistent(t.SetStates(state)) && Consistent(t.Acknowledge(id))
  {
    var list :| Agrees(t, list);
    SetStatesAgrees(t, list, state);
    AcknowledgeAgrees(t, list, id);
  }

  /** Subscribing twice under one id routes its events twice. */
  lemma TheSameIdTwiceBreaksRouting(id: string, key: StreamKey, params: seq<Json>)
    ensures var once := Tables(map[], map[]).Insert(id, key, params);
            Consistent(once) && !Consistent(once.Insert(id, key, params))
  {
    var none := Tables(map[], map[]);
    assert Agrees(none, []);
    InsertIsSafeExactlyWhenFresh(none, id, key, params);
    InsertIsSafeExactlyWhenFresh(none.Insert(id, key, params), id, key, params);
  }

  // ---- every run ------------------------------------------------------------------------

  datatype Operation =
    | Subscribe(id: string, key: StreamKey, params: seq<Json>)
    | Unsubscribe(id: string)
    | Reassign(was: string, now: string)
    | Ready(id: string)
    | Lost
    | Replayed

  function Apply(t: Tables, op: Operation): Tables {
    match op
    case Subscribe(id, key, params) => t.Insert(id, key, params)
    case Unsubscribe(id) => t.Remove(id)
    case Reassign(was, now) => t.Rekey(was, now)
    case Ready(id) => t.Acknowledge(id)
    case Lost => t.SetStates(Inactive)
    case Replayed => t.SetStates(Pending)
  }

  /** The same operation on the simple form. */
  function Simply(list: seq<Remembered>, op: Operation): seq<Remembered> {
    match op
    case Subscribe(id, key, params) => list + [Remembered(id, Entry(key, params, Pending))]
    case Unsubscribe(id) => Forgotten(list, id)
    case Reassign(was, now) => Moved(list, was, now)
    case Ready(id) => WithAcknowledged(list, id)
    case Lost => InState(list, Inactive)
    case Replayed => InState(list, Pending)
  }

  /** The caller's side: an id that is brought in is not in use. */
  predicate Fresh(t: Tables, op: Operation) {
    match op
    case Subscribe(id, _, _) => id !in t.byId
    case Reassign(was, now) => was !in t.byId || now == was || now !in t.byId
    case _ => true
  }

  function Run(ops: seq<Operation>): Tables {
    if ops == [] then Tables(map[], map[]) else Apply(Run(ops[..|ops| - 1]), ops[|ops| - 1])
  }

  function SimpleRun(ops: seq<Operation>): seq<Remembered> {
    if ops == [] then [] else Simply(SimpleRun(ops[..|ops| - 1]), ops[|ops| - 1])
  }

  ghost predicate AlwaysFresh(ops: seq<Operation>) {
    forall k | 0 <= k < |ops| :: Fresh(Run(ops[..k]), ops[k])
  }

  lemma OperationAgrees(t: Tables, list: seq<Remembered>, op: Operation)
    requires Agrees(t, list) && Fresh(t, op)
    ensures Agrees(Apply(t, op), Simply(list, op))
  {
    hide Agrees, Forgotten, Moved, InState, WithAcknowledged;
    match op
    case Subscribe(id, key, params) => InsertAgrees(t, list, id, key, params);
    case Unsubscribe(id) => RemoveAgrees(t, list, id);
    case Reassign(was, now) => RekeyAgrees(t, list, was, now);
    case Ready(id) => AcknowledgeAgrees(t, list, id);
    case Lost => SetStatesAgrees(t, list, Inactive);
    case Replayed => SetStatesAgrees(t, list, Pending);
  }

  lemma OperationIsSafeExactlyWhenFresh(t: Tables, op: Operation)
    requires Consistent(t)
    ensures Consistent(Apply(t, op)) <==> Fresh(t, op)
  {
    hide Consistent;
    match op
    case Subscribe(id, key, params) => InsertIsSafeExactlyWhenFresh(t, id, key, params);
    case Unsubscribe(id) => RemoveIsSafe(t, id);
    case Reassign(was, now) => RekeyIsSafeExactlyWhenFree(t, was, now);
    case Ready(id) => StatesAreSafe(t, Pending, id);
    case Lost => StatesAreSafe(t, Inactive, "");
    case Replayed => StatesAreSafe(t, Pending, "");
  }

  lemma FreshBefore(ops: seq<Operation>)
    requires ops != []
    ensures AlwaysFresh(ops) <==> AlwaysFresh(ops[..|ops| - 1]) && Fresh(Run(ops[..|ops| - 1]), ops[|ops| - 1])
  {
    hide Fresh, Run;
    var before := ops[..|ops| - 1];
    assert forall k | 0 <= k < |before| :: before[..k] == ops[..k] && before[k] == ops[k];
    if AlwaysFresh(before) && Fresh(Run(before), ops[|before|]) {
      forall k | 0 <= k < |ops| ensures Fresh(Run(ops[..k]), ops[k]) {
        if k < |before| {
          assert Fresh(Run(before[..k]), before[k]);
        }
      }
    }
  }

  /**
   * In every run that brings fresh ids, through subscriptions, losses, replays and answers, the tables
   * say what the list says, and the ids routed for a key are the list's, filtered by that key, in order.
   */
  lemma {:induction false} EveryRunRoutes(ops: seq<Operation>, key: StreamKey)
    requires AlwaysFresh(ops)
    ensures Agrees(Run(ops), SimpleRun(ops))
    ensures Run(ops).Bucket(key) == IdsFor(SimpleRun(ops), key)
  {
    if ops != [] {
      FreshBefore(ops);
      hide AlwaysFresh, Fresh, Apply, Simply, Agrees;
      EveryRunRoutes(ops[..|ops| - 1], key);
      OperationAgrees(Run(ops[..|ops| - 1]), SimpleRun(ops[..|ops| - 1]), ops[|ops| - 1]);
    }
    BucketIsFiltered(Run(ops), SimpleRun(ops), key);
  }

  lemma BucketIsFiltered(t: Tables, list: seq<Remembered>, key: StreamKey)
    requires Agrees(t, list)
    ensures t.Bucket(key) == IdsFor(list, key)
  {
    hide IdsFor, Distinct, Entries;
  }

  /** Routing is consistent after every operation of a run exactly when every id brought in was fresh. */
  lemma {:induction false} RoutingStaysConsistentExactlyWhileFresh(ops: seq<Operation>)
    ensures (forall k | 0 <= k <= |ops| :: Consistent(Run(ops[..k]))) <==> AlwaysFresh(ops)
  {
    hide Consistent, Fresh, Apply;
    if ops == [] {
      EmptyIsConsistent();
      assert ops[..0] == [];
    } else {
      var before := ops[..|ops| - 1];
      assert forall k | 0 <= k <= |before| :: before[..k] == ops[..k];
      assert ops[..|ops|] == ops && before[..|before|] == before;
      RoutingStaysConsistentExactlyWhileFresh(before);
      FreshBefore(ops);
      if Consistent(Run(before)) {
        OperationIsSafeExactlyWhenFresh(Run(before), ops[|ops| - 1]);
      }
    }
  }

  lemma EmptyIsConsistent()
    ensures Consistent(Run([]))
  {
    assert Agrees(Run([]), []);
  }

  // ---- replay order ---------------------------------------------------------------------

  /** The order of strings: by the first character that differs, and a proper prefix first. */
  predicate Before(a: string, b: string) {
    b != [] && (a == [] || a[0] < b[0] || (a[0] == b[0] && Before(a[1..], b[1..])))
  }

  lemma {:induction false} BeforeIsTotal(a: string, b: string)
    ensures Before(a, b) || Before(b, a) || a == b
    ensures !(Before(a, b) && Before(b, a)) && !Before(a, a)
  {
    if a != [] {
      BeforeIsTotal(a[1..], a[1..]);
      if b != [] && a[0] == b[0] {
        BeforeIsTotal(a[1..], b[1..]);
        assert a == [a[0]] + a[1..] && b == [b[0]] + b[1..];
      }
    }
  }

  lemma {:induction false} BeforeIsTransitive(a: string, b: string, c: string)
    requires Before(a, b) && Before(b, c)
    ensures Before(a, c)
  {
    if a != [] && a[0] == b[0] && b[0] == c[0] {
      BeforeIsTransitive(a[1..], b[1..], c[1..]);
    }
  }

  ghost predicate Ascending(list: seq<Remembered>) {
    forall i, j | 0 <= i < j < |list| :: Before(list[i].id, list[j].id)
  }

  /** Everything in `byId`, in ascending order of id. */
  ghost predicate InReplayOrder(byId: map<string, Entry>, list: seq<Remembered>) {
    Ascending(list) && Entries(byId, list)
  }

  lemma LastIsGreatest(byId: map<string, Entry>, list: seq<Remembered>, id: string)
    requires InReplayOrder(byId, list) && id in byId
    ensures list != [] && !Before(list[|list| - 1].id, id)
  {
    var i :| 0 <= i < |list| && list[i].id == id;
    BeforeIsTotal(id, list[|list| - 1].id);
  }

  lemma SameLast(byId: map<string, Entry>, one: seq<Remembered>, two: seq<Remembered>)
    requires InReplayOrder(byId, one) && InReplayOrder(byId, two) && one != []
    ensures two != [] && one[|one| - 1] == two[|two| - 1]
  {
    var last := one[|one| - 1];
    LastIsGreatest(byId, two, last.id);
    var final := two[|two| - 1];
    LastIsGreatest(byId, one, final.id);
    BeforeIsTotal(last.id, final.id);
  }

  lemma SomethingListed(byId: map<string, Entry>, list: seq<Remembered>)
    requires Entries(byId, list) && list != []
    ensures byId != map[]
  {
    assert list[0].id in byId;
  }

  /** Only one list is in replay order, so replay does not depend on how the table iterates. */
  lemma {:induction false} ReplayOrderIsUnique(byId: map<string, Entry>, one: seq<Remembered>, two: seq<Remembered>)
    requires InReplayOrder(byId, one) && InReplayOrder(byId, two)
    ensures one == two
    decreases |one|
  {
    hide Before, Ascending;
    if one == [] {
      assert byId == map[];
      if two != [] {
        SomethingListed(byId, two);
      }
    } else {
      hide InReplayOrder;
      SameLast(byId, one, two);
      DropLast(byId, one);
      DropLast(byId, two);
      var last := one[|one| - 1];
      ReplayOrderIsUnique(byId - {last.id}, one[..|one| - 1], two[..|two| - 1]);
      assert one == one[..|one| - 1] + [last] && two == two[..|two| - 1] + [last];
    }
  }

  lemma DropLast(byId: map<string, Entry>, list: seq<Remembered>)
    requires InReplayOrder(byId, list) && list != []
    ensures InReplayOrder(byId - {list[|list| - 1].id}, list[..|list| - 1])
  {
    var before, last := list[..|list| - 1], list[|list| - 1];
    forall i | 0 <= i < |before| ensures before[i].id != last.id {
      BeforeIsTotal(last.id, last.id);
      assert Before(list[i].id, last.id);
    }
    forall id | id in byId - {last.id} ensures Listed(before, id) {
      var i :| 0 <= i < |list| && list[i].id == id;
      assert before[i].id == id;
    }
  }

  /** Remembers what was subscribed to, and routes events. */
  class Registry {
    var byId: map<string, Entry>
    var byKey: map<StreamKey, seq<string>>

    ghost function Contents(): Tables
      reads this
    {
      Tables(byId, byKey)
    }

    constructor ()
      ensures Contents() == Tables(map[], map[])
      ensures Agrees(Contents(), [])
    {
      byId, byKey := map[], map[];
    }

    method Insert(id: string, key: StreamKey, params: seq<Json>)
      modifies this
      ensures Contents() == old(Contents()).Insert(id, key, params)
    {
      byKey := byKey[key := (if key in byKey then byKey[key] else []) + [id]];
      byId := byId[id := Entry(key, params, Pending)];
    }

    method MarkReady(id: string) returns (known: bool)
      modifies this`byId
      ensures known == (id in old(byId))
      ensures Contents() == old(Contents()).Acknowledge(id)
    {
      known := id in byId;
      if known {
        byId := byId[id := byId[id].(state := Acknowledged)];
      }
    }

    method Remove(id: string) returns (known: bool)
      modifies this
      ensures known == (id in old(byId))
      ensures Contents() == old(Contents()).Remove(id)
    {
      if id !in byId {
        return false;
      }
      var entry := byId[id];
      byId := byId - {id};
      if entry.key in byKey {
        var bucket, kept := byKey[entry.key], [];
        for i := 0 to |bucket|
          invariant kept == Without(bucket[..i], id)
          invariant byId == old(byId) - {id} && byKey == old(byKey)
        {
          WithoutAppend(bucket[..i], bucket[i], id);
          assert bucket[..i] + [bucket[i]] == bucket[..i + 1];
          if bucket[i] != id {
            kept := kept + [bucket[i]];
          }
        }
        assert bucket[..|bucket|] == bucket;
        byKey := if kept == [] then byKey - {entry.key} else byKey[entry.key := kept];
      } else {
        assert byKey == byKey - {entry.key};
      }
      return true;
    }

    /** One loop over the entries, whatever order the table iterates in. */
    method SetStates(state: SubState)
      modifies this`byId
      ensures Contents() == old(Contents()).SetStates(state)
    {
      var left := byId.Keys;
      while left != {}
        invariant left <= byId.Keys == old(byId).Keys
        invariant forall id | id in byId ::
          byId[id] == if id in left then old(byId)[id] else old(byId)[id].(state := state)
      {
        var id :| id in left;
        byId := byId[id := byId[id].(state := state)];
        left := left - {id};
      }
    }

    method ConnectionLost()
      modifies this`byId
      ensures Contents() == old(Contents()).SetStates(Inactive)
    {
      SetStates(Inactive);
    }

    method MarkReplayed()
      modifies this`byId
      ensures Contents() == old(Contents()).SetStates(Pending)
    {
      SetStates(Pending);
    }

    method Rekey(was: string, now: string) returns (known: bool)
      modifies this
      ensures known == (was in old(byId))
      ensures Contents() == old(Contents()).Rekey(was, now)
    {
      if was !in byId {
        return false;
      }
      var entry := byId[was];
      byId := byId - {was};
      if entry.key in byKey {
        var bucket := byKey[entry.key];
        for i := 0 to |bucket|
          invariant |bucket| == |old(byKey)[entry.key]|
          invariant forall j | 0 <= j < |bucket| ::
            bucket[j] == (if j < i && old(byKey)[entry.key][j] == was then now else old(byKey)[entry.key][j])
        {
          if bucket[i] == was {
            bucket := bucket[i := now];
          }
        }
        assert bucket == Renamed(byKey[entry.key], was, now);
        byKey := byKey[entry.key := bucket];
      }
      byId := byId[now := entry.(state := Pending)];
      return true;
    }

    method Subscribers(key: StreamKey) returns (ids: seq<string>)
      ensures ids == Contents().Bucket(key)
    {
      ids := if key in byKey then byKey[key] else [];
    }

    /** Everything to send again after logging back in, under its old id, in ascending order of id. */
    method ToReplay() returns (replay: seq<Remembered>)
      ensures InReplayOrder(byId, replay)
    {
      replay := [];
      var left := byId.Keys;
      while left != {}
        invariant left <= byId.Keys
        invariant InReplayOrder(byId - left, replay)
      {
        var id :| id in left;
        var at := |replay|;
        while at > 0 && Before(id, replay[at - 1].id)
          invariant 0 <= at <= |replay|
          invariant forall i | at <= i < |replay| :: Before(id, replay[i].id)
        {
          at := at - 1;
        }
        PlacedInOrder(byId - left, replay, at, Remembered(id, byId[id]));
        replay := replay[..at] + [Remembered(id, byId[id])] + replay[at..];
        assert (byId - left)[id := byId[id]] == byId - (left - {id});
        left := left - {id};
      }
      assert byId - {} == byId;
    }
  }

  lemma PlacedAscending(list: seq<Remembered>, at: nat, sub: Remembered)
    requires Ascending(list) && at <= |list|
    requires at > 0 ==> Before(list[at - 1].id, sub.id)
    requires forall i | at <= i < |list| :: Before(sub.id, list[i].id)
    ensures Ascending(list[..at] + [sub] + list[at..])
  {
    forall i | 0 <= i < at ensures Before(list[i].id, sub.id) {
      if i < at - 1 {
        BeforeIsTransitive(list[i].id, list[at - 1].id, sub.id);
      }
    }
    hide Before;
  }

  lemma PlacedEntries(byId: map<string, Entry>, list: seq<Remembered>, at: nat, sub: Remembered)
    requires Entries(byId, list) && at <= |list| && sub.id !in byId
    ensures Entries(byId[sub.id := sub.entry], list[..at] + [sub] + list[at..])
  {
    var more, grown := list[..at] + [sub] + list[at..], byId[sub.id := sub.entry];
    forall id | id in grown ensures Listed(more, id) {
      if id == sub.id {
        assert more[at].id == id;
      } else {
        assert Listed(list, id);
        var i :| 0 <= i < |list| && list[i].id == id;
        assert more[if i < at then i else i + 1].id == id;
      }
    }
    hide Listed;
    forall i | 0 <= i < |more| ensures more[i].id in grown && grown[more[i].id] == more[i].entry {
      if i != at {
        assert more[i] == list[if i < at then i else i - 1];
      }
    }
  }

  lemma PlacedInOrder(byId: map<string, Entry>, list: seq<Remembered>, at: nat, sub: Remembered)
    requires InReplayOrder(byId, list) && at <= |list| && sub.id !in byId
    requires at > 0 ==> !Before(sub.id, list[at - 1].id)
    requires forall i | at <= i < |list| :: Before(sub.id, list[i].id)
    ensures InReplayOrder(byId[sub.id := sub.entry], list[..at] + [sub] + list[at..])
  {
    if at > 0 {
      BeforeIsTotal(list[at - 1].id, sub.id);
    }
    hide Before, Ascending;
    PlacedAscending(list, at, sub);
    PlacedEntries(byId, list, at, sub);
  }
}
