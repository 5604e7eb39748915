/** Messages by id and, per room, a bounded ring of ids, newest first. */
module MessageShelf {
  import opened Prelude
  import opened CacheDocuments
  import opened Sequences

  datatype Settings = Settings(wanted: bool, capacity: nat, tombstones: TombstonePolicy)

  /** The first of the items, as many as fit. */
  function Shortened<T>(items: seq<T>, capacity: nat): (kept: seq<T>)
    ensures kept <= items && |kept| == if |items| <= capacity then |items| else capacity
  {
    if |items| <= capacity then items else items[..capacity]
  }

  function Elements<T>(items: seq<T>): set<T> {
    set item | item in items
  }

  datatype Shelf = Shelf(messages: map<string, Message>, rings: map<string, seq<string>>) {
    function Ring(rid: string): seq<string> {
      if rid in rings then rings[rid] else []
    }

    function Link(rid: string, id: string, capacity: nat): Shelf {
      var ring := [id] + Ring(rid);
      var kept := Shortened(ring, capacity);
      Shelf(messages - Elements(ring[|kept|..]), rings[rid := kept])
    }

    function Unlink(rid: string, id: string): Shelf {
      if rid !in rings then this
      else
        var kept := Without(rings[rid], id);
        this.(rings := if kept == [] then rings - {rid} else rings[rid := kept])
    }

    function RemoveIn(rid: string, id: string): Shelf {
      Shelf(messages - {id}, rings).Unlink(rid, id)
    }

    function Remove(id: string): Shelf {
      if id in messages then RemoveIn(messages[id].rid, id) else this
    }

    function RemoveRoom(rid: string): Shelf {
      Shelf(messages - Elements(Ring(rid)), rings - {rid})
    }

    function Put(incoming: Message, mode: StoreMode, capacity: nat): Shelf {
      if incoming.id in messages then
        this.(messages := messages[incoming.id := messages[incoming.id].StoredAs(incoming, mode)])
      else
        Shelf(messages[incoming.id := incoming], rings).Link(incoming.rid, incoming.id, capacity)
    }

    function Store(incoming: Message, mode: StoreMode, settings: Settings): Shelf {
      if !settings.wanted || settings.capacity == 0 then this
      else if incoming.IsTombstone() then
        match settings.tombstones
        case Evict => RemoveIn(incoming.rid, incoming.id)
        case KeepReplaced => Put(incoming, Replace, settings.capacity)
      else Put(incoming, mode, settings.capacity)
    }
  }

  const EMPTY := Shelf(map[], map[])

  // ---- the simple form: each room's messages, newest first ------------------------------

  type Rooms = map<string, seq<Message>>

  function InRoom(rooms: Rooms, rid: string): seq<Message> {
    if rid in rooms then rooms[rid] else []
  }

  function WithRoom(rooms: Rooms, rid: string, list: seq<Message>): Rooms {
    if list == [] then rooms - {rid} else rooms[rid := list]
  }

  predicate Holds(list: seq<Message>, id: string) {
    exists i | 0 <= i < |list| :: list[i].id == id
  }

  function Except(list: seq<Message>, id: string): seq<Message> {
    if list == [] then []
    else
      var before, last := Except(list[..|list| - 1], id), list[|list| - 1];
      if last.id == id then before else before + [last]
  }

  /** An update keeps the message where it is. */
  function InPlace(list: seq<Message>, incoming: Message, mode: StoreMode): seq<Message> {
    seq(|list|, i requires 0 <= i < |list| =>
      if list[i].id == incoming.id then list[i].StoredAs(incoming, mode) else list[i])
  }

  function Arrive(rooms: Rooms, incoming: Message, mode: StoreMode, capacity: nat): Rooms {
    var list := InRoom(rooms, incoming.rid);
    WithRoom(rooms, incoming.rid,
             if Holds(list, incoming.id) then InPlace(list, incoming, mode)
             else Shortened([incoming] + list, capacity))
  }

  function Leave(rooms: Rooms, rid: string, id: string): Rooms {
    WithRoom(rooms, rid, Except(InRoom(rooms, rid), id))
  }

  function Receive(rooms: Rooms, incoming: Message, mode: StoreMode, settings: Settings): Rooms {
    if !settings.wanted || settings.capacity == 0 then rooms
    else if incoming.IsTombstone() && settings.tombstones == Evict then Leave(rooms, incoming.rid, incoming.id)
    else Arrive(rooms, incoming, if incoming.IsTombstone() then Replace else mode, settings.capacity)
  }

  // ---- agreement of the rings with the messages ------------------------------------------

  /** A ring is never empty, never over capacity, and lists distinct messages of its own room. */
  ghost predicate RingsAgree(s: Shelf, capacity: nat) {
    forall rid | rid in s.rings ::
      && 0 < |s.rings[rid]| <= capacity
      && NoRepeats(s.rings[rid])
      && forall id | id in s.rings[rid] :: id in s.messages && s.messages[id].rid == rid
  }

  ghost predicate Filed(s: Shelf) {
    forall id | id in s.messages :: s.messages[id].id == id && id in s.Ring(s.messages[id].rid)
  }

  ghost predicate Agrees(s: Shelf, capacity: nat) {
    RingsAgree(s, capacity) && Filed(s)
  }

  function Listing(messages: map<string, Message>, ring: seq<string>): seq<Message>
    requires forall id | id in ring :: id in messages
  {
    seq(|ring|, i requires 0 <= i < |ring| => messages[ring[i]])
  }

  /** What the shelf means: each room's messages, newest first. */
  function Meaning(s: Shelf): Rooms
    requires forall rid, id | rid in s.rings && id in s.rings[rid] :: id in s.messages
  {
    map rid | rid in s.rings :: Listing(s.messages, s.rings[rid])
  }

  // ---- sequences -------------------------------------------------------------------------

  lemma ElementsConcat<T>(front: seq<T>, back: seq<T>)
    ensures Elements(front + back) == Elements(front) + Elements(back)
  {
  }

  lemma {:induction false} ListingWithout(messages: map<string, Message>, ring: seq<string>, id: string)
    requires forall x | x in ring :: x in messages && messages[x].id == x
    ensures forall x | x in Without(ring, id) :: x in messages && x != id
    ensures Listing(messages, Without(ring, id)) == Except(Listing(messages, ring), id)
  {
    WithoutMembers(ring, id);
    if ring != [] {
      var before, last := ring[..|ring| - 1], ring[|ring| - 1];
      ListingWithout(messages, before, id);
      assert Listing(messages, ring)[..|before|] == Listing(messages, before);
      if last != id {
        assert Listing(messages, Without(before, id) + [last]) ==
          Listing(messages, Without(before, id)) + [messages[last]];
      }
    }
  }

  /** A listing depends only on the messages it lists. */
  lemma ListingFrame(messages: map<string, Message>, others: map<string, Message>, ring: seq<string>)
    requires forall x | x in ring :: x in messages && x in others && messages[x] == others[x]
    ensures Listing(messages, ring) == Listing(others, ring)
  {
  }

  lemma RoomMeans(s: Shelf, capacity: nat, rid: string)
    requires RingsAgree(s, capacity)
    ensures InRoom(Meaning(s), rid) == Listing(s.messages, s.Ring(rid))
  {
  }

  /** Outside room `rid` nothing changed. */
  ghost predicate OnlyRoom(s: Shelf, to: Shelf, rid: string) {
    && (forall r | r != rid :: s.Ring(r) == to.Ring(r) && (r in s.rings <==> r in to.rings))
    && (forall r, x | r != rid && r in s.rings && x in s.rings[r] ::
          x in s.messages && x in to.messages && s.messages[x] == to.messages[x])
  }

  /** When only one room changed, the meaning changed in that room only. */
  lemma OneRoomMeans(s: Shelf, to: Shelf, capacity: nat, rid: string)
    requires RingsAgree(s, capacity) && RingsAgree(to, capacity) && OnlyRoom(s, to, rid)
    ensures Meaning(to) == WithRoom(Meaning(s), rid, Listing(to.messages, to.Ring(rid)))
  {
    var list := Listing(to.messages, to.Ring(rid));
    MeaningHas(s, capacity, rid);
    MeaningHas(to, capacity, rid);
    forall r | r != rid
      ensures r in Meaning(to) <==> r in Meaning(s)
      ensures r in Meaning(to) ==> Meaning(to)[r] == Meaning(s)[r]
    {
      MeaningHas(s, capacity, r);
      MeaningHas(to, capacity, r);
      if r in to.rings {
        OtherRoomMeans(s, to, capacity, rid, r);
      }
    }
    hide Meaning, Listing, RingsAgree, OnlyRoom;
    forall r ensures r in Meaning(to) <==> r in WithRoom(Meaning(s), rid, list) { }
    forall r | r in Meaning(to) ensures Meaning(to)[r] == WithRoom(Meaning(s), rid, list)[r] { }
  }

  lemma MeaningHas(s: Shelf, capacity: nat, rid: string)
    requires RingsAgree(s, capacity)
    ensures rid in Meaning(s) <==> rid in s.rings
    ensures rid in s.rings ==> Meaning(s)[rid] == Listing(s.messages, s.Ring(rid)) != []
    ensures rid !in s.rings ==> Listing(s.messages, s.Ring(rid)) == []
  {
  }

  lemma OtherRoomMeans(s: Shelf, to: Shelf, capacity: nat, rid: string, r: string)
    requires RingsAgree(s, capacity) && RingsAgree(to, capacity) && OnlyRoom(s, to, rid)
    requires r in to.rings && r != rid
    ensures r in s.rings && Meaning(to)[r] == Meaning(s)[r]
  {
    assert s.Ring(r) == to.Ring(r);
    ListingFrame(s.messages, to.messages, s.rings[r]);
  }

  // ---- a new message ----------------------------------------------------------------------

  lemma LinkedRing(s: Shelf, incoming: Message, capacity: nat)
    requires capacity > 0 && Agrees(s, capacity) && incoming.id !in s.messages
    ensures var ring := [incoming.id] + s.Ring(incoming.rid);
            var kept := Shortened(ring, capacity);
            && NoRepeats(ring) && 0 < |kept| <= capacity && kept[0] == incoming.id
            && Elements(kept) !! Elements(ring[|kept|..])
            && Elements(kept) + Elements(ring[|kept|..]) == Elements(ring)
  {
    var ring := [incoming.id] + s.Ring(incoming.rid);
    var kept := Shortened(ring, capacity);
    assert ring == kept + ring[|kept|..];
    assert forall x | x in s.Ring(incoming.rid) :: x in s.messages;
  }

  lemma LinkAgrees(s: Shelf, incoming: Message, capacity: nat)
    requires capacity > 0 && Agrees(s, capacity) && incoming.id !in s.messages
    ensures Agrees(s.Put(incoming, Merge, capacity), capacity)
  {
    LinkedRing(s, incoming, capacity);
    var to := s.Put(incoming, Merge, capacity);
    var ring := [incoming.id] + s.Ring(incoming.rid);
    var kept := Shortened(ring, capacity);
    forall rid | rid in to.rings
      ensures 0 < |to.rings[rid]| <= capacity && NoRepeats(to.rings[rid])
      ensures forall id | id in to.rings[rid] :: id in to.messages && to.messages[id].rid == rid
    {
      forall id | id in to.rings[rid] ensures id in to.messages && to.messages[id].rid == rid {
        if rid == incoming.rid {
          assert id in Elements(kept);
          assert id in Elements(ring);
        } else {
          assert id in s.messages && id !in s.Ring(incoming.rid) && id != incoming.id;
          assert id !in Elements(ring);
        }
      }
    }
    forall id | id in to.messages ensures to.messages[id].id == id && id in to.Ring(to.messages[id].rid) {
      if to.messages[id].rid == incoming.rid {
        assert id in Elements(ring);
      }
    }
  }

  lemma LinkMeans(s: Shelf, incoming: Message, capacity: nat)
    requires capacity > 0 && Agrees(s, capacity) && incoming.id !in s.messages
    requires Agrees(s.Put(incoming, Merge, capacity), capacity)
    ensures Meaning(s.Put(incoming, Merge, capacity)) == Arrive(Meaning(s), incoming, Merge, capacity)
  {
    var to := s.Put(incoming, Merge, capacity);
    RoomMeans(s, capacity, incoming.rid);
    NotHeld(s, capacity, incoming);
    RingStart(s, to, incoming, capacity);
    LinkOnlyRoom(s, to, incoming, capacity);
    hide Meaning, OnlyRoom, Agrees, RingsAgree, Listing;
    OneRoomMeans(s, to, capacity, incoming.rid);
  }

  lemma NotHeld(s: Shelf, capacity: nat, incoming: Message)
    requires Agrees(s, capacity) && incoming.id !in s.messages
    ensures !Holds(Listing(s.messages, s.Ring(incoming.rid)), incoming.id)
  {
    var ring := s.Ring(incoming.rid);
    forall i | 0 <= i < |ring| ensures Listing(s.messages, ring)[i].id != incoming.id {
      assert ring[i] in s.messages;
    }
  }

  lemma LinkOnlyRoom(s: Shelf, to: Shelf, incoming: Message, capacity: nat)
    requires capacity > 0 && Agrees(s, capacity) && incoming.id !in s.messages
    requires to == s.Put(incoming, Merge, capacity) && Agrees(to, capacity)
    ensures OnlyRoom(s, to, incoming.rid)
  {
    forall r, x | r != incoming.rid && r in s.rings && x in s.rings[r]
      ensures x in s.messages && x in to.messages && s.messages[x] == to.messages[x]
    {
      assert x in to.rings[r];
    }
  }

  lemma RingStart(s: Shelf, to: Shelf, incoming: Message, capacity: nat)
    requires capacity > 0 && Agrees(s, capacity) && incoming.id !in s.messages
    requires to == s.Put(incoming, Merge, capacity) && Agrees(to, capacity)
    ensures Listing(to.messages, to.Ring(incoming.rid)) ==
            Shortened([incoming] + Listing(s.messages, s.Ring(incoming.rid)), capacity)
  {
    var rest := s.Ring(incoming.rid);
    var ring, more := [incoming.id] + rest, s.messages[incoming.id := incoming];
    var kept := to.Ring(incoming.rid);
    assert forall x | x in kept :: x in to.messages;
    assert forall x | x in to.messages :: x in more && to.messages[x] == more[x];
    assert forall x | x in rest :: x in s.messages && x != incoming.id;
    assert kept == Shortened(ring, capacity);
    hide Agrees, Listing;
    ListingFrame(to.messages, more, kept);
    ListingStart(s.messages, incoming, rest, capacity);
  }

  lemma ListingStart(messages: map<string, Message>, incoming: Message, rest: seq<string>, capacity: nat)
    requires forall x | x in rest :: x in messages && x != incoming.id
    ensures Listing(messages[incoming.id := incoming], Shortened([incoming.id] + rest, capacity)) ==
            Shortened([incoming] + Listing(messages, rest), capacity)
  {
    var ring, more := [incoming.id] + rest, messages[incoming.id := incoming];
    var list := Listing(messages, rest);
    forall i | 0 <= i < |ring| ensures ring[i] in more && more[ring[i]] == ([incoming] + list)[i] {
      if i > 0 {
        assert ring[i] == rest[i - 1] && rest[i - 1] in rest;
        assert list[i - 1] == messages[rest[i - 1]];
        assert ([incoming] + list)[i] == list[i - 1];
      }
    }
  }

  // ---- an update in place ------------------------------------------------------------------

  lemma UpdateAgrees(s: Shelf, incoming: Message, mode: StoreMode, capacity: nat)
    requires Agrees(s, capacity) && incoming.id in s.messages
    ensures Agrees(s.Put(incoming, mode, capacity), capacity) <==> s.messages[incoming.id].rid == incoming.rid
  {
    var was := s.messages[incoming.id];
    var to := s.Put(incoming, mode, capacity);
    assert was.StoredAs(incoming, mode).rid == incoming.rid && was.StoredAs(incoming, mode).id == incoming.id;
    assert was.id == incoming.id && incoming.id in s.Ring(was.rid);
    if was.rid != incoming.rid {
      assert to.messages[incoming.id].rid != was.rid;
      assert !RingsAgree(to, capacity);
    }
  }

  lemma UpdateMeans(s: Shelf, incoming: Message, mode: StoreMode, capacity: nat)
    requires Agrees(s, capacity) && incoming.id in s.messages && s.messages[incoming.id].rid == incoming.rid
    requires Agrees(s.Put(incoming, mode, capacity), capacity)
    ensures Meaning(s.Put(incoming, mode, capacity)) == Arrive(Meaning(s), incoming, mode, capacity)
  {
    var to := s.Put(incoming, mode, capacity);
    RoomMeans(s, capacity, incoming.rid);
    UpdatedListing(s, to, incoming, mode, capacity);
    assert OnlyRoom(s, to, incoming.rid);
    hide Meaning, OnlyRoom, Agrees, RingsAgree, Listing, InPlace;
    OneRoomMeans(s, to, capacity, incoming.rid);
  }

  /** Storing over a listed message updates the listing in place. */
  lemma ListingUpdated(messages: map<string, Message>, ring: seq<string>, incoming: Message, mode: StoreMode)
    requires forall x | x in ring :: x in messages && messages[x].id == x
    requires incoming.id in ring
    ensures Listing(messages[incoming.id := messages[incoming.id].StoredAs(incoming, mode)], ring) ==
            InPlace(Listing(messages, ring), incoming, mode)
    ensures Holds(Listing(messages, ring), incoming.id)
  {
    hide Message.StoredAs;
    var list := Listing(messages, ring);
    var at :| 0 <= at < |ring| && ring[at] == incoming.id;
    assert list[at].id == incoming.id;
    assert forall i | 0 <= i < |ring| :: ring[i] in ring;
  }

  lemma UpdatedListing(s: Shelf, to: Shelf, incoming: Message, mode: StoreMode, capacity: nat)
    requires Agrees(s, capacity) && incoming.id in s.messages && s.messages[incoming.id].rid == incoming.rid
    requires to == s.Put(incoming, mode, capacity) && Agrees(to, capacity)
    ensures Listing(to.messages, to.Ring(incoming.rid)) ==
            InPlace(Listing(s.messages, s.Ring(incoming.rid)), incoming, mode)
    ensures Holds(Listing(s.messages, s.Ring(incoming.rid)), incoming.id)
  {
    hide Listing, InPlace, Holds, NoRepeats;
    ListingUpdated(s.messages, s.Ring(incoming.rid), incoming, mode);
  }

  // ---- removal -----------------------------------------------------------------------------

  lemma RemoveInAgrees(s: Shelf, capacity: nat, rid: string, id: string)
    requires Agrees(s, capacity)
    ensures Agrees(s.RemoveIn(rid, id), capacity) <==> (id in s.messages ==> s.messages[id].rid == rid)
  {
    var to := s.RemoveIn(rid, id);
    RingAfterRemoval(s, rid, id);
    if id in s.messages && s.messages[id].rid != rid {
      var home := s.messages[id].rid;
      assert id in to.rings[home] && id !in to.messages;
    } else {
      hide Without;
      StillFiled(s, capacity, rid, id);
      StillInRings(s, capacity, rid, id);
    }
  }

  lemma RingAfterRemoval(s: Shelf, rid: string, id: string)
    ensures var to := s.RemoveIn(rid, id);
            && to.Ring(rid) == Without(s.Ring(rid), id)
            && (forall x :: x in to.Ring(rid) <==> x in s.Ring(rid) && x != id)
            && |to.Ring(rid)| <= |s.Ring(rid)|
            && (NoRepeats(s.Ring(rid)) ==> NoRepeats(to.Ring(rid)))
            && (forall r | r != rid :: to.Ring(r) == s.Ring(r) && (r in s.rings <==> r in to.rings))
            && (rid in s.rings ==> (rid in to.rings <==> to.Ring(rid) != []))
  {
    WithoutMembers(s.Ring(rid), id);
  }

  lemma StillInRing(s: Shelf, to: Shelf, capacity: nat, rid: string, id: string, r: string)
    requires RingsAgree(s, capacity) && (id in s.messages ==> s.messages[id].rid == rid)
    requires to == s.RemoveIn(rid, id) && r in to.rings
    ensures 0 < |to.rings[r]| <= capacity && NoRepeats(to.rings[r])
    ensures forall x | x in to.rings[r] :: x in to.messages && to.messages[x].rid == r
  {
    var ring := s.Ring(r);
    assert to.messages == s.messages - {id} && to.rings[r] == to.Ring(r);
    RingAfterRemoval(s, rid, id);
    hide Without, NoRepeats, Shelf.RemoveIn;
    assert r in s.rings && |ring| <= capacity && NoRepeats(ring);
    assert forall x | x in ring :: x in s.messages && s.messages[x].rid == r;
    hide RingsAgree;
    if r != rid {
      assert to.rings[r] == ring && id !in ring;
    }
  }

  lemma StillInRings(s: Shelf, capacity: nat, rid: string, id: string)
    requires RingsAgree(s, capacity) && (id in s.messages ==> s.messages[id].rid == rid)
    ensures RingsAgree(s.RemoveIn(rid, id), capacity)
  {
    hide Shelf.RemoveIn, NoRepeats;
    var to := s.RemoveIn(rid, id);
    forall r | r in to.rings
      ensures 0 < |to.rings[r]| <= capacity && NoRepeats(to.rings[r])
      ensures forall x | x in to.rings[r] :: x in to.messages && to.messages[x].rid == r
    {
      StillInRing(s, to, capacity, rid, id, r);
    }
  }

  lemma StillFiled(s: Shelf, capacity: nat, rid: string, id: string)
    requires Agrees(s, capacity) && (id in s.messages ==> s.messages[id].rid == rid)
    ensures Filed(s.RemoveIn(rid, id))
  {
    var to := s.RemoveIn(rid, id);
    RingAfterRemoval(s, rid, id);
    hide Without;
    forall x | x in to.messages ensures to.messages[x].id == x && x in to.Ring(to.messages[x].rid) {
      assert x in s.messages && x in s.Ring(s.messages[x].rid);
    }
  }

  lemma RemoveInMeans(s: Shelf, capacity: nat, rid: string, id: string)
    requires Agrees(s, capacity) && (id in s.messages ==> s.messages[id].rid == rid)
    requires Agrees(s.RemoveIn(rid, id), capacity)
    ensures Meaning(s.RemoveIn(rid, id)) == Leave(Meaning(s), rid, id)
  {
    var to := s.RemoveIn(rid, id);
    RoomMeans(s, capacity, rid);
    RemainingListing(s, capacity, rid, id);
    RemovalOnlyRoom(s, capacity, rid, id);
    hide Meaning, OnlyRoom, Agrees, RingsAgree, Listing, Except, Shelf.RemoveIn;
    OneRoomMeans(s, to, capacity, rid);
  }

  lemma RemainingListing(s: Shelf, capacity: nat, rid: string, id: string)
    requires Agrees(s, capacity) && (id in s.messages ==> s.messages[id].rid == rid)
    requires Agrees(s.RemoveIn(rid, id), capacity)
    ensures var to := s.RemoveIn(rid, id);
            Listing(to.messages, to.Ring(rid)) == Except(Listing(s.messages, s.Ring(rid)), id)
  {
    var to := s.RemoveIn(rid, id);
    var ring := s.Ring(rid);
    assert forall x | x in ring :: x in s.messages && s.messages[x].id == x;
    RingAfterRemoval(s, rid, id);
    ListingWithout(s.messages, ring, id);
    hide Without, Agrees, Except;
    ListingFrame(s.messages, to.messages, to.Ring(rid));
  }

  lemma RemovalOnlyRoom(s: Shelf, capacity: nat, rid: string, id: string)
    requires Agrees(s, capacity) && (id in s.messages ==> s.messages[id].rid == rid)
    ensures OnlyRoom(s, s.RemoveIn(rid, id), rid)
  {
    RingAfterRemoval(s, rid, id);
    hide Without;
  }

  lemma RemoveRoomKeepsRings(s: Shelf, capacity: nat, rid: string)
    requires Agrees(s, capacity)
    ensures Agrees(s.RemoveRoom(rid), capacity)
    ensures forall id | id in s.RemoveRoom(rid).messages :: s.messages[id].rid != rid
  {
    hide Listing, Meaning;
  }

  lemma RemoveRoomAgrees(s: Shelf, capacity: nat, rid: string)
    requires Agrees(s, capacity)
    ensures Agrees(s.RemoveRoom(rid), capacity)
    ensures Meaning(s.RemoveRoom(rid)) == Meaning(s) - {rid}
    ensures forall id | id in s.RemoveRoom(rid).messages :: s.messages[id].rid != rid
  {
    var to := s.RemoveRoom(rid);
    RemoveRoomKeepsRings(s, capacity, rid);
    forall other | other in to.rings
      ensures Listing(to.messages, to.rings[other]) == Listing(s.messages, s.rings[other])
    {
      ListingFrame(s.messages, to.messages, s.rings[other]);
    }
    hide Listing, RingsAgree, Filed;
    assert Meaning(to).Keys == (Meaning(s) - {rid}).Keys;
  }

  // ---- every operation -----------------------------------------------------------------------

  datatype Operation =
    | Store(incoming: Message, mode: StoreMode)
    | Remove(id: string)
    | RemoveIn(rid: string, id: string)
    | RemoveRoom(rid: string)
    | Clear

  function Apply(s: Shelf, op: Operation, settings: Settings): Shelf {
    match op
    case Store(incoming, mode) => s.Store(incoming, mode, settings)
    case Remove(id) => s.Remove(id)
    case RemoveIn(rid, id) => s.RemoveIn(rid, id)
    case RemoveRoom(rid) => s.RemoveRoom(rid)
    case Clear => EMPTY
  }

  /** The same operation on the simple form. */
  function Simply(rooms: Rooms, op: Operation, settings: Settings): Rooms {
    match op
    case Store(incoming, mode) => Receive(rooms, incoming, mode, settings)
    case Remove(id) => map rid | rid in rooms && Except(rooms[rid], id) != [] :: Except(rooms[rid], id)
    case RemoveIn(rid, id) => Leave(rooms, rid, id)
    case RemoveRoom(rid) => rooms - {rid}
    case Clear => map[]
  }

  /** The caller's side: a message stays in the room it was first seen in. */
  predicate Stable(s: Shelf, op: Operation, settings: Settings) {
    match op
    case Store(incoming, mode) =>
      settings.wanted && settings.capacity > 0 && incoming.id in s.messages ==>
        s.messages[incoming.id].rid == incoming.rid
    case RemoveIn(rid, id) => id in s.messages ==> s.messages[id].rid == rid
    case _ => true
  }

  /** Rings and messages stay in agreement through an operation exactly when it names the right room. */
  lemma AgreementNeedsTheRightRoom(s: Shelf, op: Operation, settings: Settings)
    requires Agrees(s, settings.capacity)
    ensures Agrees(Apply(s, op, settings), settings.capacity) <==> Stable(s, op, settings)
  {
    hide Agrees, Shelf.RemoveIn, Shelf.RemoveRoom, Shelf.Put;
    match op
    case Store(incoming, mode) =>
      if settings.wanted && settings.capacity > 0 {
        if incoming.IsTombstone() && settings.tombstones == Evict {
          RemoveInAgrees(s, settings.capacity, incoming.rid, incoming.id);
        } else {
          PutAgrees(s, incoming, if incoming.IsTombstone() then Replace else mode, settings.capacity);
        }
      }
    case Remove(id) =>
      if id in s.messages {
        RemoveInAgrees(s, settings.capacity, s.messages[id].rid, id);
      }
    case RemoveIn(rid, id) => RemoveInAgrees(s, settings.capacity, rid, id);
    case RemoveRoom(rid) => RemoveRoomAgrees(s, settings.capacity, rid);
    case Clear => EmptyAgrees(settings.capacity);
  }

  lemma EmptyAgrees(capacity: nat)
    ensures Agrees(EMPTY, capacity) && Meaning(EMPTY) == map[]
  {
  }

  lemma PutAgrees(s: Shelf, incoming: Message, mode: StoreMode, capacity: nat)
    requires capacity > 0 && Agrees(s, capacity)
    ensures Agrees(s.Put(incoming, mode, capacity), capacity) <==>
            (incoming.id in s.messages ==> s.messages[incoming.id].rid == incoming.rid)
  {
    hide Agrees;
    if incoming.id in s.messages {
      UpdateAgrees(s, incoming, mode, capacity);
    } else {
      assert s.Put(incoming, mode, capacity) == s.Put(incoming, Merge, capacity);
      LinkAgrees(s, incoming, capacity);
    }
  }

  lemma PutMeans(s: Shelf, incoming: Message, mode: StoreMode, capacity: nat)
    requires capacity > 0 && Agrees(s, capacity)
    requires incoming.id in s.messages ==> s.messages[incoming.id].rid == incoming.rid
    requires Agrees(s.Put(incoming, mode, capacity), capacity)
    ensures Meaning(s.Put(incoming, mode, capacity)) == Arrive(Meaning(s), incoming, mode, capacity)
  {
    if incoming.id in s.messages {
      UpdateMeans(s, incoming, mode, capacity);
    } else {
      assert s.Put(incoming, mode, capacity) == s.Put(incoming, Merge, capacity);
      LinkMeans(s, incoming, capacity);
      RoomMeans(s, capacity, incoming.rid);
      NotHeld(s, capacity, incoming);
    }
  }

  lemma {:induction false} ExceptAbsent(list: seq<Message>, id: string)
    requires !Holds(list, id)
    ensures Except(list, id) == list
  {
    if list != [] {
      var before := list[..|list| - 1];
      assert forall i | 0 <= i < |before| :: before[i] == list[i];
      ExceptAbsent(before, id);
      assert list == before + [list[|list| - 1]];
    }
  }

  lemma RemoveElsewhere(s: Shelf, capacity: nat, id: string, rid: string)
    requires Agrees(s, capacity) && rid in s.rings && (id in s.messages ==> s.messages[id].rid != rid)
    ensures Except(Meaning(s)[rid], id) == Meaning(s)[rid] != []
  {
    assert forall i | 0 <= i < |s.rings[rid]| :: s.rings[rid][i] in s.rings[rid];
    ExceptAbsent(Meaning(s)[rid], id);
  }

  lemma RemoveNowhere(s: Shelf, capacity: nat, id: string, settings: Settings)
    requires Agrees(s, capacity) && id !in s.messages
    ensures Simply(Meaning(s), Operation.Remove(id), settings) == Meaning(s)
  {
    hide Except, Simply, Listing;
    forall rid | rid in s.rings ensures Except(Meaning(s)[rid], id) == Meaning(s)[rid] != [] {
      RemoveElsewhere(s, capacity, id, rid);
    }
    hide Agrees;
    var rooms := Meaning(s);
    hide Meaning;
    NobodyLeaves(rooms, id, settings);
  }

  lemma NobodyLeaves(rooms: Rooms, id: string, settings: Settings)
    requires forall r | r in rooms :: Except(rooms[r], id) == rooms[r] != []
    ensures Simply(rooms, Operation.Remove(id), settings) == rooms
  {
    hide Except;
  }

  lemma RemoveEverywhere(rooms: Rooms, rid: string, id: string, settings: Settings)
    requires forall r | r in rooms && r != rid :: Except(rooms[r], id) == rooms[r] != []
    ensures Leave(rooms, rid, id) == Simply(rooms, Operation.Remove(id), settings)
  {
    hide Except;
    assert Except([], id) == [] by {
      ExceptAbsent([], id);
    }
  }

  /** Removing a message by id alone takes it out of whichever room lists it. */
  lemma RemoveMeans(s: Shelf, capacity: nat, id: string, settings: Settings)
    requires Agrees(s, capacity)
    requires Agrees(s.Remove(id), capacity)
    ensures Meaning(s.Remove(id)) == Simply(Meaning(s), Operation.Remove(id), settings)
  {
    hide Except, Shelf.RemoveIn, Simply, Listing;
    if id !in s.messages {
      RemoveNowhere(s, capacity, id, settings);
    } else {
      var home := s.messages[id].rid;
      forall rid | rid in s.rings && rid != home ensures Except(Meaning(s)[rid], id) == Meaning(s)[rid] != [] {
        RemoveElsewhere(s, capacity, id, rid);
      }
      RemoveInMeans(s, capacity, home, id);
      RemoveEverywhere(Meaning(s), home, id, settings);
    }
  }

  /** Every operation means on the shelf what it means on the rooms' message lists. */
  lemma OperationMeans(s: Shelf, op: Operation, settings: Settings)
    requires Agrees(s, settings.capacity) && Stable(s, op, settings)
    ensures Agrees(Apply(s, op, settings), settings.capacity)
    ensures Meaning(Apply(s, op, settings)) == Simply(Meaning(s), op, settings)
  {
    AgreementNeedsTheRightRoom(s, op, settings);
    match op
    case Store(incoming, mode) =>
      if settings.wanted && settings.capacity > 0 {
        if incoming.IsTombstone() && settings.tombstones == Evict {
          RemoveInMeans(s, settings.capacity, incoming.rid, incoming.id);
        } else {
          PutMeans(s, incoming, if incoming.IsTombstone() then Replace else mode, settings.capacity);
        }
      }
    case Remove(id) => RemoveMeans(s, settings.capacity, id, settings);
    case RemoveIn(rid, id) => RemoveInMeans(s, settings.capacity, rid, id);
    case RemoveRoom(rid) => RemoveRoomAgrees(s, settings.capacity, rid);
    case Clear => EmptyAgrees(settings.capacity);
  }

  /** An id that turns up in a second room leaves the first room's ring with a message that is not its own. */
  lemma OneIdInTwoRoomsBreaksAgreement(first: Message, settings: Settings)
    requires settings.wanted && settings.capacity > 0 && !first.IsTombstone() && first.rid != "elsewhere"
    ensures var once := EMPTY.Store(first, Replace, settings);
            Agrees(once, settings.capacity) &&
            !Agrees(once.Store(first.(rid := "elsewhere"), Replace, settings), settings.capacity)
  {
    var op := Operation.Store(first, Replace);
    var moved := Operation.Store(first.(rid := "elsewhere"), Replace);
    EmptyAgrees(settings.capacity);
    AgreementNeedsTheRightRoom(EMPTY, op, settings);
    LinkedRing(EMPTY, first, settings.capacity);
    var once := EMPTY.Store(first, Replace, settings);
    var kept := Shortened([first.id] + EMPTY.Ring(first.rid), settings.capacity);
    assert kept[0] in Elements(kept);
    AgreementNeedsTheRightRoom(once, moved, settings);
  }

  /**
   * After a tombstone nothing of the deleted message's old fields is left, under either policy and mode.
   * Evicting it also takes its id out of every ring exactly when the tombstone names the message's room.
   */
  lemma TombstoneStripsTheBody(s: Shelf, incoming: Message, mode: StoreMode, settings: Settings)
    requires Agrees(s, settings.capacity) && settings.wanted && settings.capacity > 0 && incoming.IsTombstone()
    ensures var to := s.Store(incoming, mode, settings);
            match settings.tombstones
            case Evict =>
              && incoming.id !in to.messages
              && ((forall rid :: incoming.id !in to.Ring(rid)) <==>
                Stable(s, Operation.Store(incoming, mode), settings))
            case KeepReplaced => incoming.id in to.messages && to.messages[incoming.id] == incoming
  {
    match settings.tombstones
    case Evict =>
      RingAfterRemoval(s, incoming.rid, incoming.id);
      EvictedEverywhere(s, s.RemoveIn(incoming.rid, incoming.id), incoming, settings.capacity);
    case KeepReplaced =>
      if incoming.id !in s.messages {
        LinkedRing(s, incoming, settings.capacity);
        var kept := Shortened([incoming.id] + s.Ring(incoming.rid), settings.capacity);
        assert kept[0] in Elements(kept);
      }
  }

  lemma EvictedEverywhere(s: Shelf, to: Shelf, incoming: Message, capacity: nat)
    requires Agrees(s, capacity) && incoming.id !in to.Ring(incoming.rid)
    requires forall r | r != incoming.rid :: to.Ring(r) == s.Ring(r)
    ensures (forall rid :: incoming.id !in to.Ring(rid)) <==>
            (incoming.id in s.messages ==> s.messages[incoming.id].rid == incoming.rid)
  {
    if incoming.id in s.messages && s.messages[incoming.id].rid != incoming.rid {
      assert incoming.id in to.Ring(s.messages[incoming.id].rid);
    }
  }

  // ---- every run ------------------------------------------------------------------------------

  function Run(ops: seq<Operation>, settings: Settings): Shelf {
    if ops == [] then EMPTY else Apply(Run(ops[..|ops| - 1], settings), ops[|ops| - 1], settings)
  }

  function SimpleRun(ops: seq<Operation>, settings: Settings): Rooms {
    if ops == [] then map[] else Simply(SimpleRun(ops[..|ops| - 1], settings), ops[|ops| - 1], settings)
  }

  /** The server gives every message one room, for good; removals name that room. */
  predicate AtHome(op: Operation, home: string -> string) {
    match op
    case Store(incoming, _) => incoming.rid == home(incoming.id)
    case RemoveIn(rid, id) => rid == home(id)
    case _ => true
  }

  ghost predicate AllAtHome(s: Shelf, home: string -> string) {
    forall id | id in s.messages :: s.messages[id].rid == home(id)
  }

  lemma StaysAtHome(s: Shelf, op: Operation, settings: Settings, home: string -> string)
    requires AllAtHome(s, home) && AtHome(op, home)
    ensures Stable(s, op, settings) && AllAtHome(Apply(s, op, settings), home)
  {
    hide Without, Shortened;
  }

  /**
   * Through every run in which messages keep their room, the shelf is the rooms' message lists:
   * newest first by arrival, updates in place, cut to capacity, removals and cascades included.
   */
  lemma {:induction false} ShelfIsMessageLists(ops: seq<Operation>, settings: Settings, home: string -> string)
    requires forall i | 0 <= i < |ops| :: AtHome(ops[i], home)
    ensures Agrees(Run(ops, settings), settings.capacity) && AllAtHome(Run(ops, settings), home)
    ensures Meaning(Run(ops, settings)) == SimpleRun(ops, settings)
  {
    hide Agrees, Meaning, Simply, Apply, AtHome, Stable;
    if ops == [] {
      EmptyAgrees(settings.capacity);
    } else {
      var before, last := ops[..|ops| - 1], ops[|ops| - 1];
      ShelfIsMessageLists(before, settings, home);
      StaysAtHome(Run(before, settings), last, settings, home);
      OperationMeans(Run(before, settings), last, settings);
    }
  }
}
