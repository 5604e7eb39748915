/** The entity cache: its maps, rings and queue, changed in place. */
module Cache {
  import opened Prelude
  import opened CacheDocuments
  import opened Sequences
  import NameIndex
  import MessageShelf
  import UserQueue
  import CurrentUser

  method Reindex(index: map<string, string>, was: Option<string>, now: Option<string>, id: string)
    returns (moved: map<string, string>)
    ensures moved == NameIndex.Reindexed(index, was, now, id)
  {
    moved := index;
    if was == now {
      return;
    }
    match was {
      case Some(name) =>
        if name in moved && moved[name] == id {
          moved := moved - {name};
        }
      case None =>
    }
    match now {
      case Some(name) => moved := moved[name := id];
      case None =>
    }
  }

  /** `retain` on a ring or a queue: everything but `id`, in order. */
  method Retain(ids: seq<string>, id: string) returns (kept: seq<string>)
    ensures kept == Without(ids, id)
  {
    kept := [];
    for i := 0 to |ids|
      invariant kept == Without(ids[..i], id)
    {
      WithoutAppend(ids[..i], ids[i], id);
      assert ids[..i + 1] == ids[..i] + [ids[i]];
      if ids[i] != id {
        kept := kept + [ids[i]];
      }
    }
    assert ids[..|ids|] == ids;
  }

  class Cache {
    const messageSettings: MessageShelf.Settings
    const userSettings: UserQueue.Settings
    const wantsRooms: bool
    const wantsSubscriptions: bool
    const wantsCurrentUser: bool

    var rooms: map<string, Named>
    var roomsByName: map<string, string>
    var users: map<string, Named>
    var usersByUsername: map<string, string>
    var userOrder: seq<string>
    var subscriptions: map<string, Membership>
    var messages: map<string, Message>
    var roomMessages: map<string, seq<string>>
    var currentUser: Option<Named>

    ghost function Shelf(): MessageShelf.Shelf
      reads this`messages, this`roomMessages
    {
      MessageShelf.Shelf.Shelf(messages, roomMessages)
    }

    ghost function Users(): UserQueue.Users
      reads this`users, this`usersByUsername, this`userOrder
    {
      UserQueue.Users.Users(NameIndex.Directory(users, usersByUsername), userOrder)
    }

    ghost function Copies(): CurrentUser.Copies
      reads this`users, this`usersByUsername, this`userOrder, this`currentUser
    {
      CurrentUser.Copies.Copies(Users(), currentUser)
    }

    ghost function CopySettings(): CurrentUser.Settings {
      CurrentUser.Settings.Settings(userSettings, wantsCurrentUser)
    }

    ghost function Rooms(): NameIndex.Directory
      reads this`rooms, this`roomsByName
    {
      NameIndex.Directory(rooms, roomsByName)
    }

    constructor (messageSettings: MessageShelf.Settings, userSettings: UserQueue.Settings,
                 wantsRooms: bool, wantsSubscriptions: bool, wantsCurrentUser: bool)
      ensures this.messageSettings == messageSettings && this.userSettings == userSettings
      ensures this.wantsRooms == wantsRooms && this.wantsSubscriptions == wantsSubscriptions
      ensures this.wantsCurrentUser == wantsCurrentUser && currentUser == None
      ensures Shelf() == MessageShelf.EMPTY && Users() == UserQueue.NOBODY && Rooms() == NameIndex.EMPTY
      ensures subscriptions == map[]
    {
      this.messageSettings, this.userSettings := messageSettings, userSettings;
      this.wantsRooms, this.wantsSubscriptions := wantsRooms, wantsSubscriptions;
      this.wantsCurrentUser, currentUser := wantsCurrentUser, None;
      rooms, roomsByName, users, usersByUsername := map[], map[], map[], map[];
      userOrder, subscriptions, messages, roomMessages := [], map[], map[], map[];
    }

    // ---- rooms -----------------------------------------------------------------------------

    method StoreRoom(incoming: Named, mode: StoreMode) returns (previous: Option<Named>)
      modifies this`rooms, this`roomsByName
      ensures Rooms() == if wantsRooms then old(Rooms()).Store(incoming, mode) else old(Rooms())
      ensures previous == if wantsRooms && incoming.id in old(rooms) then Some(old(rooms)[incoming.id]) else None
    {
      if !wantsRooms {
        return None;
      }
      previous := if incoming.id in rooms then Some(rooms[incoming.id]) else None;
      var stored := if previous.Some? then previous.value.StoredAs(incoming, mode) else incoming;
      rooms := rooms[incoming.id := stored];
      var was := if previous.Some? then previous.value.name else None;
      roomsByName := Reindex(roomsByName, was, stored.name, incoming.id);
    }

    /** The room goes, and everything reachable only through it. */
    method RemoveRoom(id: string) returns (removed: Option<Named>)
      modifies this`rooms, this`roomsByName, this`subscriptions, this`messages, this`roomMessages
      ensures Rooms() == old(Rooms()).Drop(id)
      ensures Shelf() == old(Shelf()).RemoveRoom(id)
      ensures subscriptions == old(subscriptions) - {id}
      ensures removed == if id in old(rooms) then Some(old(rooms)[id]) else None
      ensures MessageShelf.Agrees(old(Shelf()), messageSettings.capacity) ==>
                MessageShelf.Agrees(Shelf(), messageSettings.capacity) &&
                forall m | m in messages :: messages[m].rid != id
    {
      removed := if id in rooms then Some(rooms[id]) else None;
      rooms := rooms - {id};
      if removed.Some? && removed.value.name.Some? {
        var name := removed.value.name.value;
        if name in roomsByName && roomsByName[name] == id {
          roomsByName := roomsByName - {name};
        }
      }
      subscriptions := subscriptions - {id};
      if id in roomMessages {
        var ring := roomMessages[id];
        roomMessages := roomMessages - {id};
        RemoveAll(ring);
      } else {
        assert roomMessages - {id} == roomMessages;
        assert messages - MessageShelf.Elements([]) == messages;
      }
      if MessageShelf.Agrees(old(Shelf()), messageSettings.capacity) {
        MessageShelf.RemoveRoomAgrees(old(Shelf()), messageSettings.capacity, id);
      }
    }

    method RemoveAll(victims: seq<string>)
      modifies this`messages
      ensures messages == old(messages) - MessageShelf.Elements(victims)
    {
      for i := 0 to |victims|
        invariant messages == old(messages) - MessageShelf.Elements(victims[..i])
      {
        assert victims[..i + 1] == victims[..i] + [victims[i]];
        messages := messages - {victims[i]};
      }
      assert victims[..|victims|] == victims;
    }

    // ---- users -----------------------------------------------------------------------------

    method StoreUser(incoming: Named, mode: StoreMode) returns (previous: Option<Named>)
      modifies this`users, this`usersByUsername, this`userOrder
      ensures Users() == old(Users()).Store(incoming, mode, userSettings)
      ensures previous ==
              if userSettings.wanted && incoming.id in old(users) then Some(old(users)[incoming.id]) else None
    {
      if !userSettings.wanted {
        return None;
      }
      previous := if incoming.id in users then Some(users[incoming.id]) else None;
      var stored := if previous.Some? then previous.value.StoredAs(incoming, mode) else incoming;
      users := users[incoming.id := stored];
      var was := if previous.Some? then previous.value.name else None;
      usersByUsername := Reindex(usersByUsername, was, stored.name, incoming.id);
      if previous.None? {
        NoteNewUser(incoming.id);
      }
    }

    method DropUser(id: string) returns (removed: Option<Named>)
      modifies this`users, this`usersByUsername
      ensures Users().directory == old(Users()).directory.Drop(id)
      ensures removed == if id in old(users) then Some(old(users)[id]) else None
    {
      removed := if id in users then Some(users[id]) else None;
      users := users - {id};
      if removed.Some? && removed.value.name.Some? {
        var name := removed.value.name.value;
        if name in usersByUsername && usersByUsername[name] == id {
          usersByUsername := usersByUsername - {name};
        }
      }
    }

    method RemoveUser(id: string) returns (removed: Option<Named>)
      modifies this`users, this`usersByUsername, this`userOrder
      ensures Users() == old(Users()).Remove(id, userSettings)
      ensures removed == if id in old(users) then Some(old(users)[id]) else None
    {
      removed := DropUser(id);
      if removed.Some? && userSettings.capacity.Some? {
        userOrder := Retain(userOrder, id);
      }
    }

    /** Records a newly inserted user, when there is a queue to record it in. */
    method NoteNewUser(id: string)
      modifies this`users, this`usersByUsername, this`userOrder
      ensures Users() == if userSettings.capacity.Some? then old(Users()).NoteNew(id, userSettings.capacity.value)
                         else old(Users())
    {
      match userSettings.capacity {
        case Some(capacity) => EnqueueUser(id, capacity);
        case None =>
      }
    }

    /** A new user joins the queue's end; whoever is over capacity leaves at its front. */
    method EnqueueUser(id: string, capacity: nat)
      modifies this`users, this`usersByUsername, this`userOrder
      ensures Users() == old(Users()).NoteNew(id, capacity)
    {
      hide UserQueue.DropAll, UserQueue.Victims;
      ghost var before := Users();
      var excess := if |users| > capacity then |users| - capacity else 0;
      userOrder := userOrder + [id];
      var evicted := TakeOldest(excess, id);
      DropUsers(evicted);
      assert Users() ==
        UserQueue.Users.Users(UserQueue.DropAll(before.directory, evicted), (before.queue + [id])[|evicted|..]);
    }

    /** Takes up to `excess` ids off the front of the queue, but never the user that just arrived. */
    method TakeOldest(excess: nat, id: string) returns (evicted: seq<string>)
      modifies this`userOrder
      ensures evicted == UserQueue.Victims(old(userOrder), excess, id)
      ensures userOrder == old(userOrder)[|evicted|..]
    {
      hide UserQueue.Victims;
      evicted := [];
      var order := userOrder;
      var k := 0;
      assert [] + UserQueue.Victims(order, excess, id) == UserQueue.Victims(order, excess, id);
      while k < excess && order != [] && order[0] != id
        invariant userOrder == old(userOrder)
        invariant k <= excess && |evicted| <= |userOrder| && order == userOrder[|evicted|..]
        invariant UserQueue.Victims(userOrder, excess, id) == evicted + UserQueue.Victims(order, excess - k, id)
      {
        UserQueue.VictimsStep(evicted, order, excess - k, id);
        evicted := evicted + [order[0]];
        order := order[1..];
        k := k + 1;
      }
      UserQueue.VictimsStep(evicted, order, excess - k, id);
      userOrder := order;
    }

    method DropUsers(evicted: seq<string>)
      modifies this`users, this`usersByUsername
      ensures Users().directory == UserQueue.DropAll(old(Users()).directory, evicted)
    {
      ghost var directory := Users().directory;
      for i := 0 to |evicted|
        invariant Users().directory == UserQueue.DropAll(directory, evicted[..i])
      {
        assert evicted[..i + 1][..i] == evicted[..i];
        var _ := DropUser(evicted[i]);
      }
      assert evicted[..|evicted|] == evicted;
    }

    // ---- the current user --------------------------------------------------------------------

    method SetCurrentUser(user: Named)
      modifies this`users, this`usersByUsername, this`userOrder, this`currentUser
      ensures Copies() == old(Copies()).LogIn(user, CopySettings())
    {
      if wantsCurrentUser {
        currentUser := Some(user);
      }
      var _ := StoreUser(user, Merge);
    }

    /** Only if it is the same user. */
    method RefreshCurrentUser(incoming: Named, mode: StoreMode)
      modifies this`currentUser
      ensures currentUser == old(Copies()).Refreshed(incoming, mode, CopySettings())
    {
      if !wantsCurrentUser {
        return;
      }
      match currentUser {
        case Some(current) =>
          if current.id == incoming.id {
            currentUser := Some(current.StoredAs(incoming, mode));
          }
        case None =>
      }
    }

    /** A user document from a stream is merged, into both copies. */
    method UpdateUser(user: Named)
      modifies this`users, this`usersByUsername, this`userOrder, this`currentUser
      ensures Copies() == old(Copies()).Write(user, Merge, CopySettings())
    {
      var _ := StoreUser(user, Merge);
      RefreshCurrentUser(user, Merge);
    }

    method ReplaceUser(user: Named) returns (previous: Option<Named>)
      modifies this`users, this`usersByUsername, this`userOrder, this`currentUser
      ensures Copies() == old(Copies()).Write(user, Replace, CopySettings())
      ensures previous == if userSettings.wanted && user.id in old(users) then Some(old(users)[user.id]) else None
    {
      previous := StoreUser(user, Replace);
      RefreshCurrentUser(user, Replace);
    }

    // ---- subscriptions -----------------------------------------------------------------------

    method StoreSubscription(incoming: Membership, mode: StoreMode) returns (previous: Option<Membership>)
      modifies this`subscriptions
      ensures previous == if wantsSubscriptions && incoming.rid in old(subscriptions)
                          then Some(old(subscriptions)[incoming.rid]) else None
      ensures subscriptions == if !wantsSubscriptions then old(subscriptions)
                               else old(subscriptions)[incoming.rid :=
                                 if previous.Some? then previous.value.StoredAs(incoming, mode) else incoming]
    {
      if !wantsSubscriptions {
        return None;
      }
      previous := if incoming.rid in subscriptions then Some(subscriptions[incoming.rid]) else None;
      subscriptions := subscriptions[incoming.rid :=
        if previous.Some? then previous.value.StoredAs(incoming, mode) else incoming];
    }

    // ---- messages ----------------------------------------------------------------------------

    method StoreMessage(incoming: Message, mode: StoreMode) returns (previous: Option<Message>)
      modifies this`messages, this`roomMessages
      ensures Shelf() == old(Shelf()).Store(incoming, mode, messageSettings)
      ensures previous == if messageSettings.wanted && messageSettings.capacity > 0 && incoming.id in old(messages)
                          then Some(old(messages)[incoming.id]) else None
    {
      if !messageSettings.wanted || messageSettings.capacity == 0 {
        return None;
      }
      var how := mode;
      if incoming.IsTombstone() {
        match messageSettings.tombstones {
          case Evict =>
            previous := RemoveMessageIn(incoming.rid, incoming.id);
            return;
          case KeepReplaced =>
            how := Replace;
        }
      }
      previous := if incoming.id in messages then Some(messages[incoming.id]) else None;
      var stored := if previous.Some? then previous.value.StoredAs(incoming, how) else incoming;
      messages := messages[incoming.id := stored];
      if previous.None? {
        LinkMessage(incoming.rid, incoming.id);
      }
    }

    method RemoveMessage(id: string) returns (removed: Option<Message>)
      modifies this`messages, this`roomMessages
      ensures Shelf() == old(Shelf()).Remove(id)
      ensures removed == if id in old(messages) then Some(old(messages)[id]) else None
    {
      removed := if id in messages then Some(messages[id]) else None;
      if removed.Some? {
        messages := messages - {id};
        UnlinkMessage(removed.value.rid, id);
      }
    }

    /** Works for a message that was never cached too: the room is given. */
    method RemoveMessageIn(rid: string, id: string) returns (removed: Option<Message>)
      modifies this`messages, this`roomMessages
      ensures Shelf() == old(Shelf()).RemoveIn(rid, id)
      ensures removed == if id in old(messages) then Some(old(messages)[id]) else None
    {
      removed := if id in messages then Some(messages[id]) else None;
      messages := messages - {id};
      UnlinkMessage(rid, id);
    }

    /** To the front of the room's ring; the back makes room. */
    method LinkMessage(rid: string, id: string)
      modifies this`messages, this`roomMessages
      ensures Shelf() == old(Shelf()).Link(rid, id, messageSettings.capacity)
    {
      var ring := [id] + (if rid in roomMessages then roomMessages[rid] else []);
      ghost var all := ring;
      assert all == [id] + Shelf().Ring(rid);
      var evicted := [];
      while |ring| > messageSettings.capacity
        invariant messages == old(messages) && roomMessages == old(roomMessages)
        invariant |ring| <= |all| && ring == all[..|ring|]
        invariant |all| <= messageSettings.capacity ==> ring == all
        invariant |all| > messageSettings.capacity ==> |ring| >= messageSettings.capacity
        invariant MessageShelf.Elements(evicted) == MessageShelf.Elements(all[|ring|..])
      {
        var oldest := ring[|ring| - 1];
        assert all[|ring| - 1..] == [oldest] + all[|ring|..];
        MessageShelf.ElementsConcat([oldest], all[|ring|..]);
        MessageShelf.ElementsConcat(evicted, [oldest]);
        evicted := evicted + [oldest];
        ring := ring[..|ring| - 1];
      }
      assert ring == MessageShelf.Shortened(all, messageSettings.capacity);
      roomMessages := roomMessages[rid := ring];
      RemoveAll(evicted);
    }

    method UnlinkMessage(rid: string, id: string)
      modifies this`roomMessages
      ensures Shelf() == old(Shelf()).Unlink(rid, id)
    {
      if rid in roomMessages {
        var ring := Retain(roomMessages[rid], id);
        roomMessages := roomMessages[rid := ring];
        if ring == [] {
          roomMessages := roomMessages - {rid};
          assert roomMessages == old(roomMessages) - {rid};
        }
      }
    }

    // ---- the whole cache -----------------------------------------------------------------------

    method Clear()
      modifies this
      ensures Shelf() == MessageShelf.EMPTY && Users() == UserQueue.NOBODY && Rooms() == NameIndex.EMPTY
      ensures subscriptions == map[] && Copies() == CurrentUser.NOTHING
    {
      rooms, roomsByName, users, usersByUsername := map[], map[], map[], map[];
      subscriptions, messages, roomMessages, userOrder := map[], map[], map[], [];
      currentUser := None;
    }
  }
}
