/**
 * The cache told from its history: which document a name leads to, and which value a field has, said by the
 * operations that came before and not by the cache's own tables.
 */
module CacheHistory {
  import opened Prelude
  import opened Protocol
  import opened CacheDocuments
  import M = MessageShelf
  import N = NameIndex
  import Q = UserQueue
  import Sequences

  // ---- who a name leads to ----------------------------------------------------------------------------------

  predicate Bears(d: N.Directory, id: string, name: string) {
    id in d.docs && d.docs[id].name == Some(name)
  }

  predicate Leads(d: N.Directory, name: string, id: string) {
    name in d.index && d.index[name] == id
  }

  /** The document bears the name now, and did not before. */
  predicate Gives(before: N.Directory, after: N.Directory, name: string, id: string) {
    !Bears(before, id, name) && Bears(after, id, name)
  }

  ghost predicate GivesAway(before: N.Directory, after: N.Directory, name: string) {
    exists id :: Gives(before, after, name, id)
  }

  /** A name leads where it was just given; else where it led, as long as it is borne there. */
  ghost predicate Fits(before: N.Directory, after: N.Directory) {
    forall name, id :: Leads(after, name, id) <==>
      || Gives(before, after, name, id)
      || (Leads(before, name, id) && Bears(after, id, name) && !GivesAway(before, after, name))
  }

  lemma StoreFits(d: N.Directory, incoming: Named, mode: StoreMode)
    requires N.Sound(d)
    ensures Fits(d, d.Store(incoming, mode))
  {
    var to := d.Store(incoming, mode);
    var now := to.docs[incoming.id].name;
    hide Named.StoredAs;
    forall name, id
      ensures Leads(to, name, id) <==>
              Gives(d, to, name, id) || (Leads(d, name, id) && Bears(to, id, name) && !GivesAway(d, to, name))
    {
      StoreGives(d, incoming, mode, name);
      if Leads(d, name, id) {
        assert d.NameOf(d.index[name]) == Some(name);
      }
      hide GivesAway;
    }
  }

  /** Storing gives its name to its own document, if that did not bear it. */
  lemma StoreGives(d: N.Directory, incoming: Named, mode: StoreMode, name: string)
    ensures var to := d.Store(incoming, mode);
            && (GivesAway(d, to, name) <==> to.NameOf(incoming.id) == Some(name) && d.NameOf(incoming.id) != Some(name))
            && forall id :: Gives(d, to, name, id) ==> id == incoming.id && incoming.name == Some(name)
  {
    var to := d.Store(incoming, mode);
    if to.NameOf(incoming.id) == Some(name) && d.NameOf(incoming.id) != Some(name) {
      assert Gives(d, to, name, incoming.id);
    }
  }

  lemma DropFits(d: N.Directory, id: string)
    requires N.Sound(d)
    ensures Fits(d, d.Drop(id)) && forall name :: !GivesAway(d, d.Drop(id), name)
  {
    forall name, other
      ensures Leads(d.Drop(id), name, other) <==> Leads(d, name, other) && Bears(d.Drop(id), other, name)
    {
      if Leads(d, name, other) {
        assert d.NameOf(d.index[name]) == Some(name);
      }
    }
  }

  lemma ClearFits(d: N.Directory)
    ensures Fits(d, N.EMPTY)
  {
  }

  /** The name was given to `id` as the history's `k`-th step, to nobody since, and borne by `id` ever since. */
  ghost predicate TakenAt(history: seq<N.Directory>, k: nat, name: string, id: string)
    requires 0 < k < |history|
  {
    && Gives(history[k - 1], history[k], name, id)
    && (forall j | k <= j < |history| :: Bears(history[j], id, name))
    && (forall j | k < j < |history| :: !GivesAway(history[j - 1], history[j], name))
  }

  ghost predicate Taken(history: seq<N.Directory>, name: string, id: string) {
    exists k | 0 < k < |history| :: TakenAt(history, k, name, id)
  }

  /** One more step of history. */
  lemma TakenNext(history: seq<N.Directory>, next: N.Directory, name: string, id: string)
    requires history != []
    ensures var last := history[|history| - 1];
            Taken(history + [next], name, id) <==>
            || Gives(last, next, name, id)
            || (Taken(history, name, id) && Bears(next, id, name) && !GivesAway(last, next, name))
  {
    var last, more := history[|history| - 1], history + [next];
    hide GivesAway, Bears;
    if Gives(last, next, name, id) {
      assert TakenAt(more, |history|, name, id);
    }
    if Taken(history, name, id) && Bears(next, id, name) && !GivesAway(last, next, name) {
      var k :| 0 < k < |history| && TakenAt(history, k, name, id);
      assert TakenAt(more, k, name, id);
    }
    if Taken(more, name, id) && !Gives(last, next, name, id) {
      var k :| 0 < k < |more| && TakenAt(more, k, name, id);
      assert k < |history|;
      assert Bears(more[|history|], id, name) && !GivesAway(more[|history| - 1], more[|history|], name);
      assert forall j | k <= j < |history| :: more[j] == history[j];
      assert TakenAt(history, k, name, id);
    }
  }

  ghost predicate Steps(history: seq<N.Directory>) {
    && history != [] && history[0] == N.EMPTY
    && forall k | 0 < k < |history| :: Fits(history[k - 1], history[k])
  }

  lemma {:induction false} LeadsToTheTaker(history: seq<N.Directory>, name: string, id: string)
    requires Steps(history)
    ensures Leads(history[|history| - 1], name, id) <==> Taken(history, name, id)
  {
    if |history| > 1 {
      var before, next := history[..|history| - 1], history[|history| - 1];
      LeadsToTheTaker(before, name, id);
      assert history == before + [next];
      assert Fits(history[|history| - 2], next);
      hide Taken, Leads, Gives, Bears, GivesAway;
      TakenNext(before, next, name, id);
    }
  }

  // ---- rooms ------------------------------------------------------------------------------------------------

  /** The rooms before any operation, after the first, and so on. */
  function Rooms(ops: seq<N.Operation>): seq<N.Directory> {
    seq(|ops| + 1, i requires 0 <= i <= |ops| => N.Run(ops[..i]))
  }

  lemma RoomStep(ops: seq<N.Operation>, k: nat)
    requires k < |ops|
    ensures N.Run(ops[..k + 1]) == N.Apply(N.Run(ops[..k]), ops[k]) && N.Sound(N.Run(ops[..k]))
  {
    assert ops[..k + 1][..k] == ops[..k];
    N.EveryRunIsSound(ops[..k]);
    hide N.Sound, N.Apply;
  }

  lemma RoomFits(d: N.Directory, op: N.Operation)
    requires N.Sound(d)
    ensures Fits(d, N.Apply(d, op))
  {
    hide N.Sound, Fits, N.Directory.Store, N.Directory.Drop;
    match op
    case Store(incoming, mode) => StoreFits(d, incoming, mode);
    case Drop(id) => DropFits(d, id);
    case Clear => ClearFits(d);
  }

  /**
   * Over every run of rooms: a name leads to a room if and only if the latest operation that gave the name to a room
   * not bearing it gave it to this one, which is cached and bears it ever since.
   */
  lemma RoomNamesLeadToTheTaker(ops: seq<N.Operation>, name: string, id: string)
    ensures Leads(N.Run(ops), name, id) <==> Taken(Rooms(ops), name, id)
  {
    var history := Rooms(ops);
    forall k | 0 < k < |history| ensures Fits(history[k - 1], history[k]) {
      RoomStep(ops, k - 1);
      RoomFits(N.Run(ops[..k - 1]), ops[k - 1]);
    }
    assert ops[..0] == [] && ops[..|ops|] == ops;
    assert history[0] == N.EMPTY && history[|ops|] == N.Run(ops);
    hide N.Run, Fits, Leads, Taken, Rooms;
    LeadsToTheTaker(history, name, id);
  }

  /** Only storing a document that carries the name gives a name away, and only to that document. */
  lemma OnlyStoringGives(ops: seq<N.Operation>, k: nat, name: string, id: string)
    requires k < |ops| && Gives(N.Run(ops[..k]), N.Run(ops[..k + 1]), name, id)
    ensures ops[k].Store? && ops[k].incoming.id == id && ops[k].incoming.name == Some(name)
  {
    RoomStep(ops, k);
    var d := N.Run(ops[..k]);
    if ops[k].Store? {
      StoreGives(d, ops[k].incoming, ops[k].mode, name);
    }
  }

  /** No operation takes a name from a room that still bears it, unless it gives the name to another. */
  lemma NoNameIsLost(ops: seq<N.Operation>, k: nat, name: string, id: string)
    requires k < |ops| && Leads(N.Run(ops[..k]), name, id) && Bears(N.Run(ops[..k + 1]), id, name)
    ensures Leads(N.Run(ops[..k + 1]), name, id) ||
            (ops[k].Store? && ops[k].incoming.name == Some(name) &&
              Leads(N.Run(ops[..k + 1]), name, ops[k].incoming.id))
  {
    RoomStep(ops, k);
    var before, after := N.Run(ops[..k]), N.Run(ops[..k + 1]);
    RoomFits(before, ops[k]);
    if !Leads(after, name, id) {
      var taker :| Gives(before, after, name, taker);
      OnlyStoringGives(ops, k, name, taker);
      assert Leads(after, name, taker);
    }
  }

  // ---- users ------------------------------------------------------------------------------------------------

  /** The users before any operation, after the first, and so on. */
  function Users(ops: seq<Q.Operation>, settings: Q.Settings): seq<N.Directory> {
    seq(|ops| + 1, i requires 0 <= i <= |ops| => Q.Run(ops[..i], settings).directory)
  }

  lemma {:induction false} DropAllFits(d: N.Directory, ids: seq<string>)
    requires N.Sound(d)
    ensures var to := Q.DropAll(d, ids);
            && (forall name, id :: Leads(to, name, id) <==> Leads(d, name, id) && id !in ids)
            && (forall name, id :: Bears(to, id, name) <==> Bears(d, id, name) && id !in ids)
  {
    if ids != [] {
      var before, last := ids[..|ids| - 1], ids[|ids| - 1];
      assert ids == before + [last];
      DropAllFits(d, before);
      Q.DropAllMeans(d, before);
      DropOne(Q.DropAll(d, before), last);
      hide N.Directory.Drop, N.Sound, Leads, Bears;
    }
  }

  lemma DropOne(d: N.Directory, id: string)
    requires N.Sound(d)
    ensures forall name, other :: Leads(d.Drop(id), name, other) <==> Leads(d, name, other) && other != id
    ensures forall name, other :: Bears(d.Drop(id), other, name) <==> Bears(d, other, name) && other != id
  {
    forall name, other ensures Leads(d.Drop(id), name, other) <==> Leads(d, name, other) && other != id {
      if Leads(d, name, other) {
        assert d.NameOf(d.index[name]) == Some(name);
      }
    }
  }

  /** Storing a user and evicting others fits, as long as the user itself stays. */
  lemma StoreThenEvictFits(d: N.Directory, incoming: Named, mode: StoreMode, victims: seq<string>)
    requires N.Sound(d) && incoming.id !in victims
    ensures Fits(d, Q.DropAll(d.Store(incoming, mode), victims))
  {
    var stored := d.Store(incoming, mode);
    var to := Q.DropAll(stored, victims);
    StoreFits(d, incoming, mode);
    N.SoundAfterStore(d, incoming, mode);
    DropAllFits(stored, victims);
    forall name, id
      ensures Leads(to, name, id) <==>
              Gives(d, to, name, id) || (Leads(d, name, id) && Bears(to, id, name) && !GivesAway(d, to, name))
    {
      StoreGives(d, incoming, mode, name);
      hide N.Directory.Store, Q.DropAll, N.Sound, Bears, Leads;
      assert Leads(stored, name, id) <==>
             Gives(d, stored, name, id) ||
               (Leads(d, name, id) && Bears(stored, id, name) && !GivesAway(d, stored, name));
      GivenSame(d, stored, to, incoming.id, victims, name);
    }
  }

  lemma GivenSame(
      d: N.Directory, stored: N.Directory, to: N.Directory, giver: string, victims: seq<string>, name: string)
    requires forall n, id :: Bears(to, id, n) <==> Bears(stored, id, n) && id !in victims
    requires giver !in victims && forall id :: Gives(d, stored, name, id) ==> id == giver
    ensures forall id :: Gives(d, to, name, id) <==> Gives(d, stored, name, id)
    ensures GivesAway(d, to, name) <==> GivesAway(d, stored, name)
  {
    hide Bears;
    forall id ensures Gives(d, to, name, id) <==> Gives(d, stored, name, id) {
      assert Bears(to, id, name) <==> Bears(stored, id, name) && id !in victims;
    }
  }

  lemma UserFits(u: Q.Users, op: Q.Operation, settings: Q.Settings)
    requires N.Sound(u.directory)
    ensures Fits(u.directory, Q.Apply(u, op, settings).directory)
  {
    hide N.Sound, N.Directory.Store, N.Directory.Drop, Fits;
    if op.Store? {
      UserStoreFits(u, op.incoming, op.mode, settings);
    } else if op.Remove? {
      DropFits(u.directory, op.id);
    } else {
      ClearFits(u.directory);
    }
  }

  lemma UserStoreFits(u: Q.Users, incoming: Named, mode: StoreMode, settings: Q.Settings)
    requires N.Sound(u.directory)
    ensures Fits(u.directory, u.Store(incoming, mode, settings).directory)
  {
    NothingFits(u.directory);
    StoreFits(u.directory, incoming, mode);
    if settings.capacity.Some? {
      EvictingFits(u, incoming, mode, settings.capacity.value);
    }
    hide Fits, N.Sound, N.Directory.Store, Q.Users.NoteNew;
  }

  lemma EvictingFits(u: Q.Users, incoming: Named, mode: StoreMode, capacity: nat)
    requires N.Sound(u.directory)
    ensures var stored := Q.Users(u.directory.Store(incoming, mode), u.queue);
            Fits(u.directory, stored.NoteNew(incoming.id, capacity).directory)
  {
    hide Fits, N.Sound, N.Directory.Store;
    var stored := u.directory.Store(incoming, mode);
    var excess := if |stored.docs| > capacity then |stored.docs| - capacity else 0;
    StoreThenEvictFits(u.directory, incoming, mode, Q.Victims(u.queue + [incoming.id], excess, incoming.id));
  }

  lemma NothingFits(d: N.Directory)
    requires N.Sound(d)
    ensures Fits(d, d)
  {
    forall name, id | Leads(d, name, id) ensures Bears(d, id, name) {
      assert d.NameOf(d.index[name]) == Some(name);
    }
  }

  lemma UserStep(ops: seq<Q.Operation>, settings: Q.Settings, k: nat)
    requires k < |ops|
    ensures Q.Run(ops[..k + 1], settings) == Q.Apply(Q.Run(ops[..k], settings), ops[k], settings)
    ensures N.Sound(Q.Run(ops[..k], settings).directory)
  {
    assert ops[..k + 1][..k] == ops[..k];
    Q.EveryRunIsSound(ops[..k], settings);
    hide N.Sound, Q.Apply;
  }

  /**
   * Over every run of users, evictions included: a username leads to a user if and only if the latest operation that
   * gave it to a user not bearing it gave it to this one, who is cached and bears it ever since.
   */
  lemma UsernamesLeadToTheTaker(ops: seq<Q.Operation>, settings: Q.Settings, name: string, id: string)
    ensures Leads(Q.Run(ops, settings).directory, name, id) <==> Taken(Users(ops, settings), name, id)
  {
    var history := Users(ops, settings);
    forall k | 0 < k < |history| ensures Fits(history[k - 1], history[k]) {
      UserStep(ops, settings, k - 1);
      UserFits(Q.Run(ops[..k - 1], settings), ops[k - 1], settings);
    }
    assert ops[..0] == [] && ops[..|ops|] == ops;
    assert history[0] == N.EMPTY && history[|ops|] == Q.Run(ops, settings).directory;
    hide Q.Run, Fits, Leads, Taken, Users;
    LeadsToTheTaker(history, name, id);
  }

  lemma UserGives(u: Q.Users, op: Q.Operation, settings: Q.Settings, name: string, id: string)
    requires Gives(u.directory, Q.Apply(u, op, settings).directory, name, id)
    ensures op.Store? && op.incoming.id == id && op.incoming.name == Some(name)
  {
    if op.Store? {
      StoreGives(u.directory, op.incoming, op.mode, name);
      StoreSpares(u, op.incoming, op.mode, settings);
      hide Q.Users.Store, N.Directory.Store;
      assert Bears(u.directory.Store(op.incoming, op.mode), id, name);
    }
  }

  /** Whoever is there after a user was stored is as if nobody had been evicted. */
  lemma StoreSpares(u: Q.Users, incoming: Named, mode: StoreMode, settings: Q.Settings)
    ensures var to, stored := u.Store(incoming, mode, settings).directory.docs, u.directory.Store(incoming, mode).docs;
            forall id | id in to :: if settings.wanted then id in stored && to[id] == stored[id]
                                    else id in u.directory.docs && to[id] == u.directory.docs[id]
  {
    EvictionSpares(Q.Users(u.directory.Store(incoming, mode), u.queue), incoming.id,
                   if settings.capacity.Some? then settings.capacity.value else 0);
    hide N.Directory.Store, Q.Users.NoteNew;
  }

  lemma EvictionSpares(u: Q.Users, id: string, capacity: nat)
    ensures var to := u.NoteNew(id, capacity).directory.docs;
            forall other | other in to :: other in u.directory.docs && to[other] == u.directory.docs[other]
  {
    var excess := if |u.directory.docs| > capacity then |u.directory.docs| - capacity else 0;
    Q.DropAllSpares(u.directory, Q.Victims(u.queue + [id], excess, id));
    hide Q.Victims, Q.DropAll;
  }

  /** Only storing a user that carries the name gives it away, and only to that user. */
  lemma OnlyStoringGivesUsernames(ops: seq<Q.Operation>, settings: Q.Settings, k: nat, name: string, id: string)
    requires k < |ops|
    requires Gives(Q.Run(ops[..k], settings).directory, Q.Run(ops[..k + 1], settings).directory, name, id)
    ensures ops[k].Store? && ops[k].incoming.id == id && ops[k].incoming.name == Some(name)
  {
    UserStep(ops, settings, k);
    hide Q.Run, Gives, Q.Apply;
    UserGives(Q.Run(ops[..k], settings), ops[k], settings, name, id);
  }

  // ---- which value a field has -------------------------------------------------------------------------------

  /** What an operation does to one field of one document: the document came with or without it, went, or neither. */
  datatype Touch<V> = Came(value: Option<V>, mode: StoreMode) | Went | Untouched

  /** The value of the latest document that carried the field, unless the document went or was replaced since. */
  function Latest<V>(touches: seq<Touch<V>>): Option<V> {
    if touches == [] then None
    else
      match touches[|touches| - 1]
      case Came(value, mode) => if value.Some? || mode.Replace? then value else Latest(touches[..|touches| - 1])
      case Went => None
      case Untouched => Latest(touches[..|touches| - 1])
  }

  datatype Part = Identity | Place | Name | Kind | EditedAt | Field(key: string)

  datatype Value = Words(text: string) | Data(json: Json)

  function InWords(text: Option<string>): Option<Value> {
    if text.Some? then Some(Words(text.value)) else None
  }

  function InFields(fields: map<string, Json>, key: string): Option<Value> {
    if key in fields then Some(Data(fields[key])) else None
  }

  function Carries(doc: Named, part: Part): Option<Value> {
    match part
    case Identity => Some(Words(doc.id))
    case Name => InWords(doc.name)
    case Field(key) => InFields(doc.fields, key)
    case _ => None
  }

  function PartOf(docs: map<string, Named>, id: string, part: Part): Option<Value> {
    if id in docs then Carries(docs[id], part) else None
  }

  function RoomTouches(ops: seq<N.Operation>, id: string, part: Part): seq<Touch<Value>> {
    seq(|ops|, i requires 0 <= i < |ops| =>
      match ops[i]
      case Store(incoming, mode) => if incoming.id == id then Came(Carries(incoming, part), mode) else Untouched
      case Drop(other) => if other == id then Went else Untouched
      case Clear => Went)
  }

  lemma TouchesNext<V>(before: seq<Touch<V>>, last: Touch<V>)
    ensures Latest(before + [last]) ==
            match last
            case Came(value, mode) => if value.Some? || mode.Replace? then value else Latest(before)
            case Went => None
            case Untouched => Latest(before)
  {
    assert (before + [last])[..|before|] == before;
  }

  /**
   * Over every run of rooms: each part of a cached room, its name and each field, is that of the latest document that
   * carried it, since the room was last dropped or replaced; and a room is cached from its storing to its drop.
   */
  lemma {:induction false} RoomPartsAreTheLatest(ops: seq<N.Operation>, id: string, part: Part)
    ensures PartOf(N.Run(ops).docs, id, part) == Latest(RoomTouches(ops, id, part))
    ensures id in N.Run(ops).docs <==> Latest(RoomTouches(ops, id, Identity)).Some?
  {
    if ops != [] {
      var before := ops[..|ops| - 1];
      RoomPartsAreTheLatest(before, id, part);
      RoomPartsAreTheLatest(before, id, Identity);
      forall p {:trigger RoomTouches(ops, id, p)}
        ensures RoomTouches(ops, id, p) ==
                RoomTouches(before, id, p) + [RoomTouches(ops, id, p)[|ops| - 1]]
      {
      }
      TouchesNext(RoomTouches(before, id, part), RoomTouches(ops, id, part)[|ops| - 1]);
      TouchesNext(RoomTouches(before, id, Identity), RoomTouches(ops, id, Identity)[|ops| - 1]);
      hide Latest, InWords;
    }
  }

  /** A user that is not cached after the operation went, evicted or not. */
  function UserTouch(ops: seq<Q.Operation>, settings: Q.Settings, i: nat, id: string, part: Part): Touch<Value>
    requires i < |ops|
  {
    if id !in Q.Run(ops[..i + 1], settings).directory.docs then Went
    else if ops[i].Store? && ops[i].incoming.id == id then Came(Carries(ops[i].incoming, part), ops[i].mode)
    else Untouched
  }

  function UserTouches(ops: seq<Q.Operation>, settings: Q.Settings, id: string, part: Part): seq<Touch<Value>> {
    seq(|ops|, i requires 0 <= i < |ops| => UserTouch(ops, settings, i, id, part))
  }

  lemma UserTouchesNext(ops: seq<Q.Operation>, settings: Q.Settings, id: string, part: Part)
    requires ops != []
    ensures UserTouches(ops, settings, id, part) ==
            UserTouches(ops[..|ops| - 1], settings, id, part) + [UserTouch(ops, settings, |ops| - 1, id, part)]
  {
    var before := ops[..|ops| - 1];
    forall i | 0 <= i < |before|
      ensures UserTouch(before, settings, i, id, part) == UserTouch(ops, settings, i, id, part)
    {
      assert before[..i + 1] == ops[..i + 1];
    }
  }

  /** One operation and one part of one user. */
  lemma UserPartNext(u: Q.Users, op: Q.Operation, settings: Q.Settings, id: string, part: Part)
    requires id in Q.Apply(u, op, settings).directory.docs
    ensures var docs := Q.Apply(u, op, settings).directory.docs;
            Carries(docs[id], part) ==
            if op.Store? && op.incoming.id == id then
              var value := Carries(op.incoming, part);
              if value.Some? || op.mode.Replace? then value else PartOf(u.directory.docs, id, part)
            else PartOf(u.directory.docs, id, part)
    requires op.Store? ==> settings.wanted
  {
    if op.Store? {
      StoreSpares(u, op.incoming, op.mode, settings);
      hide Q.Users.Store, InWords;
    } else {
      hide InWords;
    }
  }

  lemma NobodyWanted(ops: seq<Q.Operation>, settings: Q.Settings)
    requires !settings.wanted
    ensures Q.Run(ops, settings).directory.docs == map[]
  {
    if ops != [] {
      NobodyWanted(ops[..|ops| - 1], settings);
    }
  }

  /**
   * Over every run of users: each part of a cached user, the username and each field, is that of the latest document
   * that carried it, since the user was last removed, evicted or replaced.
   */
  lemma {:induction false} UserPartsAreTheLatest(ops: seq<Q.Operation>, settings: Q.Settings, id: string, part: Part)
    ensures PartOf(Q.Run(ops, settings).directory.docs, id, part) == Latest(UserTouches(ops, settings, id, part))
  {
    if ops != [] {
      var before, last := ops[..|ops| - 1], ops[|ops| - 1];
      UserPartsAreTheLatest(before, settings, id, part);
      UserTouchesNext(ops, settings, id, part);
      TouchesNext(UserTouches(before, settings, id, part), UserTouch(ops, settings, |ops| - 1, id, part));
      assert ops[..|ops|] == ops;
      if id in Q.Run(ops, settings).directory.docs {
        if !settings.wanted {
          NobodyWanted(ops, settings);
        }
        UserPartNext(Q.Run(before, settings), last, settings, id, part);
      }
      hide Latest, Carries, Q.Apply, UserTouches;
    }
  }

  // ---- messages and memberships ------------------------------------------------------------------------------

  function Says(message: Message, part: Part): Option<Value> {
    match part
    case Identity => Some(Words(message.id))
    case Place => Some(Words(message.rid))
    case Kind => InWords(message.kind)
    case EditedAt => InWords(message.editedAt)
    case Field(key) => InFields(message.fields, key)
    case Name => None
  }

  function SaidBy(messages: map<string, Message>, id: string, part: Part): Option<Value> {
    if id in messages then Says(messages[id], part) else None
  }

  /** A deletion, which is an edit that leaves nothing but the marker, replaces what was there. */
  function MessageTouch(ops: seq<M.Operation>, settings: M.Settings, i: nat, id: string, part: Part): Touch<Value>
    requires i < |ops|
  {
    if id !in M.Run(ops[..i + 1], settings).messages then Went
    else if ops[i].Store? && ops[i].incoming.id == id then
      var deleted := ops[i].incoming.kind == Some("rm") && ops[i].incoming.editedAt.Some?;
      Came(Says(ops[i].incoming, part), if deleted then Replace else ops[i].mode)
    else Untouched
  }

  function MessageTouches(ops: seq<M.Operation>, settings: M.Settings, id: string, part: Part): seq<Touch<Value>> {
    seq(|ops|, i requires 0 <= i < |ops| => MessageTouch(ops, settings, i, id, part))
  }

  lemma MessageTouchesNext(ops: seq<M.Operation>, settings: M.Settings, id: string, part: Part)
    requires ops != []
    ensures MessageTouches(ops, settings, id, part) ==
            MessageTouches(ops[..|ops| - 1], settings, id, part) + [MessageTouch(ops, settings, |ops| - 1, id, part)]
  {
    var before := ops[..|ops| - 1];
    forall i | 0 <= i < |before|
      ensures MessageTouch(before, settings, i, id, part) == MessageTouch(ops, settings, i, id, part)
    {
      assert before[..i + 1] == ops[..i + 1];
    }
  }

  /** What is left of the others when a message goes. */
  lemma RemovalSpares(s: M.Shelf, rid: string, id: string)
    ensures s.RemoveIn(rid, id).messages == s.messages - {id}
  {
    hide Sequences.Without;
  }

  lemma PutSays(s: M.Shelf, incoming: Message, mode: StoreMode, capacity: nat, id: string, part: Part)
    requires id in s.Put(incoming, mode, capacity).messages
    ensures Says(s.Put(incoming, mode, capacity).messages[id], part) ==
            if incoming.id == id then
              var value := Says(incoming, part);
              if value.Some? || mode.Replace? then value else SaidBy(s.messages, id, part)
            else SaidBy(s.messages, id, part)
  {
    hide M.Shortened, M.Elements;
  }

  /** One operation and one part of one message. */
  lemma MessagePartNext(s: M.Shelf, op: M.Operation, settings: M.Settings, id: string, part: Part)
    requires id in M.Apply(s, op, settings).messages
    requires op.Store? ==> settings.wanted && settings.capacity > 0
    ensures Says(M.Apply(s, op, settings).messages[id], part) ==
            if op.Store? && op.incoming.id == id then
              var value := Says(op.incoming, part);
              if value.Some? || op.mode.Replace? ||
                (op.incoming.kind == Some("rm") && op.incoming.editedAt.Some?) then value
              else SaidBy(s.messages, id, part)
            else SaidBy(s.messages, id, part)
  {
    hide Says, M.Shelf.Put, M.Shelf.RemoveIn, M.Elements;
    match op
    case Store(incoming, mode) =>
      RemovalSpares(s, incoming.rid, incoming.id);
      if !(incoming.IsTombstone() && settings.tombstones.Evict?) {
        PutSays(s, incoming, if incoming.IsTombstone() then Replace else mode, settings.capacity, id, part);
      }
    case Remove(other) =>
      if other in s.messages {
        RemovalSpares(s, s.messages[other].rid, other);
      }
    case RemoveIn(rid, other) => RemovalSpares(s, rid, other);
    case RemoveRoom(_) =>
    case Clear =>
  }

  lemma {:induction false} NothingWanted(ops: seq<M.Operation>, settings: M.Settings)
    requires !settings.wanted || settings.capacity == 0
    ensures M.Run(ops, settings).messages == map[]
  {
    if ops != [] {
      NothingWanted(ops[..|ops| - 1], settings);
      hide Sequences.Without, M.Elements;
    }
  }

  /**
   * Over every run of messages: each part of a cached message is that of the latest document that carried it, since
   * the message last went, was replaced or was deleted.
   */
  lemma {:induction false} MessagePartsAreTheLatest(ops: seq<M.Operation>, settings: M.Settings, id: string, part: Part)
    ensures SaidBy(M.Run(ops, settings).messages, id, part) == Latest(MessageTouches(ops, settings, id, part))
  {
    if ops != [] {
      var before, last := ops[..|ops| - 1], ops[|ops| - 1];
      MessagePartsAreTheLatest(before, settings, id, part);
      MessageTouchesNext(ops, settings, id, part);
      TouchesNext(MessageTouches(before, settings, id, part), MessageTouch(ops, settings, |ops| - 1, id, part));
      assert ops[..|ops|] == ops;
      if id in M.Run(ops, settings).messages {
        if !settings.wanted || settings.capacity == 0 {
          NothingWanted(ops, settings);
        }
        MessagePartNext(M.Run(before, settings), last, settings, id, part);
      }
      hide Latest, Says, M.Apply, MessageTouches;
    }
  }

  /** A membership after it was stored again and again. */
  function Membered(stores: seq<(Membership, StoreMode)>): Option<Membership> {
    if stores == [] then None
    else
      var (incoming, mode) := stores[|stores| - 1];
      match Membered(stores[..|stores| - 1])
      case None => Some(incoming)
      case Some(cached) => Some(cached.StoredAs(incoming, mode))
  }

  function MembershipTouches(stores: seq<(Membership, StoreMode)>, key: string): seq<Touch<Value>> {
    seq(|stores|, i requires 0 <= i < |stores| => Came(InFields(stores[i].0.fields, key), stores[i].1))
  }

  /**
   * The same of a membership: each field is that of the latest document that carried it, since the latest
   * replacement.
   */
  lemma {:induction false} MembershipFieldsAreTheLatest(stores: seq<(Membership, StoreMode)>, key: string)
    requires stores != []
    ensures Membered(stores).Some? && Membered(stores).value.rid == stores[|stores| - 1].0.rid
    ensures InFields(Membered(stores).value.fields, key) == Latest(MembershipTouches(stores, key))
  {
    var before, touch := stores[..|stores| - 1], MembershipTouches(stores, key)[|stores| - 1];
    assert MembershipTouches(stores, key) == MembershipTouches(before, key) + [touch];
    TouchesNext(MembershipTouches(before, key), touch);
    if before != [] {
      MembershipFieldsAreTheLatest(before, key);
    }
  }
}
