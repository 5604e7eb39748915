/** Users by id, by username, and in order of first insertion, bounded first in, first out. */
module UserQueue {
  import opened Prelude
  import opened CacheDocuments
  import opened NameIndex
  import opened Sequences

  /** `None` never evicts; a capacity is at least one. */
  datatype Settings = Settings(wanted: bool, capacity: Option<nat>) {
    predicate Valid() {
      capacity.Some? ==> capacity.value > 0
    }
  }

  /** What leaves the front of the queue: at most `excess` ids, and never the newcomer or beyond it. */
  function Victims(queue: seq<string>, excess: nat, newcomer: string): (victims: seq<string>)
    ensures |victims| <= |queue| && victims == queue[..|victims|]
    ensures |victims| <= excess && newcomer !in victims
  {
    if excess == 0 || queue == [] || queue[0] == newcomer then []
    else [queue[0]] + Victims(queue[1..], excess - 1, newcomer)
  }

  /** One more victim taken off the front, or no more. */
  lemma VictimsStep(taken: seq<string>, queue: seq<string>, excess: nat, newcomer: string)
    ensures excess > 0 && queue != [] && queue[0] != newcomer ==>
              taken + Victims(queue, excess, newcomer) ==
                (taken + [queue[0]]) + Victims(queue[1..], excess - 1, newcomer)
    ensures !(excess > 0 && queue != [] && queue[0] != newcomer) ==> taken + Victims(queue, excess, newcomer) == taken
  {
  }

  function DropAll(d: Directory, ids: seq<string>): Directory {
    if ids == [] then d else DropAll(d, ids[..|ids| - 1]).Drop(ids[|ids| - 1])
  }

  datatype Users = Users(directory: Directory, queue: seq<string>) {
    function NoteNew(id: string, capacity: nat): Users {
      var excess := if |directory.docs| > capacity then |directory.docs| - capacity else 0;
      var victims := Victims(queue + [id], excess, id);
      Users(DropAll(directory, victims), (queue + [id])[|victims|..])
    }

    function Store(incoming: Named, mode: StoreMode, settings: Settings): Users {
      if !settings.wanted then this
      else
        var stored := Users(directory.Store(incoming, mode), queue);
        if incoming.id in directory.docs || settings.capacity.None? then stored
        else stored.NoteNew(incoming.id, settings.capacity.value)
    }

    function Remove(id: string, settings: Settings): Users {
      Users(directory.Drop(id),
            if id in directory.docs && settings.capacity.Some? then Without(queue, id) else queue)
    }
  }

  const NOBODY := Users(NameIndex.EMPTY, [])

  // ---- the simple form: users in order of first insertion ---------------------------------

  type Roster = seq<Named>

  predicate Lists(roster: Roster, id: string) {
    exists i | 0 <= i < |roster| :: roster[i].id == id
  }

  /** Seeing a user again refreshes the document and not its place; the oldest make room for the new. */
  function Enrol(roster: Roster, incoming: Named, mode: StoreMode, capacity: nat): Roster {
    if Lists(roster, incoming.id) then
      seq(|roster|, i requires 0 <= i < |roster| =>
        if roster[i].id == incoming.id then roster[i].StoredAs(incoming, mode) else roster[i])
    else
      var all := roster + [incoming];
      if |all| > capacity then all[|all| - capacity..] else all
  }

  function Dismiss(roster: Roster, id: string): Roster {
    if roster == [] then []
    else
      var before, last := Dismiss(roster[..|roster| - 1], id), roster[|roster| - 1];
      if last.id == id then before else before + [last]
  }

  // ---- agreement of the queue with the users -----------------------------------------------

  /** The queue holds exactly the cached users, once each, and there are no more than fit. */
  ghost predicate Agrees(u: Users, capacity: nat) {
    && NoRepeats(u.queue)
    && (forall id :: id in u.queue <==> id in u.directory.docs)
    && (forall id | id in u.directory.docs :: u.directory.docs[id].id == id)
    && |u.queue| <= capacity
  }

  function Listing(docs: map<string, Named>, ids: seq<string>): Roster
    requires forall id | id in ids :: id in docs
  {
    seq(|ids|, i requires 0 <= i < |ids| => docs[ids[i]])
  }

  function Meaning(u: Users): Roster
    requires forall id | id in u.queue :: id in u.directory.docs
  {
    Listing(u.directory.docs, u.queue)
  }

  lemma ListingFrame(docs: map<string, Named>, others: map<string, Named>, ids: seq<string>)
    requires forall id | id in ids :: id in docs && id in others && docs[id] == others[id]
    ensures Listing(docs, ids) == Listing(others, ids)
  {
  }

  lemma {:induction false} QueueCounts(ids: seq<string>, keys: set<string>)
    requires NoRepeats(ids) && forall id :: id in ids <==> id in keys
    ensures |ids| == |keys|
  {
    if ids == [] {
      assert keys == {};
    } else {
      var before, last := ids[..|ids| - 1], ids[|ids| - 1];
      assert ids == before + [last];
      assert forall i | 0 <= i < |before| :: before[i] == ids[i];
      assert last !in before;
      QueueCounts(before, keys - {last});
      assert keys == keys - {last} + {last};
    }
  }

  lemma {:induction false} DropAllMeans(d: Directory, ids: seq<string>)
    requires Sound(d)
    ensures Sound(DropAll(d, ids))
    ensures Complete(d) ==> Complete(DropAll(d, ids))
    ensures DropAll(d, ids).docs == d.docs - (set id | id in ids)
  {
    if ids != [] {
      var before, last := ids[..|ids| - 1], ids[|ids| - 1];
      DropAllMeans(d, before);
      SoundAfterDrop(DropAll(d, before), last);
      if Complete(d) {
        ExactAfterDrop(DropAll(d, before), last);
      }
      assert ids == before + [last];
      assert (set id | id in ids) == (set id | id in before) + {last};
    }
  }

  /** A newcomer pushes out the oldest user, or nobody when there is room. */
  lemma NewcomerEvicts(u: Users, incoming: Named, mode: StoreMode, settings: Settings, to: Users, c: nat)
    requires settings.wanted && settings.capacity == Some(c) && c > 0 && to == u.Store(incoming, mode, settings)
    requires Agrees(u, c) && incoming.id !in u.directory.docs && Sound(u.directory)
    ensures to.queue == if |u.queue| == c then u.queue[1..] + [incoming.id] else u.queue + [incoming.id]
    ensures to.directory.docs == u.directory.docs[incoming.id := incoming] -
                                 if |u.queue| == c then {u.queue[0]} else {}
  {
    var stored := Users(u.directory.Store(incoming, mode), u.queue);
    NewcomerCounts(u, incoming, mode, c);
    SoundAfterStore(u.directory, incoming, mode);
    assert to == stored.NoteNew(incoming.id, c);
    hide Agrees, Sound, Directory.Store, Users.Store;
    OneTooMany(stored, incoming.id, c);
  }

  lemma NewcomerCounts(u: Users, incoming: Named, mode: StoreMode, c: nat)
    requires Agrees(u, c) && incoming.id !in u.directory.docs
    ensures incoming.id !in u.queue && |u.queue| <= c
    ensures u.directory.Store(incoming, mode).docs == u.directory.docs[incoming.id := incoming]
    ensures |u.directory.Store(incoming, mode).docs| == |u.queue| + 1
  {
    var stored := u.directory.Store(incoming, mode);
    QueueCounts(u.queue, u.directory.docs.Keys);
    assert stored.docs.Keys == u.directory.docs.Keys + {incoming.id};
  }

  /** With one user more than the queue has, the front leaves if the queue was full. */
  lemma OneTooMany(u: Users, id: string, c: nat)
    requires Sound(u.directory) && id !in u.queue && |u.queue| <= c && c > 0 && |u.directory.docs| == |u.queue| + 1
    ensures u.NoteNew(id, c).queue == if |u.queue| == c then u.queue[1..] + [id] else u.queue + [id]
    ensures u.NoteNew(id, c).directory.docs == u.directory.docs - if |u.queue| == c then {u.queue[0]} else {}
  {
    var excess := if |u.queue| == c then 1 else 0;
    var victims := Victims(u.queue + [id], excess, id);
    FirstVictim(u.queue, excess, id);
    hide Victims, Sound;
    DropAllMeans(u.directory, victims);
  }

  /** With one to evict, the front of the queue goes; with none, nobody. */
  lemma FirstVictim(queue: seq<string>, excess: nat, newcomer: string)
    requires newcomer !in queue && excess <= 1 && (excess == 1 ==> queue != [])
    ensures excess == 0 ==> Victims(queue + [newcomer], excess, newcomer) == []
    ensures excess == 1 ==> Victims(queue + [newcomer], excess, newcomer) == [queue[0]]
    ensures excess == 1 ==> (queue + [newcomer])[1..] == queue[1..] + [newcomer]
  {
    var all := queue + [newcomer];
    if excess == 1 {
      assert all[0] == queue[0] && all[0] in queue;
      assert Victims(all[1..], 0, newcomer) == [];
    }
  }

  lemma NewcomerMeans(u: Users, incoming: Named, mode: StoreMode, settings: Settings, to: Users, c: nat)
    requires settings.wanted && settings.capacity == Some(c) && c > 0 && to == u.Store(incoming, mode, settings)
    requires Agrees(u, c) && incoming.id !in u.directory.docs && Sound(u.directory)
    ensures Agrees(to, c) && incoming.id in to.directory.docs
    ensures Meaning(to) == Enrol(Meaning(u), incoming, mode, c)
  {
    hide Users.Store, Agrees, Meaning, Lists, Sound;
    NewcomerEvicts(u, incoming, mode, settings, to, c);
    NotListed(u, c, incoming.id);
    QueueMoves(u, to, incoming, c);
  }

  lemma NotListed(u: Users, c: nat, id: string)
    requires Agrees(u, c) && id !in u.directory.docs
    ensures !Lists(Meaning(u), id)
  {
    forall i | 0 <= i < |Meaning(u)| ensures Meaning(u)[i].id != id {
      assert u.queue[i] in u.queue;
    }
  }

  lemma QueueMoves(u: Users, to: Users, incoming: Named, c: nat)
    requires Agrees(u, c) && c > 0 && incoming.id !in u.directory.docs
    requires to.queue == if |u.queue| == c then u.queue[1..] + [incoming.id] else u.queue + [incoming.id]
    requires to.directory.docs == u.directory.docs[incoming.id := incoming] -
                                  if |u.queue| == c then {u.queue[0]} else {}
    ensures Agrees(to, c) && incoming.id in to.directory.docs
    ensures var all := Meaning(u) + [incoming]; Meaning(to) == if |all| > c then all[|all| - c..] else all
  {
    var all, docs := u.queue + [incoming.id], u.directory.docs[incoming.id := incoming];
    WithNewcomer(u, incoming, c);
    assert |u.queue| <= c;
    hide NoRepeats, Listing, Agrees, Meaning;
    if |u.queue| == c {
      assert all[1..] == u.queue[1..] + [incoming.id];
      FirstLeaves(docs, all, to, c);
      assert (Meaning(u) + [incoming])[|all| - c..] == (Meaning(u) + [incoming])[1..];
    } else {
      EveryoneStays(docs, all, to, c);
    }
  }

  /** The users and their queue, before making room. */
  ghost predicate Lined(docs: map<string, Named>, all: seq<string>) {
    && NoRepeats(all)
    && (forall id :: id in all <==> id in docs)
    && (forall id | id in docs :: docs[id].id == id)
  }

  lemma FirstLeaves(docs: map<string, Named>, all: seq<string>, to: Users, c: nat)
    requires Lined(docs, all) && |all| == c + 1 && c > 0
    requires to.queue == all[1..] && to.directory.docs == docs - {all[0]}
    ensures Agrees(to, c) && Meaning(to) == Listing(docs, all)[1..] && all[c] in to.directory.docs
  {
    AllButFirst(docs, all);
    assert all[1..][c - 1] == all[c];
    hide NoRepeats, Listing;
  }

  lemma EveryoneStays(docs: map<string, Named>, all: seq<string>, to: Users, c: nat)
    requires Lined(docs, all) && 0 < |all| <= c
    requires to.queue == all && to.directory.docs == docs
    ensures Agrees(to, c) && Meaning(to) == Listing(docs, all) && all[|all| - 1] in docs
  {
    hide NoRepeats, Listing;
  }

  lemma WithNewcomer(u: Users, incoming: Named, c: nat)
    requires Agrees(u, c) && incoming.id !in u.directory.docs
    ensures var all, docs := u.queue + [incoming.id], u.directory.docs[incoming.id := incoming];
            && Lined(docs, all) && all[|all| - 1] == incoming.id && |all| <= c + 1
            && Listing(docs, all) == Meaning(u) + [incoming] && |Meaning(u)| == |u.queue|
  {
    var all, docs := u.queue + [incoming.id], u.directory.docs[incoming.id := incoming];
    NoRepeatsSnoc(u.queue, incoming.id);
    hide NoRepeats;
    forall id ensures id in all <==> id in docs {
      assert id in all <==> id in u.queue || id == incoming.id;
    }
    assert forall i | 0 <= i < |u.queue| :: u.queue[i] in u.queue;
  }

  lemma AllButFirst(docs: map<string, Named>, all: seq<string>)
    requires NoRepeats(all) && all != [] && forall id :: id in all <==> id in docs
    ensures NoRepeats(all[1..])
    ensures forall id :: id in all[1..] <==> id in docs - {all[0]}
    ensures Listing(docs - {all[0]}, all[1..]) == Listing(docs, all)[1..]
  {
    TailWithoutRepeats(all);
    hide NoRepeats;
    assert forall id | id in all[1..] :: id in all;
    forall id | id in docs - {all[0]} ensures id in all[1..] {
      var i :| 0 <= i < |all| && all[i] == id;
      assert all[1..][i - 1] == id;
    }
  }

  lemma TailWithoutRepeats(all: seq<string>)
    requires NoRepeats(all) && all != []
    ensures NoRepeats(all[1..]) && all[0] !in all[1..]
  {
    assert forall i | 0 <= i < |all| - 1 :: all[1..][i] == all[i + 1];
  }

  lemma RefreshMeans(u: Users, incoming: Named, mode: StoreMode, settings: Settings, c: nat)
    requires settings.wanted && Agrees(u, c) && incoming.id in u.directory.docs
    ensures var to := u.Store(incoming, mode, settings);
            Agrees(to, c) && Meaning(to) == Enrol(Meaning(u), incoming, mode, c)
  {
    var at :| 0 <= at < |u.queue| && u.queue[at] == incoming.id;
    assert Meaning(u)[at].id == incoming.id;
    assert forall i | 0 <= i < |u.queue| :: u.queue[i] in u.queue;
  }

  lemma {:induction false} DismissMeans(docs: map<string, Named>, queue: seq<string>, id: string)
    requires forall x | x in queue :: x in docs && docs[x].id == x
    ensures forall x | x in Without(queue, id) :: x in docs && x != id
    ensures Listing(docs, Without(queue, id)) == Dismiss(Listing(docs, queue), id)
  {
    WithoutMembers(queue, id);
    if queue != [] {
      var before, last := queue[..|queue| - 1], queue[|queue| - 1];
      DismissMeans(docs, before, id);
      assert Listing(docs, queue)[..|before|] == Listing(docs, before);
      if last != id {
        assert Listing(docs, Without(before, id) + [last]) == Listing(docs, Without(before, id)) + [docs[last]];
      }
    }
  }

  lemma RemovalMeans(u: Users, id: string, settings: Settings, c: nat)
    requires settings.capacity == Some(c) && Agrees(u, c)
    ensures var to := u.Remove(id, settings);
            Agrees(to, c) && Meaning(to) == Dismiss(Meaning(u), id)
  {
    var to := u.Remove(id, settings);
    RemovalState(u, id, settings, c);
    hide Users.Remove;
    WithoutMembers(u.queue, id);
    DismissMeans(u.directory.docs, u.queue, id);
    hide Without, Dismiss, NoRepeats, Listing;
    ListingFrame(u.directory.docs, to.directory.docs, to.queue);
  }

  lemma RemovalState(u: Users, id: string, settings: Settings, c: nat)
    requires settings.capacity == Some(c) && Agrees(u, c)
    ensures u.Remove(id, settings).queue == Without(u.queue, id)
    ensures u.Remove(id, settings).directory.docs == u.directory.docs - {id}
  {
    if id !in u.directory.docs {
      WithoutAbsent(u.queue, id);
    }
  }

  // ---- every run -----------------------------------------------------------------------------

  datatype Operation = Store(incoming: Named, mode: StoreMode) | Remove(id: string) | Clear

  function Apply(u: Users, op: Operation, settings: Settings): Users {
    match op
    case Store(incoming, mode) => u.Store(incoming, mode, settings)
    case Remove(id) => u.Remove(id, settings)
    case Clear => NOBODY
  }

  function Simply(roster: Roster, op: Operation, settings: Settings, capacity: nat): Roster {
    match op
    case Store(incoming, mode) => if settings.wanted then Enrol(roster, incoming, mode, capacity) else roster
    case Remove(id) => Dismiss(roster, id)
    case Clear => []
  }

  function Run(ops: seq<Operation>, settings: Settings): Users {
    if ops == [] then NOBODY else Apply(Run(ops[..|ops| - 1], settings), ops[|ops| - 1], settings)
  }

  function SimpleRun(ops: seq<Operation>, settings: Settings, capacity: nat): Roster {
    if ops == [] then []
    else Simply(SimpleRun(ops[..|ops| - 1], settings, capacity), ops[|ops| - 1], settings, capacity)
  }

  lemma EvictionStaysSound(u: Users, id: string, capacity: nat)
    requires Sound(u.directory)
    ensures Sound(u.NoteNew(id, capacity).directory)
  {
    var excess := if |u.directory.docs| > capacity then |u.directory.docs| - capacity else 0;
    DropAllMeans(u.directory, Victims(u.queue + [id], excess, id));
  }

  /** Usernames found by the index always belong to a cached user, after every operation of every run. */
  lemma UsernamesStaySound(u: Users, op: Operation, settings: Settings)
    requires Sound(u.directory)
    ensures Sound(Apply(u, op, settings).directory)
  {
    match op
    case Store(incoming, mode) =>
      SoundAfterStore(u.directory, incoming, mode);
      if settings.wanted && incoming.id !in u.directory.docs && settings.capacity.Some? {
        hide Users.NoteNew, Sound, Directory.Store;
        EvictionStaysSound(Users(u.directory.Store(incoming, mode), u.queue), incoming.id, settings.capacity.value);
      }
    case Remove(id) => SoundAfterDrop(u.directory, id);
    case Clear =>
  }

  /** With a capacity set, the cached users are the bounded first-in, first-out roster. */
  lemma {:induction false} UsersAreABoundedQueue(ops: seq<Operation>, settings: Settings, capacity: nat)
    requires settings.Valid() && settings.capacity == Some(capacity)
    ensures Sound(Run(ops, settings).directory) && Agrees(Run(ops, settings), capacity)
    ensures Meaning(Run(ops, settings)) == SimpleRun(ops, settings, capacity)
  {
    if ops != [] {
      var u, last := Run(ops[..|ops| - 1], settings), ops[|ops| - 1];
      UsersAreABoundedQueue(ops[..|ops| - 1], settings, capacity);
      UsernamesStaySound(u, last, settings);
      hide Sound, Agrees, Meaning, Enrol, Dismiss;
      match last
      case Store(incoming, mode) =>
        if settings.wanted {
          if incoming.id in u.directory.docs {
            RefreshMeans(u, incoming, mode, settings, capacity);
          } else {
            NewcomerMeans(u, incoming, mode, settings, u.Store(incoming, mode, settings), capacity);
          }
        }
      case Remove(id) => RemovalMeans(u, id, settings, capacity);
      case Clear => NobodyAgrees(capacity);
    } else {
      NobodyAgrees(capacity);
    }
  }

  lemma NobodyAgrees(capacity: nat)
    ensures Agrees(NOBODY, capacity) && Meaning(NOBODY) == []
  {
  }

  /** A user just stored is cached, whatever had to go. */
  lemma TheNewcomerStays(ops: seq<Operation>, settings: Settings, incoming: Named, mode: StoreMode)
    requires settings.Valid() && settings.wanted
    ensures incoming.id in Run(ops + [Operation.Store(incoming, mode)], settings).directory.docs
  {
    var u := Run(ops, settings);
    assert (ops + [Operation.Store(incoming, mode)])[..|ops|] == ops;
    if settings.capacity.Some? {
      UsersAreABoundedQueue(ops, settings, settings.capacity.value);
      if incoming.id !in u.directory.docs {
        NewcomerMeans(u, incoming, mode, settings, u.Store(incoming, mode, settings), settings.capacity.value);
      }
    }
  }

  // ---- exact usernames -----------------------------------------------------------------------

  lemma {:induction false} DropAllSpares(d: Directory, ids: seq<string>)
    ensures forall id :: id in DropAll(d, ids).docs <==> id in d.docs && id !in ids
    ensures forall id | id in DropAll(d, ids).docs :: DropAll(d, ids).docs[id] == d.docs[id]
    ensures forall name | name in d.index && d.index[name] !in ids ::
      name in DropAll(d, ids).index && DropAll(d, ids).index[name] == d.index[name]
  {
    if ids != [] {
      var before, last := ids[..|ids| - 1], ids[|ids| - 1];
      DropAllSpares(d, before);
      assert ids == before + [last];
    }
  }

  /** Storing may break only the names the stored document now shares with others; evicting them mends it. */
  lemma StoreThenEvict(d: Directory, incoming: Named, mode: StoreMode, victims: seq<string>)
    requires Complete(d) && incoming.id !in victims
    requires UniqueNames(DropAll(d.Store(incoming, mode), victims))
    ensures Complete(DropAll(d.Store(incoming, mode), victims))
  {
    var stored := d.Store(incoming, mode);
    var to := DropAll(stored, victims);
    DropAllSpares(stored, victims);
    if incoming.id in d.docs && d.docs[incoming.id].name.Some? {
      assert d.index[d.docs[incoming.id].name.value] == incoming.id;
    }
    forall id | id in to.docs && to.docs[id].name.Some?
      ensures to.docs[id].name.value in to.index && to.index[to.docs[id].name.value] == id
    {
      var name := to.docs[id].name.value;
      if id != incoming.id {
        assert d.docs[id] == to.docs[id] && d.index[name] == id;
        assert to.docs[incoming.id].name != Some(name);
        assert stored.index[name] == id;
      }
    }
  }

  lemma UsernamesExactWhileUnique(u: Users, op: Operation, settings: Settings)
    requires Sound(u.directory) && Complete(u.directory)
    ensures Complete(Apply(u, op, settings).directory) <==> UniqueNames(Apply(u, op, settings).directory)
  {
    var to := Apply(u, op, settings);
    if Complete(to.directory) {
      CompleteMeansUnique(to.directory);
    } else {
      match op
      case Store(incoming, mode) =>
        if settings.wanted && UniqueNames(to.directory) {
          ExactAfterStore(u, incoming, mode, settings);
        } else if !settings.wanted {
          CompleteMeansUnique(u.directory);
        }
      case Remove(id) => ExactAfterDrop(u.directory, id);
      case Clear =>
    }
  }

  lemma ExactAfterStore(u: Users, incoming: Named, mode: StoreMode, settings: Settings)
    requires settings.wanted && Complete(u.directory) && UniqueNames(u.Store(incoming, mode, settings).directory)
    ensures Complete(u.Store(incoming, mode, settings).directory)
  {
    var stored := u.directory.Store(incoming, mode);
    if incoming.id in u.directory.docs || settings.capacity.None? {
      assert DropAll(stored, []) == stored;
      StoreThenEvict(u.directory, incoming, mode, []);
    } else {
      var excess := if |stored.docs| > settings.capacity.value then |stored.docs| - settings.capacity.value else 0;
      StoreThenEvict(u.directory, incoming, mode, Victims(u.queue + [incoming.id], excess, incoming.id));
    }
  }

  /** In every run, with or without a capacity, every indexed username belongs to a cached user who bears it. */
  lemma {:induction false} EveryRunIsSound(ops: seq<Operation>, settings: Settings)
    ensures Sound(Run(ops, settings).directory)
  {
    if ops != [] {
      EveryRunIsSound(ops[..|ops| - 1], settings);
      hide Sound, Apply;
      UsernamesStaySound(Run(ops[..|ops| - 1], settings), ops[|ops| - 1], settings);
    }
  }

  /** In a run where no two cached users ever share a username, every cached username resolves to its bearer. */
  lemma {:induction false} UsernamesResolve(ops: seq<Operation>, settings: Settings)
    requires forall n | 0 <= n <= |ops| :: UniqueNames(Run(ops[..n], settings).directory)
    ensures Complete(Run(ops, settings).directory)
  {
    if ops != [] {
      var before := ops[..|ops| - 1];
      forall n | 0 <= n <= |before| ensures UniqueNames(Run(before[..n], settings).directory) {
        assert before[..n] == ops[..n];
      }
      UsernamesResolve(before, settings);
      EveryRunIsSound(before, settings);
      hide Sound, Complete, UniqueNames, Apply;
      assert ops[..|ops|] == ops;
      UsernamesExactWhileUnique(Run(before, settings), ops[|ops| - 1], settings);
    }
  }

  /** The username index is exact after every operation exactly when usernames are unique after every operation. */
  lemma UsernamesExactExactlyWhileUnique(ops: seq<Operation>, settings: Settings)
    ensures (forall n | 0 <= n <= |ops| :: Complete(Run(ops[..n], settings).directory)) <==>
            (forall n | 0 <= n <= |ops| :: UniqueNames(Run(ops[..n], settings).directory))
  {
    hide Complete, UniqueNames, Run;
    if forall n | 0 <= n <= |ops| :: UniqueNames(Run(ops[..n], settings).directory) {
      forall n | 0 <= n <= |ops| ensures Complete(Run(ops[..n], settings).directory) {
        assert forall m | 0 <= m <= |ops[..n]| :: ops[..n][..m] == ops[..m];
        UsernamesResolve(ops[..n], settings);
      }
    }
    if forall n | 0 <= n <= |ops| :: Complete(Run(ops[..n], settings).directory) {
      forall n | 0 <= n <= |ops| ensures UniqueNames(Run(ops[..n], settings).directory) {
        CompleteMeansUnique(Run(ops[..n], settings).directory);
      }
    }
  }
}
