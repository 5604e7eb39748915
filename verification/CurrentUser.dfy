/** The logged-in user, kept beside the users map so that no eviction can take it away. */
module CurrentUser {
  import opened Prelude
  import opened Protocol
  import opened CacheDocuments
  import NameIndex
  import UserQueue

  datatype Settings = Settings(users: UserQueue.Settings, wantsCurrent: bool) {
    predicate Valid() {
      users.Valid()
    }
  }

  /** `LogIn` is setting the current user, `Write` an update or a replacement of any user. */
  datatype Operation = LogIn(user: Named) | Write(user: Named, mode: StoreMode) | Remove(id: string) | Clear

  datatype Copies = Copies(users: UserQueue.Users, current: Option<Named>) {
    function Cached(id: string): Option<Named> {
      if id in users.directory.docs then Some(users.directory.docs[id]) else None
    }

    /** A user document, applied to the current user if it is about the same user. */
    function Refreshed(incoming: Named, mode: StoreMode, settings: Settings): Option<Named> {
      if settings.wantsCurrent && current.Some? && current.value.id == incoming.id
      then Some(current.value.StoredAs(incoming, mode))
      else current
    }

    function LogIn(user: Named, settings: Settings): Copies {
      Copies(users.Store(user, Merge, settings.users), if settings.wantsCurrent then Some(user) else current)
    }

    function Write(user: Named, mode: StoreMode, settings: Settings): Copies {
      Copies(users.Store(user, mode, settings.users), Refreshed(user, mode, settings))
    }

    function Apply(op: Operation, settings: Settings): Copies {
      match op
      case LogIn(user) => LogIn(user, settings)
      case Write(user, mode) => Write(user, mode, settings)
      case Remove(id) => Copies(users.Remove(id, settings.users), current)
      case Clear => NOTHING
    }

    /** The two copies of the current user, if there are two, are the same document. */
    predicate Agree() {
      current.Some? && Cached(current.value.id).Some? ==> Cached(current.value.id) == current
    }

    /**
     * The document is the whole of what is known: one that logs in brings all that is cached of its user,
     * and one that brings the current user back into the map brings all that is kept of her.
     */
    predicate Whole(op: Operation) {
      match op
      case LogIn(user) => Cached(user.id).Some? ==> Cached(user.id).value.MergedWith(user) == user
      case Write(user, mode) =>
        current.Some? && current.value.id == user.id && Cached(user.id).None? ==>
          current.value.StoredAs(user, mode) == user
      case _ => true
    }
  }

  const NOTHING := Copies(UserQueue.NOBODY, None)

  // ---- the users map -----------------------------------------------------------------------------------

  lemma {:induction false} DropAllDocs(d: NameIndex.Directory, ids: seq<string>)
    ensures UserQueue.DropAll(d, ids).docs == d.docs - (set id | id in ids)
  {
    if ids != [] {
      var before, last := ids[..|ids| - 1], ids[|ids| - 1];
      DropAllDocs(d, before);
      assert ids == before + [last];
      assert (set id | id in ids) == (set id | id in before) + {last};
    }
  }

  lemma NewcomerMeans(u: UserQueue.Users, id: string, capacity: nat) returns (gone: set<string>)
    ensures u.NoteNew(id, capacity).directory.docs == u.directory.docs - gone && id !in gone
  {
    var excess := if |u.directory.docs| > capacity then |u.directory.docs| - capacity else 0;
    var victims := UserQueue.Victims(u.queue + [id], excess, id);
    assert id !in victims;
    assert u.NoteNew(id, capacity).directory == UserQueue.DropAll(u.directory, victims);
    hide *;
    DropAllDocs(u.directory, victims);
    gone := set victim | victim in victims;
  }

  function StoredDocs(docs: map<string, Named>, incoming: Named, mode: StoreMode): map<string, Named> {
    docs[incoming.id := if incoming.id in docs then docs[incoming.id].StoredAs(incoming, mode) else incoming]
  }

  /** The stored user is cached, as stored; every other is as before or evicted. */
  lemma StoreMeans(u: UserQueue.Users, incoming: Named, mode: StoreMode, settings: UserQueue.Settings)
    returns (gone: set<string>)
    requires settings.wanted
    ensures incoming.id !in gone
    ensures u.Store(incoming, mode, settings).directory.docs == StoredDocs(u.directory.docs, incoming, mode) - gone
  {
    var stored := UserQueue.Users.Users(u.directory.Store(incoming, mode), u.queue);
    hide NameIndex.Reindexed, NameIndex.Directory.NameOf, UserQueue.Users.NoteNew;
    assert stored.directory.docs == StoredDocs(u.directory.docs, incoming, mode);
    hide StoredDocs, NameIndex.Directory.Store;
    gone := {};
    if incoming.id !in u.directory.docs && settings.capacity.Some? {
      gone := NewcomerMeans(stored, incoming.id, settings.capacity.value);
    } else {
      assert stored.directory.docs - gone == stored.directory.docs;
    }
  }

  // ---- when the copies drift -----------------------------------------------------------------------------

  /** From copies that agree: they agree afterwards if and only if the operation is whole. */
  lemma DriftsExactly(c: Copies, op: Operation, settings: Settings)
    requires settings.users.wanted && settings.wantsCurrent && c.Agree()
    ensures c.Apply(op, settings).Agree() <==> c.Whole(op)
  {
    hide UserQueue.DropAll, UserQueue.Victims, UserQueue.Users.Store;
    match op
    case LogIn(user) => var gone := StoreMeans(c.users, user, Merge, settings.users);
    case Write(user, mode) => var gone := StoreMeans(c.users, user, mode, settings.users);
    case Remove(id) =>
    case Clear =>
  }

  function Run(ops: seq<Operation>, settings: Settings): Copies {
    if ops == [] then NOTHING else Run(ops[..|ops| - 1], settings).Apply(ops[|ops| - 1], settings)
  }

  ghost predicate AlwaysAgree(ops: seq<Operation>, settings: Settings) {
    forall n | 0 <= n <= |ops| :: Run(ops[..n], settings).Agree()
  }

  ghost predicate AlwaysWhole(ops: seq<Operation>, settings: Settings) {
    forall n | 0 <= n < |ops| :: Run(ops[..n], settings).Whole(ops[n])
  }

  /** A cache that keeps no users, or no current user, has no two copies. */
  lemma {:induction false} OneCopyAgrees(ops: seq<Operation>, settings: Settings)
    requires !settings.users.wanted || !settings.wantsCurrent
    ensures !settings.wantsCurrent ==> Run(ops, settings).current == None
    ensures !settings.users.wanted ==> Run(ops, settings).users.directory.docs == map[]
    ensures Run(ops, settings).Agree()
    decreases |ops|
  {
    if ops != [] {
      OneCopyAgrees(ops[..|ops| - 1], settings);
    }
  }

  lemma NoOperations(settings: Settings)
    ensures AlwaysAgree([], settings) && AlwaysWhole([], settings)
  {
    var none: seq<Operation> := [];
    assert none[..0] == none && Run(none, settings) == NOTHING;
  }

  lemma OneMore(ops: seq<Operation>, before: seq<Operation>, last: Operation, settings: Settings)
    requires ops != [] && before == ops[..|ops| - 1] && last == ops[|ops| - 1]
    ensures ops == before + [last] && Run(ops, settings) == Run(before, settings).Apply(last, settings)
    ensures AlwaysAgree(before, settings) ==> Run(before, settings).Agree()
  {
    hide Copies.Agree, Copies.Apply;
    assert before[..|before|] == before;
    if AlwaysAgree(before, settings) {
      assert Run(before[..|before|], settings).Agree();
    }
  }

  lemma SplitsAtTheLast(ops: seq<Operation>, before: seq<Operation>, last: Operation, settings: Settings)
    requires ops == before + [last]
    ensures AlwaysAgree(ops, settings) <==> AlwaysAgree(before, settings) && Run(ops, settings).Agree()
    ensures AlwaysWhole(ops, settings) <==> AlwaysWhole(before, settings) && Run(before, settings).Whole(last)
  {
    hide Run, Copies.Agree, Copies.Whole;
    assert ops[..|ops|] == ops && ops[..|before|] == before;
    assert forall n | 0 <= n <= |before| :: ops[..n] == before[..n];
    assert forall n | 0 <= n < |before| :: ops[n] == before[n];
    if AlwaysAgree(ops, settings) {
      forall n | 0 <= n <= |before| ensures Run(before[..n], settings).Agree() {
        assert Run(ops[..n], settings).Agree();
      }
      assert Run(ops[..|ops|], settings).Agree();
    }
    if AlwaysWhole(ops, settings) {
      forall n | 0 <= n < |before| ensures Run(before[..n], settings).Whole(before[n]) {
        assert Run(ops[..n], settings).Whole(ops[n]);
      }
      assert Run(ops[..|before|], settings).Whole(ops[|before|]);
    }
    if AlwaysAgree(before, settings) && Run(ops, settings).Agree() {
      forall n | 0 <= n <= |ops| ensures Run(ops[..n], settings).Agree() {
        assert n <= |before| ==> Run(before[..n], settings).Agree();
      }
    }
    if AlwaysWhole(before, settings) && Run(before, settings).Whole(last) {
      forall n | 0 <= n < |ops| ensures Run(ops[..n], settings).Whole(ops[n]) {
        assert n < |before| ==> Run(before[..n], settings).Whole(before[n]);
      }
    }
  }

  lemma {:induction false} TwoCopiesAgreeExactly(ops: seq<Operation>, settings: Settings)
    requires settings.users.wanted && settings.wantsCurrent
    ensures AlwaysAgree(ops, settings) <==> AlwaysWhole(ops, settings)
  {
    hide *;
    if ops == [] {
      NoOperations(settings);
    } else {
      var before, last := ops[..|ops| - 1], ops[|ops| - 1];
      TwoCopiesAgreeExactly(before, settings);
      OneMore(ops, before, last, settings);
      SplitsAtTheLast(ops, before, last, settings);
      if AlwaysAgree(before, settings) {
        DriftsExactly(Run(before, settings), last, settings);
      }
    }
  }

  /**
   * Over every run the copies agree after each operation if and only if every operation is whole, or the
   * cache is not to keep two.
   */
  lemma CopiesAgreeExactlyWhileWhole(ops: seq<Operation>, settings: Settings)
    ensures AlwaysAgree(ops, settings) <==>
            (settings.users.wanted && settings.wantsCurrent ==> AlwaysWhole(ops, settings))
  {
    hide Run, Copies.Agree;
    if settings.users.wanted && settings.wantsCurrent {
      TwoCopiesAgreeExactly(ops, settings);
    } else {
      forall n | 0 <= n <= |ops| ensures Run(ops[..n], settings).Agree() {
        OneCopyAgrees(ops[..n], settings);
      }
    }
  }

  /** Whoever logged in last is still answered with, whatever was stored, evicted or removed since. */
  lemma {:induction false} NeverEvicted(ops: seq<Operation>, at: nat, settings: Settings)
    requires settings.wantsCurrent && at < |ops| && ops[at].LogIn?
    requires forall n | at < n < |ops| :: !ops[n].LogIn? && !ops[n].Clear?
    ensures Run(ops, settings).current.Some? && Run(ops, settings).current.value.id == ops[at].user.id
    decreases |ops|
  {
    if at < |ops| - 1 {
      hide UserQueue.Users.Store, UserQueue.Users.Remove;
      NeverEvicted(ops[..|ops| - 1], at, settings);
    }
  }

  // ---- two ways to drift -----------------------------------------------------------------------------------

  /** Logging in over a cached document with more fields leaves them in the map and not in the kept copy. */
  lemma LoggingInOverACachedUserDrifts(f: string, value: Json)
    ensures var settings := Settings(UserQueue.Settings(true, None), true);
            var ops := [Write(Named("u", None, map[f := value]), Replace), LogIn(Named("u", None, map[]))];
            !Run(ops, settings).Agree()
  {
    var settings := Settings(UserQueue.Settings(true, None), true);
    var first, second := Write(Named("u", None, map[f := value]), Replace), LogIn(Named("u", None, map[]));
    var ops := [first, second];
    assert ops[..1] == [first] && ops[..1][..0] == [];
    assert Run([first], settings) == NOTHING.Apply(first, settings);
    assert Run(ops, settings) == Run([first], settings).Apply(second, settings);
    var c := Run([first], settings);
    assert c.Cached("u") == Some(first.user) && c.Agree();
    DriftsExactly(c, second, settings);
    assert f in first.user.MergedWith(second.user).fields;
  }

  lemma TheOneMakesRoom(u: UserQueue.Users, id: string, other: Named)
    requires u.queue == [id] && u.directory.docs.Keys == {id} && other.id != id
    ensures id !in u.Store(other, Merge, UserQueue.Settings(true, Some(1))).directory.docs
  {
    var stored, queue := u.directory.Store(other, Merge), u.queue + [other.id];
    assert stored.docs.Keys == {id, other.id} && |stored.docs| == |stored.docs.Keys| == 2;
    assert queue[1..] == [other.id] && UserQueue.Victims(queue[1..], 0, other.id) == [];
    assert UserQueue.Victims(queue, 1, other.id) == [id] + [];
    DropAllDocs(stored, [id]);
  }

  /** Evicted and then seen again in part: the map has the part, the kept copy the whole. */
  lemma ComingBackInPartDrifts(f: string, value: Json)
    ensures var settings := Settings(UserQueue.Settings(true, Some(1)), true);
            var me, other, part := Named("u", None, map[f := value]), Named("v", None, map[]), Named("u", None, map[]);
            !Run([LogIn(me), Write(other, Merge), Write(part, Merge)], settings).Agree()
  {
    var settings := Settings(UserQueue.Settings(true, Some(1)), true);
    var me, other, part := Named("u", None, map[f := value]), Named("v", None, map[]), Named("u", None, map[]);
    var first, second, third := LogIn(me), Write(other, Merge), Write(part, Merge);
    var a := NOTHING.Apply(first, settings);
    var b := a.Apply(second, settings);
    LoggedInAlone(me, a);
    hide UserQueue.Users.Store;
    TheOneMakesRoom(a.users, "u", other);
    assert b.current == Some(me) && b.Cached("u").None?;
    assert f in me.MergedWith(part).fields;
    DriftsExactly(b, third, settings);
    ThreeSteps(first, second, third, settings);
  }

  lemma LoggedInAlone(me: Named, c: Copies)
    requires c == NOTHING.Apply(LogIn(me), Settings(UserQueue.Settings(true, Some(1)), true))
    ensures c.users.queue == [me.id] && c.users.directory.docs == map[me.id := me] && c.current == Some(me)
  {
  }

  lemma ThreeSteps(first: Operation, second: Operation, third: Operation, settings: Settings)
    ensures Run([first, second, third], settings) ==
            NOTHING.Apply(first, settings).Apply(second, settings).Apply(third, settings)
  {
    hide Copies.Apply;
    assert [first, second, third][..2] == [first, second] && [first, second][..1] == [first] && [first][..0] == [];
    assert Run([first], settings) == NOTHING.Apply(first, settings);
    assert Run([first, second], settings) == Run([first], settings).Apply(second, settings);
  }
}
