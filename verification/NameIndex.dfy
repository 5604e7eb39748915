/** Documents by id with a secondary index from name to id: rooms by name, users by username. */
module NameIndex {
  import opened Prelude
  import opened CacheDocuments

  /** Removes `name` from the index unless another document has claimed it since. */
  function Released(index: map<string, string>, name: Option<string>, id: string): map<string, string> {
    if name.Some? && name.value in index && index[name.value] == id then index - {name.value} else index
  }

  function Reindexed(index: map<string, string>, was: Option<string>, now: Option<string>, id: string)
    : map<string, string>
  {
    if was == now then index
    else
      var released := Released(index, was, id);
      if now.Some? then released[now.value := id] else released
  }

  datatype Directory = Directory(docs: map<string, Named>, index: map<string, string>) {
    function NameOf(id: string): Option<string> {
      if id in docs then docs[id].name else None
    }

    function Stored(incoming: Named, mode: StoreMode): Named {
      if incoming.id in docs then docs[incoming.id].StoredAs(incoming, mode) else incoming
    }

    function Store(incoming: Named, mode: StoreMode): Directory {
      var stored := Stored(incoming, mode);
      Directory(docs[incoming.id := stored], Reindexed(index, NameOf(incoming.id), stored.name, incoming.id))
    }

    function Drop(id: string): Directory {
      Directory(docs - {id}, Released(index, NameOf(id), id))
    }
  }

  const EMPTY := Directory(map[], map[])

  /** Every entry points to a cached document that bears exactly that name. */
  ghost predicate Sound(d: Directory) {
    forall name | name in d.index :: d.NameOf(d.index[name]) == Some(name)
  }

  /** Every name a cached document bears leads to that document. */
  ghost predicate Complete(d: Directory) {
    forall id | id in d.docs && d.docs[id].name.Some? ::
      d.docs[id].name.value in d.index && d.index[d.docs[id].name.value] == id
  }

  ghost predicate UniqueNames(d: Directory) {
    forall a, b | a in d.docs && b in d.docs && d.docs[a].name.Some? && d.docs[a].name == d.docs[b].name :: a == b
  }

  /** Through rename, takeover and removal the index never lies. */
  lemma IndexStaysSound(d: Directory, incoming: Named, mode: StoreMode, id: string)
    requires Sound(d)
    ensures Sound(d.Store(incoming, mode)) && Sound(d.Drop(id))
  {
    SoundAfterStore(d, incoming, mode);
    SoundAfterDrop(d, id);
  }

  lemma SoundAfterStore(d: Directory, incoming: Named, mode: StoreMode)
    requires Sound(d)
    ensures Sound(d.Store(incoming, mode))
  {
    var to := d.Store(incoming, mode);
    forall name | name in to.index ensures to.NameOf(to.index[name]) == Some(name) {
      if name in d.index && to.index[name] == d.index[name] {
        assert d.NameOf(d.index[name]) == Some(name);
      }
    }
  }

  lemma SoundAfterDrop(d: Directory, id: string)
    requires Sound(d)
    ensures Sound(d.Drop(id))
  {
    var to := d.Drop(id);
    forall name | name in to.index ensures to.NameOf(to.index[name]) == Some(name) {
      assert d.NameOf(d.index[name]) == Some(name);
    }
  }

  /** From an exact index, storing leaves it exact exactly when no two cached documents share a name. */
  lemma ExactWhileNamesAreUnique(d: Directory, incoming: Named, mode: StoreMode)
    requires Sound(d) && Complete(d)
    ensures Complete(d.Store(incoming, mode)) <==> UniqueNames(d.Store(incoming, mode))
  {
    var to := d.Store(incoming, mode);
    if UniqueNames(to) {
      forall id | id in to.docs && to.docs[id].name.Some?
        ensures to.docs[id].name.value in to.index && to.index[to.docs[id].name.value] == id
      {
        if id != incoming.id {
          var name := d.docs[id].name;
          assert name.value in d.index && d.index[name.value] == id;
          assert to.docs[incoming.id].name != name;
        }
      }
    }
  }

  lemma ExactAfterDrop(d: Directory, id: string)
    requires Sound(d) && Complete(d)
    ensures Complete(d.Drop(id))
  {
    forall other | other in d.docs && other != id && d.docs[other].name.Some?
      ensures d.docs[other].name.value in d.Drop(id).index && d.Drop(id).index[d.docs[other].name.value] == other
    {
      assert d.index[d.docs[other].name.value] == other;
    }
  }

  /** A name taken over and then given up resolves to nobody, though its first bearer is still cached. */
  lemma TakeoverThenRenameLosesTheName()
    ensures var a, b := Named("a", Some("general"), map[]), Named("b", Some("general"), map[]);
            var d := EMPTY.Store(a, Replace).Store(b, Replace).Store(b.(name := Some("random")), Replace);
            Sound(d) && UniqueNames(d) && d.NameOf("a") == Some("general") && "general" !in d.index
  {
    var a, b := Named("a", Some("general"), map[]), Named("b", Some("general"), map[]);
    var one := EMPTY.Store(a, Replace);
    assert one.docs == map["a" := a] && one.index == map["general" := "a"];
    var two := one.Store(b, Replace);
    assert two.docs == map["a" := a, "b" := b] && two.index == map["general" := "b"];
  }

  /** Names found by the index are found by a scan, and the converse when the index is exact. */
  lemma LookupIsAScan(d: Directory, name: string, id: string)
    requires Sound(d) && Complete(d)
    ensures (name in d.index && d.index[name] == id) <==> (id in d.docs && d.docs[id].name == Some(name))
  {
    if name in d.index && d.index[name] == id {
      assert d.NameOf(d.index[name]) == Some(name);
    }
  }

  lemma CompleteMeansUnique(d: Directory)
    requires Complete(d)
    ensures UniqueNames(d)
  {
    forall a, b | a in d.docs && b in d.docs && d.docs[a].name.Some? && d.docs[a].name == d.docs[b].name
      ensures a == b
    {
      assert d.index[d.docs[a].name.value] == a;
      assert d.index[d.docs[b].name.value] == b;
    }
  }

  // ---- every run, for rooms --------------------------------------------------------------------

  datatype Operation = Store(incoming: Named, mode: StoreMode) | Drop(id: string) | Clear

  function Apply(d: Directory, op: Operation): Directory {
    match op
    case Store(incoming, mode) => d.Store(incoming, mode)
    case Drop(id) => d.Drop(id)
    case Clear => EMPTY
  }

  function Run(ops: seq<Operation>): Directory {
    if ops == [] then EMPTY else Apply(Run(ops[..|ops| - 1]), ops[|ops| - 1])
  }

  /** In every run, every indexed name belongs to a cached document that bears it. */
  lemma {:induction false} EveryRunIsSound(ops: seq<Operation>)
    ensures Sound(Run(ops))
  {
    if ops != [] {
      var d := Run(ops[..|ops| - 1]);
      EveryRunIsSound(ops[..|ops| - 1]);
      hide Sound;
      match ops[|ops| - 1]
      case Store(incoming, mode) => SoundAfterStore(d, incoming, mode);
      case Drop(id) => SoundAfterDrop(d, id);
      case Clear => EmptyIsExact();
    } else {
      EmptyIsExact();
    }
  }

  lemma EmptyIsExact()
    ensures Sound(EMPTY) && Complete(EMPTY)
  {
  }

  lemma OperationKeepsExact(d: Directory, op: Operation)
    requires Sound(d) && Complete(d) && UniqueNames(Apply(d, op))
    ensures Complete(Apply(d, op))
  {
    match op
    case Store(incoming, mode) => ExactWhileNamesAreUnique(d, incoming, mode);
    case Drop(id) => ExactAfterDrop(d, id);
    case Clear => EmptyIsExact();
  }

  lemma {:induction false} UniqueRunIsExact(ops: seq<Operation>)
    requires forall n | 0 <= n <= |ops| :: UniqueNames(Run(ops[..n]))
    ensures Complete(Run(ops))
  {
    hide Complete, UniqueNames, Apply;
    if ops != [] {
      var before := ops[..|ops| - 1];
      forall n | 0 <= n <= |before| ensures UniqueNames(Run(before[..n])) {
        assert before[..n] == ops[..n];
      }
      UniqueRunIsExact(before);
      EveryRunIsSound(before);
      assert ops[..|ops|] == ops;
      OperationKeepsExact(Run(before), ops[|ops| - 1]);
    } else {
      EmptyIsExact();
    }
  }

  /** The index is exact after every operation of a run exactly when names are unique after every operation. */
  lemma RunIsExactExactlyWhileUnique(ops: seq<Operation>)
    ensures (forall n | 0 <= n <= |ops| :: Complete(Run(ops[..n]))) <==>
            (forall n | 0 <= n <= |ops| :: UniqueNames(Run(ops[..n])))
  {
    hide Complete, UniqueNames, Run;
    if forall n | 0 <= n <= |ops| :: UniqueNames(Run(ops[..n])) {
      forall n | 0 <= n <= |ops| ensures Complete(Run(ops[..n])) {
        assert forall m | 0 <= m <= |ops[..n]| :: ops[..n][..m] == ops[..m];
        UniqueRunIsExact(ops[..n]);
      }
    }
    if forall n | 0 <= n <= |ops| :: Complete(Run(ops[..n])) {
      forall n | 0 <= n <= |ops| ensures UniqueNames(Run(ops[..n])) {
        CompleteMeansUnique(Run(ops[..n]));
      }
    }
  }
}
