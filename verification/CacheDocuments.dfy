/** The cached documents, and merging a partial one into what is already cached. */
module CacheDocuments {
  import opened Prelude
  import opened Protocol

  datatype StoreMode = Merge | Replace

  datatype TombstonePolicy = KeepReplaced | Evict

  function Overlay<T>(cached: Option<T>, incoming: Option<T>): Option<T> {
    if incoming.Some? then incoming else cached
  }

  /** A message: its identity, its room, the fields a tombstone is recognised by, and the rest. */
  datatype Message = Message(id: string, rid: string, kind: Option<string>, editedAt: Option<string>,
                             fields: map<string, Json>)
  {
    predicate IsTombstone() {
      editedAt.Some? && kind == Some("rm")
    }

    /** Every field the incoming message carried, over what was cached. */
    function MergedWith(incoming: Message): Message {
      Message(incoming.id, incoming.rid, Overlay(kind, incoming.kind), Overlay(editedAt, incoming.editedAt),
              fields + incoming.fields)
    }

    function StoredAs(incoming: Message, mode: StoreMode): Message {
      match mode case Merge => MergedWith(incoming) case Replace => incoming
    }
  }

  /** A room or a user: found by `name`, which is the room's name or the user's username. */
  datatype Named = Named(id: string, name: Option<string>, fields: map<string, Json>) {
    function MergedWith(incoming: Named): Named {
      Named(incoming.id, Overlay(name, incoming.name), fields + incoming.fields)
    }

    function StoredAs(incoming: Named, mode: StoreMode): Named {
      match mode case Merge => MergedWith(incoming) case Replace => incoming
    }
  }

  /** The logged-in user's own record of a room. */
  datatype Membership = Membership(rid: string, fields: map<string, Json>) {
    function StoredAs(incoming: Membership, mode: StoreMode): Membership {
      match mode
      case Merge => Membership(incoming.rid, fields + incoming.fields)
      case Replace => incoming
    }
  }
}
