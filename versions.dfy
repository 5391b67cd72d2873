/**
 * The snapshot store behind the `Versioning*` operations. Its internals
 * belong to a separate library, so it is modelled by what the blog store can
 * see: the calls made on it, in order, each answered by the library.
 */
module Versions {
  import opened Outcomes
  import Posts

  /** One snapshot of an entity. */
  datatype Version = Version(id: string, entityType: string, entityId: string, content: Posts.SnapshotText, createdAt: string)

  /** `NewVersioningQuery()` with the fields the blog store sets. */
  datatype VersionQuery = VersionQuery(entityType: string, entityId: string, orderBy: string, sortOrder: string, limit: Option<int>)

  /** A call made on the snapshot store. */
  datatype VersionCall =
    | Create(version: Version)
    | Delete(version: Version)
    | DeleteById(id: string)
    | FindById(id: string)
    | List(query: VersionQuery)
    | SoftDelete(version: Version)
    | SoftDeleteById(id: string)
    | Update(version: Version)
    | AutoMigrate

  class VersionStore {
    /** Every call made on this store, oldest first. */
    var calls: seq<VersionCall>

    constructor ()
      ensures calls == []
    {
      calls := [];
    }

    /** One call on the store, answered with `reply`. */
    method Call(c: VersionCall, reply: Outcome) returns (err: Outcome)
      modifies this
      ensures calls == old(calls) + [c] && err == reply
    {
      calls := calls + [c];
      err := reply;
    }
  }
}
