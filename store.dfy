/**
 * The current post store: the post table and its operations, the tracking
 * step that records a snapshot after each write, and the `Versioning*`
 * pass-throughs to the snapshot store. Every answer of the database and of
 * the snapshot library is a parameter: `db` is how the statement went,
 * `track` how the tracking step went, `reply` what the library returned.
 */
module Stores {
  import opened Outcomes
  import opened Fields
  import opened Consts
  import opened Tables
  import opened Query
  import opened Posts
  import opened Versions
  import Neighbours
  import Decimal

  /** One run of the tracking step (`versioningTrackEntity`), with the post's snapshot content at that moment. */
  datatype TrackCall = TrackCall(entityType: string, entityId: string, content: SnapshotText)

  /** What the database answered to the count query: the text of the first row's count column, an error, or no row. */
  datatype CountReply = Answered(count: string) | QueryFailed(error: string) | NoRow

  /** The error `strconv.ParseInt` reports for text that is not a decimal 64-bit integer. */
  const ParseIntError := "strconv.ParseInt: invalid syntax"

  /** What the database answers when it counts `n` rows. */
  function CountText(n: nat): CountReply {
    Answered(Decimal.FormatInt(n))
  }

  /** The columns an update may write: the dirty ones except id, hash and data. */
  function UpdateChanges(data: Row, changed: set<string>): (r: Row)
    ensures r.Keys == data.Keys * changed - {ColumnId, "hash", "data"}
    ensures forall k :: k in r ==> r[k] == data[k]
  {
    Restrict(data, changed - {ColumnId, "hash", "data"})
  }

  /** The options `PostFindByID` lists with. */
  function FindOptions(id: string): PostQueryOptions {
    NoOptions.(id := id, limit := 1)
  }

  /** What soft-deleting the found row `row` leaves behind: its soft_deleted_at set to `now`, one tracking step. */
  ghost predicate SoftDeletedByID(row: Row, now: string, db: Outcome, track: Outcome,
                                  table0: Table, calls0: seq<TrackCall>, table: Table, calls: seq<TrackCall>, err: Outcome)
  {
    && table == (if db.Pass? then UpdateRows(table0, Get(row, ColumnId), map[ColumnSoftDeletedAt := Text(now)]) else table0)
    && calls == calls0 + [TrackCall(VersioningTypePost, Get(row, ColumnId), Json(SnapshotContent(row[ColumnSoftDeletedAt := Text(now)])))]
    && err == (if track.Fail? then track else db)
  }

  /** A clean post whose soft_deleted_at was set writes that one column, and keeps its id. */
  lemma SoftDeleteChanges(row: Row, now: string)
    ensures UpdateChanges(row[ColumnSoftDeletedAt := Text(now)], {ColumnSoftDeletedAt}) == map[ColumnSoftDeletedAt := Text(now)]
    ensures Get(row[ColumnSoftDeletedAt := Text(now)], ColumnId) == Get(row, ColumnId)
  {
  }

  class Store {
    /** The rows of the post table, in insertion order. */
    var table: Table
    /** The tracking steps run so far, oldest first. */
    var trackCalls: seq<TrackCall>
    var debugEnabled: bool
    const postTableName: string
    const dbDriverName: string
    const timeoutSeconds: int
    const automigrateEnabled: bool
    const versioningEnabled: bool
    const versioningStore: VersionStore?

    /** The table's primary key holds. */
    predicate Valid()
      reads this
    {
      UniqueIds(table)
    }

    /** The `&store{...}` literal of `NewStore`, over a database whose post table holds `rows`; the id primary key keeps their ids unique. */
    constructor (rows: Table, postTableName: string, dbDriverName: string, automigrateEnabled: bool,
                 debugEnabled: bool, versioningEnabled: bool, versioningStore: VersionStore?)
      requires UniqueIds(rows)
      ensures Valid()
      ensures table == rows && trackCalls == []
      ensures this.postTableName == postTableName && this.dbDriverName == dbDriverName
      ensures this.automigrateEnabled == automigrateEnabled && this.debugEnabled == debugEnabled
      ensures this.versioningEnabled == versioningEnabled && this.versioningStore == versioningStore
      ensures timeoutSeconds == 2 * 60 * 60
    {
      table := rows;
      trackCalls := [];
      this.postTableName := postTableName;
      this.dbDriverName := dbDriverName;
      this.automigrateEnabled := automigrateEnabled;
      this.debugEnabled := debugEnabled;
      this.versioningEnabled := versioningEnabled;
      this.versioningStore := versioningStore;
      timeoutSeconds := 2 * 60 * 60;
    }

    function VersioningEnabled(): bool { versioningEnabled }

    method EnableDebug(debug: bool) returns (s: Store)
      modifies this
      ensures s == this && debugEnabled == debug
      ensures table == old(table) && trackCalls == old(trackCalls)
    {
      debugEnabled := debug;
      s := this;
    }

    /** `AutoMigrate`: create the post table, then, with versioning on, migrate the snapshot store. */
    method AutoMigrate(db: Outcome, reply: Outcome) returns (err: Outcome)
      modifies versioningStore
      ensures db.Fail? ==> err == db && (versioningStore != null ==> versioningStore.calls == old(versioningStore.calls))
      ensures db.Pass? && !versioningEnabled ==> err == Pass && (versioningStore != null ==> versioningStore.calls == old(versioningStore.calls))
      ensures db.Pass? && versioningEnabled && versioningStore == null ==> err == Fail("versioning store is nil")
      ensures db.Pass? && versioningEnabled && versioningStore != null ==>
        err == reply && versioningStore.calls == old(versioningStore.calls) + [VersionCall.AutoMigrate]
    {
      if db.Fail? {
        return db;
      }
      if versioningEnabled {
        if versioningStore == null {
          return Fail("versioning store is nil");
        }
        err := versioningStore.Call(VersionCall.AutoMigrate, reply);
        return;
      }
      err := Pass;
    }

    /** The tracking step: its content is the post's snapshot, its outcome is `reply`. */
    method TrackEntity(entityType: string, entityId: string, post: Post, reply: Outcome) returns (err: Outcome)
      modifies this
      ensures trackCalls == old(trackCalls) + [TrackCall(entityType, entityId, post.MarshalToVersioning())]
      ensures err == reply && table == old(table) && debugEnabled == old(debugEnabled)
    {
      trackCalls := trackCalls + [TrackCall(entityType, entityId, post.MarshalToVersioning())];
      err := reply;
    }

    /**
     * `PostCreate`: stamp created_at and updated_at, insert the whole field
     * map; only after a successful insert clear the dirty set and track.
     */
    method PostCreate(post: Post, now: string, db: Outcome, track: Outcome) returns (err: Outcome)
      modifies this, post
      ensures post.data == old(post.data)[ColumnCreatedAt := Text(now)][ColumnUpdatedAt := Text(now)]
      ensures InsertOutcome(old(table), post.data, db).Fail? ==>
        && err == InsertOutcome(old(table), post.data, db)
        && table == old(table) && trackCalls == old(trackCalls)
        && post.changed == old(post.changed) + {ColumnCreatedAt, ColumnUpdatedAt}
      ensures InsertOutcome(old(table), post.data, db).Pass? ==>
        && table == old(table) + [post.data]
        && post.changed == {}
        && trackCalls == old(trackCalls) + [TrackCall(VersioningTypePost, post.Id(), post.MarshalToVersioning())]
        && err == track
      ensures old(Valid()) ==> Valid()
    {
      var _ := post.SetCreatedAt(now);
      var _ := post.SetUpdatedAt(now);
      var data := post.data;
      var outcome := InsertOutcome(table, data, db);
      if outcome.Fail? {
        return outcome;
      }
      if UniqueIds(table) {
        InsertKeepsUnique(table, data, db);
      }
      table := table + [data];
      post.MarkAsNotDirty();
      err := TrackEntity(VersioningTypePost, post.Id(), post, track);
    }

    /**
     * `PostUpdate`: write the dirty columns (id, hash and data excepted) to
     * the row with the post's id; with nothing to write it does nothing.
     * After the write, whatever it returned, the dirty set is cleared and
     * the tracking step runs; its error wins over the write's.
     */
    method PostUpdate(post: Post?, db: Outcome, track: Outcome) returns (err: Outcome)
      modifies this, post
      ensures post == null ==> err == Fail("order is nil") && table == old(table) && trackCalls == old(trackCalls)
      ensures post != null ==> post.data == old(post.data)
      ensures post != null && UpdateChanges(old(post.data), old(post.changed)) == map[] ==>
        err == Pass && table == old(table) && trackCalls == old(trackCalls) && post.changed == old(post.changed)
      ensures post != null && UpdateChanges(old(post.data), old(post.changed)) != map[] ==>
        && table == (if db.Pass? then UpdateRows(old(table), post.Id(), UpdateChanges(old(post.data), old(post.changed))) else old(table))
        && post.changed == {}
        && trackCalls == old(trackCalls) + [TrackCall(VersioningTypePost, post.Id(), post.MarshalToVersioning())]
        && err == (if track.Fail? then track else db)
      ensures old(Valid()) ==> Valid()
    {
      if post == null {
        return Fail("order is nil");
      }
      var changes := UpdateChanges(post.data, post.changed);
      if changes == map[] {
        return Pass;
      }
      UpdateKeepsIds(table, post.Id(), changes);
      if db.Pass? {
        table := UpdateRows(table, post.Id(), changes);
      }
      post.MarkAsNotDirty();
      var err2 := TrackEntity(VersioningTypePost, post.Id(), post, track);
      if err2.Fail? {
        return err2;
      }
      err := db;
    }

    /** `PostList`: the rows the query selects, each hydrated into a clean post. */
    method PostList(o: PostQueryOptions, now: string, db: Outcome) returns (list: seq<Post>, err: Outcome)
      ensures db.Fail? ==> list == [] && err == db
      ensures db.Pass? ==> err == Pass && |list| == |Eval(BuildQuery(o, now), table)|
      ensures db.Pass? ==> forall i :: 0 <= i < |list| ==>
        fresh(list[i]) && list[i].data == Eval(BuildQuery(o, now), table)[i] && list[i].changed == {}
    {
      if db.Fail? {
        return [], db;
      }
      var rows := Eval(BuildQuery(o, now), table);
      list := PostsFromRows(rows);
      err := Pass;
    }

    /**
     * `PostCount`: the count query's answer parsed as a 64-bit integer; -1
     * with the error when the query or the parse fails, -1 without one when
     * no row comes back. When the database counts the selected rows, that
     * number is the result.
     */
    method PostCount(o: PostQueryOptions, now: string, reply: CountReply) returns (n: int, err: Outcome)
      ensures reply.Answered? && Decimal.ParseInt64(reply.count).Some? ==> n == Decimal.ParseInt64(reply.count).value && err == Pass
      ensures reply.Answered? && Decimal.ParseInt64(reply.count).None? ==> n == -1 && err == Fail(ParseIntError)
      ensures reply.QueryFailed? ==> n == -1 && err == Fail(reply.error)
      ensures reply.NoRow? ==> n == -1 && err == Pass
      ensures reply == CountText(CountRows(o, now, table)) && CountRows(o, now, table) <= Decimal.MaxInt64 ==>
        n == CountRows(o, now, table) && err == Pass
    {
      if reply == CountText(CountRows(o, now, table)) && CountRows(o, now, table) <= Decimal.MaxInt64 {
        Decimal.FormatParseRoundTrip(CountRows(o, now, table));
      }
      match reply
      case QueryFailed(e) => n, err := -1, Fail(e);
      case NoRow => n, err := -1, Pass;
      case Answered(text) =>
        var parsed := Decimal.ParseInt64(text);
        if parsed.None? {
          return -1, Fail(ParseIntError);
        }
        n, err := parsed.value, Pass;
    }

    /** `PostFindByID`: an empty id is refused before any query; otherwise the visible post with that id, if any. */
    method PostFindByID(id: string, now: string, db: Outcome) returns (post: Post?, err: Outcome)
      ensures id == "" ==> post == null && err == Fail("post id is empty")
      ensures id != "" && db.Fail? ==> post == null && err == db
      ensures id != "" && db.Pass? ==> err == Pass
      ensures id != "" && db.Pass? ==> (post == null <==> Eval(BuildQuery(FindOptions(id), now), table) == [])
      ensures post != null ==> fresh(post) && post.changed == {} && post.data == Eval(BuildQuery(FindOptions(id), now), table)[0]
    {
      if id == "" {
        return null, Fail("post id is empty");
      }
      var list;
      list, err := PostList(FindOptions(id), now, db);
      if err.Fail? {
        return null, err;
      }
      if |list| > 0 {
        return list[0], Pass;
      }
      post := null;
    }

    /** `PostFindPrevious`: one visible post created before this one, in no set order (see `Neighbours`). */
    method PostFindPrevious(post: Post, now: string, db: Outcome) returns (found: Post?, err: Outcome)
      ensures db.Fail? ==> found == null && err == db
      ensures db.Pass? ==> err == Pass
      ensures db.Pass? ==> (found == null <==> Eval(BuildQuery(Neighbours.PreviousOptionsAsWritten(post.CreatedAt()), now), table) == [])
      ensures db.Pass? ==> (found == null <==> forall x :: x in table ==> !Neighbours.EarlierVisible(x, Posts.CarbonDateTime(post.CreatedAt()), now))
      ensures found != null ==> fresh(found) && found.data == Eval(BuildQuery(Neighbours.PreviousOptionsAsWritten(post.CreatedAt()), now), table)[0]
      ensures found != null ==> found.data in table && Neighbours.EarlierVisible(found.data, Posts.CarbonDateTime(post.CreatedAt()), now)
    {
      Neighbours.PreviousAsWrittenIsEarlier(post.CreatedAt(), now, table);
      var list;
      list, err := PostList(Neighbours.PreviousOptionsAsWritten(post.CreatedAt()), now, db);
      if err.Fail? {
        return null, err;
      }
      found := if |list| > 0 then list[0] else null;
    }

    /** `PostFindNext`: one visible post created after this one, in no set order (see `Neighbours`). */
    method PostFindNext(post: Post, now: string, db: Outcome) returns (found: Post?, err: Outcome)
      ensures db.Fail? ==> found == null && err == db
      ensures db.Pass? ==> err == Pass
      ensures db.Pass? ==> (found == null <==> Eval(BuildQuery(Neighbours.NextOptionsAsWritten(post.CreatedAt()), now), table) == [])
      ensures db.Pass? ==> (found == null <==> forall x :: x in table ==> !Neighbours.LaterVisible(x, Posts.CarbonDateTime(post.CreatedAt()), now))
      ensures found != null ==> fresh(found) && found.data == Eval(BuildQuery(Neighbours.NextOptionsAsWritten(post.CreatedAt()), now), table)[0]
      ensures found != null ==> found.data in table && Neighbours.LaterVisible(found.data, Posts.CarbonDateTime(post.CreatedAt()), now)
    {
      Neighbours.NextAsWrittenIsLater(post.CreatedAt(), now, table);
      var list;
      list, err := PostList(Neighbours.NextOptionsAsWritten(post.CreatedAt()), now, db);
      if err.Fail? {
        return null, err;
      }
      found := if |list| > 0 then list[0] else null;
    }

    /** `PostDeleteByID`: an empty id is refused; otherwise the row with that id is removed. */
    method PostDeleteByID(id: string, db: Outcome) returns (err: Outcome)
      modifies this
      ensures id == "" ==> err == Fail("post id is empty") && table == old(table)
      ensures id != "" && db.Fail? ==> err == db && table == old(table)
      ensures id != "" && db.Pass? ==> err == Pass && table == DeleteRows(old(table), id)
      ensures trackCalls == old(trackCalls)
      ensures old(Valid()) ==> Valid()
    {
      if id == "" {
        return Fail("post id is empty");
      }
      if db.Fail? {
        return db;
      }
      if UniqueIds(table) {
        DeleteKeepsUnique(table, id);
      }
      table := DeleteRows(table, id);
      err := Pass;
    }

    method PostDelete(post: Post?, db: Outcome) returns (err: Outcome)
      modifies this
      ensures post == null ==> err == Fail("post is nil") && table == old(table)
      ensures post != null && post.Id() == "" ==> err == Fail("post id is empty") && table == old(table)
      ensures post != null && post.Id() != "" && db.Fail? ==> err == db && table == old(table)
      ensures post != null && post.Id() != "" && db.Pass? ==> err == Pass && table == DeleteRows(old(table), post.Id())
      ensures trackCalls == old(trackCalls)
      ensures old(Valid()) ==> Valid()
    {
      if post == null {
        return Fail("post is nil");
      }
      err := PostDeleteByID(post.Id(), db);
    }

    /** `PostSoftDelete`: set soft_deleted_at to now and persist it with `PostUpdate`. */
    method PostSoftDelete(post: Post?, now: string, db: Outcome, track: Outcome) returns (err: Outcome)
      modifies this, post
      ensures post == null ==> err == Fail("post is nil") && table == old(table) && trackCalls == old(trackCalls)
      ensures post != null ==> post.data == old(post.data)[ColumnSoftDeletedAt := Text(now)] && post.changed == {}
      ensures post != null ==>
        && table == (if db.Pass? then UpdateRows(old(table), post.Id(), UpdateChanges(post.data, old(post.changed) + {ColumnSoftDeletedAt})) else old(table))
        && trackCalls == old(trackCalls) + [TrackCall(VersioningTypePost, post.Id(), post.MarshalToVersioning())]
        && err == (if track.Fail? then track else db)
      ensures old(Valid()) ==> Valid()
    {
      if post == null {
        return Fail("post is nil");
      }
      var _ := post.SetSoftDeletedAt(now);
      assert ColumnSoftDeletedAt in UpdateChanges(post.data, post.changed);
      err := PostUpdate(post, db, track);
    }

    /**
     * `PostSoftDeleteByID`: find the visible post, then soft-delete it; a
     * missing or already hidden post is reported as "post is nil".
     */
    method PostSoftDeleteByID(id: string, now: string, dbFind: Outcome, dbUpdate: Outcome, track: Outcome) returns (err: Outcome)
      modifies this
      ensures id == "" ==> err == Fail("post id is empty") && table == old(table) && trackCalls == old(trackCalls)
      ensures id != "" && dbFind.Fail? ==> err == dbFind && table == old(table) && trackCalls == old(trackCalls)
      ensures id != "" && dbFind.Pass? && Eval(BuildQuery(FindOptions(id), now), old(table)) == [] ==>
        err == Fail("post is nil") && table == old(table) && trackCalls == old(trackCalls)
      ensures id != "" && dbFind.Pass? && Eval(BuildQuery(FindOptions(id), now), old(table)) != [] ==>
        SoftDeletedByID(Eval(BuildQuery(FindOptions(id), now), old(table))[0], now, dbUpdate, track, old(table), old(trackCalls), table, trackCalls, err)
      ensures old(Valid()) ==> Valid()
    {
      var post;
      post, err := PostFindByID(id, now, dbFind);
      if err.Fail? {
        return;
      }
      ghost var row := if post == null then map[] else post.data;
      ghost var table0, calls0 := table, trackCalls;
      err := PostSoftDelete(post, now, dbUpdate, track);
      if post != null {
        SoftDeleteChanges(row, now);
        assert post.data == row[ColumnSoftDeletedAt := Text(now)];
        assert UpdateChanges(post.data, {} + {ColumnSoftDeletedAt}) == map[ColumnSoftDeletedAt := Text(now)];
        assert SoftDeletedByID(row, now, dbUpdate, track, table0, calls0, table, trackCalls, err);
      }
    }

    /** `PostTrash`: set the status to trash and persist it with `PostUpdate`. */
    method PostTrash(post: Post, db: Outcome, track: Outcome) returns (err: Outcome)
      modifies this, post
      ensures post.data == old(post.data)[ColumnStatus := Text(StatusTrash)] && post.changed == {}
      ensures table == (if db.Pass? then UpdateRows(old(table), post.Id(), UpdateChanges(post.data, old(post.changed) + {ColumnStatus})) else old(table))
      ensures trackCalls == old(trackCalls) + [TrackCall(VersioningTypePost, post.Id(), post.MarshalToVersioning())]
      ensures err == (if track.Fail? then track else db)
      ensures old(Valid()) ==> Valid()
    {
      var _ := post.SetStatus(StatusTrash);
      assert ColumnStatus in UpdateChanges(post.data, post.changed);
      err := PostUpdate(post, db, track);
    }

    // ----- the versioning pass-throughs: nothing without a snapshot store, one call with one -----

    method VersioningCreate(version: Version, reply: Outcome) returns (err: Outcome)
      modifies versioningStore
      ensures versioningStore == null ==> err == Pass
      ensures versioningStore != null ==> err == reply && versioningStore.calls == old(versioningStore.calls) + [Create(version)]
    {
      if versioningStore == null {
        return Pass;
      }
      err := versioningStore.Call(Create(version), reply);
    }

    method VersioningDelete(version: Version, reply: Outcome) returns (err: Outcome)
      modifies versioningStore
      ensures versioningStore == null ==> err == Pass
      ensures versioningStore != null ==> err == reply && versioningStore.calls == old(versioningStore.calls) + [Delete(version)]
    {
      if versioningStore == null {
        return Pass;
      }
      err := versioningStore.Call(Delete(version), reply);
    }

    method VersioningDeleteByID(id: string, reply: Outcome) returns (err: Outcome)
      modifies versioningStore
      ensures versioningStore == null ==> err == Pass
      ensures versioningStore != null ==> err == reply && versioningStore.calls == old(versioningStore.calls) + [DeleteById(id)]
    {
      if versioningStore == null {
        return Pass;
      }
      err := versioningStore.Call(DeleteById(id), reply);
    }

    method VersioningSoftDelete(version: Version, reply: Outcome) returns (err: Outcome)
      modifies versioningStore
      ensures versioningStore == null ==> err == Pass
      ensures versioningStore != null ==> err == reply && versioningStore.calls == old(versioningStore.calls) + [SoftDelete(version)]
    {
      if versioningStore == null {
        return Pass;
      }
      err := versioningStore.Call(SoftDelete(version), reply);
    }

    method VersioningSoftDeleteByID(id: string, reply: Outcome) returns (err: Outcome)
      modifies versioningStore
      ensures versioningStore == null ==> err == Pass
      ensures versioningStore != null ==> err == reply && versioningStore.calls == old(versioningStore.calls) + [SoftDeleteById(id)]
    {
      if versioningStore == null {
        return Pass;
      }
      err := versioningStore.Call(SoftDeleteById(id), reply);
    }

    method VersioningUpdate(version: Version, reply: Outcome) returns (err: Outcome)
      modifies versioningStore
      ensures versioningStore == null ==> err == Pass
      ensures versioningStore != null ==> err == reply && versioningStore.calls == old(versioningStore.calls) + [Update(version)]
    {
      if versioningStore == null {
        return Pass;
      }
      err := versioningStore.Call(Update(version), reply);
    }

    /** `VersioningFindByID`: (nil, nil) without a snapshot store; otherwise the library's answer. */
    method VersioningFindByID(id: string, reply: Result<Option<Version>>) returns (version: Option<Version>, err: Outcome)
      modifies versioningStore
      ensures versioningStore == null ==> version == None && err == Pass
      ensures versioningStore != null ==> versioningStore.calls == old(versioningStore.calls) + [FindById(id)]
      ensures versioningStore != null && reply.Ok? ==> version == reply.value && err == Pass
      ensures versioningStore != null && reply.Err? ==> version == None && err == Fail(reply.error)
    {
      if versioningStore == null {
        return None, Pass;
      }
      var _ := versioningStore.Call(FindById(id), Pass);
      match reply
      case Ok(v) => version, err := v, Pass;
      case Err(e) => version, err := None, Fail(e);
    }

    /**
     * `VersioningList`: an empty, non-nil list without a snapshot store; a
     * nil list on the library's error; otherwise the library's list, copied
     * element by element into a new one.
     */
    method VersioningList(query: VersionQuery, reply: Result<seq<Version>>) returns (list: Option<seq<Version>>, err: Outcome)
      modifies versioningStore
      ensures versioningStore == null ==> list == Some([]) && err == Pass
      ensures versioningStore != null ==> versioningStore.calls == old(versioningStore.calls) + [List(query)]
      ensures versioningStore != null && reply.Err? ==> list == None && err == Fail(reply.error)
      ensures versioningStore != null && reply.Ok? ==> list == Some(reply.value) && err == Pass
    {
      if versioningStore == null {
        return Some([]), Pass;
      }
      var _ := versioningStore.Call(List(query), Pass);
      if reply.Err? {
        return None, Fail(reply.error);
      }
      var source := reply.value;
      var newList := new Version[|source|];
      var i := 0;
      while i < |source|
        modifies newList
        invariant 0 <= i <= |source|
        invariant newList[..i] == source[..i]
      {
        newList[i] := source[i];
        i := i + 1;
      }
      assert newList[..] == newList[..i] && source[..i] == source;
      list, err := Some(newList[..]), Pass;
    }
  }
}
