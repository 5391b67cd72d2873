/**
 * The legacy store (`Store` in `Store.go`): the same table operations as the
 * current store without any versioning, soft deletion through deleted_at,
 * and the legacy query builder.
 */
module LegacyStores {
  import opened Outcomes
  import opened Fields
  import opened Consts
  import opened Tables
  import opened Query
  import opened LegacyQuery
  import opened Posts
  import Stores

  class LegacyStore {
    var table: Table
    var debugEnabled: bool
    const postTableName: string
    const dbDriverName: string

    predicate Valid()
      reads this
    {
      UniqueIds(table)
    }

    /** `NewStore` of the legacy revision, over a database whose post table holds `rows`; its id primary key keeps the ids unique. */
    constructor (rows: Table, postTableName: string, dbDriverName: string)
      requires UniqueIds(rows)
      ensures Valid()
      ensures table == rows && !debugEnabled
      ensures this.postTableName == postTableName && this.dbDriverName == dbDriverName
    {
      table := rows;
      debugEnabled := false;
      this.postTableName := postTableName;
      this.dbDriverName := dbDriverName;
    }

    /** `PostCreate`: stamp both timestamps, insert, and clear the dirty set only on success; nothing is tracked. */
    method PostCreate(post: Post, now: string, db: Outcome) returns (err: Outcome)
      modifies this, post
      ensures post.data == old(post.data)[ColumnCreatedAt := Text(now)][ColumnUpdatedAt := Text(now)]
      ensures err == InsertOutcome(old(table), post.data, db)
      ensures err.Fail? ==> table == old(table) && post.changed == old(post.changed) + {ColumnCreatedAt, ColumnUpdatedAt}
      ensures err.Pass? ==> table == old(table) + [post.data] && post.changed == {}
      ensures old(Valid()) ==> Valid()
    {
      var _ := post.SetCreatedAt(now);
      var _ := post.SetUpdatedAt(now);
      var data := post.data;
      err := InsertOutcome(table, data, db);
      if err.Fail? {
        return;
      }
      if UniqueIds(table) {
        InsertKeepsUnique(table, data, db);
      }
      table := table + [data];
      post.MarkAsNotDirty();
    }

    /** `PostUpdate`: as in the current store, without the tracking step. */
    method PostUpdate(post: Post?, db: Outcome) returns (err: Outcome)
      modifies this, post
      ensures post == null ==> err == Fail("order is nil") && table == old(table)
      ensures post != null ==> post.data == old(post.data)
      ensures post != null && Stores.UpdateChanges(old(post.data), old(post.changed)) == map[] ==>
        err == Pass && table == old(table) && post.changed == old(post.changed)
      ensures post != null && Stores.UpdateChanges(old(post.data), old(post.changed)) != map[] ==>
        && table == (if db.Pass? then UpdateRows(old(table), post.Id(), Stores.UpdateChanges(old(post.data), old(post.changed))) else old(table))
        && post.changed == {}
        && err == db
      ensures old(Valid()) ==> Valid()
    {
      if post == null {
        return Fail("order is nil");
      }
      var changes := Stores.UpdateChanges(post.data, post.changed);
      if changes == map[] {
        return Pass;
      }
      UpdateKeepsIds(table, post.Id(), changes);
      if db.Pass? {
        table := UpdateRows(table, post.Id(), changes);
      }
      post.MarkAsNotDirty();
      err := db;
    }

    method PostList(o: PostQueryOptions, db: Outcome) returns (list: seq<Post>, err: Outcome)
      ensures db.Fail? ==> list == [] && err == db
      ensures db.Pass? ==> err == Pass && |list| == |Eval(LegacyBuildQuery(o), table)|
      ensures db.Pass? ==> forall i :: 0 <= i < |list| ==>
        fresh(list[i]) && list[i].data == Eval(LegacyBuildQuery(o), table)[i] && list[i].changed == {}
    {
      if db.Fail? {
        return [], db;
      }
      var rows := Eval(LegacyBuildQuery(o), table);
      list := PostsFromRows(rows);
      err := Pass;
    }

    /** `PostFindByID`: an empty id is refused; otherwise the first legacy-visible row with that id, if any. */
    method PostFindByID(id: string, db: Outcome) returns (post: Post?, err: Outcome)
      ensures id == "" ==> post == null && err == Fail("post id is empty")
      ensures id != "" && db.Fail? ==> post == null && err == db
      ensures id != "" && db.Pass? ==> err == Pass
      ensures id != "" && db.Pass? ==> (post == null <==> Eval(LegacyBuildQuery(Stores.FindOptions(id)), table) == [])
      ensures post != null ==>
        && fresh(post) && post.changed == {}
        && post.data in table && HasId(post.data, id) && LegacyVisible(post.data)
    {
      if id == "" {
        return null, Fail("post id is empty");
      }
      var list;
      list, err := PostList(Stores.FindOptions(id), db);
      if err.Fail? {
        return null, err;
      }
      if |list| > 0 {
        assert list[0].data in Eval(LegacyBuildQuery(Stores.FindOptions(id)), table);
        LegacyEvalSound(Stores.FindOptions(id), table, list[0].data);
        return list[0], Pass;
      }
      post := null;
    }

    /** `PostSoftDelete`: set deleted_at to now and persist it with `PostUpdate`. */
    method PostSoftDelete(post: Post?, now: string, db: Outcome) returns (err: Outcome)
      modifies this, post
      ensures post == null ==> err == Fail("post is nil") && table == old(table)
      ensures post != null ==> post.data == old(post.data)[ColumnDeletedAt := Text(now)] && post.changed == {}
      ensures post != null ==>
        && table == (if db.Pass? then UpdateRows(old(table), post.Id(), Stores.UpdateChanges(post.data, old(post.changed) + {ColumnDeletedAt})) else old(table))
        && err == db
      ensures old(Valid()) ==> Valid()
    {
      if post == null {
        return Fail("post is nil");
      }
      var _ := post.SetDeletedAt(now);
      assert ColumnDeletedAt in Stores.UpdateChanges(post.data, post.changed);
      err := PostUpdate(post, db);
    }

    method PostDeleteByID(id: string, db: Outcome) returns (err: Outcome)
      modifies this
      ensures id == "" ==> err == Fail("post id is empty") && table == old(table)
      ensures id != "" && db.Fail? ==> err == db && table == old(table)
      ensures id != "" && db.Pass? ==> err == Pass && table == DeleteRows(old(table), id)
      ensures old(Valid()) ==> Valid()
    {
      if id == "" {
        return Fail("post id is empty");
      }
      if db.Fail? {
        return db;
      }
      if UniqueIds(table) {
        DeleteKeepsUnique(table, id);
      }
      table := DeleteRows(table, id);
      err := Pass;
    }
  }
}
