/**
 * What the store's operations add up to over the table: lookup by id
 * finds the one visible post with that id, soft deletion hides a post from
 * every default query from that instant on while `WithDeleted` still sees
 * it, and the create / count / soft-delete / count sequence.
 */
module StoreProps {
  import opened Outcomes
  import opened Strings
  import opened Fields
  import opened Consts
  import opened Tables
  import opened Query
  import opened Posts
  import opened Stores

  /** The rows `FindOptions(id)` selects: the visible ones with that id. */
  lemma FindMatches(id: string, now: string, x: Row)
    requires id != ""
    ensures Matches(FindOptions(id), now, x) <==> HasId(x, id) && Visible(x, now)
  {
  }

  /**
   * Lookup by id answers with at most one row; it answers at all exactly when
   * a visible row with that id exists, and with unique ids that row is the one.
   */
  lemma FindByIdSpec(id: string, now: string, t: Table)
    requires id != ""
    ensures |Eval(BuildQuery(FindOptions(id), now), t)| <= 1
    ensures Eval(BuildQuery(FindOptions(id), now), t) != [] <==> exists x :: x in t && HasId(x, id) && Visible(x, now)
    ensures Eval(BuildQuery(FindOptions(id), now), t) != [] ==>
      var r := Eval(BuildQuery(FindOptions(id), now), t)[0];
      r in t && HasId(r, id) && Visible(r, now)
    ensures UniqueIds(t) ==> forall k :: 0 <= k < |t| && HasId(t[k], id) && Visible(t[k], now) ==>
      Eval(BuildQuery(FindOptions(id), now), t) == [t[k]]
  {
    var o := FindOptions(id);
    var q := BuildQuery(o, now);
    EvalLimit(o, now, t);
    PaginationRules(o, now);
    var filtered := Filter(q.where, t);
    var ordered := OrderRows(filtered, q.order);
    assert |Eval(q, t)| == Min(1, |ordered|);
    if exists x :: x in t && HasId(x, id) && Visible(x, now) {
      var x :| x in t && HasId(x, id) && Visible(x, now);
      FindMatches(id, now, x);
      WhereSpec(o, now, x);
      assert x in filtered;
      assert x in multiset(ordered);
    }
    if Eval(q, t) != [] {
      var r := Eval(q, t)[0];
      EvalSound(o, now, t, r);
      FindMatches(id, now, r);
      if UniqueIds(t) {
        forall k | 0 <= k < |t| && HasId(t[k], id) && Visible(t[k], now)
          ensures Eval(q, t) == [t[k]]
        {
          var j :| 0 <= j < |t| && t[j] == r;
          assert j == k;
        }
      }
    }
  }

  /** A soft-deleted row is no longer visible from the soft deletion's instant on. */
  lemma SoftDeletedRowHidden(t: Table, id: string, at: string, later: string, i: int)
    requires LessOrEqual(at, later) && 0 <= i < |t| && HasId(t[i], id)
    ensures !Visible(UpdateRows(t, id, map[ColumnSoftDeletedAt := Text(at)])[i], later)
  {
    var x := UpdateRows(t, id, map[ColumnSoftDeletedAt := Text(at)])[i];
    assert TextOf(x, ColumnSoftDeletedAt) == Some(at);
    if at != later {
      LessAsymmetric(at, later);
    } else {
      LessIrreflexive(at);
    }
  }

  /**
   * After soft deletion by id, no default query (one without `WithDeleted`)
   * at that instant or later returns a row with that id, while `WithDeleted`
   * still lists every row.
   */
  lemma SoftDeleteHides(t: Table, id: string, at: string, later: string, o: PostQueryOptions)
    requires LessOrEqual(at, later)
    ensures !o.withDeleted ==> forall x :: x in Eval(BuildQuery(o, later), UpdateRows(t, id, map[ColumnSoftDeletedAt := Text(at)])) ==> !HasId(x, id)
    ensures Eval(BuildQuery(NoOptions.(withDeleted := true), later), UpdateRows(t, id, map[ColumnSoftDeletedAt := Text(at)])) ==
            UpdateRows(t, id, map[ColumnSoftDeletedAt := Text(at)])
  {
    var u := UpdateRows(t, id, map[ColumnSoftDeletedAt := Text(at)]);
    if !o.withDeleted {
      forall x | x in Eval(BuildQuery(o, later), u)
        ensures !HasId(x, id)
      {
        EvalSound(o, later, u, x);
        var i :| 0 <= i < |u| && u[i] == x;
        if HasId(t[i], id) {
          SoftDeletedRowHidden(t, id, at, later, i);
        }
      }
    }
    WithDeletedListsAll(later, u);
  }

  /**
   * The create / count / soft delete / count sequence on an empty table,
   * all at one clock reading, with a database that answers each count with
   * the number of rows the count query selects from the store's table: the new post is counted once, then not
   * at all, and is no longer found by id; counting with `WithDeleted` still
   * sees it.
   */
  method SoftDeleteScenario(uid: Uid, now: string) returns (before: int, after: int, withDeleted: int, found: bool)
    requires IsClockTime(now)
    ensures before == 1 && after == 0 && withDeleted == 1 && !found
  {
    var store := new Store([], "blog_posts", "sqlite", true, false, false, null);
    var post := NewPost(uid, now);
    var err := store.PostCreate(post, now, Pass, Pass);
    ghost var row := post.data;
    CreatedRow(uid, now);
    assert store.table == [row];
    before, err := store.PostCount(NoOptions, now, CountText(CountRows(NoOptions, now, store.table)));

    FindByIdSpec(uid, now, [row]);
    assert Eval(BuildQuery(FindOptions(uid), now), [row]) == [row];
    err := store.PostSoftDeleteByID(uid, now, Pass, Pass, Pass);
    SoftDeleteOne(row, uid, now);
    assert store.table == [row[ColumnSoftDeletedAt := Text(now)]];
    CountOne(NoOptions, now, row[ColumnSoftDeletedAt := Text(now)]);
    CountOne(NoOptions.(withDeleted := true), now, row[ColumnSoftDeletedAt := Text(now)]);
    after, err := store.PostCount(NoOptions, now, CountText(CountRows(NoOptions, now, store.table)));
    withDeleted, err := store.PostCount(NoOptions.(withDeleted := true), now,
                                        CountText(CountRows(NoOptions.(withDeleted := true), now, store.table)));

    var p;
    p, err := store.PostFindByID(uid, now, Pass);
    FindByIdSpec(uid, now, store.table);
    found := p != null;
  }

  /** The row `PostCreate` inserts for a new post: it has its id, is visible now and counted once. */
  lemma CreatedRow(uid: Uid, now: string)
    requires IsClockTime(now)
    ensures var row := NewPostRow(uid, now)[ColumnCreatedAt := Text(now)][ColumnUpdatedAt := Text(now)];
      && HasId(row, uid) && Visible(row, now) && CountRows(NoOptions, now, [row]) == 1
      && UniqueIds([row])
      && !Visible(row[ColumnSoftDeletedAt := Text(now)], now)
      && HasId(row[ColumnSoftDeletedAt := Text(now)], uid)
  {
    var row := NewPostRow(uid, now)[ColumnCreatedAt := Text(now)][ColumnUpdatedAt := Text(now)];
    CreatedRowFields(uid, now);
    CountOne(NoOptions, now, row);
  }

  /** The id and visibility of that row, before and after its soft deletion at the same instant. */
  lemma CreatedRowFields(uid: Uid, now: string)
    requires IsClockTime(now)
    ensures var row := NewPostRow(uid, now)[ColumnCreatedAt := Text(now)][ColumnUpdatedAt := Text(now)];
      && TextOf(row, ColumnId) == Some(uid) && Visible(row, now)
      && TextOf(row[ColumnSoftDeletedAt := Text(now)], ColumnId) == Some(uid)
      && !Visible(row[ColumnSoftDeletedAt := Text(now)], now)
  {
    NewPostDefaults(uid, now);
    NewPostTimestamps(uid, now);
    LessIrreflexive(now);
  }

  /** Soft-deleting the only row of a table. */
  lemma SoftDeleteOne(row: Row, id: string, now: string)
    requires HasId(row, id)
    ensures UpdateRows([row], Get(row, ColumnId), map[ColumnSoftDeletedAt := Text(now)]) == [row[ColumnSoftDeletedAt := Text(now)]]
  {
    assert row + map[ColumnSoftDeletedAt := Text(now)] == row[ColumnSoftDeletedAt := Text(now)];
  }

  /** Counting over a one-row table: one when the row matches, none otherwise. */
  lemma CountOne(o: PostQueryOptions, now: string, row: Row)
    ensures CountRows(o, now, [row]) == if Matches(o, now, row) then 1 else 0
  {
    CountIsMatches(o, now, [row]);
    var f := Filter(Where(o, now), [row]);
    if Matches(o, now, row) {
      assert row in f;
    }
  }
}
