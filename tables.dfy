/**
 * The post table as the statements of the store change it: INSERT of a full
 * field map (id is the primary key), UPDATE ... SET changes WHERE id = ?,
 * and DELETE ... WHERE id = ?. Rows are kept in insertion order.
 */
module Tables {
  import opened Outcomes
  import opened Fields
  import opened Consts

  type Table = seq<Row>

  /** The error a primary-key violation reports. */
  const DuplicateId := "UNIQUE constraint failed: id"

  /** `row` has id `id`. */
  predicate HasId(row: Row, id: string) {
    TextOf(row, ColumnId) == Some(id)
  }

  /** No two rows share an id. */
  predicate UniqueIds(t: Table) {
    forall i, j :: 0 <= i < |t| && 0 <= j < |t| && TextOf(t[i], ColumnId).Some? && TextOf(t[i], ColumnId) == TextOf(t[j], ColumnId) ==> i == j
  }

  predicate IdTaken(t: Table, id: string) {
    exists i :: 0 <= i < |t| && HasId(t[i], id)
  }

  /** The outcome of inserting `row`: the database's own error, else a key violation, else success. */
  function InsertOutcome(t: Table, row: Row, db: Outcome): Outcome {
    if db.Fail? then db
    else if TextOf(row, ColumnId).Some? && IdTaken(t, TextOf(row, ColumnId).value) then Fail(DuplicateId)
    else Pass
  }

  /** An insert the table accepts keeps the ids unique. */
  lemma InsertKeepsUnique(t: Table, row: Row, db: Outcome)
    requires UniqueIds(t) && InsertOutcome(t, row, db).Pass?
    ensures UniqueIds(t + [row])
  {
    var r := t + [row];
    forall i, j | 0 <= i < |r| && 0 <= j < |r| && TextOf(r[i], ColumnId).Some? && TextOf(r[i], ColumnId) == TextOf(r[j], ColumnId)
      ensures i == j
    {
    }
  }

  /** `UPDATE SET changes WHERE id = id`: each row with that id gets the changed columns. */
  function UpdateRows(t: Table, id: string, changes: Row): (r: Table)
    ensures |r| == |t|
    ensures forall i :: 0 <= i < |t| && HasId(t[i], id) ==> r[i] == t[i] + changes
    ensures forall i :: 0 <= i < |t| && !HasId(t[i], id) ==> r[i] == t[i]
  {
    seq(|t|, i requires 0 <= i < |t| => if HasId(t[i], id) then t[i] + changes else t[i])
  }

  /** An update that leaves the id column alone keeps every id, so ids stay unique. */
  lemma UpdateKeepsIds(t: Table, id: string, changes: Row)
    requires ColumnId !in changes
    ensures forall i :: 0 <= i < |t| ==> TextOf(UpdateRows(t, id, changes)[i], ColumnId) == TextOf(t[i], ColumnId)
    ensures UniqueIds(t) ==> UniqueIds(UpdateRows(t, id, changes))
  {
    var r := UpdateRows(t, id, changes);
    forall i | 0 <= i < |t|
      ensures TextOf(r[i], ColumnId) == TextOf(t[i], ColumnId)
    {
      if HasId(t[i], id) {
        assert r[i] == t[i] + changes;
        assert ColumnId in r[i] <==> ColumnId in t[i];
      }
    }
  }

  /** In a table with unique ids, an update by id changes at most the one row with that id. */
  lemma UpdateChangesOneRow(t: Table, id: string, changes: Row, k: nat)
    requires UniqueIds(t) && k < |t| && HasId(t[k], id)
    ensures UpdateRows(t, id, changes) == t[k := t[k] + changes]
  {
  }

  /** `DELETE WHERE id = id`: the rows with another id, in order. */
  function DeleteRows(t: Table, id: string): (r: Table)
    ensures forall x :: x in r <==> x in t && !HasId(x, id)
    ensures |r| <= |t|
    decreases |t|
  {
    if t == [] then []
    else (if HasId(t[0], id) then [] else [t[0]]) + DeleteRows(t[1..], id)
  }

  /** Deleting keeps a subsequence, so ids stay unique. */
  lemma {:induction false} DeleteKeepsUnique(t: Table, id: string)
    requires UniqueIds(t)
    ensures UniqueIds(DeleteRows(t, id))
    decreases |t|
  {
    if t != [] {
      var tail := t[1..];
      assert UniqueIds(tail) by {
        forall i, j | 0 <= i < |tail| && 0 <= j < |tail| && TextOf(tail[i], ColumnId).Some? && TextOf(tail[i], ColumnId) == TextOf(tail[j], ColumnId)
          ensures i == j
        {
          assert tail[i] == t[i + 1] && tail[j] == t[j + 1];
        }
      }
      DeleteKeepsUnique(tail, id);
      if !HasId(t[0], id) && TextOf(t[0], ColumnId).Some? {
        var rest := DeleteRows(tail, id);
        forall j | 0 <= j < |rest|
          ensures TextOf(rest[j], ColumnId) != TextOf(t[0], ColumnId)
        {
          assert rest[j] in tail;
          var k :| 0 <= k < |tail| && tail[k] == rest[j];
          assert t[k + 1] == rest[j];
        }
        var r := [t[0]] + rest;
        forall i, j | 0 <= i < |r| && 0 <= j < |r| && TextOf(r[i], ColumnId).Some? && TextOf(r[i], ColumnId) == TextOf(r[j], ColumnId)
          ensures i == j
        {
          if i > 0 && j > 0 {
            assert r[i] == rest[i - 1] && r[j] == rest[j - 1];
          }
        }
      }
    }
  }
}
