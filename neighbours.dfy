/**
 * `PostFindPrevious` and `PostFindNext`: the post created just before, or
 * just after, a given post. The code asks for one row created before (after)
 * the post but names no order, so it gets whichever such row the database
 * returns first; the corrected options order by created_at, newest first
 * for the previous post and oldest first for the next one.
 */
module Neighbours {
  import opened Outcomes
  import opened Strings
  import opened Fields
  import opened Consts
  import opened Sorting
  import opened Tables
  import opened Query
  import Posts

  /** The options `PostFindPrevious` builds from the post's created_at, as written. */
  function PreviousOptionsAsWritten(createdAt: string): PostQueryOptions {
    NoOptions.(createdAtLessThan := Posts.CarbonDateTime(createdAt), limit := 1)
  }

  /** The options `PostFindNext` builds from the post's created_at, as written. */
  function NextOptionsAsWritten(createdAt: string): PostQueryOptions {
    NoOptions.(createdAtGreaterThan := Posts.CarbonDateTime(createdAt), limit := 1)
  }

  /** `PostFindPrevious` corrected: the newest of the earlier posts. */
  function PreviousOptions(createdAt: string): PostQueryOptions {
    PreviousOptionsAsWritten(createdAt).(orderBy := ColumnCreatedAt, sortOrder := "desc")
  }

  /** `PostFindNext` corrected: the oldest of the later posts. */
  function NextOptions(createdAt: string): PostQueryOptions {
    NextOptionsAsWritten(createdAt).(orderBy := ColumnCreatedAt, sortOrder := "asc")
  }

  /**
   * A visible post created strictly before `bound`. An empty bound, which is
   * what carbon makes of a created_at it cannot parse, sets no condition.
   */
  predicate EarlierVisible(x: Row, bound: string, now: string) {
    Visible(x, now) && (bound != "" ==> Before(x, ColumnCreatedAt, bound))
  }

  /** A visible post created strictly after `bound`; an empty bound sets no condition. */
  predicate LaterVisible(x: Row, bound: string, now: string) {
    Visible(x, now) && (bound != "" ==> After(x, ColumnCreatedAt, bound))
  }

  /**
   * The previous-post lookup as written lists at most one post: none exactly
   * when no visible post is older, otherwise some older visible post.
   */
  lemma PreviousAsWrittenIsEarlier(createdAt: string, now: string, t: Table)
    ensures var l := Eval(BuildQuery(PreviousOptionsAsWritten(createdAt), now), t);
      && |l| <= 1
      && (l == [] <==> forall x :: x in t ==> !EarlierVisible(x, Posts.CarbonDateTime(createdAt), now))
      && (l != [] ==> l[0] in t && EarlierVisible(l[0], Posts.CarbonDateTime(createdAt), now))
  {
    var o := PreviousOptionsAsWritten(createdAt);
    var matched := Filter(BuildQuery(o, now).where, t);
    assert Eval(BuildQuery(o, now), t) == matched[..Min(1, |matched|)];
    forall x
      ensures x in matched <==> x in t && EarlierVisible(x, Posts.CarbonDateTime(createdAt), now)
    {
      WhereSpec(o, now, x);
    }
    if matched != [] {
      assert matched[0] in matched;
    }
  }

  /**
   * The next-post lookup as written lists at most one post: none exactly
   * when no visible post is newer, otherwise some newer visible post.
   */
  lemma NextAsWrittenIsLater(createdAt: string, now: string, t: Table)
    ensures var l := Eval(BuildQuery(NextOptionsAsWritten(createdAt), now), t);
      && |l| <= 1
      && (l == [] <==> forall x :: x in t ==> !LaterVisible(x, Posts.CarbonDateTime(createdAt), now))
      && (l != [] ==> l[0] in t && LaterVisible(l[0], Posts.CarbonDateTime(createdAt), now))
  {
    var o := NextOptionsAsWritten(createdAt);
    var matched := Filter(BuildQuery(o, now).where, t);
    assert Eval(BuildQuery(o, now), t) == matched[..Min(1, |matched|)];
    forall x
      ensures x in matched <==> x in t && LaterVisible(x, Posts.CarbonDateTime(createdAt), now)
    {
      WhereSpec(o, now, x);
    }
    if matched != [] {
      assert matched[0] in matched;
    }
  }

  /** The first row of a sorted sequence comes before every row in it. */
  lemma FirstIsExtreme(rows: Table, ord: Ordering, x: Row)
    requires SortedBy(rows, ord) && x in multiset(rows)
    ensures rows != [] && InOrder(rows[0], x, ord)
  {
    var k :| 0 <= k < |rows| && rows[k] == x;
    if k == 0 {
      Strings.LessTotal(Key(x, ord.column), Key(x, ord.column));
    }
  }

  /**
   * The corrected previous-post lookup lists at most one post: none exactly
   * when no visible post is older, otherwise an older visible post no other
   * older visible post is newer than.
   */
  lemma PreviousIsNearest(createdAt: string, now: string, t: Table)
    ensures var l := Eval(BuildQuery(PreviousOptions(createdAt), now), t);
      && |l| <= 1
      && (l == [] <==> forall x :: x in t ==> !EarlierVisible(x, Posts.CarbonDateTime(createdAt), now))
      && (l != [] ==> l[0] in t && EarlierVisible(l[0], Posts.CarbonDateTime(createdAt), now))
      && (l != [] ==> forall x :: x in t && EarlierVisible(x, Posts.CarbonDateTime(createdAt), now) ==>
            LessOrEqual(Get(x, ColumnCreatedAt), Get(l[0], ColumnCreatedAt)))
  {
    var o := PreviousOptions(createdAt);
    var bound := Posts.CarbonDateTime(createdAt);
    var q := BuildQuery(o, now);
    var ord := Ordering(ColumnCreatedAt, false);
    assert q.order == Some(ord);
    var matched := Filter(q.where, t);
    var sorted := SortRows(matched, ord);
    var l := Eval(q, t);
    assert l == sorted[..Min(1, |sorted|)];
    forall x
      ensures x in matched <==> x in t && EarlierVisible(x, bound, now)
    {
      WhereSpec(o, now, x);
    }
    if l != [] {
      assert l[0] == sorted[0];
      assert sorted[0] in multiset(matched);
      assert l[0] in matched;
      assert l[0] in t && EarlierVisible(l[0], bound, now);
      forall x | x in t && EarlierVisible(x, bound, now)
        ensures LessOrEqual(Get(x, ColumnCreatedAt), Get(l[0], ColumnCreatedAt))
      {
        assert x in multiset(sorted);
        FirstIsExtreme(sorted, ord, x);
      }
    } else {
      forall x | x in t
        ensures !EarlierVisible(x, bound, now)
      {
        assert EarlierVisible(x, bound, now) ==> x in multiset(sorted);
      }
    }
  }

  /** The corrected next-post lookup: the oldest of the visible posts created later. */
  lemma NextIsNearest(createdAt: string, now: string, t: Table)
    ensures var l := Eval(BuildQuery(NextOptions(createdAt), now), t);
      && |l| <= 1
      && (l == [] <==> forall x :: x in t ==> !LaterVisible(x, Posts.CarbonDateTime(createdAt), now))
      && (l != [] ==> l[0] in t && LaterVisible(l[0], Posts.CarbonDateTime(createdAt), now))
      && (l != [] ==> forall x :: x in t && LaterVisible(x, Posts.CarbonDateTime(createdAt), now) ==>
            LessOrEqual(Get(l[0], ColumnCreatedAt), Get(x, ColumnCreatedAt)))
  {
    var o := NextOptions(createdAt);
    var bound := Posts.CarbonDateTime(createdAt);
    var q := BuildQuery(o, now);
    var ord := Ordering(ColumnCreatedAt, true);
    assert EqualFoldAscii("asc", "asc");
    assert q.order == Some(ord);
    var matched := Filter(q.where, t);
    var sorted := SortRows(matched, ord);
    var l := Eval(q, t);
    assert l == sorted[..Min(1, |sorted|)];
    forall x
      ensures x in matched <==> x in t && LaterVisible(x, bound, now)
    {
      WhereSpec(o, now, x);
    }
    if l != [] {
      assert l[0] == sorted[0];
      assert sorted[0] in multiset(matched);
      assert l[0] in matched;
      assert l[0] in t && LaterVisible(l[0], bound, now);
      forall x | x in t && LaterVisible(x, bound, now)
        ensures LessOrEqual(Get(l[0], ColumnCreatedAt), Get(x, ColumnCreatedAt))
      {
        assert x in multiset(sorted);
        FirstIsExtreme(sorted, ord, x);
      }
    } else {
      forall x | x in t
        ensures !LaterVisible(x, bound, now)
      {
        assert LaterVisible(x, bound, now) ==> x in multiset(sorted);
      }
    }
  }

  /**
   * Two visible posts created at t1 < t2, stored in that order, and a post
   * created at t3 > t2: as written, its previous post is the t1 post,
   * although the t2 post is visible, older than it and newer than t1.
   */
  lemma PreviousAsWrittenNotNearest(a: Row, b: Row, createdAt: string, now: string)
    requires IsDateTime(createdAt)
    requires EarlierVisible(a, createdAt, now) && EarlierVisible(b, createdAt, now)
    requires Less(Get(a, ColumnCreatedAt), Get(b, ColumnCreatedAt))
    ensures Eval(BuildQuery(PreviousOptionsAsWritten(createdAt), now), [a, b]) == [a]
    ensures Eval(BuildQuery(PreviousOptions(createdAt), now), [a, b]) == [b]
  {
    var q := BuildQuery(PreviousOptionsAsWritten(createdAt), now);
    WhereSpec(PreviousOptionsAsWritten(createdAt), now, a);
    WhereSpec(PreviousOptionsAsWritten(createdAt), now, b);
    FilterAllPass(q.where, [a, b]);
    PreviousIsNearest(createdAt, now, [a, b]);
    var l := Eval(BuildQuery(PreviousOptions(createdAt), now), [a, b]);
    if l[0] == a {
      LessAsymmetric(Get(a, ColumnCreatedAt), Get(b, ColumnCreatedAt));
    }
  }

  /**
   * Two visible posts created at t3 > t2, stored in that order, and a post
   * created at t1 < t2: as written, its next post is the t3 post, although
   * the t2 post is visible and created between them.
   */
  lemma NextAsWrittenNotNearest(c: Row, b: Row, createdAt: string, now: string)
    requires IsDateTime(createdAt)
    requires LaterVisible(c, createdAt, now) && LaterVisible(b, createdAt, now)
    requires Less(Get(b, ColumnCreatedAt), Get(c, ColumnCreatedAt))
    ensures Eval(BuildQuery(NextOptionsAsWritten(createdAt), now), [c, b]) == [c]
    ensures Eval(BuildQuery(NextOptions(createdAt), now), [c, b]) == [b]
  {
    var q := BuildQuery(NextOptionsAsWritten(createdAt), now);
    WhereSpec(NextOptionsAsWritten(createdAt), now, c);
    WhereSpec(NextOptionsAsWritten(createdAt), now, b);
    FilterAllPass(q.where, [c, b]);
    NextIsNearest(createdAt, now, [c, b]);
    var l := Eval(BuildQuery(NextOptions(createdAt), now), [c, b]);
    if l[0] == c {
      LessAsymmetric(Get(b, ColumnCreatedAt), Get(c, ColumnCreatedAt));
    }
  }

  lemma {:induction false} FilterAllPass(ps: seq<Pred>, t: Table)
    requires forall i :: 0 <= i < |t| ==> AllHold(ps, t[i])
    ensures Filter(ps, t) == t
    decreases |t|
  {
    if t != [] {
      FilterAllPass(ps, t[1..]);
      assert t == [t[0]] + t[1..];
    }
  }
}
