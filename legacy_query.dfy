/**
 * The legacy store's `postQuery`: the same options, but a case-sensitive
 * LIKE search with the id compared as a pattern, ORDER BY even for counts,
 * and visibility as `deleted_at = NULL_DATETIME` rather than a comparison
 * with the current instant. Its conditions and evaluation reuse the
 * current query's AST.
 */
module LegacyQuery {
  import opened Outcomes
  import opened Strings
  import opened Fields
  import opened Consts
  import opened Sorting
  import opened Tables
  import opened Query
  import Like

  /** The legacy search: title or content LIKE `%s%`, or id LIKE `s` itself. */
  function LegacySearchPred(search: string): Pred {
    Or(Like(ColumnTitle, "%" + search + "%"), Or(Like(ColumnContent, "%" + search + "%"), Like(ColumnId, search)))
  }

  /** The legacy conditions, in the order they are added (StatusIn twice, as in the current store). */
  function LegacyWhere(o: PostQueryOptions): seq<Pred> {
    When(o.id != "", Eq(ColumnId, o.id),
    When(|o.idIn| > 0, In(ColumnId, o.idIn),
    When(o.status != "", Eq(ColumnStatus, o.status),
    When(|o.statusIn| > 0, In(ColumnStatus, o.statusIn),
    LegacyLaterConditions(o)))))
  }

  function LegacyLaterConditions(o: PostQueryOptions): seq<Pred> {
    When(o.search != "", LegacySearchPred(o.search),
    When(o.createdAtGreaterThan != "", Gt(ColumnCreatedAt, o.createdAtGreaterThan),
    When(o.createdAtLessThan != "", Lt(ColumnCreatedAt, o.createdAtLessThan),
    When(|o.statusIn| > 0, In(ColumnStatus, o.statusIn),
    When(!o.withDeleted, Eq(ColumnDeletedAt, NullDateTime), [])))))
  }

  /** The legacy `postQuery`: limit and offset only for a non-count query, the order for every query. */
  function LegacyBuildQuery(o: PostQueryOptions): Select {
    Select(
      LegacyWhere(o),
      if !o.countOnly && o.limit > 0 then Some(o.limit) else None,
      if !o.countOnly && o.offset > 0 then Some(o.offset) else None,
      if o.orderBy != "" then Some(Ordering(o.orderBy, EqualFoldAscii(SortOrderOrDefault(o), "asc"))) else None)
  }

  /** Legacy visibility: deleted_at holds the null datetime. */
  predicate LegacyVisible(row: Row) {
    TextOf(row, ColumnDeletedAt) == Some(NullDateTime)
  }

  predicate LikeCell(row: Row, column: string, pattern: string) {
    TextOf(row, column).Some? && Like.Match(TextOf(row, column).value, pattern)
  }

  predicate LegacySearchHit(search: string, row: Row) {
    || LikeCell(row, ColumnTitle, "%" + search + "%")
    || LikeCell(row, ColumnContent, "%" + search + "%")
    || LikeCell(row, ColumnId, search)
  }

  /** Each non-empty option is one independent requirement on the row. */
  predicate LegacyMatches(o: PostQueryOptions, row: Row) {
    && (o.id != "" ==> TextOf(row, ColumnId) == Some(o.id))
    && (|o.idIn| > 0 ==> TextIn(row, ColumnId, o.idIn))
    && (o.status != "" ==> TextOf(row, ColumnStatus) == Some(o.status))
    && (|o.statusIn| > 0 ==> TextIn(row, ColumnStatus, o.statusIn))
    && (o.search != "" ==> LegacySearchHit(o.search, row))
    && (o.createdAtGreaterThan != "" ==> After(row, ColumnCreatedAt, o.createdAtGreaterThan))
    && (o.createdAtLessThan != "" ==> Before(row, ColumnCreatedAt, o.createdAtLessThan))
    && (!o.withDeleted ==> LegacyVisible(row))
  }

  lemma LegacyLaterConditionsSpec(o: PostQueryOptions, row: Row)
    ensures AllHold(LegacyLaterConditions(o), row) <==>
      && (o.search != "" ==> LegacySearchHit(o.search, row))
      && (o.createdAtGreaterThan != "" ==> After(row, ColumnCreatedAt, o.createdAtGreaterThan))
      && (o.createdAtLessThan != "" ==> Before(row, ColumnCreatedAt, o.createdAtLessThan))
      && (|o.statusIn| > 0 ==> TextIn(row, ColumnStatus, o.statusIn))
      && (!o.withDeleted ==> LegacyVisible(row))
  {
    var v := When(!o.withDeleted, Eq(ColumnDeletedAt, NullDateTime), []);
    var s := When(|o.statusIn| > 0, In(ColumnStatus, o.statusIn), v);
    var lt := When(o.createdAtLessThan != "", Lt(ColumnCreatedAt, o.createdAtLessThan), s);
    var gt := When(o.createdAtGreaterThan != "", Gt(ColumnCreatedAt, o.createdAtGreaterThan), lt);
    AllHoldWhen(!o.withDeleted, Eq(ColumnDeletedAt, NullDateTime), [], row);
    AllHoldWhen(|o.statusIn| > 0, In(ColumnStatus, o.statusIn), v, row);
    AllHoldWhen(o.createdAtLessThan != "", Lt(ColumnCreatedAt, o.createdAtLessThan), s, row);
    AllHoldWhen(o.createdAtGreaterThan != "", Gt(ColumnCreatedAt, o.createdAtGreaterThan), lt, row);
    AllHoldWhen(o.search != "", LegacySearchPred(o.search), gt, row);
    LegacySearchPredHolds(o.search, row);
  }

  lemma LegacySearchPredHolds(search: string, row: Row)
    ensures Holds(LegacySearchPred(search), row) <==> LegacySearchHit(search, row)
  {
    var inner := Or(Like(ColumnContent, "%" + search + "%"), Like(ColumnId, search));
    assert Holds(inner, row) <==> LikeCell(row, ColumnContent, "%" + search + "%") || LikeCell(row, ColumnId, search);
  }

  /** The legacy WHERE clause means exactly `LegacyMatches`. */
  lemma LegacyWhereSpec(o: PostQueryOptions, row: Row)
    ensures AllHold(LegacyBuildQuery(o).where, row) <==> LegacyMatches(o, row)
  {
    var later := LegacyLaterConditions(o);
    var s := When(|o.statusIn| > 0, In(ColumnStatus, o.statusIn), later);
    var st := When(o.status != "", Eq(ColumnStatus, o.status), s);
    var ii := When(|o.idIn| > 0, In(ColumnId, o.idIn), st);
    LegacyLaterConditionsSpec(o, row);
    AllHoldWhen(|o.statusIn| > 0, In(ColumnStatus, o.statusIn), later, row);
    AllHoldWhen(o.status != "", Eq(ColumnStatus, o.status), s, row);
    AllHoldWhen(|o.idIn| > 0, In(ColumnId, o.idIn), st, row);
    AllHoldWhen(o.id != "", Eq(ColumnId, o.id), ii, row);
  }

  /** A count query keeps its ORDER BY in the legacy store; the current one drops it. */
  lemma LegacyOrdersCounts(o: PostQueryOptions, now: string)
    requires o.countOnly
    ensures LegacyBuildQuery(o).limit.None? && LegacyBuildQuery(o).offset.None?
    ensures LegacyBuildQuery(o).order.Some? <==> o.orderBy != ""
    ensures BuildQuery(o, now).order.None?
  {
  }

  /** The legacy count: the rows its count query lists. */
  function LegacyCountRows(o: PostQueryOptions, t: Table): nat {
    |Eval(LegacyBuildQuery(o.(countOnly := true)), t)|
  }

  /** Ordering a count query changes nothing: the count is the number of matching rows. */
  lemma LegacyCountIsMatches(o: PostQueryOptions, t: Table)
    ensures LegacyCountRows(o, t) == |Filter(LegacyWhere(o), t)|
    ensures forall x :: x in Filter(LegacyWhere(o), t) <==> x in t && LegacyMatches(o, x)
  {
    forall x
      ensures x in Filter(LegacyWhere(o), t) <==> x in t && LegacyMatches(o, x)
    {
      LegacyWhereSpec(o, x);
    }
  }

  /** A listed row matches the options. */
  lemma LegacyEvalSound(o: PostQueryOptions, t: Table, r: Row)
    requires r in Eval(LegacyBuildQuery(o), t)
    ensures r in t && LegacyMatches(o, r)
  {
    var q := LegacyBuildQuery(o);
    var ordered := OrderRows(Filter(q.where, t), q.order);
    var i :| 0 <= i < |Eval(q, t)| && Eval(q, t)[i] == r;
    var skip := if q.offset.Some? then Min(q.offset.value, |ordered|) else 0;
    assert r == ordered[skip + i];
    assert r in multiset(ordered);
    LegacyWhereSpec(o, r);
  }

  /**
   * Legacy visibility ignores the current store's soft_deleted_at, and the
   * current visibility ignores the legacy deleted_at: a post soft-deleted by
   * one revision is still listed by the other.
   */
  lemma VisibilityColumnsIndependent(o: PostQueryOptions, now: string, row: Row, v: Value)
    ensures LegacyMatches(o, row[ColumnSoftDeletedAt := v]) <==> LegacyMatches(o, row)
    ensures Matches(o, now, row[ColumnDeletedAt := v]) <==> Matches(o, now, row)
  {
    assert TextOf(row[ColumnSoftDeletedAt := v], ColumnDeletedAt) == TextOf(row, ColumnDeletedAt);
    assert forall c :: c != ColumnSoftDeletedAt ==> TextOf(row[ColumnSoftDeletedAt := v], c) == TextOf(row, c);
    assert forall c :: c != ColumnDeletedAt ==> TextOf(row[ColumnDeletedAt := v], c) == TextOf(row, c);
  }

  /** Legacy visibility does not depend on the instant: a row is either always or never visible. */
  lemma LegacySoftDeleteHides(o: PostQueryOptions, row: Row, at: string)
    requires !o.withDeleted && at != NullDateTime
    ensures !LegacyMatches(o, row[ColumnDeletedAt := Text(at)])
  {
  }

  /**
   * The legacy search is case-sensitive: for a term without wildcards it is
   * substring containment in title or content, or id equality.
   */
  lemma LegacySearchHitContains(search: string, row: Row)
    requires Like.NoWildcards(search)
    ensures LegacySearchHit(search, row) <==>
      || (TextOf(row, ColumnTitle).Some? && Contains(TextOf(row, ColumnTitle).value, search))
      || (TextOf(row, ColumnContent).Some? && Contains(TextOf(row, ColumnContent).value, search))
      || TextOf(row, ColumnId) == Some(search)
  {
    if TextOf(row, ColumnTitle).Some? {
      Like.MatchContains(TextOf(row, ColumnTitle).value, search);
    }
    if TextOf(row, ColumnContent).Some? {
      Like.MatchContains(TextOf(row, ColumnContent).value, search);
    }
    if TextOf(row, ColumnId).Some? {
      Like.MatchExact(TextOf(row, ColumnId).value, search);
    }
  }

  /** In the legacy search the id is a pattern: the term "%" finds every row that has an id. */
  lemma LegacyIdIsPattern(row: Row)
    requires TextOf(row, ColumnId).Some?
    ensures LegacySearchHit("%", row)
  {
    Like.PercentMatchesAnything(TextOf(row, ColumnId).value);
  }
}
