/**
 * The current store's query builder (`postQuery`) as a function from the
 * list options to a query AST, the AST's meaning over a table held in
 * insertion order, and the filtering, visibility and pagination rules
 * proved about it.
 */
module Query {
  import opened Outcomes
  import opened Strings
  import opened Fields
  import opened Consts
  import opened Sorting
  import opened Tables
  import Like

  /** `PostQueryOptions`, with the `Search` field the store reads. */
  datatype PostQueryOptions = PostQueryOptions(
    id: string,
    idIn: seq<string>,
    status: string,
    statusIn: seq<string>,
    search: string,
    createdAtLessThan: string,
    createdAtGreaterThan: string,
    offset: int,
    limit: int,
    sortOrder: string,
    orderBy: string,
    countOnly: bool,
    withDeleted: bool)

  /** The zero value `PostQueryOptions{}`. */
  const NoOptions := PostQueryOptions("", [], "", [], "", "", "", 0, 0, "", "", false, false)

  /** A WHERE condition on the text in one column; a missing column (NULL) satisfies no comparison. */
  datatype Pred =
    | Eq(column: string, value: string)
    | In(column: string, values: seq<string>)
    | Like(column: string, pattern: string)
    | ILike(column: string, pattern: string)
    | Gt(column: string, value: string)
    | Lt(column: string, value: string)
    | Or(left: Pred, right: Pred)

  /** A SELECT over the post table: AND-ed conditions, then ORDER BY, OFFSET and LIMIT. */
  datatype Select = Select(where: seq<Pred>, limit: Option<nat>, offset: Option<nat>, order: Option<Ordering>)

  predicate Holds(p: Pred, row: Row) {
    match p
    case Eq(c, v) => TextOf(row, c) == Some(v)
    case In(c, vs) => TextOf(row, c).Some? && TextOf(row, c).value in vs
    case Like(c, pat) => TextOf(row, c).Some? && Like.Match(TextOf(row, c).value, pat)
    case ILike(c, pat) => TextOf(row, c).Some? && Like.IMatch(TextOf(row, c).value, pat)
    case Gt(c, v) => TextOf(row, c).Some? && Less(v, TextOf(row, c).value)
    case Lt(c, v) => TextOf(row, c).Some? && Less(TextOf(row, c).value, v)
    case Or(a, b) => Holds(a, row) || Holds(b, row)
  }

  predicate AllHold(ps: seq<Pred>, row: Row)
    decreases |ps|
  {
    ps == [] || (Holds(ps[0], row) && AllHold(ps[1..], row))
  }

  /** `q.Where(p)` when `c`: one more AND-ed condition. */
  function When(c: bool, p: Pred, rest: seq<Pred>): seq<Pred> {
    if c then [p] + rest else rest
  }

  lemma AllHoldWhen(c: bool, p: Pred, rest: seq<Pred>, row: Row)
    ensures AllHold(When(c, p, rest), row) <==> (c ==> Holds(p, row)) && AllHold(rest, row)
  {
    if c {
      assert ([p] + rest)[1..] == rest;
    }
  }

  /** The search condition: title or content contains the term ignoring case, or the id is the term. */
  function SearchPred(search: string): Pred {
    Or(ILike(ColumnTitle, "%" + search + "%"), Or(ILike(ColumnContent, "%" + search + "%"), Eq(ColumnId, search)))
  }

  /** The conditions in the order `postQuery` adds them (StatusIn twice, as the code does). */
  function Where(o: PostQueryOptions, now: string): seq<Pred> {
    When(o.id != "", Eq(ColumnId, o.id),
    When(|o.idIn| > 0, In(ColumnId, o.idIn),
    When(o.status != "", Eq(ColumnStatus, o.status),
    When(|o.statusIn| > 0, In(ColumnStatus, o.statusIn),
    LaterConditions(o, now)))))
  }

  /** The conditions from the search on: search, created_at bounds, StatusIn again, visibility. */
  function LaterConditions(o: PostQueryOptions, now: string): seq<Pred> {
    When(o.search != "", SearchPred(o.search),
    When(o.createdAtGreaterThan != "", Gt(ColumnCreatedAt, o.createdAtGreaterThan),
    When(o.createdAtLessThan != "", Lt(ColumnCreatedAt, o.createdAtLessThan),
    When(|o.statusIn| > 0, In(ColumnStatus, o.statusIn),
    When(!o.withDeleted, Gt(ColumnSoftDeletedAt, now), [])))))
  }

  /** The sort direction: `SortOrder`, "desc" when empty. */
  function SortOrderOrDefault(o: PostQueryOptions): string {
    if o.sortOrder != "" then o.sortOrder else "desc"
  }

  /** `postQuery(options)` at instant `now`: limit, offset and order only for a non-count query. */
  function BuildQuery(o: PostQueryOptions, now: string): Select {
    Select(
      Where(o, now),
      if !o.countOnly && o.limit > 0 then Some(o.limit) else None,
      if !o.countOnly && o.offset > 0 then Some(o.offset) else None,
      if !o.countOnly && o.orderBy != "" then Some(Ordering(o.orderBy, EqualFoldAscii(SortOrderOrDefault(o), "asc"))) else None)
  }

  /** The rows of `t` satisfying every condition, in table order. */
  function Filter(ps: seq<Pred>, t: Table): (r: Table)
    ensures forall x :: x in r <==> x in t && AllHold(ps, x)
    ensures |r| <= |t|
    decreases |t|
  {
    if t == [] then []
    else (if AllHold(ps, t[0]) then [t[0]] else []) + Filter(ps, t[1..])
  }

  function OrderRows(rows: Table, order: Option<Ordering>): (r: Table)
    ensures multiset(r) == multiset(rows) && |r| == |rows|
    ensures order.Some? ==> SortedBy(r, order.value)
  {
    match order
    case None => rows
    case Some(ord) => SortRows(rows, ord)
  }

  function Min(a: int, b: int): int {
    if a <= b then a else b
  }

  /** OFFSET then LIMIT: a window of consecutive rows. */
  function Paginate(rows: Table, limit: Option<nat>, offset: Option<nat>): (r: Table)
    ensures var skip := if offset.Some? then Min(offset.value, |rows|) else 0;
      && (limit.None? ==> |r| == |rows| - skip)
      && (limit.Some? ==> |r| == Min(limit.value, |rows| - skip))
      && (forall i :: 0 <= i < |r| ==> r[i] == rows[skip + i])
  {
    var skipped := if offset.Some? then rows[Min(offset.value, |rows|)..] else rows;
    if limit.Some? && limit.value < |skipped| then skipped[..limit.value] else skipped
  }

  function Eval(q: Select, t: Table): Table {
    Paginate(OrderRows(Filter(q.where, t), q.order), q.limit, q.offset)
  }

  // ----- the options' meaning, stated without the AST -----

  predicate TextIn(row: Row, column: string, values: seq<string>) {
    TextOf(row, column).Some? && TextOf(row, column).value in values
  }

  /** `column` holds text strictly after `bound`. */
  predicate After(row: Row, column: string, bound: string) {
    TextOf(row, column).Some? && Less(bound, TextOf(row, column).value)
  }

  /** `column` holds text strictly before `bound`. */
  predicate Before(row: Row, column: string, bound: string) {
    TextOf(row, column).Some? && Less(TextOf(row, column).value, bound)
  }

  predicate ILikeCell(row: Row, column: string, pattern: string) {
    TextOf(row, column).Some? && Like.IMatch(TextOf(row, column).value, pattern)
  }

  predicate SearchHit(search: string, row: Row) {
    || ILikeCell(row, ColumnTitle, "%" + search + "%")
    || ILikeCell(row, ColumnContent, "%" + search + "%")
    || TextOf(row, ColumnId) == Some(search)
  }

  lemma SearchPredHolds(search: string, row: Row)
    ensures Holds(SearchPred(search), row) <==> SearchHit(search, row)
  {
    var inner := Or(ILike(ColumnContent, "%" + search + "%"), Eq(ColumnId, search));
    assert Holds(inner, row) <==> ILikeCell(row, ColumnContent, "%" + search + "%") || TextOf(row, ColumnId) == Some(search);
  }

  /** Not soft-deleted at `now`: soft_deleted_at lies after it. */
  predicate Visible(row: Row, now: string) {
    After(row, ColumnSoftDeletedAt, now)
  }

  /** Each non-empty option is one independent requirement on the row. */
  predicate Matches(o: PostQueryOptions, now: string, row: Row) {
    && (o.id != "" ==> TextOf(row, ColumnId) == Some(o.id))
    && (|o.idIn| > 0 ==> TextIn(row, ColumnId, o.idIn))
    && (o.status != "" ==> TextOf(row, ColumnStatus) == Some(o.status))
    && (|o.statusIn| > 0 ==> TextIn(row, ColumnStatus, o.statusIn))
    && (o.search != "" ==> SearchHit(o.search, row))
    && (o.createdAtGreaterThan != "" ==> After(row, ColumnCreatedAt, o.createdAtGreaterThan))
    && (o.createdAtLessThan != "" ==> Before(row, ColumnCreatedAt, o.createdAtLessThan))
    && (!o.withDeleted ==> Visible(row, now))
  }

  /**
   * The WHERE clause means exactly `Matches`: every option contributes its own
   * condition, `id = ID` and `id IN IDIn` apply together, the created_at bounds
   * are strict, and the second `status IN StatusIn` changes nothing.
   */
  lemma WhereSpec(o: PostQueryOptions, now: string, row: Row)
    ensures AllHold(BuildQuery(o, now).where, row) <==> Matches(o, now, row)
  {
    var w5 := LaterConditions(o, now);
    var w4 := When(|o.statusIn| > 0, In(ColumnStatus, o.statusIn), w5);
    var w3 := When(o.status != "", Eq(ColumnStatus, o.status), w4);
    var w2 := When(|o.idIn| > 0, In(ColumnId, o.idIn), w3);
    LaterConditionsSpec(o, now, row);
    AllHoldWhen(|o.statusIn| > 0, In(ColumnStatus, o.statusIn), w5, row);
    AllHoldWhen(o.status != "", Eq(ColumnStatus, o.status), w4, row);
    AllHoldWhen(|o.idIn| > 0, In(ColumnId, o.idIn), w3, row);
    AllHoldWhen(o.id != "", Eq(ColumnId, o.id), w2, row);
  }

  lemma LaterConditionsSpec(o: PostQueryOptions, now: string, row: Row)
    ensures AllHold(LaterConditions(o, now), row) <==>
      && (o.search != "" ==> SearchHit(o.search, row))
      && (o.createdAtGreaterThan != "" ==> After(row, ColumnCreatedAt, o.createdAtGreaterThan))
      && (o.createdAtLessThan != "" ==> Before(row, ColumnCreatedAt, o.createdAtLessThan))
      && (|o.statusIn| > 0 ==> TextIn(row, ColumnStatus, o.statusIn))
      && (!o.withDeleted ==> Visible(row, now))
  {
    var w9 := When(!o.withDeleted, Gt(ColumnSoftDeletedAt, now), []);
    var w8 := When(|o.statusIn| > 0, In(ColumnStatus, o.statusIn), w9);
    var w7 := When(o.createdAtLessThan != "", Lt(ColumnCreatedAt, o.createdAtLessThan), w8);
    var w6 := When(o.createdAtGreaterThan != "", Gt(ColumnCreatedAt, o.createdAtGreaterThan), w7);
    AllHoldWhen(!o.withDeleted, Gt(ColumnSoftDeletedAt, now), [], row);
    AllHoldWhen(|o.statusIn| > 0, In(ColumnStatus, o.statusIn), w9, row);
    AllHoldWhen(o.createdAtLessThan != "", Lt(ColumnCreatedAt, o.createdAtLessThan), w8, row);
    AllHoldWhen(o.createdAtGreaterThan != "", Gt(ColumnCreatedAt, o.createdAtGreaterThan), w7, row);
    AllHoldWhen(o.search != "", SearchPred(o.search), w6, row);
    SearchPredHolds(o.search, row);
  }

  /** `StatusIn` is added twice when non-empty, and never otherwise. */
  lemma StatusInAddedTwice(o: PostQueryOptions, now: string)
    ensures multiset(BuildQuery(o, now).where)[In(ColumnStatus, o.statusIn)] == if |o.statusIn| > 0 then 2 else 0
  {
  }

  lemma MultisetWhen(c: bool, p: Pred, rest: seq<Pred>)
    ensures multiset(When(c, p, rest)) == (if c then multiset{p} else multiset{}) + multiset(rest)
  {
  }

  /** A non-empty search adds exactly one compound condition, and it is the only disjunction. */
  lemma SearchClause(o: PostQueryOptions, now: string)
    ensures multiset(BuildQuery(o, now).where)[SearchPred(o.search)] == if o.search != "" then 1 else 0
    ensures forall p :: p in BuildQuery(o, now).where && p.Or? ==> p == SearchPred(o.search)
  {
    OnlySearchIsOr(o, now);
    SearchCount(o, now);
  }

  lemma SearchCount(o: PostQueryOptions, now: string)
    ensures multiset(Where(o, now))[SearchPred(o.search)] == if o.search != "" then 1 else 0
  {
    var x, late := SearchPred(o.search), LaterConditions(o, now);
    SearchCountLater(o, now);
    var w3 := When(|o.statusIn| > 0, In(ColumnStatus, o.statusIn), late);
    CountWhenOther(|o.statusIn| > 0, In(ColumnStatus, o.statusIn), late, x);
    var w2 := When(o.status != "", Eq(ColumnStatus, o.status), w3);
    CountWhenOther(o.status != "", Eq(ColumnStatus, o.status), w3, x);
    var w1 := When(|o.idIn| > 0, In(ColumnId, o.idIn), w2);
    CountWhenOther(|o.idIn| > 0, In(ColumnId, o.idIn), w2, x);
    CountWhenOther(o.id != "", Eq(ColumnId, o.id), w1, x);
  }

  lemma SearchCountLater(o: PostQueryOptions, now: string)
    ensures multiset(LaterConditions(o, now))[SearchPred(o.search)] == if o.search != "" then 1 else 0
  {
    var x := SearchPred(o.search);
    var w9 := When(!o.withDeleted, Gt(ColumnSoftDeletedAt, now), []);
    CountWhenOther(!o.withDeleted, Gt(ColumnSoftDeletedAt, now), [], x);
    var w8 := When(|o.statusIn| > 0, In(ColumnStatus, o.statusIn), w9);
    CountWhenOther(|o.statusIn| > 0, In(ColumnStatus, o.statusIn), w9, x);
    var w7 := When(o.createdAtLessThan != "", Lt(ColumnCreatedAt, o.createdAtLessThan), w8);
    CountWhenOther(o.createdAtLessThan != "", Lt(ColumnCreatedAt, o.createdAtLessThan), w8, x);
    var w6 := When(o.createdAtGreaterThan != "", Gt(ColumnCreatedAt, o.createdAtGreaterThan), w7);
    CountWhenOther(o.createdAtGreaterThan != "", Gt(ColumnCreatedAt, o.createdAtGreaterThan), w7, x);
    CountWhen(o.search != "", x, w6, x);
  }

  /** `When` with a condition other than `x` leaves the number of `x` as it was. */
  lemma CountWhenOther(c: bool, p: Pred, rest: seq<Pred>, x: Pred)
    requires p != x
    ensures multiset(When(c, p, rest))[x] == multiset(rest)[x]
  {
    if c {
      assert When(c, p, rest) == [p] + rest;
    }
  }

  /** How often `x` occurs once `When` has maybe put `p` in front. */
  lemma CountWhen(c: bool, p: Pred, rest: seq<Pred>, x: Pred)
    ensures multiset(When(c, p, rest))[x] == (if c && p == x then 1 else 0) + multiset(rest)[x]
  {
    if c {
      assert When(c, p, rest) == [p] + rest;
    }
  }

  lemma OnlySearchIsOr(o: PostQueryOptions, now: string)
    ensures forall p :: p in BuildQuery(o, now).where && p.Or? ==> p == SearchPred(o.search)
  {
    var w6 := When(o.createdAtGreaterThan != "", Gt(ColumnCreatedAt, o.createdAtGreaterThan),
      When(o.createdAtLessThan != "", Lt(ColumnCreatedAt, o.createdAtLessThan),
      When(|o.statusIn| > 0, In(ColumnStatus, o.statusIn),
      When(!o.withDeleted, Gt(ColumnSoftDeletedAt, now), []))));
    assert forall p :: p in w6 ==> !p.Or?;
  }

  /** Without LIKE wildcards in the term, the search is a case-insensitive substring test. */
  lemma SearchHitContains(search: string, row: Row)
    requires Like.NoWildcards(search)
    ensures SearchHit(search, row) <==>
      || (TextOf(row, ColumnTitle).Some? && Contains(ToLower(TextOf(row, ColumnTitle).value), ToLower(search)))
      || (TextOf(row, ColumnContent).Some? && Contains(ToLower(TextOf(row, ColumnContent).value), ToLower(search)))
      || TextOf(row, ColumnId) == Some(search)
  {
    if TextOf(row, ColumnTitle).Some? {
      Like.IMatchContains(TextOf(row, ColumnTitle).value, search);
    }
    if TextOf(row, ColumnContent).Some? {
      Like.IMatchContains(TextOf(row, ColumnContent).value, search);
    }
  }

  /**
   * A count query carries no limit, offset or order; otherwise limit and
   * offset appear only when positive, and the order only with a column,
   * ascending exactly when the sort order is "asc" ignoring case.
   */
  lemma PaginationRules(o: PostQueryOptions, now: string)
    ensures o.countOnly ==> BuildQuery(o, now).limit.None? && BuildQuery(o, now).offset.None? && BuildQuery(o, now).order.None?
    ensures BuildQuery(o, now).limit.Some? <==> !o.countOnly && o.limit > 0
    ensures BuildQuery(o, now).limit.Some? ==> BuildQuery(o, now).limit.value == o.limit
    ensures BuildQuery(o, now).offset.Some? <==> !o.countOnly && o.offset > 0
    ensures BuildQuery(o, now).offset.Some? ==> BuildQuery(o, now).offset.value == o.offset
    ensures BuildQuery(o, now).order.Some? <==> !o.countOnly && o.orderBy != ""
    ensures BuildQuery(o, now).order.Some? ==> BuildQuery(o, now).order.value.column == o.orderBy
    ensures BuildQuery(o, now).order.Some? ==> (BuildQuery(o, now).order.value.ascending <==> EqualFoldAscii(o.sortOrder, "asc"))
  {
  }

  /** Every listed row is a table row that matches the options. */
  lemma EvalSound(o: PostQueryOptions, now: string, t: Table, r: Row)
    requires r in Eval(BuildQuery(o, now), t)
    ensures r in t && Matches(o, now, r)
  {
    var q := BuildQuery(o, now);
    var sorted := OrderRows(Filter(q.where, t), q.order);
    var i :| 0 <= i < |Eval(q, t)| && Eval(q, t)[i] == r;
    assert r in multiset(sorted);
    WhereSpec(o, now, r);
  }

  /** Without limit and offset, every matching table row is listed. */
  lemma EvalComplete(o: PostQueryOptions, now: string, t: Table, r: Row)
    requires o.countOnly || (o.limit <= 0 && o.offset <= 0)
    requires r in t && Matches(o, now, r)
    ensures r in Eval(BuildQuery(o, now), t)
  {
    var q := BuildQuery(o, now);
    WhereSpec(o, now, r);
    var sorted := OrderRows(Filter(q.where, t), q.order);
    assert r in multiset(sorted);
    assert Eval(q, t) == sorted;
  }

  /** A positive limit bounds the number of rows listed. */
  lemma EvalLimit(o: PostQueryOptions, now: string, t: Table)
    requires !o.countOnly && o.limit > 0
    ensures |Eval(BuildQuery(o, now), t)| <= o.limit
  {
  }

  /** With an order column the listed rows come in that order. */
  lemma EvalSorted(o: PostQueryOptions, now: string, t: Table)
    requires BuildQuery(o, now).order.Some?
    ensures SortedBy(Eval(BuildQuery(o, now), t), BuildQuery(o, now).order.value)
  {
    var q := BuildQuery(o, now);
    var sorted := OrderRows(Filter(q.where, t), q.order);
    var skip := if q.offset.Some? then Min(q.offset.value, |sorted|) else 0;
    var r := Eval(q, t);
    assert r == sorted[skip..skip + |r|];
    SortedSlice(sorted, q.order.value, skip, skip + |r|);
  }

  /** Unless deleted rows are asked for, a row soft-deleted at or before `now` is never listed. */
  lemma SoftDeletedHidden(o: PostQueryOptions, now: string, t: Table, r: Row)
    requires !o.withDeleted && !Visible(r, now)
    ensures r !in Eval(BuildQuery(o, now), t)
  {
    if r in Eval(BuildQuery(o, now), t) {
      EvalSound(o, now, t, r);
    }
  }

  /** With `WithDeleted` and nothing else, every row is listed, in table order. */
  lemma WithDeletedListsAll(now: string, t: Table)
    ensures Eval(BuildQuery(NoOptions.(withDeleted := true), now), t) == t
  {
    FilterAll(BuildQuery(NoOptions.(withDeleted := true), now).where, t);
  }

  lemma {:induction false} FilterAll(ps: seq<Pred>, t: Table)
    requires ps == []
    ensures Filter(ps, t) == t
    decreases |t|
  {
    if t != [] {
      FilterAll(ps, t[1..]);
      assert t == [t[0]] + t[1..];
    }
  }

  /** Rows satisfying weaker conditions are at least as many, and more when some row tells them apart. */
  lemma {:induction false} FilterMonotone(ps: seq<Pred>, qs: seq<Pred>, t: Table)
    requires forall x :: AllHold(ps, x) ==> AllHold(qs, x)
    ensures |Filter(ps, t)| <= |Filter(qs, t)|
    ensures (exists x :: x in t && AllHold(qs, x) && !AllHold(ps, x)) ==> |Filter(ps, t)| < |Filter(qs, t)|
    decreases |t|
  {
    if t != [] {
      FilterMonotone(ps, qs, t[1..]);
      if exists x :: x in t && AllHold(qs, x) && !AllHold(ps, x) {
        var x :| x in t && AllHold(qs, x) && !AllHold(ps, x);
        if x != t[0] {
          assert t == [t[0]] + t[1..];
          assert x in t[1..];
        }
      }
    }
  }

  // ----- counting -----

  /** `PostCount`'s number: the rows the count query lists. */
  function CountRows(o: PostQueryOptions, now: string, t: Table): nat {
    |Eval(BuildQuery(o.(countOnly := true), now), t)|
  }

  /** The count is the number of matching rows, whatever the limit, offset or order. */
  lemma CountIsMatches(o: PostQueryOptions, now: string, t: Table)
    ensures CountRows(o, now, t) == |Filter(Where(o, now), t)|
    ensures forall x :: x in Filter(Where(o, now), t) <==> x in t && Matches(o, now, x)
    ensures forall l: int, f: int, s: string, b: string ::
      CountRows(o.(limit := l, offset := f, orderBy := b, sortOrder := s), now, t) == CountRows(o, now, t)
  {
    forall x
      ensures x in Filter(Where(o, now), t) <==> x in t && Matches(o, now, x)
    {
      WhereSpec(o, now, x);
    }
  }

  /** With every row soft-deleted, nothing is counted without `WithDeleted`, and every match with it. */
  lemma CountWithDeleted(o: PostQueryOptions, now: string, t: Table)
    requires forall x :: x in t ==> !Visible(x, now)
    ensures CountRows(o.(withDeleted := false), now, t) == 0
    ensures (exists x :: x in t && Matches(o.(withDeleted := true), now, x)) ==> CountRows(o.(withDeleted := true), now, t) > 0
  {
    var hidden := o.(withDeleted := false);
    var shown := o.(withDeleted := true);
    CountIsMatches(hidden, now, t);
    CountIsMatches(shown, now, t);
    forall x | x in t
      ensures !AllHold(Where(hidden, now), x)
    {
      WhereSpec(hidden, now, x);
    }
    FilterNone(Where(hidden, now), t);
    if exists x :: x in t && Matches(shown, now, x) {
      var x :| x in t && Matches(shown, now, x);
      assert x in Filter(Where(shown, now), t);
    }
  }

  lemma {:induction false} FilterNone(ps: seq<Pred>, t: Table)
    requires forall x :: x in t ==> !AllHold(ps, x)
    ensures Filter(ps, t) == []
    decreases |t|
  {
    if t != [] {
      assert t[0] in t;
      FilterNone(ps, t[1..]);
    }
  }
}
