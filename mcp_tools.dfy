/**
 * The MCP tools over the store: `post_list`, `post_get`, `post_delete`,
 * `post_versions`, `post_upsert` and the dispatcher. Each tool's JSON text
 * is represented by the values it serialises.
 */
module McpTools {
  import opened Outcomes
  import opened Strings
  import opened Fields
  import opened Consts
  import opened Tables
  import opened Query
  import opened Posts
  import opened Versions
  import opened Stores
  import opened McpArgs
  import opened McpUpsert
  import opened StoreProps

  const IdRequired := "id is required"
  const PostNotFound := "post not found"
  const VersioningNotEnabled := "versioning is not enabled"
  const TitleRequired := "title is required for new posts"

  /**
   * One `if v := argString(args, key); v != "" { post.SetX(v) }` step of
   * `toolPostUpsert`; every such setter is `Set(column, v)` for its column.
   */
  method SetGiven(post: Post, args: Args, key: string, column: string)
    modifies post
    ensures post.data == GivenText(old(post.data), args, key, column)
    ensures post.changed == old(post.changed) + GivenColumn(args, key, column)
  {
    var v := ArgString(args, key);
    if v != "" {
      post.Set(column, Text(v));
    }
  }

  /** The text setters before the featured check (`toolPostUpsert`, title to image_url). */
  method ApplyEarlyFields(post: Post, args: Args)
    modifies post
    ensures post.data == ApplyGiven(old(post.data), args, EarlyFieldArgs)
    ensures post.changed == old(post.changed) + GivenColumns(args, EarlyFieldArgs)
  {
    EarlyFieldsUnfold(post.data, args);
    SetGiven(post, args, "title", ColumnTitle);
    SetGiven(post, args, "content", ColumnContent);
    SetGiven(post, args, "summary", ColumnSummary);
    SetGiven(post, args, "status", ColumnStatus);
    SetGiven(post, args, "author_id", ColumnAuthorId);
    SetGiven(post, args, "canonical_url", ColumnCanonicalUrl);
    SetGiven(post, args, "image_url", ColumnImageUrl);
  }

  /** The text setters after the editor (`toolPostUpsert`, published_at to memo). */
  method ApplyLateFields(post: Post, args: Args)
    modifies post
    ensures post.data == ApplyGiven(old(post.data), args, LateFieldArgs)
    ensures post.changed == old(post.changed) + GivenColumns(args, LateFieldArgs)
  {
    LateFieldsUnfold(post.data, args);
    SetGiven(post, args, "published_at", ColumnPublishedAt);
    SetGiven(post, args, "meta_description", ColumnMetaDescription);
    SetGiven(post, args, "meta_keywords", ColumnMetaKeywords);
    SetGiven(post, args, "meta_robots", ColumnMetaRobots);
    SetGiven(post, args, "memo", ColumnMemo);
  }

  /** The content type (given, kept, or plain text) and its editor, both stored with their errors ignored. */
  method ApplyContentType(post: Post, args: Args)
    modifies post
    ensures var ct := FinalContentType(old(post.data), args);
      post.data == WithMeta(WithMeta(old(post.data), MetaContentType, ct), MetaEditor, ContentTypeToEditor(ct))
    ensures post.changed == old(post.changed) + (if DecodeMetas(old(post.data)).Ok? then {ColumnMetas} else {})
  {
    var contentType := ArgString(args, "content_type");
    if contentType == "" {
      if post.ContentType() == "" {
        contentType := ContentTypePlainText;
      } else {
        contentType := post.ContentType();
      }
    }
    var _ := post.SetContentType(contentType);
    var editor := ContentTypeToEditor(contentType);
    var _ := post.SetEditor(editor);
  }

  /** Three unions in a row add up to one union of the three parts. */
  lemma UnionSteps(c0: set<string>, c1: set<string>, c2: set<string>, c3: set<string>, a: set<string>, b: set<string>, c: set<string>)
    requires c1 == c0 + a && c2 == c1 + b && c3 == c2 + c
    ensures c3 == c0 + (a + b + c)
  {
  }

  /** The `featured` argument: "yes" or "no" is set, another non-empty value is refused. */
  method ApplyFeatured(post: Post, args: Args) returns (err: Outcome)
    modifies post
    ensures !FeaturedValid(args) ==> err == Fail(FeaturedError) && post.data == old(post.data) && post.changed == old(post.changed)
    ensures FeaturedValid(args) ==>
      && err == Pass
      && post.data == GivenText(old(post.data), args, "featured", ColumnFeatured)
      && post.changed == old(post.changed) + GivenColumn(args, "featured", ColumnFeatured)
  {
    var v := ArgString(args, "featured");
    err := Pass;
    if v != "" {
      if v != Yes && v != No {
        return Fail(FeaturedError);
      }
      var _ := post.SetFeatured(v);
    }
  }

  /**
   * `toolPostUpsert` from the first field setter to the last: the post's
   * fields become `UpsertRow` of the old ones, or the featured error is
   * returned.
   */
  method ApplyUpsertArgs(post: Post, args: Args) returns (err: Outcome)
    modifies post
    ensures UpsertRow(old(post.data), args).Err? ==> err == Fail(FeaturedError)
    ensures UpsertRow(old(post.data), args).Ok? ==>
      && err == Pass
      && post.data == UpsertRow(old(post.data), args).value
      && post.changed == old(post.changed) + UpsertChanged(old(post.data), args)
  {
    ghost var d0, c0 := post.data, post.changed;
    ApplyEarlyFields(post, args);
    err := ApplyFeatured(post, args);
    if err.Fail? {
      return;
    }
    ghost var c1 := post.changed;
    EarlyRowKeepsMetas(d0, args);
    ApplyContentType(post, args);
    ghost var c2 := post.changed;
    ApplyLateFields(post, args);
    UpsertChangedSteps(d0, args);
    UnionSteps(c0, c1, c2, post.changed, GivenColumns(args, EarlyFieldArgs) + GivenColumn(args, "featured", ColumnFeatured),
      if DecodeMetas(EarlyRow(d0, args)).Ok? then {ColumnMetas} else {}, GivenColumns(args, LateFieldArgs));
  }

  // ----- what the tools return -----

  /** What a tool's JSON text carries. A post's fields are its field map, the metas object standing for its JSON text. */
  datatype ToolOutput =
    | Schema
    | Items(items: seq<Row>)
    | PostFields(fields: Row)
    | Deleted(id: string)
    | VersionItems(versions: seq<Version>, total: nat)
    | Upserted(id: string, title: string)

  /** A blank (empty or all white space) identifier. */
  predicate BlankArg(id: string) {
    TrimSpace(id) == ""
  }

  lemma NotBlankNotEmpty(id: string)
    requires !BlankArg(id)
    ensures id != ""
  {
  }

  // ----- post_list -----

  /** The options `post_list` builds: an argument that is absent or does not convert leaves its zero value. */
  function ListOptions(args: Args): PostQueryOptions {
    NoOptions.(id := ArgString(args, "id"), status := ArgString(args, "status"), search := ArgString(args, "search"),
      orderBy := ArgString(args, "order_by"), sortOrder := ArgString(args, "sort_order"),
      limit := ArgInt(args, "limit").0, offset := ArgInt(args, "offset").0, withDeleted := ArgBool(args, "with_deleted").0)
  }

  /**
   * Every post `post_list` returns is a table row that has the requested id
   * and status, contains the search term, and is not soft-deleted unless
   * `with_deleted` is true.
   */
  lemma ListedPostsMatch(args: Args, now: string, t: Table, r: Row)
    requires r in Eval(BuildQuery(ListOptions(args), now), t)
    ensures r in t
    ensures ArgString(args, "id") != "" ==> TextOf(r, ColumnId) == Some(ArgString(args, "id"))
    ensures ArgString(args, "status") != "" ==> TextOf(r, ColumnStatus) == Some(ArgString(args, "status"))
    ensures ArgString(args, "search") != "" ==> SearchHit(ArgString(args, "search"), r)
    ensures ArgBool(args, "with_deleted") != (true, true) ==> Visible(r, now)
  {
    EvalSound(ListOptions(args), now, t, r);
  }

  /** Without a positive limit or offset, every matching row is returned. */
  lemma ListedPostsComplete(args: Args, now: string, t: Table, r: Row)
    requires ArgInt(args, "limit").0 <= 0 && ArgInt(args, "offset").0 <= 0
    requires r in t && Matches(ListOptions(args), now, r)
    ensures r in Eval(BuildQuery(ListOptions(args), now), t)
  {
    EvalComplete(ListOptions(args), now, t, r);
  }

  /** A positive integer `limit` bounds the number of posts returned. */
  lemma ListedPostsLimit(args: Args, now: string, t: Table)
    requires ArgInt(args, "limit").1 && ArgInt(args, "limit").0 > 0
    ensures |Eval(BuildQuery(ListOptions(args), now), t)| <= ArgInt(args, "limit").0
  {
    EvalLimit(ListOptions(args), now, t);
  }

  // ----- post_versions -----

  /** The query `post_versions` builds: the post's snapshots, newest first by created_at unless told otherwise. */
  function VersionsQuery(args: Args, id: string): (q: VersionQuery)
    ensures q.entityType == VersioningTypePost && q.entityId == id
    ensures q.orderBy != "" && q.sortOrder != ""
    ensures ArgString(args, "order_by") == "" ==> q.orderBy == "created_at"
    ensures ArgString(args, "sort_order") == "" ==> q.sortOrder == "desc"
    ensures q.limit.Some? <==> ArgInt(args, "limit").1
  {
    VersionQuery(VersioningTypePost, id,
      if ArgString(args, "order_by") != "" then ArgString(args, "order_by") else "created_at",
      if ArgString(args, "sort_order") != "" then ArgString(args, "sort_order") else "desc",
      if ArgInt(args, "limit").1 then Some(ArgInt(args, "limit").0) else None)
  }

  // ----- post_upsert -----

  /** The post `post_upsert` creates: `NewPost`, the given non-blank id, and the title. */
  function NewUpsertRow(args: Args, uid: Uid, now: string): Row {
    var made := NewPostRow(uid, now);
    var withId := if !BlankArg(ArgString(args, "id")) then made[ColumnId := Text(ArgString(args, "id"))] else made;
    withId[ColumnTitle := Text(ArgString(args, "title"))]
  }

  lemma NewUpsertRowFields(args: Args, uid: Uid, now: string)
    ensures Get(NewUpsertRow(args, uid, now), ColumnId) == (if !BlankArg(ArgString(args, "id")) then ArgString(args, "id") else uid)
    ensures Get(NewUpsertRow(args, uid, now), ColumnTitle) == ArgString(args, "title")
    ensures Get(NewUpsertRow(args, uid, now), ColumnStatus) == StatusDraft
  {
    NewPostDefaults(uid, now);
    IdAndTitleSet(NewPostRow(uid, now), !BlankArg(ArgString(args, "id")), ArgString(args, "id"), ArgString(args, "title"));
  }

  lemma IdAndTitleSet(m: Row, setId: bool, id: string, title: string)
    ensures var withId := if setId then m[ColumnId := Text(id)] else m;
      && Get(withId[ColumnTitle := Text(title)], ColumnId) == (if setId then id else Get(m, ColumnId))
      && Get(withId[ColumnTitle := Text(title)], ColumnTitle) == title
      && Get(withId[ColumnTitle := Text(title)], ColumnStatus) == Get(m, ColumnStatus)
  {
  }

  lemma SetIdAndTitleKeys(m: Row, setId: bool, id: string, title: string)
    ensures var withId := if setId then m[ColumnId := Text(id)] else m;
      withId[ColumnTitle := Text(title)].Keys == m.Keys + (if setId then {ColumnId} else {}) + {ColumnTitle}
  {
  }

  /** A post ready to be written: whether it updates a found one, its fields, and its dirty set. */
  datatype Prepared = Prepared(isUpdate: bool, data: Row, changed: set<string>)

  /** `post_upsert` finds the post exactly when the id is not blank and the lookup returns a row. */
  predicate Found(args: Args, now: string, t: Table) {
    !BlankArg(ArgString(args, "id")) && Eval(BuildQuery(FindOptions(ArgString(args, "id")), now), t) != []
  }

  /** The lookup by a non-blank id fails with a database error. */
  predicate LookupFailed(args: Args, dbFind: Outcome) {
    !BlankArg(ArgString(args, "id")) && dbFind.Fail?
  }

  /** No post is found and the title needed for a new one is blank. */
  predicate TitleMissing(args: Args, now: string, t: Table) {
    !Found(args, now, t) && BlankArg(ArgString(args, "title"))
  }

  /** The post the arguments are applied to: the found one, or a new one. */
  function UpsertStart(args: Args, uid: Uid, now: string, t: Table): Row {
    if Found(args, now, t) then Eval(BuildQuery(FindOptions(ArgString(args, "id")), now), t)[0] else NewUpsertRow(args, uid, now)
  }

  /** Its dirty set then: nothing for a loaded post, every field for a new one. */
  function UpsertDirty(args: Args, uid: Uid, now: string, t: Table): set<string> {
    if Found(args, now, t) then {} else NewUpsertRow(args, uid, now).Keys
  }

  /** The arguments applied to `start`, or the featured error. */
  function Prepare(isUpdate: bool, start: Row, dirty: set<string>, args: Args): Result<Prepared> {
    match UpsertRow(start, args)
    case Err(e) => Err(e)
    case Ok(d) => Ok(Prepared(isUpdate, d, dirty + UpsertChanged(start, args)))
  }

  lemma PrepareRule(isUpdate: bool, start: Row, dirty: set<string>, args: Args)
    ensures !FeaturedValid(args) ==> Prepare(isUpdate, start, dirty, args) == Err(FeaturedError)
    ensures FeaturedValid(args) ==>
      Prepare(isUpdate, start, dirty, args) == Ok(Prepared(isUpdate, UpsertRow(start, args).value, dirty + UpsertChanged(start, args)))
  {
    UpsertFeaturedRule(start, args);
  }

  /**
   * What `post_upsert` has prepared before it writes: the found post, or a
   * new one, with the arguments applied. Otherwise it stops with the first
   * error: the lookup's, a missing title for a new post, or a bad featured value.
   */
  function PrepareUpsert(args: Args, uid: Uid, now: string, dbFind: Outcome, t: Table): Result<Prepared> {
    PrepareFrom(args, !BlankArg(ArgString(args, "id")), dbFind, Found(args, now, t), !BlankArg(ArgString(args, "title")),
      UpsertStart(args, uid, now, t), UpsertDirty(args, uid, now, t))
  }

  /** `PrepareUpsert` given whether the id and the title are non-blank and whether a post was found. */
  function PrepareFrom(args: Args, lookup: bool, dbFind: Outcome, found: bool, titled: bool, start: Row, dirty: set<string>): Result<Prepared> {
    if lookup && dbFind.Fail? then Err(dbFind.error)
    else if !found && !titled then Err(TitleRequired)
    else Prepare(found, start, dirty, args)
  }

  lemma PrepareFromErrors(args: Args, lookup: bool, dbFind: Outcome, found: bool, titled: bool, start: Row, dirty: set<string>)
    ensures lookup && dbFind.Fail? ==> PrepareFrom(args, lookup, dbFind, found, titled, start, dirty) == Err(dbFind.error)
    ensures !(lookup && dbFind.Fail?) ==>
      && (PrepareFrom(args, lookup, dbFind, found, titled, start, dirty) == Err(TitleRequired) <==> !found && !titled)
      && (PrepareFrom(args, lookup, dbFind, found, titled, start, dirty) == Err(FeaturedError) <==> (found || titled) && !FeaturedValid(args))
      && (PrepareFrom(args, lookup, dbFind, found, titled, start, dirty).Ok? <==> (found || titled) && FeaturedValid(args))
    ensures PrepareFrom(args, lookup, dbFind, found, titled, start, dirty).Ok? ==>
      PrepareFrom(args, lookup, dbFind, found, titled, start, dirty).value ==
        Prepared(found, UpsertRow(start, args).value, dirty + UpsertChanged(start, args))
  {
    PrepareRule(found, start, dirty, args);
  }


  /** The store after `PostUpdate` of the prepared post, and the tool's reply. */
  ghost predicate UpsertUpdated(p: Prepared, db: Outcome, track: Outcome,
                                table0: Table, calls0: seq<TrackCall>, table: Table, calls: seq<TrackCall>, r: Result<ToolOutput>)
  {
    var changes := UpdateChanges(p.data, p.changed);
    var id := Get(p.data, ColumnId);
    var reply := Ok(Upserted(id, Get(p.data, ColumnTitle)));
    if changes == map[] then table == table0 && calls == calls0 && r == reply
    else
      && table == (if db.Pass? then UpdateRows(table0, id, changes) else table0)
      && calls == calls0 + [TrackCall(VersioningTypePost, id, Json(SnapshotContent(p.data)))]
      && r == (if track.Fail? then Err(track.error) else if db.Fail? then Err(db.error) else reply)
  }

  /** The store after `PostCreate` of the prepared post, stamped at `now`, and the tool's reply. */
  ghost predicate UpsertCreated(p: Prepared, now: string, db: Outcome, track: Outcome,
                                table0: Table, calls0: seq<TrackCall>, table: Table, calls: seq<TrackCall>, r: Result<ToolOutput>)
  {
    var d := p.data[ColumnCreatedAt := Text(now)][ColumnUpdatedAt := Text(now)];
    var id := Get(d, ColumnId);
    if InsertOutcome(table0, d, db).Fail? then
      table == table0 && calls == calls0 && r == Err(InsertOutcome(table0, d, db).error)
    else
      && table == table0 + [d]
      && calls == calls0 + [TrackCall(VersioningTypePost, id, Json(SnapshotContent(d)))]
      && r == (if track.Fail? then Err(track.error) else Ok(Upserted(id, Get(d, ColumnTitle))))
  }

  /** The error cases of `post_upsert`, each exactly when it happens, in the order they are checked. */
  lemma UpsertErrors(args: Args, uid: Uid, now: string, dbFind: Outcome, t: Table)
    ensures !BlankArg(ArgString(args, "id")) && dbFind.Fail? ==> PrepareUpsert(args, uid, now, dbFind, t) == Err(dbFind.error)
    ensures !(!BlankArg(ArgString(args, "id")) && dbFind.Fail?) ==>
      && (PrepareUpsert(args, uid, now, dbFind, t) == Err(TitleRequired) <==> !Found(args, now, t) && BlankArg(ArgString(args, "title")))
      && (PrepareUpsert(args, uid, now, dbFind, t) == Err(FeaturedError) <==>
            (Found(args, now, t) || !BlankArg(ArgString(args, "title"))) && !FeaturedValid(args))
      && (PrepareUpsert(args, uid, now, dbFind, t).Ok? <==>
            (Found(args, now, t) || !BlankArg(ArgString(args, "title"))) && FeaturedValid(args))
  {
    PrepareFromErrors(args, !BlankArg(ArgString(args, "id")), dbFind, Found(args, now, t), !BlankArg(ArgString(args, "title")),
      UpsertStart(args, uid, now, t), UpsertDirty(args, uid, now, t));
  }

  /** Past the lookup and the title check, `post_upsert` applies the arguments to `UpsertStart`. */
  lemma PreparedFromStart(args: Args, uid: Uid, now: string, dbFind: Outcome, t: Table)
    requires !(!BlankArg(ArgString(args, "id")) && dbFind.Fail?) && (Found(args, now, t) || !BlankArg(ArgString(args, "title")))
    ensures PrepareUpsert(args, uid, now, dbFind, t) == Prepare(Found(args, now, t), UpsertStart(args, uid, now, t), UpsertDirty(args, uid, now, t), args)
    ensures !FeaturedValid(args) ==> PrepareUpsert(args, uid, now, dbFind, t) == Err(FeaturedError)
    ensures FeaturedValid(args) ==>
      PrepareUpsert(args, uid, now, dbFind, t) ==
        Ok(Prepared(Found(args, now, t), UpsertRow(UpsertStart(args, uid, now, t), args).value,
          UpsertDirty(args, uid, now, t) + UpsertChanged(UpsertStart(args, uid, now, t), args)))
  {
    PrepareRule(Found(args, now, t), UpsertStart(args, uid, now, t), UpsertDirty(args, uid, now, t), args);
  }

  /** The fields the upsert reports, and the status, in terms of the post it started from. */
  lemma UpsertOfStart(start: Row, args: Args)
    requires FeaturedValid(args)
    ensures Get(UpsertRow(start, args).value, ColumnId) == Get(start, ColumnId)
    ensures Get(UpsertRow(start, args).value, ColumnTitle) ==
      if ArgString(args, "title") != "" then ArgString(args, "title") else Get(start, ColumnTitle)
    ensures Get(UpsertRow(start, args).value, ColumnStatus) ==
      if ArgString(args, "status") != "" then ArgString(args, "status") else Get(start, ColumnStatus)
  {
    UpsertTextFields(start, args);
    UpsertKeepsId(start, args);
    assert EarlyFieldArgs[0] == ("title", ColumnTitle) && EarlyFieldArgs[3] == ("status", ColumnStatus);
  }

  /** The prepared post is the upsert of `UpsertStart`, and it is an update exactly when a post was found. */
  lemma PreparedValue(args: Args, uid: Uid, now: string, dbFind: Outcome, t: Table)
    requires PrepareUpsert(args, uid, now, dbFind, t).Ok?
    ensures FeaturedValid(args)
    ensures PrepareUpsert(args, uid, now, dbFind, t).value ==
      Prepared(Found(args, now, t), UpsertRow(UpsertStart(args, uid, now, t), args).value,
        UpsertDirty(args, uid, now, t) + UpsertChanged(UpsertStart(args, uid, now, t), args))
    ensures Found(args, now, t) || !BlankArg(ArgString(args, "title"))
  {
    PrepareFromErrors(args, !BlankArg(ArgString(args, "id")), dbFind, Found(args, now, t), !BlankArg(ArgString(args, "title")),
      UpsertStart(args, uid, now, t), UpsertDirty(args, uid, now, t));
  }

  /** The post found for a non-blank id is a visible table row with that id. */
  lemma FoundRow(args: Args, now: string, t: Table)
    requires Found(args, now, t)
    ensures var f := Eval(BuildQuery(FindOptions(ArgString(args, "id")), now), t)[0];
      f in t && HasId(f, ArgString(args, "id")) && Visible(f, now)
  {
    NotBlankNotEmpty(ArgString(args, "id"));
    FindByIdSpec(ArgString(args, "id"), now, t);
  }

  /**
   * An update targets the row that was found: a visible table row with the
   * given id. The id is kept and the title is the argument when one is given.
   */
  lemma UpsertUpdatesFound(args: Args, uid: Uid, now: string, dbFind: Outcome, t: Table)
    requires Found(args, now, t) && PrepareUpsert(args, uid, now, dbFind, t).Ok?
    ensures var p := PrepareUpsert(args, uid, now, dbFind, t).value;
      var f := Eval(BuildQuery(FindOptions(ArgString(args, "id")), now), t)[0];
      && f in t && HasId(f, ArgString(args, "id")) && Visible(f, now)
      && Get(p.data, ColumnId) == ArgString(args, "id")
      && Get(p.data, ColumnTitle) == (if ArgString(args, "title") != "" then ArgString(args, "title") else Get(f, ColumnTitle))
  {
    PreparedValue(args, uid, now, dbFind, t);
    FoundRow(args, now, t);
    UpsertOfStart(UpsertStart(args, uid, now, t), args);
  }

  /**
   * A new post gets the given non-blank id, or the generated one, and the
   * given title; its status is the argument, or draft.
   */
  lemma UpsertNewPost(args: Args, uid: Uid, now: string, dbFind: Outcome, t: Table)
    requires !Found(args, now, t) && PrepareUpsert(args, uid, now, dbFind, t).Ok?
    ensures var p := PrepareUpsert(args, uid, now, dbFind, t).value;
      && Get(p.data, ColumnId) == (if !BlankArg(ArgString(args, "id")) then ArgString(args, "id") else uid)
      && Get(p.data, ColumnTitle) == ArgString(args, "title") && !BlankArg(Get(p.data, ColumnTitle))
      && Get(p.data, ColumnStatus) == (if ArgString(args, "status") != "" then ArgString(args, "status") else StatusDraft)
  {
    PreparedValue(args, uid, now, dbFind, t);
    NewUpsertRowFields(args, uid, now);
    UpsertOfStart(UpsertStart(args, uid, now, t), args);
  }

  // ----- the server -----

  /** The outside world one tool call sees: the clock, the generated id, and the answers of the database and snapshot library. */
  datatype Env = Env(now: string, uid: Uid, dbFind: Outcome, dbWrite: Outcome, track: Outcome, versions: Result<seq<Version>>)

  /** The MCP server over a post store. */
  class Mcp {
    const store: Store

    constructor (store: Store)
      ensures this.store == store
    {
      this.store := store;
    }

    /** The items `toolPostList` serialises: each post's field map (`postToMap`), in the order listed. */
    static method PostMaps(list: seq<Post>) returns (items: seq<Row>)
      ensures |items| == |list|
      ensures forall k :: 0 <= k < |list| ==> items[k] == list[k].data
    {
      items := [];
      var i := 0;
      while i < |list|
        invariant 0 <= i <= |list| && |items| == i
        invariant forall k :: 0 <= k < i ==> items[k] == list[k].data
      {
        items := items + [list[i].data];
        i := i + 1;
      }
    }

    /** `toolPostList`: the posts the listing options select, as field maps, in the order listed. */
    method ToolPostList(args: Args, now: string, db: Outcome) returns (r: Result<ToolOutput>)
      ensures db.Fail? ==> r == Err(db.error)
      ensures db.Pass? ==> r == Ok(Items(Eval(BuildQuery(ListOptions(args), now), store.table)))
    {
      var list, err := store.PostList(ListOptions(args), now, db);
      if err.Fail? {
        return Err(err.error);
      }
      var items := PostMaps(list);
      assert items == Eval(BuildQuery(ListOptions(args), now), store.table);
      r := Ok(Items(items));
    }

    /** `toolPostGet`: the visible post with the given id, or why there is none. */
    method ToolPostGet(args: Args, now: string, db: Outcome) returns (r: Result<ToolOutput>)
      ensures BlankArg(ArgString(args, "id")) ==> r == Err(IdRequired)
      ensures !BlankArg(ArgString(args, "id")) && db.Fail? ==> r == Err(db.error)
      ensures !BlankArg(ArgString(args, "id")) && db.Pass? ==>
        (r.Ok? <==> exists x :: x in store.table && HasId(x, ArgString(args, "id")) && Visible(x, now))
      ensures !BlankArg(ArgString(args, "id")) && db.Pass? && r.Err? ==> r == Err(PostNotFound)
      ensures r.Ok? ==>
        && r.value.PostFields? && r.value.fields in store.table
        && HasId(r.value.fields, ArgString(args, "id")) && Visible(r.value.fields, now)
    {
      var id := ArgString(args, "id");
      if BlankArg(id) {
        return Err(IdRequired);
      }
      NotBlankNotEmpty(id);
      var post, err := store.PostFindByID(id, now, db);
      if err.Fail? {
        return Err(err.error);
      }
      FindByIdSpec(id, now, store.table);
      if post == null {
        return Err(PostNotFound);
      }
      r := Ok(PostFields(post.data));
    }

    /** `toolPostDelete`: the post with the given id is removed for good. */
    method ToolPostDelete(args: Args, db: Outcome) returns (r: Result<ToolOutput>)
      modifies store
      ensures BlankArg(ArgString(args, "id")) ==> r == Err(IdRequired) && store.table == old(store.table)
      ensures !BlankArg(ArgString(args, "id")) && db.Fail? ==> r == Err(db.error) && store.table == old(store.table)
      ensures !BlankArg(ArgString(args, "id")) && db.Pass? ==>
        && r == Ok(Deleted(ArgString(args, "id")))
        && store.table == DeleteRows(old(store.table), ArgString(args, "id"))
        && forall x :: x in store.table ==> !HasId(x, ArgString(args, "id"))
      ensures store.trackCalls == old(store.trackCalls)
      ensures old(store.Valid()) ==> store.Valid()
    {
      var id := ArgString(args, "id");
      if BlankArg(id) {
        return Err(IdRequired);
      }
      NotBlankNotEmpty(id);
      var err := store.PostDeleteByID(id, db);
      if err.Fail? {
        return Err(err.error);
      }
      r := Ok(Deleted(id));
    }

    /** The items `toolPostVersions` serialises: each version's five fields, in the library's order. */
    static method VersionItemsOf(versions: seq<Version>) returns (items: seq<Version>)
      ensures items == versions
    {
      items := [];
      var i := 0;
      while i < |versions|
        invariant 0 <= i <= |versions| && items == versions[..i]
      {
        var v := versions[i];
        items := items + [Version(v.id, v.entityType, v.entityId, v.content, v.createdAt)];
        i := i + 1;
      }
    }

    /** `toolPostVersions`: the post's snapshots as the library lists them, with their number. */
    method ToolPostVersions(args: Args, reply: Result<seq<Version>>) returns (r: Result<ToolOutput>)
      modifies store.versioningStore
      ensures BlankArg(ArgString(args, "id")) ==> r == Err(IdRequired)
      ensures !BlankArg(ArgString(args, "id")) && !store.VersioningEnabled() ==> r == Err(VersioningNotEnabled)
      ensures (BlankArg(ArgString(args, "id")) || !store.VersioningEnabled()) && store.versioningStore != null ==>
        store.versioningStore.calls == old(store.versioningStore.calls)
      ensures !BlankArg(ArgString(args, "id")) && store.VersioningEnabled() && store.versioningStore == null ==>
        r == Ok(VersionItems([], 0))
      ensures !BlankArg(ArgString(args, "id")) && store.VersioningEnabled() && store.versioningStore != null ==>
        && store.versioningStore.calls == old(store.versioningStore.calls) + [List(VersionsQuery(args, ArgString(args, "id")))]
        && r == (if reply.Err? then Err(reply.error) else Ok(VersionItems(reply.value, |reply.value|)))
    {
      var id := ArgString(args, "id");
      if BlankArg(id) {
        return Err(IdRequired);
      }
      if !store.VersioningEnabled() {
        return Err(VersioningNotEnabled);
      }
      var list, err := store.VersioningList(VersionsQuery(args, id), reply);
      if err.Fail? {
        return Err(err.error);
      }
      var items := VersionItemsOf(list.value);
      r := Ok(VersionItems(items, |items|));
    }

    /**
     * `toolPostUpsert` up to the field setters: the post found by a non-blank
     * id, loaded clean, or a new post with that id (or the generated one) and
     * the title, every field dirty. It stops on a failed lookup, and on a
     * blank title when there is no post to update.
     */
    method StartUpsert(args: Args, uid: Uid, now: string, dbFind: Outcome) returns (post: Post?, isUpdate: bool, r: Result<ToolOutput>)
      ensures LookupFailed(args, dbFind) ==> post == null && r == Err(dbFind.error)
      ensures !LookupFailed(args, dbFind) && TitleMissing(args, now, store.table) ==> post == null && r == Err(TitleRequired)
      ensures !LookupFailed(args, dbFind) && !TitleMissing(args, now, store.table) ==>
        && post != null && fresh(post)
        && isUpdate == Found(args, now, store.table)
        && post.data == UpsertStart(args, uid, now, store.table)
        && post.changed == UpsertDirty(args, uid, now, store.table)
    {
      var id := ArgString(args, "id");
      post, isUpdate, r := null, false, Ok(Schema);
      if !BlankArg(id) {
        NotBlankNotEmpty(id);
        var err;
        post, err := store.PostFindByID(id, now, dbFind);
        if err.Fail? {
          return null, false, Err(err.error);
        }
        if post != null {
          isUpdate := true;
        }
      }
      assert post != null <==> Found(args, now, store.table);
      assert post != null ==> post.data == UpsertStart(args, uid, now, store.table) && post.changed == UpsertDirty(args, uid, now, store.table);
      if post == null {
        var title := ArgString(args, "title");
        if BlankArg(title) {
          return null, false, Err(TitleRequired);
        }
        post := NewUpsertPost(args, uid, now);
      }
    }

    /** The new post of `toolPostUpsert`: `NewPost`, then the non-blank id and the title. */
    static method NewUpsertPost(args: Args, uid: Uid, now: string) returns (post: Post)
      ensures fresh(post)
      ensures post.data == NewUpsertRow(args, uid, now) && post.changed == NewUpsertRow(args, uid, now).Keys
    {
      var id := ArgString(args, "id");
      post := NewPost(uid, now);
      ghost var m := post.data;
      if !BlankArg(id) {
        var _ := post.SetId(id);
      }
      var _ := post.SetTitle(ArgString(args, "title"));
      SetIdAndTitleKeys(m, !BlankArg(id), id, ArgString(args, "title"));
    }

    /** The write at the end of `toolPostUpsert`: `PostUpdate` of a found post, `PostCreate` of a new one. */
    method FinishUpsert(post: Post, isUpdate: bool, now: string, dbWrite: Outcome, track: Outcome) returns (r: Result<ToolOutput>)
      modifies store, post
      ensures isUpdate ==> UpsertUpdated(Prepared(isUpdate, old(post.data), old(post.changed)), dbWrite, track,
        old(store.table), old(store.trackCalls), store.table, store.trackCalls, r)
      ensures !isUpdate ==> UpsertCreated(Prepared(isUpdate, old(post.data), old(post.changed)), now, dbWrite, track,
        old(store.table), old(store.trackCalls), store.table, store.trackCalls, r)
      ensures old(store.Valid()) ==> store.Valid()
    {
      var err;
      if isUpdate {
        err := store.PostUpdate(post, dbWrite, track);
      } else {
        err := store.PostCreate(post, now, dbWrite, track);
      }
      if err.Fail? {
        return Err(err.error);
      }
      r := Ok(Upserted(post.Id(), post.Title()));
    }

    /**
     * `toolPostUpsert`: the post found by a non-blank id is updated, otherwise
     * a new one is created, with the given fields applied; the reply carries
     * the post's id and title. Every early error leaves the store as it was.
     */
    method ToolPostUpsert(args: Args, uid: Uid, now: string, dbFind: Outcome, dbWrite: Outcome, track: Outcome)
      returns (r: Result<ToolOutput>)
      modifies store
      ensures var p := PrepareUpsert(args, uid, now, dbFind, old(store.table));
        p.Err? ==> r == Err(p.error) && store.table == old(store.table) && store.trackCalls == old(store.trackCalls)
      ensures var p := PrepareUpsert(args, uid, now, dbFind, old(store.table));
        p.Ok? && p.value.isUpdate ==>
          UpsertUpdated(p.value, dbWrite, track, old(store.table), old(store.trackCalls), store.table, store.trackCalls, r)
      ensures var p := PrepareUpsert(args, uid, now, dbFind, old(store.table));
        p.Ok? && !p.value.isUpdate ==>
          UpsertCreated(p.value, now, dbWrite, track, old(store.table), old(store.trackCalls), store.table, store.trackCalls, r)
      ensures old(store.Valid()) ==> store.Valid()
    {
      ghost var t0 := store.table;
      var post, isUpdate;
      post, isUpdate, r := StartUpsert(args, uid, now, dbFind);
      if post == null {
        return;
      }
      PreparedFromStart(args, uid, now, dbFind, t0);
      var err := ApplyUpsertArgs(post, args);
      if err.Fail? {
        return Err(err.error);
      }
      r := FinishUpsert(post, isUpdate, now, dbWrite, track);
    }

    /**
     * `dispatchTool`: the tool with that exact name runs against the store,
     * `env` standing for the clock, the generated id and the answers of the
     * database and the snapshot library; any other name is "unknown tool".
     * Only `post_upsert` and `post_delete` change the post table.
     */
    method DispatchTool(name: string, args: Args, env: Env) returns (r: Result<ToolOutput>)
      modifies store, store.versioningStore
      ensures ToolFor(name).None? ==> r == Err(UnknownTool)
      ensures ToolFor(name) != Some(PostUpsertTool) && ToolFor(name) != Some(PostDeleteTool) ==>
        store.table == old(store.table) && store.trackCalls == old(store.trackCalls)
      ensures ToolFor(name) == Some(BlogSchema) ==> r == Ok(Schema)
      ensures ToolFor(name) == Some(PostListTool) ==>
        r == if env.dbFind.Fail? then Err(env.dbFind.error) else Ok(Items(Eval(BuildQuery(ListOptions(args), env.now), store.table)))
      ensures ToolFor(name) in {Some(PostGetTool), Some(PostDeleteTool), Some(PostVersionsTool)} && BlankArg(ArgString(args, "id")) ==>
        r == Err(IdRequired)
      ensures ToolFor(name) == Some(PostDeleteTool) && !BlankArg(ArgString(args, "id")) && env.dbWrite.Pass? ==>
        store.table == DeleteRows(old(store.table), ArgString(args, "id"))
      ensures ToolFor(name) == Some(PostUpsertTool) ==>
        var p := PrepareUpsert(args, env.uid, env.now, env.dbFind, old(store.table));
        p.Err? ==> r == Err(p.error) && store.table == old(store.table)
      ensures old(store.Valid()) ==> store.Valid()
    {
      match ToolFor(name)
      case None =>
        r := Err(UnknownTool);
      case Some(BlogSchema) =>
        r := Ok(Schema);
      case Some(PostListTool) =>
        r := ToolPostList(args, env.now, env.dbFind);
      case Some(PostGetTool) =>
        r := ToolPostGet(args, env.now, env.dbFind);
      case Some(PostUpsertTool) =>
        r := ToolPostUpsert(args, env.uid, env.now, env.dbFind, env.dbWrite, env.track);
      case Some(PostVersionsTool) =>
        r := ToolPostVersions(args, env.versions);
      case Some(PostDeleteTool) =>
        r := ToolPostDelete(args, env.dbWrite);
    }
  }
}
