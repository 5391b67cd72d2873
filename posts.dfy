/**
 * The post entity: a field map with dirty-field tracking (the embedded
 * `dataobject.DataObject`), typed getters and setters over it, the metas
 * object, the status helpers, and the content a snapshot records.
 */
module Posts {
  import opened Outcomes
  import opened Fields
  import opened Consts

  /** A generated id: `uid.HumanUid()` never yields the empty string. */
  type Uid = s: string | s != "" witness "0"

  /** The timestamp columns a snapshot leaves out. */
  const TimestampColumns: set<string> := {ColumnCreatedAt, ColumnUpdatedAt, ColumnSoftDeletedAt}

  /** What a snapshot's content column holds: nothing, a JSON object (decoded), or other text. */
  datatype SnapshotText = Blank | Json(fields: Row) | NotJson

  /**
   * `Metas()`: an empty (or missing) metas column reads as `{}`, an object as
   * itself, and any other text is a decoding error.
   */
  function DecodeMetas(row: Row): (r: Result<map<string, string>>)
    ensures Get(row, ColumnMetas) == "" && !(ColumnMetas in row && row[ColumnMetas].Object?) ==> r == Ok(map[])
    ensures ColumnMetas in row && row[ColumnMetas].Object? ==> r == Ok(row[ColumnMetas].entries)
    ensures r.Err? <==> Get(row, ColumnMetas) != ""
  {
    if ColumnMetas in row && row[ColumnMetas].Object? then Ok(row[ColumnMetas].entries)
    else if Get(row, ColumnMetas) == "" then Ok(map[])
    else Err("metas is not a JSON object")
  }

  /** `Meta(key)`: the entry for `key`, or "" when it is absent or the metas do not decode. */
  function MetaOf(row: Row, key: string): (r: string)
    ensures DecodeMetas(row).Err? ==> r == ""
    ensures DecodeMetas(row).Ok? && key !in DecodeMetas(row).value ==> r == ""
    ensures DecodeMetas(row).Ok? && key in DecodeMetas(row).value ==> r == DecodeMetas(row).value[key]
  {
    match DecodeMetas(row)
    case Ok(m) => if key in m then m[key] else ""
    case Err(_) => ""
  }

  /** `AddMetas` on a field map: the decoded metas merged with `add`, entries of `add` winning. */
  function WithMetas(row: Row, add: map<string, string>): (r: Result<Row>)
    ensures r.Err? <==> DecodeMetas(row).Err?
  {
    match DecodeMetas(row)
    case Ok(m) => Ok(row[ColumnMetas := Object(m + add)])
    case Err(e) => Err(e)
  }

  /** `MarshalToVersioning`: the field map without its timestamp columns. */
  function SnapshotContent(row: Row): Row {
    Restrict(row, row.Keys - TimestampColumns)
  }

  /**
   * `UnmarshalFromVersioning` on a field map: empty or undecodable content is
   * an error; otherwise every non-timestamp field of the content is restored
   * and updated_at becomes `now`.
   */
  function Restored(row: Row, content: SnapshotText, now: string): (r: Result<Row>)
    ensures r.Err? <==> !content.Json?
    ensures r.Ok? ==> ColumnUpdatedAt in r.value && r.value[ColumnUpdatedAt] == Text(now)
  {
    match content
    case Blank => Err("versioning content is empty")
    case NotJson => Err("versioning content is not a JSON object")
    case Json(f) => Ok((row + Restrict(f, f.Keys - TimestampColumns))[ColumnUpdatedAt := Text(now)])
  }

  /** The columns after `UnmarshalFromVersioning` that it marks dirty. */
  function RestoredKeys(content: SnapshotText): set<string> {
    match content
    case Json(f) => (f.Keys - TimestampColumns) + {ColumnUpdatedAt}
    case _ => {}
  }

  /** The field map `NewPost` builds, written in the order its setters run. */
  function NewPostRow(uid: Uid, now: string): Row {
    map[][ColumnId := Text(uid)][ColumnAuthorId := Text("")][ColumnCanonicalUrl := Text("")]
      [ColumnContent := Text("")][ColumnFeatured := Text(No)][ColumnImageUrl := Text("")]
      [ColumnMetaDescription := Text("")][ColumnMetaKeywords := Text("")][ColumnMetaRobots := Text("")]
      [ColumnStatus := Text(StatusDraft)][ColumnPublishedAt := Text(NullDateTime)]
      [ColumnSummary := Text("")][ColumnTitle := Text("")][ColumnPublishedAt := Text(now)]
      [ColumnCreatedAt := Text(now)][ColumnUpdatedAt := Text(now)][ColumnDeletedAt := Text(NullDateTime)]
      [ColumnSoftDeletedAt := Text(MaxDateTime)][ColumnMetas := Object(map[])]
  }

  class Post {
    /** The field map. */
    var data: Row
    /** The dirty fields: columns set since the post was loaded or last persisted. */
    var changed: set<string>

    /** `&Post{}`. */
    constructor Empty()
      ensures data == map[] && changed == {}
    {
      data, changed := map[], {};
    }

    /** `NewPostFromExistingData`: hydrated from a row, nothing dirty. */
    constructor FromExistingData(row: Row)
      ensures data == row && changed == {}
    {
      data, changed := row, {};
    }

    /** `key` now holds `v` and is dirty; nothing else changed. */
    twostate predicate Assigned(key: string, v: Value)
      reads this
    {
      && data == old(data)[key := v]
      && data.Keys == old(data).Keys + {key}
      && changed == old(changed) + {key}
    }

    function Get(key: string): string
      reads this
    {
      Fields.Get(data, key)
    }

    /** `DataObject.Set`. */
    method Set(key: string, v: Value)
      modifies this
      ensures Assigned(key, v)
    {
      data := data[key := v];
      changed := changed + {key};
    }

    /** `DataChanged`: the dirty part of the field map. */
    function DataChanged(): Row
      reads this
    {
      Restrict(data, changed)
    }

    method MarkAsNotDirty()
      modifies this
      ensures data == old(data) && changed == {}
    {
      changed := {};
    }

    function Id(): string reads this { Get(ColumnId) }
    function Status(): string reads this { Get(ColumnStatus) }
    function Title(): string reads this { Get(ColumnTitle) }
    function Content(): string reads this { Get(ColumnContent) }
    function Featured(): string reads this { Get(ColumnFeatured) }
    function ImageUrl(): string reads this { Get(ColumnImageUrl) }
    function CreatedAt(): string reads this { Get(ColumnCreatedAt) }
    function UpdatedAt(): string reads this { Get(ColumnUpdatedAt) }
    function PublishedAt(): string reads this { Get(ColumnPublishedAt) }
    function DeletedAt(): string reads this { Get(ColumnDeletedAt) }
    function SoftDeletedAt(): string reads this { Get(ColumnSoftDeletedAt) }

    method SetId(v: string) returns (p: Post)
      modifies this
      ensures p == this && Assigned(ColumnId, Text(v))
    {
      Set(ColumnId, Text(v));
      p := this;
    }

    method SetAuthorId(v: string) returns (p: Post)
      modifies this
      ensures p == this && Assigned(ColumnAuthorId, Text(v))
    {
      Set(ColumnAuthorId, Text(v));
      p := this;
    }

    method SetCanonicalUrl(v: string) returns (p: Post)
      modifies this
      ensures p == this && Assigned(ColumnCanonicalUrl, Text(v))
    {
      Set(ColumnCanonicalUrl, Text(v));
      p := this;
    }

    method SetContent(v: string) returns (p: Post)
      modifies this
      ensures p == this && Assigned(ColumnContent, Text(v))
    {
      Set(ColumnContent, Text(v));
      p := this;
    }

    method SetFeatured(v: string) returns (p: Post)
      modifies this
      ensures p == this && Assigned(ColumnFeatured, Text(v))
    {
      Set(ColumnFeatured, Text(v));
      p := this;
    }

    method SetImageUrl(v: string) returns (p: Post)
      modifies this
      ensures p == this && Assigned(ColumnImageUrl, Text(v))
    {
      Set(ColumnImageUrl, Text(v));
      p := this;
    }

    method SetMetaDescription(v: string) returns (p: Post)
      modifies this
      ensures p == this && Assigned(ColumnMetaDescription, Text(v))
    {
      Set(ColumnMetaDescription, Text(v));
      p := this;
    }

    method SetMetaKeywords(v: string) returns (p: Post)
      modifies this
      ensures p == this && Assigned(ColumnMetaKeywords, Text(v))
    {
      Set(ColumnMetaKeywords, Text(v));
      p := this;
    }

    method SetMetaRobots(v: string) returns (p: Post)
      modifies this
      ensures p == this && Assigned(ColumnMetaRobots, Text(v))
    {
      Set(ColumnMetaRobots, Text(v));
      p := this;
    }

    method SetStatus(v: string) returns (p: Post)
      modifies this
      ensures p == this && Assigned(ColumnStatus, Text(v))
    {
      Set(ColumnStatus, Text(v));
      p := this;
    }

    method SetPublishedAt(v: string) returns (p: Post)
      modifies this
      ensures p == this && Assigned(ColumnPublishedAt, Text(v))
    {
      Set(ColumnPublishedAt, Text(v));
      p := this;
    }

    method SetSummary(v: string) returns (p: Post)
      modifies this
      ensures p == this && Assigned(ColumnSummary, Text(v))
    {
      Set(ColumnSummary, Text(v));
      p := this;
    }

    method SetTitle(v: string) returns (p: Post)
      modifies this
      ensures p == this && Assigned(ColumnTitle, Text(v))
    {
      Set(ColumnTitle, Text(v));
      p := this;
    }

    method SetMemo(v: string) returns (p: Post)
      modifies this
      ensures p == this && Assigned(ColumnMemo, Text(v))
    {
      Set(ColumnMemo, Text(v));
      p := this;
    }

    method SetCreatedAt(v: string) returns (p: Post)
      modifies this
      ensures p == this && Assigned(ColumnCreatedAt, Text(v))
    {
      Set(ColumnCreatedAt, Text(v));
      p := this;
    }

    method SetUpdatedAt(v: string) returns (p: Post)
      modifies this
      ensures p == this && Assigned(ColumnUpdatedAt, Text(v))
    {
      Set(ColumnUpdatedAt, Text(v));
      p := this;
    }

    method SetDeletedAt(v: string) returns (p: Post)
      modifies this
      ensures p == this && Assigned(ColumnDeletedAt, Text(v))
    {
      Set(ColumnDeletedAt, Text(v));
      p := this;
    }

    method SetSoftDeletedAt(v: string) returns (p: Post)
      modifies this
      ensures p == this && Assigned(ColumnSoftDeletedAt, Text(v))
    {
      Set(ColumnSoftDeletedAt, Text(v));
      p := this;
    }

    function Metas(): Result<map<string, string>>
      reads this
    {
      DecodeMetas(data)
    }

    function Meta(key: string): string
      reads this
    {
      MetaOf(data, key)
    }

    /** `SetMetas`: encoding a string map cannot fail, so the error is always nil. */
    method SetMetas(metas: map<string, string>) returns (err: Outcome)
      modifies this
      ensures err == Pass && Assigned(ColumnMetas, Object(metas))
    {
      Set(ColumnMetas, Object(metas));
      err := Pass;
    }

    /** `AddMetas`: merge `metas` into the decoded metas, one entry at a time. */
    method AddMetas(metas: map<string, string>) returns (err: Outcome)
      modifies this
      ensures match WithMetas(old(data), metas)
        case Ok(d) => err == Pass && data == d && changed == old(changed) + {ColumnMetas}
        case Err(_) => err.Fail? && data == old(data) && changed == old(changed)
    {
      var current := Metas();
      if current.Err? {
        return Fail(current.error);
      }
      var merged := current.value;
      var todo := metas.Keys;
      while todo != {}
        invariant todo <= metas.Keys
        invariant data == old(data) && changed == old(changed)
        invariant merged == current.value + Restrict(metas, metas.Keys - todo)
        decreases todo
      {
        var k :| k in todo;
        merged := merged[k := metas[k]];
        todo := todo - {k};
      }
      assert Restrict(metas, metas.Keys) == metas;
      assert merged == current.value + metas;
      assert WithMetas(data, metas) == Ok(data[ColumnMetas := Object(merged)]);
      err := SetMetas(merged);
    }

    /** `SetMeta(key, value)`: `AddMetas` with the one entry. */
    method SetMeta(key: string, value: string) returns (err: Outcome)
      modifies this
      ensures match WithMetas(old(data), map[key := value])
        case Ok(d) => err == Pass && data == d && changed == old(changed) + {ColumnMetas}
        case Err(_) => err.Fail? && data == old(data) && changed == old(changed)
    {
      err := AddMetas(map[key := value]);
    }

    function ContentType(): string reads this { Meta(MetaContentType) }

    method SetContentType(contentType: string) returns (err: Outcome)
      modifies this
      ensures match WithMetas(old(data), map[MetaContentType := contentType])
        case Ok(d) => err == Pass && data == d && changed == old(changed) + {ColumnMetas}
        case Err(_) => err.Fail? && data == old(data) && changed == old(changed)
    {
      err := SetMeta(MetaContentType, contentType);
    }

    /** `Editor()`: kept in the metas under "editor". */
    function Editor(): string reads this { Meta(MetaEditor) }

    method SetEditor(editor: string) returns (err: Outcome)
      modifies this
      ensures match WithMetas(old(data), map[MetaEditor := editor])
        case Ok(d) => err == Pass && data == d && changed == old(changed) + {ColumnMetas}
        case Err(_) => err.Fail? && data == old(data) && changed == old(changed)
    {
      err := SetMeta(MetaEditor, editor);
    }

    predicate IsPublished() reads this { Status() == StatusPublished }
    predicate IsTrashed() reads this { Status() == StatusTrash }
    predicate IsUnpublished() reads this { !IsPublished() }
    predicate IsDraft() reads this { Status() == StatusDraft }

    function ImageUrlOrDefault(): (r: string)
      reads this
      ensures ImageUrl() == "" ==> r == BlogNoImageUrl
      ensures ImageUrl() != "" ==> r == ImageUrl()
      ensures r != ""
    {
      if ImageUrl() == "" then BlogNoImageUrl else ImageUrl()
    }

    /** `CreatedAtCarbon().ToDateTimeString()`: an empty created_at reads as the null datetime. */
    function CreatedAtCarbon(): string
      reads this
    {
      CarbonDateTime(CreatedAt())
    }

    function PublishedAtCarbon(): string reads this { CarbonDateTime(PublishedAt()) }
    function UpdatedAtCarbon(): string reads this { CarbonDateTime(UpdatedAt()) }
    function DeletedAtCarbon(): string reads this { CarbonDateTime(DeletedAt()) }

    function MarshalToVersioning(): SnapshotText
      reads this
    {
      Json(SnapshotContent(data))
    }

    method UnmarshalFromVersioning(content: SnapshotText, now: string) returns (err: Outcome)
      modifies this
      ensures Restored(old(data), content, now).Err? ==> err.Fail? && data == old(data) && changed == old(changed)
      ensures Restored(old(data), content, now).Ok? ==> err == Pass
      ensures Restored(old(data), content, now).Ok? ==> data == Restored(old(data), content, now).value
      ensures changed == old(changed) + RestoredKeys(content)
    {
      var r := Restored(data, content, now);
      if r.Err? {
        return Fail(r.error);
      }
      data := r.value;
      changed := changed + RestoredKeys(content);
      err := Pass;
    }
  }

  /** The row-mapping loop of `PostList`: one fresh, clean post per row, in order. */
  method PostsFromRows(rows: seq<Row>) returns (list: seq<Post>)
    ensures |list| == |rows|
    ensures forall i :: 0 <= i < |list| ==> fresh(list[i]) && list[i].data == rows[i] && list[i].changed == {}
  {
    list := [];
    var i := 0;
    while i < |rows|
      invariant 0 <= i <= |rows| && |list| == i
      invariant forall k :: 0 <= k < i ==> fresh(list[k]) && list[k].data == rows[k] && list[k].changed == {}
    {
      var model := new Post.FromExistingData(rows[i]);
      list := list + [model];
      i := i + 1;
    }
  }

  /** Text shaped "YYYY-MM-DD", a date with no time of day. */
  predicate IsDate(s: string) {
    && |s| == 10
    && (forall i :: 0 <= i < 10 && i != 4 && i != 7 ==> '0' <= s[i] <= '9')
    && s[4] == '-' && s[7] == '-'
  }

  /**
   * `carbon.Parse(s).ToDateTimeString()`: a datetime reads back as itself, a
   * date as its midnight, and text carbon cannot parse as "".
   */
  function ParsedDateTime(s: string): (r: string)
    ensures IsDateTime(s) ==> r == s
    ensures IsDate(s) ==> r == s + " 00:00:00"
    ensures !IsDateTime(s) && !IsDate(s) ==> r == ""
    ensures r == "" || IsDateTime(r)
  {
    if IsDateTime(s) then s
    else if IsDate(s) then s + " 00:00:00"
    else ""
  }

  /**
   * The `*AtCarbon` getters then `ToDateTimeString()`: an empty column is
   * parsed as the null datetime, any other text as itself.
   */
  function CarbonDateTime(s: string): (r: string)
    ensures s == "" ==> r == NullDateTime
    ensures s != "" ==> r == ParsedDateTime(s)
    ensures IsDateTime(s) ==> r == s
    ensures r == "" || IsDateTime(r)
  {
    ParsedDateTime(if s == "" then NullDateTime else s)
  }

  /** Reading a getter's answer back through carbon changes nothing, unless it was "". */
  lemma CarbonDateTimeStable(s: string)
    ensures CarbonDateTime(s) != "" ==> CarbonDateTime(CarbonDateTime(s)) == CarbonDateTime(s)
    ensures CarbonDateTime(s) == "" <==> s != "" && !IsDateTime(s) && !IsDate(s)
  {
    assert IsDateTime(NullDateTime);
  }

  /** `NewPost`: a fresh id and the default field values, every field dirty. */
  method NewPost(uid: Uid, now: string) returns (o: Post)
    ensures fresh(o)
    ensures o.data == NewPostRow(uid, now)
    ensures o.changed == o.data.Keys
  {
    o := new Post.Empty();
    assert o.data.Keys == {};
    var q := o.SetId(uid);
    q := q.SetAuthorId("");
    q := q.SetCanonicalUrl("");
    q := q.SetContent("");
    q := q.SetFeatured(No);
    q := q.SetImageUrl("");
    q := q.SetMetaDescription("");
    q := q.SetMetaKeywords("");
    q := q.SetMetaRobots("");
    q := q.SetStatus(StatusDraft);
    q := q.SetPublishedAt(NullDateTime);
    q := q.SetSummary("");
    q := q.SetTitle("");
    q := q.SetPublishedAt(now);
    q := q.SetCreatedAt(now);
    q := q.SetUpdatedAt(now);
    q := q.SetDeletedAt(NullDateTime);
    q := q.SetSoftDeletedAt(MaxDateTime);
    var _ := q.SetMetas(map[]);
  }

  /**
   * The defaults `NewPost` promises. published_at is first set to the null
   * sentinel and then to `now`; the later write wins, so for a clock reading
   * (`ClockTimeIsNoSentinel`) it is neither empty nor the sentinel.
   */
  lemma NewPostDefaults(uid: Uid, now: string)
    ensures Get(NewPostRow(uid, now), ColumnId) == uid != ""
    ensures Get(NewPostRow(uid, now), ColumnStatus) == StatusDraft
    ensures Get(NewPostRow(uid, now), ColumnFeatured) == No
    ensures DecodeMetas(NewPostRow(uid, now)) == Ok(map[])
    ensures Get(NewPostRow(uid, now), ColumnPublishedAt) == now
  {
  }

  /** The text fields `NewPost` leaves empty. */
  lemma NewPostBlankFields(uid: Uid, now: string)
    ensures Get(NewPostRow(uid, now), ColumnTitle) == ""
    ensures Get(NewPostRow(uid, now), ColumnContent) == ""
    ensures Get(NewPostRow(uid, now), ColumnSummary) == ""
    ensures Get(NewPostRow(uid, now), ColumnAuthorId) == ""
    ensures Get(NewPostRow(uid, now), ColumnCanonicalUrl) == ""
    ensures Get(NewPostRow(uid, now), ColumnImageUrl) == ""
    ensures Get(NewPostRow(uid, now), ColumnMetaDescription) == ""
    ensures Get(NewPostRow(uid, now), ColumnMetaKeywords) == ""
    ensures Get(NewPostRow(uid, now), ColumnMetaRobots) == ""
  {
  }

  /** The timestamps `NewPost` sets: now for creation and update, the two deletion sentinels. */
  lemma NewPostTimestamps(uid: Uid, now: string)
    ensures Get(NewPostRow(uid, now), ColumnCreatedAt) == now
    ensures Get(NewPostRow(uid, now), ColumnUpdatedAt) == now
    ensures Get(NewPostRow(uid, now), ColumnDeletedAt) == NullDateTime
    ensures Get(NewPostRow(uid, now), ColumnSoftDeletedAt) == MaxDateTime
  {
  }

  /** `AddMetas` merges: entries of `add` overwrite, every other entry and every other column is kept. */
  lemma AddMetasMerge(row: Row, add: map<string, string>)
    requires DecodeMetas(row).Ok?
    ensures WithMetas(row, add).Ok?
    ensures DecodeMetas(WithMetas(row, add).value) == Ok(DecodeMetas(row).value + add)
    ensures forall k :: MetaOf(WithMetas(row, add).value, k) == if k in add then add[k] else MetaOf(row, k)
    ensures forall c :: c != ColumnMetas ==> (c in WithMetas(row, add).value <==> c in row)
    ensures forall c :: c != ColumnMetas && c in row ==> WithMetas(row, add).value[c] == row[c]
  {
  }

  /**
   * A snapshot leaves out the timestamp columns, and restoring it recovers
   * every other field (metas included); the restored post keeps its own
   * created_at and soft_deleted_at, and updated_at becomes `now`.
   */
  lemma SnapshotRoundTrip(row: Row, target: Row, now: string)
    ensures forall c :: c in SnapshotContent(row) <==> c in row && c !in TimestampColumns
    ensures Restored(target, Json(SnapshotContent(row)), now).Ok?
    ensures var r := Restored(target, Json(SnapshotContent(row)), now).value;
      forall c :: c in row && c !in TimestampColumns ==> c in r && r[c] == row[c]
    ensures var r := Restored(target, Json(SnapshotContent(row)), now).value;
      forall c :: c in {ColumnCreatedAt, ColumnSoftDeletedAt} ==> (c in r <==> c in target) && (c in target ==> r[c] == target[c])
    ensures var r := Restored(target, Json(SnapshotContent(row)), now).value;
      ColumnUpdatedAt in r && r[ColumnUpdatedAt] == Text(now)
  {
  }

  /** The status helpers: trashed and draft posts are unpublished, and unpublished is exactly not published. */
  lemma StatusHelpers(p: Post)
    ensures p.IsUnpublished() <==> !p.IsPublished()
    ensures p.IsTrashed() <==> p.Status() == StatusTrash
    ensures p.IsTrashed() ==> p.IsUnpublished() && !p.IsDraft()
    ensures p.IsDraft() ==> p.IsUnpublished()
  {
  }
}
