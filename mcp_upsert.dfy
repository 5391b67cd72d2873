/**
 * What `post_upsert` does to a post's field map: each text argument that is
 * non-empty overwrites its column, `featured` must be "yes" or "no", and the
 * content type (kept, or plain text, when not given) and its editor go into
 * the metas.
 */
module McpUpsert {
  import opened Outcomes
  import opened Fields
  import opened Consts
  import opened Posts
  import opened McpArgs

  const FeaturedError := "featured field must be 'yes' or 'no', not boolean true/false"

  /** The text arguments set before the featured check, with their columns, in the order they are set. */
  const EarlyFieldArgs: seq<(string, string)> := [
    ("title", ColumnTitle), ("content", ColumnContent), ("summary", ColumnSummary), ("status", ColumnStatus),
    ("author_id", ColumnAuthorId), ("canonical_url", ColumnCanonicalUrl), ("image_url", ColumnImageUrl)]

  /** The text arguments set after the content type and editor. */
  const LateFieldArgs: seq<(string, string)> := [
    ("published_at", ColumnPublishedAt), ("meta_description", ColumnMetaDescription),
    ("meta_keywords", ColumnMetaKeywords), ("meta_robots", ColumnMetaRobots), ("memo", ColumnMemo)]

  /** `if v := argString(args, key); v != "" { set column to v }`. */
  function GivenText(row: Row, args: Args, key: string, column: string): Row {
    if ArgString(args, key) != "" then row[column := Text(ArgString(args, key))] else row
  }

  function ApplyGiven(row: Row, args: Args, pairs: seq<(string, string)>): Row
    decreases |pairs|
  {
    if pairs == [] then row else ApplyGiven(GivenText(row, args, pairs[0].0, pairs[0].1), args, pairs[1..])
  }

  /** The columns those arguments mark dirty. */
  function GivenColumns(args: Args, pairs: seq<(string, string)>): set<string>
    decreases |pairs|
  {
    if pairs == [] then {}
    else (if ArgString(args, pairs[0].0) != "" then {pairs[0].1} else {}) + GivenColumns(args, pairs[1..])
  }

  predicate DistinctColumns(pairs: seq<(string, string)>) {
    forall i, j :: 0 <= i < j < |pairs| ==> pairs[i].1 != pairs[j].1
  }

  lemma DistinctTail(pairs: seq<(string, string)>)
    requires pairs != [] && DistinctColumns(pairs)
    ensures DistinctColumns(pairs[1..])
    ensures forall k :: 0 <= k < |pairs| - 1 ==> pairs[1..][k].1 != pairs[0].1
  {
    forall i, j | 0 <= i < j < |pairs| - 1 ensures pairs[1..][i].1 != pairs[1..][j].1 {
      assert pairs[1..][i] == pairs[i + 1] && pairs[1..][j] == pairs[j + 1];
    }
  }

  /** A column no argument names keeps its value. */
  lemma {:induction false} ApplyGivenElsewhere(row: Row, args: Args, pairs: seq<(string, string)>, c: string)
    requires forall i :: 0 <= i < |pairs| ==> pairs[i].1 != c
    ensures c in ApplyGiven(row, args, pairs) <==> c in row
    ensures c in row ==> ApplyGiven(row, args, pairs)[c] == row[c]
    decreases |pairs|
  {
    if pairs != [] {
      var rest := pairs[1..];
      assert forall i :: 0 <= i < |rest| ==> rest[i] == pairs[i + 1];
      ApplyGivenElsewhere(GivenText(row, args, pairs[0].0, pairs[0].1), args, rest, c);
    }
  }

  /** A named column holds its argument when that is non-empty, and keeps its value otherwise. */
  lemma {:induction false} ApplyGivenAt(row: Row, args: Args, pairs: seq<(string, string)>, i: int)
    requires DistinctColumns(pairs) && 0 <= i < |pairs|
    ensures Get(ApplyGiven(row, args, pairs), pairs[i].1) ==
      if ArgString(args, pairs[i].0) != "" then ArgString(args, pairs[i].0) else Get(row, pairs[i].1)
    decreases |pairs|
  {
    var next := GivenText(row, args, pairs[0].0, pairs[0].1);
    var rest := pairs[1..];
    DistinctTail(pairs);
    if i == 0 {
      ApplyGivenElsewhere(next, args, rest, pairs[0].1);
    } else {
      assert pairs[i] == rest[i - 1];
      ApplyGivenAt(next, args, rest, i - 1);
    }
  }

  /** Exactly the columns with a non-empty argument are dirtied. */
  lemma {:induction false} GivenColumnsMembers(args: Args, pairs: seq<(string, string)>, c: string)
    ensures c in GivenColumns(args, pairs) <==> exists i :: 0 <= i < |pairs| && pairs[i].1 == c && ArgString(args, pairs[i].0) != ""
    decreases |pairs|
  {
    if pairs != [] {
      var rest := pairs[1..];
      GivenColumnsMembers(args, rest, c);
      if exists i :: 0 <= i < |pairs| && pairs[i].1 == c && ArgString(args, pairs[i].0) != "" {
        var i :| 0 <= i < |pairs| && pairs[i].1 == c && ArgString(args, pairs[i].0) != "";
        if i > 0 {
          assert rest[i - 1] == pairs[i];
        }
      }
      if exists i :: 0 <= i < |rest| && rest[i].1 == c && ArgString(args, rest[i].0) != "" {
        var i :| 0 <= i < |rest| && rest[i].1 == c && ArgString(args, rest[i].0) != "";
        assert pairs[i + 1] == rest[i];
      }
    }
  }

  /** The column one `if v != "" { set }` step dirties. */
  function GivenColumn(args: Args, key: string, column: string): set<string> {
    if ArgString(args, key) != "" then {column} else {}
  }

  lemma ApplyGivenCons(row: Row, args: Args, key: string, column: string, rest: seq<(string, string)>)
    ensures ApplyGiven(row, args, [(key, column)] + rest) == ApplyGiven(GivenText(row, args, key, column), args, rest)
    ensures GivenColumns(args, [(key, column)] + rest) == GivenColumn(args, key, column) + GivenColumns(args, rest)
  {
    assert ([(key, column)] + rest)[1..] == rest;
  }

  /** The early argument list applied in order: title, content, summary, status, author, canonical URL, image URL. */
  lemma EarlyFieldsUnfold(row: Row, args: Args)
    ensures ApplyGiven(row, args, EarlyFieldArgs) ==
      GivenText(GivenText(GivenText(GivenText(GivenText(GivenText(GivenText(row,
        args, "title", ColumnTitle), args, "content", ColumnContent), args, "summary", ColumnSummary),
        args, "status", ColumnStatus), args, "author_id", ColumnAuthorId), args, "canonical_url", ColumnCanonicalUrl),
        args, "image_url", ColumnImageUrl)
    ensures GivenColumns(args, EarlyFieldArgs) ==
      GivenColumn(args, "title", ColumnTitle) + GivenColumn(args, "content", ColumnContent)
      + GivenColumn(args, "summary", ColumnSummary) + GivenColumn(args, "status", ColumnStatus)
      + GivenColumn(args, "author_id", ColumnAuthorId) + GivenColumn(args, "canonical_url", ColumnCanonicalUrl)
      + GivenColumn(args, "image_url", ColumnImageUrl)
  {
    var r1 := GivenText(row, args, "title", ColumnTitle);
    var r2 := GivenText(r1, args, "content", ColumnContent);
    var r3 := GivenText(r2, args, "summary", ColumnSummary);
    var r4 := GivenText(r3, args, "status", ColumnStatus);
    var r5 := GivenText(r4, args, "author_id", ColumnAuthorId);
    var r6 := GivenText(r5, args, "canonical_url", ColumnCanonicalUrl);
    var t6: seq<(string, string)> := [("image_url", ColumnImageUrl)];
    var t5 := [("canonical_url", ColumnCanonicalUrl)] + t6;
    var t4 := [("author_id", ColumnAuthorId)] + t5;
    var t3 := [("status", ColumnStatus)] + t4;
    var t2 := [("summary", ColumnSummary)] + t3;
    var t1 := [("content", ColumnContent)] + t2;
    assert EarlyFieldArgs == [("title", ColumnTitle)] + t1;
    assert t6 == [("image_url", ColumnImageUrl)] + [];
    ApplyGivenCons(row, args, "title", ColumnTitle, t1);
    ApplyGivenCons(r1, args, "content", ColumnContent, t2);
    ApplyGivenCons(r2, args, "summary", ColumnSummary, t3);
    ApplyGivenCons(r3, args, "status", ColumnStatus, t4);
    ApplyGivenCons(r4, args, "author_id", ColumnAuthorId, t5);
    ApplyGivenCons(r5, args, "canonical_url", ColumnCanonicalUrl, t6);
    ApplyGivenCons(r6, args, "image_url", ColumnImageUrl, []);
  }

  /** The late argument list applied in order: published date, meta description, keywords, robots, memo. */
  lemma LateFieldsUnfold(row: Row, args: Args)
    ensures ApplyGiven(row, args, LateFieldArgs) ==
      GivenText(GivenText(GivenText(GivenText(GivenText(row,
        args, "published_at", ColumnPublishedAt), args, "meta_description", ColumnMetaDescription),
        args, "meta_keywords", ColumnMetaKeywords), args, "meta_robots", ColumnMetaRobots), args, "memo", ColumnMemo)
    ensures GivenColumns(args, LateFieldArgs) ==
      GivenColumn(args, "published_at", ColumnPublishedAt) + GivenColumn(args, "meta_description", ColumnMetaDescription)
      + GivenColumn(args, "meta_keywords", ColumnMetaKeywords) + GivenColumn(args, "meta_robots", ColumnMetaRobots)
      + GivenColumn(args, "memo", ColumnMemo)
  {
    var r1 := GivenText(row, args, "published_at", ColumnPublishedAt);
    var r2 := GivenText(r1, args, "meta_description", ColumnMetaDescription);
    var r3 := GivenText(r2, args, "meta_keywords", ColumnMetaKeywords);
    var r4 := GivenText(r3, args, "meta_robots", ColumnMetaRobots);
    var t4: seq<(string, string)> := [("memo", ColumnMemo)];
    var t3 := [("meta_robots", ColumnMetaRobots)] + t4;
    var t2 := [("meta_keywords", ColumnMetaKeywords)] + t3;
    var t1 := [("meta_description", ColumnMetaDescription)] + t2;
    assert LateFieldArgs == [("published_at", ColumnPublishedAt)] + t1;
    assert t4 == [("memo", ColumnMemo)] + [];
    ApplyGivenCons(row, args, "published_at", ColumnPublishedAt, t1);
    ApplyGivenCons(r1, args, "meta_description", ColumnMetaDescription, t2);
    ApplyGivenCons(r2, args, "meta_keywords", ColumnMetaKeywords, t3);
    ApplyGivenCons(r3, args, "meta_robots", ColumnMetaRobots, t4);
    ApplyGivenCons(r4, args, "memo", ColumnMemo, []);
  }

  /** `featured` is absent, empty, "yes" or "no". */
  predicate FeaturedValid(args: Args) {
    ArgString(args, "featured") == "" || ArgString(args, "featured") == Yes || ArgString(args, "featured") == No
  }

  /** The content type `post_upsert` stores: the argument, else the post's own, else plain text. */
  function FinalContentType(row: Row, args: Args): (ct: string)
    ensures ct != ""
    ensures ArgString(args, "content_type") != "" ==> ct == ArgString(args, "content_type")
    ensures ArgString(args, "content_type") == "" && MetaOf(row, MetaContentType) != "" ==> ct == MetaOf(row, MetaContentType)
    ensures ArgString(args, "content_type") == "" && MetaOf(row, MetaContentType) == "" ==> ct == ContentTypePlainText
  {
    var given := ArgString(args, "content_type");
    if given != "" then given
    else if MetaOf(row, MetaContentType) == "" then ContentTypePlainText
    else MetaOf(row, MetaContentType)
  }

  /** `SetMeta` whose error is ignored: the merged metas, or the row unchanged when its metas do not decode. */
  function WithMeta(row: Row, key: string, value: string): Row {
    match WithMetas(row, map[key := value])
    case Ok(d) => d
    case Err(_) => row
  }

  /** The field map after the setters, before the featured check. */
  function EarlyRow(row: Row, args: Args): Row {
    GivenText(ApplyGiven(row, args, EarlyFieldArgs), args, "featured", ColumnFeatured)
  }

  /** The field map `post_upsert` saves for a post whose fields were `row`, or the featured error. */
  function UpsertRow(row: Row, args: Args): Result<Row> {
    if !FeaturedValid(args) then Err(FeaturedError)
    else
      var r1 := EarlyRow(row, args);
      var ct := FinalContentType(r1, args);
      Ok(ApplyGiven(WithMeta(WithMeta(r1, MetaContentType, ct), MetaEditor, ContentTypeToEditor(ct)), args, LateFieldArgs))
  }

  /** The columns `post_upsert` marks dirty: the given text fields and, when the metas decode, the metas. */
  function UpsertChanged(row: Row, args: Args): set<string> {
    GivenColumns(args, EarlyFieldArgs)
    + (if ArgString(args, "featured") != "" then {ColumnFeatured} else {})
    + (if DecodeMetas(row).Ok? then {ColumnMetas} else {})
    + GivenColumns(args, LateFieldArgs)
  }

  /** The dirty set step by step, with the metas decoded after the early fields are set. */
  lemma UpsertChangedSteps(row: Row, args: Args)
    ensures UpsertChanged(row, args) ==
      GivenColumns(args, EarlyFieldArgs) + GivenColumn(args, "featured", ColumnFeatured)
      + (if DecodeMetas(EarlyRow(row, args)).Ok? then {ColumnMetas} else {})
      + GivenColumns(args, LateFieldArgs)
  {
    EarlyRowKeepsMetas(row, args);
  }

  /** The metas column is the only one the content type and editor touch. */
  lemma WithMetaElsewhere(row: Row, key: string, value: string, c: string)
    requires c != ColumnMetas
    ensures c in WithMeta(row, key, value) <==> c in row
    ensures c in row ==> WithMeta(row, key, value)[c] == row[c]
  {
  }

  /** The early setters and the featured setter leave the metas column alone. */
  lemma EarlyRowKeepsMetas(row: Row, args: Args)
    ensures ColumnMetas in EarlyRow(row, args) <==> ColumnMetas in row
    ensures ColumnMetas in row ==> EarlyRow(row, args)[ColumnMetas] == row[ColumnMetas]
    ensures DecodeMetas(EarlyRow(row, args)) == DecodeMetas(row)
    ensures MetaOf(EarlyRow(row, args), MetaContentType) == MetaOf(row, MetaContentType)
  {
    ApplyGivenElsewhere(row, args, EarlyFieldArgs, ColumnMetas);
  }

  /** Upsert fails exactly on a `featured` other than "yes" and "no", with that error. */
  lemma UpsertFeaturedRule(row: Row, args: Args)
    ensures UpsertRow(row, args).Err? <==> !FeaturedValid(args)
    ensures UpsertRow(row, args).Err? ==> UpsertRow(row, args).error == FeaturedError
  {
  }

  /** The argument lists name distinct columns, none of them featured or metas. */
  lemma FieldListsDistinct()
    ensures DistinctColumns(EarlyFieldArgs) && DistinctColumns(LateFieldArgs)
    ensures forall i, j :: 0 <= i < |EarlyFieldArgs| && 0 <= j < |LateFieldArgs| ==> EarlyFieldArgs[i].1 != LateFieldArgs[j].1
    ensures forall i :: 0 <= i < |EarlyFieldArgs| ==> EarlyFieldArgs[i].1 != ColumnFeatured && EarlyFieldArgs[i].1 != ColumnMetas
    ensures forall j :: 0 <= j < |LateFieldArgs| ==> LateFieldArgs[j].1 != ColumnFeatured && LateFieldArgs[j].1 != ColumnMetas
  {
  }

  /** The stages after the early setters leave column `c` alone when no later argument and not the metas name it. */
  lemma AfterEarlyKeeps(row: Row, args: Args, c: string)
    requires FeaturedValid(args) && c != ColumnMetas
    requires forall j :: 0 <= j < |LateFieldArgs| ==> LateFieldArgs[j].1 != c
    ensures Get(UpsertRow(row, args).value, c) == Get(EarlyRow(row, args), c)
  {
    var r1 := EarlyRow(row, args);
    var ct := FinalContentType(r1, args);
    var r2 := WithMeta(r1, MetaContentType, ct);
    var r3 := WithMeta(r2, MetaEditor, ContentTypeToEditor(ct));
    WithMetaElsewhere(r1, MetaContentType, ct, c);
    WithMetaElsewhere(r2, MetaEditor, ContentTypeToEditor(ct), c);
    ApplyGivenElsewhere(r3, args, LateFieldArgs, c);
  }

  lemma UpsertEarlyField(row: Row, args: Args, i: int)
    requires FeaturedValid(args) && 0 <= i < |EarlyFieldArgs|
    ensures Get(UpsertRow(row, args).value, EarlyFieldArgs[i].1) ==
      if ArgString(args, EarlyFieldArgs[i].0) != "" then ArgString(args, EarlyFieldArgs[i].0) else Get(row, EarlyFieldArgs[i].1)
  {
    FieldListsDistinct();
    ApplyGivenAt(row, args, EarlyFieldArgs, i);
    AfterEarlyKeeps(row, args, EarlyFieldArgs[i].1);
  }

  lemma UpsertLateField(row: Row, args: Args, j: int)
    requires FeaturedValid(args) && 0 <= j < |LateFieldArgs|
    ensures Get(UpsertRow(row, args).value, LateFieldArgs[j].1) ==
      if ArgString(args, LateFieldArgs[j].0) != "" then ArgString(args, LateFieldArgs[j].0) else Get(row, LateFieldArgs[j].1)
  {
    FieldListsDistinct();
    var c := LateFieldArgs[j].1;
    var r1 := EarlyRow(row, args);
    var ct := FinalContentType(r1, args);
    var r2 := WithMeta(r1, MetaContentType, ct);
    var r3 := WithMeta(r2, MetaEditor, ContentTypeToEditor(ct));
    ApplyGivenAt(r3, args, LateFieldArgs, j);
    WithMetaElsewhere(r1, MetaContentType, ct, c);
    WithMetaElsewhere(r2, MetaEditor, ContentTypeToEditor(ct), c);
    ApplyGivenElsewhere(row, args, EarlyFieldArgs, c);
  }

  /**
   * Each text field, featured included, takes its argument when that is
   * non-empty and keeps its old value otherwise.
   */
  lemma UpsertTextFields(row: Row, args: Args)
    requires FeaturedValid(args)
    ensures forall i :: 0 <= i < |EarlyFieldArgs| ==>
      Get(UpsertRow(row, args).value, EarlyFieldArgs[i].1) ==
        if ArgString(args, EarlyFieldArgs[i].0) != "" then ArgString(args, EarlyFieldArgs[i].0) else Get(row, EarlyFieldArgs[i].1)
    ensures forall j :: 0 <= j < |LateFieldArgs| ==>
      Get(UpsertRow(row, args).value, LateFieldArgs[j].1) ==
        if ArgString(args, LateFieldArgs[j].0) != "" then ArgString(args, LateFieldArgs[j].0) else Get(row, LateFieldArgs[j].1)
    ensures Get(UpsertRow(row, args).value, ColumnFeatured) ==
      if ArgString(args, "featured") != "" then ArgString(args, "featured") else Get(row, ColumnFeatured)
  {
    forall i | 0 <= i < |EarlyFieldArgs|
      ensures Get(UpsertRow(row, args).value, EarlyFieldArgs[i].1) ==
        if ArgString(args, EarlyFieldArgs[i].0) != "" then ArgString(args, EarlyFieldArgs[i].0) else Get(row, EarlyFieldArgs[i].1)
    {
      UpsertEarlyField(row, args, i);
    }
    forall j | 0 <= j < |LateFieldArgs|
      ensures Get(UpsertRow(row, args).value, LateFieldArgs[j].1) ==
        if ArgString(args, LateFieldArgs[j].0) != "" then ArgString(args, LateFieldArgs[j].0) else Get(row, LateFieldArgs[j].1)
    {
      UpsertLateField(row, args, j);
    }
    FieldListsDistinct();
    ApplyGivenElsewhere(row, args, EarlyFieldArgs, ColumnFeatured);
    AfterEarlyKeeps(row, args, ColumnFeatured);
  }

  /** No argument names the id: upsert keeps it. */
  lemma UpsertKeepsId(row: Row, args: Args)
    requires FeaturedValid(args)
    ensures Get(UpsertRow(row, args).value, ColumnId) == Get(row, ColumnId)
  {
    FieldListsDistinct();
    AfterEarlyKeeps(row, args, ColumnId);
    ApplyGivenElsewhere(row, args, EarlyFieldArgs, ColumnId);
  }

  /**
   * With decodable metas the stored content type is the argument, else the
   * post's own, else plain text; the editor is always the one of that
   * content type; every other meta entry is kept.
   */
  lemma UpsertMetasRule(row: Row, args: Args)
    requires FeaturedValid(args) && DecodeMetas(row).Ok?
    ensures MetaOf(UpsertRow(row, args).value, MetaContentType) == FinalContentType(row, args)
    ensures MetaOf(UpsertRow(row, args).value, MetaEditor) == ContentTypeToEditor(FinalContentType(row, args))
    ensures forall k :: k != MetaContentType && k != MetaEditor ==> MetaOf(UpsertRow(row, args).value, k) == MetaOf(row, k)
  {
    var r1 := EarlyRow(row, args);
    EarlyRowKeepsMetas(row, args);
    var ct := FinalContentType(r1, args);
    assert ct == FinalContentType(row, args);
    var r2 := WithMeta(r1, MetaContentType, ct);
    WithMetaDecoded(r1, MetaContentType, ct);
    var r3 := WithMeta(r2, MetaEditor, ContentTypeToEditor(ct));
    WithMetaDecoded(r2, MetaEditor, ContentTypeToEditor(ct));
    ApplyGivenElsewhere(r3, args, LateFieldArgs, ColumnMetas);
    assert UpsertRow(row, args).value[ColumnMetas] == r3[ColumnMetas];
    assert DecodeMetas(UpsertRow(row, args).value) == DecodeMetas(r3);
  }

  /** `SetMeta` on decodable metas sets that one entry and keeps every other. */
  lemma WithMetaDecoded(row: Row, key: string, value: string)
    requires DecodeMetas(row).Ok?
    ensures DecodeMetas(WithMeta(row, key, value)) == Ok(DecodeMetas(row).value[key := value])
    ensures forall k :: MetaOf(WithMeta(row, key, value), k) == if k == key then value else MetaOf(row, k)
  {
    assert DecodeMetas(row).value + map[key := value] == DecodeMetas(row).value[key := value];
  }

  /** With metas that do not decode, the content type and editor are silently not stored. */
  lemma UpsertUndecodableMetas(row: Row, args: Args)
    requires FeaturedValid(args) && DecodeMetas(row).Err?
    ensures ColumnMetas in UpsertRow(row, args).value <==> ColumnMetas in row
    ensures ColumnMetas in row ==> UpsertRow(row, args).value[ColumnMetas] == row[ColumnMetas]
  {
    var r1 := EarlyRow(row, args);
    EarlyRowKeepsMetas(row, args);
    var ct := FinalContentType(r1, args);
    var r3 := WithMeta(WithMeta(r1, MetaContentType, ct), MetaEditor, ContentTypeToEditor(ct));
    ApplyGivenElsewhere(r3, args, LateFieldArgs, ColumnMetas);
  }
}
