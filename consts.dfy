/**
 * The package's named strings: flag values, statuses, editors, content types,
 * column names and the datetime sentinels of the `sb` helper package.
 */
module Consts {
  import opened Strings

  const No := "no"
  const Yes := "yes"

  const StatusDraft := "draft"
  const StatusPublished := "published"
  const StatusUnpublished := "unpublished"
  const StatusDeleted := "deleted"
  const StatusTrash := "trash"

  const EditorBlockArea := "BlockArea"
  const EditorMarkdown := "Markdown"
  const EditorHtmlArea := "HtmlArea"
  const EditorTextArea := "TextArea"

  const ContentTypeMarkdown := "markdown"
  const ContentTypeHtml := "html"
  const ContentTypePlainText := "plain_text"

  const ColumnId := "id"
  const ColumnStatus := "status"
  const ColumnTitle := "title"
  const ColumnContent := "content"
  const ColumnSummary := "summary"
  const ColumnImageUrl := "image_url"
  const ColumnFeatured := "featured"
  const ColumnAuthorId := "author_id"
  const ColumnCanonicalUrl := "canonical_url"
  const ColumnMetaKeywords := "meta_keywords"
  const ColumnMetaDescription := "meta_description"
  const ColumnMetaRobots := "meta_robots"
  const ColumnMetas := "metas"
  const ColumnMemo := "memo"
  const ColumnPublishedAt := "published_at"
  const ColumnCreatedAt := "created_at"
  const ColumnUpdatedAt := "updated_at"
  const ColumnDeletedAt := "deleted_at"
  const ColumnSoftDeletedAt := "soft_deleted_at"

  /** Meta keys the current revision keeps inside the metas object. */
  const MetaContentType := "content_type"
  const MetaEditor := "editor"

  /** Entity type tag of post snapshots. */
  const VersioningTypePost := "post"

  /** `sb.NULL_DATETIME`: "no date" in the legacy deleted_at column. */
  const NullDateTime := "0002-01-01 00:00:00"
  /** `sb.MAX_DATETIME`: "not deleted" in soft_deleted_at. */
  const MaxDateTime := "9999-12-31 23:59:59"

  /** `BlogNoImageUrl()`: the fallback image of a post without one. */
  const BlogNoImageUrl := "https://picsum.photos/id/20/200/300"

  /** Text shaped "YYYY-MM-DD HH:MM:SS", the form every timestamp column holds. */
  predicate IsDateTime(s: string) {
    && |s| == 19
    && (forall i :: 0 <= i < 19 && i != 4 && i != 7 && i != 10 && i != 13 && i != 16 ==> '0' <= s[i] <= '9')
    && s[4] == '-' && s[7] == '-' && s[10] == ' ' && s[13] == ':' && s[16] == ':'
  }

  /** An instant the clock can report: a datetime strictly between the two sentinels. */
  predicate IsClockTime(now: string) {
    IsDateTime(now) && Less(NullDateTime, now) && Less(now, MaxDateTime)
  }

  /** A clock reading is a non-empty datetime and neither sentinel. */
  lemma ClockTimeIsNoSentinel(now: string)
    requires IsClockTime(now)
    ensures IsDateTime(now) && now != "" && now != NullDateTime && now != MaxDateTime
  {
    LessIrreflexive(NullDateTime);
    LessIrreflexive(MaxDateTime);
  }
}
