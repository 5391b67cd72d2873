# blogstore: a verified model of the post store

This project models the core of `blogstore`, a Go library that keeps blog
posts in one SQL table. It also models the MCP (Model Context Protocol) tool
layer that exposes those posts to a client. The model covers:

- **Query and evaluation.** The post query builder (`postQuery`) becomes an
  abstract query: a list of AND-ed predicates, an optional limit, an optional
  offset and an optional order. The model evaluates it over an in-memory
  table, a sequence of rows in insertion order; a row maps column names to
  cells. The instant "now" is a parameter. Datetimes are
  `YYYY-MM-DD HH:MM:SS` strings and compare as strings.
- **Current store.** The store (`store_implementation.go`) is a class over
  that table. Besides the table it keeps the list of version-tracking steps
  it has run. Each post is a class with a field map and a set of dirty
  columns.
- **Legacy store.** An older revision of the store (`Store.go`) is a
  separate module. Their differences are stated as lemmas: visibility by
  `deleted_at`, LIKE where the current store uses ILIKE (read as standard
  SQL reads it, case-sensitive), ORDER BY kept on counts, and no versioning.
- **Post entity.** The entity (`Post.go`) covers the setters, `NewPost`,
  the metas map, the status helpers and the snapshot content that versioning
  stores.
- **Versioning and construction.** The versioning facade
  (`store_versioning.go`) and the construction of a store (`new.go`): their
  nil guards and option checks.
- **MCP tools.** The tool layer (`mcp/mcp.go`): argument coercion, method and
  tool routing, list/get/delete/versions, and the merge rules of
  `post_upsert`.

Every answer of the database is a parameter of the operation that asks for
it: `Pass` or `Fail(error)`, or the count text for `PostCount`. So are the
answers of the snapshot library, the fresh id that `uid.HumanUid` would
give, and the clock reading.

The shown files mix two revisions of the code, and the model follows the code:

- `Post.go` still writes `deleted_at` with the null datetime. The current
  store and its tests use `soft_deleted_at`, with the far-future datetime
  meaning "not deleted".
- `NewPost` in the model therefore sets both columns.
- Queries add the `Search` option, which `PostQueryOptions.go` does not declare.
- The post statuses and content types that `consts.go` lacks are distinct
  string constants.

## Model

| member | source | states |
|---|---|---|
| Decimal.FormatParseRoundTrip | store_implementation.go:130-139 | Parsing the decimal text of any 64-bit integer gives that integer back, so a count the database writes out is read back unchanged |
| Decimal.ParseInt64Digits | mcp/mcp.go:113-118 | A digit string parses to its value exactly when that value fits in 64 bits, and is rejected otherwise |
| Decimal.ParseInt64RejectsNonDigit | mcp/mcp.go:113-117 | Any text with a non-digit outside the sign position (a fraction, an exponent, white space) is no integer |
| Decimal.ParseInt64NeedsDigit | mcp/mcp.go:113-117 | Any text without a digit, the empty text and a lone sign included, is no integer |
| Strings.TrimSpaceBlank | mcp/mcp.go:541-544 | Trimming white space leaves the empty string exactly when the text is all white space |
| Like.MatchContains | Store.go:320-328 | LIKE `%s%` with a wildcard-free `s` holds exactly when the text contains `s` |
| Like.MatchExact | Store.go:325 | LIKE with a wildcard-free pattern is string equality |
| Like.IMatchContains | store_implementation.go:356-358 | ILIKE `%s%` holds exactly when the lower-cased text contains the lower-cased `s` |
| Like.PercentSearchMatchesEverything | store_implementation.go:352-363 | A search for `%` gives the pattern `%%%`, which every text matches |
| Sorting.SortRows | store_implementation.go:391-397 | Ordering rows by a column yields a permutation of them, sorted by that column in the requested direction |
| Sorting.Insert | store_implementation.go:391-397 | Inserting a row into sorted rows keeps them sorted and adds exactly that row |
| Tables.InsertKeepsUnique | store_implementation.go:72-88 | An insert the primary key accepts keeps every id unique |
| Tables.UpdateRows | store_implementation.go:307-322 | An update by id merges the changes into the rows with that id and leaves every other row as it was |
| Tables.UpdateKeepsIds | store_implementation.go:299-305 | An update that does not write `id` keeps every row's id, and therefore keeps ids unique |
| Tables.UpdateChangesOneRow | store_implementation.go:307-322 | With unique ids, an update by id changes exactly the one row with that id |
| Tables.DeleteRows | store_implementation.go:156-178 | A delete by id leaves exactly the rows without that id |
| Tables.DeleteKeepsUnique | store_implementation.go:156-178 | Deleting rows keeps ids unique |
| Posts.DecodeMetas | Post.go:278-291 | An empty metas column reads as the empty map; a decoded object reads as itself; a text that does not parse is an error |
| Posts.MetaOf | Post.go:268-276 | `Meta(k)` is the stored value, or "" when `k` is absent or the metas do not parse |
| Posts.WithMetas | Post.go:66-78 | Merging metas fails exactly when the stored metas do not parse |
| Posts.Restored | post_versioning_test.go:123-133 | Restoring from empty or non-JSON content is an error; a successful restore stamps `updated_at` with now |
| Posts.Post.Empty | Post.go:18 | A new post has no fields and nothing dirty |
| Posts.Post.FromExistingData | Post.go:41-45 | Hydrating a post takes the field map as given, with nothing dirty |
| Posts.Post.Set | Post.go:84-87 | Setting column `k` changes only `data[k]` and adds only `k` to the dirty set |
| Posts.Post.MarkAsNotDirty | store_implementation.go:90-91 | Clearing the dirty set keeps every field |
| Posts.Post.SetId | Post.go:243-246 | Sets only `id`, marks it dirty and returns the same post |
| Posts.Post.SetAuthorId | Post.go:84-87 | Sets only `author_id`, marks it dirty and returns the same post |
| Posts.Post.SetCanonicalUrl | Post.go:223-226 | Sets only `canonical_url`, marks it dirty and returns the same post |
| Posts.Post.SetContent | Post.go:233-236 | Sets only `content`, marks it dirty and returns the same post |
| Posts.Post.SetFeatured | Post.go:238-241 | Sets only `featured`, marks it dirty and returns the same post |
| Posts.Post.SetImageUrl | Post.go:248-251 | Sets only `image_url`, marks it dirty and returns the same post |
| Posts.Post.SetMetaDescription | Post.go:253-256 | Sets only `meta_description`, marks it dirty and returns the same post |
| Posts.Post.SetMetaKeywords | Post.go:258-261 | Sets only `meta_keywords`, marks it dirty and returns the same post |
| Posts.Post.SetMetaRobots | Post.go:263-266 | Sets only `meta_robots`, marks it dirty and returns the same post |
| Posts.Post.SetStatus | Post.go:307-310 | Sets only `status`, marks it dirty and returns the same post |
| Posts.Post.SetPublishedAt | Post.go:302-305 | Sets only `published_at`, marks it dirty and returns the same post |
| Posts.Post.SetSummary | Post.go:312-315 | Sets only `summary`, marks it dirty and returns the same post |
| Posts.Post.SetTitle | Post.go:317-320 | Sets only `title`, marks it dirty and returns the same post |
| Posts.Post.SetMemo | mcp/mcp.go:722 | Sets only `memo`, marks it dirty and returns the same post |
| Posts.Post.SetCreatedAt | Post.go:228-231 | Sets only `created_at`, marks it dirty and returns the same post |
| Posts.Post.SetUpdatedAt | Post.go:218-221 | Sets only `updated_at`, marks it dirty and returns the same post |
| Posts.Post.SetDeletedAt | Post.go:125-128 | Sets only `deleted_at`, marks it dirty and returns the same post |
| Posts.Post.SetSoftDeletedAt | store_implementation.go:275 | Sets only `soft_deleted_at`, marks it dirty and returns the same post |
| Posts.Post.SetMetas | Post.go:293-300 | Stores the given map as the metas, marks `metas` dirty and reports no error |
| Posts.Post.AddMetas | Post.go:66-78 | With parseable metas: stores their merge with the argument and marks `metas` dirty. Otherwise: returns an error and changes nothing |
| Posts.Post.SetMeta | post_test.go:101-110 | Stores one entry in the metas, keeping the others, or fails without change when the metas do not parse |
| Posts.Post.SetContentType | mcp/mcp.go:703 | Stores the content type under the `content_type` meta key, keeping the other metas |
| Posts.Post.SetEditor | mcp/mcp.go:707 | Stores the editor under the `editor` meta key, keeping the other metas |
| Posts.Post.ImageUrlOrDefault | Post.go:158-160 | The fallback image URL exactly when the image URL is empty, the image URL otherwise; never empty |
| Posts.Post.UnmarshalFromVersioning | post_versioning_test.go:135-205 | Invalid content fails and changes nothing; valid content restores the snapshot fields and stamps `updated_at` with now |
| Posts.PostsFromRows | store_implementation.go:260-265 | The row-mapping loop of both stores' `PostList`: one fresh post per row, holding that row with nothing dirty, in the rows' order |
| Posts.ParsedDateTime | Post.go:97-103 | Carbon's parse then `ToDateTimeString`: a datetime reads back unchanged, a date as its midnight, anything else as ""; every non-empty answer is a datetime |
| Posts.CarbonDateTime | Post.go:97-103 | The `*AtCarbon` getters then `ToDateTimeString`: an empty column gives the null datetime, any other text its parse; a datetime column reads back unchanged |
| Posts.CarbonDateTimeStable | Post.go:97-103 | A getter's non-empty answer reads back as itself, and the answer is "" exactly for non-empty text that is neither a datetime nor a date |
| Posts.NewPost | Post.go:17-39 | A new post holds the default row, and every one of its columns is dirty |
| Posts.NewPostDefaults | post_test.go:17-62 | A new post has a non-empty id, status draft, featured "no", empty metas and `published_at` now: the later of the two writes wins |
| Posts.NewPostBlankFields | post_test.go:17-62 | A new post has empty title, content, summary, author, canonical URL, image URL and meta fields |
| Posts.NewPostTimestamps | Post.go:32-35 | A new post is created and updated now, has the null `deleted_at` and the far-future `soft_deleted_at` |
| Posts.AddMetasMerge | post_test.go:82-99 | Merging metas: argument keys overwrite, every other meta key is kept, and no other column changes |
| Posts.SnapshotRoundTrip | post_versioning_test.go:12-41 | The snapshot is the field map minus the three timestamps. Restoring it recovers every other field, metas included, keeps `created_at` and `soft_deleted_at`, and stamps `updated_at` with now |
| Posts.StatusHelpers | Post.go:142-152 | `IsUnpublished` is exactly `!IsPublished`; `IsTrashed` is exactly status trash, and a trashed post is unpublished and not a draft |
| Query.AllHoldWhen | store_implementation.go:336-350 | An option adds its predicate only when it is set, and the predicate is AND-ed with the rest |
| Query.Filter | store_implementation.go:336-375 | The WHERE clause keeps exactly the rows of the table that satisfy every predicate |
| Query.OrderRows | store_implementation.go:391-397 | ORDER BY permutes the rows and, when an order is given, sorts them |
| Query.Paginate | store_implementation.go:377-384 | OFFSET skips at most that many rows and LIMIT keeps at most that many, in order |
| Query.SearchPredHolds | store_implementation.go:352-363 | The search predicate holds exactly on a search hit |
| Query.SearchHitContains | store_implementation.go:352-363 | A hit means the lowered title or content contains the lowered term, or the id equals the term |
| Query.WhereSpec | store_implementation.go:336-407 | A row satisfies the built WHERE clause exactly when it meets every set option, each one independently. Both `id` and `IDIn` can apply, the created_at bounds are strict, and without `WithDeleted` the row must be visible |
| Query.LaterConditionsSpec | store_implementation.go:352-407 | The search, created_at bounds, second StatusIn and visibility conditions mean exactly their independent requirements |
| Query.StatusInAddedTwice | store_implementation.go:348-375 | A non-empty `StatusIn` occurs exactly twice in the WHERE clause, an empty one never |
| Query.SearchClause | store_implementation.go:352-363 | A non-empty search adds exactly one OR predicate, an empty one none, and no other predicate is an OR |
| Query.OnlySearchIsOr | store_implementation.go:352-363 | The search predicate is the only OR in the WHERE clause |
| Query.PaginationRules | store_implementation.go:377-398 | A count has no limit, offset or order. Otherwise a limit or offset is emitted exactly when it is positive, and an order exactly when `OrderBy` is set; it is ascending exactly when the sort order equals "asc" ignoring case, with "desc" as the default |
| Query.EvalSound | store_implementation.go:332-408 | Every row a query returns is in the table and matches the options |
| Query.EvalComplete | store_implementation.go:332-408 | Without limit and offset, every matching row of the table is returned |
| Query.EvalLimit | store_implementation.go:378-380 | A positive limit bounds the number of rows returned |
| Query.EvalSorted | store_implementation.go:391-397 | With an order, the rows returned are sorted by it |
| Query.SoftDeletedHidden | store_implementation.go:400-407 | Without `WithDeleted`, a row that is not visible now is never returned |
| Query.WithDeletedListsAll | store_implementation_test.go:419-438 | With only `WithDeleted` set, a query returns the whole table in order |
| Query.CountIsMatches | store_implementation.go:99-101 | A count is the number of matching rows; limit, offset and order do not change it |
| Query.CountWithDeleted | store_implementation_test.go:235-258 | Over rows that are all soft-deleted, the default count is 0, and `WithDeleted` counts any row that otherwise matches |
| Neighbours.PreviousAsWrittenIsEarlier | store_implementation.go:201-216 | The lookup as written returns at most one post: none exactly when no visible post is older than the parsed created_at, otherwise some visible older post (an unparsable created_at sets no bound) |
| Neighbours.NextAsWrittenIsLater | store_implementation.go:218-233 | The lookup as written returns at most one post: none exactly when no visible post is newer than the parsed created_at, otherwise some visible newer post (an unparsable created_at sets no bound) |
| Neighbours.PreviousIsNearest | store_implementation.go:201-216 | The corrected previous-post lookup returns at most one post. It returns none exactly when no visible post is older, and otherwise the newest visible older post |
| Neighbours.NextIsNearest | store_implementation.go:218-233 | The corrected next-post lookup returns at most one post. It returns none exactly when no visible post is newer, and otherwise the oldest visible newer post |
| Neighbours.PreviousAsWrittenNotNearest | store_implementation.go:201-216 | With two older posts stored oldest first, the lookup as written returns the older one; the corrected lookup returns the nearer one |
| Neighbours.NextAsWrittenNotNearest | store_implementation.go:218-233 | With two newer posts stored newest first, the lookup as written returns the newer one; the corrected lookup returns the nearer one |
| Versions.VersionStore.constructor | store_versioning.go:5-10 | A fresh snapshot store has seen no calls |
| Versions.VersionStore.Call | store_versioning.go:5-68 | Each delegated operation is recorded once, and its outcome is the library's answer |
| Stores.UpdateChanges | store_implementation.go:297-305 | An update writes the dirty columns except `id`, `hash` and `data`, with their current values |
| Stores.SoftDeleteChanges | store_implementation.go:270-278 | Soft-deleting a clean post writes only `soft_deleted_at` and keeps its id |
| Stores.Store.constructor | new.go:59-67 | The store literal holds its options, the 7200-second timeout, the table and no tracking steps; over a table with unique ids (the id primary key, sqlCreateTable.go:15) the store starts valid |
| Stores.Store.EnableDebug | store_implementation.go:60-63 | Switches debug logging, returns the same store and changes no data |
| Stores.Store.AutoMigrate | store_implementation.go:34-53 | A table error is returned first. With versioning on, the snapshot store is migrated once and its answer returned, and a missing snapshot store is an error. With versioning off, nothing more happens |
| Stores.Store.TrackEntity | store_implementation.go:91-93 | One tracking step is recorded with the post's snapshot at that moment, and the table is untouched |
| Stores.Store.PostCreate | store_implementation.go:65-97 | Stamps created_at and updated_at with now and inserts the whole field map. A failed insert returns its error before the dirty set is cleared and before tracking. Keeps ids unique |
| Stores.Store.PostUpdate | store_implementation.go:290-330 | Rejects a nil post. With no writable dirty column: returns nil, writes nothing and does not track. Otherwise it writes exactly those columns to the row with the post's id, clears the dirty set, tracks even after a failed write, and returns the write error |
| Stores.Store.PostList | store_implementation.go:235-268 | On success, one fresh clean post per row of the query's answer, in order; on failure an empty list and the error |
| Stores.Store.PostCount | store_implementation.go:99-140 | The parsed count, or -1 with the query error, -1 with the parse error, or -1 with no error when no row comes back. A database that counts correctly yields the number of matching rows |
| Stores.Store.PostFindByID | store_implementation.go:180-199 | An empty id is an error before any query. Otherwise the first row of the `ID, Limit 1` list as a fresh clean post, or nil without error when there is none |
| Stores.Store.PostFindPrevious | store_implementation.go:201-216 | The first row of the as-written query (created_at before the post's parsed created_at, limit 1, no order), or nil exactly when no visible post is older; a found post is a visible older one |
| Stores.Store.PostFindNext | store_implementation.go:218-233 | The first row of the as-written query (created_at after the post's parsed created_at, limit 1, no order), or nil exactly when no visible post is newer; a found post is a visible newer one |
| Stores.Store.PostDeleteByID | store_implementation.go:156-178 | An empty id is an error before any query; on success every row with that id is removed; no tracking |
| Stores.Store.PostDelete | store_implementation.go:148-154 | A nil post is an error; otherwise it deletes by the post's id |
| Stores.Store.PostSoftDelete | store_implementation.go:270-278 | A nil post is an error. Otherwise sets soft_deleted_at to now and persists it through `PostUpdate`, the write and one tracking step included |
| Stores.Store.PostSoftDeleteByID | store_implementation.go:280-288 | An empty id, a failed lookup, and a missing or hidden post ("post is nil") are errors without change. Otherwise the found post is soft-deleted |
| Stores.Store.PostTrash | store_implementation.go:142-146 | Sets status trash and updates the post: the status write, a cleared dirty set and one tracking step |
| Stores.Store.VersioningCreate | store_versioning.go:5-10 | Without a snapshot store: nil. Otherwise: exactly one `Create` delegated and its answer returned |
| Stores.Store.VersioningDelete | store_versioning.go:12-17 | Without a snapshot store: nil. Otherwise: exactly one `Delete` delegated and its answer returned |
| Stores.Store.VersioningDeleteByID | store_versioning.go:19-24 | Without a snapshot store: nil. Otherwise: exactly one `DeleteByID` delegated and its answer returned |
| Stores.Store.VersioningSoftDelete | store_versioning.go:49-54 | Without a snapshot store: nil. Otherwise: exactly one `SoftDelete` delegated and its answer returned |
| Stores.Store.VersioningSoftDeleteByID | store_versioning.go:56-61 | Without a snapshot store: nil. Otherwise: exactly one `SoftDeleteByID` delegated and its answer returned |
| Stores.Store.VersioningUpdate | store_versioning.go:63-68 | Without a snapshot store: nil. Otherwise: exactly one `Update` delegated and its answer returned |
| Stores.Store.VersioningFindByID | store_versioning.go:26-31 | Without a snapshot store: (nil, nil). Otherwise: one lookup delegated, returning its version or its error |
| Stores.Store.VersioningList | store_versioning.go:33-47 | Without a snapshot store: an empty, non-nil list. Otherwise: one list call delegated, with its versions in the same order, or (nil, error) |
| StoreProps.FindMatches | store_implementation.go:180-199 | The lookup options select exactly the visible rows with that id |
| StoreProps.FindByIdSpec | store_implementation.go:180-199 | Lookup by id returns at most one row. It returns one exactly when a visible row with that id exists; that row is in the table, and with unique ids it is the one |
| StoreProps.SoftDeleteHides | store_implementation.go:270-288 | After a soft delete by id, no default query at that instant or later returns a row with that id, while `WithDeleted` still lists every row |
| StoreProps.SoftDeleteScenario | store_implementation_test.go:235-258 | Create, count, soft delete, count on one clock reading: the post is counted once, then not at all, and is no longer found by id; counting with `WithDeleted` still sees it. Each count is the reply a database gives when it answers with the number of rows the count query selects from the store's table |
| StoreProps.CreatedRow | store_implementation.go:65-97 | The row a new post is inserted as has its id, is visible now and is counted once; soft-deleting it at the same instant hides it |
| NewStores.NewStore | new.go:25-76 | Rejects, in this order: an empty table name, a missing database, versioning without a table name, a failed or nil snapshot store. Otherwise the store has the driver name given or detected, the 7200-second timeout, a snapshot store exactly when versioning is on, and a migration exactly when enabled; the migration's error is dropped; over a table with unique ids the new store is valid |
| LegacyQuery.LegacyLaterConditionsSpec | Store.go:320-368 | The legacy search, created_at bounds, second StatusIn and visibility conditions mean exactly their independent requirements |
| LegacyQuery.LegacySearchPredHolds | Store.go:320-328 | The legacy search predicate holds exactly on a legacy search hit |
| LegacyQuery.LegacyWhereSpec | Store.go:300-371 | A row satisfies the legacy WHERE clause exactly when it meets every set option; without `WithDeleted` it must have the null deleted_at |
| LegacyQuery.LegacyOrdersCounts | Store.go:342-363 | A legacy count has no limit or offset but keeps its ORDER BY, which the current store drops |
| LegacyQuery.LegacyCountIsMatches | Store.go:77-114 | A legacy count is the number of rows matching the legacy options |
| LegacyQuery.LegacyEvalSound | Store.go:300-371 | Every row a legacy query returns is in the table and matches the legacy options |
| LegacyQuery.VisibilityColumnsIndependent | Store.go:365-368 | Legacy visibility ignores soft_deleted_at, and current visibility ignores deleted_at |
| LegacyQuery.LegacySoftDeleteHides | Store.go:241-249 | A row whose deleted_at is set to any real instant is hidden from every default legacy query |
| LegacyQuery.LegacySearchHitContains | Store.go:320-328 | A legacy hit is a LIKE contains on title or content, read case-sensitively, or the id matched as a pattern |
| LegacyQuery.LegacyIdIsPattern | Store.go:325 | The legacy search `%` matches every row with an id, since the id is compared with LIKE |
| LegacyStores.LegacyStore.constructor | Store.go:18-25 | The legacy store holds its options and the table, with debug off; over a table with unique ids it starts valid |
| LegacyStores.LegacyStore.PostCreate | Store.go:46-75 | Stamps created_at and updated_at and inserts; a failed insert keeps the dirty set and a successful one clears it; no versioning |
| LegacyStores.LegacyStore.PostUpdate | Store.go:261-298 | Rejects a nil post. With no writable dirty column it is a no-op returning nil. Otherwise it writes those columns and clears the dirty set whatever the write returned |
| LegacyStores.LegacyStore.PostList | Store.go:209-239 | One fresh clean post per row of the legacy query's answer, in order |
| LegacyStores.LegacyStore.PostFindByID | Store.go:154-173 | An empty id is an error. Otherwise the first row of the legacy lookup, or nil without error |
| LegacyStores.LegacyStore.PostSoftDelete | Store.go:241-249 | A nil post is an error; otherwise it sets deleted_at to now and persists through `PostUpdate` |
| LegacyStores.LegacyStore.PostDeleteByID | Store.go:130-152 | An empty id is an error; on success every row with that id is removed |
| McpArgs.ArgString | mcp/mcp.go:81-105 | "" for a missing, null or unsupported value; a string as itself; a number as its text; a bool as "true"/"false" |
| McpArgs.ArgInt | mcp/mcp.go:107-128 | (0, false) for a missing, null or non-number value, or a number that is not a 64-bit integer; otherwise the integer, with true |
| McpArgs.ArgBoolSpec | mcp/mcp.go:130-150 | True exactly for a bool true or a string that trims and lowers to true/1/yes; false exactly for bool false or false/0/no; anything else is not ok |
| McpArgs.BoolTextRoundTrip | mcp/mcp.go:97-101 | A bool read as a string and then as a bool gives the same answer |
| McpArgs.IntTextAgrees | mcp/mcp.go:89-90 | When a value reads as an integer, its string reading parses to that integer |
| McpArgs.ContentTypeToEditor | mcp/mcp.go:394-405 | markdown gives Markdown, html gives HtmlArea, anything else (the empty string included) gives TextArea |
| McpArgs.EditorsOfContentTypes | mcp/content_type_test.go:53-92 | Every content type maps to one of the three editors |
| McpArgs.RouteRules | mcp/mcp.go:56-78 | `list_tools` routes as `tools/list` and `call_tool` as `tools/call`. A POST with a readable body and any other method gets -32601; without a store the request is answered with -32603 |
| McpArgs.ToolNamesRoundTrip | mcp/mcp.go:367-384 | Each tool name selects its tool, and only the six names select one |
| McpArgs.SelectedToolName | mcp/mcp.go:338-341 | The trimmed `name`, or the trimmed `tool_name` when `name` is blank |
| McpArgs.ToolsCallReply | mcp/mcp.go:348-364 | Arguments that do not decode give -32602; a tool error gives -32603 with its message; otherwise the tool's text |
| McpUpsert.ApplyGivenAt | mcp/mcp.go:663-683 | Each field takes its argument when that is non-empty, and keeps its value otherwise |
| McpUpsert.GivenColumnsMembers | mcp/mcp.go:663-683 | A column is marked dirty exactly when its argument is non-empty |
| McpUpsert.EarlyFieldsUnfold | mcp/mcp.go:663-683 | Title, content, summary, status, author, canonical URL and image URL are set in that order from their arguments |
| McpUpsert.LateFieldsUnfold | mcp/mcp.go:709-723 | Published date, meta description, keywords, robots and memo are set in that order from their arguments |
| McpUpsert.FinalContentType | mcp/mcp.go:692-701 | The given content type, else the stored one, else plain_text; never empty |
| McpUpsert.UpsertFeaturedRule | mcp/mcp.go:684-689 | The merge fails with the featured error exactly when `featured` is given and is neither yes nor no |
| McpUpsert.UpsertEarlyField | mcp/mcp.go:663-683 | After the whole merge, each early field is its non-empty argument or its old value |
| McpUpsert.UpsertLateField | mcp/mcp.go:709-723 | After the whole merge, each late field is its non-empty argument or its old value |
| McpUpsert.UpsertTextFields | mcp/mcp.go:663-723 | Every text field, featured included, is its non-empty argument or its old value |
| McpUpsert.UpsertKeepsId | mcp/mcp.go:663-723 | The merge never changes the post's id |
| McpUpsert.UpsertMetasRule | mcp/mcp.go:692-707 | The final content type is stored, the editor is its `contentTypeToEditor`, and every other meta is kept |
| McpUpsert.UpsertUndecodableMetas | mcp/mcp.go:703-707 | When the metas do not parse, the content type and editor writes fail silently and the metas column is kept |
| McpTools.SetGiven | mcp/mcp.go:663-665 | One conditional setter: writes and dirties the column exactly when its argument is non-empty |
| McpTools.ApplyEarlyFields | mcp/mcp.go:663-683 | The early conditional setters, as one merge over the field map and dirty set |
| McpTools.ApplyFeatured | mcp/mcp.go:684-689 | An invalid `featured` is an error with no change; a valid one is written when given |
| McpTools.ApplyContentType | mcp/mcp.go:692-707 | Stores the final content type and its editor in the metas; dirties the metas when they parse |
| McpTools.ApplyLateFields | mcp/mcp.go:709-723 | The late conditional setters, as one merge over the field map and dirty set |
| McpTools.ApplyUpsertArgs | mcp/mcp.go:663-723 | The setter sequence is the upsert merge: the featured error, or the merged row with the merged dirty set |
| McpTools.ListedPostsMatch | mcp/mcp.go:506-538 | Every listed post is in the table and matches the given id, status and search; without `with_deleted` it is visible |
| McpTools.ListedPostsComplete | mcp/mcp.go:506-538 | Without limit and offset, every matching post is listed |
| McpTools.ListedPostsLimit | mcp/mcp.go:515-517 | A positive `limit` bounds the number of posts listed |
| McpTools.VersionsQuery | mcp/mcp.go:583-603 | The versions query asks for the post's entity, ordered by the given column or created_at, the given direction or desc, and a limit exactly when one is given |
| McpTools.NewUpsertRowFields | mcp/mcp.go:649-660 | A new post takes the supplied id when it is not blank, else the fresh id, and the supplied title, and starts as a draft |
| McpTools.PrepareRule | mcp/mcp.go:663-723 | Preparing a post is the featured error, or the merged row and dirty set |
| McpTools.PrepareFromErrors | mcp/mcp.go:638-689 | A failed lookup comes first. Then the title error exactly when no post was found and the title is blank. Then the featured error. Otherwise the merged row |
| McpTools.UpsertErrors | mcp/mcp.go:638-689 | The upsert's error cases in order: a failed lookup, a missing title for a new post, an invalid featured; it succeeds otherwise |
| McpTools.PreparedFromStart | mcp/mcp.go:638-723 | The prepared post is the merge applied to the found post or to the new one |
| McpTools.UpsertUpdatesFound | mcp/mcp.go:638-646 | When a visible post with the id exists, the upsert updates that post, keeps its id and takes the title argument when given |
| McpTools.UpsertNewPost | mcp/mcp.go:649-660 | Otherwise it creates a post with the supplied or fresh id, the non-blank title, and draft status unless one is given |
| McpTools.Mcp.constructor | mcp/mcp.go:19-21 | The tool server holds the store it was given |
| McpTools.Mcp.PostMaps | mcp/mcp.go:530-534 | One field map per post, in order |
| McpTools.Mcp.ToolPostList | mcp/mcp.go:506-538 | The list error, or the field maps of the posts the argument-built query returns |
| McpTools.Mcp.ToolPostGet | mcp/mcp.go:540-556 | A blank id is an error; then the lookup error; then "post not found" exactly when no visible post has the id; otherwise that post's fields |
| McpTools.Mcp.ToolPostDelete | mcp/mcp.go:558-570 | A blank id is an error without change; a successful delete removes every row with the id and reports it |
| McpTools.Mcp.VersionItemsOf | mcp/mcp.go:612-622 | One item per version, in order |
| McpTools.Mcp.ToolPostVersions | mcp/mcp.go:572-629 | A blank id is an error, then versioning off is one. Otherwise a single list call with the built query, answering its error or its versions and their total |
| McpTools.Mcp.StartUpsert | mcp/mcp.go:638-660 | The lookup error, the missing-title error, or the found post (an update) or a fresh new post (a create) |
| McpTools.Mcp.NewUpsertPost | mcp/mcp.go:649-660 | A fresh post holding the new-post row, with every column dirty |
| McpTools.Mcp.FinishUpsert | mcp/mcp.go:726-743 | An update goes through `PostUpdate` and a create through `PostCreate`, answering their error, or the post's id and title with the action "upserted"; keeps ids unique |
| McpTools.Mcp.ToolPostUpsert | mcp/mcp.go:631-744 | A preparation error is answered with no store change. Otherwise the found post is updated or the new one created, as prepared |
| McpTools.Mcp.DispatchTool | mcp/mcp.go:367-384 | Each of the six tool names runs its tool, and any other name is "unknown tool". Only upsert and delete change the table |

## Left out

- The JSON codec of metas (`utils.ToJSON`/`FromJSON`) is not modelled. The metas column holds its decoded map, and any other non-empty text there stands for JSON that does not parse.
- Posts.DecodeMetas: JSON that parses but is no object (`[]`, `null`, `5`) makes `Metas()` panic on its type assertion (Post.go:285-289); the model answers an error for it instead.
- The JSON output of the tools is a field map or a structured reply, not JSON text.
- The float64 branches of `argString` and `argInt` (mcp/mcp.go:91-92, 119-120) are left out: formatting and truncating floats is out of scope, and the request decoder keeps numbers as `json.Number` text. The int and int64 branches are modelled.
- SQL text rendering (goqu), dialects, `ExecContext` and `SelectToMapString` are replaced by the abstract query and the in-memory table.
- The branch of `PostCount` where building the SQL fails (store_implementation.go:108-110) is left out, because the abstract query always builds.
- NULL cells and the database's ordering of NULLs are not modelled: a missing cell sorts as "".
- Case folding is ASCII only; ILIKE and Unicode beyond ASCII are not modelled.
- LegacyQuery.LegacySearchHitContains: LIKE is read case-sensitively, as PostgreSQL and standard SQL read it. Under SQLite LIKE folds ASCII case and goqu renders ILIKE as LIKE, so there the two stores search alike; that dialect is not modelled.
- Posts.ParsedDateTime: carbon's parser is modelled on two layouts, `YYYY-MM-DD HH:MM:SS` and `YYYY-MM-DD`, with no check of field ranges. Other layouts carbon accepts (RFC 3339, zones, fractions of a second) read as unparsable, and out-of-range fields such as month 13 read as accepted. The text is taken to be in the zone carbon prints in.
- Stores.Store.PostTrash: takes a non-null post; the code sets the status of a nil post and panics (store_implementation.go:142-146).
- Stores.Store.PostCreate: takes a non-null post; the code stamps a nil post and panics (store_implementation.go:65-67).
- The clock (carbon, time) is a parameter `now`. One operation reads it once, where the code may read it more than once.
- `uid.HumanUid` is a parameter: a non-empty id that the caller supplies.
- `Slug` calls a foreign slug function and is not modelled.
- The bodies of `versioningTrackEntity` and `MarshalToVersioning` are not part of this model. A tracking step is recorded with the post's snapshot content, and no content-deduplication rule is assumed.
- Posts.Post.UnmarshalFromVersioning: the generic data object's restore is not part of this model, so which keys end up dirty after a restore (every restored non-timestamp key plus updated_at, as `Posts.RestoredKeys` says) is this model's choice, not a promise of the source.
- Stores.Store.PostCount: the parse error's text is a fixed stand-in for the `strconv` message.
- The HTTP and JSON-RPC transport, `writeJSON`, the static schema of `blog_schema` and the tool list are left out. `blog_schema`'s answer is one fixed value.
- The request-body reading, its JSON-RPC parse error (-32700) and the `initialize` and `tools/list` replies are left out.
- The legacy store's `PostCount`, `PostTrash`, `PostDelete`, `PostSoftDeleteByID`, `PostFindPrevious` and `PostFindNext` are not modelled as methods. They repeat the current store's logic over the legacy query, and that query's count is stated by `LegacyQuery.LegacyCountIsMatches`.
- The legacy store's `AutoMigrate` and `EnableDebug` are not modelled.
- sqlCreateTable.go (DDL), queryable_context.go, versioning.go and the interface files are not part of this model.
- Debug logging and contexts are not modelled; the code has no concurrency of its own.
- NewStores.NewStore: the error of the migration is dropped, as in the code. The snapshot store's own migration is recorded as one call, and its outcome is not observable.
- The generic `Set` of the data object that `Post` extends is not shown in the source, so it is modelled as updating one key and marking it dirty.

## Findings

| source | as written | input that shows it | evidently intended | confidence | as-written member | corrected member |
|---|---|---|---|---|---|---|
| store_implementation.go:201-233 | `PostFindPrevious` and `PostFindNext` ask for one row created before (after) the post, with no ORDER BY, so they return whichever such row the database yields first | Two visible posts created before the given one, stored oldest first: the lookup as written returns the oldest, not the nearest | The previous post is the newest of the older posts (created_at desc) and the next one is the oldest of the newer posts (created_at asc) | not executed | Neighbours.PreviousAsWrittenNotNearest, Neighbours.NextAsWrittenNotNearest | Neighbours.PreviousIsNearest, Neighbours.NextIsNearest |
