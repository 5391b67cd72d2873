/**
 * `NewStore`: the option checks in their order, the optional snapshot
 * store, the fixed timeout, and the best-effort migration.
 */
module NewStores {
  import opened Outcomes
  import opened Tables
  import opened Versions
  import opened Stores

  /** `NewStoreOptions`; `hasDB` says whether a database handle was given, `rows` is what its post table holds. */
  datatype NewStoreOptions = NewStoreOptions(
    postTableName: string,
    hasDB: bool,
    dbDriverName: string,
    timeoutSeconds: int,
    automigrateEnabled: bool,
    debugEnabled: bool,
    versioningEnabled: bool,
    versioningTableName: string)

  /** How building the snapshot store went: a store, a nil store without an error, or an error. */
  datatype VersionStoreReply = Built | BuiltNil | BuildFailed(error: string)

  const PostTableNameRequired := "blog store: PostTableName is required"
  const DBRequired := "blog store: DB is required"
  const VersioningTableNameRequired := "blog store: VersioningTableName is required"
  const VersionStoreNil := "blog store: version store is nil"

  /**
   * Build a store. `detectedDriver` is the driver name read off the database
   * handle, `vsReply` how building the snapshot store went, `migrateDb` and
   * `migrateVs` how the migration went; the migration's error is dropped.
   * The post table's id primary key keeps the ids of `rows` unique.
   */
  method NewStore(o: NewStoreOptions, rows: Table, detectedDriver: string, vsReply: VersionStoreReply,
                  migrateDb: Outcome, migrateVs: Outcome) returns (s: Store?, err: Outcome)
    requires UniqueIds(rows)
    ensures o.postTableName == "" ==> s == null && err == Fail(PostTableNameRequired)
    ensures o.postTableName != "" && !o.hasDB ==> s == null && err == Fail(DBRequired)
    ensures o.postTableName != "" && o.hasDB && o.versioningEnabled ==>
      && (o.versioningTableName == "" ==> s == null && err == Fail(VersioningTableNameRequired))
      && (o.versioningTableName != "" && vsReply.BuildFailed? ==> s == null && err == Fail(vsReply.error))
      && (o.versioningTableName != "" && vsReply.BuiltNil? ==> s == null && err == Fail(VersionStoreNil))
    ensures s != null <==>
      o.postTableName != "" && o.hasDB && (o.versioningEnabled ==> o.versioningTableName != "" && vsReply.Built?)
    ensures s != null ==> err == Pass && fresh(s) && s.Valid()
    ensures s != null ==>
      && s.table == rows && s.trackCalls == []
      && s.postTableName == o.postTableName
      && s.dbDriverName == (if o.dbDriverName == "" then detectedDriver else o.dbDriverName)
      && s.timeoutSeconds == 7200
      && s.automigrateEnabled == o.automigrateEnabled && s.debugEnabled == o.debugEnabled
      && s.versioningEnabled == o.versioningEnabled
      && (s.versioningStore != null <==> o.versioningEnabled)
    ensures s != null && s.versioningStore != null ==>
      && fresh(s.versioningStore)
      && s.versioningStore.calls == if o.automigrateEnabled && migrateDb.Pass? then [VersionCall.AutoMigrate] else []
  {
    if o.postTableName == "" {
      return null, Fail(PostTableNameRequired);
    }
    if !o.hasDB {
      return null, Fail(DBRequired);
    }
    var driver := o.dbDriverName;
    if driver == "" {
      driver := detectedDriver;
    }
    if o.versioningEnabled && o.versioningTableName == "" {
      return null, Fail(VersioningTableNameRequired);
    }
    var versionStore: VersionStore? := null;
    if o.versioningEnabled {
      match vsReply
      case BuildFailed(e) => return null, Fail(e);
      case BuiltNil => return null, Fail(VersionStoreNil);
      case Built => versionStore := new VersionStore();
    }
    s := new Store(rows, o.postTableName, driver, o.automigrateEnabled, o.debugEnabled, o.versioningEnabled, versionStore);
    if s.automigrateEnabled {
      var _ := s.AutoMigrate(migrateDb, migrateVs);
    }
    err := Pass;
  }
}
