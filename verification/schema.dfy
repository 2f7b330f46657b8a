/**
 * The schema version gate of a cell database: the stored `user_version`
 * decides whether the database is created from the current migration's
 * schema, migrated forward, refused, or left alone.
 *
 * Rust's `unimplemented!` panics are modelled as the error value
 * `Unimplemented`, which ends the operation like the panic does.
 */
module Schema {
  import opened Wrappers

  type Sql = string

  datatype SqlError = SqlFailure(code: int) | IntegralValueOutOfRange(value: int)

  datatype InitError = Sql(error: SqlError) | Unimplemented(message: string)

  const ActualMigrationsMessage := "actual migrations not yet implemented"
  const BackwardMigrationsMessage := "backward migrations unimplemented"

  datatype Migration = Migration(schema: Sql, forward: Sql, backward: Option<Sql>)

  /** `Migration::initial`: a migration that only knows how to create the schema. */
  function Initial(schema: Sql): (m: Migration)
    ensures m.schema == schema && m.forward == "" && m.backward.None?
  {
    Migration(schema, "", None)
  }

  datatype SchemaDef = SchemaDef(currentIndex: nat, migrations: seq<Migration>)

  /** `SCHEMA_CELL`: the initial migration alone, which is also the current one. */
  function SchemaCell(initialSql: Sql): (s: SchemaDef)
    ensures s.currentIndex == 0 && |s.migrations| == 1
    ensures s.migrations[s.currentIndex] == Initial(initialSql)
  {
    SchemaDef(0, [Initial(initialSql)])
  }

  /** Reading the pragma as a `u16`: values outside 0..65535 fail to convert. */
  function ToU16(v: int): (r: Result<nat, SqlError>)
    ensures r.Ok? <==> 0 <= v < 0x1_0000
    ensures r.Ok? ==> r.value == v
    ensures r.Err? ==> r.error == IntegralValueOutOfRange(v)
  {
    if 0 <= v < 0x1_0000 then Ok(v) else Err(IntegralValueOutOfRange(v))
  }

  /** The branch `initialize` takes for a stored `user_version`. */
  datatype Plan = CreateFresh | RunForward(from: nat) | RefuseBackward | UpToDate

  /**
   * Version 0 means an empty database; otherwise the stored migration index
   * is `user_version - 1`, compared with the schema's current index.
   */
  function Decide(userVersion: nat, currentIndex: nat): (p: Plan)
    ensures p.CreateFresh? <==> userVersion == 0
    ensures p.UpToDate? <==> userVersion == currentIndex + 1
    ensures p.RunForward? <==> 0 < userVersion && userVersion - 1 < currentIndex
    ensures p.RefuseBackward? <==> userVersion - 1 > currentIndex
    ensures p.RunForward? ==> p.from == userVersion - 1
  {
    if userVersion == 0 then CreateFresh
    else
      var stored := userVersion - 1;
      if stored < currentIndex then RunForward(stored)
      else if stored > currentIndex then RefuseBackward
      else UpToDate
  }

  /** What one call of `initialize` does: its result, the batches it executes and the migrations it runs. */
  datatype Effect = Effect(result: Result<(), InitError>, executed: seq<Sql>, ran: seq<nat>)

  /**
   * The effect of `initialize` on a connection whose pragma read gives
   * `stored` and whose batch execution gives `batch`.
   */
  function InitializeEffect(s: SchemaDef, stored: Result<int, SqlError>, batch: Result<(), SqlError>): (e: Effect)
    requires s.currentIndex < |s.migrations|
  {
    var read := if stored.Ok? then ToU16(stored.value) else Err(stored.error);
    if read.Err? then Effect(Err(Sql(read.error)), [], [])
    else
      match Decide(read.value, s.currentIndex)
      case CreateFresh =>
        Effect(if batch.Ok? then Ok(()) else Err(Sql(batch.error)), [s.migrations[s.currentIndex].schema], [])
      case RunForward(from) => Effect(Err(Unimplemented(ActualMigrationsMessage)), [], [from])
      case RefuseBackward => Effect(Err(Unimplemented(BackwardMigrationsMessage)), [], [])
      case UpToDate => Effect(Ok(()), [], [])
  }

  /** A failed read of the version is returned before any statement or migration runs. */
  lemma ReadFailureRunsNothing(s: SchemaDef, stored: Result<int, SqlError>, batch: Result<(), SqlError>)
    requires s.currentIndex < |s.migrations|
    requires stored.Err? || !(0 <= stored.value < 0x1_0000)
    ensures var e := InitializeEffect(s, stored, batch);
      e.result.Err? && e.result.error.Sql? && e.executed == [] && e.ran == []
  {
  }

  /**
   * Only an empty database executes SQL, and then exactly the current
   * migration's schema; the other branches execute nothing, and only the
   * forward branch touches a migration, starting at the stored index.
   */
  lemma OnlyFreshDatabaseExecutesSchema(s: SchemaDef, v: nat, batch: Result<(), SqlError>)
    requires s.currentIndex < |s.migrations| && v < 0x1_0000
    ensures var e := InitializeEffect(s, Ok(v), batch);
      && (e.executed != [] <==> v == 0)
      && (v == 0 ==> e.executed == [s.migrations[s.currentIndex].schema] && e.ran == []
                     && (e.result.Ok? <==> batch.Ok?))
      && (e.ran != [] <==> 0 < v && v - 1 < s.currentIndex)
      && (e.ran != [] ==> e.ran == [v - 1])
  {
  }

  /**
   * With one migration and current index 0, exactly the versions 0 (created
   * fresh) and 1 (already current) open; every other version aborts, and no
   * version runs a forward migration.
   */
  lemma SchemaCellOpensOnlyVersionsZeroAndOne(initialSql: Sql, v: nat, batch: Result<(), SqlError>)
    requires v < 0x1_0000 && batch.Ok?
    ensures var e := InitializeEffect(SchemaCell(initialSql), Ok(v), batch);
      (e.result.Ok? <==> v <= 1) && e.ran == [] &&
      (v > 1 ==> e.result == Err(Unimplemented(BackwardMigrationsMessage)))
  {
  }

  /** A connection: the stored version it reports, how its batches end, and the batches run on it. */
  class Connection {
    const storedVersion: Result<int, SqlError>
    const batchResult: Result<(), SqlError>
    var executed: seq<Sql>

    constructor (storedVersion: Result<int, SqlError>, batchResult: Result<(), SqlError>)
      ensures this.storedVersion == storedVersion && this.batchResult == batchResult && executed == []
    {
      this.storedVersion := storedVersion;
      this.batchResult := batchResult;
      executed := [];
    }

    /** `PRAGMA user_version` read as a `u16`. */
    method QueryUserVersion() returns (r: Result<nat, SqlError>)
      ensures r.Ok? <==> storedVersion.Ok? && 0 <= storedVersion.value < 0x1_0000
      ensures r.Ok? ==> r.value == storedVersion.value
      ensures r.Err? ==>
        r.error == (if storedVersion.Err? then storedVersion.error else IntegralValueOutOfRange(storedVersion.value))
    {
      if storedVersion.Err? {
        return Err(storedVersion.error);
      }
      r := ToU16(storedVersion.value);
    }

    method ExecuteBatch(sql: Sql) returns (r: Result<(), SqlError>)
      modifies this
      ensures executed == old(executed) + [sql] && r == batchResult
    {
      executed := executed + [sql];
      r := batchResult;
    }
  }

  /** `Migration::initialize`: executes the schema as one batch. */
  method InitializeMigration(m: Migration, conn: Connection) returns (r: Result<(), SqlError>)
    modifies conn
    ensures conn.executed == old(conn.executed) + [m.schema] && r == conn.batchResult
  {
    r := conn.ExecuteBatch(m.schema);
  }

  /** `Migration::run`: not implemented, so it always aborts. */
  method RunMigration(m: Migration, conn: Connection) returns (r: Result<(), InitError>)
    ensures r == Err(Unimplemented(ActualMigrationsMessage))
  {
    return Err(Unimplemented(ActualMigrationsMessage));
  }

  /**
   * `Schema::initialize`.  `ran` lists the migrations whose `run` was called.
   */
  method Initialize(s: SchemaDef, conn: Connection) returns (r: Result<(), InitError>, ran: seq<nat>)
    requires s.currentIndex < |s.migrations|
    modifies conn
    ensures var e := InitializeEffect(s, conn.storedVersion, conn.batchResult);
      r == e.result && conn.executed == old(conn.executed) + e.executed && ran == e.ran
  {
    ran := [];
    var read := conn.QueryUserVersion();
    if read.Err? {
      return Err(Sql(read.error)), ran;
    }
    var userVersion := read.value;
    if userVersion == 0 {
      var created := InitializeMigration(s.migrations[s.currentIndex], conn);
      if created.Err? {
        return Err(Sql(created.error)), ran;
      }
      return Ok(()), ran;
    }
    var storedIndex := userVersion - 1;
    if storedIndex < s.currentIndex {
      // The first forward migration aborts, so the loop never gets past it.
      for v := storedIndex to s.currentIndex + 1
        invariant v == storedIndex && ran == [] && conn.executed == old(conn.executed)
      {
        ran := ran + [v];
        var step := RunMigration(s.migrations[v], conn);
        if step.Err? {
          return step, ran;
        }
      }
      assert false;
    } else if storedIndex > s.currentIndex {
      return Err(Unimplemented(BackwardMigrationsMessage)), ran;
    }
    return Ok(()), ran;
  }
}
