/**
 * DbExtension of the Discount service: at start-up ApplyMigrations drops and
 * recreates the Coupon table and inserts two seed coupons, retrying a failed
 * attempt after a 2-second sleep, at most five attempts in all;
 * MigrateDatabase logs the outcome and rethrows a failure.
 *
 * The database is passed in and out as a value; what each attempt meets
 * (success, or an exception at one of its steps) is an oracle `outcomes`,
 * indexed by the attempt's number.
 */
module DiscountMigration {
  import opened Wrappers
  import opened Discount

  /** `var retry = 5`: the number of attempts. */
  const MaxAttempts := 5
  /** `Thread.Sleep(2000)`: the wait before a retry, in milliseconds. */
  const RetryDelayMs := 2000

  /** A Coupon table: its rows and the next value of its SERIAL Id sequence. */
  datatype CouponTable = CouponTable(rows: seq<Coupon>, nextId: int)

  /** What the migration sees of the database: the Coupon table, if it exists. */
  type Database = Option<CouponTable>

  /** The statements of one attempt, in order. */
  datatype Step = OpenConnection | DropTable | CreateTable | InsertShoeCoupon | InsertRacquetCoupon

  datatype DbException = DbException(message: string)

  /** What one attempt meets: every statement succeeds, or one throws (and has no effect). */
  datatype AttemptOutcome = Completes | Throws(at: Step, error: DbException)

  /** Whether ApplyMigrations returned or rethrew. */
  datatype Completion = Migrated | Rethrown(error: DbException)

  predicate FailsAt(outcome: AttemptOutcome, step: Step) {
    outcome.Throws? && outcome.at == step
  }

  const ShoeCoupon := Coupon(1, "Adidas Quick Force Indoor Badminton Shoes", "Shoe Discount", 500)
  const RacquetCoupon := Coupon(2, "Yonex VCORE Pro 100 A Tennis Racquet (270gm, Strung)", "Racquet Discount", 700)

  /** A freshly created table: no rows, its Id sequence at 1. */
  const EmptyTable := CouponTable([], 1)

  /** The table a complete attempt leaves: the two seed rows in insertion order. */
  const SeededTable := CouponTable([ShoeCoupon, RacquetCoupon], 3)

  /** INSERT INTO Coupon(ProductName, Description, Amount): the row takes the next serial Id. */
  function Insert(t: CouponTable, productName: string, description: string, amount: int): CouponTable
  {
    CouponTable(t.rows + [Coupon(t.nextId, productName, description, amount)], t.nextId + 1)
  }

  /**
   * The two seed INSERTs into a freshly created table give the shoe coupon Id 1
   * and the racquet coupon Id 2, in that order, whatever Ids a dropped table
   * had reached.
   */
  lemma SeedInserts()
    ensures Insert(EmptyTable, ShoeCoupon.productName, ShoeCoupon.description, ShoeCoupon.amount)
      == CouponTable([ShoeCoupon], 2)
    ensures Insert(CouponTable([ShoeCoupon], 2), RacquetCoupon.productName, RacquetCoupon.description, RacquetCoupon.amount)
      == SeededTable
  {
    assert [] + [ShoeCoupon] == [ShoeCoupon];
    assert [ShoeCoupon] + [RacquetCoupon] == SeededTable.rows;
  }

  /**
   * One pass of the try block: open, DROP TABLE IF EXISTS, CREATE TABLE, two
   * INSERTs. A statement that throws has no effect and ends the attempt, so a
   * failed attempt leaves whatever the statements before it did.
   */
  method RunAttempt(db: Database, outcome: AttemptOutcome) returns (db': Database, error: Option<DbException>)
    ensures error.None? <==> outcome.Completes?
    ensures outcome.Throws? ==> error == Some(outcome.error)
    ensures outcome.Completes? ==> db' == Some(SeededTable)
    ensures FailsAt(outcome, OpenConnection) || FailsAt(outcome, DropTable) ==> db' == db
    ensures FailsAt(outcome, CreateTable) ==> db' == None
    ensures FailsAt(outcome, InsertShoeCoupon) ==> db' == Some(EmptyTable)
    ensures FailsAt(outcome, InsertRacquetCoupon) ==> db' == Some(CouponTable([ShoeCoupon], 2))
  {
    db' := db;
    if FailsAt(outcome, OpenConnection) || FailsAt(outcome, DropTable) {
      return db', Some(outcome.error);
    }
    db' := None;
    if FailsAt(outcome, CreateTable) {
      return db', Some(outcome.error);
    }
    db' := Some(EmptyTable);
    if FailsAt(outcome, InsertShoeCoupon) {
      return db', Some(outcome.error);
    }
    db' := Some(Insert(db'.value, ShoeCoupon.productName, ShoeCoupon.description, ShoeCoupon.amount));
    SeedInserts();
    if FailsAt(outcome, InsertRacquetCoupon) {
      return db', Some(outcome.error);
    }
    db' := Some(Insert(db'.value, RacquetCoupon.productName, RacquetCoupon.description, RacquetCoupon.amount));
    error := None;
  }

  /**
   * ApplyMigrations: `while (retry > 0)` with `break` on success, `retry--`
   * on failure, rethrow when it reaches zero and a sleep otherwise. Returns
   * the database, the completion, the attempts run and the total time spent
   * in Thread.Sleep, in milliseconds.
   */
  method ApplyMigrations(db: Database, outcomes: nat -> AttemptOutcome)
    returns (db': Database, r: Completion, attempts: nat, waitedMs: nat)
    ensures 1 <= attempts <= MaxAttempts
    ensures forall i :: 0 <= i < attempts - 1 ==> outcomes(i).Throws?
    ensures r.Migrated? <==> exists i :: 0 <= i < MaxAttempts && outcomes(i).Completes?
    ensures r.Migrated? ==> outcomes(attempts - 1).Completes?
    ensures r.Migrated? ==> db' == Some(SeededTable)
    ensures r.Rethrown? ==> attempts == MaxAttempts && r.error == outcomes(MaxAttempts - 1).error
    ensures waitedMs == (attempts - 1) * RetryDelayMs
  {
    var retry := MaxAttempts;
    db', r, attempts, waitedMs := db, Migrated, 0, 0;
    while retry > 0
      invariant 1 <= retry <= MaxAttempts
      invariant attempts == MaxAttempts - retry
      invariant waitedMs == attempts * RetryDelayMs
      invariant forall i :: 0 <= i < attempts ==> outcomes(i).Throws?
      decreases retry
    {
      var error;
      db', error := RunAttempt(db', outcomes(attempts));
      attempts := attempts + 1;
      if error.None? {
        break;
      }
      retry := retry - 1;
      if retry == 0 {
        r := Rethrown(error.value);
        return;
      }
      waitedMs := waitedMs + RetryDelayMs;
    }
  }

  /** IHost, handed back unchanged. */
  datatype Host = Host(name: string)

  datatype LogEntry = Information(message: string) | Error(message: string, exception: DbException)

  const StartedMessage := "Discount DB Migration started."
  const CompletedMessage := "Discount DB Migration completed."
  const FailedMessage := "An error occured while migrating the database."

  /**
   * MigrateDatabase: logs the start, runs ApplyMigrations, logs completion and
   * returns the same host, or logs the error and rethrows it.
   */
  method MigrateDatabase(host: Host, db: Database, outcomes: nat -> AttemptOutcome)
    returns (r: Result<Host, DbException>, db': Database, log: seq<LogEntry>)
    ensures r.Success? <==> exists i :: 0 <= i < MaxAttempts && outcomes(i).Completes?
    ensures r.Success? ==> r.value == host && db' == Some(SeededTable)
    ensures r.Success? ==> log == [Information(StartedMessage), Information(CompletedMessage)]
    ensures r.Failure? ==> r.error == outcomes(MaxAttempts - 1).error
    ensures r.Failure? ==> log == [Information(StartedMessage), Error(FailedMessage, r.error)]
  {
    log := [Information(StartedMessage)];
    var completion, attempts, waitedMs;
    db', completion, attempts, waitedMs := ApplyMigrations(db, outcomes);
    if completion.Rethrown? {
      log := log + [Error(FailedMessage, completion.error)];
      return Failure(completion.error), db', log;
    }
    log := log + [Information(CompletedMessage)];
    r := Success(host);
  }

  /** After a successful migration the discount lookup finds both seed coupons. */
  lemma SeededCouponsFound()
    ensures Handle(SeededTable.rows, GetDiscountQuery(ShoeCoupon.productName))
      == Success(CouponModel(1, ShoeCoupon.productName, "Shoe Discount", 500))
    ensures Handle(SeededTable.rows, GetDiscountQuery(RacquetCoupon.productName))
      == Success(CouponModel(2, RacquetCoupon.productName, "Racquet Discount", 700))
  {
    assert SeededTable.rows[0] == ShoeCoupon;
    assert ShoeCoupon.productName != RacquetCoupon.productName;
  }

  /** Four failed attempts then a success: five attempts, four 2-second sleeps, seeded table. */
  method FourFailuresThenSuccess(db: Database)
  {
    var failure := Throws(OpenConnection, DbException("connection refused"));
    var outcomes := (i: nat) => if i < 4 then failure else Completes;
    var db', r, attempts, waitedMs := ApplyMigrations(db, outcomes);
    assert outcomes(4).Completes?;
    assert r.Migrated?;
    assert attempts == 5 && waitedMs == 8000;
    assert db' == Some(SeededTable);
  }
}
