/**
 * dbkit/classify.go: sorting database errors into the kinds callers act on,
 * looking through wrapping, chains and joined errors alike, the way
 * errors.Is and errors.As do.
 */
module DbClassify {
  import opened Wrappers
  import opened GoErrors
  import DbScan

  /** Kind: KindUnknown, KindNoRows, KindUniqueViolation, KindForeignKeyViolation. */
  datatype Kind = Unknown | NoRows | UniqueViolation | ForeignKeyViolation

  /** MySQL error numbers and SQLSTATE codes the classification knows. */
  const MySQLDuplicateEntry := 1062
  const MySQLRowIsReferenced := 1451
  const MySQLNoReferencedRow := 1452
  const StateUniqueViolation := "23505"
  const StateForeignKeyViolation := "23503"

  /** A MySQL error number that decides the kind on its own. */
  predicate DecisiveMySQL(n: int) {
    n == MySQLDuplicateEntry || n == MySQLRowIsReferenced || n == MySQLNoReferencedRow
  }

  /**
   * Classify: nil is unknown; sql.ErrNoRows anywhere in the error tree is no-rows;
   * then a MySQL error's number; then a SQLSTATE; anything else unknown.
   */
  function Classify(err: Option<Err>): (k: Kind)
    ensures err.None? ==> k == Unknown
    ensures k == NoRows <==> IsErr(err, ErrNoRows)
    ensures k == UniqueViolation <==>
      (err.Some? && !Is(err.value, ErrNoRows) &&
       (AsMySQL(err.value) == Some(MySQLDuplicateEntry) ||
        (!(AsMySQL(err.value).Some? && DecisiveMySQL(AsMySQL(err.value).value)) &&
         AsSQLState(err.value) == Some(StateUniqueViolation))))
    ensures k == ForeignKeyViolation <==>
      (err.Some? && !Is(err.value, ErrNoRows) &&
       (AsMySQL(err.value) == Some(MySQLRowIsReferenced) || AsMySQL(err.value) == Some(MySQLNoReferencedRow) ||
        (!(AsMySQL(err.value).Some? && DecisiveMySQL(AsMySQL(err.value).value)) &&
         AsSQLState(err.value) == Some(StateForeignKeyViolation))))
  {
    if err.None? then Unknown
    else if Is(err.value, ErrNoRows) then NoRows
    else if AsMySQL(err.value) == Some(MySQLDuplicateEntry) then UniqueViolation
    else if AsMySQL(err.value) == Some(MySQLRowIsReferenced) || AsMySQL(err.value) == Some(MySQLNoReferencedRow) then ForeignKeyViolation
    else if AsSQLState(err.value) == Some(StateUniqueViolation) then UniqueViolation
    else if AsSQLState(err.value) == Some(StateForeignKeyViolation) then ForeignKeyViolation
    else Unknown
  }

  /** IsNoRows: errors.Is(err, sql.ErrNoRows), which is exactly the no-rows kind. */
  function IsNoRows(err: Option<Err>): (b: bool)
    ensures b <==> Classify(err) == NoRows
  {
    IsErr(err, ErrNoRows)
  }

  /** IsUnique: a unique violation by MySQL number 1062 or SQLSTATE 23505. */
  function IsUnique(err: Option<Err>): (b: bool)
    ensures b ==> err.Some? && (AsMySQL(err.value) == Some(MySQLDuplicateEntry) || AsSQLState(err.value) == Some(StateUniqueViolation))
    ensures b ==> !IsNoRows(err) && !IsForeignKey(err)
  {
    Classify(err) == UniqueViolation
  }

  /** IsForeignKey: a foreign-key violation by MySQL number 1451/1452 or SQLSTATE 23503. */
  function IsForeignKey(err: Option<Err>): (b: bool)
    ensures b ==>
      (err.Some? && (AsMySQL(err.value) == Some(MySQLRowIsReferenced) ||
       AsMySQL(err.value) == Some(MySQLNoReferencedRow) || AsSQLState(err.value) == Some(StateForeignKeyViolation)))
  {
    Classify(err) == ForeignKeyViolation
  }

  /** Wrapping `e` n times with fmt.Errorf("...%w", ...), all with the same text. */
  function WrapN(msg: string, e: Err, n: nat): (r: Err)
    ensures n > 0 ==> r.Wrapped?
    ensures n == 0 ==> r == e
  {
    if n == 0 then e else Wrapped(msg, WrapN(msg, e, n - 1))
  }

  /** One level of wrapping does not change the kind. */
  lemma ClassifyWrappedOnce(msg: string, e: Err)
    ensures Classify(Some(Wrapped(msg, e))) == Classify(Some(e))
  {
  }

  /** However deeply an error is wrapped, its kind stays the same. */
  lemma {:induction false} ClassifyThroughWrapping(msg: string, e: Err, n: nat)
    ensures Classify(Some(WrapN(msg, e, n))) == Classify(Some(e))
  {
    if n > 0 {
      ClassifyThroughWrapping(msg, e, n - 1);
      ClassifyWrappedOnce(msg, WrapN(msg, e, n - 1));
    }
  }

  /** errors.Join of a single error classifies as that error. */
  lemma ClassifyJoinedOne(msg: string, e: Err)
    ensures Classify(Some(Joined(msg, [e]))) == Classify(Some(e))
  {
    var j := Joined(msg, [e]);
    assert Is(j, ErrNoRows) == Is(e, ErrNoRows) by {
      assert [e][0] == e;
    }
    assert AsMySQL(j) == AsMySQL(e) by {
      assert seq(1, i requires 0 <= i < 1 => AsMySQL([e][i])) == [AsMySQL(e)];
    }
    assert AsSQLState(j) == AsSQLState(e) by {
      assert seq(1, i requires 0 <= i < 1 => AsSQLState([e][i])) == [AsSQLState(e)];
    }
  }

  /**
   * A tree holding a MySQL error and then a SQLSTATE error: a MySQL number
   * that decides the kind wins; any other number falls through to the
   * SQLSTATE, which is why classify.go consults both.
   */
  lemma MixedDriverErrors(msg: string, number: int, m1: string, state: string, m2: string)
    ensures var k := Classify(Some(Joined(msg, [MySQL(number, m1), SQLState(state, m2)])));
      && (DecisiveMySQL(number) ==> k == Classify(Some(MySQL(number, m1))))
      && (!DecisiveMySQL(number) ==> k == Classify(Some(SQLState(state, m2))))
  {
    var errs := [MySQL(number, m1), SQLState(state, m2)];
    var j := Joined(msg, errs);
    assert !Is(j, ErrNoRows) by {
      forall i | 0 <= i < |errs| ensures !Is(errs[i], ErrNoRows) {}
    }
    assert AsMySQL(j) == Some(number) by {
      assert seq(2, i requires 0 <= i < 2 => AsMySQL(errs[i])) == [Some(number), None];
    }
    assert AsSQLState(j) == Some(state) by {
      var xs := seq(2, i requires 0 <= i < 2 => AsSQLState(errs[i]));
      assert xs == [None, Some(state)] && xs[1..] == [Some(state)];
      assert FirstSome(xs) == FirstSome(xs[1..]) == Some(state);
    }
  }

  /** MySQL error 1, which decides nothing, beside SQLSTATE 23505 is a unique violation. */
  lemma MixedDriverErrorsExample(msg: string, m1: string, m2: string)
    ensures Classify(Some(Joined(msg, [MySQL(1, m1), SQLState(StateUniqueViolation, m2)]))) == UniqueViolation
  {
    MixedDriverErrors(msg, 1, m1, StateUniqueViolation, m2);
  }

  /** The kinds of a driver's own errors: MySQL numbers and SQLSTATE codes as the table in classify.go gives them. */
  lemma DriverKinds(number: int, state: string, msg: string)
    ensures Classify(Some(MySQL(number, msg))) ==
      (if number == MySQLDuplicateEntry then UniqueViolation
       else if number == MySQLRowIsReferenced || number == MySQLNoReferencedRow then ForeignKeyViolation
       else Unknown)
    ensures Classify(Some(SQLState(state, msg))) ==
      (if state == StateUniqueViolation then UniqueViolation
       else if state == StateForeignKeyViolation then ForeignKeyViolation
       else Unknown)
  {
  }

  /** QueryOne's "no row" error, returned when the cursor ends cleanly, is classified as no-rows. */
  lemma QueryOneMissingIsNoRows<T>(scan: DbScan.Row -> DbScan.Scanned<T>)
    ensures IsNoRows(DbScan.QueryOneResult(None, [], None, scan).1)
  {
  }

  /** The error QueryOne gives for a second row is no database kind at all. */
  lemma QueryOneTooManyIsUnknown<T>(items: seq<DbScan.Row>, failure: Option<Err>, scan: DbScan.Row -> DbScan.Scanned<T>)
    requires |items| > 1 && scan(items[0]).Item?
    ensures Classify(DbScan.QueryOneResult(None, items, failure, scan).1) == Unknown
  {
  }
}
