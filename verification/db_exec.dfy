/**
 * dbkit/exec.go: running a statement and checking how many rows it
 * touched. The database call is an input: the error ExecContext returns,
 * or the result of RowsAffected.
 */
module DbExec {
  import opened Wrappers
  import opened GoStrings
  import opened GoErrors

  /** What RowsAffected returned: a count or an error. */
  datatype Affected = Count(n: int) | CountFailed(err: Err)

  /** ExecContext's outcome: its error, or a result whose RowsAffected gives `affected`. */
  datatype ExecOutcome = ExecFailed(err: Err) | Executed(affected: Affected)

  /** The error an outcome carries, if any. */
  function OutcomeErr(o: ExecOutcome): Option<Err> {
    match o
    case ExecFailed(e) => Some(e)
    case Executed(CountFailed(e)) => Some(e)
    case Executed(Count(_)) => None
  }

  /** ExecAffected: either error gives (0, err); otherwise the count and no error. */
  function ExecAffected(o: ExecOutcome): (r: (int, Option<Err>))
    ensures r.1 == OutcomeErr(o)
    ensures r.1.Some? ==> r.0 == 0
    ensures r.1.None? ==> r.0 == o.affected.n
  {
    match o
    case ExecFailed(e) => (0, Some(e))
    case Executed(CountFailed(e)) => (0, Some(e))
    case Executed(Count(n)) => (n, None)
  }

  /** ExecOne: nil exactly for one affected row; any other count is RowsAffectedError{1, n}. */
  function ExecOne(o: ExecOutcome): (err: Option<Err>)
    ensures err.None? <==> OutcomeErr(o).None? && o.affected.n == 1
    ensures OutcomeErr(o).Some? ==> err == OutcomeErr(o)
    ensures OutcomeErr(o).None? && o.affected.n != 1 ==> err == Some(RowsAffected(1, o.affected.n))
  {
    var (n, e) := ExecAffected(o);
    if e.Some? then e
    else if n == 1 then None
    else Some(RowsAffected(1, n))
  }

  /** ExecAtMostOne: 0 rows is (false, nil), 1 row (true, nil), any other count (false, RowsAffectedError{1, n}). */
  function ExecAtMostOne(o: ExecOutcome): (r: (bool, Option<Err>))
    ensures r.0 <==> OutcomeErr(o).None? && o.affected.n == 1
    ensures r.1.None? <==> OutcomeErr(o).None? && (o.affected.n == 0 || o.affected.n == 1)
    ensures OutcomeErr(o).Some? ==> r.1 == OutcomeErr(o)
    ensures OutcomeErr(o).None? && o.affected.n != 0 && o.affected.n != 1 ==> r.1 == Some(RowsAffected(1, o.affected.n))
  {
    var (n, e) := ExecAffected(o);
    if e.Some? then (false, e)
    else if n == 0 then (false, None)
    else if n == 1 then (true, None)
    else (false, Some(RowsAffected(1, n)))
  }

  /** ExecAtMostOne accepts everything ExecOne accepts, and reports true exactly then. */
  lemma AtMostOneWeakerThanOne(o: ExecOutcome)
    ensures ExecOne(o).None? ==> ExecAtMostOne(o) == (true, None)
    ensures ExecAtMostOne(o).1.Some? ==> ExecOne(o) == ExecAtMostOne(o).1
  {
  }

  /** The prefix of a RowsAffectedError's text. */
  const RowsAffectedPrefix := "dbkit: expected rows affected "

  /**
   * RowsAffectedError.Error(): the prefix, the expected count, ", got " and
   * the actual count, so that splitting the text at its one comma gives the
   * two counts back.
   */
  lemma RowsAffectedTextParts(expected: nat, actual: nat)
    ensures var parts := Split(Message(RowsAffected(expected, actual)), ',');
      parts == [RowsAffectedPrefix + NatToDecimal(expected), " got " + NatToDecimal(actual)]
    ensures DecimalValue(NatToDecimal(expected)) == expected && DecimalValue(NatToDecimal(actual)) == actual
  {
    var e := NatToDecimal(expected);
    var a := NatToDecimal(actual);
    NoCommaInDigits(e);
    NoCommaInDigits(a);
    NoCommaInPrefix(e);
    RowsAffectedJoint(e, a);
    assert Message(RowsAffected(expected, actual)) == (RowsAffectedPrefix + e) + [','] + (" got " + a);
    SplitAround(RowsAffectedPrefix + e, " got " + a, ',');
    SplitNoSeparator(" got " + a, ',');
    DecimalRoundTrip(expected);
    DecimalRoundTrip(actual);
  }

  /** The text around the comma: ", got " is the comma followed by " got ", which holds no comma. */
  lemma RowsAffectedJoint(e: string, a: string)
    requires ',' !in a
    ensures RowsAffectedPrefix + e + ", got " + a == (RowsAffectedPrefix + e) + [','] + (" got " + a)
    ensures ',' !in " got " + a
  {
    assert ", got " == [','] + " got ";
    assert " got " + a == [' ', 'g', 'o', 't', ' '] + a;
  }

  /** Decimal digits hold no comma. */
  lemma NoCommaInDigits(d: string)
    requires forall i :: 0 <= i < |d| ==> IsDigit(d[i])
    ensures ',' !in d
  {
    forall i | 0 <= i < |d|
      ensures d[i] != ','
    {
      assert IsDigit(d[i]);
    }
  }

  /** The prefix followed by digits holds no comma. */
  lemma NoCommaInPrefix(d: string)
    requires ',' !in d
    ensures ',' !in RowsAffectedPrefix + d
  {
    assert forall i :: 0 <= i < |RowsAffectedPrefix| ==> RowsAffectedPrefix[i] != ',';
  }
}
