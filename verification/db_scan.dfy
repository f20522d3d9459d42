/**
 * dbkit/scan.go: reading query results through a row cursor. The database
 * is an input: the error QueryContext returns, or a cursor over the rows the
 * query yields followed by the error (if any) that ends the iteration. The
 * scan function is an input too, a total function from a row to an item or
 * an error.
 */
module DbScan {
  import opened Wrappers
  import opened GoErrors

  /** A row of a result set, known by its contents. */
  type Row = seq<string>

  /** What the scan function returns for a row. */
  datatype Scanned<T> = Item(item: T) | ScanFailed(err: Err)

  /** sql.ErrNoRows and ErrTooManyRows. */
  const NoRows: Err := Sentinel(ErrNoRows)
  const TooManyRows: Err := Sentinel(ErrTooManyRows)

  /**
   * *sql.Rows: Next hands out the rows one by one; once it has returned
   * false, Err reports the error that ended the iteration. Close marks the
   * cursor closed.
   */
  class Rows {
    const items: seq<Row>
    const failure: Option<Err>
    var pos: nat
    var done: bool
    var closed: bool

    predicate Valid()
      reads this
    {
      pos <= |items| && (done ==> pos == |items|)
    }

    /** A fresh cursor over `items`, ending with `failure`. */
    constructor(items: seq<Row>, failure: Option<Err>)
      ensures this.items == items && this.failure == failure
      ensures Valid() && pos == 0 && !done && !closed
    {
      this.items := items;
      this.failure := failure;
      pos := 0;
      done := false;
      closed := false;
    }

    /** A cursor nobody has stepped yet. */
    predicate Fresh()
      reads this
    {
      Valid() && pos == 0 && !done && !closed
    }

    /** rows.Next(): true and one row further while rows remain; false, and done, at the end. */
    method Next() returns (more: bool)
      requires Valid()
      modifies this
      ensures Valid() && closed == old(closed)
      ensures more <==> old(pos) < |items|
      ensures more ==> pos == old(pos) + 1 && done == old(done)
      ensures !more ==> pos == old(pos) && done
    {
      if pos < |items| {
        pos := pos + 1;
        return true;
      }
      done := true;
      return false;
    }

    /** The row Next last moved to. */
    function Current(): (row: Row)
      reads this
      requires Valid() && pos > 0
      ensures row in items
    {
      items[pos - 1]
    }

    /** rows.Err(): the error that ended the iteration, nil while it has not ended. */
    function Err(): (e: Option<Err>)
      reads this
      ensures !done ==> e.None?
      ensures done ==> e == failure
    {
      if done then failure else None
    }

    /** rows.Close() */
    method Close()
      modifies this
      ensures closed && pos == old(pos) && done == old(done)
    {
      closed := true;
    }
  }

  /** Scanning rows in order: the items, or the first scan error and nothing. */
  function ScannedAll<T>(items: seq<Row>, scan: Row -> Scanned<T>): (r: (seq<T>, Option<Err>))
    ensures r.1.None? ==> |r.0| == |items|
    ensures r.1.Some? ==> r.0 == []
    decreases |items|
  {
    if items == [] then ([], None)
    else
      var (prev, e) := ScannedAll(items[..|items| - 1], scan);
      if e.Some? then ([], e)
      else match scan(items[|items| - 1])
        case Item(x) => (prev + [x], None)
        case ScanFailed(err) => ([], Some(err))
  }

  /**
   * What QueryAll returns: the query's error; else the first scan error;
   * else the cursor's error; else every scanned item.
   */
  function QueryAllResult<T>(queryErr: Option<Err>, items: seq<Row>, failure: Option<Err>, scan: Row -> Scanned<T>): (r: (seq<T>, Option<Err>))
    ensures r.1.Some? ==> r.0 == []
    ensures queryErr.Some? ==> r == ([], queryErr)
  {
    if queryErr.Some? then ([], queryErr)
    else
      var (out, e) := ScannedAll(items, scan);
      if e.Some? then ([], e)
      else if failure.Some? then ([], failure)
      else (out, None)
  }

  /** QueryAll: steps the cursor to the end, scanning and appending each row; the cursor is closed afterwards. */
  method QueryAll<T>(queryErr: Option<Err>, rows: Rows, scan: Row -> Scanned<T>) returns (out: seq<T>, err: Option<Err>)
    requires rows.Fresh()
    modifies rows
    ensures (out, err) == QueryAllResult(queryErr, rows.items, rows.failure, scan)
    ensures queryErr.None? ==> rows.closed
  {
    if queryErr.Some? {
      return [], queryErr;
    }
    out := [];
    while true
      invariant rows.Valid() && !rows.closed
      invariant ScannedAll(rows.items[..rows.pos], scan) == (out, None)
      invariant rows.done ==> rows.pos == |rows.items|
      decreases |rows.items| - rows.pos, if rows.done then 0 else 1
    {
      var more := rows.Next();
      if !more {
        break;
      }
      var row := rows.Current();
      assert rows.items[..rows.pos][..rows.pos - 1] == rows.items[..rows.pos - 1];
      var scanned := scan(row);
      if scanned.ScanFailed? {
        rows.Close();
        ScannedAllFailed(rows.items, rows.pos, scan);
        return [], Some(scanned.err);
      }
      out := out + [scanned.item];
    }
    assert rows.items[..rows.pos] == rows.items;
    err := rows.Err();
    rows.Close();
    if err.Some? {
      out := [];
    }
  }

  /** A scan error at a row ends the whole scan with that error. */
  lemma {:induction false} ScannedAllFailed<T>(items: seq<Row>, k: nat, scan: Row -> Scanned<T>)
    requires 0 < k <= |items|
    requires ScannedAll(items[..k - 1], scan).1.None? && scan(items[k - 1]).ScanFailed?
    ensures ScannedAll(items, scan) == ([], Some(scan(items[k - 1]).err))
    decreases |items|
  {
    assert items[..k][..k - 1] == items[..k - 1];
    if k < |items| {
      var init := items[..|items| - 1];
      assert init[..k - 1] == items[..k - 1] && init[k - 1] == items[k - 1];
      ScannedAllFailed(init, k, scan);
    }
  }

  /** A successful scan has one item per row, in row order. */
  lemma {:induction false} ScannedAllInOrder<T>(items: seq<Row>, scan: Row -> Scanned<T>)
    requires ScannedAll(items, scan).1.None?
    ensures forall i :: 0 <= i < |items| ==> scan(items[i]) == Item(ScannedAll(items, scan).0[i])
    decreases |items|
  {
    if items != [] {
      var init := items[..|items| - 1];
      ScannedAllInOrder(init, scan);
      forall i | 0 <= i < |items|
        ensures scan(items[i]) == Item(ScannedAll(items, scan).0[i])
      {
        if i < |items| - 1 {
          assert items[i] == init[i];
        }
      }
    }
  }

  /** Where no row fails to scan, the scan succeeds. */
  lemma {:induction false} ScannedAllSucceeds<T>(items: seq<Row>, scan: Row -> Scanned<T>)
    requires forall i :: 0 <= i < |items| ==> scan(items[i]).Item?
    ensures ScannedAll(items, scan).1.None?
    decreases |items|
  {
    if items != [] {
      var init := items[..|items| - 1];
      assert forall i :: 0 <= i < |init| ==> init[i] == items[i];
      ScannedAllSucceeds(init, scan);
    }
  }

  /** QueryAll's result: one item per row in row order, unless a scan, the cursor or the query failed. */
  lemma QueryAllRowOrder<T>(items: seq<Row>, failure: Option<Err>, scan: Row -> Scanned<T>)
    requires forall i :: 0 <= i < |items| ==> scan(items[i]).Item?
    ensures failure.None? ==> var (out, err) := QueryAllResult(None, items, failure, scan);
      err.None? && |out| == |items| && forall i :: 0 <= i < |items| ==> scan(items[i]) == Item(out[i])
    ensures failure.Some? ==> QueryAllResult(None, items, failure, scan) == ([], failure)
  {
    ScannedAllSucceeds(items, scan);
    ScannedAllInOrder(items, scan);
  }

  /** The first row that fails to scan decides QueryAll's error, whatever the cursor reports. */
  lemma FirstScanErrorWins<T>(items: seq<Row>, failure: Option<Err>, scan: Row -> Scanned<T>, k: nat)
    requires k < |items| && scan(items[k]).ScanFailed?
    requires forall i :: 0 <= i < k ==> scan(items[i]).Item?
    ensures QueryAllResult(None, items, failure, scan) == ([], Some(scan(items[k]).err))
  {
    assert forall i :: 0 <= i < |items[..k]| ==> items[..k][i] == items[i];
    ScannedAllSucceeds(items[..k], scan);
    ScannedAllFailed(items, k + 1, scan);
  }

  /**
   * What QueryOne returns: the query's error; with no row the cursor's error
   * or ErrNoRows; otherwise the first row's scan error; a second row is
   * ErrTooManyRows; else the cursor's error or the one item.
   */
  function QueryOneResult<T>(queryErr: Option<Err>, items: seq<Row>, failure: Option<Err>, scan: Row -> Scanned<T>): (r: (Option<T>, Option<Err>))
    ensures r.0.Some? <==> r.1.None?
    ensures queryErr.Some? ==> r.1 == queryErr
    ensures queryErr.None? && |items| == 0 ==> r.1 == Some(failure.GetOr(NoRows))
    ensures queryErr.None? && |items| > 0 && scan(items[0]).ScanFailed? ==> r.1 == Some(scan(items[0]).err)
    ensures queryErr.None? && |items| > 1 && scan(items[0]).Item? ==> r.1 == Some(TooManyRows)
    ensures queryErr.None? && |items| == 1 && scan(items[0]).Item? ==>
      (if failure.Some? then r.1 == failure else r.0 == Some(scan(items[0]).item))
  {
    if queryErr.Some? then (None, queryErr)
    else if |items| == 0 then (None, Some(failure.GetOr(NoRows)))
    else match scan(items[0])
      case ScanFailed(e) => (None, Some(e))
      case Item(x) =>
        if |items| > 1 then (None, Some(TooManyRows))
        else if failure.Some? then (None, failure)
        else (Some(x), None)
  }

  /** QueryOne: one step for the row, a scan, and a second step to rule out another row; the cursor is closed afterwards. */
  method QueryOne<T>(queryErr: Option<Err>, rows: Rows, scan: Row -> Scanned<T>) returns (item: Option<T>, err: Option<Err>)
    requires rows.Fresh()
    modifies rows
    ensures (item, err) == QueryOneResult(queryErr, rows.items, rows.failure, scan)
    ensures queryErr.None? ==> rows.closed
  {
    if queryErr.Some? {
      return None, queryErr;
    }
    var more := rows.Next();
    if !more {
      err := rows.Err();
      rows.Close();
      if err.Some? {
        return None, err;
      }
      return None, Some(NoRows);
    }
    var scanned := scan(rows.Current());
    if scanned.ScanFailed? {
      rows.Close();
      return None, Some(scanned.err);
    }
    more := rows.Next();
    if more {
      rows.Close();
      return None, Some(TooManyRows);
    }
    err := rows.Err();
    rows.Close();
    if err.Some? {
      return None, err;
    }
    return Some(scanned.item), None;
  }

  /** Whenever QueryOne succeeds, QueryAll over the same rows returns exactly that one item. */
  lemma QueryOneIsQueryAllOfOne<T>(queryErr: Option<Err>, items: seq<Row>, failure: Option<Err>, scan: Row -> Scanned<T>)
    ensures var (item, err) := QueryOneResult(queryErr, items, failure, scan);
      err.None? ==> QueryAllResult(queryErr, items, failure, scan) == ([item.value], None)
    ensures |items| == 1 ==> (QueryOneResult(queryErr, items, failure, scan).1.None? <==>
      QueryAllResult(queryErr, items, failure, scan).1.None?)
  {
    if queryErr.None? && |items| == 1 {
      assert items[..|items| - 1] == [];
      assert ScannedAll(items[..|items| - 1], scan) == ([], None);
      match scan(items[0])
      case Item(x) =>
        assert items[|items| - 1] == items[0];
        var none: seq<T> := [];
        assert none + [x] == [x];
        assert ScannedAll(items, scan) == ([x], None);
      case ScanFailed(e) =>
    }
  }

  /** Exists: whether the cursor yields a first row; the cursor's error counts only when there is none. */
  method Exists(queryErr: Option<Err>, rows: Rows) returns (exists_: bool, err: Option<Err>)
    requires rows.Fresh()
    modifies rows
    ensures queryErr.Some? ==> !exists_ && err == queryErr
    ensures queryErr.None? ==> (exists_ <==> |rows.items| > 0)
    ensures queryErr.None? ==> (err.Some? <==> |rows.items| == 0 && rows.failure.Some?)
    ensures err.Some? ==> !exists_
    ensures queryErr.None? && err.Some? ==> err == rows.failure
    ensures queryErr.None? ==> rows.closed
  {
    if queryErr.Some? {
      return false, queryErr;
    }
    var found := rows.Next();
    err := rows.Err();
    rows.Close();
    if err.Some? {
      return false, err;
    }
    return found, None;
  }
}
