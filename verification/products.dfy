/**
  The product listing endpoint: one query, then one scan per returned row;
  rows whose scan fails are skipped and the names of the others collected.
 */
module Products {
  import opened Http

  /** Outcome of `rows.Scan(&name)` on one row. */
  datatype Scan = Scanned(name: string) | ScanFailed(error: string)

  /** Outcome of `db.Query`: an error, or the rows it returned in order. */
  datatype Query = QueryFailed(error: string) | Rows(rows: seq<Scan>)

  const DbErrorMessage: string := "DB error"

  /** Reference definition: the names of the successfully scanned rows, in row order. */
  function ScannedNames(rows: seq<Scan>): seq<string>
  {
    if rows == [] then []
    else (if rows[0].Scanned? then [rows[0].name] else []) + ScannedNames(rows[1..])
  }

  /** The row loop: `products` starts as a nil slice and each successful
      scan appends its name; a failed scan only `continue`s. */
  function Collect(rows: seq<Scan>): (products: StringSlice)
    ensures products.Nil? <==> forall i :: 0 <= i < |rows| ==> rows[i].ScanFailed?
    ensures products.Slice? ==> 0 < |products.elems|
    ensures |products.Elements()| <= |rows|
  {
    if rows == [] then Nil
    else
      var before := Collect(rows[..|rows| - 1]);
      assert forall i :: 0 <= i < |rows| - 1 ==> rows[..|rows| - 1][i] == rows[i];
      match rows[|rows| - 1]
      case Scanned(name) => before.Append(name)
      case ScanFailed(_) => before
  }

  /** Indices of the successfully scanned rows, ascending. */
  function ScannedIndices(rows: seq<Scan>): seq<nat>
  {
    if rows == [] then []
    else
      ScannedIndices(rows[..|rows| - 1])
        + (if rows[|rows| - 1].Scanned? then [|rows| - 1] else [])
  }

  lemma {:induction false} ScannedNamesConcat(a: seq<Scan>, b: seq<Scan>)
    ensures ScannedNames(a + b) == ScannedNames(a) + ScannedNames(b)
  {
    if a == [] {
      assert a + b == b;
    } else {
      assert (a + b)[0] == a[0];
      assert (a + b)[1..] == a[1..] + b;
      ScannedNamesConcat(a[1..], b);
    }
  }

  /** A failed scan in the middle neither aborts the loop nor leaves a trace:
      the rows on both sides contribute exactly as they would alone. */
  lemma FailedScanSkipped(a: seq<Scan>, e: string, b: seq<Scan>)
    ensures ScannedNames(a + [ScanFailed(e)] + b) == ScannedNames(a) + ScannedNames(b)
  {
    var failed := [ScanFailed(e)];
    assert failed[1..] == [];
    assert ScannedNames(failed) == [] + ScannedNames(failed[1..]);
    ScannedNamesConcat(a + failed, b);
    ScannedNamesConcat(a, failed);
  }

  /** The loop collects exactly the reference list of names. */
  lemma {:induction false} CollectIsFilter(rows: seq<Scan>)
    ensures Collect(rows).Elements() == ScannedNames(rows)
  {
    if rows != [] {
      var init := rows[..|rows| - 1];
      var last := rows[|rows| - 1];
      CollectIsFilter(init);
      assert init + [last] == rows;
      ScannedNamesConcat(init, [last]);
      assert [last][1..] == [];
    }
  }

  /** `idx` picks out, in strictly ascending order, exactly the rows that
      scanned, and `names[k]` is the name scanned from row `idx[k]`. */
  ghost predicate SelectsScanned(rows: seq<Scan>, idx: seq<nat>, names: seq<string>)
  {
    && |idx| == |names|
    && (forall k :: 0 <= k < |idx| ==>
          idx[k] < |rows| && rows[idx[k]].Scanned? && rows[idx[k]].name == names[k])
    && (forall k, l :: 0 <= k < l < |idx| ==> idx[k] < idx[l])
    && (forall i :: 0 <= i < |rows| && rows[i].Scanned? ==> i in idx)
  }

  /** Appending one row extends a selection by that row's index and name
      when it scanned, and leaves it as it was otherwise. */
  lemma SelectsScannedSnoc(rows: seq<Scan>, idx: seq<nat>, names: seq<string>, last: Scan)
    requires SelectsScanned(rows, idx, names)
    ensures last.Scanned? ==> SelectsScanned(rows + [last], idx + [|rows|], names + [last.name])
    ensures last.ScanFailed? ==> SelectsScanned(rows + [last], idx, names)
  {
  }

  /** The collected names form the in-order subsequence of the rows that scanned. */
  lemma {:induction false} CollectIsOrderedSelection(rows: seq<Scan>)
    ensures SelectsScanned(rows, ScannedIndices(rows), Collect(rows).Elements())
  {
    if rows != [] {
      var n := |rows| - 1;
      var init, last := rows[..n], rows[n];
      CollectIsOrderedSelection(init);
      var idx0, names0 := ScannedIndices(init), Collect(init).Elements();
      assert init + [last] == rows;
      SelectsScannedSnoc(init, idx0, names0, last);
      if last.Scanned? {
        assert ScannedIndices(rows) == idx0 + [n];
        assert Collect(rows).Elements() == names0 + [last.name];
      } else {
        assert ScannedIndices(rows) == idx0;
        assert Collect(rows).Elements() == names0;
      }
    }
  }

  /** The scanned names are never more than the rows, and none at all exactly
      when every scan failed. */
  lemma ScannedNamesBounds(rows: seq<Scan>)
    ensures |ScannedNames(rows)| <= |rows|
    ensures ScannedNames(rows) == [] <==> forall i :: 0 <= i < |rows| ==> rows[i].ScanFailed?
  {
  }

  /** `productsHandler`: a failed query gives 500 "DB error"; otherwise 200
      and the collected slice, which is nil (JSON `null`) when no row scanned. */
  function ProductsHandler(q: Query): (r: Response)
    ensures q.QueryFailed? ==> r == Response(StatusInternalServerError, Text(DbErrorMessage))
    ensures q.Rows? ==> r.code == StatusOK && r.body.NamesJson?
    ensures q.Rows? ==> r.body.names.Elements() == ScannedNames(q.rows)
    ensures q.Rows? ==> (r.body.names.Nil? <==> ScannedNames(q.rows) == [])
  {
    match q
    case QueryFailed(_) => Response(StatusInternalServerError, Text(DbErrorMessage))
    case Rows(rows) =>
      CollectIsFilter(rows);
      ScannedNamesBounds(rows);
      Response(StatusOK, NamesJson(Collect(rows)))
  }

  /** The query's error text never reaches the response. */
  lemma QueryErrorHidden(e: string, e': string)
    ensures ProductsHandler(QueryFailed(e)) == ProductsHandler(QueryFailed(e'))
  {
  }
}
