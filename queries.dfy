/**
 * The two views the server derives from `readData`'s records:
 * `GET /api/data/:investmentName` keeps the records of one investment, and
 * `GET /api/investments` lists every investment name once.
 */
module Queries {
  import opened Wrappers
  import opened Collections
  import opened Ledger

  /** `data.filter(item => item.investmentName === name)`: a record whose name is
      `undefined` never matches, since the route parameter is always a string. */
  function FilterByName(rows: seq<Row>, name: string): (r: seq<Row>)
    ensures |r| <= |rows|
    ensures forall i :: 0 <= i < |r| ==> r[i].investmentName == Some(name)
    decreases |rows|
  {
    if |rows| == 0 then []
    else
      var last := rows[|rows| - 1];
      FilterByName(rows[..|rows| - 1], name) + (if last.investmentName == Some(name) then [last] else [])
  }

  /** `data.map(item => item.investmentName)`. */
  function Names(rows: seq<Row>): (r: seq<Option<string>>)
    ensures |r| == |rows|
    ensures forall i :: 0 <= i < |rows| ==> r[i] == rows[i].investmentName
  {
    seq(|rows|, i requires 0 <= i < |rows| => rows[i].investmentName)
  }

  /** `[...new Set(data.map(item => item.investmentName))]`. */
  function Investments(rows: seq<Row>): (r: seq<Option<string>>)
    ensures NoDuplicates(r)
    ensures forall x :: x in r <==> x in Names(rows)
  {
    Distinct(Names(rows))
  }

  /** The per-name query returns exactly the records with that name, as many times
      as they occur. */
  lemma {:induction false} FilterByNameExact(rows: seq<Row>, name: string)
    ensures forall x :: multiset(FilterByName(rows, name))[x] ==
              if x.investmentName == Some(name) then multiset(rows)[x] else 0
    ensures forall x :: x in FilterByName(rows, name) <==> x in rows && x.investmentName == Some(name)
    decreases |rows|
  {
    if |rows| > 0 {
      var init := rows[..|rows| - 1];
      FilterByNameExact(init, name);
      assert rows == init + [rows[|rows| - 1]];
    }
  }

  /** Filtering distributes over concatenation, so the per-name query keeps the
      records in their file order. */
  lemma {:induction false} FilterByNameAppend(a: seq<Row>, b: seq<Row>, name: string)
    ensures FilterByName(a + b, name) == FilterByName(a, name) + FilterByName(b, name)
    decreases |b|
  {
    if |b| > 0 {
      var ab := a + b;
      assert ab[..|ab| - 1] == a + b[..|b| - 1];
      FilterByNameAppend(a, b[..|b| - 1], name);
    } else {
      assert a + b == a;
    }
  }

  /** Asking twice gives the same answer. */
  lemma {:induction false} FilterByNameIdempotent(rows: seq<Row>, name: string)
    ensures FilterByName(FilterByName(rows, name), name) == FilterByName(rows, name)
    decreases |rows|
  {
    if |rows| > 0 {
      var init, last := rows[..|rows| - 1], rows[|rows| - 1];
      FilterByNameIdempotent(init, name);
      var tail := if last.investmentName == Some(name) then [last] else [];
      FilterByNameAppend(FilterByName(init, name), tail, name);
      if tail != [] {
        assert ([] + tail)[..0] == [];
      }
    }
  }

  /** The investments list holds every name that occurs in the data, each exactly
      once, in order of first appearance. */
  lemma InvestmentsSpec(rows: seq<Row>)
    ensures forall n :: n in Investments(rows) <==> n in Names(rows)
    ensures forall n :: n in Investments(rows) <==> exists i :: 0 <= i < |rows| && rows[i].investmentName == n
    ensures NoDuplicates(Investments(rows))
    ensures forall i, j :: 0 <= i < j < |Investments(rows)| ==>
              FirstIndex(Names(rows), Investments(rows)[i]) < FirstIndex(Names(rows), Investments(rows)[j])
  {
    var ns := Names(rows);
    DistinctSpec(ns);
    forall n ensures n in ns <==> exists i :: 0 <= i < |rows| && rows[i].investmentName == n {
      if n in ns {
        var i :| 0 <= i < |ns| && ns[i] == n;
        assert rows[i].investmentName == n;
      }
    }
  }

  /** Saving one more snapshot adds its record to its own investment's history and
      leaves every other investment's history as it was. */
  lemma FilterAfterSave(rows: seq<Row>, s: Snapshot, name: string)
    ensures FilterByName(rows + [ToRow(s)], name) ==
              if s.investmentName == name then FilterByName(rows, name) + [ToRow(s)] else FilterByName(rows, name)
  {
    assert (rows + [ToRow(s)])[..|rows|] == rows;
  }

  /** Saving a snapshot adds its name to the investments list only when the name is
      new, and then at the end. */
  lemma InvestmentsAfterSave(rows: seq<Row>, s: Snapshot)
    ensures Investments(rows + [ToRow(s)]) ==
              if Some(s.investmentName) in Investments(rows) then Investments(rows)
              else Investments(rows) + [Some(s.investmentName)]
  {
    var rows' := rows + [ToRow(s)];
    assert Names(rows')[..|rows|] == Names(rows);
  }
}
