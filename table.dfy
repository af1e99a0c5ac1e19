/**
 * `updateTable` of app.js: the records are sorted newest first, in place, and shown
 * one row each; the first row of every investment carries its action, an Update
 * button or, for CUSTOM investments, a dash.
 */
module Table {
  import opened History

  /** What the Actions cell of a row holds. */
  datatype Action = UpdateButton | Dash | NoAction

  /** A rendered table row: the single "No data available" row, or a record. */
  datatype TableRow = NoDataRow | DataRow(entry: Entry, action: Action)

  // ----- Sorting: `data.sort((a, b) => b.timestamp - a.timestamp)` -----

  /** Newest first. */
  predicate SortedDescending(s: seq<Entry>) {
    forall i, j :: 0 <= i < j < |s| ==> s[i].timestamp >= s[j].timestamp
  }

  /** Places `x` before the first element that is not strictly newer than it, so
      that `x` stays ahead of the entries with its timestamp. */
  function Insert(x: Entry, r: seq<Entry>): seq<Entry>
    decreases |r|
  {
    if |r| == 0 || r[0].timestamp <= x.timestamp then [x] + r
    else [r[0]] + Insert(x, r[1..])
  }

  /** The array sort is stable, so this insertion sort gives the same order. */
  function SortDescending(s: seq<Entry>): (r: seq<Entry>)
    ensures |r| == |s| && multiset(r) == multiset(s)
    decreases |s|
  {
    if |s| == 0 then []
    else
      var rest := SortDescending(s[1..]);
      InsertPermutes(s[0], rest);
      assert s == [s[0]] + s[1..];
      var r := Insert(s[0], rest);
      assert |r| == |multiset(r)|;
      r
  }

  /** The entries of `s` with timestamp `t`, in order. */
  function WithTimestamp(s: seq<Entry>, t: int): seq<Entry>
    decreases |s|
  {
    if |s| == 0 then []
    else (if s[0].timestamp == t then [s[0]] else []) + WithTimestamp(s[1..], t)
  }

  /** Inserting adds exactly `x`. */
  lemma {:induction false} InsertPermutes(x: Entry, r: seq<Entry>)
    ensures multiset(Insert(x, r)) == multiset(r) + multiset{x}
    decreases |r|
  {
    if |r| > 0 && r[0].timestamp > x.timestamp {
      InsertPermutes(x, r[1..]);
      assert r == [r[0]] + r[1..];
    }
  }

  /** Inserting into a sorted sequence keeps it sorted. */
  lemma {:induction false} InsertSorted(x: Entry, r: seq<Entry>)
    requires SortedDescending(r)
    ensures SortedDescending(Insert(x, r))
    decreases |r|
  {
    if |r| > 0 && r[0].timestamp > x.timestamp {
      InsertSorted(x, r[1..]);
      InsertPermutes(x, r[1..]);
      InsertHeadNewest(x, r);
    }
  }

  /** `x` goes in front of the entries with its own timestamp, and the others of
      each timestamp keep their order. */
  lemma {:induction false} InsertStable(x: Entry, r: seq<Entry>, t: int)
    ensures WithTimestamp(Insert(x, r), t) == (if x.timestamp == t then [x] else []) + WithTimestamp(r, t)
    decreases |r|
  {
    var mine := if x.timestamp == t then [x] else [];
    if |r| == 0 || r[0].timestamp <= x.timestamp {
      assert Insert(x, r) == [x] + r;
      assert ([x] + r)[0] == x && ([x] + r)[1..] == r;
    } else {
      var rest := Insert(x, r[1..]);
      var head := if r[0].timestamp == t then [r[0]] else [];
      assert Insert(x, r) == [r[0]] + rest;
      InsertStable(x, r[1..], t);
      assert ([r[0]] + rest)[0] == r[0] && ([r[0]] + rest)[1..] == rest;
      assert WithTimestamp([r[0]] + rest, t) == head + WithTimestamp(rest, t);
      assert WithTimestamp(r, t) == head + WithTimestamp(r[1..], t);
      assert head == [] || mine == [];
    }
  }

  /** When `r[0]` is newer than `x`, the insertion keeps it at the front of a sorted
      sequence. */
  lemma InsertHeadNewest(x: Entry, r: seq<Entry>)
    requires SortedDescending(r) && |r| > 0 && r[0].timestamp > x.timestamp
    requires SortedDescending(Insert(x, r[1..]))
    requires multiset(Insert(x, r[1..])) == multiset(r[1..]) + multiset{x}
    ensures SortedDescending([r[0]] + Insert(x, r[1..]))
  {
    var rest := Insert(x, r[1..]);
    forall j | 0 <= j < |rest|
      ensures r[0].timestamp >= rest[j].timestamp
    {
      assert rest[j] in multiset(rest);
      if rest[j] != x {
        assert rest[j] in multiset(r[1..]);
        var k :| 0 <= k < |r[1..]| && r[1..][k] == rest[j];
        assert r[k + 1] == rest[j];
      }
    }
  }

  /** The table order: newest first, a permutation of the input, and entries with
      equal timestamps keep their input order. */
  lemma SortDescendingSpec(s: seq<Entry>)
    ensures SortedDescending(SortDescending(s))
    ensures multiset(SortDescending(s)) == multiset(s)
    ensures forall t :: WithTimestamp(SortDescending(s), t) == WithTimestamp(s, t)
  {
    SortSorted(s);
    forall t ensures WithTimestamp(SortDescending(s), t) == WithTimestamp(s, t) {
      SortStable(s, t);
    }
  }

  lemma {:induction false} SortSorted(s: seq<Entry>)
    ensures SortedDescending(SortDescending(s))
    decreases |s|
  {
    if |s| > 0 {
      SortSorted(s[1..]);
      InsertSorted(s[0], SortDescending(s[1..]));
    }
  }

  lemma {:induction false} SortStable(s: seq<Entry>, t: int)
    ensures WithTimestamp(SortDescending(s), t) == WithTimestamp(s, t)
    decreases |s|
  {
    if |s| > 0 {
      SortStable(s[1..], t);
      InsertStable(s[0], SortDescending(s[1..]), t);
      assert WithTimestamp(s, t) == (if s[0].timestamp == t then [s[0]] else []) + WithTimestamp(s[1..], t);
    }
  }

  // ----- The rows -----

  /** `s[i]` is the first entry of its investment. */
  predicate FirstOfName(s: seq<Entry>, i: int)
    requires 0 <= i < |s|
  {
    forall j :: 0 <= j < i ==> s[j].investmentName != s[i].investmentName
  }

  /** The Actions cell of row `i`: only the first row of an investment has one. */
  function ActionAt(s: seq<Entry>, i: int): (a: Action)
    requires 0 <= i < |s|
    ensures a != NoAction <==> forall j :: 0 <= j < i ==> s[j].investmentName != s[i].investmentName
    ensures a == Dash ==> s[i].investmentType == "CUSTOM"
    ensures a == UpdateButton ==> s[i].investmentType != "CUSTOM"
  {
    if !FirstOfName(s, i) then NoAction
    else if s[i].investmentType == "CUSTOM" then Dash
    else UpdateButton
  }

  /** The rendered table for the records `data`. */
  function Rendered(data: seq<Entry>): (rows: seq<TableRow>)
    ensures |data| == 0 ==> rows == [NoDataRow]
    ensures |data| > 0 ==> |rows| == |data| && forall i :: 0 <= i < |rows| ==> rows[i].DataRow?
  {
    if |data| == 0 then [NoDataRow]
    else
      var sorted := SortDescending(data);
      seq(|sorted|, i requires 0 <= i < |sorted| => DataRow(sorted[i], ActionAt(sorted, i)))
  }

  /** Some row before `i` belongs to investment `n`. */
  predicate SeenBefore(s: seq<Entry>, i: int, n: string)
    requires 0 <= i <= |s|
  {
    exists k :: 0 <= k < i && s[k].investmentName == n
  }

  lemma SeenStep(s: seq<Entry>, i: int)
    requires 0 <= i < |s|
    ensures FirstOfName(s, i) <==> !SeenBefore(s, i, s[i].investmentName)
    ensures forall n :: SeenBefore(s, i + 1, n) <==> SeenBefore(s, i, n) || s[i].investmentName == n
  {
    forall n ensures SeenBefore(s, i + 1, n) <==> SeenBefore(s, i, n) || s[i].investmentName == n {
      if SeenBefore(s, i + 1, n) && !SeenBefore(s, i, n) {
        var k :| 0 <= k < i + 1 && s[k].investmentName == n;
      }
    }
  }

  /** Builds the rows of an already sorted table, tracking in a set the investments
      that have had their action placed. */
  method TableRows(sorted: seq<Entry>) returns (rows: seq<TableRow>)
    ensures |rows| == |sorted|
    ensures forall i :: 0 <= i < |sorted| ==> rows[i] == DataRow(sorted[i], ActionAt(sorted, i))
  {
    var updatedInvestments: set<string> := {};
    rows := [];
    for i := 0 to |sorted|
      invariant |rows| == i
      invariant forall k :: 0 <= k < i ==> rows[k] == DataRow(sorted[k], ActionAt(sorted, k))
      invariant forall n :: n in updatedInvestments <==> SeenBefore(sorted, i, n)
    {
      var item := sorted[i];
      SeenStep(sorted, i);
      var action := NoAction;
      if item.investmentName !in updatedInvestments && item.investmentType != "CUSTOM" {
        action := UpdateButton;
        updatedInvestments := updatedInvestments + {item.investmentName};
      } else if item.investmentType == "CUSTOM" && item.investmentName !in updatedInvestments {
        action := Dash;
        updatedInvestments := updatedInvestments + {item.investmentName};
      }
      assert action == ActionAt(sorted, i);
      rows := rows + [DataRow(item, action)];
    }
  }

  /** Renders `data`, sorting the array itself newest first as `Array.prototype.sort`
      does; an empty array is left alone and gives the single "No data available"
      row. */
  method UpdateTable(data: array<Entry>) returns (rows: seq<TableRow>)
    modifies data
    ensures data[..] == SortDescending(old(data[..]))
    ensures rows == Rendered(old(data[..]))
  {
    if data.Length == 0 {
      return [NoDataRow];
    }
    var sorted := SortDescending(data[..]);
    forall i | 0 <= i < data.Length {
      data[i] := sorted[i];
    }
    assert data[..] == sorted;
    rows := TableRows(data[..]);
  }

  // ----- What the rendered table promises -----

  /** The first row of an investment in a sorted table is one of its newest
      entries. */
  lemma FirstRowIsNewest(s: seq<Entry>, i: int)
    requires SortedDescending(s) && 0 <= i < |s| && FirstOfName(s, i)
    ensures forall j :: 0 <= j < |s| && s[j].investmentName == s[i].investmentName ==>
              s[j].timestamp <= s[i].timestamp
  {
  }

  /** The rows of a non-empty table: the sorted records with their actions. */
  lemma RenderedRows(data: seq<Entry>)
    requires |data| > 0
    ensures |Rendered(data)| == |data|
    ensures forall i :: 0 <= i < |data| ==>
              Rendered(data)[i] == DataRow(SortDescending(data)[i], ActionAt(SortDescending(data), i))
  {
  }

  /** The table of a non-empty ledger has one record row per record, newest
      first. */
  lemma TableShape(data: seq<Entry>)
    requires |data| > 0
    ensures |Rendered(data)| == |data|
    ensures forall i :: 0 <= i < |Rendered(data)| ==> Rendered(data)[i].DataRow?
    ensures forall i, j :: 0 <= i < j < |Rendered(data)| ==>
              Rendered(data)[i].entry.timestamp >= Rendered(data)[j].entry.timestamp
    ensures multiset(Entries(Rendered(data))) == multiset(data)
  {
    var sorted := SortDescending(data);
    RenderedRows(data);
    SortSorted(data);
    assert Entries(Rendered(data)) == sorted;
  }

  /** The records shown by record rows. */
  function Entries(rows: seq<TableRow>): (r: seq<Entry>)
    requires forall i :: 0 <= i < |rows| ==> rows[i].DataRow?
    ensures |r| == |rows| && forall i :: 0 <= i < |rows| ==> r[i] == rows[i].entry
  {
    seq(|rows|, i requires 0 <= i < |rows| => rows[i].entry)
  }

  /** Some row of investment `name` carries an action. */
  predicate HasAction(s: seq<Entry>, name: string) {
    exists i :: 0 <= i < |s| && s[i].investmentName == name && ActionAt(s, i) != NoAction
  }

  /** In any order, every investment present has a row carrying an action... */
  lemma EveryNameHasAction(s: seq<Entry>)
    ensures forall k :: 0 <= k < |s| ==> HasAction(s, s[k].investmentName)
  {
    forall k | 0 <= k < |s|
      ensures HasAction(s, s[k].investmentName)
    {
      var f := FirstWithName(s, k);
      assert ActionAt(s, f) != NoAction;
    }
  }

  /** ... and no second row of that investment does. */
  lemma ActionsUnique(s: seq<Entry>)
    ensures forall i, j ::
              (0 <= i < |s| && 0 <= j < |s| && i != j && s[i].investmentName == s[j].investmentName &&
               ActionAt(s, i) != NoAction) ==> ActionAt(s, j) == NoAction
  {
    forall i, j | 0 <= i < |s| && 0 <= j < |s| && i != j && s[i].investmentName == s[j].investmentName &&
                  ActionAt(s, i) != NoAction
      ensures ActionAt(s, j) == NoAction
    {
      assert i < j;
    }
  }

  /** Every investment shown gets an action on exactly one of its rows. */
  lemma OneActionPerInvestment(data: seq<Entry>)
    requires |data| > 0
    ensures forall e :: e in data ==>
              exists i :: 0 <= i < |Rendered(data)| && Rendered(data)[i].entry.investmentName == e.investmentName &&
                Rendered(data)[i].action != NoAction
    ensures forall i, j ::
              (0 <= i < |Rendered(data)| && 0 <= j < |Rendered(data)| && i != j &&
               Rendered(data)[i].entry.investmentName == Rendered(data)[j].entry.investmentName &&
               Rendered(data)[i].action != NoAction) ==> Rendered(data)[j].action == NoAction
  {
    var sorted, rows := SortDescending(data), Rendered(data);
    RenderedRows(data);
    EveryNameHasAction(sorted);
    ActionsUnique(sorted);
    forall e | e in data
      ensures exists i :: 0 <= i < |rows| && rows[i].entry.investmentName == e.investmentName &&
                rows[i].action != NoAction
    {
      assert e in multiset(sorted);
      var k :| 0 <= k < |sorted| && sorted[k] == e;
      assert HasAction(sorted, sorted[k].investmentName);
      var i :| 0 <= i < |sorted| && sorted[i].investmentName == e.investmentName && ActionAt(sorted, i) != NoAction;
      assert rows[i] == DataRow(sorted[i], ActionAt(sorted, i));
    }
  }

  /** The action sits on a newest record of its investment, and is a dash exactly
      for CUSTOM investments. */
  lemma ActionOnNewest(data: seq<Entry>)
    requires |data| > 0
    ensures forall i :: 0 <= i < |Rendered(data)| && Rendered(data)[i].action != NoAction ==>
              (Rendered(data)[i].action == Dash <==> Rendered(data)[i].entry.investmentType == "CUSTOM")
    ensures forall i, e ::
              (0 <= i < |Rendered(data)| && Rendered(data)[i].action != NoAction &&
               e in data && e.investmentName == Rendered(data)[i].entry.investmentName) ==>
                e.timestamp <= Rendered(data)[i].entry.timestamp
  {
    var sorted, rows := SortDescending(data), Rendered(data);
    RenderedRows(data);
    SortSorted(data);
    forall i, e | 0 <= i < |rows| && rows[i].action != NoAction && e in data &&
                  e.investmentName == rows[i].entry.investmentName
      ensures e.timestamp <= rows[i].entry.timestamp
    {
      FirstRowIsNewest(sorted, i);
      assert e in multiset(sorted);
      var k :| 0 <= k < |sorted| && sorted[k] == e;
    }
  }

  /** The first row sharing `s[k]`'s investment. */
  lemma {:induction false} FirstWithName(s: seq<Entry>, k: int) returns (f: int)
    requires 0 <= k < |s|
    ensures 0 <= f <= k && s[f].investmentName == s[k].investmentName && FirstOfName(s, f)
    decreases k
  {
    if FirstOfName(s, k) {
      f := k;
    } else {
      var j :| 0 <= j < k && s[j].investmentName == s[k].investmentName;
      f := FirstWithName(s, j);
    }
  }
}
