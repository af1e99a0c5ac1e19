/**
 * `autoUpdateOldInvestments` of app.js: group the records by investment name keeping
 * the latest entry of each, then ask the server to refresh every investment whose
 * latest entry is a day old or older and is not CUSTOM. Timestamps are integer
 * milliseconds.
 */
module History {
  import opened Collections

  /** One record as the client receives it from `/api/data`. */
  datatype Entry = Entry(
    investmentName: string,
    investmentType: string,
    amount: real,
    value: real,
    timestamp: int)

  const OneDayMs: int := 24 * 60 * 60 * 1000

  /** The names a plain object `{}` already answers through `Object.prototype`. */
  const InheritedKeys: set<string> := {
    "constructor", "__proto__", "__defineGetter__", "__defineSetter__", "__lookupGetter__",
    "__lookupSetter__", "hasOwnProperty", "isPrototypeOf", "propertyIsEnumerable",
    "toLocaleString", "toString", "valueOf"}

  /** The `investmentMap` built by the `forEach`: the first entry of a name is kept
      until a strictly later one replaces it. A name in `InheritedKeys` is never
      stored: the lookup finds the inherited member, which is truthy and has no
      `timestamp`, and a comparison with that invalid date is false. */
  function Latest(data: seq<Entry>): (m: map<string, Entry>)
    decreases |data|
  {
    if |data| == 0 then map[]
    else
      var m := Latest(data[..|data| - 1]);
      var item := data[|data| - 1];
      if item.investmentName in InheritedKeys then m
      else if item.investmentName !in m then m[item.investmentName := item]
      else if item.timestamp > m[item.investmentName].timestamp then m[item.investmentName := item]
      else m
  }

  /** `data[i]` has the largest timestamp of its name, and is the earliest entry with
      that timestamp. */
  predicate IsLatest(data: seq<Entry>, i: int) {
    && 0 <= i < |data|
    && (forall j :: 0 <= j < |data| && data[j].investmentName == data[i].investmentName ==>
          data[j].timestamp <= data[i].timestamp)
    && (forall j :: 0 <= j < i && data[j].investmentName == data[i].investmentName ==>
          data[j].timestamp < data[i].timestamp)
  }

  /** An investment is refreshed when its latest entry is at least a day old and is
      not CUSTOM. */
  predicate NeedsUpdate(latestEntry: Entry, now: int) {
    now - latestEntry.timestamp >= OneDayMs && latestEntry.investmentType != "CUSTOM"
  }

  /** Some entry of `data` is named `n`. */
  predicate Named(data: seq<Entry>, n: string) {
    exists i :: 0 <= i < |data| && data[i].investmentName == n
  }

  /** Every entry kept in `m` is under its own name and is the latest entry of that
      name in `data`. */
  ghost predicate KeptLatest(data: seq<Entry>, m: map<string, Entry>) {
    forall n :: n in m ==> m[n].investmentName == n && exists i :: IsLatest(data, i) && data[i] == m[n]
  }

  /** The grouping has one key per distinct name, except the inherited names. */
  lemma {:induction false} LatestKeys(data: seq<Entry>)
    ensures forall n :: n in Latest(data) <==> Named(data, n) && n !in InheritedKeys
    decreases |data|
  {
    if |data| > 0 {
      var init, item := data[..|data| - 1], data[|data| - 1];
      LatestKeys(init);
      assert data == init + [item];
      forall n | n in Latest(data)
        ensures Named(data, n)
      {
        if n != item.investmentName {
          assert n in Latest(init);
          var i :| 0 <= i < |init| && init[i].investmentName == n;
          assert data[i] == init[i];
        } else {
          assert data[|data| - 1].investmentName == n;
        }
      }
      forall n | Named(data, n) && n !in InheritedKeys
        ensures n in Latest(data)
      {
        var i :| 0 <= i < |data| && data[i].investmentName == n;
        if i < |init| {
          assert init[i] == data[i];
          assert Named(init, n);
        }
      }
    }
  }

  /** Each kept entry is the latest entry of its name; among entries with equal
      timestamps the earliest one is kept. */
  lemma {:induction false} LatestSpec(data: seq<Entry>)
    ensures forall n :: n in Latest(data) <==> Named(data, n) && n !in InheritedKeys
    ensures KeptLatest(data, Latest(data))
    decreases |data|
  {
    LatestKeys(data);
    if |data| > 0 {
      var init, item := data[..|data| - 1], data[|data| - 1];
      LatestSpec(init);
      assert data == init + [item];
      forall k | k in Latest(data)
        ensures Latest(data)[k].investmentName == k
        ensures exists i :: IsLatest(data, i) && data[i] == Latest(data)[k]
      {
        LatestStep(init, item, k);
      }
    }
  }

  /** One step of `LatestSpec`: appending `item` keeps the property. */
  lemma LatestStep(init: seq<Entry>, item: Entry, k: string)
    requires forall n :: n in Latest(init) <==> Named(init, n) && n !in InheritedKeys
    requires KeptLatest(init, Latest(init))
    requires k in Latest(init + [item])
    ensures Latest(init + [item])[k].investmentName == k
    ensures exists i :: IsLatest(init + [item], i) && (init + [item])[i] == Latest(init + [item])[k]
  {
    LatestAppend(init, item);
    if k != item.investmentName {
      OtherNameStep(init, item, k);
    } else {
      SameNameStep(init, item);
    }
  }

  /** `Latest` of a sequence with one more entry. */
  lemma LatestAppend(init: seq<Entry>, item: Entry)
    ensures var m, n := Latest(init), item.investmentName;
      Latest(init + [item]) ==
        if n in InheritedKeys then m
        else if n !in m || item.timestamp > m[n].timestamp then m[n := item] else m
  {
    var data := init + [item];
    assert data[..|data| - 1] == init;
  }

  /** Appending an entry of another name leaves the kept entry of `k` in place. */
  lemma OtherNameStep(init: seq<Entry>, item: Entry, k: string)
    requires KeptLatest(init, Latest(init))
    requires k in Latest(init) && k != item.investmentName
    ensures Latest(init)[k].investmentName == k
    ensures exists i :: IsLatest(init + [item], i) && (init + [item])[i] == Latest(init)[k]
  {
    var i :| IsLatest(init, i) && init[i] == Latest(init)[k];
    StillLatest(init, item, i);
  }

  /** The kept entry of the appended entry's name is the latest one. */
  lemma SameNameStep(init: seq<Entry>, item: Entry)
    requires item.investmentName !in InheritedKeys
    requires forall n :: n in Latest(init) <==> Named(init, n) && n !in InheritedKeys
    requires KeptLatest(init, Latest(init))
    ensures Latest(init + [item])[item.investmentName].investmentName == item.investmentName
    ensures exists i :: IsLatest(init + [item], i) &&
              (init + [item])[i] == Latest(init + [item])[item.investmentName]
  {
    LatestAppend(init, item);
    var m, n := Latest(init), item.investmentName;
    if n !in m {
      assert !Named(init, n);
      NewLatest(init, item);
    } else if item.timestamp > m[n].timestamp {
      var i :| IsLatest(init, i) && init[i] == m[n];
      NewLatest(init, item);
    } else {
      var i :| IsLatest(init, i) && init[i] == m[n];
      StillLatest(init, item, i);
    }
  }

  /** An appended entry that is not later than `init[i]`, or has another name,
      leaves `init[i]` the latest of its name. */
  lemma StillLatest(init: seq<Entry>, item: Entry, i: int)
    requires IsLatest(init, i)
    requires item.investmentName == init[i].investmentName ==> item.timestamp <= init[i].timestamp
    ensures IsLatest(init + [item], i) && (init + [item])[i] == init[i]
  {
  }

  /** An appended entry strictly later than every earlier entry of its name is the
      latest of that name. */
  lemma NewLatest(init: seq<Entry>, item: Entry)
    requires forall j :: 0 <= j < |init| && init[j].investmentName == item.investmentName ==>
               init[j].timestamp < item.timestamp
    ensures IsLatest(init + [item], |init|)
  {
  }

  /** The `data.forEach` that fills `investmentMap`; `names` lists its keys in
      insertion order, the order `Object.entries` gives for non-numeric keys. */
  method GroupLatest(data: seq<Entry>) returns (investmentMap: map<string, Entry>, names: seq<string>)
    ensures investmentMap == Latest(data)
    ensures forall n :: n in names <==> n in investmentMap
    ensures NoDuplicates(names)
  {
    investmentMap, names := map[], [];
    for i := 0 to |data|
      invariant investmentMap == Latest(data[..i])
      invariant forall n :: n in names <==> n in investmentMap
      invariant NoDuplicates(names)
    {
      var item := data[i];
      assert data[..i + 1] == data[..i] + [item];
      LatestAppend(data[..i], item);
      if item.investmentName in InheritedKeys {
        // `investmentMap[name]` is the inherited member: truthy, with no `timestamp`
        // to compare against, so nothing is stored
      } else if item.investmentName !in investmentMap {
        investmentMap := investmentMap[item.investmentName := item];
        names := names + [item.investmentName];
      } else {
        var existing := investmentMap[item.investmentName];
        if item.timestamp > existing.timestamp {
          investmentMap := investmentMap[item.investmentName := item];
        }
      }
    }
    assert data[..|data|] == data;
  }

  /**
   * Refreshes every stale investment, one at a time; `updateSucceeds(name)` is the
   * outcome of the silent `/api/update` call for `name` (a failure is logged and
   * the loop goes on). Returns whether any refresh succeeded, and the names it
   * tried.
   */
  method AutoUpdateOldInvestments(data: seq<Entry>, now: int, updateSucceeds: string -> bool)
    returns (anyUpdated: bool, attempted: seq<string>)
    ensures forall n :: n in attempted <==> n in Latest(data) && NeedsUpdate(Latest(data)[n], now)
    ensures forall n :: n in attempted ==> Named(data, n) && n !in InheritedKeys
    ensures NoDuplicates(attempted)
    ensures anyUpdated <==> exists n :: n in attempted && updateSucceeds(n)
  {
    if |data| == 0 {
      return false, [];
    }

    var investmentMap, names := GroupLatest(data);

    anyUpdated, attempted := false, [];
    for k := 0 to |names|
      invariant forall n :: n in attempted <==> n in names[..k] && NeedsUpdate(investmentMap[n], now)
      invariant NoDuplicates(attempted)
      invariant anyUpdated <==> exists n :: n in attempted && updateSucceeds(n)
    {
      var investmentName := names[k];
      var latestEntry := investmentMap[investmentName];
      assert names[..k + 1] == names[..k] + [investmentName];
      if now - latestEntry.timestamp >= OneDayMs && latestEntry.investmentType != "CUSTOM" {
        attempted := attempted + [investmentName];
        if updateSucceeds(investmentName) {
          anyUpdated := true;
        }
      }
    }
    assert names[..|names|] == names;
    LatestKeys(data);
  }
}
