/** The route map: which database and table serve a logic slot, per route-map version. */
module RouteMap {

  const STABLE := "stable"
  const SHARD_PRIMARY := "shard_primary"

  datatype RouteEntry = RouteEntry(
    version: string, logicSlot: int, dbKey: string, tableSuffix: string, status: string, writeMode: string)

  datatype Route = Route(
    logicSlot: int, dbKey: string, tableSuffix: string, version: string, writeMode: string, status: string)

  datatype RouteError = RouteNotFound | InvalidRouteEntry | RouteVersionMissing

  datatype Result<T> = Ok(value: T) | Err(error: RouteError)

  /** A loaded map; `entries` is the nested map of the source, version first. */
  datatype Snapshot = Snapshot(currentVersion: string, entries: map<string, map<int, RouteEntry>>)

  /** validateRouteEntry: the four checks, in the order in which they are made. */
  predicate ValidEntry(e: RouteEntry) {
    if e.version == "" || e.dbKey == "" || e.tableSuffix == "" then false
    else if e.logicSlot < 0 || e.logicSlot >= 1024 then false
    else if e.status != STABLE then false
    else e.writeMode == SHARD_PRIMARY
  }

  function RouteOf(e: RouteEntry): Route {
    Route(e.logicSlot, e.dbKey, e.tableSuffix, e.version, e.writeMode, e.status)
  }

  function RouteByVersionAndSlot(m: Snapshot, version: string, slot: int): Result<Route> {
    if version !in m.entries then Err(RouteNotFound)
    else if slot !in m.entries[version] then Err(RouteNotFound)
    else Ok(RouteOf(m.entries[version][slot]))
  }

  function RouteByLogicSlot(m: Snapshot, slot: int): Result<Route> {
    RouteByVersionAndSlot(m, m.currentVersion, slot)
  }

  // ----- what a load should mean, without maps

  /** The first entry for a version and slot, by linear search. */
  function Search(entries: seq<RouteEntry>, version: string, slot: int): Result<Route> {
    if entries == [] then Err(RouteNotFound)
    else if entries[0].version == version && entries[0].logicSlot == slot then Ok(RouteOf(entries[0]))
    else Search(entries[1..], version, slot)
  }

  ghost predicate SamePlace(a: RouteEntry, b: RouteEntry) {
    a.version == b.version && a.logicSlot == b.logicSlot
  }

  /** Every entry valid and no (version, slot) pair repeated. */
  ghost predicate WellFormed(entries: seq<RouteEntry>) {
    && (forall i :: 0 <= i < |entries| ==> ValidEntry(entries[i]))
    && (forall i, j :: 0 <= i < j < |entries| ==> !SamePlace(entries[i], entries[j]))
  }

  /** The nested map holds exactly the listed entries, each under its own version and slot. */
  ghost predicate Holds(nested: map<string, map<int, RouteEntry>>, entries: seq<RouteEntry>) {
    && (forall i :: 0 <= i < |entries| ==>
          var e := entries[i];
          e.version in nested && e.logicSlot in nested[e.version] && nested[e.version][e.logicSlot] == e)
    && (forall v, s :: v in nested && s in nested[v] ==>
          nested[v][s] in entries && nested[v][s].version == v && nested[v][s].logicSlot == s)
    && (forall v :: v in nested ==> exists i :: 0 <= i < |entries| && entries[i].version == v)
  }

  lemma SearchFinds(entries: seq<RouteEntry>, k: nat, version: string, slot: int)
    requires k < |entries| && entries[k].version == version && entries[k].logicSlot == slot
    requires forall i :: 0 <= i < k ==> !SamePlace(entries[i], entries[k])
    ensures Search(entries, version, slot) == Ok(RouteOf(entries[k]))
  {
    if k > 0 {
      assert !SamePlace(entries[0], entries[k]);
      SearchFinds(entries[1..], k - 1, version, slot);
    }
  }

  lemma SearchMisses(entries: seq<RouteEntry>, version: string, slot: int)
    requires forall i :: 0 <= i < |entries| ==> entries[i].version != version || entries[i].logicSlot != slot
    ensures Search(entries, version, slot) == Err(RouteNotFound)
  {
    if entries != [] {
      SearchMisses(entries[1..], version, slot);
    }
  }

  lemma LookupIsSearch(m: Snapshot, entries: seq<RouteEntry>, version: string, slot: int)
    requires Holds(m.entries, entries) && WellFormed(entries)
    ensures RouteByVersionAndSlot(m, version, slot) == Search(entries, version, slot)
  {
    if version in m.entries && slot in m.entries[version] {
      var e := m.entries[version][slot];
      var k :| 0 <= k < |entries| && entries[k] == e;
      SearchFinds(entries, k, version, slot);
    } else {
      SearchMisses(entries, version, slot);
    }
  }

  /** NewRouteMap. It succeeds exactly when the version is named, the list is well formed and the
      current version has an entry; every later lookup is then a linear search of the list. */
  method NewRouteMap(version: string, entries: seq<RouteEntry>) returns (r: Result<Snapshot>)
    ensures r.Ok? <==>
            version != "" && WellFormed(entries) && exists i :: 0 <= i < |entries| && entries[i].version == version
    ensures r.Ok? ==> r.value.currentVersion == version && Holds(r.value.entries, entries)
    ensures r.Ok? ==> forall v, s :: RouteByVersionAndSlot(r.value, v, s) == Search(entries, v, s)
    ensures version != "" && !WellFormed(entries) ==> r == Err(InvalidRouteEntry)
    ensures version == "" || (WellFormed(entries) && r.Err?) ==> r == Err(RouteVersionMissing)
  {
    if version == "" {
      return Err(RouteVersionMissing);
    }
    var nested: map<string, map<int, RouteEntry>> := map[];
    for k := 0 to |entries|
      invariant WellFormed(entries[..k])
      invariant Holds(nested, entries[..k])
    {
      var e := entries[k];
      assert entries[..k + 1] == entries[..k] + [e];
      if !ValidEntry(e) {
        return Err(InvalidRouteEntry);
      }
      var slots := if e.version in nested then nested[e.version] else map[];
      if e.logicSlot in slots {
        var j :| 0 <= j < k && entries[..k][j] == slots[e.logicSlot];
        assert SamePlace(entries[j], entries[k]);
        return Err(InvalidRouteEntry);
      }
      WellFormedMore(nested, entries[..k], e);
      HoldsMore(nested, entries[..k], e);
      nested := nested[e.version := slots[e.logicSlot := e]];
    }
    assert entries[..|entries|] == entries;
    if version !in nested {
      return Err(RouteVersionMissing);
    }
    r := Ok(Snapshot(version, nested));
    forall v, s ensures RouteByVersionAndSlot(r.value, v, s) == Search(entries, v, s) {
      LookupIsSearch(r.value, entries, v, s);
    }
  }

  lemma WellFormedMore(nested: map<string, map<int, RouteEntry>>, done: seq<RouteEntry>, e: RouteEntry)
    requires WellFormed(done) && Holds(nested, done)
    ensures WellFormed(done + [e]) <==> ValidEntry(e) && (e.version in nested ==> e.logicSlot !in nested[e.version])
  {
    hide ValidEntry;
    var all := done + [e];
    assert all[|done|] == e;
    if e.version in nested && e.logicSlot in nested[e.version] {
      var j :| 0 <= j < |done| && done[j] == nested[e.version][e.logicSlot];
      assert SamePlace(all[j], all[|done|]);
    } else if ValidEntry(e) {
      forall i | 0 <= i < |all| ensures ValidEntry(all[i]) {
        assert i < |done| ==> all[i] == done[i];
      }
      forall i, j | 0 <= i < j < |all| ensures !SamePlace(all[i], all[j]) {
        assert all[i] == done[i] && done[i].version in nested;
        assert j < |done| ==> all[j] == done[j];
      }
    }
  }

  lemma HoldsMore(nested: map<string, map<int, RouteEntry>>, done: seq<RouteEntry>, e: RouteEntry)
    requires Holds(nested, done)
    requires e.version in nested ==> e.logicSlot !in nested[e.version]
    ensures var slots := if e.version in nested then nested[e.version] else map[];
            Holds(nested[e.version := slots[e.logicSlot := e]], done + [e])
  {
    var slots := if e.version in nested then nested[e.version] else map[];
    var more := nested[e.version := slots[e.logicSlot := e]];
    var all := done + [e];
    forall i | 0 <= i < |all|
      ensures all[i].version in more && all[i].logicSlot in more[all[i].version]
      ensures more[all[i].version][all[i].logicSlot] == all[i]
    {
      if i < |done| {
        assert all[i] == done[i];
      }
    }
    forall v, s | v in more && s in more[v]
      ensures more[v][s] in all && more[v][s].version == v && more[v][s].logicSlot == s
    {
      if v == e.version && s == e.logicSlot {
        assert all[|done|] == e;
      } else {
        assert v in nested && s in nested[v] && nested[v][s] in done;
      }
    }
    forall v | v in more ensures exists i :: 0 <= i < |all| && all[i].version == v {
      if v == e.version {
        assert all[|done|].version == v;
      } else {
        var i :| 0 <= i < |done| && done[i].version == v;
        assert all[i].version == v;
      }
    }
  }
}
