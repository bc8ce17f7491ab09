/** The paged walk over the active purchase guards of a show time, database by database, while the
    tables change. The user guard and viewer guard walks are the same code on two tables; this is both. */
module GuardWalk {
  import opened Ordering

  datatype Option<T> = None | Some(value: T)

  datatype Guard = Guard(id: int, showTimeID: int, holderID: int, status: int)

  const INT64_MAX: int := 0x7fff_ffff_ffff_ffff

  /** The table of a database as the query for the rows after an id finds it; None if that query fails.
      No walk makes the same query twice. */
  type Views = (string, int) -> Option<seq<Guard>>

  datatype Query = Query(dbKey: string, afterID: int)

  datatype Batch = Batch(dbKey: string, rows: seq<Guard>)

  datatype WalkResult = Completed | BadRequest | QueryFailed | CallbackFailed

  // ----- keys

  function IdKey(): Guard -> Key {
    (g: Guard) => [g.id]
  }

  /** (db key, id) as one key: -1 ends the db key, below every character. */
  function PlaceKey(): ((string, Guard)) -> Key {
    (p: (string, Guard)) => Codes(p.0) + [-1, p.1.id]
  }

  lemma {:induction false} TerminatedOrder(a: Key, b: Key, i: int, j: int)
    requires Less(a, b) && forall k :: 0 <= k < |b| ==> b[k] >= 0
    ensures Less(a + [-1, i], b + [-1, j])
  {
    if a == [] {
      assert (a + [-1, i])[0] == -1 && (b + [-1, j])[0] == b[0];
    } else {
      assert (a + [-1, i])[0] == a[0] && (b + [-1, j])[0] == b[0];
      assert (a + [-1, i])[1..] == a[1..] + [-1, i] && (b + [-1, j])[1..] == b[1..] + [-1, j];
      if a[0] == b[0] {
        TerminatedOrder(a[1..], b[1..], i, j);
      }
    }
  }

  lemma {:induction false} SamePrefixOrder(a: Key, i: int, j: int)
    requires i < j
    ensures Less(a + [-1, i], a + [-1, j])
  {
    if a == [] {
      assert a + [-1, i] == [-1, i] && a + [-1, j] == [-1, j];
      LessPair(-1, i, -1, j);
    } else {
      assert (a + [-1, i])[1..] == a[1..] + [-1, i] && (a + [-1, j])[1..] == a[1..] + [-1, j];
      SamePrefixOrder(a[1..], i, j);
    }
  }

  lemma PlaceOrder(p: (string, Guard), q: (string, Guard))
    requires Less(Codes(p.0), Codes(q.0)) || (p.0 == q.0 && p.1.id < q.1.id)
    ensures Less(PlaceKey()(p), PlaceKey()(q))
  {
    if Less(Codes(p.0), Codes(q.0)) {
      assert forall k :: 0 <= k < |Codes(q.0)| ==> Codes(q.0)[k] == q.0[k] as int;
      TerminatedOrder(Codes(p.0), Codes(q.0), p.1.id, q.1.id);
    } else {
      SamePrefixOrder(Codes(p.0), p.1.id, q.1.id);
    }
  }

  // ----- what is handed over

  function Active(showTimeID: int, afterID: int): Guard -> bool {
    (g: Guard) => g.showTimeID == showTimeID && g.status == 1 && g.id > afterID
  }

  function Label(db: string, rows: seq<Guard>): seq<(string, Guard)> {
    seq(|rows|, i requires 0 <= i < |rows| => (db, rows[i]))
  }

  function Flatten(batches: seq<Batch>): seq<(string, Guard)> {
    if batches == [] then []
    else
      var last := batches[|batches| - 1];
      Flatten(batches[..|batches| - 1]) + Label(last.dbKey, last.rows)
  }

  /** `id` is an int64 and the primary key of each table. */
  ghost predicate PrimaryKeys(seen: Views) {
    forall db, a :: seen(db, a).Some? ==> Proper(seen(db, a).value)
  }

  ghost predicate Proper(rows: seq<Guard>) {
    DistinctIds(rows) && forall g :: g in rows ==> g.id <= INT64_MAX
  }

  ghost predicate DistinctIds(rows: seq<Guard>) {
    forall i, j :: 0 <= i < j < |rows| ==> rows[i].id != rows[j].id
  }

  lemma IdKeysDistinct(rows: seq<Guard>)
    requires DistinctIds(rows)
    ensures DistinctKeys(rows, IdKey())
  {
    forall i, j | 0 <= i < j < |rows| ensures IdKey()(rows[i]) != IdKey()(rows[j]) {
      assert IdKey()(rows[i])[0] == rows[i].id && IdKey()(rows[j])[0] == rows[j].id;
    }
  }

  lemma IdOrder(g: Guard, h: Guard)
    ensures Less(IdKey()(g), IdKey()(h)) <==> g.id < h.id
  {
    assert [g.id][1..] == [] && [h.id][1..] == [];
  }

  /** A query that was made found the guard. */
  ghost predicate Found(seen: Views, asked: seq<Query>, db: string, g: Guard) {
    exists q :: q in asked && q.dbKey == db && Sees(seen, q, g)
  }

  /** Every query made to the database that was answered found the guard. */
  ghost predicate Lasting(seen: Views, asked: seq<Query>, db: string, g: Guard) {
    forall q :: q in asked && q.dbKey == db && seen(q.dbKey, q.afterID).Some? ==> Sees(seen, q, g)
  }

  ghost predicate Sees(seen: Views, q: Query, g: Guard) {
    seen(q.dbKey, q.afterID).Some? && g in seen(q.dbKey, q.afterID).value
  }

  /** The guards handed over from some databases: strictly ascending in (db key, id), so none twice;
      each active when it was found; and none missing that was active throughout, at least up to the
      last one handed over. */
  ghost predicate Walked(seen: Views, asked: seq<Query>, showTimeID: int, keys: seq<string>,
      places: seq<(string, Guard)>, complete: bool) {
    && Ascending(places, PlaceKey())
    && (forall p :: p in places ==> p.0 in keys && Active(showTimeID, 0)(p.1) && Found(seen, asked, p.0, p.1))
    && (forall p: (string, Guard) ::
          p.0 in keys && Active(showTimeID, 0)(p.1) && Lasting(seen, asked, p.0, p.1) ==>
            (complete || UpToLast(places, p) ==> p in places))
  }

  ghost predicate UpToLast(places: seq<(string, Guard)>, p: (string, Guard)) {
    places != [] && !Less(PlaceKey()(places[|places| - 1]), PlaceKey()(p))
  }

  /** The same of one database, by id. */
  ghost predicate WalkedHere(seen: Views, asked: seq<Query>, showTimeID: int, db: string, rows: seq<Guard>,
      complete: bool) {
    && (forall i, j :: 0 <= i < j < |rows| ==> rows[i].id < rows[j].id)
    && (forall g :: g in rows ==> Active(showTimeID, 0)(g) && Found(seen, asked, db, g))
    && (forall g :: Active(showTimeID, 0)(g) && Lasting(seen, asked, db, g) ==>
          (complete || UpToLastHere(rows, g) ==> g in rows))
  }

  ghost predicate UpToLastHere(rows: seq<Guard>, g: Guard) {
    rows != [] && g.id <= rows[|rows| - 1].id
  }

  lemma {:induction false} FlattenAppend(a: seq<Batch>, b: seq<Batch>)
    ensures Flatten(a + b) == Flatten(a) + Flatten(b)
    decreases |b|
  {
    if b == [] {
      assert a + b == a;
    } else {
      var last := |b| - 1;
      assert (a + b)[..|a + b| - 1] == a + b[..last];
      FlattenAppend(a, b[..last]);
    }
  }

  lemma FlattenOne(b: Batch)
    ensures Flatten([b]) == Label(b.dbKey, b.rows)
  {
    assert [b][..0] == [];
  }

  lemma LabelAppend(db: string, a: seq<Guard>, b: seq<Guard>)
    ensures Label(db, a + b) == Label(db, a) + Label(db, b)
  {}

  // ----- one page

  /** One page: ascending in id, past the last id, and gapless up to its last row. */
  lemma PageFacts(rows: seq<Guard>, showTimeID: int, afterID: int, limit: int)
    requires DistinctIds(rows) && limit > 0
    ensures var page := Select(rows, Active(showTimeID, afterID), IdKey(), limit);
            && |page| <= limit
            && (forall i, j :: 0 <= i < j < |page| ==> page[i].id < page[j].id)
            && (forall g :: g in page ==> g in rows && Active(showTimeID, afterID)(g))
            && (forall g :: g in rows && Active(showTimeID, afterID)(g) && g !in page ==>
                  |page| == limit && page[limit - 1].id < g.id)
  {
    var page := Select(rows, Active(showTimeID, afterID), IdKey(), limit);
    IdKeysDistinct(rows);
    SelectSpec(rows, Active(showTimeID, afterID), IdKey(), limit);
    hide Select, IdKey, Active;
    forall i, j | 0 <= i < j < |page| ensures page[i].id < page[j].id {
      IdOrder(page[i], page[j]);
    }
    forall g | g in rows && Active(showTimeID, afterID)(g) && g !in page
      ensures |page| == limit && page[limit - 1].id < g.id
    {
      assert page[limit - 1] in page;
      IdOrder(page[limit - 1], g);
    }
  }

  /** What one page adds to the guards of its database. */
  lemma NextPage(seen: Views, asked: seq<Query>, showTimeID: int, db: string, rows: seq<Guard>, afterID: int,
      limit: int)
    requires PrimaryKeys(seen) && limit > 0 && seen(db, afterID).Some?
    requires WalkedHere(seen, asked, showTimeID, db, rows, false)
    requires afterID == if rows == [] then 0 else rows[|rows| - 1].id
    ensures var page := Select(seen(db, afterID).value, Active(showTimeID, afterID), IdKey(), limit);
            && |page| <= limit
            && (page != [] ==> afterID < page[|page| - 1].id <= INT64_MAX)
            && WalkedHere(seen, asked + [Query(db, afterID)], showTimeID, db, rows + page, |page| < limit)
  {
    var page := Select(seen(db, afterID).value, Active(showTimeID, afterID), IdKey(), limit);
    PageFacts(seen(db, afterID).value, showTimeID, afterID, limit);
    assert Proper(seen(db, afterID).value);
    hide Select, PrimaryKeys, WalkedHere, Found, Lasting, DistinctIds, IdKey;
    assert page != [] ==> page[|page| - 1] in page && Active(showTimeID, afterID)(page[|page| - 1]);
    PageAppends(seen, asked, showTimeID, db, rows, afterID, page);
    PageCompletes(seen, asked, showTimeID, db, rows, afterID, page, limit);
    hide Active, UpToLastHere;
    Assembled(seen, asked + [Query(db, afterID)], showTimeID, db, rows + page, |page| < limit);
  }

  lemma Assembled(seen: Views, asked: seq<Query>, showTimeID: int, db: string, rows: seq<Guard>, complete: bool)
    requires forall i, j :: 0 <= i < j < |rows| ==> rows[i].id < rows[j].id
    requires forall g :: g in rows ==> Active(showTimeID, 0)(g) && Found(seen, asked, db, g)
    requires forall g :: Active(showTimeID, 0)(g) && Lasting(seen, asked, db, g) ==>
               (complete || UpToLastHere(rows, g) ==> g in rows)
    ensures WalkedHere(seen, asked, showTimeID, db, rows, complete)
  {}

  lemma PageAppends(seen: Views, asked: seq<Query>, showTimeID: int, db: string, rows: seq<Guard>, afterID: int,
      page: seq<Guard>)
    requires seen(db, afterID).Some?
    requires WalkedHere(seen, asked, showTimeID, db, rows, false)
    requires afterID == if rows == [] then 0 else rows[|rows| - 1].id
    requires forall i, j :: 0 <= i < j < |page| ==> page[i].id < page[j].id
    requires forall g :: g in page ==> g in seen(db, afterID).value && Active(showTimeID, afterID)(g)
    ensures forall i, j :: 0 <= i < j < |rows + page| ==> (rows + page)[i].id < (rows + page)[j].id
    ensures forall g :: g in rows + page ==>
              Active(showTimeID, 0)(g) && Found(seen, asked + [Query(db, afterID)], db, g)
  {
    var q := Query(db, afterID);
    var all, now := rows + page, asked + [q];
    forall i, j | 0 <= i < j < |all| ensures all[i].id < all[j].id {
      if i < |rows| <= j {
        assert page[j - |rows|] in page;
      }
    }
    assert rows != [] ==> rows[|rows| - 1] in rows;
    forall g | g in all ensures Active(showTimeID, 0)(g) && Found(seen, now, db, g) {
      if g in rows {
        var o :| o in asked && o.dbKey == db && Sees(seen, o, g);
        assert o in now;
      } else {
        assert q in now && Sees(seen, q, g);
      }
    }
  }

  lemma PageCompletes(seen: Views, asked: seq<Query>, showTimeID: int, db: string, rows: seq<Guard>, afterID: int,
      page: seq<Guard>, limit: int)
    requires seen(db, afterID).Some? && limit > 0
    requires WalkedHere(seen, asked, showTimeID, db, rows, false)
    requires afterID == if rows == [] then 0 else rows[|rows| - 1].id
    requires forall g :: g in seen(db, afterID).value && Active(showTimeID, afterID)(g) && g !in page ==>
               |page| == limit && page[limit - 1].id < g.id
    ensures forall g :: Active(showTimeID, 0)(g) && Lasting(seen, asked + [Query(db, afterID)], db, g) ==>
              (|page| < limit || UpToLastHere(rows + page, g) ==> g in rows + page)
  {
    var q := Query(db, afterID);
    var all, now := rows + page, asked + [q];
    forall g | Active(showTimeID, 0)(g) && Lasting(seen, now, db, g) && (|page| < limit || UpToLastHere(all, g))
      ensures g in all
    {
      assert q in now && Sees(seen, q, g);
      assert forall o :: o in asked ==> o in now;
      assert Lasting(seen, asked, db, g);
      assert UpToLastHere(rows, g) ==> g in rows;
      assert !UpToLastHere(rows, g) ==> Active(showTimeID, afterID)(g);
    }
  }

  // ----- the walk

  /** The pages of one database; `calls` is how often the callback was called before. */
  method WalkDatabase(seen: Views, db: string, showTimeID: int, limit: int, accepts: nat -> bool, calls: nat)
    returns (r: WalkResult, batches: seq<Batch>, asked: seq<Query>, ghost rows: seq<Guard>)
    requires PrimaryKeys(seen) && limit > 0
    ensures Flatten(batches) == Label(db, rows) && WalkedHere(seen, asked, showTimeID, db, rows, r == Completed)
    ensures r != BadRequest && (r == CallbackFailed ==> batches != [])
    ensures forall b :: b in batches ==> 0 < |b.rows| <= limit
    ensures forall n :: calls <= n < calls + |batches| ==>
              (accepts(n) <==> !(r == CallbackFailed && n == calls + |batches| - 1))
    ensures Asked(seen, db, asked, r == QueryFailed)
  {
    hide Flatten, WalkedHere, PrimaryKeys, Active, IdKey, Select, Label;
    var afterID := 0;
    batches, asked, rows := [], [], [];
    NothingHere(seen, showTimeID, db);
    while true
      invariant Flatten(batches) == Label(db, rows) && WalkedHere(seen, asked, showTimeID, db, rows, false)
      invariant afterID == if rows == [] then 0 else rows[|rows| - 1].id
      invariant 0 <= afterID <= INT64_MAX
      invariant forall b :: b in batches ==> 0 < |b.rows| <= limit
      invariant forall n :: calls <= n < calls + |batches| ==> accepts(n)
      invariant Pending(seen, db, asked, afterID)
      decreases INT64_MAX - afterID
    {
      var found := seen(db, afterID);
      if found.None? {
        AskedFailing(seen, showTimeID, db, asked, rows, afterID);
        return QueryFailed, batches, asked + [Query(db, afterID)], rows;
      }
      var page := Select(found.value, Active(showTimeID, afterID), IdKey(), limit);
      NextPage(seen, asked, showTimeID, db, rows, afterID, limit);
      AskedMore(seen, db, asked, afterID);
      asked := asked + [Query(db, afterID)];
      if |page| == 0 {
        assert rows + page == rows;
        return Completed, batches, asked, rows;
      }
      FlattenAppend(batches, [Batch(db, page)]);
      FlattenOne(Batch(db, page));
      LabelAppend(db, rows, page);
      batches := batches + [Batch(db, page)];
      rows := rows + page;
      assert rows[|rows| - 1] == page[|page| - 1];
      if !accepts(calls + |batches| - 1) {
        WeakenHere(seen, asked, showTimeID, db, rows, |page| < limit);
        return CallbackFailed, batches, asked, rows;
      }
      afterID := page[|page| - 1].id;
      if |page| < limit {
        return Completed, batches, asked, rows;
      }
    }
  }

  /** The queries made to a database: from id 0, each after a larger id, all answered but perhaps the last. */
  ghost predicate Asked(seen: Views, db: string, asked: seq<Query>, failed: bool) {
    && asked != [] && asked[0].afterID == 0
    && (forall i :: 0 <= i < |asked| ==> asked[i].dbKey == db)
    && (forall i, j :: 0 <= i < j < |asked| ==> asked[i].afterID < asked[j].afterID)
    && (forall i :: 0 <= i < |asked| ==> (seen(db, asked[i].afterID).None? <==> failed && i == |asked| - 1))
  }

  ghost predicate Pending(seen: Views, db: string, asked: seq<Query>, afterID: int) {
    && (asked == [] ==> afterID == 0)
    && (asked != [] ==> Asked(seen, db, asked, false) && asked[|asked| - 1].afterID < afterID)
  }

  lemma AskedMore(seen: Views, db: string, asked: seq<Query>, afterID: int)
    requires Pending(seen, db, asked, afterID)
    ensures Asked(seen, db, asked + [Query(db, afterID)], seen(db, afterID).None?)
  {}

  lemma NothingHere(seen: Views, showTimeID: int, db: string)
    ensures WalkedHere(seen, [], showTimeID, db, [], false)
    ensures Flatten([]) == Label(db, [])
  {}

  lemma WeakenHere(seen: Views, asked: seq<Query>, showTimeID: int, db: string, rows: seq<Guard>, complete: bool)
    requires WalkedHere(seen, asked, showTimeID, db, rows, complete)
    ensures WalkedHere(seen, asked, showTimeID, db, rows, false)
  {}

  lemma AskedFailing(seen: Views, showTimeID: int, db: string, asked: seq<Query>, rows: seq<Guard>, afterID: int)
    requires Pending(seen, db, asked, afterID) && seen(db, afterID).None?
    requires WalkedHere(seen, asked, showTimeID, db, rows, false)
    ensures Asked(seen, db, asked + [Query(db, afterID)], true)
    ensures WalkedHere(seen, asked + [Query(db, afterID)], showTimeID, db, rows, false)
  {
    AskedMore(seen, db, asked, afterID);
    hide Asked, Active;
    OtherQueries(seen, asked, [Query(db, afterID)], db);
  }

  /** Queries that failed, or went elsewhere, change neither what was found nor what lasted. */
  lemma OtherQueries(seen: Views, asked: seq<Query>, more: seq<Query>, db: string)
    requires forall q :: q in more ==> q.dbKey != db || seen(q.dbKey, q.afterID).None?
    ensures forall g :: (Found(seen, asked + more, db, g) <==> Found(seen, asked, db, g))
    ensures forall g :: (Lasting(seen, asked + more, db, g) <==> Lasting(seen, asked, db, g))
  {
    forall g ensures Found(seen, asked + more, db, g) <==> Found(seen, asked, db, g) {
      if q :| q in asked && q.dbKey == db && Sees(seen, q, g) {
        assert q in asked + more;
      }
    }
    assert forall q :: q in asked ==> q in asked + more;
  }

  /** Likewise for queries made before to other databases. */
  lemma EarlierQueries(seen: Views, earlier: seq<Query>, asked: seq<Query>, db: string)
    requires forall q :: q in earlier ==> q.dbKey != db
    ensures forall g :: (Found(seen, earlier + asked, db, g) <==> Found(seen, asked, db, g))
    ensures forall g :: (Lasting(seen, earlier + asked, db, g) <==> Lasting(seen, asked, db, g))
  {
    forall g ensures Found(seen, earlier + asked, db, g) <==> Found(seen, asked, db, g) {
      if q :| q in asked && q.dbKey == db && Sees(seen, q, g) {
        assert q in earlier + asked;
      }
    }
    assert forall q :: q in asked ==> q in earlier + asked;
  }

  /** Queries of a whole walk: database by database in key order, each database's as in Asked. */
  ghost predicate Distinct(asked: seq<Query>) {
    forall i, j :: 0 <= i < j < |asked| ==> asked[i] != asked[j]
  }

  ghost predicate AllAnswered(seen: Views, asked: seq<Query>, but: bool) {
    forall i :: 0 <= i < |asked| ==> (seen(asked[i].dbKey, asked[i].afterID).None? <==> but && i == |asked| - 1)
  }

  ghost predicate AskedAll(asked: seq<Query>, keys: seq<string>) {
    && (forall q :: q in asked ==> q.dbKey in keys)
    && (forall db :: db in keys ==> Query(db, 0) in asked)
  }

  lemma LabelMembers(db: string, rows: seq<Guard>, p: (string, Guard))
    ensures p in Label(db, rows) <==> p.0 == db && p.1 in rows
  {
    if p.0 == db && p.1 in rows {
      var j :| 0 <= j < |rows| && rows[j] == p.1;
      assert Label(db, rows)[j] == p;
    }
  }

  lemma AscendingJoin<T(!new)>(a: seq<T>, b: seq<T>, key: T -> Key)
    requires Ascending(a, key) && Ascending(b, key)
    requires forall x, y :: x in a && y in b ==> Less(key(x), key(y))
    ensures Ascending(a + b, key)
  {
    forall i, j | 0 <= i < j < |a + b| ensures Less(key((a + b)[i]), key((a + b)[j])) {
      if i < |a| <= j {
        assert a[i] in a && b[j - |a|] in b;
      }
    }
  }

  lemma LabelAscends(db: string, rows: seq<Guard>)
    requires forall i, j :: 0 <= i < j < |rows| ==> rows[i].id < rows[j].id
    ensures Ascending(Label(db, rows), PlaceKey())
  {
    var s := Label(db, rows);
    forall i, j | 0 <= i < j < |s| ensures Less(PlaceKey()(s[i]), PlaceKey()(s[j])) {
      PlaceOrder(s[i], s[j]);
    }
  }

  lemma PlacesAscend(keys: seq<string>, d: nat, places: seq<(string, Guard)>, rows: seq<Guard>)
    requires d < |keys| && Ascending(keys, TextKey()) && Ascending(places, PlaceKey())
    requires forall p :: p in places ==> p.0 in keys[..d]
    requires forall i, j :: 0 <= i < j < |rows| ==> rows[i].id < rows[j].id
    ensures Ascending(places + Label(keys[d], rows), PlaceKey())
  {
    var tail := Label(keys[d], rows);
    LabelAscends(keys[d], rows);
    forall x, y | x in places && y in tail ensures Less(PlaceKey()(x), PlaceKey()(y)) {
      LabelMembers(keys[d], rows, y);
      var k :| 0 <= k < d && keys[k] == x.0;
      assert Less(TextKey()(keys[k]), TextKey()(keys[d]));
      PlaceOrder(x, y);
    }
    AscendingJoin(places, tail, PlaceKey());
  }

  /** One more database, walked to its end or not. */
  lemma OneMore(seen: Views, before: seq<Query>, asked: seq<Query>, showTimeID: int, keys: seq<string>, d: nat,
                places: seq<(string, Guard)>, rows: seq<Guard>, complete: bool)
    requires d < |keys| && Ascending(keys, TextKey())
    requires Walked(seen, before, showTimeID, keys[..d], places, true) && AskedAll(before, keys[..d])
    requires WalkedHere(seen, asked, showTimeID, keys[d], rows, complete)
    requires forall q :: q in asked ==> q.dbKey == keys[d]
    ensures var reach := if complete then keys[..d + 1] else keys;
            Walked(seen, before + asked, showTimeID, reach, places + Label(keys[d], rows), complete)
  {
    var db, all, now := keys[d], places + Label(keys[d], rows), before + asked;
    var reach := if complete then keys[..d + 1] else keys;
    PlacesAscend(keys, d, places, rows);
    DistinctKeysOf(keys, d);
    EarlierQueries(seen, before, asked, db);
    forall p | p in all ensures p.0 in reach && Active(showTimeID, 0)(p.1) && Found(seen, now, p.0, p.1) {
      LabelMembers(db, rows, p);
      if p in places {
        OtherQueries(seen, before, asked, p.0);
      }
    }
    forall p: (string, Guard) |
      p.0 in reach && Active(showTimeID, 0)(p.1) && Lasting(seen, now, p.0, p.1) && (complete || UpToLast(all, p))
      ensures p in all
    {
      LabelMembers(db, rows, p);
      if p.0 in keys[..d] {
        OtherQueries(seen, before, asked, p.0);
      } else {
        BeyondLast(keys, d, places, rows, p);
      }
    }
  }

  lemma DistinctKeysOf(keys: seq<string>, d: nat)
    requires d < |keys| && Ascending(keys, TextKey())
    ensures keys[d] !in keys[..d]
  {
    if k :| 0 <= k < d && keys[k] == keys[d] {
      LessIrreflexive(TextKey()(keys[d]));
    }
  }

  /** A place in a database not walked before, but not beyond the last place, is up to the last row. */
  lemma BeyondLast(keys: seq<string>, d: nat, places: seq<(string, Guard)>, rows: seq<Guard>, p: (string, Guard))
    requires d < |keys| && Ascending(keys, TextKey()) && p.0 in keys && p.0 !in keys[..d]
    requires forall x :: x in places ==> x.0 in keys[..d]
    ensures UpToLast(places + Label(keys[d], rows), p) ==> p.0 == keys[d] && UpToLastHere(rows, p.1)
  {
    var all := places + Label(keys[d], rows);
    if all != [] {
      var last := all[|all| - 1];
      assert keys == keys[..d] + keys[d..];
      var k0 :| 0 <= k0 < |keys[d..]| && keys[d..][k0] == p.0;
      var k := d + k0;
      if rows == [] {
        assert last in places;
        var j :| 0 <= j < d && keys[..d][j] == last.0;
        assert Less(TextKey()(keys[j]), TextKey()(keys[k]));
        PlaceOrder(last, p);
      } else {
        assert last == (keys[d], rows[|rows| - 1]);
        if k > d {
          assert Less(TextKey()(keys[d]), TextKey()(keys[k]));
          PlaceOrder(last, p);
        } else if p.1.id > rows[|rows| - 1].id {
          PlaceOrder(last, p);
        }
      }
    }
  }

  lemma QueriesMore(seen: Views, before: seq<Query>, asked: seq<Query>, keys: seq<string>, d: nat, failed: bool)
    requires d < |keys| && Ascending(keys, TextKey())
    requires Distinct(before) && AllAnswered(seen, before, false) && AskedAll(before, keys[..d])
    requires Asked(seen, keys[d], asked, failed)
    ensures Distinct(before + asked) && AllAnswered(seen, before + asked, failed)
            && AskedAll(before + asked, keys[..d + 1])
  {
    var now := before + asked;
    DistinctKeysOf(keys, d);
    forall i, j | 0 <= i < j < |now| ensures now[i] != now[j] {
      if i < |before| <= j {
        assert before[i] in before;
      }
    }
    assert keys[..d + 1] == keys[..d] + [keys[d]];
    assert asked[0] in asked && asked[0] == Query(keys[d], 0);
  }

  /** The walk over the databases `dbs`. `callback(n)` says whether the callback succeeds on its n-th call,
      counted from 0; `asked` are the queries made. */
  method WalkActiveGuards(dbs: set<string>, seen: Views, showTimeID: int, batchSize: int, callback: Option<nat -> bool>)
    returns (r: WalkResult, batches: seq<Batch>, keys: seq<string>, asked: seq<Query>)
    requires PrimaryKeys(seen)
    ensures r == BadRequest <==> showTimeID <= 0 || callback.None?
    ensures r == BadRequest ==> batches == [] && asked == []
    ensures r != BadRequest ==>
              && Ascending(keys, TextKey()) && (forall db :: db in keys <==> db in dbs)
              && Walked(seen, asked, showTimeID, keys, Flatten(batches), r == Completed)
              && Distinct(asked) && AllAnswered(seen, asked, r == QueryFailed)
              && (r == Completed ==> AskedAll(asked, keys))
              && (r == QueryFailed ==> asked != []) && (r == CallbackFailed ==> batches != [])
              && (forall b :: b in batches ==> 0 < |b.rows| <= if batchSize <= 0 then 100 else batchSize)
              && (forall n :: 0 <= n < |batches| ==>
                  (callback.value(n) <==> !(r == CallbackFailed && n == |batches| - 1)))
  {
    hide Walked, WalkedHere, Flatten, PrimaryKeys, Asked, AskedAll, Distinct, AllAnswered, Label;
    batches, asked, keys := [], [], [];
    if showTimeID <= 0 || callback.None? {
      return BadRequest, batches, keys, asked;
    }
    var limit := if batchSize <= 0 then 100 else batchSize;
    keys := SortedKeys(dbs);
    NothingYet(seen, showTimeID);
    for d := 0 to |keys|
      invariant Walked(seen, asked, showTimeID, keys[..d], Flatten(batches), true)
      invariant Distinct(asked) && AllAnswered(seen, asked, false) && AskedAll(asked, keys[..d])
      invariant forall b :: b in batches ==> 0 < |b.rows| <= limit
      invariant forall n :: 0 <= n < |batches| ==> callback.value(n)
    {
      ghost var rows;
      var here, queries;
      r, here, queries, rows := WalkDatabase(seen, keys[d], showTimeID, limit, callback.value, |batches|);
      HereOnly(seen, keys[d], queries, r == QueryFailed);
      OneMore(seen, asked, queries, showTimeID, keys, d, Flatten(batches), rows, r == Completed);
      QueriesMore(seen, asked, queries, keys, d, r == QueryFailed);
      FlattenAppend(batches, here);
      batches, asked := batches + here, asked + queries;
      if r != Completed {
        return;
      }
    }
    assert keys[..|keys|] == keys;
    r := Completed;
  }

  lemma NothingYet(seen: Views, showTimeID: int)
    ensures Walked(seen, [], showTimeID, [], Flatten([]), true)
    ensures Distinct([]) && AllAnswered(seen, [], false) && AskedAll([], [])
  {}

  lemma HereOnly(seen: Views, db: string, asked: seq<Query>, failed: bool)
    requires Asked(seen, db, asked, failed)
    ensures asked != [] && forall q :: q in asked ==> q.dbKey == db
  {}

  // ----- tables that stay as they are

  /** If no table changes during the walk: a completed walk hands over exactly the active guards with a
      positive id of every database, a stopped one exactly those up to the last it handed over; each
      once, in (db key, id) order. */
  lemma StableWalk(tables: map<string, seq<Guard>>, seen: Views, asked: seq<Query>, showTimeID: int, keys: seq<string>,
                   places: seq<(string, Guard)>, complete: bool, p: (string, Guard))
    requires forall db, a :: db in tables && seen(db, a).Some? ==> seen(db, a).value == tables[db]
    requires forall db :: db in keys ==> db in tables
    requires Walked(seen, asked, showTimeID, keys, places, complete)
    ensures p in places <==>
            p.0 in keys && p.1 in tables[p.0] && Active(showTimeID, 0)(p.1) && (complete || UpToLast(places, p))
  {
    hide PlaceKey, Active;
    if p in places {
      var i :| 0 <= i < |places| && places[i] == p;
      if i < |places| - 1 {
        LessAsymmetric(PlaceKey()(p), PlaceKey()(places[|places| - 1]));
      } else {
        LessIrreflexive(PlaceKey()(p));
      }
    }
  }
}
