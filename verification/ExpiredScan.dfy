/** The keyset-paged scan for expired unpaid orders of one logic slot, over a table that other
    slots share and that may change between pages. */
module ExpiredScan {
  import opened Ordering
  import opened OrderStore

  /** The database and the clock as one page query finds them; Unreachable is a failing query. */
  datatype View = View(tables: Tables, now: int) | Unreachable

  datatype ScanError = Routing(error: Error) | QueryFailed

  datatype ScanOutcome = Found(orders: Rows) | Failed(error: ScanError)

  function ExpireKey(): Order -> Key {
    (o: Order) => [o.expireTime, o.id]
  }

  predicate Eligible(o: Order, before: int) {
    o.status == 1 && o.orderStatus == 1 && o.expireTime <= before
  }

  /** The cursor of the last page: absent before the first. */
  type Cursor = Option<(int, int)>

  predicate Past(o: Order, cursor: Cursor) {
    cursor.Some? ==> o.expireTime > cursor.value.0 || (o.expireTime == cursor.value.0 && o.id > cursor.value.1)
  }

  /** The `where` clause of one page. */
  function Wanted(before: int, cursor: Cursor): Order -> bool {
    (o: Order) => Eligible(o, before) && Past(o, cursor)
  }

  /** orderMatchesLogicSlot */
  function InSlot(c: Slots, slot: int, now: int): Order -> bool {
    (o: Order) => c.accepts(o.orderNumber, now) && c.ofNumber(o.orderNumber) == slot
  }

  const INT64_MAX: int := 0x7fff_ffff_ffff_ffff

  /** What every query finds, without end: the k-th page is read from the k-th view. */
  type Views = nat -> View

  predicate Readable(v: View, t: Table) {
    v.View? && t in v.tables
  }

  function RowsOf(v: View, t: Table): Rows {
    if Readable(v, t) then v.tables[t] else []
  }

  /** `id` is an int64 and the primary key of every table. */
  ghost predicate PrimaryKeys(views: Views) {
    forall k: nat, t :: Readable(views(k), t) ==> Proper(RowsOf(views(k), t))
  }

  ghost predicate Proper(rows: Rows) {
    DistinctIds(rows) && forall o :: o in rows ==> o.id <= INT64_MAX
  }

  ghost predicate DistinctIds(rows: Rows) {
    forall i, j :: 0 <= i < j < |rows| ==> rows[i].id != rows[j].id
  }

  /** What one scan is about. */
  datatype Scan = Scan(views: Views, table: Table, slots: Slots, slot: int, before: int) {
    ghost predicate Valid() {
      PrimaryKeys(views)
    }

    /** The row counts for the scan at its k-th page. */
    ghost predicate Visible(k: nat, o: Order)
    {
      var v := views(k);
      Readable(v, table) && o in RowsOf(v, table) && Eligible(o, before) && InSlot(slots, slot, v.now)(o)
    }

    ghost predicate AlwaysVisible(pages: nat, o: Order)
    {
      forall k :: 0 <= k < pages ==> Visible(k, o)
    }

    ghost predicate SometimeVisible(pages: nat, o: Order)
    {
      exists k :: 0 <= k < pages && Visible(k, o)
    }

    /** What has been collected when `pages` pages were read and everything up to `cursor` is done. */
    ghost predicate Collected(orders: Rows, pages: nat, cursor: Cursor)
    {
      && Ascending(orders, ExpireKey())
      && (forall o :: o in orders ==> SometimeVisible(pages, o))
      && (forall o :: o in orders ==> !Past(o, cursor) || cursor.None?)
      && (cursor.None? ==> orders == [] && pages == 0)
      && (cursor.Some? ==> forall o :: AlwaysVisible(pages, o) && !Past(o, cursor) ==> o in orders)
    }

    /** The promise of the scan. A row visible at every page read may be missing only if the limit
        was reached before its key. */
    ghost predicate Answers(orders: Rows, pages: nat, limit: int)
    {
      && Ascending(orders, ExpireKey()) && |orders| <= limit && limit > 0 && pages > 0
      && (forall o :: o in orders ==> SometimeVisible(pages, o))
      && (forall o :: AlwaysVisible(pages, o) && o !in orders ==>
            |orders| == limit && Less(ExpireKey()(orders[|orders| - 1]), ExpireKey()(o)))
    }
  }

  lemma DistinctIdsDistinctKeys(rows: Rows)
    requires DistinctIds(rows)
    ensures DistinctKeys(rows, ExpireKey())
  {
    forall i, j | 0 <= i < j < |rows| ensures ExpireKey()(rows[i]) != ExpireKey()(rows[j]) {
      assert ExpireKey()(rows[i])[1] == rows[i].id && ExpireKey()(rows[j])[1] == rows[j].id;
    }
  }

  function KeyOf(o: Order): (int, int) { (o.expireTime, o.id) }

  lemma PastIsLess(o: Order, c: Order)
    ensures Past(o, Some(KeyOf(c))) <==> Less(ExpireKey()(c), ExpireKey()(o))
  {
    LessPair(c.expireTime, c.id, o.expireTime, o.id);
  }

  /** One page: ascending, past the cursor, and gapless up to its last row. */
  ghost predicate PageOf(page: Rows, rows: Rows, before: int, cursor: Cursor, n: int) {
    && Ascending(page, ExpireKey()) && |page| <= n
    && (forall o :: o in page ==> o in rows && Eligible(o, before) && Past(o, cursor))
    && (forall o, y :: o in rows && Eligible(o, before) && Past(o, cursor) && o !in page && y in page ==>
          Past(o, Some(KeyOf(y))))
    && (|page| < n ==> forall o :: o in rows && Eligible(o, before) && Past(o, cursor) ==> o in page)
  }

  function Query(rows: Rows, before: int, cursor: Cursor, n: int): Rows {
    Select(rows, Wanted(before, cursor), ExpireKey(), n)
  }

  lemma QuerySpec(rows: Rows, before: int, cursor: Cursor, n: int)
    requires DistinctIds(rows) && n >= 0
    ensures PageOf(Query(rows, before, cursor, n), rows, before, cursor, n)
  {
    DistinctIdsDistinctKeys(rows);
    SelectSpec(rows, Wanted(before, cursor), ExpireKey(), n);
    var page := Query(rows, before, cursor, n);
    forall o, y | o in rows && Wanted(before, cursor)(o) && o !in page && y in page
      ensures Past(o, Some(KeyOf(y)))
    {
      PastIsLess(o, y);
    }
  }

  lemma QueryView(s: Scan, pages: nat, cursor: Cursor, n: int)
    requires s.Valid() && n >= 0
    ensures var rows := RowsOf(s.views(pages), s.table);
            PageOf(Query(rows, s.before, cursor, n), rows, s.before, cursor, n)
  {
    QuerySpec(RowsOf(s.views(pages), s.table), s.before, cursor, n);
  }

  /** The matching rows among the first j of a page. */
  lemma Kept(page: Rows, matches: Order -> bool, j: nat)
    requires Ascending(page, ExpireKey()) && 0 < j <= |page|
    ensures var kept := Filter(page[..j], matches);
            && Ascending(kept, ExpireKey())
            && forall o :: o in kept <==> o in page && matches(o) && !Past(o, Some(KeyOf(page[j - 1])))
  {
    var kept := Filter(page[..j], matches);
    FilterAscending(page[..j], matches, ExpireKey());
    forall o ensures o in kept <==> o in page && matches(o) && !Past(o, Some(KeyOf(page[j - 1]))) {
      FilterMembers(page[..j], matches, o);
      if o in page {
        UpTo(page, j, o);
      }
    }
  }

  /** The first rows of a page are those not past the last of them. */
  lemma UpTo(page: Rows, j: nat, o: Order)
    requires Ascending(page, ExpireKey()) && 0 < j <= |page| && o in page
    ensures o in page[..j] <==> !Past(o, Some(KeyOf(page[j - 1])))
  {
    var last := page[j - 1];
    PastIsLess(o, last);
    hide ExpireKey, Past;
    if o in page[..j] {
      var i :| 0 <= i < j && page[i] == o;
      if i < j - 1 {
        LessAsymmetric(ExpireKey()(o), ExpireKey()(last));
      } else {
        LessIrreflexive(ExpireKey()(o));
      }
    } else {
      assert page == page[..j] + page[j..];
      var i :| 0 <= i < |page[j..]| && page[j..][i] == o;
      assert page[j + i] == o;
    }
  }

  /** Appending what one page adds. */
  lemma Collect(s: Scan, orders: Rows, pages: nat, cursor: Cursor, page: Rows, n: int, j: nat)
    requires s.Valid() && s.Collected(orders, pages, cursor)
    requires Readable(s.views(pages), s.table)
    requires PageOf(page, RowsOf(s.views(pages), s.table), s.before, cursor, n)
    requires 0 < j <= |page|
    ensures var kept := Filter(page[..j], InSlot(s.slots, s.slot, s.views(pages).now));
            s.Collected(orders + kept, pages + 1, Some(KeyOf(page[j - 1])))
  {
    var kept := Filter(page[..j], InSlot(s.slots, s.slot, s.views(pages).now));
    var last := page[j - 1];
    assert last in page && Past(last, cursor);
    Kept(page, InSlot(s.slots, s.slot, s.views(pages).now), j);
    SometimeLater(s, orders, pages, cursor);
    hide InSlot, Filter, ExpireKey, Scan.Collected, Ascending, KeyOf;
    assert forall o :: s.Visible(pages, o) && Past(o, cursor) && !Past(o, Some(KeyOf(last))) ==> o in page;
    assert forall o :: o in kept <==> s.Visible(pages, o) && Past(o, cursor) && !Past(o, Some(KeyOf(last)));
    hide *;
    CollectMore(s, orders, pages, cursor, kept, last);
  }

  /** The same, from what was kept. */
  lemma CollectMore(s: Scan, orders: Rows, pages: nat, cursor: Cursor, kept: Rows, last: Order)
    requires s.Collected(orders, pages, cursor) && Past(last, cursor) && Ascending(kept, ExpireKey())
    requires forall o :: o in orders ==> s.SometimeVisible(pages + 1, o)
    requires forall o :: o in kept ==> s.Visible(pages, o) && Past(o, cursor) && !Past(o, Some(KeyOf(last)))
    requires forall o :: s.Visible(pages, o) && Past(o, cursor) && !Past(o, Some(KeyOf(last))) ==> o in kept
    ensures s.Collected(orders + kept, pages + 1, Some(KeyOf(last)))
  {
    hide Scan.Visible, InSlot, Readable, RowsOf, Filter, Eligible, ExpireKey, Less;
    JoinAscends(orders, kept, cursor);
    forall o | o in kept ensures s.SometimeVisible(pages + 1, o) {
      assert s.Visible(pages, o);
    }
    forall o | s.AlwaysVisible(pages + 1, o) && !Past(o, Some(KeyOf(last))) ensures o in orders + kept {
      assert s.Visible(pages, o) && s.AlwaysVisible(pages, o);
    }
    hide Scan.SometimeVisible, Scan.AlwaysVisible, Ascending;
  }

  /** What lies past the cursor continues what does not. */
  lemma JoinAscends(orders: Rows, kept: Rows, cursor: Cursor)
    requires Ascending(orders, ExpireKey()) && Ascending(kept, ExpireKey())
    requires forall o :: o in orders ==> !Past(o, cursor) || cursor.None?
    requires cursor.None? ==> orders == []
    requires forall o :: o in kept ==> Past(o, cursor)
    ensures Ascending(orders + kept, ExpireKey())
  {
    var all := orders + kept;
    forall i, k | 0 <= i < k < |all| ensures Less(ExpireKey()(all[i]), ExpireKey()(all[k])) {
      if i < |orders| <= k {
        var a, b := orders[i], kept[k - |orders|];
        assert a in orders && b in kept;
        PastIsLess(b, a);
      }
    }
  }

  lemma NothingKept(orders: Rows, page: Rows, p: Order -> bool)
    requires page == []
    ensures orders + Filter(page, p) == orders
  {}

  lemma Start(s: Scan)
    requires s.Valid()
    ensures s.Collected([], 0, None)
  {}

  /** A page that is not full is the last: nothing visible throughout is missing. */
  lemma Exhausted(s: Scan, orders: Rows, pages: nat, cursor: Cursor, page: Rows, n: int, limit: int)
    requires s.Valid() && s.Collected(orders, pages, cursor)
    requires Readable(s.views(pages), s.table)
    requires PageOf(page, RowsOf(s.views(pages), s.table), s.before, cursor, n) && |page| < n
    requires |orders + Filter(page, InSlot(s.slots, s.slot, s.views(pages).now))| < limit
    ensures s.Answers(orders + Filter(page, InSlot(s.slots, s.slot, s.views(pages).now)), pages + 1, limit)
  {
    var all := orders + Filter(page, InSlot(s.slots, s.slot, s.views(pages).now));
    hide *;
    NothingMissing(s, orders, pages, cursor, page, n);
    if page == [] {
      NothingKept(orders, page, InSlot(s.slots, s.slot, s.views(pages).now));
      FromCollected(s, orders, pages, cursor);
      SometimeLater(s, orders, pages, cursor);
    } else {
      assert page[..|page|] == page;
      Collect(s, orders, pages, cursor, page, n, |page|);
      FromCollected(s, all, pages + 1, Some(KeyOf(page[|page| - 1])));
    }
    AllAnswer(s, all, pages + 1, limit);
  }

  lemma FromCollected(s: Scan, orders: Rows, pages: nat, cursor: Cursor)
    requires s.Collected(orders, pages, cursor)
    ensures Ascending(orders, ExpireKey()) && forall o :: o in orders ==> s.SometimeVisible(pages, o)
  {
    hide Scan.SometimeVisible, Scan.AlwaysVisible, Ascending, Past;
  }

  lemma AllAnswer(s: Scan, orders: Rows, pages: nat, limit: int)
    requires pages > 0 && |orders| < limit && Ascending(orders, ExpireKey())
    requires forall o :: o in orders ==> s.SometimeVisible(pages, o)
    requires forall o :: s.AlwaysVisible(pages, o) ==> o in orders
    ensures s.Answers(orders, pages, limit)
  {
    hide Scan.AlwaysVisible, Scan.SometimeVisible, ExpireKey, Less;
  }

  lemma SometimeLater(s: Scan, orders: Rows, pages: nat, cursor: Cursor)
    requires s.Valid() && s.Collected(orders, pages, cursor)
    ensures forall o :: o in orders ==> s.SometimeVisible(pages + 1, o)
  {
    hide Scan.Visible;
    forall o | o in orders ensures s.SometimeVisible(pages + 1, o) {
      var k :| 0 <= k < pages && s.Visible(k, o);
    }
  }

  lemma NothingMissing(s: Scan, orders: Rows, pages: nat, cursor: Cursor, page: Rows, n: int)
    requires s.Valid() && s.Collected(orders, pages, cursor)
    requires Readable(s.views(pages), s.table)
    requires PageOf(page, RowsOf(s.views(pages), s.table), s.before, cursor, n) && |page| < n
    ensures forall o :: s.AlwaysVisible(pages + 1, o) ==>
              o in orders + Filter(page, InSlot(s.slots, s.slot, s.views(pages).now))
  {
    var v := s.views(pages);
    forall o | s.AlwaysVisible(pages + 1, o) ensures o in orders + Filter(page, InSlot(s.slots, s.slot, v.now)) {
      assert s.Visible(pages, o) && s.AlwaysVisible(pages, o);
      FilterMembers(page, InSlot(s.slots, s.slot, v.now), o);
    }
  }

  /** Where a cursor can be: at an eligible row. */
  ghost predicate Within(cursor: Cursor, before: int) {
    cursor.Some? ==> cursor.value.0 <= before && cursor.value.1 <= INT64_MAX
  }

  /** The last row of a page is beyond the cursor, in the bounded space of keys. */
  lemma CursorAdvances(s: Scan, pages: nat, cursor: Cursor, page: Rows, n: int)
    requires s.Valid() && PageOf(page, RowsOf(s.views(pages), s.table), s.before, cursor, n) && page != []
    ensures var next := KeyOf(page[|page| - 1]);
            && Within(Some(next), s.before)
            && (cursor.Some? ==> next.0 > cursor.value.0 || (next.0 == cursor.value.0 && next.1 > cursor.value.1))
  {
    var last := page[|page| - 1];
    assert last in page;
    assert Readable(s.views(pages), s.table);
    assert Proper(RowsOf(s.views(pages), s.table));
  }

  lemma AnswersAtLimit(s: Scan, orders: Rows, pages: nat, limit: int, last: Order)
    requires s.Valid() && pages > 0 && |orders| == limit > 0 && orders[limit - 1] == last
    requires s.Collected(orders, pages, Some(KeyOf(last)))
    ensures s.Answers(orders, pages, limit)
  {
    forall o | s.AlwaysVisible(pages, o) && o !in orders ensures Less(ExpireKey()(last), ExpireKey()(o)) {
      PastIsLess(o, last);
    }
  }

  /** FindExpiredUnpaidBySlot. `pages` counts the queries made; every page k was read from view k. The scan
      ends however the tables go on changing, because its cursor only moves up to `before`. */
  method FindExpiredUnpaidBySlot(deps: Deps, logicSlot: int, before: int, limit: int, views: Views)
    returns (r: ScanOutcome, pages: nat)
    requires PrimaryKeys(views)
    ensures TableOfSlot(deps, logicSlot).Err? ==> r == Failed(Routing(TableOfSlot(deps, logicSlot).error))
    ensures TableOfSlot(deps, logicSlot).Ok? && limit <= 0 ==> r == Found([]) && pages == 0
    ensures TableOfSlot(deps, logicSlot).Ok? && limit > 0 ==>
              var s := Scan(views, TableOfSlot(deps, logicSlot).value, deps.slots, logicSlot, before);
              && pages > 0
              && (forall k :: 0 <= k < pages - 1 ==> Readable(views(k), s.table))
              && (r.Found? <==> Readable(views(pages - 1), s.table))
              && (r.Found? ==> s.Answers(r.orders, pages, limit))
              && (r.Failed? ==> r == Failed(QueryFailed))
  {
    hide TableOfSlot, Scan.Collected, Scan.Answers, PageOf, Query, InSlot, RowsOf, Filter, KeyOf, PrimaryKeys;
    pages := 0;
    var target := TableOfSlot(deps, logicSlot);
    if target.Err? {
      return Failed(Routing(target.error)), 0;
    }
    var t := target.value;
    if limit <= 0 {
      return Found([]), 0;
    }
    var queryLimit := if limit < 32 then 32 else limit;
    var orders: Rows := [];
    var cursor: Cursor := None;
    ghost var s := Scan(views, t, deps.slots, logicSlot, before);
    Start(s);
    while |orders| < limit
      invariant |orders| < limit
      invariant s.Collected(orders, pages, cursor)
      invariant forall k :: 0 <= k < pages ==> Readable(views(k), t)
      invariant Within(cursor, before)
      decreases cursor.None?,
                if cursor.None? then 0 else before - cursor.value.0,
                if cursor.None? then 0 else INT64_MAX - cursor.value.1
    {
      var view := views(pages);
      if !Readable(view, t) {
        return Failed(QueryFailed), pages + 1;
      }
      var batch := Query(RowsOf(view, t), before, cursor, queryLimit);
      QueryView(s, pages, cursor, queryLimit);
      if |batch| == 0 {
        NothingKept(orders, batch, InSlot(deps.slots, logicSlot, view.now));
        Exhausted(s, orders, pages, cursor, batch, queryLimit, limit);
        return Found(orders), pages + 1;
      }
      var more, used := KeepMatching(orders, batch, deps.slots, logicSlot, view.now, limit);
      Collect(s, orders, pages, cursor, batch, queryLimit, used);
      if |more| >= limit {
        AnswersAtLimit(s, more, pages + 1, limit, batch[used - 1]);
        return Found(more), pages + 1;
      }
      assert batch[..|batch|] == batch;
      if |batch| < queryLimit {
        Exhausted(s, orders, pages, cursor, batch, queryLimit, limit);
        return Found(more), pages + 1;
      }
      CursorAdvances(s, pages, cursor, batch, queryLimit);
      orders := more;
      cursor := Some(KeyOf(batch[|batch| - 1]));
      pages := pages + 1;
    }
  }

  /** The inner loop: keep the matching rows of a batch until the limit is reached. */
  method KeepMatching(orders: Rows, batch: Rows, c: Slots, slot: int, now: int, limit: int)
    returns (more: Rows, used: nat)
    requires |orders| < limit && batch != []
    ensures 0 < used <= |batch| && more == orders + Filter(batch[..used], InSlot(c, slot, now))
    ensures |more| <= limit
    ensures |more| == limit ==> more[|more| - 1] == batch[used - 1]
    ensures |more| < limit ==> used == |batch|
  {
    more := orders;
    for j := 0 to |batch|
      invariant more == orders + Filter(batch[..j], InSlot(c, slot, now))
      invariant |more| < limit
    {
      assert batch[..j + 1] == batch[..j] + [batch[j]];
      FilterAppend(batch[..j], [batch[j]], InSlot(c, slot, now));
      if InSlot(c, slot, now)(batch[j]) {
        more := more + [batch[j]];
        if |more| >= limit {
          return more, j + 1;
        }
      }
    }
    used := |batch|;
    assert batch[..|batch|] == batch;
  }

  // ----- a stable table

  /** Sort by (expire time, id), filter by slot. */
  function SlotOrders(c: Slots, rows: Rows, slot: int, before: int, now: int): Rows {
    Filter(Sort(Filter(rows, Wanted(before, None)), ExpireKey()), InSlot(c, slot, now))
  }

  lemma SlotOrdersSpec(c: Slots, rows: Rows, slot: int, before: int, now: int)
    requires DistinctIds(rows)
    ensures Ascending(SlotOrders(c, rows, slot, before, now), ExpireKey())
    ensures forall o :: o in SlotOrders(c, rows, slot, before, now) <==>
                        o in rows && Eligible(o, before) && InSlot(c, slot, now)(o)
  {
    var kept := Filter(rows, Wanted(before, None));
    DistinctIdsDistinctKeys(rows);
    FilterDistinct(rows, Wanted(before, None), ExpireKey());
    SortSpec(kept, ExpireKey());
    FilterAscending(Sort(kept, ExpireKey()), InSlot(c, slot, now), ExpireKey());
    forall o ensures o in SlotOrders(c, rows, slot, before, now) <==>
                     o in rows && Eligible(o, before) && InSlot(c, slot, now)(o)
    {
      FilterMembers(rows, Wanted(before, None), o);
      FilterMembers(Sort(kept, ExpireKey()), InSlot(c, slot, now), o);
    }
  }

  lemma StableVisibility(s: Scan, pages: nat, o: Order)
    requires s.Valid() && pages > 0
    requires forall k: nat :: s.views(k) == s.views(0)
    ensures s.AlwaysVisible(pages, o) <==> s.Visible(0, o)
    ensures s.SometimeVisible(pages, o) <==> s.Visible(0, o)
  {
    hide InSlot, Eligible, Readable;
    forall k: nat ensures s.Visible(k, o) <==> s.Visible(0, o) {
      assert s.views(k) == s.views(0);
    }
  }

  /** When nothing changes between pages, the paged scan is: sort, filter by slot, take the limit. */
  lemma StableScan(s: Scan, orders: Rows, pages: nat, limit: int)
    requires s.Valid() && s.Answers(orders, pages, limit)
    requires forall k: nat :: s.views(k) == s.views(0)
    requires Readable(s.views(0), s.table)
    ensures orders == Take(SlotOrders(s.slots, RowsOf(s.views(0), s.table), s.slot, s.before, s.views(0).now), limit)
  {
    var v := s.views(0);
    var rows := RowsOf(v, s.table);
    var whole := SlotOrders(s.slots, rows, s.slot, s.before, v.now);
    SlotOrdersSpec(s.slots, rows, s.slot, s.before, v.now);
    forall o ensures o in whole <==> s.AlwaysVisible(pages, o)
             ensures o in whole <==> s.SometimeVisible(pages, o)
    {
      StableVisibility(s, pages, o);
      assert s.views(0) == v;
    }
    hide SlotOrders, Scan.AlwaysVisible, Scan.SometimeVisible;
    LimitedIsPrefix(orders, whole, limit);
  }

  lemma LimitedIsPrefix(orders: Rows, whole: Rows, limit: int)
    requires limit > 0 && |orders| <= limit
    requires Ascending(orders, ExpireKey()) && Ascending(whole, ExpireKey())
    requires forall o :: o in orders ==> o in whole
    requires forall o :: o in whole && o !in orders ==>
               |orders| == limit && Less(ExpireKey()(orders[|orders| - 1]), ExpireKey()(o))
    ensures orders == Take(whole, limit)
  {
    forall x, y | x in whole && y in orders && Less(ExpireKey()(x), ExpireKey()(y)) ensures x in orders {
      NotBeyondLast(orders, x, y);
    }
    DownClosedIsPrefix(orders, whole, ExpireKey());
    if |orders| < limit {
      AscendingUnique(orders, whole, ExpireKey());
    }
  }

  lemma NotBeyondLast(orders: Rows, x: Order, y: Order)
    requires Ascending(orders, ExpireKey()) && y in orders && Less(ExpireKey()(x), ExpireKey()(y))
    ensures !Less(ExpireKey()(orders[|orders| - 1]), ExpireKey()(x))
  {
    var j :| 0 <= j < |orders| && orders[j] == y;
    var last := orders[|orders| - 1];
    if Less(ExpireKey()(last), ExpireKey()(x)) {
      LessTransitive(ExpireKey()(last), ExpireKey()(x), ExpireKey()(y));
      LessAsymmetric(ExpireKey()(last), ExpireKey()(y));
    }
  }

  // ----- scans partition the store

  /** A clock-independent fact behind slot filters: an order is in at most one slot. */
  lemma SlotsDisjoint(c: Slots, rows: Rows, slot: int, slot2: int, before: int, now: int, o: Order)
    requires DistinctIds(rows) && slot != slot2
    ensures !(o in SlotOrders(c, rows, slot, before, now) && o in SlotOrders(c, rows, slot2, before, now))
  {
    SlotOrdersSpec(c, rows, slot, before, now);
    SlotOrdersSpec(c, rows, slot2, before, now);
  }

  /** Over a store that refines one table, the unlimited scans of the 1024 slots, each on the table
      its slot is routed to, return exactly the eligible orders of the one table whose number the
      clock accepts, each from exactly one slot: the one in its number. */
  lemma ScansPartitionStore(deps: Deps, tables: Tables, single: Rows, before: int, now: int, slot: int, o: Order)
    requires Refines(deps, tables, single) && 0 <= slot < 1024
    requires forall t :: t in tables ==> DistinctIds(tables[t])
    ensures o in SlotOrders(deps.slots, tables[TableOfSlot(deps, slot).value], slot, before, now) <==>
            && o in single && Eligible(o, before)
            && deps.slots.accepts(o.orderNumber, now) && deps.slots.ofNumber(o.orderNumber) == slot
  {
    hide TableOfSlot;
    var t := TableOfSlot(deps, slot).value;
    SlotOrdersSpec(deps.slots, tables[t], slot, before, now);
    FilterMembers(single, AtHome(deps, t), o);
  }
}
