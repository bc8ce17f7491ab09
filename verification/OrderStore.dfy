/** The sharded order repository over its tables, and the single table it stands for. */
module OrderStore {
  import opened LogicSlot
  import opened Ordering
  import ON = OrderNumber
  import RM = RouteMap

  datatype Order = Order(
    id: int, orderNumber: int, userID: Word, status: int, orderStatus: int, createTime: int, expireTime: int)

  type Rows = seq<Order>

  /** A physical order table: the database connection key and the table suffix. */
  datatype Table = Table(dbKey: string, suffix: string)

  type Tables = map<Table, Rows>

  datatype Option<T> = None | Some(value: T)

  datatype Error =
    | RouteNotFound | InvalidOrderNumber | DbKeyNotConfigured | TableMissing
    | RowNotFound | DuplicateOrderNumber | CallbackFailed | BadPage

  datatype Result<T> = Ok(value: T) | Err(error: Error)

  /** How slots are read: the slot of a user, the slot written in an order number, and whether a clock
      accepts the number. The router is built on one such reading. */
  datatype Slots = Slots(ofUser: Word -> int, ofNumber: int -> int, accepts: (int, int) -> bool)

  /** Every user and every accepted number has one of the 1024 slots. */
  ghost predicate Coherent(c: Slots) {
    && (forall u :: 0 <= c.ofUser(u) < 1024)
    && (forall n, now :: c.accepts(n, now) ==> 0 <= c.ofNumber(n) < 1024)
  }

  /** What the repository is built from: the route map, if any, the configured connections, and the way
      its router reads slots. */
  datatype Deps = Deps(routeMap: Option<RM.Snapshot>, dbKeys: set<string>, slots: Slots)

  // ----- routing

  /** RouteByLogicSlot, then storeForRoute. */
  function TableOfSlot(deps: Deps, slot: int): Result<Table> {
    if deps.routeMap.None? then Err(RouteNotFound)
    else
      match RM.RouteByLogicSlot(deps.routeMap.value, slot)
      case Err(_) => Err(RouteNotFound)
      case Ok(route) =>
        if route.dbKey !in deps.dbKeys then Err(DbKeyNotConfigured)
        else Ok(Table(route.dbKey, route.tableSuffix))
  }

  function TableOfUser(deps: Deps, userID: Word): Result<Table> {
    TableOfSlot(deps, deps.slots.ofUser(userID))
  }

  function TableOfNumber(deps: Deps, orderNumber: int, now: int): Result<Table> {
    if deps.routeMap.None? then Err(RouteNotFound)
    else if !deps.slots.accepts(orderNumber, now) then Err(InvalidOrderNumber)
    else TableOfSlot(deps, deps.slots.ofNumber(orderNumber))
  }

  // ----- one table

  predicate Live(o: Order) { o.status == 1 }

  /** A statement of a transaction callback; Fail is the callback returning an error. */
  datatype Statement = InsertOrder(order: Order) | Cancel(number: int) | Pay(number: int) | Refund(number: int) | Fail

  /** The three guarded status updates, applied to one row. */
  function Updated(o: Order, s: Statement): Order {
    match s
    case Cancel(n) => if Live(o) && o.orderNumber == n && o.orderStatus == 1 then o.(orderStatus := 2) else o
    case Pay(n) => if Live(o) && o.orderNumber == n && o.orderStatus == 1 then o.(orderStatus := 3) else o
    case Refund(n) => if Live(o) && o.orderNumber == n && o.orderStatus in {2, 3} then o.(orderStatus := 4) else o
    case _ => o
  }

  function UpdateRows(rows: Rows, s: Statement): Rows {
    if rows == [] then [] else [Updated(rows[0], s)] + UpdateRows(rows[1..], s)
  }

  function HasNumber(n: int): Order -> bool {
    (o: Order) => o.orderNumber == n
  }

  function Execute(rows: Rows, s: Statement): Result<Rows> {
    match s
    case InsertOrder(o) =>
      if Filter(rows, HasNumber(o.orderNumber)) != [] then Err(DuplicateOrderNumber) else Ok(rows + [o])
    case Fail => Err(CallbackFailed)
    case _ => Ok(UpdateRows(rows, s))
  }

  /** A transaction on one table: all statements, or none. */
  function Transaction(rows: Rows, body: seq<Statement>): Result<Rows>
    decreases |body|
  {
    if body == [] then Ok(rows)
    else
      match Execute(rows, body[0])
      case Err(e) => Err(e)
      case Ok(next) => Transaction(next, body[1..])
  }

  function LiveNumber(n: int): Order -> bool {
    (o: Order) => Live(o) && o.orderNumber == n
  }

  function FindOne(rows: Rows, n: int): Result<Order> {
    var found := Filter(rows, LiveNumber(n));
    if found == [] then Err(RowNotFound) else Ok(found[0])
  }

  function OfUser(userID: Word, orderStatus: int): Order -> bool {
    (o: Order) => Live(o) && o.userID == userID && (orderStatus > 0 ==> o.orderStatus == orderStatus)
  }

  /** Newest first. */
  function PageKey(): Order -> Key {
    (o: Order) => [-o.createTime, -o.id]
  }

  /** Page and total; an empty result needs no page. */
  function FindPage(rows: Rows, userID: Word, orderStatus: int, pageNumber: int, pageSize: int): Result<(Rows, int)> {
    var mine := Filter(rows, OfUser(userID, orderStatus));
    var offset := (pageNumber - 1) * pageSize;
    if mine == [] then Ok(([], 0))
    else if offset < 0 || pageSize < 0 then Err(BadPage)
    else
      var sorted := Sort(mine, PageKey());
      Ok((Take(if offset <= |sorted| then sorted[offset..] else [], pageSize), |mine|))
  }

  // ----- the sharded repository

  /** New tables, and whether the transaction committed. */
  datatype Outcome = Outcome(tables: Tables, error: Option<Error>)

  function TransactOn(tables: Tables, target: Result<Table>, body: seq<Statement>): Outcome {
    match target
    case Err(e) => Outcome(tables, Some(e))
    case Ok(t) =>
      if t !in tables then Outcome(tables, Some(TableMissing))
      else
        match Transaction(tables[t], body)
        case Err(e) => Outcome(tables, Some(e))
        case Ok(rows) => Outcome(tables[t := rows], None)
  }

  function TransactByUserID(deps: Deps, tables: Tables, userID: Word, body: seq<Statement>): Outcome {
    TransactOn(tables, TableOfUser(deps, userID), body)
  }

  function TransactByOrderNumber(deps: Deps, tables: Tables, orderNumber: int, now: int,
      body: seq<Statement>): Outcome {
    TransactOn(tables, TableOfNumber(deps, orderNumber, now), body)
  }

  function FindOrderByNumber(deps: Deps, tables: Tables, orderNumber: int, now: int): Result<Order> {
    match TableOfNumber(deps, orderNumber, now)
    case Err(e) => Err(e)
    case Ok(t) => if t !in tables then Err(TableMissing) else FindOne(tables[t], orderNumber)
  }

  function FindOrderPageByUser(
    deps: Deps, tables: Tables, userID: Word, orderStatus: int, pageNumber: int, pageSize: int): Result<(Rows, int)>
  {
    match TableOfUser(deps, userID)
    case Err(e) => Err(e)
    case Ok(t) =>
      if t !in tables then Err(TableMissing) else FindPage(tables[t], userID, orderStatus, pageNumber, pageSize)
  }

  // ----- the single table it refines

  /** Rows whose number carries the slot of a table. */
  function AtHome(deps: Deps, t: Table): Order -> bool {
    (o: Order) => TableOfSlot(deps, deps.slots.ofNumber(o.orderNumber)) == Ok(t)
  }

  /** Every slot is routed to a configured table that exists. */
  ghost predicate Deployed(deps: Deps, tables: Tables) {
    && deps.routeMap.Some? && Coherent(deps.slots)
    && forall s :: 0 <= s < 1024 ==> TableOfSlot(deps, s).Ok? && TableOfSlot(deps, s).value in tables
  }

  /** Some entry of the current version serves the slot, on a configured database and a table that exists. */
  ghost predicate Served(deps: Deps, tables: Tables, entries: seq<RM.RouteEntry>, version: string, s: int) {
    exists i :: 0 <= i < |entries| && Serves(deps, tables, entries[i], version, s)
  }

  ghost predicate Serves(deps: Deps, tables: Tables, e: RM.RouteEntry, version: string, s: int) {
    e.version == version && e.logicSlot == s && e.dbKey in deps.dbKeys && Table(e.dbKey, e.tableSuffix) in tables
  }

  /** A repository built on a loaded route map is deployed exactly if the list it was loaded from serves
      every slot. */
  lemma DeployedIff(deps: Deps, tables: Tables, entries: seq<RM.RouteEntry>)
    requires deps.routeMap.Some? && Coherent(deps.slots)
    requires RM.WellFormed(entries) && RM.Holds(deps.routeMap.value.entries, entries)
    ensures Deployed(deps, tables) <==>
            forall s :: 0 <= s < 1024 ==> Served(deps, tables, entries, deps.routeMap.value.currentVersion, s)
  {
    forall s ensures TableOfSlot(deps, s).Ok? && TableOfSlot(deps, s).value in tables <==>
                     Served(deps, tables, entries, deps.routeMap.value.currentVersion, s) {
      SlotServedIff(deps, tables, entries, s);
    }
    hide TableOfSlot, Served, RM.WellFormed, RM.Holds, Coherent;
  }

  lemma SlotServedIff(deps: Deps, tables: Tables, entries: seq<RM.RouteEntry>, s: int)
    requires deps.routeMap.Some? && RM.WellFormed(entries) && RM.Holds(deps.routeMap.value.entries, entries)
    ensures TableOfSlot(deps, s).Ok? && TableOfSlot(deps, s).value in tables <==>
            Served(deps, tables, entries, deps.routeMap.value.currentVersion, s)
  {
    var m := deps.routeMap.value;
    hide RM.WellFormed;
    if i :| 0 <= i < |entries| && Serves(deps, tables, entries[i], m.currentVersion, s) {
      EntryServes(deps, tables, entries, i, s);
    } else if RM.RouteByLogicSlot(m, s).Ok? {
      var e := m.entries[m.currentVersion][s];
      var i :| 0 <= i < |entries| && entries[i] == e;
      EntryServes(deps, tables, entries, i, s);
    }
  }

  lemma EntryServes(deps: Deps, tables: Tables, entries: seq<RM.RouteEntry>, i: nat, s: int)
    requires deps.routeMap.Some? && RM.Holds(deps.routeMap.value.entries, entries)
    requires i < |entries| && entries[i].version == deps.routeMap.value.currentVersion && entries[i].logicSlot == s
    ensures TableOfSlot(deps, s).Ok? && TableOfSlot(deps, s).value in tables <==>
            Serves(deps, tables, entries[i], deps.routeMap.value.currentVersion, s)
  {
    var m := deps.routeMap.value;
    assert m.entries[m.currentVersion][s] == entries[i];
    hide RM.Holds;
  }

  /** The number carries the slot of its owner. */
  ghost predicate Owned(c: Slots, o: Order) {
    c.ofNumber(o.orderNumber) == c.ofUser(o.userID)
  }

  /** Each table is the part of the one table that belongs there, in the same row order. */
  ghost predicate Refines(deps: Deps, tables: Tables, single: Rows) {
    && Deployed(deps, tables)
    && (forall t :: t in tables ==> tables[t] == Filter(single, AtHome(deps, t)))
    && (forall o :: o in single ==> Owned(deps.slots, o))
  }

  /** The body of a transaction on a slot touches orders of that slot only. */
  ghost predicate StaysInSlot(c: Slots, s: Statement, slot: int) {
    match s
    case InsertOrder(o) => Owned(c, o) && c.ofNumber(o.orderNumber) == slot
    case Cancel(n) => c.ofNumber(n) == slot
    case Pay(n) => c.ofNumber(n) == slot
    case Refund(n) => c.ofNumber(n) == slot
    case Fail => true
  }

  /** The predicate does not look at anything a status update changes. */
  ghost predicate Stable(p: Order -> bool) {
    forall o: Order, s: Statement :: p(Updated(o, s)) == p(o)
  }

  lemma {:induction false} UpdateFilter(rows: Rows, s: Statement, p: Order -> bool)
    requires Stable(p)
    ensures Filter(UpdateRows(rows, s), p) == UpdateRows(Filter(rows, p), s)
  {
    if rows != [] {
      UpdateFilter(rows[1..], s, p);
      var rest := UpdateRows(rows[1..], s);
      assert p(Updated(rows[0], s)) == p(rows[0]);
      assert ([Updated(rows[0], s)] + rest)[1..] == rest;
      var kept := Filter(rows[1..], p);
      assert [] + kept == kept && ([rows[0]] + kept)[1..] == kept;
    }
  }

  lemma {:induction false} UpdateElsewhere(rows: Rows, s: Statement)
    requires forall o :: o in rows ==> Updated(o, s) == o
    ensures UpdateRows(rows, s) == rows
  {
    if rows != [] {
      UpdateElsewhere(rows[1..], s);
      assert rows == [rows[0]] + rows[1..] && rows[0] in rows;
    }
  }

  lemma {:induction false} UpdateOwned(c: Slots, rows: Rows, s: Statement)
    requires forall o :: o in rows ==> Owned(c, o)
    ensures forall o :: o in UpdateRows(rows, s) ==> Owned(c, o)
    decreases |rows|
  {
    if rows != [] {
      UpdateOwned(c, rows[1..], s);
      assert rows[0] in rows;
    }
  }

  lemma AtHomeStable(deps: Deps, t: Table)
    ensures Stable(AtHome(deps, t))
  {
    hide TableOfSlot;
  }

  /** One statement on the home table does what it does on the one table, and no other table's
      part of the one table changes. */
  lemma ExecuteRefines(deps: Deps, single: Rows, slot: int, t: Table, s: Statement)
    requires TableOfSlot(deps, slot) == Ok(t) && StaysInSlot(deps.slots, s, slot)
    requires forall o :: o in single ==> Owned(deps.slots, o)
    ensures var whole := Execute(single, s);
            var part := Execute(Filter(single, AtHome(deps, t)), s);
            && (part.Err? <==> whole.Err?) && (part.Err? ==> part == whole)
            && (part.Ok? ==>
                  && part.value == Filter(whole.value, AtHome(deps, t))
                  && (forall u :: u != t ==> Filter(whole.value, AtHome(deps, u)) == Filter(single, AtHome(deps, u)))
                  && (forall o :: o in whole.value ==> Owned(deps.slots, o)))
  {
    hide TableOfSlot;
    match s {
      case Fail =>
      case InsertOrder(o) =>
        FilterTwice(single, AtHome(deps, t), HasNumber(o.orderNumber));
        forall u ensures Filter(single + [o], AtHome(deps, u)) ==
                         Filter(single, AtHome(deps, u)) + (if u == t then [o] else [])
        {
          FilterAppend(single, [o], AtHome(deps, u));
          assert [o][1..] == [];
        }
      case _ =>
        AtHomeStable(deps, t);
        UpdateFilter(single, s, AtHome(deps, t));
        UpdateOwned(deps.slots, single, s);
        forall u | u != t
          ensures Filter(UpdateRows(single, s), AtHome(deps, u)) == Filter(single, AtHome(deps, u))
        {
          AtHomeStable(deps, u);
          UpdateFilter(single, s, AtHome(deps, u));
          var others := Filter(single, AtHome(deps, u));
          forall o | o in others ensures Updated(o, s) == o {
            FilterMembers(single, AtHome(deps, u), o);
          }
          UpdateElsewhere(others, s);
        }
    }
  }

  lemma {:induction false} TransactionRefines(deps: Deps, single: Rows, slot: int, t: Table, body: seq<Statement>)
    requires TableOfSlot(deps, slot) == Ok(t)
    requires forall s :: s in body ==> StaysInSlot(deps.slots, s, slot)
    requires forall o :: o in single ==> Owned(deps.slots, o)
    ensures var whole := Transaction(single, body);
            var part := Transaction(Filter(single, AtHome(deps, t)), body);
            && (part.Err? <==> whole.Err?) && (part.Err? ==> part == whole)
            && (part.Ok? ==>
                  && part.value == Filter(whole.value, AtHome(deps, t))
                  && (forall u :: u != t ==> Filter(whole.value, AtHome(deps, u)) == Filter(single, AtHome(deps, u)))
                  && (forall o :: o in whole.value ==> Owned(deps.slots, o)))
    decreases |body|
  {
    hide TableOfSlot, Execute;
    if body != [] {
      assert body[0] in body;
      ExecuteRefines(deps, single, slot, t, body[0]);
      var next := Execute(single, body[0]);
      if next.Ok? {
        assert forall s :: s in body[1..] ==> s in body;
        TransactionRefines(deps, next.value, slot, t, body[1..]);
      }
    }
  }

  // ----- requests

  /** A call of the repository that writes. */
  datatype Request =
    | ByUser(userID: Word, body: seq<Statement>)
    | ByNumber(number: int, now: int, body: seq<Statement>)

  ghost predicate WellRouted(c: Slots, r: Request) {
    match r
    case ByUser(u, body) => forall s :: s in body ==> StaysInSlot(c, s, c.ofUser(u))
    case ByNumber(n, _, body) => forall s :: s in body ==> StaysInSlot(c, s, c.ofNumber(n))
  }

  function Handle(deps: Deps, tables: Tables, r: Request): Outcome {
    match r
    case ByUser(u, body) => TransactByUserID(deps, tables, u, body)
    case ByNumber(n, now, body) => TransactByOrderNumber(deps, tables, n, now, body)
  }

  /** The same request on one table: only the number check is left of routing. */
  function HandleSingle(c: Slots, single: Rows, r: Request): (Rows, Option<Error>) {
    if r.ByNumber? && !c.accepts(r.number, r.now) then (single, Some(InvalidOrderNumber))
    else
      match Transaction(single, r.body)
      case Err(e) => (single, Some(e))
      case Ok(rows) => (rows, None)
  }

  lemma TransactOnRefines(deps: Deps, tables: Tables, single: Rows, slot: int, body: seq<Statement>)
    requires Refines(deps, tables, single) && 0 <= slot < 1024
    requires forall s :: s in body ==> StaysInSlot(deps.slots, s, slot)
    ensures var out := TransactOn(tables, TableOfSlot(deps, slot), body);
            var whole := Transaction(single, body);
            && out.error == (if whole.Err? then Some(whole.error) else None)
            && Refines(deps, out.tables, if whole.Err? then single else whole.value)
            && (whole.Err? ==> out.tables == tables)
  {
    hide TableOfSlot, Transaction, AtHome;
    var t := TableOfSlot(deps, slot).value;
    TransactionRefines(deps, single, slot, t, body);
  }

  /** One request: the same answer as the one table gives, and refinement is kept. */
  lemma HandleRefines(deps: Deps, tables: Tables, single: Rows, r: Request)
    requires Refines(deps, tables, single) && WellRouted(deps.slots, r)
    ensures var (next, error) := HandleSingle(deps.slots, single, r);
            var out := Handle(deps, tables, r);
            out.error == error && Refines(deps, out.tables, next)
  {
    IsDeployed(deps, tables, single);
    hide Transaction, Refines;
    match r {
      case ByUser(u, body) =>
        TransactOnRefines(deps, tables, single, deps.slots.ofUser(u), body);
      case ByNumber(n, now, body) =>
        if deps.slots.accepts(n, now) {
          TransactOnRefines(deps, tables, single, deps.slots.ofNumber(n), body);
        }
    }
  }

  lemma IsDeployed(deps: Deps, tables: Tables, single: Rows)
    requires Refines(deps, tables, single)
    ensures deps.routeMap.Some? && Coherent(deps.slots)
  {}

  function HandleAll(deps: Deps, tables: Tables, rs: seq<Request>): (Tables, seq<Option<Error>>)
    decreases |rs|
  {
    if rs == [] then (tables, [])
    else
      var out := Handle(deps, tables, rs[0]);
      var (last, errors) := HandleAll(deps, out.tables, rs[1..]);
      (last, [out.error] + errors)
  }

  function HandleAllSingle(c: Slots, single: Rows, rs: seq<Request>): (Rows, seq<Option<Error>>)
    decreases |rs|
  {
    if rs == [] then (single, [])
    else
      var (next, error) := HandleSingle(c, single, rs[0]);
      var (last, errors) := HandleAllSingle(c, next, rs[1..]);
      (last, [error] + errors)
  }

  /** Any sequence of requests: every answer is the one table's answer, and the tables still hold
      exactly the one table, split by slot. */
  lemma {:induction false} RepositoryRefinesSingleTable(deps: Deps, tables: Tables, single: Rows, rs: seq<Request>)
    requires Refines(deps, tables, single)
    requires forall r :: r in rs ==> WellRouted(deps.slots, r)
    ensures var (last, errors) := HandleAll(deps, tables, rs);
            var (lastSingle, errorsSingle) := HandleAllSingle(deps.slots, single, rs);
            errors == errorsSingle && Refines(deps, last, lastSingle)
    decreases |rs|
  {
    hide Handle, HandleSingle, Refines;
    if rs != [] {
      assert rs[0] in rs;
      HandleRefines(deps, tables, single, rs[0]);
      var next := HandleSingle(deps.slots, single, rs[0]).0;
      assert forall r :: r in rs[1..] ==> r in rs;
      RepositoryRefinesSingleTable(deps, Handle(deps, tables, rs[0]).tables, next, rs[1..]);
    }
  }

  /** Both reads, on any refining tables, answer as the one table does. */
  lemma FindsRefine(
    deps: Deps, tables: Tables, single: Rows, n: int, now: int,
    userID: Word, orderStatus: int, pageNumber: int, pageSize: int)
    requires Refines(deps, tables, single)
    ensures FindOrderByNumber(deps, tables, n, now) ==
              if deps.slots.accepts(n, now) then FindOne(single, n) else Err(InvalidOrderNumber)
    ensures FindOrderPageByUser(deps, tables, userID, orderStatus, pageNumber, pageSize) ==
              FindPage(single, userID, orderStatus, pageNumber, pageSize)
  {
    FindByNumberRefines(deps, tables, single, n, now);
    FindPageRefines(deps, tables, single, userID, orderStatus, pageNumber, pageSize);
  }

  lemma FindByNumberRefines(deps: Deps, tables: Tables, single: Rows, n: int, now: int)
    requires Refines(deps, tables, single)
    ensures FindOrderByNumber(deps, tables, n, now) ==
              if deps.slots.accepts(n, now) then FindOne(single, n) else Err(InvalidOrderNumber)
  {
    hide TableOfSlot;
    if deps.slots.accepts(n, now) {
      var t := TableOfSlot(deps, deps.slots.ofNumber(n)).value;
      FilterTwice(single, AtHome(deps, t), LiveNumber(n));
    }
  }

  lemma FindPageRefines(
    deps: Deps, tables: Tables, single: Rows, userID: Word, orderStatus: int, pageNumber: int, pageSize: int)
    requires Refines(deps, tables, single)
    ensures FindOrderPageByUser(deps, tables, userID, orderStatus, pageNumber, pageSize) ==
              FindPage(single, userID, orderStatus, pageNumber, pageSize)
  {
    hide TableOfSlot;
    var t := TableOfUser(deps, userID).value;
    FilterTwice(single, AtHome(deps, t), OfUser(userID, orderStatus));
  }

  /** A freshly deployed store: every table empty. */
  lemma EmptyStoreRefines(deps: Deps, tables: Tables)
    requires Deployed(deps, tables) && forall t :: t in tables ==> tables[t] == []
    ensures Refines(deps, tables, [])
  {}

  /** The repository is one table: from empty tables, after any well routed sequence of requests,
      every request and both reads are answered as by a single table. */
  lemma RepositoryActsAsOneTable(
    deps: Deps, tables: Tables, rs: seq<Request>, n: int, now: int,
    userID: Word, orderStatus: int, pageNumber: int, pageSize: int)
    requires Deployed(deps, tables) && forall t :: t in tables ==> tables[t] == []
    requires forall r :: r in rs ==> WellRouted(deps.slots, r)
    ensures var (last, errors) := HandleAll(deps, tables, rs);
            var (single, errorsSingle) := HandleAllSingle(deps.slots, [], rs);
            && errors == errorsSingle
            && FindOrderByNumber(deps, last, n, now) ==
                 (if deps.slots.accepts(n, now) then FindOne(single, n) else Err(InvalidOrderNumber))
            && FindOrderPageByUser(deps, last, userID, orderStatus, pageNumber, pageSize) ==
                 FindPage(single, userID, orderStatus, pageNumber, pageSize)
  {
    hide Refines, HandleAll, HandleAllSingle, FindOrderByNumber, FindOrderPageByUser, FindPage, FindOne;
    EmptyStoreRefines(deps, tables);
    RepositoryRefinesSingleTable(deps, tables, [], rs);
    FindsRefine(deps, HandleAll(deps, tables, rs).0, HandleAllSingle(deps.slots, [], rs).0, n, now,
                userID, orderStatus, pageNumber, pageSize);
  }

  // ----- the slots of LivePass

  /** The slot written in a number, whatever the clock says. */
  function SlotOfNumber(n: int): int {
    ON.Unpack(n).LogicSlot()
  }

  /** How StaticRouter reads slots: SplitMix64 genes of the user, gene bits of the number. */
  ghost predicate IsStatic(c: Slots) {
    && (forall u {:trigger LogicSlotByUserID(u)} :: c.ofUser(u) == LogicSlotByUserID(u))
    && (forall n {:trigger SlotOfNumber(n)} :: c.ofNumber(n) == SlotOfNumber(n))
    && (forall n, now {:trigger ON.LogicSlotByOrderNumber(n, now)} ::
          ON.LogicSlotByOrderNumber(n, now) == if c.accepts(n, now) then ON.Slot(c.ofNumber(n)) else ON.NoSlot)
  }

  function StaticSlots(): Slots {
    Slots(
      (u: Word) => LogicSlotByUserID(u),
      (n: int) => SlotOfNumber(n),
      (n: int, now: int) => ON.ParseOrderNumber(n, now).Parsed?)
  }

  /** There is such a reading, and it is that of the two codecs. */
  lemma StaticSlotsAreStatic()
    ensures IsStatic(StaticSlots())
  {
    hide LogicSlotByUserID, ON.Unpack, ON.IsOldFormat, SlotOfGenes;
    var c := StaticSlots();
    forall n, now
      ensures ON.LogicSlotByOrderNumber(n, now) == if c.accepts(n, now) then ON.Slot(c.ofNumber(n)) else ON.NoSlot
    {}
  }

  /** It is coherent: every user and every accepted number has one of the 1024 slots. */
  lemma StaticSlotsAreCoherent(c: Slots)
    requires IsStatic(c)
    ensures Coherent(c)
  {
    hide DbGene, TableGene;
    forall u ensures 0 <= c.ofUser(u) < 1024 {
      SlotInRange(u);
      assert c.ofUser(u) == LogicSlotByUserID(u);
    }
    forall n, now ensures c.accepts(n, now) ==> 0 <= c.ofNumber(n) < 1024 {
      AcceptedSlot(n, now);
      assert c.ofNumber(n) == SlotOfNumber(n);
      assert ON.LogicSlotByOrderNumber(n, now) == if c.accepts(n, now) then ON.Slot(c.ofNumber(n)) else ON.NoSlot;
    }
  }

  lemma AcceptedSlot(n: int, now: int)
    ensures ON.ParseOrderNumber(n, now).Parsed? ==> 0 <= SlotOfNumber(n) < 1024
  {
    if ON.ParseOrderNumber(n, now).Parsed? {
      ON.PackUnpack(n);
      SlotHalves(ON.Unpack(n).dbGene, ON.Unpack(n).tableGene);
    }
  }

  /** A row whose number was built for its owner is owned. */
  lemma BuiltOrdersAreOwned(o: Order, now: int, workerID: int, seqNo: int)
    requires ON.BuildOrderNumber(o.userID, now, workerID, seqNo) == ON.Built(o.orderNumber)
    ensures SlotOfNumber(o.orderNumber) == LogicSlotByUserID(o.userID) && 0 <= o.orderNumber < ON.INT64_LIMIT
    ensures forall c :: IsStatic(c) ==> Owned(c, o)
  {
    hide DbGene, TableGene;
    ON.BuildSpec(o.userID, now, workerID, seqNo);
  }

  /** The two routes of a built number meet: on every clock that accepts the number, the number
      and its owner lead to the same table. */
  lemma RoutesMeet(deps: Deps, userID: Word, now: int, workerID: int, seqNo: int, later: int)
    requires deps.routeMap.Some? && IsStatic(deps.slots)
    requires ON.BuildOrderNumber(userID, now, workerID, seqNo).Built?
    ensures var n := ON.BuildOrderNumber(userID, now, workerID, seqNo).number;
            TableOfNumber(deps, n, later) ==
              if n != 0 && now <= later + ON.TOLERANCE then TableOfUser(deps, userID) else Err(InvalidOrderNumber)
  {
    var n, c := ON.BuildOrderNumber(userID, now, workerID, seqNo).number, deps.slots;
    assert ON.LogicSlotByOrderNumber(n, later) == if c.accepts(n, later) then ON.Slot(c.ofNumber(n)) else ON.NoSlot;
    assert c.ofUser(userID) == LogicSlotByUserID(userID);
    ON.NumberSlotIsUserSlot(userID, now, workerID, seqNo, later);
    hide IsStatic, TableOfSlot, ON.BuildOrderNumber, ON.LogicSlotByOrderNumber, LogicSlotByUserID;
  }

  // ----- the repository of LivePass

  /** The number was built for the user, at some time by some worker. */
  ghost predicate BuiltFor(n: int, u: Word) {
    exists now, workerID, seqNo :: ON.BuildOrderNumber(u, now, workerID, seqNo) == ON.Built(n)
  }

  lemma BuiltSlot(n: int, u: Word)
    requires BuiltFor(n, u)
    ensures SlotOfNumber(n) == LogicSlotByUserID(u)
  {
    hide DbGene, TableGene;
    var now, workerID, seqNo :| ON.BuildOrderNumber(u, now, workerID, seqNo) == ON.Built(n);
    ON.BuildSpec(u, now, workerID, seqNo);
  }

  /** A statement on orders whose numbers were built for the user. */
  ghost predicate OfOwner(s: Statement, u: Word) {
    match s
    case InsertOrder(o) => o.userID == u && BuiltFor(o.orderNumber, u)
    case Cancel(n) => BuiltFor(n, u)
    case Pay(n) => BuiltFor(n, u)
    case Refund(n) => BuiltFor(n, u)
    case Fail => true
  }

  /** A statement on the order with the number, built for the order's user. */
  ghost predicate OfNumber(s: Statement, number: int) {
    match s
    case InsertOrder(o) => o.orderNumber == number && BuiltFor(number, o.userID)
    case Cancel(n) => n == number
    case Pay(n) => n == number
    case Refund(n) => n == number
    case Fail => true
  }

  /** What callers send: transactions by user on that user's orders, transactions by number on that order. */
  ghost predicate Genuine(r: Request) {
    match r
    case ByUser(u, body) => forall s :: s in body ==> OfOwner(s, u)
    case ByNumber(n, _, body) => forall s :: s in body ==> OfNumber(s, n)
  }

  lemma GenuineIsWellRouted(c: Slots, r: Request)
    requires IsStatic(c) && Genuine(r)
    ensures WellRouted(c, r)
  {
    hide LogicSlotByUserID, SlotOfNumber, BuiltFor;
    forall s | s in r.body ensures StaysInSlot(c, s, if r.ByUser? then c.ofUser(r.userID) else c.ofNumber(r.number)) {
      match s {
        case InsertOrder(o) => BuiltIsRead(c, o.orderNumber, o.userID);
        case Cancel(n) => NumberIsRead(c, r, n);
        case Pay(n) => NumberIsRead(c, r, n);
        case Refund(n) => NumberIsRead(c, r, n);
        case Fail =>
      }
    }
  }

  /** A static reading finds the user's slot in a number built for the user. */
  lemma BuiltIsRead(c: Slots, n: int, u: Word)
    requires IsStatic(c) && BuiltFor(n, u)
    ensures c.ofNumber(n) == c.ofUser(u)
  {
    hide LogicSlotByUserID, SlotOfNumber, BuiltFor;
    BuiltSlot(n, u);
  }

  lemma NumberIsRead(c: Slots, r: Request, n: int)
    requires IsStatic(c) && (r.ByUser? ==> BuiltFor(n, r.userID))
    ensures r.ByUser? ==> c.ofNumber(n) == c.ofUser(r.userID)
  {
    hide IsStatic, BuiltFor;
    if r.ByUser? {
      BuiltIsRead(c, n, r.userID);
    }
  }

  /** On a loaded route map that serves every slot, with the static router and empty tables: after any
      sequence of genuine requests every answer and both finds are those of one table. */
  lemma LivePassActsAsOneTable(
    deps: Deps, tables: Tables, entries: seq<RM.RouteEntry>, rs: seq<Request>,
    n: int, now: int, userID: Word, orderStatus: int, pageNumber: int, pageSize: int)
    requires IsStatic(deps.slots) && deps.routeMap.Some?
    requires RM.WellFormed(entries) && RM.Holds(deps.routeMap.value.entries, entries)
    requires forall s :: 0 <= s < 1024 ==> Served(deps, tables, entries, deps.routeMap.value.currentVersion, s)
    requires forall t :: t in tables ==> tables[t] == []
    requires forall r :: r in rs ==> Genuine(r)
    ensures var (last, errors) := HandleAll(deps, tables, rs);
            var (single, errorsSingle) := HandleAllSingle(deps.slots, [], rs);
            && errors == errorsSingle
            && FindOrderByNumber(deps, last, n, now) ==
                 (if deps.slots.accepts(n, now) then FindOne(single, n) else Err(InvalidOrderNumber))
            && FindOrderPageByUser(deps, last, userID, orderStatus, pageNumber, pageSize) ==
                 FindPage(single, userID, orderStatus, pageNumber, pageSize)
  {
    StaticSlotsAreCoherent(deps.slots);
    DeployedIff(deps, tables, entries);
    hide Genuine, WellRouted, IsStatic, Coherent, Deployed, Served, HandleAll, HandleAllSingle;
    hide FindOrderByNumber, FindOrderPageByUser, FindPage, FindOne, ON.LogicSlotByOrderNumber;
    forall r | r in rs ensures WellRouted(deps.slots, r) {
      GenuineIsWellRouted(deps.slots, r);
    }
    RepositoryActsAsOneTable(deps, tables, rs, n, now, userID, orderStatus, pageNumber, pageSize);
  }
}
