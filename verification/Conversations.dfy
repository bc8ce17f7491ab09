/** Listing the messages of a thread and the threads of a user, as the in-memory repositories do it
    and as the SQL repositories do it. */
module Conversations {
  import opened Ordering
  import opened Pagination

  datatype Listing<R, C> = Listing(items: seq<R>, next: Option<C>)

  lemma LessCons(x: int, a: Key, y: int, b: Key)
    ensures Less([x] + a, [y] + b) <==> x < y || (x == y && Less(a, b))
  {
    assert ([x] + a)[1..] == a && ([y] + b)[1..] == b;
  }

  // ----- messages

  /** Times are whole microseconds. */
  datatype Message = Message(id: string, threadID: string, userID: int, createdAt: int, status: string, content: string)

  datatype MessageCursor = MessageCursor(createdAt: int, id: string)

  function MessageKey(): Message -> Key {
    (m: Message) => [m.createdAt] + Codes(m.id)
  }

  function MessageCursorKey(c: Option<MessageCursor>): Option<Key> {
    if c.None? then None else Some([c.value.createdAt] + Codes(c.value.id))
  }

  function MessageCursorOf(m: Message): MessageCursor {
    MessageCursor(m.createdAt, m.id)
  }

  function InThread(threadID: string, userID: int): Message -> bool {
    (m: Message) => m.threadID == threadID && m.userID == userID
  }

  /** The ids of the table are its primary key. */
  ghost predicate UniqueMessages(rows: seq<Message>) {
    forall i, j :: 0 <= i < j < |rows| ==> rows[i].id != rows[j].id
  }

  /** `s[-n:]` */
  function LastOf<T>(s: seq<T>, n: nat): seq<T> {
    if n == 0 || |s| <= n then s else s[|s| - n..]
  }

  function MessagesInMemory(rows: seq<Message>, threadID: string, userID: int, limit: nat,
      before: Option<MessageCursor>): Listing<Message, MessageCursor> {
    var messages := Sort(Filter(rows, Under(InThread(threadID, userID), MessageKey(), MessageCursorKey(before))),
        MessageKey());
    var page := LastOf(messages, limit);
    Listing(page, if |messages| > limit && page != [] then Some(MessageCursorOf(page[0])) else None)
  }

  predicate MessageBefore(m: Message, before: Option<MessageCursor>) {
    before.None? || m.createdAt < before.value.createdAt
        || (m.createdAt == before.value.createdAt && Less(Codes(m.id), Codes(before.value.id)))
  }

  function MessageWhere(threadID: string, userID: int, before: Option<MessageCursor>): Message -> bool {
    (m: Message) => m.threadID == threadID && m.userID == userID && MessageBefore(m, before)
  }

  function MessagesFromTable(rows: seq<Message>, threadID: string, userID: int, limit: nat,
      before: Option<MessageCursor>): Listing<Message, MessageCursor> {
    var fetched := Take(SortDown(Filter(rows, MessageWhere(threadID, userID, before)), MessageKey()), limit + 1);
    var page := Reversed(Take(fetched, limit));
    Listing(page, if |fetched| > limit && page != [] then Some(MessageCursorOf(page[0])) else None)
  }

  lemma MessageKeysDistinct(rows: seq<Message>)
    requires UniqueMessages(rows)
    ensures DistinctKeys(rows, MessageKey())
  {
    forall i, j | 0 <= i < j < |rows| ensures MessageKey()(rows[i]) != MessageKey()(rows[j]) {
      CodesInjective(rows[i].id, rows[j].id);
      assert MessageKey()(rows[i])[1..] == Codes(rows[i].id) && MessageKey()(rows[j])[1..] == Codes(rows[j].id);
    }
  }

  /** The condition of the query is the order of the keys. */
  lemma MessageBeforeIsBelow(m: Message, before: Option<MessageCursor>)
    ensures MessageBefore(m, before) <==> Below(MessageKey()(m), MessageCursorKey(before))
  {
    if before.Some? {
      LessCons(m.createdAt, Codes(m.id), before.value.createdAt, Codes(before.value.id));
    }
  }

  lemma MessagesFiltered(rows: seq<Message>, threadID: string, userID: int, before: Option<MessageCursor>)
    ensures Filter(rows, MessageWhere(threadID, userID, before)) ==
              Filter(rows, Under(InThread(threadID, userID), MessageKey(), MessageCursorKey(before)))
  {
    var p := MessageWhere(threadID, userID, before);
    var q := Under(InThread(threadID, userID), MessageKey(), MessageCursorKey(before));
    forall m | m in rows ensures p(m) <==> q(m) {
      MessageBeforeIsBelow(m, before);
    }
    FilterAgree(rows, p, q);
  }

  /** The two forms return the same page and the same cursor exactly if the limit is positive or there is
      nothing to return: with limit 0 `[-0:]` is everything. */
  lemma MessageFormsAgreeIff(rows: seq<Message>, threadID: string, userID: int, limit: nat,
      before: Option<MessageCursor>)
    ensures MessagesInMemory(rows, threadID, userID, limit, before) ==
              MessagesFromTable(rows, threadID, userID, limit, before)
            <==> limit >= 1 || Filter(rows, MessageWhere(threadID, userID, before)) == []
  {
    var s := Sort(Filter(rows, MessageWhere(threadID, userID, before)), MessageKey());
    MessagesFiltered(rows, threadID, userID, before);
    SortLength(Filter(rows, MessageWhere(threadID, userID, before)), MessageKey());
    hide Sort, Filter, MessageWhere, Under;
    CutFromBehind(s, limit);
  }

  lemma {:induction false} SortLength<T(!new)>(s: seq<T>, key: T -> Key)
    ensures |Sort(s, key)| == |s|
  {
    if s != [] {
      SortLength(s[1..], key);
      InsertMembers(s[0], Sort(s[1..], key), key);
    }
  }

  lemma CutFromBehind<T(!new)>(s: seq<T>, limit: nat)
    ensures Reversed(Take(Take(Reversed(s), limit + 1), limit)) == if limit == 0 then [] else LastOf(s, limit)
  {}

  lemma ZeroLimitDiffers(m: Message)
    ensures MessagesInMemory([m], m.threadID, m.userID, 0, None) == Listing([m], Some(MessageCursorOf(m)))
    ensures MessagesFromTable([m], m.threadID, m.userID, 0, None) == Listing([], None)
  {
    assert [m][1..] == [];
    assert Filter([m], MessageWhere(m.threadID, m.userID, None)) == [m];
    MessagesFiltered([m], m.threadID, m.userID, None);
    assert Sort([m], MessageKey()) == [m];
  }

  // ----- reading a whole thread backwards

  /** A client follows message cursors, each page read from the rows as they are at that moment. */
  ghost predicate MessageWalk(views: seq<seq<Message>>, pages: seq<Listing<Message, MessageCursor>>, threadID: string,
      userID: int, limit: nat, before: Option<MessageCursor>)
    decreases |views|
  {
    && |views| == |pages| > 0
    && pages[0] == MessagesFromTable(views[0], threadID, userID, limit, before)
    && (if |pages| == 1 then pages[0].next.None?
        else pages[0].next.Some? && MessageWalk(views[1..], pages[1..], threadID, userID, limit, pages[0].next))
  }

  /** Later pages are older: the client puts each before what it has. */
  function History(pages: seq<Listing<Message, MessageCursor>>): seq<Message> {
    if pages == [] then [] else History(pages[1..]) + pages[0].items
  }

  function AsPage(l: Listing<Message, MessageCursor>): Page<Message> {
    Page(Reversed(l.items), MessageCursorKey(l.next))
  }

  function AsPages(pages: seq<Listing<Message, MessageCursor>>): (r: seq<Page<Message>>)
    ensures |r| == |pages|
  {
    if pages == [] then [] else [AsPage(pages[0])] + AsPages(pages[1..])
  }

  /** A message page is the generic page, read backwards. */
  lemma MessagePage(rows: seq<Message>, threadID: string, userID: int, limit: nat, before: Option<MessageCursor>)
    ensures AsPage(MessagesFromTable(rows, threadID, userID, limit, before))
            == PageOf(rows, InThread(threadID, userID), MessageKey(), limit, MessageCursorKey(before))
  {
    MessagesFiltered(rows, threadID, userID, before);
    var fetched := Take(SortDown(Filter(rows, MessageWhere(threadID, userID, before)), MessageKey()), limit + 1);
    hide Filter, Sort;
    assert Reversed(Reversed(Take(fetched, limit))) == Take(fetched, limit);
  }

  lemma {:induction false} MessageWalkIsWalk(views: seq<seq<Message>>, pages: seq<Listing<Message, MessageCursor>>,
      threadID: string, userID: int, limit: nat, before: Option<MessageCursor>)
    requires MessageWalk(views, pages, threadID, userID, limit, before)
    ensures Walk(views, AsPages(pages), InThread(threadID, userID), MessageKey(), limit, MessageCursorKey(before))
    ensures Items(AsPages(pages)) == Reversed(History(pages))
    decreases |views|
  {
    hide PageOf, MessagesFromTable;
    MessagePage(views[0], threadID, userID, limit, before);
    assert AsPages(pages)[1..] == AsPages(pages[1..]);
    if |pages| > 1 {
      MessageWalkIsWalk(views[1..], pages[1..], threadID, userID, limit, pages[0].next);
    } else {
      assert pages[1..] == [];
    }
    assert Reversed(History(pages[1..]) + pages[0].items) == Reversed(pages[0].items) + Reversed(History(pages[1..]));
  }

  ghost predicate UniqueViews(views: seq<seq<Message>>) {
    forall v :: v in views ==> UniqueMessages(v)
  }

  /** A message at this place is in the thread in every view, whatever becomes of its status and content. */
  ghost predicate StaysInThread(views: seq<seq<Message>>, threadID: string, userID: int, c: MessageCursor) {
    forall v :: v in views ==> exists m :: m in v && InThread(threadID, userID)(m) && MessageCursorOf(m) == c
  }

  /** However the rows change while a client follows cursors: the messages come in key order, none
      twice, and none that was there throughout is missing, even if its status or content changed. */
  lemma MessageWalkSpec(views: seq<seq<Message>>, pages: seq<Listing<Message, MessageCursor>>, threadID: string,
      userID: int, limit: nat)
    requires UniqueViews(views) && limit >= 1 && MessageWalk(views, pages, threadID, userID, limit, None)
    ensures Ascending(History(pages), MessageKey())
    ensures forall m :: m in History(pages) ==> InThread(threadID, userID)(m) && exists v :: v in views && m in v
    ensures forall m :: Lasting(views, m) && InThread(threadID, userID)(m) ==> m in History(pages)
    ensures forall c :: StaysInThread(views, threadID, userID, c) ==>
              exists m :: m in History(pages) && MessageCursorOf(m) == c
  {
    var h := History(pages);
    hide PageOf, MessagesFromTable, Less;
    forall v | v in views ensures DistinctKeys(v, MessageKey()) {
      MessageKeysDistinct(v);
    }
    MessageWalkIsWalk(views, pages, threadID, userID, limit, None);
    WalkSpec(views, AsPages(pages), InThread(threadID, userID), MessageKey(), limit, None);
    ReversedAscends(h, MessageKey());
    var r := Items(AsPages(pages));
    forall c | StaysInThread(views, threadID, userID, c) ensures exists m :: m in h && MessageCursorOf(m) == c {
      PlaceOfMessage(views, threadID, userID, c, h, r);
    }
    hide *;
    assert forall m :: m in r <==> m in h;
  }

  lemma PlaceOfMessage(
    views: seq<seq<Message>>, threadID: string, userID: int, c: MessageCursor, h: seq<Message>, r: seq<Message>)
    requires StaysInThread(views, threadID, userID, c) && r == Reversed(h)
    requires var k := MessageCursorKey(Some(c)).value;
             KeyLasts(views, InThread(threadID, userID), MessageKey(), k) ==> exists m :: m in r && MessageKey()(m) == k
    ensures exists m :: m in h && MessageCursorOf(m) == c
  {
    var k := MessageCursorKey(Some(c)).value;
    forall v | v in views ensures exists m :: m in v && InThread(threadID, userID)(m) && MessageKey()(m) == k {
      var m :| m in v && InThread(threadID, userID)(m) && MessageCursorOf(m) == c;
      assert MessageKey()(m) == k;
    }
    var m :| m in r && MessageKey()(m) == k;
    assert MessageKey()(m)[0] == k[0] && MessageKey()(m)[1..] == Codes(m.id) && k[1..] == Codes(c.id);
    CodesInjective(m.id, c.id);
    assert m in h && MessageCursorOf(m) == c;
  }

  /** While messages only arrive above the first cursor, the client ends up with exactly the thread as it
      was when the first page was read, in order. */
  lemma WholeThreadIsRead(views: seq<seq<Message>>, pages: seq<Listing<Message, MessageCursor>>, threadID: string,
      userID: int, limit: nat)
    requires UniqueViews(views) && limit >= 1 && MessageWalk(views, pages, threadID, userID, limit, None)
    requires forall v, m :: v in views && InThread(threadID, userID)(m) ==>
               (pages[0].next.Some? && MessageBefore(m, pages[0].next) ==> (m in v <==> m in views[0]))
    ensures History(pages) == Sort(Filter(views[0], InThread(threadID, userID)), MessageKey())
  {
    var h, mine, key := History(pages), InThread(threadID, userID), MessageKey();
    forall v | v in views ensures DistinctKeys(v, key) {
      MessageKeysDistinct(v);
    }
    MessageWalkIsWalk(views, pages, threadID, userID, limit, None);
    var next := AsPages(pages)[0].next;
    assert next == MessageCursorKey(pages[0].next);
    forall v, m | v in views && mine(m) && next.Some? && Less(key(m), next.value) ensures m in v <==> m in views[0] {
      MessageBeforeIsBelow(m, pages[0].next);
    }
    hide Walk, MessageWalk, Less, MessageBefore;
    WalkIsTheWhole(views, AsPages(pages), mine, key, limit);
    FilterAgree(views[0], mine, Under(mine, key, None));
    hide Sort, Filter;
    var s := Sort(Filter(views[0], mine), key);
    assert Reversed(Reversed(h)) == h && Reversed(Reversed(s)) == s;
  }

  /** On rows that stay as they are, following cursors ends, with every page but the last one full. */
  lemma {:induction false} MessageWalkEnds(rows: seq<Message>, threadID: string, userID: int, limit: nat,
      before: Option<MessageCursor>)
    returns (pages: seq<Listing<Message, MessageCursor>>)
    requires UniqueMessages(rows) && limit >= 1
    ensures MessageWalk(seq(|pages|, _ => rows), pages, threadID, userID, limit, before)
    ensures forall i :: 0 <= i < |pages| - 1 ==> |pages[i].items| == limit
    decreases |Left(rows, InThread(threadID, userID), MessageKey(), MessageCursorKey(before))|
  {
    var p := MessagesFromTable(rows, threadID, userID, limit, before);
    pages := [p];
    if p.next.Some? {
      MessageKeysDistinct(rows);
      MessagePage(rows, threadID, userID, limit, before);
      hide PageOf, MessagesFromTable;
      LeftAfter(rows, InThread(threadID, userID), MessageKey(), limit, MessageCursorKey(before));
      var rest := MessageWalkEnds(rows, threadID, userID, limit, p.next);
      MessageWalkCons(rows, p, rest, threadID, userID, limit, before);
      pages := [p] + rest;
    }
  }

  lemma MessageWalkCons(rows: seq<Message>, p: Listing<Message, MessageCursor>,
      rest: seq<Listing<Message, MessageCursor>>, threadID: string, userID: int, limit: nat,
      before: Option<MessageCursor>)
    requires p == MessagesFromTable(rows, threadID, userID, limit, before) && p.next.Some?
    requires MessageWalk(seq(|rest|, _ => rows), rest, threadID, userID, limit, p.next)
    ensures MessageWalk(seq(|[p] + rest|, _ => rows), [p] + rest, threadID, userID, limit, before)
  {
    hide MessagesFromTable;
    assert seq(|[p] + rest|, _ => rows)[1..] == seq(|rest|, _ => rows) && ([p] + rest)[1..] == rest;
  }

  // ----- threads

  datatype Thread = Thread(id: string, userID: int, status: string, createdAt: int, lastMessageAt: Option<int>,
      title: string)

  datatype ThreadCursor = ThreadCursor(sortAt: int, createdAt: int, id: string)

  function SortAt(t: Thread): int {
    if t.lastMessageAt.Some? then t.lastMessageAt.value else t.createdAt
  }

  function ThreadKey(): Thread -> Key {
    (t: Thread) => [SortAt(t)] + ([t.createdAt] + Codes(t.id))
  }

  function ThreadCursorKey(c: Option<ThreadCursor>): Option<Key> {
    if c.None? then None else Some([c.value.sortAt] + ([c.value.createdAt] + Codes(c.value.id)))
  }

  function ThreadCursorOf(t: Thread): ThreadCursor {
    ThreadCursor(SortAt(t), t.createdAt, t.id)
  }

  function OwnedThread(userID: int, status: string, includeEmpty: bool): Thread -> bool {
    (t: Thread) => t.userID == userID && t.status == status && (includeEmpty || t.lastMessageAt.Some?)
  }

  ghost predicate UniqueThreads(rows: seq<Thread>) {
    forall i, j :: 0 <= i < j < |rows| ==> rows[i].id != rows[j].id
  }

  function ThreadUnder(cursor: Option<ThreadCursor>): Thread -> bool {
    (t: Thread) => Below(ThreadKey()(t), ThreadCursorKey(cursor))
  }

  function OfUser(userID: int, status: string): Thread -> bool {
    (t: Thread) => t.userID == userID && t.status == status
  }

  function HasMessages(): Thread -> bool {
    (t: Thread) => t.lastMessageAt.Some?
  }

  /** Two filters, a sort, then the cursor as a third filter. */
  function ShownThreads(rows: seq<Thread>, userID: int, status: string, cursor: Option<ThreadCursor>,
      includeEmpty: bool): seq<Thread> {
    var owned := Filter(rows, OfUser(userID, status));
    var shown := if includeEmpty then owned else Filter(owned, HasMessages());
    var sorted := SortDown(shown, ThreadKey());
    if cursor.Some? then Filter(sorted, ThreadUnder(cursor)) else sorted
  }

  function ThreadsInMemory(rows: seq<Thread>, userID: int, status: string, limit: nat, cursor: Option<ThreadCursor>,
      includeEmpty: bool): Listing<Thread, ThreadCursor> {
    var threads := ShownThreads(rows, userID, status, cursor, includeEmpty);
    var page := Take(threads, limit);
    Listing(page, if |threads| > limit && page != [] then Some(ThreadCursorOf(page[|page| - 1])) else None)
  }

  predicate ThreadBefore(t: Thread, cursor: Option<ThreadCursor>) {
    cursor.None? ||
    var c := cursor.value;
    (SortAt(t) < c.sortAt
     || (SortAt(t) == c.sortAt && t.createdAt < c.createdAt)
     || (SortAt(t) == c.sortAt && t.createdAt == c.createdAt && Less(Codes(t.id), Codes(c.id))))
  }

  function ThreadWhere(userID: int, status: string, cursor: Option<ThreadCursor>, includeEmpty: bool): Thread -> bool {
    (t: Thread) => OwnedThread(userID, status, includeEmpty)(t) && ThreadBefore(t, cursor)
  }

  function ThreadsFromTable(rows: seq<Thread>, userID: int, status: string, limit: nat, cursor: Option<ThreadCursor>,
      includeEmpty: bool): Listing<Thread, ThreadCursor> {
    var threads := Take(SortDown(Filter(rows, ThreadWhere(userID, status, cursor, includeEmpty)), ThreadKey()),
        limit + 1);
    var page := Take(threads, limit);
    Listing(page, if |threads| > limit && page != [] then Some(ThreadCursorOf(page[|page| - 1])) else None)
  }

  lemma ThreadKeysDistinct(rows: seq<Thread>)
    requires UniqueThreads(rows)
    ensures DistinctKeys(rows, ThreadKey())
  {
    forall i, j | 0 <= i < j < |rows| ensures ThreadKey()(rows[i]) != ThreadKey()(rows[j]) {
      CodesInjective(rows[i].id, rows[j].id);
      assert ThreadKey()(rows[i])[2..] == Codes(rows[i].id) && ThreadKey()(rows[j])[2..] == Codes(rows[j].id);
    }
  }

  /** The three-way condition of the query is the order of the keys. */
  lemma ThreadBeforeIsBelow(t: Thread, cursor: Option<ThreadCursor>)
    ensures ThreadBefore(t, cursor) <==> Below(ThreadKey()(t), ThreadCursorKey(cursor))
  {
    if cursor.Some? {
      var c := cursor.value;
      LessCons(SortAt(t), [t.createdAt] + Codes(t.id), c.sortAt, [c.createdAt] + Codes(c.id));
      LessCons(t.createdAt, Codes(t.id), c.createdAt, Codes(c.id));
    }
  }

  lemma ThreadsFiltered(rows: seq<Thread>, userID: int, status: string, cursor: Option<ThreadCursor>,
      includeEmpty: bool)
    ensures Filter(rows, ThreadWhere(userID, status, cursor, includeEmpty))
            == Filter(rows, Under(OwnedThread(userID, status, includeEmpty), ThreadKey(), ThreadCursorKey(cursor)))
  {
    var p := ThreadWhere(userID, status, cursor, includeEmpty);
    var q := Under(OwnedThread(userID, status, includeEmpty), ThreadKey(), ThreadCursorKey(cursor));
    forall t | t in rows ensures p(t) <==> q(t) {
      ThreadBeforeIsBelow(t, cursor);
    }
    FilterAgree(rows, p, q);
  }

  /** The rows the in-memory form cuts its page from are those the query selects. */
  lemma ThreadsSelected(rows: seq<Thread>, userID: int, status: string, cursor: Option<ThreadCursor>,
      includeEmpty: bool)
    requires UniqueThreads(rows)
    ensures ShownThreads(rows, userID, status, cursor, includeEmpty)
            == SortDown(Filter(rows, ThreadWhere(userID, status, cursor, includeEmpty)), ThreadKey())
  {
    var mine, key := OwnedThread(userID, status, includeEmpty), ThreadKey();
    var owned := Filter(rows, OfUser(userID, status));
    var shown := if includeEmpty then owned else Filter(owned, HasMessages());
    ThreadKeysDistinct(rows);
    FilterDistinct(rows, OfUser(userID, status), key);
    FilterDistinct(owned, HasMessages(), key);
    SortDownSpec(shown, key);
    var sorted := SortDown(shown, key);
    var threads := if cursor.Some? then Filter(sorted, ThreadUnder(cursor)) else sorted;
    FilterDescending(sorted, ThreadUnder(cursor), key);
    var left := Left(rows, mine, key, ThreadCursorKey(cursor));
    LeftSpec(rows, mine, key, ThreadCursorKey(cursor));
    forall t ensures t in threads <==> t in left {
      FilterMembers(rows, OfUser(userID, status), t);
      FilterMembers(owned, HasMessages(), t);
      FilterMembers(sorted, ThreadUnder(cursor), t);
    }
    DescendingUnique(threads, left, key);
    ThreadsFiltered(rows, userID, status, cursor, includeEmpty);
  }

  lemma {:induction false} FilterDescending<T(!new)>(s: seq<T>, p: T -> bool, key: T -> Key)
    requires Descending(s, key)
    ensures Descending(Filter(s, p), key)
  {
    if s != [] {
      FilterDescending(s[1..], p, key);
      var rest := Filter(s[1..], p);
      forall j | 0 <= j < |rest| ensures Less(key(rest[j]), key(s[0])) {
        FilterMembers(s[1..], p, rest[j]);
        var i :| 0 <= i < |s[1..]| && s[1..][i] == rest[j];
        assert s[i + 1] == rest[j];
      }
    }
  }

  /** For threads the two forms always return the same page and cursor. */
  lemma ThreadFormsAgree(rows: seq<Thread>, userID: int, status: string, limit: nat, cursor: Option<ThreadCursor>,
      includeEmpty: bool)
    requires UniqueThreads(rows)
    ensures ThreadsInMemory(rows, userID, status, limit, cursor, includeEmpty) ==
              ThreadsFromTable(rows, userID, status, limit, cursor, includeEmpty)
  {
    ThreadsSelected(rows, userID, status, cursor, includeEmpty);
    hide Filter, SortDown, ShownThreads, ThreadWhere, ThreadKey, ThreadCursorOf, DistinctKeys, UniqueThreads;
  }

  // ----- reading all threads

  ghost predicate ThreadWalk(views: seq<seq<Thread>>, pages: seq<Listing<Thread, ThreadCursor>>, userID: int,
      status: string, limit: nat, cursor: Option<ThreadCursor>, includeEmpty: bool)
    decreases |views|
  {
    && |views| == |pages| > 0
    && pages[0] == ThreadsFromTable(views[0], userID, status, limit, cursor, includeEmpty)
    && (if |pages| == 1 then pages[0].next.None?
        else
          pages[0].next.Some? && ThreadWalk(views[1..], pages[1..], userID, status, limit, pages[0].next, includeEmpty))
  }

  function Listed(pages: seq<Listing<Thread, ThreadCursor>>): seq<Thread> {
    if pages == [] then [] else pages[0].items + Listed(pages[1..])
  }

  function AsThreadPage(l: Listing<Thread, ThreadCursor>): Page<Thread> {
    Page(l.items, ThreadCursorKey(l.next))
  }

  function AsThreadPages(pages: seq<Listing<Thread, ThreadCursor>>): (r: seq<Page<Thread>>)
    ensures |r| == |pages|
  {
    if pages == [] then [] else [AsThreadPage(pages[0])] + AsThreadPages(pages[1..])
  }

  lemma ThreadPage(rows: seq<Thread>, userID: int, status: string, limit: nat, cursor: Option<ThreadCursor>,
      includeEmpty: bool)
    ensures AsThreadPage(ThreadsFromTable(rows, userID, status, limit, cursor, includeEmpty))
            == PageOf(rows, OwnedThread(userID, status, includeEmpty), ThreadKey(), limit, ThreadCursorKey(cursor))
  {
    ThreadsFiltered(rows, userID, status, cursor, includeEmpty);
    hide Filter, SortDown;
  }

  lemma {:induction false} ThreadWalkIsWalk(views: seq<seq<Thread>>, pages: seq<Listing<Thread, ThreadCursor>>,
      userID: int, status: string, limit: nat, cursor: Option<ThreadCursor>, includeEmpty: bool)
    requires ThreadWalk(views, pages, userID, status, limit, cursor, includeEmpty)
    ensures Walk(views, AsThreadPages(pages), OwnedThread(userID, status, includeEmpty), ThreadKey(), limit,
              ThreadCursorKey(cursor))
    ensures Items(AsThreadPages(pages)) == Listed(pages)
    decreases |views|
  {
    hide PageOf, ThreadsFromTable;
    ThreadPage(views[0], userID, status, limit, cursor, includeEmpty);
    assert AsThreadPages(pages)[1..] == AsThreadPages(pages[1..]);
    if |pages| > 1 {
      ThreadWalkIsWalk(views[1..], pages[1..], userID, status, limit, pages[0].next, includeEmpty);
    } else {
      assert pages[1..] == [];
    }
  }

  /** A thread at this place is among the user's in every view, whatever becomes of its title. */
  ghost predicate KeepsPlace(views: seq<seq<Thread>>, mine: Thread -> bool, c: ThreadCursor) {
    forall v :: v in views ==> exists t :: t in v && mine(t) && ThreadCursorOf(t) == c
  }

  /** However threads move while a client follows cursors: what it gets descends, so no place comes twice,
      and every thread that keeps its place throughout is listed, even if its title changed. */
  lemma ThreadWalkSpec(views: seq<seq<Thread>>, pages: seq<Listing<Thread, ThreadCursor>>, userID: int,
      status: string, limit: nat, includeEmpty: bool)
    requires (forall v :: v in views ==> UniqueThreads(v)) && limit >= 1
    requires ThreadWalk(views, pages, userID, status, limit, None, includeEmpty)
    ensures Descending(Listed(pages), ThreadKey())
    ensures forall t :: t in Listed(pages) ==>
              OwnedThread(userID, status, includeEmpty)(t) && exists v :: v in views && t in v
    ensures forall t :: Lasting(views, t) && OwnedThread(userID, status, includeEmpty)(t) ==> t in Listed(pages)
    ensures forall c :: KeepsPlace(views, OwnedThread(userID, status, includeEmpty), c) ==>
              exists t :: t in Listed(pages) && ThreadCursorOf(t) == c
  {
    hide PageOf, ThreadsFromTable, Less;
    forall v | v in views ensures DistinctKeys(v, ThreadKey()) {
      ThreadKeysDistinct(v);
    }
    ThreadWalkIsWalk(views, pages, userID, status, limit, None, includeEmpty);
    WalkSpec(views, AsThreadPages(pages), OwnedThread(userID, status, includeEmpty), ThreadKey(), limit, None);
    var mine, listed := OwnedThread(userID, status, includeEmpty), Listed(pages);
    forall c | KeepsPlace(views, mine, c) ensures exists t :: t in listed && ThreadCursorOf(t) == c {
      PlaceOfThread(views, mine, c, listed);
    }
    hide *;
  }

  lemma PlaceOfThread(views: seq<seq<Thread>>, mine: Thread -> bool, c: ThreadCursor, listed: seq<Thread>)
    requires KeepsPlace(views, mine, c)
    requires var k := ThreadCursorKey(Some(c)).value;
             KeyLasts(views, mine, ThreadKey(), k) ==> exists t :: t in listed && ThreadKey()(t) == k
    ensures exists t :: t in listed && ThreadCursorOf(t) == c
  {
    var k := ThreadCursorKey(Some(c)).value;
    forall v | v in views ensures exists t :: t in v && mine(t) && ThreadKey()(t) == k {
      var t :| t in v && mine(t) && ThreadCursorOf(t) == c;
      assert ThreadKey()(t) == k;
    }
    var t :| t in listed && ThreadKey()(t) == k;
    assert ThreadKey()(t)[0] == k[0] && ThreadKey()(t)[1] == k[1];
    assert ThreadKey()(t)[2..] == Codes(t.id) && k[2..] == Codes(c.id);
    CodesInjective(t.id, c.id);
    assert ThreadCursorOf(t) == c;
  }

  /** On rows that stay as they are, following cursors ends and has listed exactly the user's threads,
      latest first. */
  lemma {:induction false} ThreadWalkEnds(rows: seq<Thread>, userID: int, status: string, limit: nat,
      cursor: Option<ThreadCursor>, includeEmpty: bool)
    returns (pages: seq<Listing<Thread, ThreadCursor>>)
    requires UniqueThreads(rows) && limit >= 1
    ensures ThreadWalk(seq(|pages|, _ => rows), pages, userID, status, limit, cursor, includeEmpty)
    ensures Listed(pages) == Left(rows, OwnedThread(userID, status, includeEmpty), ThreadKey(), ThreadCursorKey(cursor))
    decreases |Left(rows, OwnedThread(userID, status, includeEmpty), ThreadKey(), ThreadCursorKey(cursor))|
  {
    var mine, key := OwnedThread(userID, status, includeEmpty), ThreadKey();
    var p := ThreadsFromTable(rows, userID, status, limit, cursor, includeEmpty);
    pages := [p];
    ThreadKeysDistinct(rows);
    ThreadPage(rows, userID, status, limit, cursor, includeEmpty);
    if p.next.Some? {
      LeftAfter(rows, mine, key, limit, ThreadCursorKey(cursor));
      hide PageOf, ThreadsFromTable, Left;
      var rest := ThreadWalkEnds(rows, userID, status, limit, p.next, includeEmpty);
      ThreadWalkCons(rows, p, rest, userID, status, limit, cursor, includeEmpty);
      pages := [p] + rest;
    } else {
      LastPage(rows, mine, key, limit, ThreadCursorKey(cursor));
      hide PageOf, ThreadsFromTable, Left;
      assert Listed([p]) == p.items + Listed([]) == p.items;
    }
  }

  lemma ThreadWalkCons(rows: seq<Thread>, p: Listing<Thread, ThreadCursor>, rest: seq<Listing<Thread, ThreadCursor>>,
      userID: int, status: string, limit: nat, cursor: Option<ThreadCursor>, includeEmpty: bool)
    requires p == ThreadsFromTable(rows, userID, status, limit, cursor, includeEmpty) && p.next.Some?
    requires ThreadWalk(seq(|rest|, _ => rows), rest, userID, status, limit, p.next, includeEmpty)
    ensures ThreadWalk(seq(|[p] + rest|, _ => rows), [p] + rest, userID, status, limit, cursor, includeEmpty)
    ensures Listed([p] + rest) == p.items + Listed(rest)
  {
    hide ThreadsFromTable;
    assert seq(|[p] + rest|, _ => rows)[1..] == seq(|rest|, _ => rows) && ([p] + rest)[1..] == rest;
  }
}
