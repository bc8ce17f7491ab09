/** Cursor pagination, whatever the rows: the page of the rows below a cursor with the greatest keys,
    and what a client gets by following cursors while the rows change. */
module Pagination {
  import opened Ordering

  datatype Option<T> = None | Some(value: T)

  datatype Page<T> = Page(items: seq<T>, next: Option<Key>)

  function Reversed<T(!new)>(s: seq<T>): (r: seq<T>)
    ensures |r| == |s|
    ensures forall i :: 0 <= i < |s| ==> r[i] == s[|s| - 1 - i]
    ensures forall x :: x in r <==> x in s
  {
    var r := seq(|s|, i requires 0 <= i < |s| => s[|s| - 1 - i]);
    assert forall x :: x in s ==> x in r by {
      forall x | x in s ensures x in r {
        var i :| 0 <= i < |s| && s[i] == x;
        assert r[|s| - 1 - i] == x;
      }
    }
    r
  }

  ghost predicate Descending<T>(s: seq<T>, key: T -> Key) {
    forall i, j :: 0 <= i < j < |s| ==> Less(key(s[j]), key(s[i]))
  }

  predicate Below(k: Key, before: Option<Key>) {
    before.None? || Less(k, before.value)
  }

  /** The rows wanted, as far as a cursor leaves them. */
  function Under<T>(mine: T -> bool, key: T -> Key, before: Option<Key>): T -> bool {
    x => mine(x) && Below(key(x), before)
  }

  /** `order by key desc` */
  function SortDown<T(!new)>(s: seq<T>, key: T -> Key): seq<T> {
    Reversed(Sort(s, key))
  }

  lemma ReversedAscends<T(!new)>(s: seq<T>, key: T -> Key)
    requires Descending(Reversed(s), key)
    ensures Ascending(s, key)
  {
    forall i, j | 0 <= i < j < |s| ensures Less(key(s[i]), key(s[j])) {
      assert s[i] == Reversed(s)[|s| - 1 - i] && s[j] == Reversed(s)[|s| - 1 - j];
    }
  }

  lemma SortDownSpec<T(!new)>(s: seq<T>, key: T -> Key)
    requires DistinctKeys(s, key)
    ensures Descending(SortDown(s, key), key) && |SortDown(s, key)| == |s|
    ensures forall x :: x in SortDown(s, key) <==> x in s
  {
    SortSpec(s, key);
  }

  /** A descending sequence is determined by its elements. */
  lemma DescendingUnique<T(!new)>(a: seq<T>, b: seq<T>, key: T -> Key)
    requires Descending(a, key) && Descending(b, key)
    requires forall x :: x in a <==> x in b
    ensures a == b
  {
    AscendingUnique(Reversed(a), Reversed(b), key);
    forall i | 0 <= i < |a| ensures a[i] == b[i] {
      assert a[i] == Reversed(a)[|a| - 1 - i];
    }
  }

  /** The rows a cursor leaves, greatest first. */
  function Left<T(!new)>(rows: seq<T>, mine: T -> bool, key: T -> Key, before: Option<Key>): seq<T> {
    SortDown(Filter(rows, Under(mine, key, before)), key)
  }

  /** The page that asks for one row too many: `order by key desc limit n+1`, then the first n. */
  function PageOf<T(!new)>(rows: seq<T>, mine: T -> bool, key: T -> Key, limit: nat, before: Option<Key>): Page<T> {
    Cut(Take(Left(rows, mine, key, before), limit + 1), key, limit)
  }

  function Cut<T>(fetched: seq<T>, key: T -> Key, limit: nat): Page<T> {
    var items := Take(fetched, limit);
    Page(items, if |fetched| > limit && items != [] then Some(key(items[|items| - 1])) else None)
  }

  lemma LeftSpec<T(!new)>(rows: seq<T>, mine: T -> bool, key: T -> Key, before: Option<Key>)
    requires DistinctKeys(rows, key)
    ensures Descending(Left(rows, mine, key, before), key)
    ensures forall x :: x in Left(rows, mine, key, before) <==> x in rows && mine(x) && Below(key(x), before)
  {
    var p := Under(mine, key, before);
    FilterDistinct(rows, p, key);
    SortDownSpec(Filter(rows, p), key);
    forall x ensures x in Left(rows, mine, key, before) <==> x in rows && mine(x) && Below(key(x), before) {
      FilterMembers(rows, p, x);
    }
  }

  /** A page without naming sorting: descending, of qualifying rows; a cursor is the key of the last item
      and nothing at or above it is missing; without a cursor nothing at all is missing. */
  lemma PageSpec<T(!new)>(rows: seq<T>, mine: T -> bool, key: T -> Key, limit: nat, before: Option<Key>)
    requires DistinctKeys(rows, key) && limit >= 1
    ensures var p := PageOf(rows, mine, key, limit, before);
            && Descending(p.items, key) && |p.items| <= limit
            && (forall x :: x in p.items ==> x in rows && mine(x) && Below(key(x), before))
            && (p.next.Some? ==> |p.items| == limit && p.next.value == key(p.items[limit - 1]))
            && (forall x :: x in rows && mine(x) && Below(key(x), before) ==>
                (x in p.items <==> !(p.next.Some? && Less(key(x), p.next.value))))
  {
    LeftSpec(rows, mine, key, before);
    CutSpec(Left(rows, mine, key, before), key, limit);
    hide Left;
  }

  lemma CutSpec<T(!new)>(left: seq<T>, key: T -> Key, limit: nat)
    requires Descending(left, key) && limit >= 1
    ensures var p := Cut(Take(left, limit + 1), key, limit);
            && Descending(p.items, key) && |p.items| <= limit
            && (forall x :: x in p.items ==> x in left)
            && (p.next.Some? ==> |p.items| == limit && p.next.value == key(p.items[limit - 1]))
            && (forall x :: x in left ==> (x in p.items <==> !(p.next.Some? && Less(key(x), p.next.value))))
  {
    var p := Cut(Take(left, limit + 1), key, limit);
    assert p.items <= left;
    assert p.next.None? ==> p.items == left;
    forall x | x in left && p.next.Some? ensures x in p.items <==> !Less(key(x), p.next.value) {
      var j :| 0 <= j < |left| && left[j] == x;
      assert j < limit <==> !Less(key(left[j]), key(left[limit - 1])) by {
        LessIrreflexive(key(left[j]));
        if j < limit - 1 {
          LessAsymmetric(key(left[limit - 1]), key(left[j]));
        }
      }
      assert j < |p.items| ==> p.items[j] == left[j];
      if x in p.items {
        var i :| 0 <= i < |p.items| && p.items[i] == x;
        assert left[i] == x;
        LessIrreflexive(key(x));
        assert i == j;
      }
    }
  }

  // ----- following cursors

  /** A client reads page after page, each from the rows as they are at that moment, until a page
      brings no cursor. */
  ghost predicate Walk<T(!new)>(views: seq<seq<T>>, pages: seq<Page<T>>, mine: T -> bool, key: T -> Key, limit: nat,
      before: Option<Key>)
    decreases |views|
  {
    && |views| == |pages| > 0
    && pages[0] == PageOf(views[0], mine, key, limit, before)
    && (if |pages| == 1 then pages[0].next.None?
        else pages[0].next.Some? && Walk(views[1..], pages[1..], mine, key, limit, pages[0].next))
  }

  function Items<T>(pages: seq<Page<T>>): seq<T> {
    if pages == [] then [] else pages[0].items + Items(pages[1..])
  }

  ghost predicate Keyed<T(!new)>(views: seq<seq<T>>, key: T -> Key) {
    forall v :: v in views ==> DistinctKeys(v, key)
  }

  /** The row is there in every view. */
  ghost predicate Lasting<T(!new)>(views: seq<seq<T>>, x: T) {
    forall v :: v in views ==> x in v
  }

  /** Every view has a qualifying row with the key, not necessarily the same one: rows are updated in place. */
  ghost predicate KeyLasts<T(!new)>(views: seq<seq<T>>, mine: T -> bool, key: T -> Key, k: Key) {
    forall v :: v in views ==> exists x :: x in v && mine(x) && key(x) == k
  }

  /** What a walk returns is strictly descending however the rows change, so nothing comes twice; every
      item was there to be read; a qualifying row that stays throughout is returned; and of a key that
      qualifying rows have throughout exactly one row is returned, whatever else of it changes. */
  lemma {:induction false} WalkSpec<T(!new)>(views: seq<seq<T>>, pages: seq<Page<T>>, mine: T -> bool, key: T -> Key,
      limit: nat, before: Option<Key>)
    requires Keyed(views, key) && limit >= 1
    requires Walk(views, pages, mine, key, limit, before)
    ensures Descending(Items(pages), key)
    ensures forall x :: x in Items(pages) ==> mine(x) && Below(key(x), before) && exists v :: v in views && x in v
    ensures forall x :: Lasting(views, x) && mine(x) && Below(key(x), before) ==> x in Items(pages)
    ensures forall k :: KeyLasts(views, mine, key, k) && Below(k, before) ==>
              exists x :: x in Items(pages) && key(x) == k
    decreases |views|
  {
    var first, rest := pages[0], Items(pages[1..]);
    assert views[0] in views;
    PageSpec(views[0], mine, key, limit, before);
    if |pages| == 1 {
      assert rest == [] && Items(pages) == first.items;
    } else {
      assert forall v :: v in views[1..] ==> v in views;
      WalkSpec(views[1..], pages[1..], mine, key, limit, first.next);
      WalkJoins(first, rest, key, limit, before);
      forall x | Lasting(views, x) && mine(x) && Below(key(x), before) ensures x in Items(pages) {
        assert x in views[0] && Lasting(views[1..], x);
        assert x in first.items || x in rest;
      }
    }
    forall k | KeyLasts(views, mine, key, k) && Below(k, before) ensures exists x :: x in Items(pages) && key(x) == k {
      KeyIsRead(views, pages, mine, key, limit, k);
    }
  }

  /** The key is on the first page, or the rest of the walk, which it outlasts, returns it. */
  lemma KeyIsRead<T(!new)>(
    views: seq<seq<T>>, pages: seq<Page<T>>, mine: T -> bool, key: T -> Key, limit: nat, k: Key)
    requires views != [] && pages != [] && KeyLasts(views, mine, key, k)
    requires forall x :: x in views[0] && mine(x) && key(x) == k ==>
               (x in pages[0].items <==> !(pages[0].next.Some? && Less(k, pages[0].next.value)))
    requires pages[0].next.Some? && KeyLasts(views[1..], mine, key, k) && Below(k, pages[0].next) ==>
               exists x :: x in Items(pages[1..]) && key(x) == k
    ensures exists x :: x in Items(pages) && key(x) == k
  {
    assert views[0] in views;
    var x :| x in views[0] && mine(x) && key(x) == k;
    if x in pages[0].items {
      assert x in Items(pages);
    } else {
      assert KeyLasts(views[1..], mine, key, k) by {
        assert forall v :: v in views[1..] ==> v in views;
      }
      var y :| y in Items(pages[1..]) && key(y) == k;
      assert y in Items(pages);
    }
  }

  /** Whatever comes after a cursor continues the page that brought it. */
  lemma WalkJoins<T(!new)>(first: Page<T>, rest: seq<T>, key: T -> Key, limit: nat, before: Option<Key>)
    requires Descending(first.items, key) && Descending(rest, key)
    requires first.next.Some? && |first.items| == limit >= 1 && first.next.value == key(first.items[limit - 1])
    requires forall x :: x in first.items ==> Below(key(x), before)
    requires forall x :: x in rest ==> Below(key(x), first.next)
    ensures Descending(first.items + rest, key)
    ensures forall x :: x in rest ==> Below(key(x), before)
  {
    var last := first.items[limit - 1];
    assert last in first.items;
    forall x | x in rest ensures Below(key(x), before) {
      if before.Some? {
        LessTransitive(key(x), key(last), before.value);
      }
    }
    forall i, j | 0 <= i < limit && 0 <= j < |rest| ensures Less(key(rest[j]), key(first.items[i])) {
      assert rest[j] in rest;
      if i < limit - 1 {
        LessTransitive(key(rest[j]), key(last), key(first.items[i]));
      }
    }
  }

  /** Below the first cursor nothing changes, then a walk is exactly the sorted rows: what arrives above
      the cursor meanwhile does not disturb it. */
  lemma WalkIsTheWhole<T(!new)>(views: seq<seq<T>>, pages: seq<Page<T>>, mine: T -> bool, key: T -> Key, limit: nat)
    requires Keyed(views, key) && limit >= 1 && Walk(views, pages, mine, key, limit, None)
    requires forall v, x :: v in views && mine(x) && pages[0].next.Some? && Less(key(x), pages[0].next.value) ==>
               (x in v <==> x in views[0])
    ensures Items(pages) == Left(views[0], mine, key, None)
  {
    var first, rest := pages[0], Items(pages[1..]);
    PageSpec(views[0], mine, key, limit, None);
    LeftSpec(views[0], mine, key, None);
    WalkSpec(views, pages, mine, key, limit, None);
    if |pages| == 1 {
      assert Items(pages) == first.items;
    } else {
      assert forall v :: v in views[1..] ==> v in views;
      WalkSpec(views[1..], pages[1..], mine, key, limit, first.next);
      forall x ensures x in rest <==> x in views[0] && mine(x) && Less(key(x), first.next.value) {
        if x in views[0] && mine(x) && Less(key(x), first.next.value) {
          assert Lasting(views[1..], x);
        }
      }
    }
    forall x ensures x in Items(pages) <==> x in Left(views[0], mine, key, None) {}
    DescendingUnique(Items(pages), Left(views[0], mine, key, None), key);
  }

  /** A cursor leaves exactly what the page did not hold. */
  lemma LeftAfter<T(!new)>(rows: seq<T>, mine: T -> bool, key: T -> Key, limit: nat, before: Option<Key>)
    requires DistinctKeys(rows, key) && limit >= 1
    requires PageOf(rows, mine, key, limit, before).next.Some?
    ensures var p := PageOf(rows, mine, key, limit, before);
            && Left(rows, mine, key, before) == p.items + Left(rows, mine, key, p.next)
            && |p.items| == limit
  {
    var p := PageOf(rows, mine, key, limit, before);
    var left, after := Left(rows, mine, key, before), Left(rows, mine, key, p.next);
    PageSpec(rows, mine, key, limit, before);
    LeftSpec(rows, mine, key, before);
    LeftSpec(rows, mine, key, p.next);
    WalkJoins(p, after, key, limit, before);
    forall x ensures x in left <==> x in p.items + after {}
    DescendingUnique(left, p.items + after, key);
  }

  lemma LastPage<T(!new)>(rows: seq<T>, mine: T -> bool, key: T -> Key, limit: nat, before: Option<Key>)
    requires limit >= 1 && PageOf(rows, mine, key, limit, before).next.None?
    ensures PageOf(rows, mine, key, limit, before).items == Left(rows, mine, key, before)
  {}
}
