/** What SQL does to rows: filter, sort by a key, take the first few.
    Keys are sequences of integers compared lexicographically, so that a pair (expire time, id) is
    [expire, id] and a pair (created at, id string) is [created] followed by the characters of the id. */
module Ordering {

  type Key = seq<int>

  /** Strict lexicographic order; a proper prefix comes first. */
  predicate Less(a: Key, b: Key) {
    if b == [] then false
    else if a == [] then true
    else if a[0] != b[0] then a[0] < b[0]
    else Less(a[1..], b[1..])
  }

  lemma LessIrreflexive(a: Key)
    ensures !Less(a, a)
  {}

  lemma {:induction false} LessTransitive(a: Key, b: Key, c: Key)
    requires Less(a, b) && Less(b, c)
    ensures Less(a, c)
  {
    if a != [] && a[0] == b[0] && b[0] == c[0] {
      LessTransitive(a[1..], b[1..], c[1..]);
    }
  }

  lemma {:induction false} LessTotal(a: Key, b: Key)
    ensures Less(a, b) || a == b || Less(b, a)
  {
    if a != [] && b != [] && a[0] == b[0] {
      LessTotal(a[1..], b[1..]);
      assert a == [a[0]] + a[1..] && b == [b[0]] + b[1..];
    }
  }

  lemma LessAsymmetric(a: Key, b: Key)
    requires Less(a, b)
    ensures !Less(b, a) && a != b
  {
    LessIrreflexive(a);
    if Less(b, a) {
      LessTransitive(a, b, a);
    }
  }

  lemma LessPair(x: int, y: int, x2: int, y2: int)
    ensures Less([x, y], [x2, y2]) <==> x < x2 || (x == x2 && y < y2)
  {
    assert Less([y], [y2]) <==> y < y2 by {
      assert [y][1..] == [] && [y2][1..] == [];
    }
    assert [x, y][1..] == [y] && [x2, y2][1..] == [y2];
  }

  // ----- filter

  function Filter<T>(s: seq<T>, p: T -> bool): seq<T> {
    if s == [] then [] else (if p(s[0]) then [s[0]] else []) + Filter(s[1..], p)
  }

  lemma {:induction false} FilterMembers<T(!new)>(s: seq<T>, p: T -> bool, x: T)
    ensures x in Filter(s, p) <==> x in s && p(x)
  {
    if s != [] {
      FilterMembers(s[1..], p, x);
    }
  }

  lemma {:induction false} FilterAppend<T(!new)>(s: seq<T>, t: seq<T>, p: T -> bool)
    ensures Filter(s + t, p) == Filter(s, p) + Filter(t, p)
  {
    if s == [] {
      assert s + t == t;
    } else {
      assert (s + t)[0] == s[0] && (s + t)[1..] == s[1..] + t;
      FilterAppend(s[1..], t, p);
      var first := if p(s[0]) then [s[0]] else [];
      hide Filter;
      assert first + (Filter(s[1..], p) + Filter(t, p)) == (first + Filter(s[1..], p)) + Filter(t, p);
    }
  }

  /** Filtering by p first changes nothing when q implies p. */
  lemma {:induction false} FilterTwice<T(!new)>(s: seq<T>, p: T -> bool, q: T -> bool)
    requires forall x :: x in s && q(x) ==> p(x)
    ensures Filter(Filter(s, p), q) == Filter(s, q)
  {
    if s != [] {
      FilterTwice(s[1..], p, q);
      var rest := Filter(s[1..], p);
      assert s[0] in s;
      assert [] + rest == rest && ([s[0]] + rest)[1..] == rest;
      assert Filter(s, p) == if p(s[0]) then [s[0]] + rest else rest;
    }
  }

  lemma {:induction false} FilterAgree<T(!new)>(s: seq<T>, p: T -> bool, q: T -> bool)
    requires forall x :: x in s ==> (p(x) <==> q(x))
    ensures Filter(s, p) == Filter(s, q)
  {
    if s != [] {
      FilterAgree(s[1..], p, q);
    }
  }

  // ----- sort

  ghost predicate Ascending<T>(s: seq<T>, key: T -> Key) {
    forall i, j :: 0 <= i < j < |s| ==> Less(key(s[i]), key(s[j]))
  }

  ghost predicate DistinctKeys<T>(s: seq<T>, key: T -> Key) {
    forall i, j :: 0 <= i < j < |s| ==> key(s[i]) != key(s[j])
  }

  function Insert<T>(x: T, s: seq<T>, key: T -> Key): seq<T> {
    if s == [] || Less(key(x), key(s[0])) then [x] + s else [s[0]] + Insert(x, s[1..], key)
  }

  function Sort<T>(s: seq<T>, key: T -> Key): seq<T> {
    if s == [] then [] else Insert(s[0], Sort(s[1..], key), key)
  }

  lemma {:induction false} InsertMembers<T(!new)>(x: T, s: seq<T>, key: T -> Key)
    ensures forall y :: y in Insert(x, s, key) <==> y == x || y in s
    ensures |Insert(x, s, key)| == |s| + 1
  {
    if s != [] && !Less(key(x), key(s[0])) {
      InsertMembers(x, s[1..], key);
      forall y ensures y in Insert(x, s, key) <==> y == x || y in s {
        assert s == [s[0]] + s[1..];
      }
    }
  }

  lemma {:induction false} InsertAscending<T(!new)>(x: T, s: seq<T>, key: T -> Key)
    requires Ascending(s, key) && forall y :: y in s ==> key(y) != key(x)
    ensures Ascending(Insert(x, s, key), key)
  {
    if s == [] {
    } else if Less(key(x), key(s[0])) {
      forall j | 0 <= j < |s| ensures Less(key(x), key(s[j])) {
        if j > 0 {
          LessTransitive(key(x), key(s[0]), key(s[j]));
        }
      }
    } else {
      LessTotal(key(x), key(s[0]));
      InsertAscending(x, s[1..], key);
      InsertMembers(x, s[1..], key);
      var rest := Insert(x, s[1..], key);
      assert s[0] in s;
      forall j | 0 <= j < |rest| ensures Less(key(s[0]), key(rest[j])) {
        assert rest[j] in rest;
        if rest[j] != x {
          assert rest[j] in s[1..];
          var i :| 0 <= i < |s[1..]| && s[1..][i] == rest[j];
          assert s[i + 1] == rest[j];
        }
      }
    }
  }

  /** Sorting rows with distinct keys: the same rows, ascending. */
  lemma {:induction false} SortSpec<T(!new)>(s: seq<T>, key: T -> Key)
    requires DistinctKeys(s, key)
    ensures Ascending(Sort(s, key), key) && |Sort(s, key)| == |s|
    ensures forall y :: y in Sort(s, key) <==> y in s
  {
    if s != [] {
      SortSpec(s[1..], key);
      InsertMembers(s[0], Sort(s[1..], key), key);
      forall y | y in Sort(s[1..], key) ensures key(y) != key(s[0]) {
        assert y in s[1..];
        var j :| 0 <= j < |s[1..]| && s[1..][j] == y;
        assert s[j + 1] == y;
      }
      InsertAscending(s[0], Sort(s[1..], key), key);
      assert s == [s[0]] + s[1..];
    }
  }

  lemma {:induction false} SortMembers<T(!new)>(s: seq<T>, key: T -> Key)
    ensures forall y :: y in Sort(s, key) <==> y in s
  {
    if s != [] {
      SortMembers(s[1..], key);
      InsertMembers(s[0], Sort(s[1..], key), key);
      assert s == [s[0]] + s[1..];
    }
  }

  /** An ascending sequence is determined by its elements. */
  lemma {:induction false} AscendingUnique<T(!new)>(a: seq<T>, b: seq<T>, key: T -> Key)
    requires Ascending(a, key) && Ascending(b, key)
    requires forall x :: x in a <==> x in b
    ensures a == b
  {
    if a == [] {
      if b != [] {
        HasMember(b);
        assert false;
      }
    } else {
      HasMember(a);
      if b == [] {
        assert false;
      }
      assert a[0] in b && b[0] in a by {
        assert a[0] in a;
        assert b[0] in b;
      }
      FirstIsLeast(a, b[0], key);
      FirstIsLeast(b, a[0], key);
      LessTotal(key(a[0]), key(b[0]));
      assert a[0] == b[0];
      forall x ensures x in a[1..] <==> x in b[1..] {
        TailMembers(a, x, key);
        TailMembers(b, x, key);
      }
      AscendingUnique(a[1..], b[1..], key);
      assert a == [a[0]] + a[1..] && b == [b[0]] + b[1..];
    }
  }

  lemma HasMember<T(!new)>(s: seq<T>)
    requires s != []
    ensures s[0] in s
  {}

  lemma FirstIsLeast<T(!new)>(s: seq<T>, x: T, key: T -> Key)
    requires Ascending(s, key) && x in s
    ensures !Less(key(x), key(s[0])) && (key(x) == key(s[0]) ==> x == s[0])
  {
    var j :| 0 <= j < |s| && s[j] == x;
    if j > 0 {
      LessAsymmetric(key(s[0]), key(s[j]));
    } else {
      LessIrreflexive(key(x));
    }
  }

  lemma TailMembers<T(!new)>(s: seq<T>, x: T, key: T -> Key)
    requires Ascending(s, key) && s != []
    ensures x in s[1..] <==> x in s && x != s[0]
  {
    assert s == [s[0]] + s[1..];
    if x in s[1..] {
      var j :| 0 <= j < |s[1..]| && s[1..][j] == x;
      assert s[j + 1] == x;
      LessAsymmetric(key(s[0]), key(s[j + 1]));
    }
  }

  lemma {:induction false} FilterDistinct<T(!new)>(s: seq<T>, p: T -> bool, key: T -> Key)
    requires DistinctKeys(s, key)
    ensures DistinctKeys(Filter(s, p), key)
  {
    if s != [] {
      FilterDistinct(s[1..], p, key);
      var rest := Filter(s[1..], p);
      forall j | 0 <= j < |rest| ensures key(rest[j]) != key(s[0]) {
        FilterMembers(s[1..], p, rest[j]);
        var i :| 0 <= i < |s[1..]| && s[1..][i] == rest[j];
        assert s[i + 1] == rest[j];
      }
    }
  }

  lemma {:induction false} FilterAscending<T(!new)>(s: seq<T>, p: T -> bool, key: T -> Key)
    requires Ascending(s, key)
    ensures Ascending(Filter(s, p), key)
  {
    if s != [] {
      FilterAscending(s[1..], p, key);
      var rest := Filter(s[1..], p);
      forall j | 0 <= j < |rest| ensures Less(key(s[0]), key(rest[j])) {
        FilterMembers(s[1..], p, rest[j]);
        var i :| 0 <= i < |s[1..]| && s[1..][i] == rest[j];
        assert s[i + 1] == rest[j];
      }
    }
  }

  // ----- limit

  function Take<T>(s: seq<T>, n: int): seq<T> {
    if n <= 0 then [] else if |s| <= n then s else s[..n]
  }

  /** `select ... where p order by key limit n` */
  function Select<T>(rows: seq<T>, p: T -> bool, key: T -> Key, n: int): seq<T> {
    Take(Sort(Filter(rows, p), key), n)
  }

  /** What a query promises about its page, without mentioning sorting: the page is ascending, all
      its rows qualify, and a qualifying row is missing only if the page is full and ends before it. */
  lemma SelectSpec<T(!new)>(rows: seq<T>, p: T -> bool, key: T -> Key, n: int)
    requires DistinctKeys(rows, key) && n >= 0
    ensures var page := Select(rows, p, key, n);
            && Ascending(page, key) && |page| <= n
            && (forall x :: x in page ==> x in rows && p(x))
            && (forall x :: x in rows && p(x) && x !in page ==>
                  |page| == n && forall y :: y in page ==> Less(key(y), key(x)))
  {
    var kept := Filter(rows, p);
    var sorted := Sort(kept, key);
    var page := Select(rows, p, key, n);
    FilterDistinct(rows, p, key);
    SortSpec(kept, key);
    forall x ensures x in sorted <==> x in rows && p(x) {
      FilterMembers(rows, p, x);
    }
    assert page <= sorted;
    forall x | x in page ensures x in sorted {}
    forall x | x in rows && p(x) && x !in page
      ensures |page| == n && forall y :: y in page ==> Less(key(y), key(x))
    {
      var j :| 0 <= j < |sorted| && sorted[j] == x;
      assert forall i :: 0 <= i < |page| ==> page[i] == sorted[i] && page[i] in page;
    }
  }

  /** An ascending sequence drawn from another and closed downwards in it is a prefix of it. */
  lemma {:induction false} DownClosedIsPrefix<T(!new)>(part: seq<T>, whole: seq<T>, key: T -> Key)
    requires Ascending(part, key) && Ascending(whole, key)
    requires forall x :: x in part ==> x in whole
    requires forall x, y :: x in whole && y in part && Less(key(x), key(y)) ==> x in part
    ensures part <= whole
  {
    if part != [] {
      assert part[0] in whole;
      assert whole[0] in part by {
        FirstIsLeast(whole, part[0], key);
        LessTotal(key(whole[0]), key(part[0]));
        assert whole[0] in whole;
      }
      FirstIsLeast(part, whole[0], key);
      FirstIsLeast(whole, part[0], key);
      LessTotal(key(whole[0]), key(part[0]));
      assert part[0] == whole[0];
      forall x
        ensures x in part[1..] <==> x in part && x != part[0]
        ensures x in whole[1..] <==> x in whole && x != whole[0]
      {
        TailMembers(part, x, key);
        TailMembers(whole, x, key);
      }
      forall x, y | x in whole[1..] && y in part[1..] && Less(key(x), key(y)) ensures x in part[1..] {}
      DownClosedIsPrefix(part[1..], whole[1..], key);
      assert part == [part[0]] + part[1..] && whole == [whole[0]] + whole[1..];
    }
  }

  // ----- text keys

  function Codes(s: string): Key {
    seq(|s|, i requires 0 <= i < |s| => s[i] as int)
  }

  function TextKey(): string -> Key {
    (s: string) => Codes(s)
  }

  lemma CodesInjective(a: string, b: string)
    ensures Codes(a) == Codes(b) ==> a == b
  {
    if Codes(a) == Codes(b) {
      assert |a| == |b|;
      forall i | 0 <= i < |a| ensures a[i] == b[i] {
        assert Codes(a)[i] == Codes(b)[i];
      }
    }
  }

  /** Some key, in whatever order a map yields them. */
  method Pick<T(==)>(keys: set<T>) returns (k: T)
    requires keys != {}
    ensures k in keys
  {
    k :| k in keys;
  }

  /** The keys of a map, collected in its order and sorted. */
  method SortedKeys(keys: set<string>) returns (sorted: seq<string>)
    ensures Ascending(sorted, TextKey())
    ensures forall k :: k in sorted <==> k in keys
    ensures forall i, j :: 0 <= i < j < |sorted| ==> sorted[i] != sorted[j]
  {
    var left := keys;
    var found: seq<string> := [];
    while left != {}
      invariant left <= keys
      invariant forall k :: k in found <==> k in keys && k !in left
      invariant forall i, j :: 0 <= i < j < |found| ==> found[i] != found[j]
      decreases left
    {
      var k := Pick(left);
      left := left - {k};
      found := found + [k];
    }
    forall i, j | 0 <= i < j < |found| ensures TextKey()(found[i]) != TextKey()(found[j]) {
      CodesInjective(found[i], found[j]);
    }
    SortSpec(found, TextKey());
    sorted := Sort(found, TextKey());
    forall i, j | 0 <= i < j < |sorted| ensures sorted[i] != sorted[j] {
      LessAsymmetric(TextKey()(sorted[i]), TextKey()(sorted[j]));
    }
  }
}
