/** Listing polls page by page: ranges over big-endian byte keys, against numeric order. */
module PollPaging {
  import opened Outcomes
  import opened Bytes
  import opened Governance
  import opened GovernanceInvariant

  datatype OrderBy = Asc | Desc

  const MAX_LIMIT: nat := 30
  const DEFAULT_LIMIT: nat := 10

  // ----- iterating over the store -----

  /** The first key of a set. */
  ghost function Least(keys: set<ByteString>): (k: ByteString)
    requires keys != {}
    ensures k in keys && forall j | j in keys :: j == k || LexLess(k, j)
    decreases |keys|
  {
    var x :| x in keys;
    if keys - {x} == {} then
      assert keys == {x}; x
    else
      var y := Least(keys - {x});
      LexTotal(x, y);
      assert forall j | j in keys && LexLess(x, y) && LexLess(y, j) :: LexLess(x, j) by {
        forall j | j in keys && LexLess(x, y) && LexLess(y, j) ensures LexLess(x, j) { LexTransitive(x, y, j); }
      }
      assert forall j | j in keys :: j == x || j in keys - {x};
      if LexLess(x, y) then x else y
  }

  /** The keys of a set in the order in which the store iterates. */
  ghost function Listing(keys: set<ByteString>): seq<ByteString>
    decreases |keys|
  {
    if keys == {} then [] else [Least(keys)] + Listing(keys - {Least(keys)})
  }

  function Reversed<T>(s: seq<T>): seq<T> {
    if s == [] then [] else Reversed(s[1..]) + [s[0]]
  }

  function Take<T>(s: seq<T>, n: nat): seq<T> {
    if n <= |s| then s[..n] else s
  }

  predicate Within(k: ByteString, after: Option<ByteString>, before: Option<ByteString>) {
    (after.Some? ==> LexLess(after.value, k)) && (before.Some? ==> LexLess(k, before.value))
  }

  ghost function Range(keys: set<ByteString>, after: Option<ByteString>, before: Option<ByteString>, order: OrderBy):
    seq<ByteString>
  {
    var listing := Listing(set k | k in keys && Within(k, after, before));
    if order.Asc? then listing else Reversed(listing)
  }

  // ----- poll ids as keys -----

  /** A u64. */
  type Id = id: nat | id < Pow256(8) witness 0

  function Key(id: Id): ByteString {
    BigEndian(id, 8)
  }

  /** The bound for an ascending range: the key with a 0 byte appended. */
  function RangeStart(startAfter: Option<Id>): Option<ByteString> {
    if startAfter.Some? then Some(Key(startAfter.value) + [0]) else None
  }

  function RangeEnd(startAfter: Option<Id>): Option<ByteString> {
    if startAfter.Some? then Some(Key(startAfter.value)) else None
  }

  ghost function Keys(ids: set<Id>): set<ByteString> {
    set id | id in ids :: Key(id)
  }

  lemma KeyInjective(a: Id, b: Id)
    ensures Key(a) == Key(b) ==> a == b
  {
    BigEndianOrders(a, b, 8);
    BigEndianOrders(b, a, 8);
    LexTotal(Key(a), Key(b));
  }

  /** Appending a 0 byte gives a bound right after the key among keys of the same width. */
  lemma ExtendedKeyOrders(a: Id, b: Id)
    ensures LexLess(Key(a) + [0], Key(b)) <==> a < b
  {
    BigEndianOrders(a, b, 8);
    BigEndianOrders(b, a, 8);
    LexTotal(Key(a) + [0], Key(b));
    if a < b {
      LexExtends(Key(a), Key(b), [0], []);
      assert Key(b) + [] == Key(b);
    } else if b < a {
      LexExtends(Key(b), Key(a), [], [0]);
      assert Key(b) + [] == Key(b);
    } else {
      LexSkips(Key(a) + [0], Key(b), 8);
    }
  }

  /** The ids that a page starting after `start` may still show. */
  ghost function Remaining(ids: set<Id>, order: OrderBy, start: Option<Id>): set<Id> {
    if start.None? then ids
    else if order.Asc? then set id | id in ids && start.value < id
    else set id | id in ids && id < start.value
  }

  /** The ids of one page, as the store produces them. */
  ghost function PageIds(ids: set<Id>, order: OrderBy, start: Option<Id>, limit: nat): seq<Id> {
    var after := if order.Asc? then RangeStart(start) else None;
    var before := if order.Asc? then None else RangeEnd(start);
    Decoded(Take(Range(Keys(ids), after, before, order), limit), ids)
  }

  /** The ids behind keys that are all keys of known ids. */
  ghost function Decoded(keys: seq<ByteString>, ids: set<Id>): seq<Id> {
    if keys == [] then []
    else [if exists id: Id :: id in ids && Key(id) == keys[0] then var id: Id :| id in ids && Key(id) == keys[0]; id else 0]
         + Decoded(keys[1..], ids)
  }

  // ----- numeric order -----

  ghost function Smallest(ids: set<Id>): (m: Id)
    requires ids != {}
    ensures m in ids && forall id | id in ids :: m <= id
    decreases |ids|
  {
    var x :| x in ids;
    if ids - {x} == {} then
      assert ids == {x}; x
    else
      var y := Smallest(ids - {x});
      assert forall id | id in ids :: id == x || id in ids - {x};
      if x < y then x else y
  }

  ghost function Ascending(ids: set<Id>): seq<Id>
    decreases |ids|
  {
    if ids == {} then [] else [Smallest(ids)] + Ascending(ids - {Smallest(ids)})
  }

  /** All ids, in the order asked for. */
  ghost function Arranged(ids: set<Id>, order: OrderBy): seq<Id> {
    if order.Asc? then Ascending(ids) else Reversed(Ascending(ids))
  }

  predicate InOrder(s: seq<Id>, order: OrderBy) {
    forall i, j | 0 <= i < j < |s| :: if order.Asc? then s[i] < s[j] else s[i] > s[j]
  }

  lemma {:induction false} ReversedAt<T>(s: seq<T>)
    ensures |Reversed(s)| == |s| && forall k | 0 <= k < |s| :: Reversed(s)[k] == s[|s| - 1 - k]
  {
    if s != [] {
      ReversedAt(s[1..]);
    }
  }

  lemma {:induction false} AscendingHolds(ids: set<Id>)
    ensures forall id: Id :: id in Ascending(ids) <==> id in ids
    decreases |ids|
  {
    if ids != {} {
      AscendingHolds(ids - {Smallest(ids)});
    }
  }

  /** The arrangement lists every id exactly once, in strict numeric order. */
  lemma {:induction false} AscendingLists(ids: set<Id>)
    ensures InOrder(Ascending(ids), Asc)
    decreases |ids|
  {
    if ids != {} {
      var rest := Ascending(ids - {Smallest(ids)});
      AscendingLists(ids - {Smallest(ids)});
      AscendingHolds(ids - {Smallest(ids)});
      forall i | 0 <= i < |rest| ensures Smallest(ids) < rest[i] {
        assert rest[i] in rest;
      }
    }
  }

  lemma ArrangedLists(ids: set<Id>, order: OrderBy)
    ensures InOrder(Arranged(ids, order), order)
    ensures forall id: Id :: id in Arranged(ids, order) <==> id in ids
  {
    AscendingLists(ids);
    AscendingHolds(ids);
    var s := Ascending(ids);
    ReversedAt(s);
    var r := Reversed(s);
    forall id: Id | id in s ensures id in r {
      var k :| 0 <= k < |s| && s[k] == id;
      assert r[|s| - 1 - k] == id;
    }
  }

  /** Two strictly ordered lists of the same ids are the same list. */
  lemma {:induction false} OrderedUnique(a: seq<Id>, b: seq<Id>, order: OrderBy)
    requires InOrder(a, order) && InOrder(b, order)
    requires forall id: Id :: id in a <==> id in b
    ensures a == b
  {
    assert b == [] || b[0] in a;
    if a != [] {
      assert a[0] in b;
      assert b != [] && b[0] in a;
      assert a[0] == b[0];
      forall id: Id ensures id in a[1..] <==> id in b[1..] {
        if id in a[1..] {
          var i :| 1 <= i < |a| && a[i] == id;
          assert id in a && id in b && id != b[0];
          var j :| 0 <= j < |b| && b[j] == id;
          assert b[1..][j - 1] == id;
        }
        if id in b[1..] {
          var i :| 1 <= i < |b| && b[i] == id;
          assert id in b && id in a && id != a[0];
          var j :| 0 <= j < |a| && a[j] == id;
          assert a[1..][j - 1] == id;
        }
      }
      OrderedUnique(a[1..], b[1..], order);
    }
  }

  // ----- byte ranges are numeric ranges -----

  function Encoded(ids: seq<Id>): seq<ByteString> {
    if ids == [] then [] else [Key(ids[0])] + Encoded(ids[1..])
  }

  /** The first key is that of the smallest id. */
  lemma LeastIsSmallest(ids: set<Id>)
    requires ids != {}
    ensures Key(Smallest(ids)) in Keys(ids) && Least(Keys(ids)) == Key(Smallest(ids))
  {
    var m := Smallest(ids);
    assert Key(m) in Keys(ids);
    var k := Least(Keys(ids));
    var id: Id :| id in ids && Key(id) == k;
    BigEndianOrders(id, m, 8);
    LexTotal(k, Key(m));
  }

  lemma KeysWithout(ids: set<Id>, m: Id)
    ensures Keys(ids) - {Key(m)} == Keys(ids - {m})
  {
    forall j: Id | j in ids && Key(j) == Key(m) ensures j == m { KeyInjective(j, m); }
  }

  /** The store iterates over poll keys in the numeric order of the ids. */
  lemma {:induction false} ListingIsNumeric(ids: set<Id>)
    ensures Listing(Keys(ids)) == Encoded(Ascending(ids))
    decreases |ids|
  {
    if ids == {} {
      assert Keys(ids) == {};
    } else {
      var m := Smallest(ids);
      LeastIsSmallest(ids);
      KeysWithout(ids, m);
      ListingIsNumeric(ids - {m});
      assert Ascending(ids)[1..] == Ascending(ids - {m});
    }
  }

  lemma {:induction false} EncodedShape(ids: seq<Id>)
    ensures |Encoded(ids)| == |ids| && forall i | 0 <= i < |ids| :: Encoded(ids)[i] == Key(ids[i])
  {
    if ids != [] {
      EncodedShape(ids[1..]);
    }
  }

  lemma {:induction false} DecodedKeys(keys: seq<ByteString>, list: seq<Id>, ids: set<Id>)
    requires |keys| == |list|
    requires forall i | 0 <= i < |list| :: list[i] in ids && keys[i] == Key(list[i])
    ensures Decoded(keys, ids) == list
  {
    if keys != [] {
      forall id: Id | id in ids && Key(id) == keys[0] ensures id == list[0] { KeyInjective(id, list[0]); }
      DecodedKeys(keys[1..], list[1..], ids);
      assert list == [list[0]] + list[1..];
    }
  }

  /** A range over the keys runs through the remaining ids in the numeric order asked for. */
  lemma RangeIsNumeric(ids: set<Id>, order: OrderBy, start: Option<Id>)
    ensures var after := if order.Asc? then RangeStart(start) else None;
            var before := if order.Asc? then None else RangeEnd(start);
            var keys, numeric := Range(Keys(ids), after, before, order), Arranged(Remaining(ids, order, start), order);
            |keys| == |numeric| && forall i | 0 <= i < |keys| :: keys[i] == Key(numeric[i])
  {
    var rest := Remaining(ids, order, start);
    RangeIsRemaining(ids, order, start);
    ListingIsNumeric(rest);
    EncodedShape(Ascending(rest));
    ReversedAt(Ascending(rest));
    ReversedAt(Encoded(Ascending(rest)));
  }

  /** One page holds the next ids in the numeric order asked for. */
  lemma PageIsNumeric(ids: set<Id>, order: OrderBy, start: Option<Id>, limit: nat)
    ensures PageIds(ids, order, start, limit) == Take(Arranged(Remaining(ids, order, start), order), limit)
  {
    var after := if order.Asc? then RangeStart(start) else None;
    var before := if order.Asc? then None else RangeEnd(start);
    RangeIsNumeric(ids, order, start);
    ArrangedLists(Remaining(ids, order, start), order);
    var numeric := Arranged(Remaining(ids, order, start), order);
    var keys := Range(Keys(ids), after, before, order);
    var list, page := Take(numeric, limit), Take(keys, limit);
    forall i | 0 <= i < |list| ensures list[i] in ids && page[i] == Key(list[i]) {
      assert numeric[i] in numeric;
    }
    DecodedKeys(page, list, ids);
  }

  lemma RangeIsRemaining(ids: set<Id>, order: OrderBy, start: Option<Id>)
    ensures var after := if order.Asc? then RangeStart(start) else None;
            var before := if order.Asc? then None else RangeEnd(start);
            (set k | k in Keys(ids) && Within(k, after, before)) == Keys(Remaining(ids, order, start))
  {
    var after := if order.Asc? then RangeStart(start) else None;
    var before := if order.Asc? then None else RangeEnd(start);
    var rest := Remaining(ids, order, start);
    forall id: Id | id in ids ensures Within(Key(id), after, before) <==> id in rest {
      if start.Some? {
        ExtendedKeyOrders(start.value, id);
        BigEndianOrders(id, start.value, 8);
      }
    }
    forall k ensures k in Keys(ids) && Within(k, after, before) <==> k in Keys(rest) {
      if k in Keys(ids) && Within(k, after, before) {
        var id: Id :| id in ids && Key(id) == k;
        assert id in rest;
      }
      if k in Keys(rest) {
        var id: Id :| id in rest && Key(id) == k;
        assert id in ids;
      }
    }
  }

  // ----- all pages -----

  lemma RemainingShrinks(ids: set<Id>, order: OrderBy, start: Option<Id>, last: Id)
    requires last in Remaining(ids, order, start)
    ensures Remaining(ids, order, Some(last)) < Remaining(ids, order, start)
    ensures |Remaining(ids, order, Some(last))| < |Remaining(ids, order, start)|
  {
    var less, more := Remaining(ids, order, Some(last)), Remaining(ids, order, start);
    assert less <= more - {last};
    SubsetSize(less, more - {last});
  }

  lemma {:induction false} SubsetSize<T>(a: set<T>, b: set<T>)
    requires a <= b
    ensures |a| <= |b|
    decreases a
  {
    if a != {} {
      var x :| x in a;
      SubsetSize(a - {x}, b - {x});
    }
  }

  lemma PageStaysInside(ids: set<Id>, order: OrderBy, start: Option<Id>, limit: nat)
    ensures forall id | id in PageIds(ids, order, start, limit) :: id in Remaining(ids, order, start)
  {
    PageIsNumeric(ids, order, start, limit);
    ArrangedLists(Remaining(ids, order, start), order);
  }

  /** Page after page, each starting after the last id of the one before, until one is empty. */
  ghost function AllPages(ids: set<Id>, order: OrderBy, start: Option<Id>, limit: nat): seq<Id>
    decreases |Remaining(ids, order, start)|
  {
    var page := PageIds(ids, order, start, limit);
    if page == [] then []
    else
      var last := page[|page| - 1];
      PageStaysInside(ids, order, start, limit);
      RemainingShrinks(ids, order, start, last);
      page + AllPages(ids, order, Some(last), limit)
  }

  /** In a strict order the ids after the n-th place are those beyond the n-th id. */
  lemma TailHolds(all: seq<Id>, order: OrderBy, n: nat)
    requires InOrder(all, order) && 0 < n <= |all|
    ensures InOrder(all[n..], order)
    ensures forall id: Id :: id in all[n..] <==>
              id in all && if order.Asc? then all[n - 1] < id else id < all[n - 1]
  {
    forall id: Id | id in all && (if order.Asc? then all[n - 1] < id else id < all[n - 1]) ensures id in all[n..] {
      var i :| 0 <= i < |all| && all[i] == id;
      assert i >= n && all[n..][i - n] == id;
    }
    forall id: Id | id in all[n..] ensures id in all && if order.Asc? then all[n - 1] < id else id < all[n - 1] {
      var i :| 0 <= i < |all| - n && all[n..][i] == id;
      assert all[n + i] == id;
    }
  }

  lemma RemainingAfter(ids: set<Id>, order: OrderBy, start: Option<Id>, last: Id, id: Id)
    requires last in Remaining(ids, order, start)
    ensures id in Remaining(ids, order, Some(last)) <==>
              id in Remaining(ids, order, start) && if order.Asc? then last < id else id < last
  {}

  /** What comes after the first n of an arrangement is the arrangement of what remains after them. */
  lemma ArrangedContinues(ids: set<Id>, order: OrderBy, start: Option<Id>, n: nat)
    requires 0 < n <= |Arranged(Remaining(ids, order, start), order)|
    ensures var all := Arranged(Remaining(ids, order, start), order);
            all[n..] == Arranged(Remaining(ids, order, Some(all[n - 1])), order)
  {
    var rest := Remaining(ids, order, start);
    var all := Arranged(rest, order);
    ArrangedLists(rest, order);
    TailHolds(all, order, n);
    var last := all[n - 1];
    assert last in all;
    var next := Remaining(ids, order, Some(last));
    ArrangedLists(next, order);
    forall id: Id ensures id in all[n..] <==> id in Arranged(next, order) {
      RemainingAfter(ids, order, start, last, id);
    }
    OrderedUnique(all[n..], Arranged(next, order), order);
  }

  /** Reading on after a page: the next pages start after its last id. */
  lemma PagesUnfold(ids: set<Id>, order: OrderBy, start: Option<Id>, limit: nat)
    requires PageIds(ids, order, start, limit) != []
    ensures var page := PageIds(ids, order, start, limit);
            var last := page[|page| - 1];
            && last in Remaining(ids, order, start)
            && AllPages(ids, order, start, limit) == page + AllPages(ids, order, Some(last), limit)
  {
    PageStaysInside(ids, order, start, limit);
  }

  lemma {:induction false} PagesContinue(ids: set<Id>, order: OrderBy, start: Option<Id>, limit: nat)
    requires limit > 0
    ensures AllPages(ids, order, start, limit) == Arranged(Remaining(ids, order, start), order)
    decreases |Remaining(ids, order, start)|
  {
    var all := Arranged(Remaining(ids, order, start), order);
    var page := PageIds(ids, order, start, limit);
    PageIsNumeric(ids, order, start, limit);
    if page != [] {
      var last := page[|page| - 1];
      PagesUnfold(ids, order, start, limit);
      RemainingShrinks(ids, order, start, last);
      PagesContinue(ids, order, Some(last), limit);
      ArrangedContinues(ids, order, start, |page|);
      assert all == all[..|page|] + all[|page|..];
    }
  }

  /** With any positive limit, the pages together list every id exactly once, in numeric order, ascending
      or descending. */
  lemma PagesListEachOnce(ids: set<Id>, order: OrderBy, limit: nat)
    requires limit > 0
    ensures var list := AllPages(ids, order, None, limit);
            InOrder(list, order) && forall id: Id :: id in list <==> id in ids
  {
    PagesContinue(ids, order, None, limit);
    ArrangedLists(ids, order);
  }

  // ----- the query -----

  /** The ids that a query ranges over: all polls, or those the index holds under a status. */
  ghost function Candidates(w: World, filter: Option<PollStatus>): set<Id>
    requires w.pollCount < Pow256(8) && Inv(w)
  {
    if filter.None? then set id: Id | id in w.polls
    else set e | e in w.indexer && e.0 == filter.value && e.1 < Pow256(8) :: e.1
  }

  ghost function LoadAll(polls: map<nat, Poll>, ids: seq<Id>): Result<seq<Poll>, Error> {
    if ids == [] then Ok([])
    else if ids[0] !in polls then Err(PollMissing)
    else
      var rest :- LoadAll(polls, ids[1..]);
      Ok([polls[ids[0]]] + rest)
  }

  function Limit(limit: Option<nat>): nat {
    var n := if limit.Some? then limit.value else DEFAULT_LIMIT;
    if n < MAX_LIMIT then n else MAX_LIMIT
  }

  ghost function ReadPolls(w: World, filter: Option<PollStatus>, start: Option<Id>, limit: Option<nat>,
                           order: Option<OrderBy>): Result<seq<Poll>, Error>
    requires w.pollCount < Pow256(8) && Inv(w)
  {
    LoadAll(w.polls, PageIds(Candidates(w, filter), Direction(order), start, Limit(limit)))
  }

  lemma {:induction false} LoadAllFinds(polls: map<nat, Poll>, ids: seq<Id>)
    requires forall id | id in ids :: id in polls
    ensures LoadAll(polls, ids).Ok? && |LoadAll(polls, ids).value| == |ids|
    ensures forall i | 0 <= i < |ids| :: LoadAll(polls, ids).value[i] == polls[ids[i]]
  {
    if ids != [] {
      assert ids[0] in ids;
      LoadAllFinds(polls, ids[1..]);
    }
  }

  /** A query ranges over exactly the polls of the status asked for: the index misses none. */
  lemma CandidatesExact(w: World, filter: Option<PollStatus>)
    requires w.pollCount < Pow256(8) && Inv(w)
    ensures forall id: Id :: id in Candidates(w, filter) <==>
              id in w.polls && (filter.Some? ==> w.polls[id].status == filter.value)
  {
    forall id: Id
      ensures id in Candidates(w, filter) <==> id in w.polls && (filter.Some? ==> w.polls[id].status == filter.value)
    {
      if filter.Some? && id in w.polls && w.polls[id].status == filter.value {
        assert (filter.value, id as nat) in w.indexer;
      }
    }
  }

  ghost predicate Known(polls: map<nat, Poll>, ids: set<Id>) {
    forall id | id in ids :: id in polls && polls[id].id == id
  }

  /** A page of known ids loads, and holds exactly the polls of those ids. */
  lemma PageLoads(polls: map<nat, Poll>, ids: set<Id>, order: OrderBy, start: Option<Id>, limit: nat)
    requires Known(polls, ids)
    ensures var page, list := LoadAll(polls, PageIds(ids, order, start, limit)), PageIds(ids, order, start, limit);
            && page.Ok? && |page.value| == |list| <= limit
            && (forall i | 0 <= i < |list| ::
                  list[i] in Remaining(ids, order, start) && list[i] in ids && list[i] in polls
                  && page.value[i] == polls[list[i]] && page.value[i].id == list[i])
  {
    var list := PageIds(ids, order, start, limit);
    PageStaysInside(ids, order, start, limit);
    PageIsNumeric(ids, order, start, limit);
    assert forall i | 0 <= i < |list| :: list[i] in list;
    LoadAllFinds(polls, list);
  }

  /** Page after page of known polls, each starting after the last poll of the one before. */
  ghost function ReadAll(polls: map<nat, Poll>, ids: set<Id>, order: OrderBy, start: Option<Id>, limit: nat): seq<Poll>
    requires Known(polls, ids)
    decreases |Remaining(ids, order, start)|
  {
    PageLoads(polls, ids, order, start, limit);
    var page := LoadAll(polls, PageIds(ids, order, start, limit)).value;
    if page == [] then []
    else
      var last := page[|page| - 1].id;
      RemainingShrinks(ids, order, start, last);
      page + ReadAll(polls, ids, order, Some(last), limit)
  }

  ghost predicate Matches(polls: map<nat, Poll>, list: seq<Id>, read: seq<Poll>) {
    |read| == |list| && forall i | 0 <= i < |list| :: list[i] in polls && read[i] == polls[list[i]]
  }

  lemma MatchesConcat(polls: map<nat, Poll>, list: seq<Id>, read: seq<Poll>, list': seq<Id>, read': seq<Poll>)
    requires Matches(polls, list, read) && Matches(polls, list', read')
    ensures Matches(polls, list + list', read + read')
  {}

  /** Reading on after a page that is not empty. */
  lemma ReadAllUnfolds(polls: map<nat, Poll>, ids: set<Id>, order: OrderBy, start: Option<Id>, limit: nat)
    requires Known(polls, ids) && PageIds(ids, order, start, limit) != []
    ensures var list := PageIds(ids, order, start, limit);
            var last, page := list[|list| - 1], LoadAll(polls, list);
            && last in Remaining(ids, order, start) && page.Ok? && Matches(polls, list, page.value)
            && AllPages(ids, order, start, limit) == list + AllPages(ids, order, Some(last), limit)
            && ReadAll(polls, ids, order, start, limit) == page.value + ReadAll(polls, ids, order, Some(last), limit)
  {
    PageLoads(polls, ids, order, start, limit);
    PagesUnfold(ids, order, start, limit);
  }

  lemma {:induction false} ReadAllMatches(polls: map<nat, Poll>, ids: set<Id>, order: OrderBy, start: Option<Id>, limit: nat)
    requires Known(polls, ids)
    ensures Matches(polls, AllPages(ids, order, start, limit), ReadAll(polls, ids, order, start, limit))
    decreases |Remaining(ids, order, start)|
  {
    var list := PageIds(ids, order, start, limit);
    if list == [] {
      PageLoads(polls, ids, order, start, limit);
    } else {
      var last := list[|list| - 1];
      ReadAllUnfolds(polls, ids, order, start, limit);
      RemainingShrinks(ids, order, start, last);
      ReadAllMatches(polls, ids, order, Some(last), limit);
      MatchesConcat(polls, list, LoadAll(polls, list).value,
                    AllPages(ids, order, Some(last), limit), ReadAll(polls, ids, order, Some(last), limit));
    }
  }

  function Direction(order: Option<OrderBy>): OrderBy {
    if order == Some(Asc) then Asc else Desc
  }

  lemma CandidatesKnown(w: World, filter: Option<PollStatus>)
    requires w.pollCount < Pow256(8) && Inv(w)
    ensures Known(w.polls, Candidates(w, filter))
  {}

  /** How many polls a page may hold: the limit asked for or 10, and never more than 30. */
  function PageSize(limit: Option<nat>): nat {
    match limit
    case None => 10
    case Some(n) => if n <= 30 then n else 30
  }

  /** A page of known polls is full as long as polls remain, and holds the next of them. */
  lemma PageExact(polls: map<nat, Poll>, ids: set<Id>, order: OrderBy, start: Option<Id>, limit: nat)
    requires Known(polls, ids)
    ensures LoadAll(polls, PageIds(ids, order, start, limit)).Ok?
    ensures IsPage(polls, LoadAll(polls, PageIds(ids, order, start, limit)).value, Remaining(ids, order, start), order, limit)
  {
    PageLoads(polls, ids, order, start, limit);
    PageIsNumeric(ids, order, start, limit);
    ArrangedSize(Remaining(ids, order, start), order);
  }

  ghost predicate IsPage(polls: map<nat, Poll>, page: seq<Poll>, rest: set<Id>, order: OrderBy, limit: nat) {
    var next := Arranged(rest, order);
    && |next| == |rest| && |page| == (if |rest| < limit then |rest| else limit)
    && forall i | 0 <= i < |page| :: next[i] in polls && page[i] == polls[next[i]] && page[i].id == next[i]
  }

  /** A query never meets a missing poll. Its page is full as long as polls remain, and holds the next of
      them, of the status asked for, in the numeric order asked for. */
  lemma QueryNeverFails(w: World, filter: Option<PollStatus>, start: Option<Id>, limit: Option<nat>,
                        order: Option<OrderBy>)
    requires w.pollCount < Pow256(8) && Inv(w)
    ensures ReadPolls(w, filter, start, limit, order).Ok?
    ensures var way := if order == Some(Asc) then Asc else Desc;
            IsPage(w.polls, ReadPolls(w, filter, start, limit, order).value,
                   Remaining(Candidates(w, filter), way, start), way, PageSize(limit))
    ensures forall poll | poll in ReadPolls(w, filter, start, limit, order).value ::
              poll.id in w.polls && poll == w.polls[poll.id] && (filter.Some? ==> poll.status == filter.value)
  {
    CandidatesKnown(w, filter);
    CandidatesExact(w, filter);
    PageExact(w.polls, Candidates(w, filter), Direction(order), start, Limit(limit));
    PageLoads(w.polls, Candidates(w, filter), Direction(order), start, Limit(limit));
  }

  lemma {:induction false} AscendingSize(ids: set<Id>)
    ensures |Ascending(ids)| == |ids|
    decreases |ids|
  {
    if ids != {} {
      AscendingSize(ids - {Smallest(ids)});
    }
  }

  lemma ArrangedSize(ids: set<Id>, order: OrderBy)
    ensures |Arranged(ids, order)| == |ids|
  {
    AscendingSize(ids);
    ReversedAt(Ascending(ids));
  }

  /** A client that keeps querying with `start_after` set to the id of the last poll it has been given. */
  ghost function Reading(w: World, filter: Option<PollStatus>, start: Option<Id>, limit: Option<nat>,
                         order: Option<OrderBy>): seq<Poll>
    requires w.pollCount < Pow256(8) && Inv(w)
    decreases |Remaining(Candidates(w, filter), Direction(order), start)|
  {
    CandidatesKnown(w, filter);
    PageLoads(w.polls, Candidates(w, filter), Direction(order), start, Limit(limit));
    var page := ReadPolls(w, filter, start, limit, order).value;
    if page == [] then []
    else
      var last := page[|page| - 1].id;
      RemainingShrinks(Candidates(w, filter), Direction(order), start, last);
      page + Reading(w, filter, Some(last), limit, order)
  }

  lemma {:induction false} ReadingIsAll(w: World, filter: Option<PollStatus>, start: Option<Id>, limit: Option<nat>,
                                        order: Option<OrderBy>)
    requires w.pollCount < Pow256(8) && Inv(w)
    ensures Known(w.polls, Candidates(w, filter))
    ensures Reading(w, filter, start, limit, order)
         == ReadAll(w.polls, Candidates(w, filter), Direction(order), start, Limit(limit))
    decreases |Remaining(Candidates(w, filter), Direction(order), start)|
  {
    CandidatesKnown(w, filter);
    PageLoads(w.polls, Candidates(w, filter), Direction(order), start, Limit(limit));
    var page := ReadPolls(w, filter, start, limit, order).value;
    if page != [] {
      var last := page[|page| - 1].id;
      RemainingShrinks(Candidates(w, filter), Direction(order), start, last);
      ReadingIsAll(w, filter, Some(last), limit, order);
    }
  }

  /** Reading page after page, with any limit but 0, returns every poll (of the status asked for) exactly
      once, in the numeric order of the ids, ascending or descending. */
  lemma EveryPollReadOnce(w: World, filter: Option<PollStatus>, limit: Option<nat>, order: Option<OrderBy>)
    requires w.pollCount < Pow256(8) && Inv(w) && limit != Some(0)
    ensures var read := Reading(w, filter, None, limit, order);
            && (forall i, j | 0 <= i < j < |read| ::
                  if order == Some(Asc) then read[i].id < read[j].id else read[i].id > read[j].id)
            && (forall poll: Poll :: poll in read <==>
                  poll.id in w.polls && w.polls[poll.id] == poll && (filter.Some? ==> poll.status == filter.value))
  {
    var ids := Candidates(w, filter);
    CandidatesExact(w, filter);
    ReadingIsAll(w, filter, None, limit, order);
    PagesListEachOnce(ids, Direction(order), Limit(limit));
    ReadAllMatches(w.polls, ids, Direction(order), None, Limit(limit));
    ReadOfList(w.polls, ids, AllPages(ids, Direction(order), None, Limit(limit)),
               ReadAll(w.polls, ids, Direction(order), None, Limit(limit)));
  }

  lemma ReadOfList(polls: map<nat, Poll>, ids: set<Id>, list: seq<Id>, read: seq<Poll>)
    requires Known(polls, ids) && Matches(polls, list, read)
    requires forall id: Id :: id in list <==> id in ids
    ensures forall i | 0 <= i < |list| :: read[i].id == list[i]
    ensures forall id | id in ids :: polls[id] in read
    ensures forall poll | poll in read :: poll.id < Pow256(8) && poll.id in ids && polls[poll.id] == poll
  {}
}
