/**
 Keyset paging of the channel roster (server/src/channels/routes.ts, `list`; the audit reader in
 server/src/audit.ts pages the same way), and the regrouping of a page's joined rows.

 Stored times are in microseconds, as Postgres keeps them. A cursor carries an ISO string written by
 `toISOString`, which has milliseconds. Ids are represented by their rank in the database's order.
 */
module Rosters {
  import opened Prelude

  /** A channel as the page query sees it: its recency and its id. */
  datatype Row = Row(recency: int, id: int)

  /** `(recency, id) < (cursor.recency, cursor.id)`, row by row as SQL compares tuples. */
  predicate Before(a: Row, b: Row) {
    a.recency < b.recency || (a.recency == b.recency && a.id < b.id)
  }

  /** Strictly descending by (recency, id). */
  predicate Descending(s: seq<Row>) {
    forall i, j :: 0 <= i < j < |s| ==> Before(s[j], s[i])
  }

  // ---- the query ----

  function Filter(s: seq<Row>, keep: Row -> bool): (r: seq<Row>)
    ensures |r| <= |s|
    ensures forall x :: x in r <==> x in s && keep(x)
  {
    if s == [] then [] else (if keep(s[0]) then [s[0]] else []) + Filter(s[1..], keep)
  }

  function Insert(x: Row, s: seq<Row>): seq<Row> {
    if s == [] || Before(s[0], x) then [x] + s else [s[0]] + Insert(x, s[1..])
  }

  /** `ORDER BY recency DESC, id DESC` */
  function Sort(s: seq<Row>): seq<Row> {
    if s == [] then [] else Insert(s[0], Sort(s[1..]))
  }

  function Take(s: seq<Row>, n: nat): seq<Row> { if |s| <= n then s else s[..n] }

  predicate DistinctIds(s: seq<Row>) {
    forall i, j :: 0 <= i < j < |s| ==> s[i].id != s[j].id
  }

  lemma {:induction false} InsertSorted(x: Row, s: seq<Row>)
    requires Descending(s) && forall y :: y in s ==> y.id != x.id
    ensures Descending(Insert(x, s)) && multiset(Insert(x, s)) == multiset(s) + multiset{x}
    decreases |s|
  {
    if s != [] && !Before(s[0], x) {
      InsertSorted(x, s[1..]);
      var t := Insert(x, s[1..]);
      assert s == [s[0]] + s[1..];
      forall j | 0 <= j < |t|
        ensures Before(t[j], s[0])
      {
        assert t[j] in multiset(t);
        if t[j] != x {
          assert t[j] in s[1..];
          var i :| 0 <= i < |s[1..]| && s[1..][i] == t[j];
          assert s[i + 1] == t[j];
        }
      }
    }
  }

  lemma {:induction false} SortSorted(s: seq<Row>)
    requires DistinctIds(s)
    ensures Descending(Sort(s)) && multiset(Sort(s)) == multiset(s)
    decreases |s|
  {
    if s != [] {
      assert s == [s[0]] + s[1..];
      SortSorted(s[1..]);
      forall y | y in Sort(s[1..])
        ensures y.id != s[0].id
      {
        assert y in multiset(Sort(s[1..]));
        assert y in s[1..];
      }
      InsertSorted(s[0], Sort(s[1..]));
    }
  }

  lemma {:induction false} FilterInsert(x: Row, s: seq<Row>, keep: Row -> bool)
    requires Descending(s) && forall y :: y in s ==> y.id != x.id
    ensures Filter(Insert(x, s), keep) == if keep(x) then Insert(x, Filter(s, keep)) else Filter(s, keep)
    decreases |s|
  {
    if s == [] {
      assert [x] + s == [x] && [x][1..] == [];
    } else if Before(s[0], x) {
      assert ([x] + s)[1..] == s;
      if keep(x) {
        HeadInsert(x, Filter(s, keep), s);
      }
    } else {
      var t := Insert(x, s);
      assert t[0] == s[0] && t[1..] == Insert(x, s[1..]);
      FilterInsert(x, s[1..], keep);
      if keep(s[0]) {
        assert Filter(s, keep)[1..] == Filter(s[1..], keep);
      } else {
        assert Filter(s, keep) == Filter(s[1..], keep);
        assert Filter(t, keep) == Filter(t[1..], keep);
      }
    }
  }

  lemma HeadInsert(x: Row, kept: seq<Row>, s: seq<Row>)
    requires Descending(s) && s != [] && Before(s[0], x)
    requires forall y :: y in kept ==> y in s
    ensures Insert(x, kept) == [x] + kept
  {
    if kept != [] {
      assert kept[0] in s;
      var i :| 0 <= i < |s| && s[i] == kept[0];
    }
  }

  /** Filtering before ordering and after it are the same. */
  lemma {:induction false} SortFilter(s: seq<Row>, keep: Row -> bool)
    requires DistinctIds(s)
    ensures Sort(Filter(s, keep)) == Filter(Sort(s), keep)
    decreases |s|
  {
    if s != [] {
      SortFilter(s[1..], keep);
      SortSorted(s[1..]);
      forall y | y in Sort(s[1..])
        ensures y.id != s[0].id
      {
        assert y in multiset(Sort(s[1..]));
        assert y in s[1..];
      }
      FilterInsert(s[0], Sort(s[1..]), keep);
      if keep(s[0]) {
        assert Filter(s, keep)[1..] == Filter(s[1..], keep);
      } else {
        assert Filter(s, keep) == Filter(s[1..], keep);
      }
    }
  }

  // ---- a page, and following the cursor ----

  /** `toISOString` of a stored time: whole milliseconds, rounded down. */
  function ToMillis(t: int): int { t - t % 1000 }

  /** The cursor a page leaves behind. */
  function CursorOf(last: Row): Row { Row(ToMillis(last.recency), last.id) }

  const DEFAULT_CHANNEL_PAGE: int := 50
  const MAX_CHANNEL_PAGE: int := 200

  /** How far apart two numbers are. */
  function Apart(a: int, b: int): nat { if a < b then b - a else a - b }

  /** The page size closest to what was asked for, or to the default. */
  function PageLimit(asked: Option<int>): (n: nat)
    ensures 1 <= n <= MAX_CHANNEL_PAGE
    ensures var wanted := if asked.Some? then asked.value else DEFAULT_CHANNEL_PAGE;
            forall m :: 1 <= m <= MAX_CHANNEL_PAGE ==> Apart(wanted, n) <= Apart(wanted, m)
  {
    var wanted := if asked.Some? then asked.value else DEFAULT_CHANNEL_PAGE;
    var atLeast := if wanted > 1 then wanted else 1;
    if atLeast < MAX_CHANNEL_PAGE then atLeast else MAX_CHANNEL_PAGE
  }

  /** The page query's WHERE: the search and status conditions, and the cursor's. */
  function PageTest(matches: Row -> bool, cursor: Option<Row>): Row -> bool {
    x => matches(x) && (cursor.Some? ==> Before(x, cursor.value))
  }

  datatype Page = Page(rows: seq<Row>, next: Option<Row>)

  /** One call of `list`: the page query with its limit of one more, and the cursor if there was one more. */
  function ListPage(table: seq<Row>, matches: Row -> bool, cursor: Option<Row>, limit: nat): Page
    requires limit >= 1
  {
    var page := Take(Sort(Filter(table, PageTest(matches, cursor))), limit + 1);
    var wanted := Take(page, limit);
    Page(wanted, if |page| > limit then Some(CursorOf(wanted[|wanted| - 1])) else None)
  }

  /** The cursor's condition. */
  function Test(cursor: Option<Row>): Row -> bool {
    x => cursor.Some? ==> Before(x, cursor.value)
  }

  /** What is left of a descending list below a cursor. */
  function Below(s: seq<Row>, cursor: Option<Row>): seq<Row> { Filter(s, Test(cursor)) }

  /** Every row that matches, in the order the roster shows them. */
  function Listing(table: seq<Row>, matches: Row -> bool): seq<Row> { Sort(Filter(table, matches)) }

  lemma {:induction false} FilterTwice(s: seq<Row>, p: Row -> bool, q: Row -> bool, both: Row -> bool)
    requires forall x :: both(x) <==> p(x) && q(x)
    ensures Filter(Filter(s, p), q) == Filter(s, both)
    decreases |s|
  {
    if s != [] {
      FilterTwice(s[1..], p, q, both);
      if p(s[0]) {
        assert Filter(s, p)[1..] == Filter(s[1..], p);
      } else {
        assert Filter(s, p) == Filter(s[1..], p);
      }
    }
  }

  lemma {:induction false} FilterDistinct(s: seq<Row>, keep: Row -> bool)
    requires DistinctIds(s)
    ensures DistinctIds(Filter(s, keep))
    decreases |s|
  {
    if s != [] {
      FilterDistinct(s[1..], keep);
      var t := Filter(s[1..], keep);
      forall j | 0 <= j < |t|
        ensures t[j].id != s[0].id
      {
        assert t[j] in s[1..];
      }
    }
  }

  lemma ListingOk(table: seq<Row>, matches: Row -> bool)
    requires DistinctIds(table)
    ensures Descending(Listing(table, matches))
    ensures forall x :: x in Listing(table, matches) <==> x in table && matches(x)
  {
    FilterDistinct(table, matches);
    var kept := Filter(table, matches);
    SortSorted(kept);
    forall x
      ensures x in Listing(table, matches) <==> x in table && matches(x)
    {
      assert x in Listing(table, matches) <==> x in multiset(Sort(kept));
      assert x in kept <==> x in multiset(kept);
    }
  }

  /** A page is cut from the listing below the cursor. */
  lemma PageOfListing(table: seq<Row>, matches: Row -> bool, cursor: Option<Row>, limit: nat)
    requires DistinctIds(table) && limit >= 1
    ensures var rest := Below(Listing(table, matches), cursor);
            ListPage(table, matches, cursor, limit) ==
            if |rest| <= limit then Page(rest, None) else Page(rest[..limit], Some(CursorOf(rest[limit - 1])))
  {
    BelowOfListing(table, matches, cursor);
    CutTwice(Below(Listing(table, matches), cursor), limit);
  }

  lemma BelowOfListing(table: seq<Row>, matches: Row -> bool, cursor: Option<Row>)
    requires DistinctIds(table)
    ensures Sort(Filter(table, PageTest(matches, cursor))) == Below(Listing(table, matches), cursor)
  {
    FilterTwice(table, matches, Test(cursor), PageTest(matches, cursor));
    FilterDistinct(table, matches);
    SortFilter(Filter(table, matches), Test(cursor));
  }

  lemma CutTwice(s: seq<Row>, limit: nat)
    ensures |s| > limit ==> s[..limit + 1][..limit] == s[..limit]
  {
  }

  /** Following `nextCursor` from a cursor, page after page. */
  function Walk(table: seq<Row>, matches: Row -> bool, cursor: Option<Row>, limit: nat): seq<Row>
    requires DistinctIds(table) && limit >= 1
    decreases |Below(Listing(table, matches), cursor)|
  {
    var page := ListPage(table, matches, cursor, limit);
    if page.next.None? then page.rows
    else
      WalkEnds(table, matches, cursor, limit);
      page.rows + Walk(table, matches, page.next, limit)
  }

  // ---- walking a descending list ----

  function FirstBelow(s: seq<Row>, cursor: Row): (n: nat)
    ensures n <= |s|
    ensures forall i :: 0 <= i < n ==> !Before(s[i], cursor)
    ensures n < |s| ==> Before(s[n], cursor)
  {
    if s == [] || Before(s[0], cursor) then 0 else 1 + FirstBelow(s[1..], cursor)
  }

  lemma {:induction false} BelowIsSuffix(s: seq<Row>, cursor: Row)
    requires Descending(s)
    ensures Below(s, Some(cursor)) == s[FirstBelow(s, cursor)..]
    decreases |s|
  {
    if s == [] {
    } else if Before(s[0], cursor) {
      forall x | x in s
        ensures Before(x, cursor)
      {
        var i :| 0 <= i < |s| && s[i] == x;
      }
      KeepsAll(s, Test(Some(cursor)));
    } else {
      BelowIsSuffix(s[1..], cursor);
    }
  }

  lemma {:induction false} KeepsAll(s: seq<Row>, keep: Row -> bool)
    requires forall x :: x in s ==> keep(x)
    ensures Filter(s, keep) == s
    decreases |s|
  {
    if s != [] {
      KeepsAll(s[1..], keep);
    }
  }

  /** The rows after a page, of those still to come: the ones strictly below its cursor. */
  function NextPart(s: seq<Row>, limit: nat): seq<Row>
    requires 1 <= limit < |s|
  {
    Below(s, Some(CursorOf(s[limit - 1])))
  }

  /** Where the next part begins. */
  function NextStart(s: seq<Row>, limit: nat): nat
    requires 1 <= limit < |s|
  {
    FirstBelow(s, CursorOf(s[limit - 1]))
  }

  /** The next part is a suffix of what comes after the page, and all of it exactly when nothing falls between. */
  lemma NextPartIs(s: seq<Row>, limit: nat)
    requires Descending(s) && 1 <= limit < |s|
    ensures limit <= NextStart(s, limit) <= |s| && NextPart(s, limit) == s[NextStart(s, limit)..]
    ensures NextStart(s, limit) == limit <==> Before(s[limit], CursorOf(s[limit - 1]))
  {
    BelowIsSuffix(s, CursorOf(s[limit - 1]));
    forall i | 0 <= i < limit
      ensures !Before(s[i], CursorOf(s[limit - 1]))
    {
      assert i == limit - 1 || Before(s[limit - 1], s[i]);
    }
  }

  function WalkFrom(s: seq<Row>, limit: nat): seq<Row>
    requires Descending(s) && limit >= 1
    decreases |s|
  {
    if |s| <= limit then s
    else
      NextPartIs(s, limit);
      s[..limit] + WalkFrom(NextPart(s, limit), limit)
  }

  lemma BelowBelow(s: seq<Row>, cursor: Option<Row>, next: Row)
    requires Descending(s) && (cursor.Some? ==> next == cursor.value || Before(next, cursor.value))
    ensures Below(s, Some(next)) == Below(Below(s, cursor), Some(next))
  {
    FilterTwice(s, Test(cursor), Test(Some(next)), Test(Some(next)));
  }

  lemma BelowDescends(s: seq<Row>, cursor: Option<Row>)
    requires Descending(s)
    ensures Descending(Below(s, cursor))
    ensures cursor.None? ==> Below(s, cursor) == s
  {
    if cursor.Some? {
      BelowIsSuffix(s, cursor.value);
    } else {
      KeepsAll(s, Test(cursor));
    }
  }

  lemma WalkEnds(table: seq<Row>, matches: Row -> bool, cursor: Option<Row>, limit: nat)
    requires DistinctIds(table) && limit >= 1 && ListPage(table, matches, cursor, limit).next.Some?
    ensures var all := Listing(table, matches);
            var next := ListPage(table, matches, cursor, limit).next;
            && |Below(all, next)| < |Below(all, cursor)|
            && Descending(Below(all, cursor)) && |Below(all, cursor)| > limit
            && Below(all, next) == NextPart(Below(all, cursor), limit)
  {
    var all := Listing(table, matches);
    var rest := Below(all, cursor);
    ListingOk(table, matches);
    PageOfListing(table, matches, cursor, limit);
    BelowDescends(all, cursor);
    var last := rest[limit - 1];
    assert last in rest;
    BelowBelow(all, cursor, CursorOf(last));
    NextPartIs(rest, limit);
  }

  lemma {:induction false} WalkIsWalkFrom(table: seq<Row>, matches: Row -> bool, cursor: Option<Row>, limit: nat)
    requires DistinctIds(table) && limit >= 1
    ensures var rest := Below(Listing(table, matches), cursor);
            Descending(rest) && Walk(table, matches, cursor, limit) == WalkFrom(rest, limit)
    decreases |Below(Listing(table, matches), cursor)|
  {
    ListingOk(table, matches);
    BelowDescends(Listing(table, matches), cursor);
    PageOfListing(table, matches, cursor, limit);
    var page := ListPage(table, matches, cursor, limit);
    if page.next.Some? {
      WalkEnds(table, matches, cursor, limit);
      WalkIsWalkFrom(table, matches, page.next, limit);
    }
  }

  // ---- what the walk shows ----

  /**
   At every page boundary, the next row lies strictly below the boundary's cursor as it was written,
   that is, in whole milliseconds. A caller can check it on the listing.
   */
  predicate BoundariesClear(s: seq<Row>, limit: nat)
    requires limit >= 1
    decreases |s|
  {
    |s| <= limit || (Before(s[limit], CursorOf(s[limit - 1])) && BoundariesClear(s[limit..], limit))
  }

  lemma {:induction false} WalkFromShows(s: seq<Row>, limit: nat)
    requires Descending(s) && limit >= 1
    ensures |WalkFrom(s, limit)| <= |s| && Descending(WalkFrom(s, limit))
    ensures forall x :: x in WalkFrom(s, limit) ==> x in s
    ensures WalkFrom(s, limit) == s <==> BoundariesClear(s, limit)
    decreases |s|
  {
    if |s| > limit {
      NextPartIs(s, limit);
      var n := NextStart(s, limit);
      WalkFromShows(s[n..], limit);
      PageThenRest(s, limit, n, WalkFrom(s[n..], limit));
      if n == limit {
        assert s == s[..limit] + s[limit..];
        assert (s[..limit] + WalkFrom(s[n..], limit))[limit..] == WalkFrom(s[n..], limit);
      }
    }
  }

  lemma PageThenRest(s: seq<Row>, limit: nat, n: nat, later: seq<Row>)
    requires Descending(s) && limit <= n <= |s| && Descending(later) && forall x :: x in later ==> x in s[n..]
    ensures Descending(s[..limit] + later) && forall x :: x in s[..limit] + later ==> x in s
  {
    var w := s[..limit] + later;
    forall i, j | 0 <= i < j < |w|
      ensures Before(w[j], w[i])
    {
      if i < limit <= j {
        assert later[j - limit] in s[n..];
        var m :| 0 <= m < |s[n..]| && s[n..][m] == later[j - limit];
        assert s[n + m] == w[j];
      }
    }
  }

  /**
   On an unchanging roster, following the cursor from the first page shows rows of the listing, in
   its order, none twice. It shows every one of them exactly when every boundary is clear.
   */
  lemma RosterWalk(table: seq<Row>, matches: Row -> bool, limit: nat)
    requires DistinctIds(table) && limit >= 1
    ensures var walk := Walk(table, matches, None, limit);
            && (forall i, j :: 0 <= i < j < |walk| ==>
                  walk[i].recency > walk[j].recency || (walk[i].recency == walk[j].recency && walk[i].id > walk[j].id))
            && (forall x :: x in walk ==> x in table && matches(x))
            && (BoundariesClear(Listing(table, matches), limit) <==> walk == Listing(table, matches))
            && (BoundariesClear(Listing(table, matches), limit) <==> forall x :: x in table && matches(x) ==> x in walk)
  {
    var all := Listing(table, matches);
    ListingOk(table, matches);
    BelowDescends(all, None);
    WalkIsWalkFrom(table, matches, None, limit);
    WalkFromShows(all, limit);
    var walk := WalkFrom(all, limit);
    if forall x :: x in table && matches(x) ==> x in walk {
      SameRows(all, walk);
    }
  }

  /** Two descending lists with the same rows are the same. */
  lemma {:induction false} SameRows(a: seq<Row>, b: seq<Row>)
    requires Descending(a) && Descending(b) && forall x :: x in a <==> x in b
    ensures a == b
    decreases |a|
  {
    assert b != [] ==> b[0] in a;
    if a != [] {
      assert a[0] in b;
      assert a[0] == b[0];
      forall x
        ensures x in a[1..] <==> x in b[1..]
      {
        assert x in a[1..] <==> x in a && x != a[0] by { TailRows(a, x); }
        assert x in b[1..] <==> x in b && x != b[0] by { TailRows(b, x); }
      }
      SameRows(a[1..], b[1..]);
    }
  }

  lemma TailRows(s: seq<Row>, x: Row)
    requires Descending(s) && s != []
    ensures x in s[1..] <==> x in s && x != s[0]
  {
    assert s == [s[0]] + s[1..];
  }

  /** When every stored time is a whole number of milliseconds, every boundary is clear. */
  lemma {:induction false} MillisecondsAreClear(s: seq<Row>, limit: nat)
    requires Descending(s) && limit >= 1 && forall i :: 0 <= i < |s| ==> s[i].recency % 1000 == 0
    ensures BoundariesClear(s, limit)
    decreases |s|
  {
    if |s| > limit {
      MillisecondsAreClear(s[limit..], limit);
    }
  }

  /** A listing of two whose second row is not below the cursor the first leaves: the second is never shown. */
  lemma SecondIsSkipped(a: Row, b: Row)
    requires Before(b, a) && !Before(b, CursorOf(a))
    ensures WalkFrom([a, b], 1) == [a]
  {
    var s := [a, b];
    NextPartIs(s, 1);
    assert s[1..] == [b] && [b][1..] == [];
    assert NextPart(s, 1) == [];
    assert s[..1] + [] == [a];
  }

  lemma ListingOfTwo(a: Row, b: Row, matches: Row -> bool)
    requires Before(b, a) && a.id != b.id && matches(a) && matches(b)
    ensures Listing([a, b], matches) == [a, b]
  {
    var table := [a, b];
    assert table[0] == a && table[1] == b;
    ListingOk(table, matches);
    SameRows(Listing(table, matches), table);
  }

  /** Two channels, the second later than the cursor the first leaves behind: it is never shown. */
  lemma WalkOfTwo(a: Row, b: Row, matches: Row -> bool)
    requires Before(b, a) && a.id != b.id && matches(a) && matches(b) && !Before(b, CursorOf(a))
    ensures DistinctIds([a, b]) && Walk([a, b], matches, None, 1) == [a]
  {
    ListingOfTwo(a, b, matches);
    WalkIsWalkFrom([a, b], matches, None, 1);
    BelowDescends([a, b], None);
    SecondIsSkipped(a, b);
  }

  /** No search and no status asked for. */
  predicate AnyRow(x: Row) { true }

  /** Two channels created within one millisecond, on either side of a boundary. */
  lemma SubMillisecondRowIsSkipped(a: Row, b: Row)
    requires a == Row(1500, 2) && b == Row(1400, 1)
    ensures DistinctIds([a, b]) && Walk([a, b], AnyRow, None, 1) == [a]
  {
    assert ToMillis(1500) == 1000;
    assert CursorOf(a) == Row(1000, 2);
    assert AnyRow(a) && AnyRow(b);
    WalkOfTwo(a, b, AnyRow);
  }
}
