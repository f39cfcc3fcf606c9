/** The roster's `list` as a whole (server/src/channels/routes.ts): choose the page, join it, regroup it. */
module RosterLists {
  import opened Prelude
  import opened Rosters

  /**
   A Bot in a channel: its place in the To: order, and whether its profile was deleted. Agent ids, like
   channel ids, are represented by their rank in the database's order.
   */
  datatype Link = Link(agentId: int, position: int, deleted: bool)

  /** What a summary takes over from its channel as it stands. */
  datatype About = About(
    name: string, threadId: string, lastMessage: Option<string>, lastMessageAt: Option<int>,
    lastMessageAgentId: Option<int>, createdAt: int)

  datatype Channel = Channel(row: Row, about: About, links: seq<Link>)

  /** What the join yields for each agent of each channel. */
  datatype JoinRow = JoinRow(id: int, about: About, agentId: int, deleted: bool)

  datatype Summary = Summary(id: int, about: About, agentIds: seq<int>, active: bool)

  // ---- the join ----

  /** By position, and among equals by agent id. */
  predicate AtOrBefore(a: Link, b: Link) {
    a.position < b.position || (a.position == b.position && a.agentId <= b.agentId)
  }

  function InsertLink(x: Link, s: seq<Link>): (r: seq<Link>)
    ensures |r| == |s| + 1
  {
    if s == [] || AtOrBefore(x, s[0]) then [x] + s else [s[0]] + InsertLink(x, s[1..])
  }

  /** The links of one channel in the To: order. */
  function ByPosition(links: seq<Link>): (r: seq<Link>)
    ensures |r| == |links|
  {
    if links == [] then [] else InsertLink(links[0], ByPosition(links[1..]))
  }

  predicate InOrder(links: seq<Link>) {
    forall i, j :: 0 <= i < j < |links| ==>
      || links[i].position < links[j].position
      || (links[i].position == links[j].position && links[i].agentId <= links[j].agentId)
  }

  lemma {:induction false} InsertLinkMembers(x: Link, s: seq<Link>)
    ensures multiset(InsertLink(x, s)) == multiset(s) + multiset{x}
    decreases |s|
  {
    if s != [] && !AtOrBefore(x, s[0]) {
      InsertLinkMembers(x, s[1..]);
      assert s == [s[0]] + s[1..];
    }
  }

  lemma {:induction false} InsertLinkOrdered(x: Link, s: seq<Link>)
    requires InOrder(s)
    ensures InOrder(InsertLink(x, s))
    ensures forall j :: 0 <= j < |s| + 1 ==> InsertLink(x, s)[j] == x || InsertLink(x, s)[j] in s
    decreases |s|
  {
    if s != [] && !AtOrBefore(x, s[0]) {
      InsertLinkOrdered(x, s[1..]);
      var t := InsertLink(x, s[1..]);
      forall j | 0 <= j < |t|
        ensures AtOrBefore(s[0], t[j]) && (t[j] == x || t[j] in s)
      {
        assert t[j] == x || t[j] in s[1..];
      }
    }
  }

  /** The To: order of a channel's links, whatever order they are stored in. */
  lemma {:induction false} ByPositionSorts(links: seq<Link>)
    ensures InOrder(ByPosition(links)) && multiset(ByPosition(links)) == multiset(links)
    decreases |links|
  {
    if links != [] {
      assert links == [links[0]] + links[1..];
      ByPositionSorts(links[1..]);
      InsertLinkMembers(links[0], ByPosition(links[1..]));
      InsertLinkOrdered(links[0], ByPosition(links[1..]));
    }
  }

  function RowsFor(c: Channel, links: seq<Link>): seq<JoinRow> {
    if links == [] then []
    else RowsFor(c, links[..|links| - 1]) +
         [JoinRow(c.row.id, c.about, links[|links| - 1].agentId, links[|links| - 1].deleted)]
  }

  /** The second query: the chosen channels in page order, each with its agents in position order. */
  function Joined(page: seq<Channel>): seq<JoinRow> {
    if page == [] then []
    else Joined(page[..|page| - 1]) + RowsFor(page[|page| - 1], ByPosition(page[|page| - 1].links))
  }

  // ---- the regrouping ----

  function IndexOf(list: seq<Summary>, id: int): (i: nat)
    ensures i <= |list|
    ensures i < |list| ==> list[i].id == id
    ensures forall j :: 0 <= j < i ==> list[j].id != id
  {
    if list == [] || list[0].id == id then 0 else 1 + IndexOf(list[1..], id)
  }

  /** What one row does to a summary that is already there. */
  function Extended(summary: Summary, row: JoinRow): Summary {
    summary.(agentIds := summary.agentIds + [row.agentId], active := summary.active && !row.deleted)
  }

  /** The summary of a channel first seen in this row. */
  function Begun(row: JoinRow): Summary { Summary(row.id, row.about, [row.agentId], !row.deleted) }

  function AddRow(list: seq<Summary>, row: JoinRow): seq<Summary> {
    var i := IndexOf(list, row.id);
    if i < |list|
    then list[i := Extended(list[i], row)]
    else list + [Begun(row)]
  }

  function Regrouped(rows: seq<JoinRow>): seq<Summary> {
    if rows == [] then [] else AddRow(Regrouped(rows[..|rows| - 1]), rows[|rows| - 1])
  }

  /** A Map from id to summary, and its insertion order, seen as the list of its values. */
  ghost predicate Holds(order: seq<int>, summaries: map<int, Summary>, list: seq<Summary>) {
    && |order| == |list|
    && (forall i :: 0 <= i < |list| ==> order[i] == list[i].id && order[i] in summaries && summaries[order[i]] == list[i])
    && (forall i, j :: 0 <= i < j < |order| ==> order[i] != order[j])
    && (forall id :: id in summaries ==> id in order)
  }

  lemma HoldsAt(order: seq<int>, summaries: map<int, Summary>, list: seq<Summary>, id: int)
    requires Holds(order, summaries, list)
    ensures id in summaries <==> IndexOf(list, id) < |list|
    ensures id in summaries ==> summaries[id] == list[IndexOf(list, id)]
  {
    var i := IndexOf(list, id);
    if id in summaries {
      var j :| 0 <= j < |order| && order[j] == id;
      assert list[j].id == id;
    }
  }

  lemma HoldsExtended(order: seq<int>, summaries: map<int, Summary>, list: seq<Summary>, row: JoinRow)
    requires Holds(order, summaries, list) && row.id in summaries
    ensures Holds(order, summaries[row.id := Extended(summaries[row.id], row)], AddRow(list, row))
  {
    HoldsAt(order, summaries, list, row.id);
  }

  lemma HoldsBegun(order: seq<int>, summaries: map<int, Summary>, list: seq<Summary>, row: JoinRow)
    requires Holds(order, summaries, list) && row.id !in summaries
    ensures Holds(order + [row.id], summaries[row.id := Begun(row)], AddRow(list, row))
  {
    HoldsAt(order, summaries, list, row.id);
    assert AddRow(list, row) == list + [Begun(row)];
  }

  /** The loop that fills the Map of summaries from the joined rows. */
  method Regroup(rows: seq<JoinRow>) returns (list: seq<Summary>)
    ensures list == Regrouped(rows)
  {
    var order: seq<int> := [];
    var summaries: map<int, Summary> := map[];
    for i := 0 to |rows|
      invariant Holds(order, summaries, Regrouped(rows[..i]))
    {
      var row := rows[i];
      assert rows[..i + 1][..i] == rows[..i];
      if row.id in summaries {
        HoldsExtended(order, summaries, Regrouped(rows[..i]), row);
        var summary := summaries[row.id];
        summary := summary.(agentIds := summary.agentIds + [row.agentId], active := summary.active && !row.deleted);
        summaries := summaries[row.id := summary];
      } else {
        HoldsBegun(order, summaries, Regrouped(rows[..i]), row);
        summaries := summaries[row.id := Summary(row.id, row.about, [row.agentId], !row.deleted)];
        order := order + [row.id];
      }
    }
    assert rows[..|rows|] == rows;
    list := Values(order, summaries, Regrouped(rows));
  }

  /** The Map's values, in insertion order. */
  method Values(order: seq<int>, summaries: map<int, Summary>, ghost all: seq<Summary>) returns (list: seq<Summary>)
    requires Holds(order, summaries, all)
    ensures list == all
  {
    list := [];
    for i := 0 to |order|
      invariant list == all[..i]
    {
      list := list + [summaries[order[i]]];
    }
  }

  // ---- what the regrouping yields ----

  function AgentIds(links: seq<Link>): (ids: seq<int>)
    ensures |ids| == |links|
  {
    seq(|links|, i requires 0 <= i < |links| => links[i].agentId)
  }

  predicate NoneDeleted(links: seq<Link>) { forall i :: 0 <= i < |links| ==> !links[i].deleted }

  function SummaryOf(c: Channel): Summary {
    Summary(c.row.id, c.about, AgentIds(ByPosition(c.links)), NoneDeleted(c.links))
  }

  /** The page's channels that have an agent; an inner join drops a channel that has none. */
  function Peopled(page: seq<Channel>): seq<Channel> {
    if page == [] then []
    else Peopled(page[..|page| - 1]) + if page[|page| - 1].links == [] then [] else [page[|page| - 1]]
  }

  function Summaries(page: seq<Channel>): (list: seq<Summary>)
    ensures |list| == |page|
  {
    seq(|page|, i requires 0 <= i < |page| => SummaryOf(page[i]))
  }

  predicate DistinctChannels(page: seq<Channel>) {
    forall i, j :: 0 <= i < j < |page| ==> page[i].row.id != page[j].row.id
  }

  lemma {:induction false} RegroupedAppend(rows: seq<JoinRow>, more: seq<JoinRow>, row: JoinRow)
    ensures Regrouped(rows + (more + [row])) == AddRow(Regrouped(rows + more), row)
  {
    var all := rows + (more + [row]);
    assert all[..|all| - 1] == rows + more;
  }

  /** A channel's rows, together and in order, become one summary after those already there. */
  lemma {:induction false} OneGroup(rows: seq<JoinRow>, c: Channel, links: seq<Link>)
    requires links != [] && forall i :: 0 <= i < |Regrouped(rows)| ==> Regrouped(rows)[i].id != c.row.id
    ensures Regrouped(rows + RowsFor(c, links)) ==
            Regrouped(rows) + [Summary(c.row.id, c.about, AgentIds(links), NoneDeleted(links))]
    decreases |links|
  {
    var front, last := links[..|links| - 1], links[|links| - 1];
    var before := Regrouped(rows);
    var row := JoinRow(c.row.id, c.about, last.agentId, last.deleted);
    RegroupedAppend(rows, RowsFor(c, front), row);
    LinksSnoc(front, last);
    assert links == front + [last];
    if front == [] {
      assert rows + RowsFor(c, front) == rows;
      assert AgentIds(front) + [last.agentId] == [last.agentId];
      assert IndexOf(before, row.id) == |before|;
      assert AddRow(before, row) == before + [Summary(c.row.id, c.about, [last.agentId], !last.deleted)];
    } else {
      OneGroup(rows, c, front);
      AddToLast(before, Summary(c.row.id, c.about, AgentIds(front), NoneDeleted(front)), row);
    }
  }

  lemma LinksSnoc(front: seq<Link>, last: Link)
    ensures AgentIds(front + [last]) == AgentIds(front) + [last.agentId]
    ensures NoneDeleted(front + [last]) <==> NoneDeleted(front) && !last.deleted
  {
    var links := front + [last];
    assert links[|front|] == last;
    assert forall i | 0 <= i < |front| :: links[i] == front[i];
  }

  /** A row of the channel that came last is added to its summary. */
  lemma AddToLast(before: seq<Summary>, summary: Summary, row: JoinRow)
    requires summary.id == row.id && forall i :: 0 <= i < |before| ==> before[i].id != row.id
    ensures AddRow(before + [summary], row) ==
            before + [summary.(agentIds := summary.agentIds + [row.agentId], active := summary.active && !row.deleted)]
  {
    var list := before + [summary];
    assert list[|before|] == summary;
    assert forall i | 0 <= i < |before| :: list[i] == before[i];
    assert IndexOf(list, row.id) == |before|;
  }

  lemma {:induction false} PeopledAreThere(page: seq<Channel>)
    ensures forall c :: c in Peopled(page) <==> c in page && c.links != []
    decreases |page|
  {
    if page != [] {
      PeopledAreThere(page[..|page| - 1]);
      assert page == page[..|page| - 1] + [page[|page| - 1]];
    }
  }

  /**
   Regrouping the joined rows of a page gives one summary per channel that has an agent, in page
   order, its agents in position order, active exactly when none of them is deleted.
   */
  lemma {:induction false} RegroupIsWhole(page: seq<Channel>)
    requires DistinctChannels(page)
    ensures Regrouped(Joined(page)) == Summaries(Peopled(page))
    decreases |page|
  {
    if page != [] {
      var front, last := page[..|page| - 1], page[|page| - 1];
      assert page == front + [last];
      RegroupIsWhole(front);
      if last.links == [] {
        assert Joined(page) == Joined(front);
        assert Peopled(page) == Peopled(front);
      } else {
        NotYetListed(front, last);
        OneChannelMore(Joined(front), last);
        JoinedSnoc(front, last);
        SummariesSnoc(Peopled(front), last);
      }
    }
  }

  /** The rows of a channel not yet listed add its summary. */
  lemma OneChannelMore(rows: seq<JoinRow>, c: Channel)
    requires c.links != [] && forall i :: 0 <= i < |Regrouped(rows)| ==> Regrouped(rows)[i].id != c.row.id
    ensures Regrouped(rows + RowsFor(c, ByPosition(c.links))) == Regrouped(rows) + [SummaryOf(c)]
  {
    ByPositionSorts(c.links);
    SameDeleted(ByPosition(c.links), c.links);
    OneGroup(rows, c, ByPosition(c.links));
  }

  lemma JoinedSnoc(front: seq<Channel>, last: Channel)
    ensures Joined(front + [last]) == Joined(front) + RowsFor(last, ByPosition(last.links))
    ensures Peopled(front + [last]) == Peopled(front) + if last.links == [] then [] else [last]
  {
    var page := front + [last];
    assert page[..|page| - 1] == front;
  }

  lemma SummariesSnoc(page: seq<Channel>, last: Channel)
    ensures Summaries(page + [last]) == Summaries(page) + [SummaryOf(last)]
  {
  }

  lemma NotYetListed(front: seq<Channel>, last: Channel)
    requires DistinctChannels(front + [last])
    ensures forall i :: 0 <= i < |Summaries(Peopled(front))| ==> Summaries(Peopled(front))[i].id != last.row.id
  {
    var page := front + [last];
    assert page[|front|] == last;
    PeopledAreThere(front);
    forall i | 0 <= i < |Summaries(Peopled(front))|
      ensures Summaries(Peopled(front))[i].id != last.row.id
    {
      var c := Peopled(front)[i];
      assert c in front;
      var j :| 0 <= j < |front| && front[j] == c;
      assert page[j] == c;
    }
  }

  lemma SameDeleted(a: seq<Link>, b: seq<Link>)
    requires multiset(a) == multiset(b)
    ensures NoneDeleted(a) <==> NoneDeleted(b)
  {
    forall x
      ensures x in a <==> x in b
    {
      assert x in a <==> x in multiset(a);
    }
    assert NoneDeleted(a) <==> forall x :: x in a ==> !x.deleted;
    assert NoneDeleted(b) <==> forall x :: x in b ==> !x.deleted;
  }

  // ---- list ----

  function RowsOf(channels: seq<Channel>): (rows: seq<Row>)
    ensures |rows| == |channels| && forall i :: 0 <= i < |channels| ==> rows[i] == channels[i].row
  {
    seq(|channels|, i requires 0 <= i < |channels| => channels[i].row)
  }

  predicate Has(channels: seq<Channel>, row: Row) {
    exists i :: 0 <= i < |channels| && channels[i].row == row
  }

  /** The channel of a row. */
  function Chosen(channels: seq<Channel>, row: Row): Channel
    requires Has(channels, row)
  {
    HasTail(channels, row);
    if channels[0].row == row then channels[0]
    else Chosen(channels[1..], row)
  }

  lemma HasTail(channels: seq<Channel>, row: Row)
    requires Has(channels, row)
    ensures channels != [] && (channels[0].row == row || Has(channels[1..], row))
  {
    var i :| 0 <= i < |channels| && channels[i].row == row;
    assert i > 0 ==> channels[1..][i - 1].row == row;
  }

  predicate AllThere(channels: seq<Channel>, rows: seq<Row>) {
    forall i :: 0 <= i < |rows| ==> Has(channels, rows[i])
  }

  function ChosenAll(channels: seq<Channel>, rows: seq<Row>): (page: seq<Channel>)
    requires AllThere(channels, rows)
    ensures |page| == |rows|
    ensures forall i :: 0 <= i < |rows| ==> page[i] == Chosen(channels, rows[i])
  {
    seq(|rows|, i requires 0 <= i < |rows| => Chosen(channels, rows[i]))
  }

  lemma {:induction false} ChosenHasRow(channels: seq<Channel>, row: Row)
    requires Has(channels, row)
    ensures Chosen(channels, row).row == row && Chosen(channels, row) in channels
    decreases |channels|
  {
    HasTail(channels, row);
    if channels[0].row != row {
      ChosenHasRow(channels[1..], row);
    }
  }

  lemma PageIsThere(channels: seq<Channel>, matches: Row -> bool, cursor: Option<Row>, limit: nat)
    requires DistinctChannels(channels) && limit >= 1
    ensures DistinctIds(RowsOf(channels))
    ensures AllThere(channels, ListPage(RowsOf(channels), matches, cursor, limit).rows)
    ensures Descending(ListPage(RowsOf(channels), matches, cursor, limit).rows)
  {
    var table := RowsOf(channels);
    PageIsListed(table, matches, cursor, limit);
    var rows := ListPage(table, matches, cursor, limit).rows;
    forall k | 0 <= k < |rows|
      ensures Has(channels, rows[k])
    {
      RowIsThere(channels, matches, rows[k]);
    }
  }

  /** A page is a part of the listing, in its order. */
  lemma PageIsListed(table: seq<Row>, matches: Row -> bool, cursor: Option<Row>, limit: nat)
    requires DistinctIds(table) && limit >= 1
    ensures var rows := ListPage(table, matches, cursor, limit).rows;
            Descending(rows) && forall k :: 0 <= k < |rows| ==> rows[k] in Listing(table, matches)
  {
    var rest := Below(Listing(table, matches), cursor);
    PageOfListing(table, matches, cursor, limit);
    ListingOk(table, matches);
    BelowDescends(Listing(table, matches), cursor);
    var rows := ListPage(table, matches, cursor, limit).rows;
    assert forall k | 0 <= k < |rows| :: rows[k] == rest[k];
  }

  lemma RowIsThere(channels: seq<Channel>, matches: Row -> bool, row: Row)
    requires DistinctIds(RowsOf(channels)) && row in Listing(RowsOf(channels), matches)
    ensures Has(channels, row)
  {
    ListingOk(RowsOf(channels), matches);
    var i :| 0 <= i < |channels| && RowsOf(channels)[i] == row;
    assert channels[i].row == row;
  }

  /**
   One call of `list`: whole channels, cut from the listing below the cursor, each with its agents in
   position order, equal positions by agent id; a cursor that does not decode is None here.
   */
  method List(channels: seq<Channel>, matches: Row -> bool, cursor: Option<Row>, asked: Option<int>)
    returns (listed: seq<Summary>, next: Option<Row>)
    requires DistinctChannels(channels)
    ensures var page := ListPage(RowsOf(channels), matches, cursor, PageLimit(asked));
            && AllThere(channels, page.rows)
            && listed == Summaries(Peopled(ChosenAll(channels, page.rows)))
            && next == page.next
  {
    var limit := PageLimit(asked);
    PageIsThere(channels, matches, cursor, limit);
    var page := ListPage(RowsOf(channels), matches, cursor, limit);
    var wanted := ChosenAll(channels, page.rows);
    forall i, j | 0 <= i < j < |wanted|
      ensures wanted[i].row.id != wanted[j].row.id
    {
      ChosenHasRow(channels, page.rows[i]);
      ChosenHasRow(channels, page.rows[j]);
      ChosenIdsDiffer(channels, wanted[i], wanted[j]);
      assert Before(page.rows[j], page.rows[i]);
    }
    RegroupIsWhole(wanted);
    listed := Regroup(Joined(wanted));
    return listed, page.next;
  }

  lemma ChosenIdsDiffer(channels: seq<Channel>, a: Channel, b: Channel)
    requires DistinctChannels(channels) && a in channels && b in channels && a.row != b.row
    ensures a.row.id != b.row.id
  {
  }
}
