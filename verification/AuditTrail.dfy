/**
 Reading the audit trail (server/src/audit.ts, `createAuditReader`): conditions collected one by one,
 and the keyset paging of `Rosters`. A row is an event's time and the rank of its id; `event` is what
 the table holds under that id. A cursor comes decoded, or as one that does not decode.
 */
module AuditTrails {
  import opened Prelude
  import opened JsText
  import opened Rosters

  datatype Event = Event(
    eventType: string, actorUserId: Option<string>, targetType: string, targetId: Option<string>, orgId: string)

  datatype Cursor = NoCursor | At(row: Row) | Malformed

  /** Times are compared as given; an absent filter is None. */
  datatype Query = Query(
    cursor: Cursor,
    eventType: string,
    actorUserId: Option<string>,
    targetType: Option<string>,
    targetId: Option<string>,
    orgId: Option<string>,
    after: Option<int>,
    before: Option<int>,
    limit: nat)

  const LOCAL_ORGANIZATION_ID: string := "org_local"

  const DEFAULT_AUDIT_PAGE: int := 50
  const MAX_AUDIT_PAGE: int := 100

  /** The page size closest to what was asked for; a limit that is no number asks for the default. */
  function AuditLimit(asked: Option<int>): (n: nat)
    ensures 1 <= n <= MAX_AUDIT_PAGE
    ensures var wanted := if asked.Some? then asked.value else DEFAULT_AUDIT_PAGE;
            forall m :: 1 <= m <= MAX_AUDIT_PAGE ==> Apart(wanted, n) <= Apart(wanted, m)
  {
    if asked.None? then DEFAULT_AUDIT_PAGE
    else
      var atLeast := if asked.value > 1 then asked.value else 1;
      if atLeast < MAX_AUDIT_PAGE then atLeast else MAX_AUDIT_PAGE
  }

  /** These pieces trimmed, without the blank ones. */
  function NonBlank(pieces: seq<string>): seq<string> {
    if pieces == [] then []
    else (if Trim(pieces[0]) == "" then [] else [Trim(pieces[0])]) + NonBlank(pieces[1..])
  }

  /** The event types a query names, separated by commas. */
  function TypesIn(text: string): seq<string> { NonBlank(SplitFrom("", text, {','})) }

  lemma {:induction false} NonBlankIs(pieces: seq<string>, t: string)
    ensures t in NonBlank(pieces) <==> t != "" && exists x :: x in pieces && Trim(x) == t
    decreases |pieces|
  {
    if pieces != [] {
      NonBlankIs(pieces[1..], t);
      assert forall x :: x in pieces <==> x == pieces[0] || x in pieces[1..];
    }
  }

  /** A type is asked for when some stretch between commas is it, white space around it aside. */
  lemma TypesAre(text: string, t: string)
    ensures t in TypesIn(text) <==> t != "" && exists x :: IsPiece(text, {','}, x) && Trim(x) == t
  {
    NonBlankIs(SplitFrom("", text, {','}), t);
    assert "" + text == text;
    forall x
      ensures x in SplitFrom("", text, {','}) <==> IsPiece(text, {','}, x)
    {
      SplitIs("", text, {','}, x);
    }
  }

  /** What a query asks for, cursor aside. */
  predicate Matches(q: Query, e: Event, at: int) {
    var types := TypesIn(q.eventType);
    && (types != [] ==> e.eventType in types)
    && (q.actorUserId.Some? && q.actorUserId.value != "" ==> e.actorUserId == q.actorUserId)
    && (q.targetType.Some? && q.targetType.value != "" ==> q.targetType == Some(e.targetType))
    && (q.targetId.Some? && q.targetId.value != "" ==> e.targetId == q.targetId)
    && e.orgId == (if q.orgId.Some? then q.orgId.value else LOCAL_ORGANIZATION_ID)
    && (q.after.Some? ==> at > q.after.value)
    && (q.before.Some? ==> at < q.before.value)
  }

  function MatchTest(q: Query, event: int -> Event): Row -> bool {
    (row: Row) => Matches(q, event(row.id), row.recency)
  }

  // ---- the conditions, as they are collected ----

  /** A filter that was given, and not as an empty string. */
  predicate Given(filter: Option<string>) { filter.Some? && filter.value != "" }

  datatype Condition =
    | TypeIs(eventType: string)
    | TypeIn(types: seq<string>)
    | ActorIs(actorUserId: Option<string>)
    | TargetTypeIs(targetType: string)
    | TargetIdIs(targetId: Option<string>)
    | OrgIs(orgId: string)
    | After(at: int)
    | Earlier(at: int)
    | Below(cursor: Row)

  predicate Holds(c: Condition, row: Row, e: Event) {
    match c
    case TypeIs(eventType) => e.eventType == eventType
    case TypeIn(types) => e.eventType in types
    case ActorIs(actor) => e.actorUserId == actor
    case TargetTypeIs(targetType) => e.targetType == targetType
    case TargetIdIs(targetId) => e.targetId == targetId
    case OrgIs(orgId) => e.orgId == orgId
    case After(at) => row.recency > at
    case Earlier(at) => row.recency < at
    case Below(cursor) => row.recency < cursor.recency || (row.recency == cursor.recency && row.id < cursor.id)
  }

  predicate AllHold(conditions: seq<Condition>, row: Row, e: Event) {
    forall i :: 0 <= i < |conditions| ==> Holds(conditions[i], row, e)
  }

  function AllTest(conditions: seq<Condition>, event: int -> Event): Row -> bool {
    (row: Row) => AllHold(conditions, row, event(row.id))
  }

  lemma AllHoldSnoc(conditions: seq<Condition>, c: Condition, row: Row, e: Event)
    ensures AllHold(conditions + [c], row, e) <==> AllHold(conditions, row, e) && Holds(c, row, e)
  {
    var all := conditions + [c];
    assert all[|conditions|] == c;
    assert forall i | 0 <= i < |conditions| :: all[i] == conditions[i];
  }

  /** Two tests that agree keep the same rows. */
  lemma {:induction false} FilterSame(s: seq<Row>, p: Row -> bool, q: Row -> bool)
    requires forall x :: x in s ==> p(x) == q(x)
    ensures Filter(s, p) == Filter(s, q)
    decreases |s|
  {
    if s != [] {
      FilterSame(s[1..], p, q);
    }
  }

  /** The first rows kept, and where to go on when there is one more. */
  function PageOf(kept: seq<Row>, limit: nat): Page
    requires limit >= 1
  {
    var rows := Take(Sort(kept), limit + 1);
    var page := Take(rows, limit);
    Page(page, if |rows| > limit then Some(CursorOf(page[|page| - 1])) else None)
  }

  /** The query with its limit of one more, and the cut. */
  method Fetch(table: seq<Row>, event: int -> Event, conditions: seq<Condition>, limit: nat) returns (page: Page)
    requires limit >= 1
    ensures page == PageOf(Filter(table, AllTest(conditions, event)), limit)
  {
    var rows := Take(Sort(Filter(table, AllTest(conditions, event))), limit + 1);
    var hasNextPage := |rows| > limit;
    var shown := Take(rows, limit);
    return Page(shown, if hasNextPage then Some(CursorOf(shown[|shown| - 1])) else None);
  }

  /** Conditions that hold of what the query asks for, below its cursor, keep the rows of its page. */
  lemma SameRowsKept(table: seq<Row>, event: int -> Event, conditions: seq<Condition>, q: Query, cursor: Option<Row>)
    requires forall row, e :: AllHold(conditions, row, e) <==>
               Matches(q, e, row.recency) && (cursor.Some? ==> Before(row, cursor.value))
    requires q.limit >= 1
    ensures PageOf(Filter(table, AllTest(conditions, event)), q.limit) == ListPage(table, MatchTest(q, event), cursor, q.limit)
  {
    FilterSame(table, AllTest(conditions, event), PageTest(MatchTest(q, event), cursor));
  }

  // ---- one page ----

  /** The conditions of a query, in the order they are written down; an absent filter adds none. */
  method Conditions(q: Query) returns (conditions: seq<Condition>)
    ensures forall row, e :: AllHold(conditions, row, e) <==> Matches(q, e, row.recency)
  {
    conditions := TypeConditions(TypesIn(q.eventType));
    conditions := Optional(conditions, Given(q.actorUserId), ActorIs(q.actorUserId));
    conditions := Optional(conditions, Given(q.targetType), TargetTypeIs(if q.targetType.Some? then q.targetType.value else ""));
    conditions := Optional(conditions, Given(q.targetId), TargetIdIs(q.targetId));
    conditions := Optional(conditions, true, OrgIs(if q.orgId.Some? then q.orgId.value else LOCAL_ORGANIZATION_ID));
    conditions := Optional(conditions, q.after.Some?, After(if q.after.Some? then q.after.value else 0));
    conditions := Optional(conditions, q.before.Some?, Earlier(if q.before.Some? then q.before.value else 0));
  }

  method TypeConditions(types: seq<string>) returns (conditions: seq<Condition>)
    ensures forall row, e :: AllHold(conditions, row, e) <==> (types != [] ==> e.eventType in types)
  {
    if |types| == 1 {
      conditions := Optional([], true, TypeIs(types[0]));
      assert forall x :: x in types <==> x == types[0];
    } else {
      conditions := Optional([], |types| > 1, TypeIn(types));
    }
  }

  method Optional(conditions: seq<Condition>, asked: bool, c: Condition) returns (more: seq<Condition>)
    ensures forall row, e :: AllHold(more, row, e) <==> AllHold(conditions, row, e) && (asked ==> Holds(c, row, e))
  {
    more := conditions;
    if asked {
      more := more + [c];
      forall row, e
        ensures AllHold(more, row, e) <==> AllHold(conditions, row, e) && Holds(c, row, e)
      {
        AllHoldSnoc(conditions, c, row, e);
      }
    }
  }

  /**
   One page of the trail: what matches, newest first, below the cursor, and a cursor exactly when there
   is more. A cursor that does not decode is refused.
   */
  method List(table: seq<Row>, event: int -> Event, q: Query) returns (r: Result<Page, string>)
    requires q.limit >= 1
    ensures r.Err? <==> q.cursor.Malformed?
    ensures r.Ok? ==>
              r.value == ListPage(table, MatchTest(q, event), if q.cursor.At? then Some(q.cursor.row) else None, q.limit)
  {
    var conditions := Conditions(q);
    ghost var cursor := if q.cursor.At? then Some(q.cursor.row) else None;
    if q.cursor.Malformed? {
      return Err("cursor must be a valid audit page cursor");
    }
    if q.cursor.At? {
      conditions := Optional(conditions, true, Below(q.cursor.row));
    }
    SameRowsKept(table, event, conditions, q, cursor);
    var page := Fetch(table, event, conditions, q.limit);
    return Ok(page);
  }

  /** With times in whole milliseconds, following the cursor shows every matching event once, newest first. */
  lemma TrailIsWhole(table: seq<Row>, event: int -> Event, q: Query)
    requires DistinctIds(table) && q.limit >= 1
    requires forall i :: 0 <= i < |table| ==> table[i].recency % 1000 == 0
    ensures var walk := Walk(table, MatchTest(q, event), None, q.limit);
            && (forall i, j :: 0 <= i < j < |walk| ==>
                  walk[i].recency > walk[j].recency || (walk[i].recency == walk[j].recency && walk[i].id > walk[j].id))
            && forall x :: x in walk <==> x in table && Matches(q, event(x.id), x.recency)
  {
    var matches := MatchTest(q, event);
    var all := Listing(table, matches);
    ListingOk(table, matches);
    forall i | 0 <= i < |all|
      ensures all[i].recency % 1000 == 0
    {
      assert all[i] in table;
    }
    MillisecondsAreClear(all, q.limit);
    RosterWalk(table, matches, q.limit);
  }
}
