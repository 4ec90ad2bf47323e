/**
 The admin event list over an RPC that clamps its limit at 500: the page, the total and the
 cursor stay right for the largest page, where no probe row fits under the clamp.
 */
module AdminList {
  import opened Common
  import opened Keyset

  datatype Event = Event(createdAt: Time, id: int)
  datatype Cursor = Cursor(createdAt: Time, id: int)

  /** A row as the RPC returns it: every row carries the count of all matching events. */
  datatype Row = Row(event: Event, totalCount: nat)

  datatype AdminPage = AdminPage(events: seq<Event>, totalCount: nat, next: Option<Cursor>)

  const RPC_LIMIT: nat := 500
  const MAX_SAFE_INTEGER: nat := 9_007_199_254_740_991

  function CursorOf(e: Event): Cursor {
    Cursor(e.createdAt, e.id)
  }

  /** The clamp of the RPC: a limit below 1 counts as 1, above 500 as 500. */
  function Clamped(n: int): nat {
    if n < 1 then 1 else if n > RPC_LIMIT then RPC_LIMIT else n
  }

  /** The RPC's order and its cursor predicate agree, and its cursors are (created_at, id). */
  ghost predicate WellOrdered(l: Listing<Event, Cursor>, s: set<Event>) {
    Agrees(l, s) && l.enc == CursorOf
  }

  /**
   What the RPC promises: the first rows strictly after the cursor in the list's order `l`,
   each with the count of all matching events.
   */
  ghost predicate Promises(l: Listing<Event, Cursor>, s: set<Event>, rpc: (Option<Cursor>, nat) -> seq<Row>)
    requires Orders(l.less, s)
  {
    forall cursor, n: nat ::
      && EventsOf(rpc(cursor, n)) == Query(l, s, cursor, Clamped(n))
      && Totals(rpc(cursor, n), |s|)
  }

  function EventsOf(rows: seq<Row>): (es: seq<Event>)
    ensures |es| == |rows| && forall i | 0 <= i < |rows| :: es[i] == rows[i].event
  {
    seq(|rows|, i requires 0 <= i < |rows| => rows[i].event)
  }

  predicate Totals(rows: seq<Row>, n: nat) {
    forall i | 0 <= i < |rows| :: rows[i].totalCount == n
  }

  /** The same promise seen from position `p` of the enumeration `xs` of all matching events. */
  ghost predicate AnswersAt(xs: seq<Event>, rpc: (Option<Cursor>, nat) -> seq<Row>, cursor: Option<Cursor>, n: nat,
                            p: nat) {
    CursorAt(CursorOf, xs, cursor, p) ==>
      EventsOf(rpc(cursor, n)) == Take(xs[p..], Clamped(n)) && Totals(rpc(cursor, n), |xs|)
  }

  ghost predicate Answers(xs: seq<Event>, rpc: (Option<Cursor>, nat) -> seq<Row>) {
    forall cursor, n, p :: AnswersAt(xs, rpc, cursor, n, p)
  }

  lemma PromiseAnswers(l: Listing<Event, Cursor>, s: set<Event>, rpc: (Option<Cursor>, nat) -> seq<Row>)
    requires WellOrdered(l, s) && Promises(l, s, rpc)
    ensures Answers(OrderBy(l.less, s), rpc)
  {
    var xs := OrderBy(l.less, s);
    EnumerationSize(l.less, s, xs);
    forall cursor, n, p
      ensures AnswersAt(xs, rpc, cursor, n, p)
    {
      if CursorAt(CursorOf, xs, cursor, p) {
        MatchingAt(l, s, cursor, p);
      }
    }
  }

  function AsPage(page: AdminPage): Page<Event, Cursor> {
    Page(page.events, page.next)
  }

  /** The answer at position `p`: the events asked for, the true total, and a cursor iff an event remains. */
  ghost predicate Right(xs: seq<Event>, p: nat, limit: nat, page: AdminPage)
    requires p <= |xs|
  {
    && page.totalCount == |xs|
    && |page.events| == (if limit < |xs| - p then limit else |xs| - p)
    && (page.next.Some? <==> p + limit < |xs|)
    && Continues(CursorOf, xs, p, AsPage(page))
  }

  lemma CutIsRight(xs: seq<Event>, p: nat, limit: nat, events: seq<Event>, hasMore: bool)
    requires p <= |xs| && limit > 0 && events == Take(xs[p..], limit) && (hasMore <==> p + limit < |xs|)
    ensures hasMore ==> |events| > 0
    ensures Right(xs, p, limit, AdminPage(events, |xs|, if hasMore then Some(CursorOf(events[|events| - 1])) else None))
  {
    if hasMore {
      assert events[limit - 1] == xs[p + limit - 1];
    }
  }

  function Asked(limit: nat): nat {
    if limit + 1 < RPC_LIMIT then limit + 1 else RPC_LIMIT
  }

  function Kept(rows: seq<Row>, limit: nat): seq<Event> {
    EventsOf(if |rows| > limit then rows[..limit] else rows)
  }

  /** A full page of the largest size needs a probe of its own. */
  function HasMore(rpc: (Option<Cursor>, nat) -> seq<Row>, rows: seq<Row>, limit: nat): bool
    requires 1 <= limit <= RPC_LIMIT
  {
    var events := Kept(rows, limit);
    if limit == RPC_LIMIT && |events| == RPC_LIMIT then |rpc(Some(CursorOf(events[limit - 1])), 1)| > 0
    else |rows| > limit
  }

  /** An empty page carries no count, so the list is asked again from its start. */
  function Total(rpc: (Option<Cursor>, nat) -> seq<Row>, rows: seq<Row>): nat {
    if |rows| > 0 then rows[0].totalCount
    else if |rpc(None, 1)| > 0 then rpc(None, 1)[0].totalCount else 0
  }

  /** listEvents as a function of the RPC. */
  function PageFor(rpc: (Option<Cursor>, nat) -> seq<Row>, cursor: Option<Cursor>, limit: nat): Option<AdminPage>
    requires 1 <= limit <= RPC_LIMIT
  {
    var rows := rpc(cursor, Asked(limit));
    var events := Kept(rows, limit);
    if Total(rpc, rows) > MAX_SAFE_INTEGER then None
    else Some(AdminPage(
      events, Total(rpc, rows),
      if HasMore(rpc, rows, limit) && |events| > 0 then Some(CursorOf(events[|events| - 1])) else None))
  }

  function Server(rpc: (Option<Cursor>, nat) -> seq<Row>, limit: nat): Option<Cursor> -> Option<Page<Event, Cursor>>
    requires 1 <= limit <= RPC_LIMIT
  {
    cursor => if PageFor(rpc, cursor, limit).None? then None else Some(AsPage(PageFor(rpc, cursor, limit).value))
  }

  lemma RowsAt(xs: seq<Event>, rpc: (Option<Cursor>, nat) -> seq<Row>, cursor: Option<Cursor>, n: nat, p: nat)
    requires Answers(xs, rpc) && CursorAt(CursorOf, xs, cursor, p) && 1 <= n <= RPC_LIMIT
    ensures EventsOf(rpc(cursor, n)) == Take(xs[p..], n) && Totals(rpc(cursor, n), |xs|)
    ensures |rpc(cursor, n)| == (if n < |xs| - p then n else |xs| - p)
  {
    assert AnswersAt(xs, rpc, cursor, n, p);
    assert |EventsOf(rpc(cursor, n))| == |rpc(cursor, n)|;
  }

  lemma EventsAreRight(xs: seq<Event>, rpc: (Option<Cursor>, nat) -> seq<Row>, cursor: Option<Cursor>, limit: nat,
                       p: nat)
    requires Answers(xs, rpc) && CursorAt(CursorOf, xs, cursor, p) && 1 <= limit <= RPC_LIMIT
    ensures Kept(rpc(cursor, Asked(limit)), limit) == Take(xs[p..], limit)
  {
    RowsAt(xs, rpc, cursor, Asked(limit), p);
    var rows := rpc(cursor, Asked(limit));
    assert forall i | 0 <= i < |Kept(rows, limit)| :: Kept(rows, limit)[i] == EventsOf(rows)[i];
  }

  lemma MoreIsRight(xs: seq<Event>, rpc: (Option<Cursor>, nat) -> seq<Row>, cursor: Option<Cursor>, limit: nat, p: nat)
    requires Answers(xs, rpc) && CursorAt(CursorOf, xs, cursor, p) && 1 <= limit <= RPC_LIMIT
    ensures HasMore(rpc, rpc(cursor, Asked(limit)), limit) <==> p + limit < |xs|
  {
    RowsAt(xs, rpc, cursor, Asked(limit), p);
    EventsAreRight(xs, rpc, cursor, limit, p);
    if limit == RPC_LIMIT && p + limit <= |xs| {
      assert Take(xs[p..], limit)[limit - 1] == xs[p + limit - 1];
      RowsAt(xs, rpc, Some(CursorOf(xs[p + limit - 1])), 1, p + limit);
    }
  }

  lemma TotalIsRight(xs: seq<Event>, rpc: (Option<Cursor>, nat) -> seq<Row>, cursor: Option<Cursor>, limit: nat, p: nat)
    requires Answers(xs, rpc) && CursorAt(CursorOf, xs, cursor, p) && 1 <= limit <= RPC_LIMIT
    ensures Total(rpc, rpc(cursor, Asked(limit))) == |xs|
  {
    RowsAt(xs, rpc, cursor, Asked(limit), p);
    RowsAt(xs, rpc, None, 1, 0);
  }

  lemma PageIsRight(xs: seq<Event>, rpc: (Option<Cursor>, nat) -> seq<Row>, cursor: Option<Cursor>, limit: nat, p: nat)
    requires Answers(xs, rpc) && CursorAt(CursorOf, xs, cursor, p) && 1 <= limit <= RPC_LIMIT
    ensures PageFor(rpc, cursor, limit).Some? <==> |xs| <= MAX_SAFE_INTEGER
    ensures |xs| <= MAX_SAFE_INTEGER ==> Right(xs, p, limit, PageFor(rpc, cursor, limit).value)
  {
    EventsAreRight(xs, rpc, cursor, limit, p);
    MoreIsRight(xs, rpc, cursor, limit, p);
    TotalIsRight(xs, rpc, cursor, limit, p);
    CutIsRight(xs, p, limit, Take(xs[p..], limit), p + limit < |xs|);
  }

  /**
   listEvents: the events asked for, a total that is always the number of matching events, and
   a cursor exactly when a matching event remains. None is the thrown "unsafe admin count".
   */
  method ListEvents(ghost xs: seq<Event>, rpc: (Option<Cursor>, nat) -> seq<Row>,
                    cursor: Option<Cursor>, limit: nat, ghost p: nat)
    returns (page: Option<AdminPage>)
    requires Answers(xs, rpc) && CursorAt(CursorOf, xs, cursor, p) && 1 <= limit <= RPC_LIMIT
    ensures page == PageFor(rpc, cursor, limit)
    ensures page.Some? <==> |xs| <= MAX_SAFE_INTEGER
    ensures page.Some? ==> Right(xs, p, limit, page.value)
  {
    var rows := rpc(cursor, if limit + 1 < RPC_LIMIT then limit + 1 else RPC_LIMIT);
    var events := EventsOf(if |rows| > limit then rows[..limit] else rows);
    var hasMore := |rows| > limit;
    if limit == RPC_LIMIT && |events| == RPC_LIMIT {
      var probe := rpc(Some(CursorOf(events[limit - 1])), 1);
      hasMore := |probe| > 0;
    }
    var total := 0;
    if |rows| > 0 {
      total := rows[0].totalCount;
    } else {
      var probe := rpc(None, 1);
      total := if |probe| > 0 then probe[0].totalCount else 0;
    }
    PageIsRight(xs, rpc, cursor, limit, p);
    if total > MAX_SAFE_INTEGER {
      return None;
    }
    page := Some(AdminPage(
      events, total, if hasMore && |events| > 0 then Some(CursorOf(events[|events| - 1])) else None));
  }

  /**
   The list over the RPC's promise: for every page size up to the clamp, following the cursors
   enumerates the matching events once each, in order, and ends with a null cursor.
   */
  lemma AdminListTheorem(l: Listing<Event, Cursor>, s: set<Event>, rpc: (Option<Cursor>, nat) -> seq<Row>, limit: nat)
    requires WellOrdered(l, s) && Promises(l, s, rpc) && 1 <= limit <= RPC_LIMIT && |s| <= MAX_SAFE_INTEGER
    ensures var (items, ended) := Follow(Server(rpc, limit), None, |s| + 1);
            ended && Enumerates(l.less, s, items) && |items| == |s|
  {
    var xs := OrderBy(l.less, s);
    EnumerationSize(l.less, s, xs);
    PromiseAnswers(l, s, rpc);
    forall cursor, p
      ensures ServesAt(l.enc, xs, Server(rpc, limit), cursor, p)
    {
      if CursorAt(CursorOf, xs, cursor, p) {
        PageIsRight(xs, rpc, cursor, limit, p);
      }
    }
    FollowServed(l, s, Server(rpc, limit));
  }
}
