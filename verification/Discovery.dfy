/**
 Event discovery: the ORDER BY and the cursor predicate of the discovery query, the cursor
 codec, and the page the consumer service cuts. The search filters are one fixed set of rows.
 */
module Discovery {
  import opened Common
  import opened Keyset

  datatype Sort = Soonest | Latest | PriceAsc | RatingDesc

  /** A Postgres numeric. NaN and -Infinity are not part of this model. */
  datatype Num = Finite(v: real) | Infinite

  /** A candidate event. `rating` is NULL without ratings; it is held in tenths. */
  datatype Row = Row(id: nat, start: Time, price: Option<Num>, rating: Option<nat>, ratingCount: nat)

  // ---------------------------------------------------------------- ORDER BY

  datatype Comparison = Lt | Eq | Gt

  function Compare(a: int, b: int): Comparison {
    if a < b then Lt else if a == b then Eq else Gt
  }

  function CompareNum(a: Num, b: Num): Comparison {
    match (a, b)
    case (Finite(x), Finite(y)) => if x < y then Lt else if x == y then Eq else Gt
    case (Finite(_), Infinite) => Lt
    case (Infinite, Finite(_)) => Gt
    case (Infinite, Infinite) => Eq
  }

  function Then(first: Comparison, second: Comparison): Comparison {
    if first == Eq then second else first
  }

  function Flip(c: Comparison): Comparison {
    match c
    case Lt => Gt
    case Eq => Eq
    case Gt => Lt
  }

  /** CASE WHEN active THEN v END. */
  function Case<K>(active: bool, v: K): Option<K> {
    if active then Some(v) else None
  }

  /** key ASC: NULL sorts last by default. */
  function Asc(a: Option<int>, b: Option<int>): Comparison {
    match (a, b)
    case (None, None) => Eq
    case (None, Some(_)) => Gt
    case (Some(_), None) => Lt
    case (Some(x), Some(y)) => Compare(x, y)
  }

  /** key DESC: NULL sorts first by default. */
  function Desc(a: Option<int>, b: Option<int>): Comparison {
    Flip(Asc(a, b))
  }

  /** key ASC NULLS LAST over numeric. */
  function AscNullsLast(a: Option<Num>, b: Option<Num>): Comparison {
    match (a, b)
    case (None, None) => Eq
    case (None, Some(_)) => Gt
    case (Some(_), None) => Lt
    case (Some(x), Some(y)) => CompareNum(x, y)
  }

  /** COALESCE(round(avg(score), 1), 0). */
  function SortRating(r: Row): nat {
    OrElse(r.rating, 0)
  }

  function Order(sort: Sort, a: Row, b: Row): Comparison {
    var price, rating, latest := sort == PriceAsc, sort == RatingDesc, sort == Latest;
    Then(AscNullsLast(if price then a.price else None, if price then b.price else None),
    Then(Desc(Case(rating, SortRating(a)), Case(rating, SortRating(b))),
    Then(Desc(Case(rating, a.ratingCount), Case(rating, b.ratingCount)),
    Then(Desc(Case(latest, a.start), Case(latest, b.start)),
    Then(Asc(Case(!latest, a.start), Case(!latest, b.start)),
    Then(Desc(Case(latest, a.id), Case(latest, b.id)),
         Asc(Case(!latest, a.id), Case(!latest, b.id))))))))
  }

  function Less(sort: Sort): (Row, Row) -> bool {
    (a, b) => Order(sort, a, b) == Lt
  }

  // ---------------------------------------------------------------- cursors

  /** The decoded cursor. `price` tells an absent key (None) from a null one (Some(None)). */
  datatype Cursor = Cursor(
    start: Time, id: nat, sort: Option<Sort>,
    price: Option<Option<Num>>, rating: Option<nat>, ratingCount: Option<nat>)

  /** The JSON object behind the base64 text, with the same optional keys. */
  datatype Wire = Wire(
    afterStart: Time, afterId: nat, sort: Option<Sort>,
    price: Option<Option<Num>>, rating: Option<nat>, ratingCount: Option<nat>)

  /** What the service puts in the cursor of a page's last row. */
  function CursorOf(sort: Sort, r: Row): Cursor {
    Cursor(r.start, r.id,
           if sort == Soonest then None else Some(sort),
           if sort == PriceAsc then Some(r.price) else None,
           if sort == RatingDesc then Some(SortRating(r)) else None,
           if sort == RatingDesc then Some(r.ratingCount) else None)
  }

  function Encode(c: Cursor): Wire {
    Wire(c.start, c.id, c.sort,
         if c.sort == Some(PriceAsc) then Some(OrElse(c.price, None)) else None,
         if c.sort == Some(RatingDesc) then Some(OrElse(c.rating, 0)) else None,
         if c.sort == Some(RatingDesc) then Some(OrElse(c.ratingCount, 0)) else None)
  }

  /** The schema: a decimal price only, no explicit `soonest`, and exactly the keys of the sort. */
  predicate WellFormed(w: Wire) {
    && w.sort != Some(Soonest)
    && w.price != Some(Some(Infinite))
    && (if w.sort == Some(PriceAsc) then w.price.Some? && w.rating.None? && w.ratingCount.None?
        else if w.sort == Some(RatingDesc) then w.rating.Some? && w.ratingCount.Some? && w.price.None?
        else w.price.None? && w.rating.None? && w.ratingCount.None?)
  }

  /** None is the 400 answer to an invalid cursor. */
  function Decode(w: Wire): Option<Cursor> {
    if !WellFormed(w) then None
    else Some(Cursor(w.afterStart, w.afterId, w.sort,
                     if w.sort == Some(PriceAsc) then Some(OrElse(w.price, None)) else None,
                     if w.sort == Some(RatingDesc) then w.rating else None,
                     if w.sort == Some(RatingDesc) then w.ratingCount else None))
  }

  /** A row's cursor survives the codec exactly when a price sort does not have to carry Infinity. */
  lemma CodecRoundTrip(sort: Sort, r: Row)
    ensures Decode(Encode(CursorOf(sort, r))) == Some(CursorOf(sort, r))
       <==> !(sort == PriceAsc && r.price == Some(Infinite))
    ensures sort == PriceAsc && r.price == Some(Infinite) ==> Decode(Encode(CursorOf(sort, r))) == None
  {
  }

  /** The other way round: every accepted JSON object is what its own decoding encodes to. */
  lemma AcceptedIsCanonical(w: Wire)
    requires Decode(w).Some?
    ensures Encode(Decode(w).value) == w
  {
  }

  // ---------------------------------------------------------------- the cursor predicate

  /** COALESCE(price, 'Infinity'). */
  function PriceOrInfinity(price: Option<Num>): Num {
    OrElse(price, Infinite)
  }

  /** The cursor disjunction of the WHERE clause, each tuple comparison spelled as a chain. */
  predicate After(sort: Sort, c: Cursor, x: Row) {
    var tie := Then(Compare(x.start, c.start), Compare(x.id, c.id));
    match sort
    case Soonest => tie == Gt
    case Latest => tie == Lt
    case PriceAsc => Then(CompareNum(PriceOrInfinity(x.price), PriceOrInfinity(OrElse(c.price, None))), tie) == Gt
    case RatingDesc =>
      // A NULL parameter would make the tuple comparison NULL, which keeps no row.
      && c.rating.Some? && c.ratingCount.Some?
      && Then(Compare(0 - SortRating(x), 0 - c.rating.value),
         Then(Compare(0 - x.ratingCount, 0 - c.ratingCount.value), tie)) == Gt
  }

  /** One price is NULL and the other Infinity, so COALESCE cannot tell them apart. */
  predicate Conflated(a: Row, b: Row) {
    (a.price.None? && b.price == Some(Infinite)) || (b.price.None? && a.price == Some(Infinite))
  }

  predicate Earlier(a: Row, b: Row) {
    a.start < b.start || (a.start == b.start && a.id < b.id)
  }

  /**
   The predicate says "strictly after the last row" for every pair of rows, except a pair that
   a price sort conflates and whose tie-break disagrees with NULLS LAST.
   */
  lemma PredicateIsOrder(sort: Sort, r: Row, x: Row)
    ensures (After(sort, CursorOf(sort, r), x) <==> Less(sort)(r, x))
       <==> !(sort == PriceAsc && Conflated(r, x) && (Earlier(r, x) <==> r.price.None?))
  {
  }

  // ---------------------------------------------------------------- listing

  /** A candidate set: ids identify rows. */
  ghost predicate Candidates(s: set<Row>) {
    forall a, b | a in s && b in s && a.id == b.id :: a == b
  }

  function ListingOf(sort: Sort): Listing<Row, Wire> {
    Listing(Less(sort), r => Encode(CursorOf(sort, r)), (w, x) => Decode(w).Some? && After(sort, Decode(w).value, x))
  }

  /** Parsing the cursor parameter: invalid, or made for another sort, is refused. */
  predicate Accepted(sort: Sort, cursor: Option<Wire>) {
    cursor.Some? ==> Decode(cursor.value).Some? && OrElse(Decode(cursor.value).value.sort, Soonest) == sort
  }

  /** LEAST(GREATEST(n, 1), 500). */
  function ClampLimit(n: int): nat {
    if n < 1 then 1 else if n > 500 then 500 else n
  }

  /** GET /events: parse, query one row past the limit, and cut the page. */
  ghost function ListEvents(s: set<Row>, sort: Sort, cursor: Option<Wire>, limit: nat): Option<Page<Row, Wire>>
    requires Orders(Less(sort), s) && 1 <= limit <= 100
  {
    if !Accepted(sort, cursor) then None
    else
      Some(Cut(ListingOf(sort).enc, Query(ListingOf(sort), s, cursor, ClampLimit(limit + 1)), limit))
  }

  ghost function Server(s: set<Row>, sort: Sort, limit: nat): Option<Wire> -> Option<Page<Row, Wire>>
    requires Orders(Less(sort), s) && 1 <= limit <= 100
  {
    cursor => ListEvents(s, sort, cursor, limit)
  }

  lemma OrderIsTotal(sort: Sort, a: Row, b: Row)
    ensures Order(sort, a, a) == Eq
    ensures Order(sort, b, a) == Flip(Order(sort, a, b))
    ensures Order(sort, a, b) == Eq ==> a.id == b.id
  {
  }

  lemma OrderIsTransitive(sort: Sort, a: Row, b: Row, c: Row)
    requires Order(sort, a, b) == Lt && Order(sort, b, c) == Lt
    ensures Order(sort, a, c) == Lt
  {
    match sort
    case Soonest =>
    case Latest =>
    case PriceAsc =>
    case RatingDesc =>
  }

  lemma SortOrders(sort: Sort, s: set<Row>)
    requires Candidates(s)
    ensures Orders(Less(sort), s)
  {
    forall a, b
      ensures !Less(sort)(a, a)
      ensures a in s && b in s && a != b ==> Less(sort)(a, b) || Less(sort)(b, a)
    {
      OrderIsTotal(sort, a, b);
    }
    forall a, b, c | Less(sort)(a, b) && Less(sort)(b, c)
      ensures Less(sort)(a, c)
    {
      OrderIsTransitive(sort, a, b, c);
    }
  }

  /** As the last row of a page, `r` misleads: its cursor is refused, or lets earlier rows through again. */
  ghost predicate Misleads(sort: Sort, s: set<Row>, r: Row) {
    sort == PriceAsc &&
    (r.price == Some(Infinite)
     || (r.price.None? && exists x | x in s :: x.price == Some(Infinite) && Earlier(r, x)))
  }

  ghost function Leads(sort: Sort, s: set<Row>): Row -> bool {
    r => !Misleads(sort, s, r)
  }

  lemma AgreesUnlessMisleading(sort: Sort, s: set<Row>, r: Row)
    requires !Misleads(sort, s, r)
    ensures AgreesAt(ListingOf(sort), s, r)
    ensures Accepted(sort, Some(ListingOf(sort).enc(r)))
  {
    CodecRoundTrip(sort, r);
    forall x | x in s
      ensures After(sort, CursorOf(sort, r), x) <==> Less(sort)(r, x)
    {
      PredicateIsOrder(sort, r, x);
    }
  }

  /** After a row that does not mislead, the server continues where the row is in the order. */
  lemma ContinuesAfter(s: set<Row>, sort: Sort, limit: nat, xs: seq<Row>, q: nat, r: Row)
    requires Orders(Less(sort), s) && xs == OrderBy(Less(sort), s) && 1 <= limit <= 100
    requires 0 < q <= |xs| && r == xs[q - 1] && !Misleads(sort, s, r)
    ensures RightAfter(ListingOf(sort).enc, xs, limit, Server(s, sort, limit), q)
  {
    AgreesUnlessMisleading(sort, s, r);
    MatchingAfter(ListingOf(sort), s, q, r);
  }

  /** The infinite price that a missing one lets through again comes first in the answer. */
  lemma LetThrough(s: set<Row>, left: set<Row>, r: Row, y: Row)
    requires Orders(Less(PriceAsc), s) && left <= s && r in s && r.price.None? && y in left && y.price == Some(Infinite)
    ensures Orders(Less(PriceAsc), left) && OrderBy(Less(PriceAsc), left) != []
    ensures OrderBy(Less(PriceAsc), left)[0] in s && Less(PriceAsc)(OrderBy(Less(PriceAsc), left)[0], r)
  {
    FirstIsLeast(Less(PriceAsc), left, OrderBy(Less(PriceAsc), left));
    var x := OrderBy(Less(PriceAsc), left)[0];
    assert x == y || Less(PriceAsc)(x, y);
  }

  lemma SmallerComesBefore(less: (Row, Row) -> bool, s: set<Row>, xs: seq<Row>, x: Row, k: nat)
    requires Orders(less, s) && Enumerates(less, s, xs) && k < |xs| && x in s && less(x, xs[k])
    ensures x in xs[..k + 1]
  {
    var i :| 0 <= i < |xs| && xs[i] == x;
    assert xs[k] in s && !less(x, x) && !less(xs[k], x);
    assert xs[..k + 1][i] == x;
  }

  lemma AnswerStartsWith(s: set<Row>, sort: Sort, limit: nat, cursor: Option<Wire>)
    requires Orders(Less(sort), s) && 1 <= limit <= 100 && Accepted(sort, cursor)
    requires OrderBy(Less(sort), Matching(ListingOf(sort), s, cursor)) != []
    ensures var answer := Server(s, sort, limit)(cursor);
            && answer.Some? && answer.value.items != []
            && answer.value.items[0] == OrderBy(Less(sort), Matching(ListingOf(sort), s, cursor))[0]
  {
  }

  /** The request after a missing price, when a later infinite one exists. */
  lemma MisledByNull(s: set<Row>, limit: nat, xs: seq<Row>, q: nat, y: Row)
    requires Orders(Less(PriceAsc), s) && 1 <= limit <= 100 && Enumerates(Less(PriceAsc), s, xs) && 0 < q <= |xs|
    requires xs[q - 1].price.None? && y in s && y.price == Some(Infinite) && Earlier(xs[q - 1], y)
    ensures Misled(ListingOf(PriceAsc).enc, xs, Server(s, PriceAsc, limit), q)
  {
    var r := xs[q - 1];
    var cursor := Some(ListingOf(PriceAsc).enc(r));
    var left := Matching(ListingOf(PriceAsc), s, cursor);
    assert r in s;
    CodecRoundTrip(PriceAsc, r);
    assert y in left;
    LetThrough(s, left, r, y);
    SmallerComesBefore(Less(PriceAsc), s, xs, OrderBy(Less(PriceAsc), left)[0], q - 1);
    AnswerStartsWith(s, PriceAsc, limit, cursor);
  }

  /** What a misleading last row does to the next request. */
  lemma MisledRequest(s: set<Row>, sort: Sort, limit: nat, xs: seq<Row>, q: nat)
    requires Orders(Less(sort), s) && 1 <= limit <= 100 && Enumerates(Less(sort), s, xs) && 0 < q <= |xs|
    requires Misleads(sort, s, xs[q - 1])
    ensures Misled(ListingOf(sort).enc, xs, Server(s, sort, limit), q)
  {
    var r := xs[q - 1];
    CodecRoundTrip(sort, r);
    if r.price.None? {
      var y :| y in s && y.price == Some(Infinite) && Earlier(r, y);
      MisledByNull(s, limit, xs, q, y);
    }
  }

  lemma StartsRight(s: set<Row>, sort: Sort, limit: nat)
    requires Orders(Less(sort), s) && 1 <= limit <= 100
    ensures RightAt(ListingOf(sort).enc, OrderBy(Less(sort), s), limit, Server(s, sort, limit), None, 0)
  {
    assert OrderBy(Less(sort), s)[0..] == OrderBy(Less(sort), s);
  }

  /**
   For every candidate set, sort and page size: following next_cursor from the start visits every
   row exactly once in ORDER BY order and ends with a null cursor, if and only if no page ends with
   a row that misleads.
   */
  lemma DiscoveryTheorem(s: set<Row>, sort: Sort, limit: nat)
    requires Candidates(s) && 1 <= limit <= 100
    ensures Orders(Less(sort), s)
    ensures var (items, ended) := Follow(Server(s, sort, limit), None, |s| + 1);
            (ended && Enumerates(Less(sort), s, items)) <==>
              forall r | r in Boundaries(OrderBy(Less(sort), s), limit) :: !Misleads(sort, s, r)
  {
    SortOrders(sort, s);
    var xs := OrderBy(Less(sort), s);
    EnumerationSize(Less(sort), s, xs);
    StartsRight(s, sort, limit);
    forall q: nat
      ensures Judges(ListingOf(sort).enc, xs, limit, Server(s, sort, limit), Leads(sort, s), q)
    {
      if 0 < q <= |xs| {
        if Misleads(sort, s, xs[q - 1]) {
          MisledRequest(s, sort, limit, xs, q);
        } else {
          ContinuesAfter(s, sort, limit, xs, q, xs[q - 1]);
        }
      }
    }
    FollowIff(Less(sort), s, ListingOf(sort).enc, xs, limit, Server(s, sort, limit), Leads(sort, s));
    assert forall r :: Leads(sort, s)(r) == !Misleads(sort, s, r);
  }

  /** Without infinite prices no row misleads, and no sort but the price sort is ever misled. */
  lemma FinitePricesSuffice(s: set<Row>, sort: Sort, limit: nat)
    requires Candidates(s) && 1 <= limit <= 100
    requires sort == PriceAsc ==> forall r | r in s :: r.price != Some(Infinite)
    ensures Orders(Less(sort), s)
    ensures var (items, ended) := Follow(Server(s, sort, limit), None, |s| + 1);
            ended && Enumerates(Less(sort), s, items) && |items| == |s|
  {
    DiscoveryTheorem(s, sort, limit);
    var xs := OrderBy(Less(sort), s);
    forall r | r in Boundaries(xs, limit)
      ensures !Misleads(sort, s, r)
    {
      BoundariesAmong(xs, limit, r);
      assert r in s;
    }
    EnumerationSize(Less(sort), s, Follow(Server(s, sort, limit), None, |s| + 1).0);
  }

  lemma ThreeRows(less: (Row, Row) -> bool, a: Row, b: Row, c: Row)
    requires less(a, b) && less(a, c) && less(b, c) && !less(b, a) && !less(c, a) && !less(c, b)
    requires !less(a, a) && !less(b, b) && !less(c, c)
    ensures Orders(less, {a, b, c}) && OrderBy(less, {a, b, c}) == [a, b, c]
  {
    assert Enumerates(less, {a, b, c}, [a, b, c]);
    OneEnumeration(less, {a, b, c}, OrderBy(less, {a, b, c}), [a, b, c]);
  }

  /** An infinite price and two missing ones; the infinite one is the latest. */
  const INFINITE := Row(1, 5, Some(Infinite), None, 0)
  const MISSING := Row(2, 0, None, None, 0)
  const LAST := Row(3, 1, None, None, 0)

  ghost function Table(): set<Row> {
    {INFINITE, MISSING, LAST}
  }

  lemma TableLess()
    ensures var less := Less(PriceAsc);
            less(INFINITE, MISSING) && less(INFINITE, LAST) && less(MISSING, LAST) &&
            !less(MISSING, INFINITE) && !less(LAST, INFINITE) && !less(LAST, MISSING)
    ensures var less := Less(PriceAsc);
            !less(INFINITE, INFINITE) && !less(MISSING, MISSING) && !less(LAST, LAST)
  {
  }

  lemma TableOrder()
    ensures Candidates(Table()) && Orders(Less(PriceAsc), Table())
    ensures OrderBy(Less(PriceAsc), Table()) == [INFINITE, MISSING, LAST]
  {
    var less := Less(PriceAsc);
    assert Candidates(Table()) && Table() == {INFINITE, MISSING, LAST};
    TableLess();
    ThreeRows(less, INFINITE, MISSING, LAST);
  }

  lemma TableMisleads()
    ensures Misleads(PriceAsc, Table(), INFINITE) && Misleads(PriceAsc, Table(), MISSING)
  {
    assert Earlier(MISSING, INFINITE) && INFINITE in Table();
  }

  lemma TableBoundaries()
    ensures INFINITE in Boundaries([INFINITE, MISSING, LAST], 1) && MISSING in Boundaries([INFINITE, MISSING, LAST], 2)
  {
    assert Boundaries([INFINITE, MISSING, LAST], 1)[0] == INFINITE;
    assert Boundaries([INFINITE, MISSING, LAST], 2)[0] == MISSING;
  }

  lemma NotEnumerated(s: set<Row>, sort: Sort, limit: nat, r: Row)
    requires Candidates(s) && 1 <= limit <= 100 && Orders(Less(sort), s)
    requires r in Boundaries(OrderBy(Less(sort), s), limit) && Misleads(sort, s, r)
    ensures var (items, ended) := Follow(Server(s, sort, limit), None, |s| + 1);
            !(ended && Enumerates(Less(sort), s, items))
  {
    DiscoveryTheorem(s, sort, limit);
  }

  /** The first page ends with the row at position `limit`, and carries its cursor. */
  lemma FirstPage(s: set<Row>, sort: Sort, limit: nat, xs: seq<Row>)
    requires Orders(Less(sort), s) && OrderBy(Less(sort), s) == xs && 1 <= limit <= 100 && limit < |xs|
    ensures Server(s, sort, limit)(None) == Some(Page(xs[..limit], Some(ListingOf(sort).enc(xs[limit - 1]))))
  {
    StartsRight(s, sort, limit);
    CutPage(ListingOf(sort).enc, xs, limit, 0);
    assert xs[0..limit] == xs[..limit];
  }

  /** The page after a row that misleads, when its cursor is accepted, starts with a row served before. */
  lemma NextPage(s: set<Row>, sort: Sort, limit: nat, xs: seq<Row>, q: nat, r: Row)
    requires Orders(Less(sort), s) && Enumerates(Less(sort), s, xs) && 1 <= limit <= 100
    requires 0 < q <= |xs| && r == xs[q - 1] && Misleads(sort, s, r) && r.price.None?
    ensures var answer := Server(s, sort, limit)(Some(ListingOf(sort).enc(r)));
            answer.Some? && answer.value.items != [] && answer.value.items[0] in xs[..q]
  {
    MisledRequest(s, sort, limit, xs, q);
    CodecRoundTrip(sort, r);
  }

  /** A row with an infinite price has its cursor refused. */
  lemma InfiniteIsRefused(s: set<Row>, limit: nat, r: Row)
    requires Orders(Less(PriceAsc), s) && 1 <= limit <= 100 && r.price == Some(Infinite)
    ensures Server(s, PriceAsc, limit)(Some(ListingOf(PriceAsc).enc(r))) == None
  {
    CodecRoundTrip(PriceAsc, r);
  }

  /** Pages of one row end with the infinite price, whose cursor is refused: paging breaks off. */
  lemma RefusedCursor()
    ensures Orders(Less(PriceAsc), Table())
    ensures Server(Table(), PriceAsc, 1)(None) == Some(Page([INFINITE], Some(ListingOf(PriceAsc).enc(INFINITE))))
    ensures Server(Table(), PriceAsc, 1)(Some(ListingOf(PriceAsc).enc(INFINITE))) == None
    ensures var (items, ended) := Follow(Server(Table(), PriceAsc, 1), None, |Table()| + 1);
            !(ended && Enumerates(Less(PriceAsc), Table(), items))
  {
    var s, xs := Table(), [INFINITE, MISSING, LAST];
    TableOrder();
    assert xs[..1] == [INFINITE];
    FirstPage(s, PriceAsc, 1, xs);
    InfiniteIsRefused(s, 1, INFINITE);
    TableMisleads();
    TableBoundaries();
    NotEnumerated(s, PriceAsc, 1, INFINITE);
  }

  /**
   Pages of two rows end with a missing price, whose cursor is accepted and lets the infinite one
   through once more: the second page starts with a row of the first.
   */
  lemma RowServedTwice()
    ensures Orders(Less(PriceAsc), Table())
    ensures Server(Table(), PriceAsc, 2)(None)
         == Some(Page([INFINITE, MISSING], Some(ListingOf(PriceAsc).enc(MISSING))))
    ensures var second := Server(Table(), PriceAsc, 2)(Some(ListingOf(PriceAsc).enc(MISSING)));
            second.Some? && second.value.items != [] && second.value.items[0] in [INFINITE, MISSING]
    ensures var (items, ended) := Follow(Server(Table(), PriceAsc, 2), None, |Table()| + 1);
            !(ended && Enumerates(Less(PriceAsc), Table(), items))
  {
    var s, xs := Table(), [INFINITE, MISSING, LAST];
    TableOrder();
    assert xs[..2] == [INFINITE, MISSING];
    FirstPage(s, PriceAsc, 2, xs);
    TableMisleads();
    NextPage(s, PriceAsc, 2, xs, 2, MISSING);
    PairsFail();
  }

  lemma PairsFail()
    ensures Orders(Less(PriceAsc), Table())
    ensures var (items, ended) := Follow(Server(Table(), PriceAsc, 2), None, |Table()| + 1);
            !(ended && Enumerates(Less(PriceAsc), Table(), items))
  {
    TableOrder();
    TableMisleads();
    TableBoundaries();
    NotEnumerated(Table(), PriceAsc, 2, MISSING);
  }
}
