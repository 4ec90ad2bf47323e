/** The order of the discovery listing in the rows' own fields, as the client sees it. */
module DiscoveryOrder {
  import opened Common
  import opened Keyset
  import opened Discovery

  /** Rated higher, an unrated event counting as zero. */
  predicate RatedHigher(a: Row, b: Row) {
    match (a.rating, b.rating)
    case (Some(x), Some(y)) => x > y
    case (Some(x), None) => x > 0
    case (None, _) => false
  }

  predicate RatedAlike(a: Row, b: Row) {
    !RatedHigher(a, b) && !RatedHigher(b, a)
  }

  /** Cheaper: an infinite price after every finite one, an unknown price after both. */
  predicate Cheaper(a: Row, b: Row) {
    match (a.price, b.price)
    case (None, _) => false
    case (Some(_), None) => true
    case (Some(Infinite), Some(_)) => false
    case (Some(Finite(_)), Some(Infinite)) => true
    case (Some(Finite(x)), Some(Finite(y))) => x < y
  }

  predicate Sooner(a: Row, b: Row) {
    a.start < b.start || (a.start == b.start && a.id < b.id)
  }

  /** What it means that `a` is listed before `b`. */
  predicate ListedBefore(sort: Sort, a: Row, b: Row) {
    match sort
    case Soonest => Sooner(a, b)
    case Latest => Sooner(b, a)
    case PriceAsc => Cheaper(a, b) || (a.price == b.price && Sooner(a, b))
    case RatingDesc =>
      || RatedHigher(a, b)
      || (RatedAlike(a, b) && a.ratingCount > b.ratingCount)
      || (RatedAlike(a, b) && a.ratingCount == b.ratingCount && Sooner(a, b))
  }

  lemma LessIsListedBefore(sort: Sort, a: Row, b: Row)
    ensures Less(sort)(a, b) <==> ListedBefore(sort, a, b)
  {
    match sort
    case Soonest =>
    case Latest =>
    case PriceAsc =>
    case RatingDesc =>
  }

  /** Of two rows of the enumeration the earlier one comes before the later one in the sort's own fields. */
  lemma OrderTheorem(s: set<Row>, sort: Sort, i: nat, j: nat)
    requires Candidates(s)
    ensures Orders(Less(sort), s)
    ensures i < j < |OrderBy(Less(sort), s)| ==>
              ListedBefore(sort, OrderBy(Less(sort), s)[i], OrderBy(Less(sort), s)[j])
  {
    SortOrders(sort, s);
    if i < j < |OrderBy(Less(sort), s)| {
      LessIsListedBefore(sort, OrderBy(Less(sort), s)[i], OrderBy(Less(sort), s)[j]);
    }
  }

  /** What a client collects lists every row of the set, in the order of the sort's own fields. */
  ghost predicate Lists(s: set<Row>, sort: Sort, items: seq<Row>) {
    && (forall x :: x in items <==> x in s)
    && (forall i, j | 0 <= i < j < |items| :: ListedBefore(sort, items[i], items[j]))
  }

  lemma ListsIsEnumerates(s: set<Row>, sort: Sort, items: seq<Row>)
    ensures Lists(s, sort, items) <==> Enumerates(Less(sort), s, items)
  {
    forall i, j | 0 <= i < j < |items|
      ensures ListedBefore(sort, items[i], items[j]) <==> Less(sort)(items[i], items[j])
    {
      LessIsListedBefore(sort, items[i], items[j]);
    }
  }

  /**
   What the client collects by following next_cursor, in the rows' fields: all matching events in the
   sort's order and an end, exactly when no page ends with a row that misleads.
   */
  lemma ListingTheorem(s: set<Row>, sort: Sort, limit: nat)
    requires Candidates(s) && 1 <= limit <= 100
    ensures Orders(Less(sort), s)
    ensures var (items, ended) := Follow(Server(s, sort, limit), None, |s| + 1);
            (ended && Lists(s, sort, items)) <==>
              forall r | r in Boundaries(OrderBy(Less(sort), s), limit) :: !Misleads(sort, s, r)
  {
    DiscoveryTheorem(s, sort, limit);
    ListsIsEnumerates(s, sort, Follow(Server(s, sort, limit), None, |s| + 1).0);
  }

  // ---------------------------------------------------------------- one request

  /** The cursor carries the sort asked for, `soonest` by its absence, and the keys of that sort alone. */
  predicate FitsSort(sort: Sort, w: Wire) {
    match sort
    case Soonest => w.sort == None && w.price == None && w.rating == None && w.ratingCount == None
    case Latest => w.sort == Some(Latest) && w.price == None && w.rating == None && w.ratingCount == None
    case PriceAsc =>
      && w.sort == Some(PriceAsc) && w.price != None && w.price != Some(Some(Infinite))
      && w.rating == None && w.ratingCount == None
    case RatingDesc => w.sort == Some(RatingDesc) && w.rating != None && w.ratingCount != None && w.price == None
  }

  /** A request is refused exactly for a cursor of another sort, or with the wrong keys, or with an infinite price. */
  lemma RefusesExactly(s: set<Row>, sort: Sort, limit: nat, cursor: Option<Wire>)
    requires Orders(Less(sort), s) && 1 <= limit <= 100
    ensures Server(s, sort, limit)(cursor) == None <==> cursor.Some? && !FitsSort(sort, cursor.value)
  {
  }

  /** A page holds at most the rows asked for, and only a full page carries a cursor: that of its last row. */
  lemma PageIsCut(s: set<Row>, sort: Sort, limit: nat, cursor: Option<Wire>)
    requires Orders(Less(sort), s) && 1 <= limit <= 100 && Server(s, sort, limit)(cursor).Some?
    ensures var page := Server(s, sort, limit)(cursor).value;
            && |page.items| <= limit
            && (forall x | x in page.items :: x in s)
            && (page.next.Some? ==> |page.items| == limit
                                    && page.next.value == Encode(CursorOf(sort, page.items[limit - 1])))
  {
    var rows := OrderBy(Less(sort), Matching(ListingOf(sort), s, cursor));
    var page := Server(s, sort, limit)(cursor).value;
    forall x | x in page.items
      ensures x in s
    {
      assert x in rows;
    }
  }
}
