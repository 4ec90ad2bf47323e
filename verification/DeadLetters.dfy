/**
 The dead-letter listing: newest finished first, rows that never finished last, and a
 cursor predicate assembled in three cases and evaluated in SQL's three-valued logic.
 */
module DeadLetters {
  import opened Common
  import opened Keyset

  datatype Letter = Letter(id: int, finishedAt: Option<Time>)
  datatype Cursor = Cursor(finishedAt: Option<Time>, id: int)

  const MAX_BIGINT: int := 9_223_372_036_854_775_807

  // ---------------------------------------------------------------- SQL truth values

  /** NULL is None. */
  type Truth = Option<bool>

  function Or(a: Truth, b: Truth): Truth {
    if a == Some(true) || b == Some(true) then Some(true)
    else if a.None? || b.None? then None
    else Some(false)
  }

  function And(a: Truth, b: Truth): Truth {
    if a == Some(false) || b == Some(false) then Some(false)
    else if a.None? || b.None? then None
    else Some(true)
  }

  function Below(a: Option<int>, b: int): Truth {
    match a
    case None => None
    case Some(x) => Some(x < b)
  }

  function Equal(a: Option<int>, b: int): Truth {
    match a
    case None => None
    case Some(x) => Some(x == b)
  }

  // ---------------------------------------------------------------- order and predicate

  /** ORDER BY finished_at DESC NULLS LAST, id DESC. */
  predicate Less(a: Letter, b: Letter) {
    match (a.finishedAt, b.finishedAt)
    case (None, None) => a.id > b.id
    case (None, Some(_)) => false
    case (Some(_), None) => true
    case (Some(x), Some(y)) => x > y || (x == y && a.id > b.id)
  }

  /** The WHERE fragment for a cursor; WHERE keeps a row when the condition is true, not when it is NULL. */
  predicate After(c: Cursor, x: Letter) {
    match c.finishedAt
    case None => And(Some(x.finishedAt.None?), Some(x.id < c.id)) == Some(true)
    case Some(t) =>
      Or(Or(Below(x.finishedAt, t), Some(x.finishedAt.None?)),
         And(Equal(x.finishedAt, t), Some(x.id < c.id))) == Some(true)
  }

  function CursorOf(r: Letter): Cursor {
    Cursor(r.finishedAt, r.id)
  }

  /** The cursor schema wants a positive bigint id. */
  predicate Accepted(cursor: Option<Cursor>) {
    cursor.Some? ==> 1 <= cursor.value.id <= MAX_BIGINT
  }

  function ListingOf(): Listing<Letter, Cursor> {
    Listing((a, b) => Less(a, b), r => CursorOf(r), (c, x) => After(c, x))
  }

  /** The queue's identity column: positive bigint keys. */
  ghost predicate Queue(s: set<Letter>) {
    && (forall a, b | a in s && b in s && a.id == b.id :: a == b)
    && (forall a | a in s :: 1 <= a.id <= MAX_BIGINT)
  }

  /** The service's list: one probe row, slice(0, limit), cursor of the last item. */
  ghost function List(s: set<Letter>, cursor: Option<Cursor>, limit: nat): Option<Page<Letter, Cursor>>
    requires Orders(ListingOf().less, s) && 1 <= limit <= 50
  {
    if !Accepted(cursor) then None
    else Some(Cut(ListingOf().enc, Query(ListingOf(), s, cursor, limit + 1), limit))
  }

  ghost function Server(s: set<Letter>, limit: nat): Option<Cursor> -> Option<Page<Letter, Cursor>>
    requires Orders(ListingOf().less, s) && 1 <= limit <= 50
  {
    cursor => List(s, cursor, limit)
  }

  /** The three predicate cases, NULLs included, are exactly "strictly after the last row". */
  lemma PredicateIsOrder(r: Letter, x: Letter)
    ensures After(CursorOf(r), x) <==> Less(r, x)
  {
  }

  /**
   `a` did not finish before `b`, an unfinished letter counting as the oldest; of two at once it has the
   greater id.
   */
  predicate FinishedLater(a: Letter, b: Letter) {
    && (b.finishedAt.Some? ==> a.finishedAt.Some? && a.finishedAt.value >= b.finishedAt.value)
    && (a.finishedAt == b.finishedAt ==> a.id > b.id)
  }

  /** Following nextCursor visits every dead letter once, newest first, unfinished last, and ends with null. */
  lemma DeadLetterTheorem(s: set<Letter>, limit: nat)
    requires Queue(s) && 1 <= limit <= 50
    ensures Orders(ListingOf().less, s)
    ensures var (items, ended) := Follow(Server(s, limit), None, |s| + 1);
            && ended && Enumerates(ListingOf().less, s, items) && |items| == |s|
            && forall i, j | 0 <= i < j < |items| :: FinishedLater(items[i], items[j])
  {
    forall r, x
      ensures After(CursorOf(r), x) <==> Less(r, x)
    {
      PredicateIsOrder(r, x);
    }
    assert Agrees(ListingOf(), s);
    FollowTheorem(ListingOf(), s, limit, Server(s, limit));
  }

  /** A request is refused exactly for a cursor whose id is no positive bigint. */
  lemma RefusesExactly(s: set<Letter>, limit: nat, cursor: Option<Cursor>)
    requires Orders(ListingOf().less, s) && 1 <= limit <= 50
    ensures Server(s, limit)(cursor) == None <==>
              cursor.Some? && (cursor.value.id < 1 || cursor.value.id > 9_223_372_036_854_775_807)
  {
  }
}
