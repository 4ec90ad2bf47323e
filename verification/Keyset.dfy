/**
 Keyset pagination in general: a query ordered by a strict order, a cursor that
 encodes a row, a predicate that compares a cursor with a row, and a probe row.
 */
module Keyset {
  import opened Common

  ghost predicate Orders<T(!new)>(less: (T, T) -> bool, s: set<T>) {
    && (forall x | x in s :: !less(x, x))
    && (forall x, y | x in s && y in s && x != y :: less(x, y) || less(y, x))
    && (forall x, y, z | x in s && y in s && z in s && less(x, y) && less(y, z) :: less(x, z))
  }

  ghost predicate Sorted<T(!new)>(less: (T, T) -> bool, xs: seq<T>) {
    forall i, j | 0 <= i < j < |xs| :: less(xs[i], xs[j])
  }

  /** `xs` lists exactly the elements of `s`, in order. */
  ghost predicate Enumerates<T(!new)>(less: (T, T) -> bool, s: set<T>, xs: seq<T>) {
    Sorted(less, xs) && forall x :: x in xs <==> x in s
  }

  ghost predicate IsLeast<T(!new)>(less: (T, T) -> bool, s: set<T>, m: T) {
    m in s && forall x | x in s && x != m :: less(m, x)
  }

  lemma {:induction false} LeastExists<T(!new)>(less: (T, T) -> bool, s: set<T>)
    requires Orders(less, s) && s != {}
    ensures exists m :: IsLeast(less, s, m)
    decreases |s|
  {
    var y :| y in s;
    var rest := s - {y};
    if rest == {} {
      assert s == {y};
      assert IsLeast(less, s, y);
    } else {
      LeastExists(less, rest);
      var m :| IsLeast(less, rest, m);
      assert IsLeast(less, s, if less(y, m) then y else m);
    }
  }

  /** SELECT ... ORDER BY. */
  ghost function OrderBy<T(!new)>(less: (T, T) -> bool, s: set<T>): (xs: seq<T>)
    requires Orders(less, s)
    ensures Enumerates(less, s, xs)
    decreases |s|
  {
    if s == {} then [] else
      LeastExists(less, s);
      var m :| IsLeast(less, s, m);
      var rest := OrderBy(less, s - {m});
      assert forall i | 0 <= i < |rest| :: rest[i] in s - {m};
      [m] + rest
  }

  /** An order has one enumeration. */
  lemma {:induction false} OneEnumeration<T(!new)>(less: (T, T) -> bool, s: set<T>, xs: seq<T>, ys: seq<T>)
    requires Orders(less, s) && Enumerates(less, s, xs) && Enumerates(less, s, ys)
    ensures xs == ys
    decreases |xs|
  {
    if s == {} {
      NoneListed(less, s, xs);
      NoneListed(less, s, ys);
    } else {
      FirstIsLeast(less, s, xs);
      FirstIsLeast(less, s, ys);
      RestEnumerates(less, s, xs);
      RestEnumerates(less, s, ys);
      OneEnumeration(less, s - {xs[0]}, xs[1..], ys[1..]);
      assert xs == [xs[0]] + xs[1..] && ys == [xs[0]] + ys[1..];
    }
  }

  lemma NoneListed<T(!new)>(less: (T, T) -> bool, s: set<T>, xs: seq<T>)
    requires Enumerates(less, s, xs)
    ensures s == {} <==> xs == []
  {
    assert xs != [] ==> xs[0] in s;
    assert forall x | x in s :: x in xs;
  }

  lemma FirstIsLeast<T(!new)>(less: (T, T) -> bool, s: set<T>, xs: seq<T>)
    requires Orders(less, s) && Enumerates(less, s, xs) && s != {}
    ensures xs != [] && IsLeast(less, s, xs[0])
    ensures forall m :: IsLeast(less, s, m) ==> m == xs[0]
  {
    NoneListed(less, s, xs);
    assert xs[0] in s;
    forall x | x in s && x != xs[0]
      ensures less(xs[0], x)
    {
      var i :| 0 <= i < |xs| && xs[i] == x;
    }
    forall m | IsLeast(less, s, m)
      ensures m == xs[0]
    {
      assert m in s && !less(m, m);
      assert less(m, xs[0]) && less(xs[0], m) ==> less(m, m);
    }
  }

  lemma RestEnumerates<T(!new)>(less: (T, T) -> bool, s: set<T>, xs: seq<T>)
    requires Orders(less, s) && Enumerates(less, s, xs) && xs != []
    ensures Enumerates(less, s - {xs[0]}, xs[1..])
  {
    forall x
      ensures x in xs[1..] <==> x in s - {xs[0]}
    {
      if x in xs[1..] {
        var i :| 0 <= i < |xs| - 1 && xs[1..][i] == x;
        assert xs[i + 1] == x && less(xs[0], x) && x in xs && x in s;
        assert xs[0] in s;
      }
      if x in s - {xs[0]} {
        var i :| 0 <= i < |xs| && xs[i] == x;
        assert xs[1..][i - 1] == x;
      }
    }
  }

  ghost function Later<T(!new)>(less: (T, T) -> bool, s: set<T>, r: T): set<T> {
    set x | x in s && less(r, x)
  }

  lemma LaterEnumerated<T(!new)>(less: (T, T) -> bool, s: set<T>, xs: seq<T>, k: nat)
    requires Orders(less, s) && Enumerates(less, s, xs) && k < |xs|
    ensures Enumerates(less, Later(less, s, xs[k]), xs[k + 1..])
  {
    var rest := Later(less, s, xs[k]);
    forall x
      ensures x in xs[k + 1..] <==> x in rest
    {
      if x in xs[k + 1..] {
        var i :| 0 <= i < |xs| - k - 1 && xs[k + 1..][i] == x;
        assert xs[k + 1 + i] == x && x in xs;
      }
      if x in rest {
        var i :| 0 <= i < |xs| && xs[i] == x;
        assert xs[k] in s && !less(x, x);
        assert less(x, xs[k]) ==> less(x, x);
        assert xs[k + 1..][i - k - 1] == x;
      }
    }
  }

  /** The rows strictly after the k-th are the rest of the enumeration. */
  lemma SuffixAfter<T(!new)>(less: (T, T) -> bool, s: set<T>, k: nat)
    requires Orders(less, s) && k < |OrderBy(less, s)|
    ensures Orders(less, Later(less, s, OrderBy(less, s)[k]))
    ensures OrderBy(less, Later(less, s, OrderBy(less, s)[k])) == OrderBy(less, s)[k + 1..]
  {
    var xs := OrderBy(less, s);
    var rest := Later(less, s, xs[k]);
    LaterEnumerated(less, s, xs, k);
    OneEnumeration(less, rest, OrderBy(less, rest), xs[k + 1..]);
  }

  // ---------------------------------------------------------------- pages

  /** The ordering code, the cursor codec and the predicate code of one listing. */
  datatype Listing<!T, !C> = Listing(less: (T, T) -> bool, enc: T -> C, after: (C, T) -> bool)

  /** The predicate compares a cursor with a row as the order compares the cursor's row with it. */
  ghost predicate Agrees<T(!new), C(!new)>(l: Listing<T, C>, s: set<T>) {
    Orders(l.less, s) && forall r, x | r in s && x in s :: l.after(l.enc(r), x) <==> l.less(r, x)
  }

  datatype Page<T, C> = Page(items: seq<T>, next: Option<C>)

  ghost function Matching<T(!new), C>(l: Listing<T, C>, s: set<T>, cursor: Option<C>): set<T> {
    match cursor
    case None => s
    case Some(c) => set x | x in s && l.after(c, x)
  }

  ghost function Take<T>(xs: seq<T>, n: nat): seq<T> {
    if n <= |xs| then xs[..n] else xs
  }

  /** WHERE after the cursor ORDER BY LIMIT n. */
  ghost function Query<T(!new), C>(l: Listing<T, C>, s: set<T>, cursor: Option<C>, n: nat): seq<T>
    requires Orders(l.less, s)
  {
    Take(OrderBy(l.less, Matching(l, s, cursor)), n)
  }

  /** Cut the page off the probed rows, and encode its last row if the probe found one more. */
  ghost function Cut<T, C>(enc: T -> C, rows: seq<T>, limit: nat): Page<T, C>
    requires limit > 0
  {
    if |rows| > limit then Page(rows[..limit], Some(enc(rows[limit - 1]))) else Page(rows, None)
  }

  /** One request: query one row past the limit. */
  ghost function PageOf<T(!new), C>(l: Listing<T, C>, s: set<T>, cursor: Option<C>, limit: nat): Page<T, C>
    requires Orders(l.less, s) && limit > 0
  {
    Cut(l.enc, Query(l, s, cursor, limit + 1), limit)
  }

  /** `cursor` asks for position `p` of the enumeration `xs`: none for the start, else the row before it encoded. */
  ghost predicate CursorAt<T, C>(enc: T -> C, xs: seq<T>, cursor: Option<C>, p: nat) {
    p <= |xs| && if p == 0 then cursor == None else cursor == Some(enc(xs[p - 1]))
  }

  /** For the cursor of one row, the predicate is the order. */
  ghost predicate AgreesAt<T(!new), C(!new)>(l: Listing<T, C>, s: set<T>, r: T) {
    forall x | x in s :: l.after(l.enc(r), x) <==> l.less(r, x)
  }

  lemma MatchingIsLater<T(!new), C(!new)>(l: Listing<T, C>, s: set<T>, r: T)
    requires AgreesAt(l, s, r)
    ensures Matching(l, s, Some(l.enc(r))) == Later(l.less, s, r)
  {
  }

  lemma MatchingAfter<T(!new), C(!new)>(l: Listing<T, C>, s: set<T>, q: nat, r: T)
    requires Orders(l.less, s) && 0 < q <= |OrderBy(l.less, s)| && r == OrderBy(l.less, s)[q - 1] && AgreesAt(l, s, r)
    ensures Orders(l.less, Matching(l, s, Some(l.enc(r))))
    ensures OrderBy(l.less, Matching(l, s, Some(l.enc(r)))) == OrderBy(l.less, s)[q..]
  {
    var k := q - 1;
    MatchingIsLater(l, s, r);
    SuffixAfter(l.less, s, k);
    assert k + 1 == q;
  }

  lemma MatchingAt<T(!new), C(!new)>(l: Listing<T, C>, s: set<T>, cursor: Option<C>, p: nat)
    requires Agrees(l, s) && CursorAt(l.enc, OrderBy(l.less, s), cursor, p)
    ensures Orders(l.less, Matching(l, s, cursor))
    ensures OrderBy(l.less, Matching(l, s, cursor)) == OrderBy(l.less, s)[p..]
  {
    if p > 0 {
      assert OrderBy(l.less, s)[p - 1] in s;
      MatchingAfter(l, s, p, OrderBy(l.less, s)[p - 1]);
    }
  }

  // ---------------------------------------------------------------- following cursors

  /**
   The items a client collects by following cursors, `fuel` requests at most, and whether it saw
   a null cursor. A request can be refused (None), and then the client never sees one.
   */
  ghost function Follow<T, C>(serve: Option<C> -> Option<Page<T, C>>, cursor: Option<C>, fuel: nat): (seq<T>, bool)
    decreases fuel
  {
    if fuel == 0 || serve(cursor).None? then ([], false)
    else
      var page := serve(cursor).value;
      if page.next.None? then (page.items, true)
      else
        var rest := Follow(serve, page.next, fuel - 1);
        (page.items + rest.0, rest.1)
  }

  /** The answer at position `p` is a nonempty slice with a cursor to what follows it, or all that is left. */
  ghost predicate Continues<T, C>(enc: T -> C, xs: seq<T>, p: nat, page: Page<T, C>)
    requires p <= |xs|
  {
    match page.next
    case None => page.items == xs[p..]
    case Some(_) =>
      var q := p + |page.items|;
      p < q < |xs| && page.items == xs[p..q] && CursorAt(enc, xs, page.next, q)
  }

  ghost predicate ServesAt<T, C>(enc: T -> C, xs: seq<T>, serve: Option<C> -> Option<Page<T, C>>, cursor: Option<C>,
                                 p: nat) {
    CursorAt(enc, xs, cursor, p) ==> serve(cursor).Some? && Continues(enc, xs, p, serve(cursor).value)
  }

  ghost predicate Serves<T, C(!new)>(enc: T -> C, xs: seq<T>, serve: Option<C> -> Option<Page<T, C>>) {
    forall cursor, p :: ServesAt(enc, xs, serve, cursor, p)
  }

  lemma {:induction false} FollowFrom<T, C(!new)>(
      enc: T -> C, xs: seq<T>, serve: Option<C> -> Option<Page<T, C>>, cursor: Option<C>, fuel: nat, p: nat)
    requires Serves(enc, xs, serve) && CursorAt(enc, xs, cursor, p) && |xs| - p < fuel
    ensures Follow(serve, cursor, fuel) == (xs[p..], true)
    decreases fuel
  {
    assert ServesAt(enc, xs, serve, cursor, p);
    var page := serve(cursor).value;
    if page.next.Some? {
      var q := p + |page.items|;
      FollowFrom(enc, xs, serve, page.next, fuel - 1, q);
      assert xs[p..q] + xs[q..] == xs[p..];
    }
  }

  /** Pages that continue each other, followed from the start, are the enumeration. */
  lemma FollowServed<T(!new), C(!new)>(l: Listing<T, C>, s: set<T>, serve: Option<C> -> Option<Page<T, C>>)
    requires Orders(l.less, s) && Serves(l.enc, OrderBy(l.less, s), serve)
    ensures var (items, ended) := Follow(serve, None, |s| + 1);
            ended && Enumerates(l.less, s, items) && |items| == |s|
  {
    var xs := OrderBy(l.less, s);
    EnumerationSize(l.less, s, xs);
    FollowFrom(l.enc, xs, serve, None, |s| + 1, 0);
    assert xs[0..] == xs;
  }

  /** The last rows of the pages that something follows. */
  function Boundaries<T>(xs: seq<T>, limit: nat): seq<T>
    requires limit > 0
  {
    if |xs| <= limit then [] else [xs[limit - 1]] + Boundaries(xs[limit..], limit)
  }

  ghost predicate RightAt<T, C>(enc: T -> C, xs: seq<T>, limit: nat, serve: Option<C> -> Option<Page<T, C>>,
                                cursor: Option<C>, p: nat)
    requires limit > 0 && p <= |xs|
  {
    serve(cursor) == Some(Cut(enc, Take(xs[p..], limit + 1), limit))
  }

  /** The cursor of the row before position `q` is answered with what follows it. */
  ghost predicate RightAfter<T, C>(enc: T -> C, xs: seq<T>, limit: nat, serve: Option<C> -> Option<Page<T, C>>, q: nat)
    requires limit > 0 && 0 < q <= |xs|
  {
    RightAt(enc, xs, limit, serve, Some(enc(xs[q - 1])), q)
  }

  /** From position `p` on, the cursor of every page boundary is answered rightly. */
  ghost predicate BoundariesRight<T, C>(enc: T -> C, xs: seq<T>, limit: nat, serve: Option<C> -> Option<Page<T, C>>,
                                        p: nat)
    requires limit > 0
    decreases |xs| - p
  {
    p + limit < |xs| ==>
      RightAfter(enc, xs, limit, serve, p + limit) && BoundariesRight(enc, xs, limit, serve, p + limit)
  }

  lemma {:induction false} FollowBoundaries<T, C>(
      enc: T -> C, xs: seq<T>, limit: nat, serve: Option<C> -> Option<Page<T, C>>, cursor: Option<C>, fuel: nat, p: nat)
    requires limit > 0 && p <= |xs| && |xs| - p < fuel && RightAt(enc, xs, limit, serve, cursor, p)
    requires BoundariesRight(enc, xs, limit, serve, p)
    ensures Follow(serve, cursor, fuel) == (xs[p..], true)
    decreases fuel
  {
    if p + limit < |xs| {
      var q := p + limit;
      CutPage(enc, xs, limit, p);
      FollowBoundaries(enc, xs, limit, serve, Some(enc(xs[q - 1])), fuel - 1, q);
      assert xs[p..q] + xs[q..] == xs[p..];
    }
  }

  lemma BoundaryStep<T>(xs: seq<T>, limit: nat, p: nat)
    requires limit > 0 && p + limit < |xs|
    ensures Boundaries(xs[p..], limit) == [xs[p + limit - 1]] + Boundaries(xs[p + limit..], limit)
  {
    assert xs[p..][limit..] == xs[p + limit..];
  }

  lemma {:induction false} BoundariesAmong<T>(xs: seq<T>, limit: nat, r: T)
    requires limit > 0 && r in Boundaries(xs, limit)
    ensures r in xs
    decreases |xs|
  {
    if r != xs[limit - 1] {
      BoundariesAmong(xs[limit..], limit, r);
    }
  }

  ghost predicate Repeats<T>(rows: seq<T>) {
    exists i, j | 0 <= i < j < |rows| :: rows[i] == rows[j]
  }

  /** The cursor of the row before position `q` is refused, or answered with a row served before. */
  ghost predicate Misled<T, C>(enc: T -> C, xs: seq<T>, serve: Option<C> -> Option<Page<T, C>>, q: nat)
    requires 0 < q <= |xs|
  {
    var answer := serve(Some(enc(xs[q - 1])));
    answer.Some? ==> answer.value.items != [] && answer.value.items[0] in xs[..q]
  }

  /** `good` tells which rows can end a page. */
  ghost predicate Judges<T, C>(enc: T -> C, xs: seq<T>, limit: nat, serve: Option<C> -> Option<Page<T, C>>,
                               good: T -> bool, q: nat)
    requires limit > 0
  {
    0 < q <= |xs| ==> if good(xs[q - 1]) then RightAfter(enc, xs, limit, serve, q) else Misled(enc, xs, serve, q)
  }

  ghost predicate AllGood<T(!new)>(good: T -> bool, rows: seq<T>) {
    forall r | r in rows :: good(r)
  }

  lemma {:induction false} GoodBoundaries<T(!new), C>(
      enc: T -> C, xs: seq<T>, limit: nat, serve: Option<C> -> Option<Page<T, C>>, good: T -> bool, p: nat)
    requires limit > 0 && p <= |xs| && AllGood(good, Boundaries(xs[p..], limit))
    requires forall q :: Judges(enc, xs, limit, serve, good, q)
    ensures BoundariesRight(enc, xs, limit, serve, p)
    decreases |xs| - p
  {
    if p + limit < |xs| {
      BoundaryStep(xs, limit, p);
      assert Judges(enc, xs, limit, serve, good, p + limit);
      GoodBoundaries(enc, xs, limit, serve, good, p + limit);
    }
  }

  /** A client that goes on with this cursor past position `p`, and comes to an end, has a row twice. */
  ghost predicate EndsRepeating<T, C>(xs: seq<T>, p: nat, serve: Option<C> -> Option<Page<T, C>>, cursor: Option<C>,
                                      fuel: nat)
    requires p <= |xs|
  {
    var collected := Follow(serve, cursor, fuel);
    collected.1 ==> Repeats(xs[..p] + collected.0)
  }

  /** From position `p` on, some page boundary is misled, and those before it are answered rightly. */
  ghost predicate BoundaryMisled<T, C>(enc: T -> C, xs: seq<T>, limit: nat, serve: Option<C> -> Option<Page<T, C>>,
                                       p: nat)
    requires limit > 0
    decreases |xs| - p
  {
    && p + limit < |xs|
    && (Misled(enc, xs, serve, p + limit)
        || (RightAfter(enc, xs, limit, serve, p + limit) && BoundaryMisled(enc, xs, limit, serve, p + limit)))
  }

  lemma {:induction false} BadBoundary<T(!new), C>(
      enc: T -> C, xs: seq<T>, limit: nat, serve: Option<C> -> Option<Page<T, C>>, good: T -> bool, p: nat)
    requires limit > 0 && p <= |xs| && !AllGood(good, Boundaries(xs[p..], limit))
    requires forall q :: Judges(enc, xs, limit, serve, good, q)
    ensures BoundaryMisled(enc, xs, limit, serve, p)
    decreases |xs| - p
  {
    var q := p + limit;
    BadStep(good, xs, limit, p, q);
    assert Judges(enc, xs, limit, serve, good, q);
    if good(xs[q - 1]) {
      BadBoundary(enc, xs, limit, serve, good, q);
    }
  }

  /** Past a misled boundary, the client is refused or collects a row twice. */
  lemma {:induction false} FollowMisled<T, C>(
      enc: T -> C, xs: seq<T>, limit: nat, serve: Option<C> -> Option<Page<T, C>>, cursor: Option<C>, fuel: nat, p: nat)
    requires limit > 0 && p <= |xs| && |xs| - p < fuel && RightAt(enc, xs, limit, serve, cursor, p)
    requires BoundaryMisled(enc, xs, limit, serve, p)
    ensures EndsRepeating(xs, p, serve, cursor, fuel)
    decreases fuel
  {
    var q := p + limit;
    var next := Some(enc(xs[q - 1]));
    if Misled(enc, xs, serve, q) {
      MisledRepeats(enc, xs, serve, next, fuel - 1, q);
    } else {
      assert RightAt(enc, xs, limit, serve, next, q);
      FollowMisled(enc, xs, limit, serve, next, fuel - 1, q);
    }
    FollowPage(enc, xs, limit, serve, cursor, fuel, p, q, next);
  }

  lemma BadStep<T(!new)>(good: T -> bool, xs: seq<T>, limit: nat, p: nat, q: nat)
    requires limit > 0 && p <= |xs| && q == p + limit && !AllGood(good, Boundaries(xs[p..], limit))
    ensures q < |xs|
    ensures good(xs[q - 1]) ==> !AllGood(good, Boundaries(xs[q..], limit))
  {
    BoundaryStep(xs, limit, p);
  }

  lemma MisledRepeats<T, C>(enc: T -> C, xs: seq<T>, serve: Option<C> -> Option<Page<T, C>>, next: Option<C>,
                            fuel: nat, q: nat)
    requires 0 < q < |xs| && next == Some(enc(xs[q - 1])) && Misled(enc, xs, serve, q)
    ensures EndsRepeating(xs, q, serve, next, fuel)
  {
    if fuel > 0 && serve(next).Some? {
      RepeatedRow(xs[..q], serve(next).value.items, Follow(serve, next, fuel).0);
    }
  }

  /** One full page and what follows it. */
  lemma FollowPage<T, C>(enc: T -> C, xs: seq<T>, limit: nat, serve: Option<C> -> Option<Page<T, C>>,
                         cursor: Option<C>, fuel: nat, p: nat, q: nat, next: Option<C>)
    requires limit > 0 && q == p + limit < |xs| && fuel > 0 && RightAt(enc, xs, limit, serve, cursor, p)
    requires next == Some(enc(xs[q - 1]))
    requires EndsRepeating(xs, q, serve, next, fuel - 1)
    ensures EndsRepeating(xs, p, serve, cursor, fuel)
  {
    CutPage(enc, xs, limit, p);
    var rest := Follow(serve, Some(enc(xs[p + limit - 1])), fuel - 1);
    assert xs[..p] + (xs[p..p + limit] + rest.0) == xs[..p + limit] + rest.0;
  }

  lemma RepeatedRow<T>(before: seq<T>, items: seq<T>, after: seq<T>)
    requires items != [] && items[0] in before && items <= after
    ensures Repeats(before + after)
  {
    var i :| 0 <= i < |before| && before[i] == items[0];
    assert (before + after)[i] == (before + after)[|before|];
  }

  /**
   When the answer to each row's cursor is known to be right or misled, following cursors from the
   start gives the enumeration if and only if all page boundaries are good.
   */
  lemma FollowIff<T(!new), C>(
      less: (T, T) -> bool, s: set<T>, enc: T -> C, xs: seq<T>, limit: nat,
      serve: Option<C> -> Option<Page<T, C>>, good: T -> bool)
    requires Orders(less, s) && Enumerates(less, s, xs) && limit > 0 && RightAt(enc, xs, limit, serve, None, 0)
    requires forall q :: Judges(enc, xs, limit, serve, good, q)
    ensures var (items, ended) := Follow(serve, None, |xs| + 1);
            (ended && Enumerates(less, s, items)) <==> AllGood(good, Boundaries(xs, limit))
  {
    assert xs[0..] == xs && xs[..0] == [];
    if AllGood(good, Boundaries(xs, limit)) {
      GoodBoundaries(enc, xs, limit, serve, good, 0);
      FollowBoundaries(enc, xs, limit, serve, None, |xs| + 1, 0);
    } else {
      BadBoundary(enc, xs, limit, serve, good, 0);
      FollowMisled(enc, xs, limit, serve, None, |xs| + 1, 0);
      var items := Follow(serve, None, |xs| + 1).0;
      assert [] + items == items;
      if Repeats(items) {
        RepeatedIsUnsorted(less, s, items);
      }
    }
  }

  lemma RepeatedIsUnsorted<T(!new)>(less: (T, T) -> bool, s: set<T>, rows: seq<T>)
    requires Orders(less, s) && Repeats(rows)
    ensures !Enumerates(less, s, rows)
  {
    var i, j :| 0 <= i < j < |rows| && rows[i] == rows[j];
    assert rows[i] in s ==> !less(rows[i], rows[j]);
  }

  lemma CutPage<T, C>(enc: T -> C, xs: seq<T>, limit: nat, p: nat)
    requires limit > 0 && p + limit < |xs|
    ensures Cut(enc, Take(xs[p..], limit + 1), limit) == Page(xs[p..p + limit], Some(enc(xs[p + limit - 1])))
  {
    assert Take(xs[p..], limit + 1)[..limit] == xs[p..p + limit];
  }

  lemma CutContinues<T, C>(enc: T -> C, xs: seq<T>, p: nat, limit: nat)
    requires p <= |xs| && limit > 0
    ensures Continues(enc, xs, p, Cut(enc, Take(xs[p..], limit + 1), limit))
  {
    var rows := Take(xs[p..], limit + 1);
    if p + limit < |xs| {
      assert rows[..limit] == xs[p..p + limit];
      assert rows[limit - 1] == xs[p + limit - 1];
    }
  }

  lemma PageContinues<T(!new), C(!new)>(l: Listing<T, C>, s: set<T>, cursor: Option<C>, limit: nat, p: nat)
    requires Agrees(l, s) && CursorAt(l.enc, OrderBy(l.less, s), cursor, p) && limit > 0
    ensures Continues(l.enc, OrderBy(l.less, s), p, PageOf(l, s, cursor, limit))
  {
    MatchingAt(l, s, cursor, p);
    CutContinues(l.enc, OrderBy(l.less, s), p, limit);
  }

  /** No cursor, or the cursor of a row of the table. */
  ghost predicate Issued<T(!new), C>(l: Listing<T, C>, s: set<T>, cursor: Option<C>) {
    cursor.None? || exists r | r in s :: cursor.value == l.enc(r)
  }

  /**
   Following next_cursor from the start visits every row exactly once, in order, and ends
   with a null cursor after at most one request more than there are rows.
   */
  lemma FollowTheorem<T(!new), C(!new)>(l: Listing<T, C>, s: set<T>, limit: nat, serve: Option<C> -> Option<Page<T, C>>)
    requires Agrees(l, s) && limit > 0
    requires forall cursor :: Issued(l, s, cursor) ==> serve(cursor) == Some(PageOf(l, s, cursor, limit))
    ensures var (items, ended) := Follow(serve, None, |s| + 1);
            ended && Enumerates(l.less, s, items) && |items| == |s|
  {
    var xs := OrderBy(l.less, s);
    forall cursor, p
      ensures ServesAt(l.enc, xs, serve, cursor, p)
    {
      if CursorAt(l.enc, xs, cursor, p) {
        assert p > 0 ==> xs[p - 1] in s;
        assert Issued(l, s, cursor);
        PageContinues(l, s, cursor, limit, p);
      }
    }
    FollowServed(l, s, serve);
  }

  lemma {:induction false} EnumerationSize<T(!new)>(less: (T, T) -> bool, s: set<T>, xs: seq<T>)
    requires Orders(less, s) && Enumerates(less, s, xs)
    ensures |xs| == |s|
    decreases |xs|
  {
    if xs == [] {
      assert s == {};
    } else {
      assert xs[0] in s;
      RestEnumerates(less, s, xs);
      EnumerationSize(less, s - {xs[0]}, xs[1..]);
    }
  }
}
