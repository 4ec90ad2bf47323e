/** The send methods with their running counters, over every schedule of the worker pool. */
module PushSender {
  import opened Common
  import opened WorkerPool
  import opened PushDelivery

  // ---------------------------------------------------------------- tallies in completion order

  ghost predicate Within(done: seq<nat>, n: nat) {
    forall k | 0 <= k < |done| :: done[k] < n
  }

  /** How many of the completed items had outcome `o`. */
  ghost function Tally(done: seq<nat>, items: seq<Subscription>, outcome: Subscription -> Outcome, o: Outcome): nat
    requires Within(done, |items|)
  {
    if done == [] then 0
    else
      var n := |done| - 1;
      Tally(done[..n], items, outcome, o) + (if outcome(items[done[n]]) == o then 1 else 0)
  }

  lemma {:induction false} TallyWithout(done: seq<nat>, k: nat, items: seq<Subscription>,
                                        outcome: Subscription -> Outcome, o: Outcome)
    requires Within(done, |items|) && k < |done|
    ensures Within(done[..k] + done[k + 1..], |items|)
    ensures Tally(done, items, outcome, o)
         == Tally(done[..k] + done[k + 1..], items, outcome, o) + (if outcome(items[done[k]]) == o then 1 else 0)
    decreases |done|
  {
    var n := |done| - 1;
    if k == n {
      assert done[..k] + done[k + 1..] == done[..n];
    } else {
      TallyWithout(done[..n], k, items, outcome, o);
      assert done[..n][..k] + done[..n][k + 1..] == (done[..k] + done[k + 1..])[..n - 1];
      assert (done[..k] + done[k + 1..])[n - 1] == done[n];
    }
  }

  lemma {:induction false} TallyOfPrefix(done: seq<nat>, items: seq<Subscription>, n: nat,
                                         outcome: Subscription -> Outcome, o: Outcome)
    requires n <= |items| && Within(done, n)
    ensures Tally(done, items, outcome, o) == Tally(done, items[..n], outcome, o)
    decreases |done|
  {
    if done != [] {
      TallyOfPrefix(done[..|done| - 1], items, n, outcome, o);
    }
  }

  lemma {:induction false} CountAppend(rows: seq<Subscription>, s: Subscription, outcome: Subscription -> Outcome,
                                       o: Outcome)
    ensures Count(rows + [s], outcome, o) == Count(rows, outcome, o) + (if outcome(s) == o then 1 else 0)
    decreases |rows|
  {
    if rows != [] {
      assert (rows + [s])[1..] == rows[1..] + [s];
      CountAppend(rows[1..], s, outcome, o);
    }
  }

  lemma CompleteIsWithin(done: seq<nat>, n: nat)
    requires Complete(done, n)
    ensures Within(done, n) && (n == 0 ==> done == [])
  {
    assert forall k | 0 <= k < |done| :: done[k] in done;
    if |done| > 0 {
      assert done[0] in done && done[0] < n;
    }
  }

  lemma RemoveLast(done: seq<nat>, n: nat) returns (k: nat)
    requires Complete(done, n + 1)
    ensures k < |done| && done[k] == n && Complete(done[..k] + done[k + 1..], n)
  {
    assert n in done;
    k :| 0 <= k < |done| && done[k] == n;
    var rest := done[..k] + done[k + 1..];
    forall i: int
      ensures i in rest <==> 0 <= i < n
    {
      if 0 <= i < n {
        assert i in done;
        var j :| 0 <= j < |done| && done[j] == i;
        assert rest[if j < k then j else j - 1] == i;
      }
      if i in rest {
        var j :| 0 <= j < |rest| && rest[j] == i;
        var original := if j < k then j else j + 1;
        assert done[original] == i && original != k && i in done;
      }
    }
  }

  /** The order of completion does not matter. */
  lemma {:induction false} AnyOrder(done: seq<nat>, items: seq<Subscription>, outcome: Subscription -> Outcome,
                                    o: Outcome)
    requires Complete(done, |items|)
    ensures Within(done, |items|) && Tally(done, items, outcome, o) == Count(items, outcome, o)
    decreases |items|
  {
    CompleteIsWithin(done, |items|);
    if items != [] {
      var n := |items| - 1;
      var k := RemoveLast(done, n);
      var rest := done[..k] + done[k + 1..];
      CompleteIsWithin(rest, n);
      TallyWithout(done, k, items, outcome, o);
      TallyOfPrefix(rest, items, n, outcome, o);
      AnyOrder(rest, items[..n], outcome, o);
      CountAppend(items[..n], items[n], outcome, o);
      assert items[..n] + [items[n]] == items;
    }
  }

  /** The ids that expired, in completion order. */
  ghost function ExpiredIds(done: seq<nat>, items: seq<Subscription>, outcome: Subscription -> Outcome): seq<Id>
    requires Within(done, |items|)
  {
    if done == [] then []
    else
      var n := |done| - 1;
      ExpiredIds(done[..n], items, outcome) + (if outcome(items[done[n]]) == Expired then [items[done[n]].id] else [])
  }

  lemma {:induction false} ExpiredCount(done: seq<nat>, items: seq<Subscription>, outcome: Subscription -> Outcome)
    requires Within(done, |items|)
    ensures |ExpiredIds(done, items, outcome)| == Tally(done, items, outcome, Expired)
    decreases |done|
  {
    if done != [] {
      ExpiredCount(done[..|done| - 1], items, outcome);
    }
  }

  /** The position in `done` that an expired id comes from. */
  lemma {:induction false} ExpiredOrigin(done: seq<nat>, items: seq<Subscription>, outcome: Subscription -> Outcome,
                                         id: Id)
    returns (k: nat)
    requires Within(done, |items|) && id in ExpiredIds(done, items, outcome)
    ensures k < |done| && items[done[k]].id == id
    decreases |done|
  {
    var n := |done| - 1;
    if id in ExpiredIds(done[..n], items, outcome) {
      k := ExpiredOrigin(done[..n], items, outcome, id);
    } else {
      k := n;
    }
  }

  /** Under distinct ids an id expires once. */
  lemma {:induction false} ExpiredDistinct(done: seq<nat>, items: seq<Subscription>, outcome: Subscription -> Outcome)
    requires Within(done, |items|) && Distinct(done) && DistinctIds(items)
    ensures Distinct(ExpiredIds(done, items, outcome))
    decreases |done|
  {
    if done != [] {
      var n := |done| - 1;
      var before, id := ExpiredIds(done[..n], items, outcome), items[done[n]].id;
      ExpiredDistinct(done[..n], items, outcome);
      forall x | x in before
        ensures x != id
      {
        var k := ExpiredOrigin(done[..n], items, outcome, x);
        assert done[k] != done[n];
      }
      DistinctAppend(before, id);
    }
  }

  lemma DistinctAppend<T>(xs: seq<T>, x: T)
    requires Distinct(xs) && x !in xs
    ensures Distinct(xs + [x])
  {
  }

  ghost predicate DistinctIds(items: seq<Subscription>) {
    forall i, j | 0 <= i < j < |items| :: items[i].id != items[j].id
  }

  ghost predicate IdsAmong(ids: seq<Id>, items: seq<Subscription>) {
    forall id | id in ids :: exists i | 0 <= i < |items| :: items[i].id == id
  }

  lemma {:induction false} DistinctIsUnique<T>(xs: seq<T>)
    requires Distinct(xs)
    ensures Unique(xs) == xs
    decreases |xs|
  {
    if xs != [] {
      var n := |xs| - 1;
      DistinctIsUnique(xs[..n]);
      assert xs[..n] + [xs[n]] == xs;
    }
  }

  /** The counters a worker touches. */
  datatype Score = Score(sent: nat, failed: nat, expired: seq<Id>)

  function AddOutcome(score: Score, s: Subscription, o: Outcome): Score {
    match o
    case Success => score.(sent := score.sent + 1)
    case Failure => score.(failed := score.failed + 1)
    case Expired => score.(expired := score.expired + [s.id])
  }

  /** The counters after the items in `done`, in that order. */
  ghost function ScoreAfter(start: Score, done: seq<nat>, items: seq<Subscription>,
                            outcome: Subscription -> Outcome): Score
    requires Within(done, |items|)
  {
    if done == [] then start
    else
      var n := |done| - 1;
      AddOutcome(ScoreAfter(start, done[..n], items, outcome), items[done[n]], outcome(items[done[n]]))
  }

  lemma ScoreAppend(start: Score, done: seq<nat>, i: nat, items: seq<Subscription>, outcome: Subscription -> Outcome)
    requires Within(done, |items|) && i < |items|
    ensures ScoreAfter(start, done + [i], items, outcome)
         == AddOutcome(ScoreAfter(start, done, items, outcome), items[i], outcome(items[i]))
  {
    assert (done + [i])[..|done|] == done;
  }

  lemma {:induction false} ScoreIsTally(start: Score, done: seq<nat>, items: seq<Subscription>,
                                        outcome: Subscription -> Outcome)
    requires Within(done, |items|)
    ensures ScoreAfter(start, done, items, outcome) ==
            Score(start.sent + Tally(done, items, outcome, Success),
                  start.failed + Tally(done, items, outcome, Failure),
                  start.expired + ExpiredIds(done, items, outcome))
    decreases |done|
  {
    if done != [] {
      ScoreIsTally(start, done[..|done| - 1], items, outcome);
    }
  }

  /** Every complete order of the items gives the counts of the items themselves, and distinct expired ids. */
  lemma ScoreTheorem(start: Score, done: seq<nat>, items: seq<Subscription>, outcome: Subscription -> Outcome)
      returns (ids: seq<Id>)
    requires Complete(done, |items|) && Within(done, |items|) && DistinctIds(items)
    ensures ScoreAfter(start, done, items, outcome) ==
            Score(start.sent + Count(items, outcome, Success), start.failed + Count(items, outcome, Failure),
                  start.expired + ids)
    ensures |ids| == Count(items, outcome, Expired) && Distinct(ids) && IdsAmong(ids, items)
  {
    ScoreIsTally(start, done, items, outcome);
    AnyOrder(done, items, outcome, Success);
    AnyOrder(done, items, outcome, Failure);
    AnyOrder(done, items, outcome, Expired);
    ExpiredCount(done, items, outcome);
    ExpiredDistinct(done, items, outcome);
    ids := ExpiredIds(done, items, outcome);
    forall id | id in ids
      ensures exists i | 0 <= i < |items| :: items[i].id == id
    {
      var k := ExpiredOrigin(done, items, outcome, id);
    }
  }

  lemma StepSound(pool: Pool, w: nat, n: nat)
    requires Inv(pool) && pool.size == n && w < |pool.workers| && pool.workers[w] != Done && Within(pool.completed, n)
    ensures Inv(Advance(pool, w)) && Advance(pool, w).size == n && Within(Advance(pool, w).completed, n)
    ensures 0 <= StepsLeft(Advance(pool, w)) < StepsLeft(pool)
    ensures pool.workers[w].Working? ==> pool.workers[w].item < n
  {
    AdvanceKeeps(pool, w);
    AdvanceShrinks(pool, w);
  }

  lemma FinishedScore(start: Score, pool: Pool, items: seq<Subscription>, outcome: Subscription -> Outcome)
      returns (ids: seq<Id>)
    requires Inv(pool) && Finished(pool) && pool.size == |items| && DistinctIds(items) &&
             Within(pool.completed, |items|)
    ensures ScoreAfter(start, pool.completed, items, outcome) ==
            Score(start.sent + Count(items, outcome, Success), start.failed + Count(items, outcome, Failure),
                  start.expired + ids)
    ensures |ids| == Count(items, outcome, Expired) && Distinct(ids) && IdsAmong(ids, items)
  {
    FinishedTheorem(pool);
    ids := ScoreTheorem(start, pool.completed, items, outcome);
  }

  // ---------------------------------------------------------------- the sender

  class Sender {
    var requested: nat
    var matched: nat
    var unmatched: int
    var failedBatches: nat
    var failedBatchRecipients: nat
    var sent: nat
    var failed: nat
    var pruned: nat
    var skipped: nat
    var expiredIds: seq<Id>

    ghost function Result(): Totals
      reads this
    {
      Totals(requested, matched, unmatched, failedBatches, failedBatchRecipients, sent, failed, pruned, skipped)
    }

    constructor ()
      ensures Result() == NoTotals(0) && expiredIds == []
    {
      requested, matched, unmatched, failedBatches, failedBatchRecipients := 0, 0, 0, 0, 0;
      sent, failed, pruned, skipped, expiredIds := 0, 0, 0, 0, [];
    }

    /** The end of one subscription's work. */
    method Record(s: Subscription, reply: Reply)
      modifies this`sent, this`failed, this`expiredIds
      ensures Score(sent, failed, expiredIds) ==
              AddOutcome(Score(old(sent), old(failed), old(expiredIds)), s, OutcomeOf(s, reply))
    {
      if !s.complete || (s.platform.Web? && !s.trusted) {
        failed := failed + 1;
        return;
      }
      match reply
      case Accepted => sent := sent + 1;
      case Gone => expiredIds := expiredIds + [s.id];
      case Rejected => failed := failed + 1;
      case Threw => failed := failed + 1;
    }

    /** Any worker that is not done may be the next to run. */
    method AnyWorker(pool: Pool) returns (w: nat)
      requires !Finished(pool)
      ensures w < |pool.workers| && pool.workers[w] != Done
    {
      w :| w < |pool.workers| && pool.workers[w] != Done;
    }

    /** What a worker does between two awaits. */
    method StepWorker(pool: Pool, w: nat, items: seq<Subscription>, env: Env, offset: nat, ghost start: Score)
        returns (after: Pool)
      requires Inv(pool) && pool.size == |items| && w < |pool.workers| && pool.workers[w] != Done
      requires Within(pool.completed, |items|)
      requires Score(sent, failed, expiredIds) == ScoreAfter(start, pool.completed, items, GroupOutcome(env, offset))
      modifies this`sent, this`failed, this`expiredIds
      ensures Inv(after) && after.size == |items| && 0 <= StepsLeft(after) < StepsLeft(pool)
      ensures Within(after.completed, |items|)
      ensures Score(sent, failed, expiredIds) == ScoreAfter(start, after.completed, items, GroupOutcome(env, offset))
    {
      StepSound(pool, w, |items|);
      after := Advance(pool, w);
      if pool.workers[w].Working? {
        var item := pool.workers[w].item;
        ScoreAppend(start, pool.completed, item, items, GroupOutcome(env, offset));
        Record(items[item], env.reply(offset, items[item]));
      }
    }

    /** The workers until all are done. */
    method RunWorkers(first: Pool, items: seq<Subscription>, env: Env, offset: nat, ghost start: Score)
        returns (pool: Pool)
      requires Inv(first) && first.size == |items| && Within(first.completed, |items|)
      requires Score(sent, failed, expiredIds) == ScoreAfter(start, first.completed, items, GroupOutcome(env, offset))
      modifies this`sent, this`failed, this`expiredIds
      ensures Inv(pool) && pool.size == |items| && Within(pool.completed, |items|) && Finished(pool)
      ensures Score(sent, failed, expiredIds) == ScoreAfter(start, pool.completed, items, GroupOutcome(env, offset))
    {
      pool := first;
      while !Finished(pool)
        invariant Inv(pool) && pool.size == |items| && Within(pool.completed, |items|)
        invariant Score(sent, failed, expiredIds) == ScoreAfter(start, pool.completed, items, GroupOutcome(env, offset))
        decreases StepsLeft(pool)
      {
        var w := AnyWorker(pool);
        pool := StepWorker(pool, w, items, env, offset, start);
      }
    }

    /** One group through the pool: whatever worker steps next, the counters come out the same. */
    method ForEachConcurrent(items: seq<Subscription>, env: Env, offset: nat) returns (ghost ids: seq<Id>)
      requires DistinctIds(items)
      modifies this`sent, this`failed, this`expiredIds
      ensures sent == old(sent) + Count(items, GroupOutcome(env, offset), Success)
      ensures failed == old(failed) + Count(items, GroupOutcome(env, offset), Failure)
      ensures expiredIds == old(expiredIds) + ids
      ensures |ids| == Count(items, GroupOutcome(env, offset), Expired) && Distinct(ids) && IdsAmong(ids, items)
    {
      ghost var start := Score(sent, failed, expiredIds);
      StartKeeps(|items|, CONCURRENCY);
      var pool := RunWorkers(Start(|items|, CONCURRENCY), items, env, offset, start);
      ids := FinishedScore(start, pool, items, GroupOutcome(env, offset));
    }

    /** The web group: skipped without credentials. */
    method SendWeb(rows: seq<Subscription>, env: Env, offset: nat) returns (ghost ids: seq<Id>)
      requires DistinctIds(rows)
      modifies this`sent, this`failed, this`skipped, this`expiredIds
      ensures var share := GroupShare(rows, WebFate(env), GroupOutcome(env, offset));
              && sent == old(sent) + share.sent && failed == old(failed) + share.failed &&
                 skipped == old(skipped) + share.skipped
              && |ids| == share.expired
      ensures expiredIds == old(expiredIds) + ids && Distinct(ids) && IdsAmong(ids, rows)
    {
      ids := [];
      if !env.vapid {
        skipped := skipped + |rows|;
      } else {
        ids := ForEachConcurrent(rows, env, offset);
      }
    }

    /** The mobile group: skipped without credentials, and failed as a whole without an access token. */
    method SendFcm(rows: seq<Subscription>, env: Env, offset: nat) returns (ghost ids: seq<Id>)
      requires DistinctIds(rows)
      modifies this`sent, this`failed, this`skipped, this`expiredIds
      ensures var share := GroupShare(rows, FcmFate(env, offset), GroupOutcome(env, offset));
              && sent == old(sent) + share.sent && failed == old(failed) + share.failed &&
                 skipped == old(skipped) + share.skipped
              && |ids| == share.expired
      ensures expiredIds == old(expiredIds) + ids && Distinct(ids) && IdsAmong(ids, rows)
    {
      ids := [];
      if !env.fcm {
        skipped := skipped + |rows|;
      } else if |rows| > 0 {
        if !env.token(offset) {
          failed := failed + |rows|;
        } else {
          ids := ForEachConcurrent(rows, env, offset);
        }
      }
    }

    /** deleteExpiredSubscriptions over the unique ids: each counts as pruned, or as failed if the statement fails. */
    method Prune(works: bool)
      requires Distinct(expiredIds)
      modifies this`pruned, this`failed
      ensures pruned == old(pruned) + (if works then |expiredIds| else 0)
      ensures failed == old(failed) + (if works then 0 else |expiredIds|)
    {
      if |expiredIds| > 0 {
        DistinctIsUnique(expiredIds);
        var ids := Unique(expiredIds);
        if works {
          pruned := pruned + |ids|;
        } else {
          failed := failed + |ids|;
        }
      }
    }

    /** The two groups of a batch, one after the other. */
    method SendGroups(rows: seq<Subscription>, env: Env, offset: nat)
      requires DistinctIds(rows)
      modifies this`sent, this`failed, this`skipped, this`expiredIds
      ensures var web := GroupShare(OfWeb(rows), WebFate(env), GroupOutcome(env, offset));
              var fcm := GroupShare(OfFcm(rows), FcmFate(env, offset), GroupOutcome(env, offset));
              && sent == old(sent) + web.sent + fcm.sent
              && failed == old(failed) + web.failed + fcm.failed
              && skipped == old(skipped) + web.skipped + fcm.skipped
              && |expiredIds| == web.expired + fcm.expired && Distinct(expiredIds)
    {
      GroupsApart(rows);
      expiredIds := [];
      ghost var web := SendWeb(OfWeb(rows), env, offset);
      ghost var fcm := SendFcm(OfFcm(rows), env, offset);
      DistinctConcat(web, fcm, OfWeb(rows), OfFcm(rows));
      assert expiredIds == web + fcm;
    }

    /** One batch. */
    method SendBatch(env: Env, offset: nat, users: seq<User>)
      requires Sound(env)
      modifies this
      ensures Result() == AddBatch(old(Result()), env, offset, users)
    {
      var lookup := env.lookup(offset, users);
      if lookup.None? {
        failedBatches := failedBatches + 1;
        failedBatchRecipients := failedBatchRecipients + |users|;
        return;
      }
      var rows := lookup.value;
      assert RowsOf(users, rows);
      var found := |Users(rows)|;
      matched := matched + found;
      unmatched := unmatched + |users| - found;
      SendGroups(rows, env, offset);
      Prune(env.prunes(offset));
    }

    /** send: the counters are those of Delivered, for every schedule of the workers in every batch. */
    method Send(userIds: seq<User>, env: Env)
      requires Sound(env)
      modifies this
      ensures Result() == Delivered(env, userIds)
    {
      var users := Unique(userIds);
      requested, matched, unmatched, failedBatches, failedBatchRecipients := |users|, 0, 0, 0, 0;
      sent, failed, pruned, skipped := 0, 0, 0, 0;
      var offset := 0;
      while offset < |users|
        invariant AddBatches(Result(), env, users, offset) == Delivered(env, userIds)
        decreases |users| - offset
      {
        SendBatch(env, offset, Slice(users, offset));
        offset := offset + MAX_USER_IDS;
      }
    }
  }

  lemma {:induction false} GroupMembers(rows: seq<Subscription>)
    ensures forall s | s in OfWeb(rows) :: s.platform.Web? && s in rows
    ensures forall s | s in OfFcm(rows) :: !s.platform.Web? && s in rows
    decreases |rows|
  {
    if rows != [] {
      GroupMembers(rows[1..]);
    }
  }

  lemma {:induction false} GroupsDistinct(rows: seq<Subscription>)
    requires DistinctIds(rows)
    ensures DistinctIds(OfWeb(rows)) && DistinctIds(OfFcm(rows))
    decreases |rows|
  {
    if rows != [] {
      GroupsDistinct(rows[1..]);
      GroupMembers(rows[1..]);
      forall s | s in rows[1..]
        ensures s.id != rows[0].id
      {
        var k :| 0 <= k < |rows| - 1 && rows[1..][k] == s;
      }
      Prepended(rows[0], OfWeb(rows[1..]), rows[1..]);
      Prepended(rows[0], OfFcm(rows[1..]), rows[1..]);
    }
  }

  lemma Prepended(s: Subscription, group: seq<Subscription>, rows: seq<Subscription>)
    requires DistinctIds(group) && (forall x | x in group :: x in rows) && forall x | x in rows :: x.id != s.id
    ensures DistinctIds([s] + group)
  {
    forall j | 0 <= j < |group|
      ensures group[j].id != s.id
    {
      assert group[j] in group;
    }
  }

  /** The two groups keep the ids distinct, and share none. */
  lemma GroupsApart(rows: seq<Subscription>)
    requires DistinctIds(rows)
    ensures DistinctIds(OfWeb(rows)) && DistinctIds(OfFcm(rows))
    ensures forall i, j | 0 <= i < |OfWeb(rows)| && 0 <= j < |OfFcm(rows)| :: OfWeb(rows)[i].id != OfFcm(rows)[j].id
  {
    GroupsDistinct(rows);
    GroupMembers(rows);
    forall i, j | 0 <= i < |OfWeb(rows)| && 0 <= j < |OfFcm(rows)|
      ensures OfWeb(rows)[i].id != OfFcm(rows)[j].id
    {
      DifferentRows(rows, OfWeb(rows)[i], OfFcm(rows)[j]);
    }
  }

  lemma DifferentRows(rows: seq<Subscription>, s: Subscription, t: Subscription)
    requires DistinctIds(rows) && s in rows && t in rows && s != t
    ensures s.id != t.id
  {
  }

  lemma DistinctConcat(web: seq<Id>, fcm: seq<Id>, webRows: seq<Subscription>, fcmRows: seq<Subscription>)
    requires Distinct(web) && Distinct(fcm) && IdsAmong(web, webRows) && IdsAmong(fcm, fcmRows)
    requires forall i, j | 0 <= i < |webRows| && 0 <= j < |fcmRows| :: webRows[i].id != fcmRows[j].id
    ensures Distinct(web + fcm)
  {
    forall i, j | 0 <= i < |web| && 0 <= j < |fcm|
      ensures web[i] != fcm[j]
    {
      assert web[i] in web && fcm[j] in fcm;
    }
  }
}
