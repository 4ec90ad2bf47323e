/**
 Push delivery: batches of users, their subscriptions sent through the worker pool, and the
 counters of the result. Providers, the database and the schedule of the workers are arbitrary.
 */
module PushDelivery {
  import opened Common
  import opened WorkerPool

  const MAX_USER_IDS: nat := 1000
  const CONCURRENCY: nat := 10

  type User = nat
  type Id = nat

  datatype Platform = Web | Ios | Android

  /** `complete`: endpoint and keys, or the token, are present; `trusted`: the endpoint is a known push host. */
  datatype Subscription = Subscription(id: Id, user: User, platform: Platform, complete: bool, trusted: bool)

  /** A provider's answer; Threw covers the network, the crypto and the payload limit. */
  datatype Reply = Accepted | Gone | Rejected | Threw

  datatype Outcome = Success | Failure | Expired

  function WebOutcome(s: Subscription, reply: Reply): Outcome {
    if !s.complete || !s.trusted then Failure
    else match reply
      case Accepted => Success
      case Gone => Expired
      case Rejected => Failure
      case Threw => Failure
  }

  function FcmOutcome(s: Subscription, reply: Reply): Outcome {
    if !s.complete || s.platform.Web? then Failure
    else match reply
      case Accepted => Success
      case Gone => Expired
      case Rejected => Failure
      case Threw => Failure
  }

  function OutcomeOf(s: Subscription, reply: Reply): Outcome {
    if s.platform.Web? then WebOutcome(s, reply) else FcmOutcome(s, reply)
  }

  /**
   The surroundings of one send. Each part may depend on the batch's offset: the lookup (None is a
   database failure), the FCM access token, the providers' replies, and the prune statement.
   */
  datatype Env = Env(
    lookup: (nat, seq<User>) -> Option<seq<Subscription>>, vapid: bool, fcm: bool,
    token: nat -> bool, reply: (nat, Subscription) -> Reply, prunes: nat -> bool)

  /** listSubscriptions: rows of the users asked for, under their primary key. */
  ghost predicate RowsOf(users: seq<User>, rows: seq<Subscription>) {
    && (forall s | s in rows :: s.user in users)
    && (forall i, j | 0 <= i < j < |rows| :: rows[i].id != rows[j].id)
  }

  ghost predicate Sound(env: Env) {
    forall offset, users :: env.lookup(offset, users).Some? ==> RowsOf(users, env.lookup(offset, users).value)
  }

  datatype Totals = Totals(
    requested: nat, matched: nat, unmatched: int, failedBatches: nat, failedBatchRecipients: nat,
    sent: nat, failed: nat, pruned: nat, skipped: nat)

  // ---------------------------------------------------------------- what a send adds up to

  /** First occurrences. */
  function Unique<T(==)>(xs: seq<T>): seq<T> {
    if xs == [] then []
    else
      var rest := Unique(xs[..|xs| - 1]);
      if xs[|xs| - 1] in rest then rest else rest + [xs[|xs| - 1]]
  }

  function OfWeb(rows: seq<Subscription>): seq<Subscription> {
    if rows == [] then [] else (if rows[0].platform.Web? then [rows[0]] else []) + OfWeb(rows[1..])
  }

  function OfFcm(rows: seq<Subscription>): seq<Subscription> {
    if rows == [] then [] else (if rows[0].platform.Web? then [] else [rows[0]]) + OfFcm(rows[1..])
  }

  function Count(rows: seq<Subscription>, outcome: Subscription -> Outcome, o: Outcome): nat {
    if rows == [] then 0 else (if outcome(rows[0]) == o then 1 else 0) + Count(rows[1..], outcome, o)
  }

  /** What happens to a group: skipped without credentials, failed without a token, else sent one by one. */
  datatype Fate = Skipped | AllFailed | Attempted

  function GroupOutcome(env: Env, offset: nat): Subscription -> Outcome {
    s => OutcomeOf(s, env.reply(offset, s))
  }

  function WebFate(env: Env): Fate {
    if env.vapid then Attempted else Skipped
  }

  function FcmFate(env: Env, offset: nat): Fate {
    if !env.fcm then Skipped else if env.token(offset) then Attempted else AllFailed
  }

  /** A group's share of the counters, with its expired subscriptions still to be pruned. */
  datatype Share = Share(sent: nat, failed: nat, skipped: nat, expired: nat)

  function GroupShare(rows: seq<Subscription>, fate: Fate, outcome: Subscription -> Outcome): Share {
    match fate
    case Skipped => Share(0, 0, |rows|, 0)
    case AllFailed => Share(0, |rows|, 0, 0)
    case Attempted =>
      Share(Count(rows, outcome, Success), Count(rows, outcome, Failure), 0, Count(rows, outcome, Expired))
  }

  function Users(rows: seq<Subscription>): set<User> {
    set s | s in rows :: s.user
  }

  /** One batch, as a function of its surroundings alone. */
  function AddBatch(t: Totals, env: Env, offset: nat, users: seq<User>): Totals {
    match env.lookup(offset, users)
    case None => t.(failedBatches := t.failedBatches + 1, failedBatchRecipients := t.failedBatchRecipients + |users|)
    case Some(rows) =>
      var matched := |Users(rows)|;
      var web := GroupShare(OfWeb(rows), WebFate(env), GroupOutcome(env, offset));
      var fcm := GroupShare(OfFcm(rows), FcmFate(env, offset), GroupOutcome(env, offset));
      var expired := web.expired + fcm.expired;
      t.(matched := t.matched + matched, unmatched := t.unmatched + |users| - matched,
         sent := t.sent + web.sent + fcm.sent,
         failed := t.failed + web.failed + fcm.failed + (if env.prunes(offset) then 0 else expired),
         pruned := t.pruned + (if env.prunes(offset) then expired else 0),
         skipped := t.skipped + web.skipped + fcm.skipped)
  }

  function Slice(users: seq<User>, offset: nat): seq<User>
    requires offset < |users|
  {
    users[offset..Min(offset + MAX_USER_IDS, |users|)]
  }

  function AddBatches(t: Totals, env: Env, users: seq<User>, offset: nat): Totals
    decreases |users| - offset
  {
    if offset >= |users| then t
    else AddBatches(AddBatch(t, env, offset, Slice(users, offset)), env, users, offset + MAX_USER_IDS)
  }

  function NoTotals(requested: nat): Totals {
    Totals(requested, 0, 0, 0, 0, 0, 0, 0, 0)
  }

  /** The result of an unaborted send. */
  function Delivered(env: Env, userIds: seq<User>): Totals {
    AddBatches(NoTotals(|Unique(userIds)|), env, Unique(userIds), 0)
  }

  /** The subscriptions returned by lookups that succeeded. */
  function Found(env: Env, users: seq<User>, offset: nat): nat
    decreases |users| - offset
  {
    if offset >= |users| then 0
    else
      var rows := env.lookup(offset, Slice(users, offset));
      (if rows.Some? then |rows.value| else 0) + Found(env, users, offset + MAX_USER_IDS)
  }

  // ---------------------------------------------------------------- conservation

  lemma {:induction false} PlatformsPartition(rows: seq<Subscription>)
    ensures |OfWeb(rows)| + |OfFcm(rows)| == |rows|
    decreases |rows|
  {
    if rows != [] {
      PlatformsPartition(rows[1..]);
    }
  }

  lemma {:induction false} OutcomesPartition(rows: seq<Subscription>, outcome: Subscription -> Outcome)
    ensures Count(rows, outcome, Success) + Count(rows, outcome, Failure) + Count(rows, outcome, Expired) == |rows|
    decreases |rows|
  {
    if rows != [] {
      OutcomesPartition(rows[1..], outcome);
    }
  }

  lemma {:induction false} ElementsBound<T>(xs: seq<T>, s: set<T>)
    requires forall x | x in s :: x in xs
    ensures |s| <= |xs|
    decreases |xs|
  {
    if xs == [] {
      assert s == {};
    } else {
      ElementsBound(xs[1..], s - {xs[0]});
    }
  }

  lemma BatchConserves(t: Totals, env: Env, offset: nat, users: seq<User>)
    requires Sound(env)
    ensures var u := AddBatch(t, env, offset, users);
            && u.requested == t.requested
            && u.matched + u.unmatched + u.failedBatchRecipients ==
               t.matched + t.unmatched + t.failedBatchRecipients + |users|
            && u.unmatched >= t.unmatched
            && u.sent + u.failed + u.pruned + u.skipped == t.sent + t.failed + t.pruned + t.skipped
               + (if env.lookup(offset, users).Some? then |env.lookup(offset, users).value| else 0)
  {
    if env.lookup(offset, users).Some? {
      var rows := env.lookup(offset, users).value;
      assert RowsOf(users, rows);
      ElementsBound(users, Users(rows));
      PlatformsPartition(rows);
      OutcomesPartition(OfWeb(rows), GroupOutcome(env, offset));
      OutcomesPartition(OfFcm(rows), GroupOutcome(env, offset));
    }
  }

  lemma {:induction false} BatchesConserve(t: Totals, env: Env, users: seq<User>, offset: nat)
    requires Sound(env) && offset <= |users| + MAX_USER_IDS
    ensures var u := AddBatches(t, env, users, offset);
            && u.requested == t.requested
            && u.matched + u.unmatched + u.failedBatchRecipients
               == t.matched + t.unmatched + t.failedBatchRecipients + (if offset < |users| then |users| - offset else 0)
            && u.unmatched >= t.unmatched
            && u.sent + u.failed + u.pruned + u.skipped ==
               t.sent + t.failed + t.pruned + t.skipped + Found(env, users, offset)
    decreases |users| + MAX_USER_IDS - offset
  {
    if offset < |users| {
      BatchConserves(t, env, offset, Slice(users, offset));
      BatchesConserve(AddBatch(t, env, offset, Slice(users, offset)), env, users, offset + MAX_USER_IDS);
    }
  }

  /** After an unaborted send every requested user and every subscription found is accounted for once. */
  lemma ConservationTheorem(env: Env, userIds: seq<User>)
    requires Sound(env)
    ensures var t := Delivered(env, userIds);
            && t.requested == |Unique(userIds)|
            && t.requested == t.matched + t.unmatched + t.failedBatchRecipients
            && t.unmatched >= 0
            && t.sent + t.failed + t.pruned + t.skipped == Found(env, Unique(userIds), 0)
  {
    BatchesConserve(NoTotals(|Unique(userIds)|), env, Unique(userIds), 0);
  }

  lemma {:induction false} UniqueTheorem<T>(xs: seq<T>)
    ensures Distinct(Unique(xs)) && forall x :: x in Unique(xs) <==> x in xs
    decreases |xs|
  {
    if xs != [] {
      var n := |xs| - 1;
      UniqueTheorem(xs[..n]);
      forall x
        ensures x in Unique(xs) <==> x in xs
      {
        assert x in xs <==> x in xs[..n] || x == xs[n];
      }
    }
  }
}
