/** What becomes of each subscription of a send, and that the counters count exactly that. */
module PushAnswers {
  import opened Common
  import opened PushDelivery

  /** The ends a subscription can come to. */
  datatype End = Delivered | Deleted | PassedOver | Lost

  /**
   The end of one subscription. A group without credentials is passed over. Otherwise the provider is
   asked about a complete row with a known web host or, for mobile, an access token: what it accepts is
   delivered, what it calls gone is deleted if that works, and everything else is lost.
   */
  function EndOf(env: Env, offset: nat, s: Subscription): End {
    var group, ready := if s.platform == Web then env.vapid else env.fcm,
                        s.complete && if s.platform == Web then s.trusted else env.token(offset);
    if !group then PassedOver
    else if ready && env.reply(offset, s) == Accepted then Delivered
    else if ready && env.reply(offset, s) == Gone && env.prunes(offset) then Deleted
    else Lost
  }

  function Number(env: Env, offset: nat, rows: seq<Subscription>, end: End): nat {
    if rows == [] then 0
    else (if EndOf(env, offset, rows[0]) == end then 1 else 0) + Number(env, offset, rows[1..], end)
  }

  // ---------------------------------------------------------------- one batch

  lemma NumberOfCons(env: Env, offset: nat, s: Subscription, rows: seq<Subscription>, end: End)
    ensures Number(env, offset, [s] + rows, end) ==
            (if EndOf(env, offset, s) == end then 1 else 0) + Number(env, offset, rows, end)
  {
    assert ([s] + rows)[1..] == rows;
  }

  lemma {:induction false} NumberSplits(env: Env, offset: nat, rows: seq<Subscription>, end: End)
    ensures Number(env, offset, rows, end) ==
            Number(env, offset, OfWeb(rows), end) + Number(env, offset, OfFcm(rows), end)
    decreases |rows|
  {
    if rows != [] {
      NumberSplits(env, offset, rows[1..], end);
      NumberOfCons(env, offset, rows[0], OfWeb(rows[1..]), end);
      NumberOfCons(env, offset, rows[0], OfFcm(rows[1..]), end);
      assert [] + OfWeb(rows[1..]) == OfWeb(rows[1..]) && [] + OfFcm(rows[1..]) == OfFcm(rows[1..]);
    }
  }

  lemma {:induction false} Platforms(rows: seq<Subscription>)
    ensures forall s | s in OfWeb(rows) :: s.platform == Web
    ensures forall s | s in OfFcm(rows) :: s.platform != Web
    decreases |rows|
  {
    if rows != [] {
      Platforms(rows[1..]);
    }
  }

  function FateOf(env: Env, offset: nat, web: bool): Fate {
    if web then WebFate(env) else FcmFate(env, offset)
  }

  /** What a group adds to the four counters. */
  function Counted(env: Env, offset: nat, share: Share, end: End): nat {
    match end
    case Delivered => share.sent
    case Deleted => if env.prunes(offset) then share.expired else 0
    case PassedOver => share.skipped
    case Lost => share.failed + if env.prunes(offset) then 0 else share.expired
  }

  /** The share of one row. */
  function ShareOf(env: Env, offset: nat, s: Subscription, fate: Fate): Share {
    GroupShare([s], fate, GroupOutcome(env, offset))
  }

  lemma CountOfOne(s: Subscription, outcome: Subscription -> Outcome)
    ensures forall o :: Count([s], outcome, o) == if outcome(s) == o then 1 else 0
  {
    assert [s][1..] == [];
    assert forall o :: Count([s], outcome, o) == (if outcome(s) == o then 1 else 0) + Count([s][1..], outcome, o);
  }

  lemma RowCounts(env: Env, offset: nat, s: Subscription, web: bool, end: End)
    requires s.platform == Web <==> web
    ensures Counted(env, offset, ShareOf(env, offset, s, FateOf(env, offset, web)), end) ==
            if EndOf(env, offset, s) == end then 1 else 0
  {
    CountOfOne(s, GroupOutcome(env, offset));
    assert GroupOutcome(env, offset)(s) == OutcomeOf(s, env.reply(offset, s));
    match FateOf(env, offset, web)
    case Skipped =>
    case AllFailed =>
    case Attempted =>
  }

  lemma ShareAdds(env: Env, offset: nat, rows: seq<Subscription>, fate: Fate, end: End)
    requires rows != []
    ensures Counted(env, offset, GroupShare(rows, fate, GroupOutcome(env, offset)), end) ==
            Counted(env, offset, ShareOf(env, offset, rows[0], fate), end)
            + Counted(env, offset, GroupShare(rows[1..], fate, GroupOutcome(env, offset)), end)
  {
    CountOfOne(rows[0], GroupOutcome(env, offset));
  }

  lemma {:induction false} GroupCounts(env: Env, offset: nat, rows: seq<Subscription>, web: bool, end: End)
    requires forall s | s in rows :: s.platform == Web <==> web
    ensures Counted(env, offset, GroupShare(rows, FateOf(env, offset, web), GroupOutcome(env, offset)), end) ==
            Number(env, offset, rows, end)
    decreases |rows|
  {
    if rows != [] {
      assert rows[0] in rows;
      assert forall s | s in rows[1..] :: s in rows;
      ShareAdds(env, offset, rows, FateOf(env, offset, web), end);
      RowCounts(env, offset, rows[0], web, end);
      GroupCounts(env, offset, rows[1..], web, end);
    }
  }

  function Counter(t: Totals, end: End): nat {
    match end
    case Delivered => t.sent
    case Deleted => t.pruned
    case PassedOver => t.skipped
    case Lost => t.failed
  }

  lemma BatchCounts(t: Totals, env: Env, offset: nat, users: seq<User>, rows: seq<Subscription>, end: End)
    requires env.lookup(offset, users) == Some(rows)
    ensures Counter(AddBatch(t, env, offset, users), end) == Counter(t, end) + Number(env, offset, rows, end)
  {
    Platforms(rows);
    GroupCounts(env, offset, OfWeb(rows), true, end);
    GroupCounts(env, offset, OfFcm(rows), false, end);
    NumberSplits(env, offset, rows, end);
  }

  // ---------------------------------------------------------------- the whole send

  /** The next thousand users, or as many as are left. */
  function Batch(users: seq<User>, offset: nat): seq<User>
    requires offset < |users|
  {
    if |users| - offset <= 1000 then users[offset..] else users[offset..offset + 1000]
  }

  lemma SliceIsBatch(users: seq<User>, offset: nat)
    requires offset < |users|
    ensures Slice(users, offset) == Batch(users, offset)
  {
  }

  /** How many of the subscriptions that the batches found come to this end. */
  function Across(env: Env, users: seq<User>, offset: nat, end: End): nat
    decreases |users| - offset
  {
    if offset >= |users| then 0
    else
      var rows := env.lookup(offset, Batch(users, offset));
      (if rows.Some? then Number(env, offset, rows.value, end) else 0)
      + Across(env, users, offset + 1000, end)
  }

  lemma {:induction false} BatchesCount(t: Totals, env: Env, users: seq<User>, offset: nat, end: End)
    ensures Counter(AddBatches(t, env, users, offset), end) == Counter(t, end) + Across(env, users, offset, end)
    decreases |users| - offset
  {
    if offset < |users| {
      var slice := Slice(users, offset);
      SliceIsBatch(users, offset);
      if env.lookup(offset, slice).Some? {
        BatchCounts(t, env, offset, slice, env.lookup(offset, slice).value, end);
      }
      BatchesCount(AddBatch(t, env, offset, slice), env, users, offset + MAX_USER_IDS, end);
    }
  }

  /** What the lookups of the batches say: users with a subscription, failed lookups, and the users these asked for. */
  datatype Lookups = Lookups(matched: nat, failed: nat, unknown: nat)

  function LookedUp(env: Env, users: seq<User>, offset: nat): Lookups
    decreases |users| - offset
  {
    if offset >= |users| then Lookups(0, 0, 0)
    else
      var slice, rest := Batch(users, offset), LookedUp(env, users, offset + 1000);
      match env.lookup(offset, slice)
      case None => Lookups(rest.matched, rest.failed + 1, rest.unknown + |slice|)
      case Some(rows) => Lookups(rest.matched + |set s | s in rows :: s.user|, rest.failed, rest.unknown)
  }

  lemma {:induction false} BatchesLookUp(t: Totals, env: Env, users: seq<User>, offset: nat)
    ensures var u, found := AddBatches(t, env, users, offset), LookedUp(env, users, offset);
            && u.matched == t.matched + found.matched
            && u.failedBatches == t.failedBatches + found.failed
            && u.failedBatchRecipients == t.failedBatchRecipients + found.unknown
    decreases |users| - offset
  {
    if offset < |users| {
      SliceIsBatch(users, offset);
      BatchesLookUp(AddBatch(t, env, offset, Slice(users, offset)), env, users, offset + MAX_USER_IDS);
    }
  }

  /**
   Each of the four counters of a send is the number of found subscriptions that came to its end, and
   the recipients are counted by what the lookups said.
   */
  lemma DeliveryTheorem(env: Env, userIds: seq<User>)
    ensures var t, users := PushDelivery.Delivered(env, userIds), Unique(userIds);
            && t.sent == Across(env, users, 0, Delivered)
            && t.pruned == Across(env, users, 0, Deleted)
            && t.skipped == Across(env, users, 0, PassedOver)
            && t.failed == Across(env, users, 0, Lost)
            && Lookups(t.matched, t.failedBatches, t.failedBatchRecipients) == LookedUp(env, users, 0)
  {
    var start, users := NoTotals(|Unique(userIds)|), Unique(userIds);
    BatchesCount(start, env, users, 0, Delivered);
    BatchesCount(start, env, users, 0, Deleted);
    BatchesCount(start, env, users, 0, PassedOver);
    BatchesCount(start, env, users, 0, Lost);
    BatchesLookUp(start, env, users, 0);
  }
}
