/** One exclusive run of the notification queue: the counters of its three channels and of its marker. */
module NotificationRun {
  import opened Common
  import opened WorkerPool
  import opened PushDelivery
  import Queue = NotificationQueue

  type EventId = nat
  type Kind = nat
  type Key = (EventId, Kind)

  /** A listed queue entry with the columns delivery needs. */
  datatype Item = Item(entry: Queue.Entry, event: EventId, user: User, kind: Kind)

  /** What hydration found; a profile without an email address counts as missing. */
  datatype Hydrated = Hydrated(events: set<EventId>, mailable: set<User>, noEmail: set<User>, noPush: set<User>)

  datatype MailReply = MailSent | MailDev | MailRefused | MailThrew

  predicate Deliverable(h: Hydrated, item: Item) {
    item.event in h.events && item.user in h.mailable
  }

  function IsDeliverable(h: Hydrated): Item -> bool {
    (item: Item) => Deliverable(h, item)
  }

  function CountWhere<T>(xs: seq<T>, p: T -> bool): (n: nat)
    ensures n <= |xs|
  {
    if xs == [] then 0 else CountWhere(xs[..|xs| - 1], p) + (if p(xs[|xs| - 1]) then 1 else 0)
  }

  function Where<T>(xs: seq<T>, p: T -> bool): (ys: seq<T>)
    ensures |ys| <= |xs|
  {
    if xs == [] then []
    else Where(xs[..|xs| - 1], p) + (if p(xs[|xs| - 1]) then [xs[|xs| - 1]] else [])
  }

  lemma PrefixStep<T>(xs: seq<T>, n: nat, p: T -> bool)
    requires n < |xs|
    ensures CountWhere(xs[..n + 1], p) == CountWhere(xs[..n], p) + (if p(xs[n]) then 1 else 0)
    ensures Where(xs[..n + 1], p) == Where(xs[..n], p) + (if p(xs[n]) then [xs[n]] else [])
  {
    assert xs[..n + 1][..n] == xs[..n];
  }

  lemma {:induction false} CountSplits<T(!new)>(xs: seq<T>, p: T -> bool, q: T -> bool, r: T -> bool)
    requires forall x :: (p(x) && !q(x) && !r(x)) || (!p(x) && q(x) && !r(x)) || (!p(x) && !q(x) && r(x))
    ensures CountWhere(xs, p) + CountWhere(xs, q) + CountWhere(xs, r) == |xs|
    decreases |xs|
  {
    if xs != [] {
      CountSplits(xs[..|xs| - 1], p, q, r);
    }
  }

  // ---------------------------------------------------------------- what each channel adds up to

  function MailedTo(h: Hydrated, mail: Item -> MailReply): Item -> bool {
    (item: Item) => item.user !in h.noEmail && mail(item) == MailSent
  }

  function MailSkipped(h: Hydrated, mail: Item -> MailReply): Item -> bool {
    (item: Item) => item.user in h.noEmail || mail(item) == MailDev
  }

  function MailFailed(h: Hydrated, mail: Item -> MailReply): Item -> bool {
    (item: Item) => item.user !in h.noEmail && (mail(item) == MailRefused || mail(item) == MailThrew)
  }

  function WantsPush(h: Hydrated): Item -> bool {
    (item: Item) => item.user !in h.noPush
  }

  function KeyOf(item: Item): Key {
    (item.event, item.kind)
  }

  /** The keys of the push groups in order of appearance, and the users of one group. */
  function Keys(items: seq<Item>): seq<Key> {
    if items == [] then []
    else
      var rest := Keys(items[..|items| - 1]);
      var key := KeyOf(items[|items| - 1]);
      if key in rest then rest else rest + [key]
  }

  function GroupUsers(items: seq<Item>, key: Key): seq<User> {
    if items == [] then []
    else
      var rest, last := GroupUsers(items[..|items| - 1], key), items[|items| - 1];
      if KeyOf(last) == key && last.user !in rest then rest + [last.user] else rest
  }

  function Recipients(items: seq<Item>, keys: seq<Key>): nat {
    if keys == [] then 0
    else Recipients(items, keys[..|keys| - 1]) + |GroupUsers(items, keys[|keys| - 1])|
  }

  lemma {:induction false} GroupUsersDistinct(items: seq<Item>, key: Key)
    ensures Unique(GroupUsers(items, key)) == GroupUsers(items, key)
    ensures forall user :: user in GroupUsers(items, key) <==>
            exists item | item in items :: item.event == key.0 && item.kind == key.1 && item.user == user
    decreases |items|
  {
    if items != [] {
      var n := |items| - 1;
      var rest, last := GroupUsers(items[..n], key), items[n];
      GroupUsersDistinct(items[..n], key);
      assert items == items[..n] + [last];
      assert (rest + [last.user])[..|rest|] == rest;
      forall user
        ensures user in GroupUsers(items, key) <==>
                exists item | item in items :: item.event == key.0 && item.kind == key.1 && item.user == user
      {
        if exists item | item in items[..n] :: item.event == key.0 && item.kind == key.1 && item.user == user {
          var item :| item in items[..n] && item.event == key.0 && item.kind == key.1 && item.user == user;
          assert item in items;
        }
      }
    }
  }

  /**
   There is a group for an event and a kind of change exactly when some item has both, and no two groups
   share them.
   */
  lemma {:induction false} KeysTheorem(items: seq<Item>)
    ensures forall event, kind: nat ::
              (event, kind) in Keys(items) <==> exists item | item in items :: item.event == event && item.kind == kind
    ensures forall i, j | 0 <= i < j < |Keys(items)| :: Keys(items)[i] != Keys(items)[j]
    decreases |items|
  {
    if items != [] {
      var n := |items| - 1;
      KeysTheorem(items[..n]);
      assert items == items[..n] + [items[n]];
      forall event: nat, kind: nat
        ensures (event, kind) in Keys(items) <==>
                exists item | item in items :: item.event == event && item.kind == kind
      {
        if exists item | item in items[..n] :: item.event == event && item.kind == kind {
          var item :| item in items[..n] && item.event == event && item.kind == kind;
          assert item in items;
        }
      }
    }
  }

  // ---------------------------------------------------------------- counting entries

  lemma {:induction false} WhereMembers<T(!new)>(xs: seq<T>, p: T -> bool)
    ensures forall x :: x in Where(xs, p) <==> x in xs && p(x)
    decreases |xs|
  {
    if xs != [] {
      var n := |xs| - 1;
      WhereMembers(xs[..n], p);
      assert xs == xs[..n] + [xs[n]];
    }
  }

  /** Who is pushed to: the addressees of the entries found who have not opted out. */
  lemma WantedTheorem(items: seq<Item>, h: Hydrated)
    ensures var wanted := Where(Where(items, IsDeliverable(h)), WantsPush(h));
            forall x :: x in wanted <==>
              x in items && x.event in h.events && x.user in h.mailable && x.user !in h.noPush
  {
    WhereMembers(items, IsDeliverable(h));
    WhereMembers(Where(items, IsDeliverable(h)), WantsPush(h));
  }

  /** The positions whose element satisfies p. */
  function Positions<T>(xs: seq<T>, p: T -> bool): set<int> {
    set i | 0 <= i < |xs| && p(xs[i])
  }

  lemma {:induction false} CountIsSize<T(!new)>(xs: seq<T>, p: T -> bool)
    ensures CountWhere(xs, p) == |Positions(xs, p)|
    decreases |xs|
  {
    if xs == [] {
      assert Positions(xs, p) == {};
    } else {
      var n := |xs| - 1;
      CountIsSize(xs[..n], p);
      assert Positions(xs, p) == if p(xs[n]) then Positions(xs[..n], p) + {n} else Positions(xs[..n], p);
    }
  }

  lemma {:induction false} CountOfWhere<T(!new)>(xs: seq<T>, p: T -> bool, q: T -> bool, both: T -> bool)
    requires forall x :: both(x) <==> p(x) && q(x)
    ensures CountWhere(Where(xs, p), q) == CountWhere(xs, both)
    decreases |xs|
  {
    if xs != [] {
      var n := |xs| - 1;
      CountOfWhere(xs[..n], p, q, both);
      var rest := Where(xs[..n], p);
      assert (rest + [xs[n]])[..|rest|] == rest && rest + [] == rest;
    }
  }

  /** The entries whose event and addressee were found, as positions in the list. */
  function Found(items: seq<Item>, h: Hydrated): set<int> {
    set i | 0 <= i < |items| && items[i].event in h.events && items[i].user in h.mailable
  }

  /** The entries that are mailed with this answer: found, and their addressee wants email. */
  function Mailed(items: seq<Item>, h: Hydrated, mail: Item -> MailReply, replies: set<MailReply>): set<int> {
    set i | 0 <= i < |items| && items[i].event in h.events && items[i].user in h.mailable
            && items[i].user !in h.noEmail && mail(items[i]) in replies
  }

  /** The entries whose in-app row was stored. */
  function Shown(items: seq<Item>, h: Hydrated, bulkWorks: bool, rowWorks: Item -> bool): set<int> {
    set i | 0 <= i < |items| && items[i].event in h.events && items[i].user in h.mailable
            && (bulkWorks || rowWorks(items[i]))
  }

  lemma FoundCounted(items: seq<Item>, h: Hydrated, q: Item -> bool, both: Item -> bool)
    requires forall x :: both(x) <==> Deliverable(h, x) && q(x)
    ensures CountWhere(Where(items, IsDeliverable(h)), q) == |Positions(items, both)|
  {
    CountOfWhere(items, IsDeliverable(h), q, both);
    CountIsSize(items, both);
  }

  lemma MailCounted(items: seq<Item>, h: Hydrated, mail: Item -> MailReply)
    ensures var prepared := Where(items, IsDeliverable(h));
            && CountWhere(prepared, MailedTo(h, mail)) == |Mailed(items, h, mail, {MailSent})|
            && CountWhere(prepared, MailFailed(h, mail)) == |Mailed(items, h, mail, {MailRefused, MailThrew})|
  {
    var sent := (item: Item) => Deliverable(h, item) && MailedTo(h, mail)(item);
    var failed := (item: Item) => Deliverable(h, item) && MailFailed(h, mail)(item);
    FoundCounted(items, h, MailedTo(h, mail), sent);
    FoundCounted(items, h, MailFailed(h, mail), failed);
    assert Mailed(items, h, mail, {MailSent}) == Positions(items, sent);
    assert Mailed(items, h, mail, {MailRefused, MailThrew}) == Positions(items, failed);
  }

  lemma FoundSize(items: seq<Item>, h: Hydrated)
    ensures |Where(items, IsDeliverable(h))| == |Found(items, h)|
  {
    var any := (item: Item) => true;
    FoundCounted(items, h, any, IsDeliverable(h));
    CountAll(Where(items, IsDeliverable(h)), any);
    assert Found(items, h) == Positions(items, IsDeliverable(h));
  }

  lemma {:induction false} CountAll<T(!new)>(xs: seq<T>, p: T -> bool)
    requires forall x :: p(x)
    ensures CountWhere(xs, p) == |xs|
    decreases |xs|
  {
    if xs != [] {
      CountAll(xs[..|xs| - 1], p);
    }
  }

  lemma ShownCounted(items: seq<Item>, h: Hydrated, bulkWorks: bool, rowWorks: Item -> bool)
    ensures var prepared := Where(items, IsDeliverable(h));
            (if bulkWorks then |prepared| else CountWhere(prepared, rowWorks)) == |Shown(items, h, bulkWorks, rowWorks)|
  {
    if bulkWorks {
      FoundSize(items, h);
      assert Shown(items, h, bulkWorks, rowWorks) == Found(items, h);
    } else {
      var shown := (item: Item) => Deliverable(h, item) && rowWorks(item);
      FoundCounted(items, h, rowWorks, shown);
      assert Shown(items, h, bulkWorks, rowWorks) == Positions(items, shown);
    }
  }

  // ---------------------------------------------------------------- what the pushes add up to

  /** The eight counters of the push channel, with the matched recipients. */
  datatype PushSum = PushSum(
    sent: int, failed: int, skipped: int, pruned: int,
    matched: int, unmatched: int, failedBatches: int, failedBatchRecipients: int)

  function Plus(a: PushSum, b: PushSum): PushSum {
    PushSum(a.sent + b.sent, a.failed + b.failed, a.skipped + b.skipped, a.pruned + b.pruned,
            a.matched + b.matched, a.unmatched + b.unmatched, a.failedBatches + b.failedBatches,
            a.failedBatchRecipients + b.failedBatchRecipients)
  }

  /** One group: the counters of its send, or one failed batch if the send throws. */
  function GroupSum(users: seq<User>, answer: Option<Env>): PushSum {
    match answer
    case None => PushSum(0, 0, 0, 0, 0, 0, 1, |users|)
    case Some(env) => SumOf(Delivered(env, users))
  }

  function Skip(sum: PushSum, n: int): PushSum {
    sum.(skipped := sum.skipped + n)
  }

  /** Nothing but n skipped. */
  function Skipped(n: int): PushSum {
    PushSum(0, 0, n, 0, 0, 0, 0, 0)
  }

  function SumOf(t: Totals): PushSum {
    PushSum(t.sent, t.failed, t.skipped, t.pruned, t.matched, t.unmatched, t.failedBatches, t.failedBatchRecipients)
  }

  function GroupsSum(items: seq<Item>, keys: seq<Key>, answer: Key -> Option<Env>): PushSum {
    if keys == [] then PushSum(0, 0, 0, 0, 0, 0, 0, 0)
    else
      var last := keys[|keys| - 1];
      Plus(GroupsSum(items, keys[..|keys| - 1], answer), GroupSum(GroupUsers(items, last), answer(last)))
  }

  ghost predicate SoundAnswers(answer: Key -> Option<Env>) {
    forall key :: answer(key).Some? ==> Sound(answer(key).value)
  }

  /** The recipients a sum accounts for. */
  function Handled(sum: PushSum): int {
    sum.matched + sum.unmatched + sum.failedBatchRecipients
  }

  lemma HandledAdds(a: PushSum, b: PushSum)
    ensures Handled(Plus(a, b)) == Handled(a) + Handled(b)
  {
  }

  lemma PlusIsAssociative(a: PushSum, b: PushSum, c: PushSum)
    ensures Plus(Plus(a, b), c) == Plus(a, Plus(b, c))
  {
  }

  lemma DeliveredHandled(env: Env, users: seq<User>)
    requires Sound(env)
    ensures Handled(SumOf(Delivered(env, users))) == |Unique(users)|
  {
    ConservationTheorem(env, users);
  }

  lemma GroupHandled(users: seq<User>, answer: Option<Env>)
    requires |Unique(users)| == |users| && (answer.Some? ==> Sound(answer.value))
    ensures Handled(GroupSum(users, answer)) == |users|
  {
    if answer.Some? {
      DeliveredHandled(answer.value, users);
    }
  }

  /** Every recipient of every group is matched, unmatched or in a failed batch. */
  lemma {:induction false} GroupsConserve(items: seq<Item>, keys: seq<Key>, answer: Key -> Option<Env>)
    requires SoundAnswers(answer)
    ensures Handled(GroupsSum(items, keys, answer)) == Recipients(items, keys)
    decreases |keys|
  {
    if keys != [] {
      var last := keys[|keys| - 1];
      GroupsConserve(items, keys[..|keys| - 1], answer);
      GroupUsersDistinct(items, last);
      GroupHandled(GroupUsers(items, last), answer(last));
      HandledAdds(GroupsSum(items, keys[..|keys| - 1], answer), GroupSum(GroupUsers(items, last), answer(last)));
    }
  }

  // ---------------------------------------------------------------- the run

  class Channel {
    var sent: nat
    var failed: nat
    var skipped: nat

    constructor ()
      ensures sent == 0 && failed == 0 && skipped == 0
    {
      sent, failed, skipped := 0, 0, 0;
    }
  }

  class PushChannel {
    var counts: Channel
    var pruned: nat
    var unmatchedRecipients: int
    var failedBatches: nat
    var failedBatchRecipients: nat
    ghost var matched: nat

    constructor ()
      ensures fresh(counts) && counts.sent == 0 && counts.failed == 0 && counts.skipped == 0
      ensures pruned == 0 && unmatchedRecipients == 0 && failedBatches == 0 && failedBatchRecipients == 0 &&
              matched == 0
    {
      counts := new Channel();
      pruned, unmatchedRecipients, failedBatches, failedBatchRecipients, matched := 0, 0, 0, 0, 0;
    }
  }

  /** Emails one by one: each prepared item is sent, failed or skipped. */
  method SendEmails(prepared: seq<Item>, h: Hydrated, mail: Item -> MailReply, counts: Channel)
    modifies counts
    ensures counts.sent == old(counts.sent) + CountWhere(prepared, MailedTo(h, mail))
    ensures counts.failed == old(counts.failed) + CountWhere(prepared, MailFailed(h, mail))
    ensures counts.skipped == old(counts.skipped) + CountWhere(prepared, MailSkipped(h, mail))
  {
    for n := 0 to |prepared|
      invariant counts.sent == old(counts.sent) + CountWhere(prepared[..n], MailedTo(h, mail))
      invariant counts.failed == old(counts.failed) + CountWhere(prepared[..n], MailFailed(h, mail))
      invariant counts.skipped == old(counts.skipped) + CountWhere(prepared[..n], MailSkipped(h, mail))
    {
      var item := prepared[n];
      PrefixStep(prepared, n, MailedTo(h, mail));
      PrefixStep(prepared, n, MailFailed(h, mail));
      PrefixStep(prepared, n, MailSkipped(h, mail));
      if item.user in h.noEmail {
        counts.skipped := counts.skipped + 1;
      } else {
        match mail(item)
        case MailSent => counts.sent := counts.sent + 1;
        case MailDev => counts.skipped := counts.skipped + 1;
        case MailRefused => counts.failed := counts.failed + 1;
        case MailThrew => counts.failed := counts.failed + 1;
      }
    }
    assert prepared[..|prepared|] == prepared;
  }

  /** In-app rows in bulk, and row by row when the bulk insert fails. */
  method InsertInApp(prepared: seq<Item>, bulkWorks: bool, rowWorks: Item -> bool, counts: Channel)
    modifies counts
    ensures counts.sent == old(counts.sent) + (if bulkWorks then |prepared| else CountWhere(prepared, rowWorks))
    ensures counts.sent + counts.failed == old(counts.sent) + old(counts.failed) + |prepared|
    ensures counts.skipped == old(counts.skipped)
  {
    if |prepared| == 0 {
      return;
    }
    if bulkWorks {
      counts.sent := counts.sent + |prepared|;
      return;
    }
    for n := 0 to |prepared|
      invariant counts.sent == old(counts.sent) + CountWhere(prepared[..n], rowWorks)
      invariant counts.sent + counts.failed == old(counts.sent) + old(counts.failed) + n
      invariant counts.skipped == old(counts.skipped)
    {
      PrefixStep(prepared, n, rowWorks);
      if rowWorks(prepared[n]) {
        counts.sent := counts.sent + 1;
      } else {
        counts.failed := counts.failed + 1;
      }
    }
    assert prepared[..|prepared|] == prepared;
  }

  ghost predicate Grouped(wanted: seq<Item>, keys: seq<Key>, groups: map<Key, seq<User>>) {
    && keys == Keys(wanted)
    && (forall key :: key in groups <==> key in keys)
    && (forall key | key in groups :: groups[key] == GroupUsers(wanted, key))
    && (forall key | key !in groups :: GroupUsers(wanted, key) == [])
  }

  /** One opted-in item joins the group of its key, or opens it. */
  method AddToGroups(item: Item, keys: seq<Key>, groups: map<Key, seq<User>>, ghost wanted: seq<Item>)
    returns (keys': seq<Key>, groups': map<Key, seq<User>>)
    requires Grouped(wanted, keys, groups)
    ensures Grouped(wanted + [item], keys', groups')
  {
    assert (wanted + [item])[..|wanted|] == wanted;
    keys', groups' := keys, groups;
    var key := KeyOf(item);
    if key in groups {
      if item.user !in groups[key] {
        groups' := groups[key := groups[key] + [item.user]];
      }
    } else {
      groups' := groups[key := [item.user]];
      keys' := keys + [key];
    }
  }

  /** The push groups: one per event and kind of change, each user once, in order of appearance. */
  method BuildGroups(prepared: seq<Item>, h: Hydrated, counts: Channel)
      returns (keys: seq<Key>, groups: map<Key, seq<User>>)
    modifies counts
    ensures Grouped(Where(prepared, WantsPush(h)), keys, groups)
    ensures counts.skipped == old(counts.skipped) + |prepared| - |Where(prepared, WantsPush(h))|
    ensures counts.sent == old(counts.sent) && counts.failed == old(counts.failed)
  {
    keys, groups := [], map[];
    ghost var wanted: seq<Item> := [];
    for n := 0 to |prepared|
      invariant wanted == Where(prepared[..n], WantsPush(h))
      invariant Grouped(wanted, keys, groups)
      invariant counts.skipped == old(counts.skipped) + n - |wanted|
      invariant counts.sent == old(counts.sent) && counts.failed == old(counts.failed)
    {
      PrefixStep(prepared, n, WantsPush(h));
      if prepared[n].user in h.noPush {
        counts.skipped := counts.skipped + 1;
      } else {
        keys, groups := AddToGroups(prepared[n], keys, groups, wanted);
        wanted := wanted + [prepared[n]];
      }
    }
    assert prepared[..|prepared|] == prepared;
  }

  ghost function Sums(push: PushChannel): PushSum
    reads push, push.counts
  {
    PushSum(push.counts.sent, push.counts.failed, push.counts.skipped, push.pruned,
            push.matched, push.unmatchedRecipients, push.failedBatches, push.failedBatchRecipients)
  }

  /** One group; a send that throws counts as a failed batch. */
  method SendGroup(users: seq<User>, answer: Option<Env>, push: PushChannel)
    modifies push, push.counts
    ensures push.counts == old(push.counts)
    ensures Sums(push) == Plus(old(Sums(push)), GroupSum(users, answer))
  {
    if answer.None? {
      push.failedBatches := push.failedBatches + 1;
      push.failedBatchRecipients := push.failedBatchRecipients + |users|;
    } else {
      AddResponse(push, Delivered(answer.value, users));
    }
  }

  /** Pushes group by group: the channel gains what the sends of the groups add up to. */
  method SendPushes(prepared: seq<Item>, h: Hydrated, answer: Key -> Option<Env>, push: PushChannel,
                    ghost before: PushSum)
    requires before == Sums(push)
    modifies push, push.counts
    ensures push.counts == old(push.counts)
    ensures var wanted := Where(prepared, WantsPush(h));
            Sums(push) == Plus(Skip(before, |prepared| - |wanted|),
                               GroupsSum(wanted, Keys(wanted), answer))
  {
    var keys, groups := BuildGroups(prepared, h, push.counts);
    assert Sums(push) == Skip(before, |prepared| - |Where(prepared, WantsPush(h))|);
    SendGroups(Where(prepared, WantsPush(h)), keys, groups, answer, push);
  }

  /** The groups one after the other. */
  method SendGroups(ghost wanted: seq<Item>, keys: seq<Key>, groups: map<Key, seq<User>>, answer: Key -> Option<Env>,
                    push: PushChannel)
    requires Grouped(wanted, keys, groups)
    modifies push, push.counts
    ensures push.counts == old(push.counts)
    ensures Sums(push) == Plus(old(Sums(push)), GroupsSum(wanted, keys, answer))
  {
    ghost var start := Sums(push);
    for n := 0 to |keys|
      invariant push.counts == old(push.counts)
      invariant Sums(push) == Plus(start, GroupsSum(wanted, keys[..n], answer))
    {
      ghost var sum := GroupsSum(wanted, keys[..n], answer);
      assert keys[..n + 1][..n] == keys[..n] && keys[n] in keys;
      SendGroup(groups[keys[n]], answer(keys[n]), push);
      PlusIsAssociative(start, sum, GroupSum(GroupUsers(wanted, keys[n]), answer(keys[n])));
    }
    assert keys[..|keys|] == keys;
  }

  /** Adding one send's result to the channel. */
  method AddResponse(push: PushChannel, t: Totals)
    modifies push, push.counts
    ensures push.counts == old(push.counts)
    ensures push.counts.sent == old(push.counts.sent) + t.sent &&
            push.counts.failed == old(push.counts.failed) + t.failed
    ensures push.counts.skipped == old(push.counts.skipped) + t.skipped && push.pruned == old(push.pruned) + t.pruned
    ensures push.matched == old(push.matched) + t.matched
    ensures push.unmatchedRecipients == old(push.unmatchedRecipients) + t.unmatched
    ensures push.failedBatches == old(push.failedBatches) + t.failedBatches
    ensures push.failedBatchRecipients == old(push.failedBatchRecipients) + t.failedBatchRecipients
  {
    push.counts.sent := push.counts.sent + t.sent;
    push.counts.failed := push.counts.failed + t.failed;
    push.counts.skipped := push.counts.skipped + t.skipped;
    push.pruned := push.pruned + t.pruned;
    push.matched := push.matched + t.matched;
    push.unmatchedRecipients := push.unmatchedRecipients + t.unmatched;
    push.failedBatches := push.failedBatches + t.failedBatches;
    push.failedBatchRecipients := push.failedBatchRecipients + t.failedBatchRecipients;
  }

  /** Items without their event or without a mailable profile are skipped in all three channels. */
  method Prepare(items: seq<Item>, h: Hydrated, email: Channel, inApp: Channel, push: Channel)
      returns (prepared: seq<Item>)
    requires email != inApp && email != push && inApp != push
    modifies email, inApp, push
    ensures prepared == Where(items, IsDeliverable(h))
    ensures email.skipped == old(email.skipped) + |items| - |prepared|
    ensures inApp.skipped == old(inApp.skipped) + |items| - |prepared|
    ensures push.skipped == old(push.skipped) + |items| - |prepared|
    ensures email.sent == old(email.sent) && email.failed == old(email.failed)
    ensures inApp.sent == old(inApp.sent) && inApp.failed == old(inApp.failed)
    ensures push.sent == old(push.sent) && push.failed == old(push.failed)
  {
    prepared := [];
    for n := 0 to |items|
      invariant prepared == Where(items[..n], IsDeliverable(h)) && |prepared| <= n
      invariant email.skipped == old(email.skipped) + n - |prepared|
      invariant inApp.skipped == old(inApp.skipped) + n - |prepared|
      invariant push.skipped == old(push.skipped) + n - |prepared|
      invariant email.sent == old(email.sent) && email.failed == old(email.failed)
      invariant inApp.sent == old(inApp.sent) && inApp.failed == old(inApp.failed)
      invariant push.sent == old(push.sent) && push.failed == old(push.failed)
    {
      PrefixStep(items, n, IsDeliverable(h));
      if items[n].event !in h.events || items[n].user !in h.mailable {
        email.skipped := email.skipped + 1;
        inApp.skipped := inApp.skipped + 1;
        push.skipped := push.skipped + 1;
      } else {
        prepared := prepared + [items[n]];
      }
    }
    assert items[..|items|] == items;
  }

  /** The email counters as the entries determine them. */
  ghost predicate MailRight(items: seq<Item>, h: Hydrated, mail: Item -> MailReply, sent: nat, failed: nat,
                            skipped: nat) {
    && sent == |Mailed(items, h, mail, {MailSent})|
    && failed == |Mailed(items, h, mail, {MailRefused, MailThrew})|
    && sent + failed + skipped == |items|
  }

  /** The in-app counters: every entry found is stored or failed, and the others are skipped. */
  ghost predicate ShownRight(items: seq<Item>, h: Hydrated, bulkWorks: bool, rowWorks: Item -> bool,
                             sent: nat, failed: nat, skipped: nat) {
    && sent == |Shown(items, h, bulkWorks, rowWorks)|
    && skipped == |items| - |Found(items, h)|
    && sent + failed + skipped == |items|
  }

  /** The push counters: skipped entries, and what the sends of the groups add up to. */
  ghost predicate PushRight(items: seq<Item>, h: Hydrated, answer: Key -> Option<Env>, sums: PushSum) {
    var prepared := Where(items, IsDeliverable(h));
    PreparedRight(items, h, answer, prepared, Where(prepared, WantsPush(h)), sums)
  }

  /** Skipped are the entries that were not found and those whose addressee opted out. */
  ghost predicate PreparedRight(items: seq<Item>, h: Hydrated, answer: Key -> Option<Env>, prepared: seq<Item>,
                                wanted: seq<Item>, sums: PushSum) {
    sums == Plus(Skip(Skipped(|items| - |prepared|), |prepared| - |wanted|), GroupsSum(wanted, Keys(wanted), answer))
  }

  /** All recipients of all groups. */
  ghost function AllRecipients(items: seq<Item>, h: Hydrated): nat {
    var wanted := Where(Where(items, IsDeliverable(h)), WantsPush(h));
    Recipients(wanted, Keys(wanted))
  }

  lemma MailIsRight(items: seq<Item>, h: Hydrated, mail: Item -> MailReply, prepared: seq<Item>)
    requires prepared == Where(items, IsDeliverable(h))
    ensures MailRight(items, h, mail,
                      CountWhere(prepared, MailedTo(h, mail)), CountWhere(prepared, MailFailed(h, mail)),
                      |items| - |prepared| + CountWhere(prepared, MailSkipped(h, mail)))
  {
    CountSplits(prepared, MailedTo(h, mail), MailFailed(h, mail), MailSkipped(h, mail));
    MailCounted(items, h, mail);
  }

  lemma ShownIsRight(items: seq<Item>, h: Hydrated, bulkWorks: bool, rowWorks: Item -> bool, prepared: seq<Item>,
                     sent: nat, failed: nat)
    requires prepared == Where(items, IsDeliverable(h))
    requires sent == if bulkWorks then |prepared| else CountWhere(prepared, rowWorks)
    requires sent + failed == |prepared|
    ensures ShownRight(items, h, bulkWorks, rowWorks, sent, failed, |items| - |prepared|)
  {
    ShownCounted(items, h, bulkWorks, rowWorks);
    FoundSize(items, h);
  }

  /** Such counters account for every recipient of every group: matched, unmatched or in a failed batch. */
  lemma PushConserves(items: seq<Item>, h: Hydrated, answer: Key -> Option<Env>, sums: PushSum)
    requires SoundAnswers(answer) && PushRight(items, h, answer, sums)
    ensures sums.matched + sums.unmatched + sums.failedBatchRecipients == AllRecipients(items, h)
  {
    var wanted := Where(Where(items, IsDeliverable(h)), WantsPush(h));
    GroupsConserve(wanted, Keys(wanted), answer);
    var prepared := Where(items, IsDeliverable(h));
    HandledAdds(Skip(Skipped(|items| - |prepared|), |prepared| - |wanted|), GroupsSum(wanted, Keys(wanted), answer));
  }

  /** The three channels. */
  method DeliverAll(items: seq<Item>, h: Hydrated, mail: Item -> MailReply, bulkWorks: bool, rowWorks: Item -> bool,
                    answer: Key -> Option<Env>)
    returns (email: Channel, inApp: Channel, push: PushChannel)
    ensures MailRight(items, h, mail, email.sent, email.failed, email.skipped)
    ensures ShownRight(items, h, bulkWorks, rowWorks, inApp.sent, inApp.failed, inApp.skipped)
    ensures PushRight(items, h, answer, Sums(push))
  {
    email := new Channel();
    inApp := new Channel();
    push := new PushChannel();
    var prepared := Prepare(items, h, email, inApp, push.counts);
    SendEmails(prepared, h, mail, email);
    MailIsRight(items, h, mail, prepared);
    assert MailRight(items, h, mail, email.sent, email.failed, email.skipped);
    InsertInApp(prepared, bulkWorks, rowWorks, inApp);
    ShownIsRight(items, h, bulkWorks, rowWorks, prepared, inApp.sent, inApp.failed);
    assert ShownRight(items, h, bulkWorks, rowWorks, inApp.sent, inApp.failed, inApp.skipped);
    PushPrepared(items, h, answer, prepared, push);
  }

  /** The push channel, in which only the entries that were not found are counted so far. */
  method PushPrepared(ghost items: seq<Item>, h: Hydrated, answer: Key -> Option<Env>, prepared: seq<Item>,
                      push: PushChannel)
    requires prepared == Where(items, IsDeliverable(h))
    requires Sums(push) == Skipped(|items| - |prepared|)
    modifies push, push.counts
    ensures push.counts == old(push.counts) && PushRight(items, h, answer, Sums(push))
  {
    SendPushes(prepared, h, answer, push, Skipped(|items| - |prepared|));
    assert PreparedRight(items, h, answer, prepared, Where(prepared, WantsPush(h)), Sums(push));
  }

  /**
   processExclusiveRun after listing: the counters of each channel are those the entries, the
   preferences and the answers determine; processed and refreshed add up to the entries, processed
   being those the marker found in their listed version.
   */
  method ProcessEntries(items: seq<Item>, h: Hydrated, mail: Item -> MailReply, bulkWorks: bool, rowWorks: Item -> bool,
                        answer: Key -> Option<Env>, queue: map<Queue.Id, Queue.Row>, markerWorks: bool)
    returns (email: Channel, inApp: Channel, push: PushChannel, marked: Option<(nat, nat)>)
    requires SoundAnswers(answer)
    ensures MailRight(items, h, mail, email.sent, email.failed, email.skipped)
    ensures ShownRight(items, h, bulkWorks, rowWorks, inApp.sent, inApp.failed, inApp.skipped)
    ensures PushRight(items, h, answer, Sums(push))
    ensures push.matched + push.unmatchedRecipients + push.failedBatchRecipients == AllRecipients(items, h)
    ensures marked.Some? <==> markerWorks
    ensures marked.Some? ==> marked.value.0 + marked.value.1 == |items|
    ensures marked.Some? ==> marked.value.0 == |Queue.MarkedIds(queue, Entries(items))|
  {
    email, inApp, push := DeliverAll(items, h, mail, bulkWorks, rowWorks, answer);
    PushConserves(items, h, answer, Sums(push));
    if markerWorks {
      Queue.MarkCountTheorem(queue, Entries(items));
      var processed := |Queue.MarkedIds(queue, Entries(items))|;
      marked := Some((processed, |items| - processed));
    } else {
      marked := None;
    }
  }

  function Entries(items: seq<Item>): (es: seq<Queue.Entry>)
    ensures |es| == |items| && forall i | 0 <= i < |es| :: es[i] == items[i].entry
  {
    seq(|items|, i requires 0 <= i < |items| => items[i].entry)
  }
}
