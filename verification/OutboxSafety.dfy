/** What every interleaving of outbox workers and operators keeps. */
module OutboxSafety {
  import opened Common
  import opened Outbox

  /** The first provider call of a row. */
  predicate FirstCall(calls: seq<Call>, i: nat) {
    i < |calls| && forall h | 0 <= h < i :: calls[h].id != calls[i].id
  }

  /** A call agrees with the row it came from. */
  ghost predicate CallSound(sys: System, i: nat)
    requires i < |sys.calls|
  {
    var c := sys.calls[i];
    && c.id in sys.rows
    && var row := sys.rows[c.id];
       && 0 < c.token <= row.attempts
       && row.firstAt.Some? && c.at < row.firstAt.value + WINDOW
       && (FirstCall(sys.calls, i) ==> c.at == row.firstAt.value)
       && (row.status !in {Sent, Cancelled} ==> row.delivery == Some(c.body))
       && (row.delivery.Some? ==> row.delivery == Some(c.body))
  }

  ghost predicate HasCall(calls: seq<Call>, id: MailId) {
    exists i | 0 <= i < |calls| :: calls[i].id == id
  }

  ghost predicate CallsSound(sys: System) {
    forall i | 0 <= i < |sys.calls| :: CallSound(sys, i)
  }

  ghost predicate CallsOrdered(calls: seq<Call>) {
    forall i, j | 0 <= i < j < |calls| && calls[i].id == calls[j].id ::
      calls[i].token < calls[j].token && calls[i].body == calls[j].body
  }

  ghost predicate UncalledFresh(sys: System) {
    forall id | id in sys.rows && !HasCall(sys.calls, id) :: sys.rows[id].firstAt.None? && sys.rows[id].delivery.None?
  }

  ghost predicate Inv(sys: System) {
    CallsSound(sys) && CallsOrdered(sys.calls) && UncalledFresh(sys)
  }

  /** The moves a row can never make backwards. */
  ghost predicate RowAdvances(row: Row, after: Row) {
    && row.attempts <= after.attempts
    && (row.firstAt.Some? ==> after.firstAt == row.firstAt)
    && (row.status == Sent ==> after == row)
    && (row.status == Cancelled ==> after.status == Cancelled && after.attempts == row.attempts)
    && (row.status == NeedsReview ==> after.status in {NeedsReview, Cancelled} && after.attempts == row.attempts)
  }

  ghost predicate Advances(sys: System, after: System) {
    && sys.calls <= after.calls
    && forall id | id in sys.rows :: id in after.rows && RowAdvances(sys.rows[id], after.rows[id])
  }

  /** Transactions that rewrite one row and send nothing. */
  lemma RewriteKeeps(sys: System, id: MailId, row: Row)
    requires Inv(sys) && id in sys.rows && RowAdvances(sys.rows[id], row)
    requires row.firstAt == sys.rows[id].firstAt
    requires row.delivery == sys.rows[id].delivery || (row.delivery == None && row.status in {Sent, Cancelled})
    requires sys.rows[id].status in {Sent, Cancelled} ==> row.status in {Sent, Cancelled}
    ensures var after := sys.(rows := sys.rows[id := row]); Inv(after) && Advances(sys, after)
  {
    var after := sys.(rows := sys.rows[id := row]);
    forall i | 0 <= i < |after.calls|
      ensures CallSound(after, i)
    {
      assert CallSound(sys, i);
    }
  }

  /** The state after a claim that goes to the provider. */
  ghost function Leased(sys: System, id: MailId, body: Body, now: Time): System
    requires id in sys.rows
  {
    System(sys.rows[id := Lease(sys.rows[id], body, now)],
           sys.calls + [Call(id, sys.rows[id].attempts + 1, body, now)])
  }

  /** What a claim checks before it leases the row. */
  ghost predicate Claimable(sys: System, id: MailId, body: Body, now: Time) {
    && id in sys.rows && sys.rows[id].status in {Pending, Processing} && !Expired(sys.rows[id], now)
    && (sys.rows[id].delivery.Some? ==> sys.rows[id].delivery == Some(body))
  }

  lemma EarlierCallsSound(sys: System, id: MailId, body: Body, now: Time, i: nat)
    requires Inv(sys) && Claimable(sys, id, body, now) && i < |sys.calls|
    ensures CallSound(Leased(sys, id, body, now), i)
    ensures sys.calls[i].id == id ==> sys.calls[i].body == body && sys.calls[i].token <= sys.rows[id].attempts
  {
    assert CallSound(sys, i);
    var after := Leased(sys, id, body, now);
    assert after.calls[i] == sys.calls[i];
    if FirstCall(after.calls, i) {
      assert forall h | 0 <= h < i :: after.calls[h] == sys.calls[h];
    }
  }

  lemma NewCallSound(sys: System, id: MailId, body: Body, now: Time)
    requires Inv(sys) && Claimable(sys, id, body, now)
    ensures CallSound(Leased(sys, id, body, now), |sys.calls|)
  {
    var after := Leased(sys, id, body, now);
    var n := |sys.calls|;
    if FirstCall(after.calls, n) {
      assert forall h | 0 <= h < n :: after.calls[h] == sys.calls[h];
      assert !HasCall(sys.calls, id);
    }
  }

  lemma LeasedCallsSound(sys: System, id: MailId, body: Body, now: Time)
    requires Inv(sys) && Claimable(sys, id, body, now)
    ensures CallsSound(Leased(sys, id, body, now)) && CallsOrdered(Leased(sys, id, body, now).calls)
  {
    var after := Leased(sys, id, body, now);
    var n := |sys.calls|;
    forall i | 0 <= i < n
      ensures CallSound(after, i)
      ensures sys.calls[i].id == id ==> sys.calls[i].body == body && sys.calls[i].token <= sys.rows[id].attempts
    {
      EarlierCallsSound(sys, id, body, now, i);
    }
    NewCallSound(sys, id, body, now);
    assert forall i | 0 <= i < n :: after.calls[i] == sys.calls[i];
  }

  lemma LeasedUncalledFresh(sys: System, id: MailId, body: Body, now: Time)
    requires Inv(sys) && Claimable(sys, id, body, now)
    ensures UncalledFresh(Leased(sys, id, body, now))
  {
    var after := Leased(sys, id, body, now);
    forall j | j in after.rows && !HasCall(after.calls, j)
      ensures after.rows[j].firstAt.None? && after.rows[j].delivery.None?
    {
      assert after.calls[|sys.calls|].id == id;
      assert forall i | 0 <= i < |sys.calls| :: after.calls[i] == sys.calls[i];
      assert !HasCall(sys.calls, j);
    }
  }

  lemma LeaseKeeps(sys: System, id: MailId, body: Body, now: Time)
    requires Inv(sys) && Claimable(sys, id, body, now)
    ensures Inv(Leased(sys, id, body, now)) && Advances(sys, Leased(sys, id, body, now))
  {
    LeasedCallsSound(sys, id, body, now);
    LeasedUncalledFresh(sys, id, body, now);
  }

  lemma ClaimKeeps(sys: System, id: MailId, env: Env, now: Time)
    requires Inv(sys) && id in sys.rows && Due(sys.rows[id], now)
    ensures Inv(ClaimRow(sys, id, env, now)) && Advances(sys, ClaimRow(sys, id, env, now))
  {
    var (row, reply) := Claim(sys.rows[id], env, now);
    match reply
    case Send(token, body) =>
      LeaseKeeps(sys, id, body, now);
      assert ClaimRow(sys, id, env, now) == Leased(sys, id, body, now);
    case Skip =>
      RewriteKeeps(sys, id, row);
  }

  lemma StepKeeps(sys: System, e: Event)
    requires Inv(sys)
    ensures Inv(Step(sys, e)) && Advances(sys, Step(sys, e))
  {
    match e
    case Claimed(id, env, now) =>
      if id in sys.rows && Due(sys.rows[id], now) {
        ClaimKeeps(sys, id, env, now);
      }
    case Completed(k, outcome, now) =>
      if k < |sys.calls| {
        assert CallSound(sys, k);
        var c := sys.calls[k];
        RewriteKeeps(sys, c.id, Complete(sys.rows[c.id], c.token, outcome, now));
      }
    case RetriedBy(id, now) =>
      if id in sys.rows {
        RewriteKeeps(sys, id, Retry(sys.rows[id], now).0);
      }
    case AccountDeleted(id) =>
      if id in sys.rows {
        RewriteKeeps(sys, id, CancelUnsent(sys.rows[id]));
      }
  }

  lemma AdvancesTransitive(a: System, b: System, c: System)
    requires Advances(a, b) && Advances(b, c)
    ensures Advances(a, c)
  {
    forall id | id in a.rows
      ensures id in c.rows && RowAdvances(a.rows[id], c.rows[id])
    {
      assert id in b.rows && RowAdvances(a.rows[id], b.rows[id]);
    }
  }

  lemma {:induction false} RunKeeps(sys: System, es: seq<Event>)
    requires Inv(sys)
    ensures Inv(Run(sys, es)) && Advances(sys, Run(sys, es))
    decreases |es|
  {
    if es != [] {
      StepKeeps(sys, es[0]);
      RunKeeps(Step(sys, es[0]), es[1..]);
      AdvancesTransitive(sys, Step(sys, es[0]), Run(sys, es));
    }
  }

  // ---------------------------------------------------------------- theorems

  /**
   All provider calls of a row, whatever the workers and operators do: the same stored
   body, pairwise different tokens in order, and none claimed 23 hours after the first.
   */
  lemma ProviderCallTheorem(sys: System, es: seq<Event>, i: nat, j: nat)
    requires Initial(sys) && i < j < |Run(sys, es).calls|
    requires Run(sys, es).calls[i].id == Run(sys, es).calls[j].id
    ensures var calls := Run(sys, es).calls;
            && calls[i].body == calls[j].body
            && calls[i].token < calls[j].token
            && (FirstCall(calls, i) ==> calls[j].at < calls[i].at + WINDOW)
  {
    RunKeeps(sys, es);
    assert CallSound(Run(sys, es), i) && CallSound(Run(sys, es), j);
  }

  /** Once a row was claimed again, whatever the worker of the earlier claim still reports changes nothing. */
  lemma StaleCompletionTheorem(sys: System, es: seq<Event>, i: nat, j: nat, o: Outcome, now: Time)
    requires Initial(sys) && i < j < |Run(sys, es).calls|
    requires Run(sys, es).calls[i].id == Run(sys, es).calls[j].id
    ensures Step(Run(sys, es), Completed(i, o, now)) == Run(sys, es)
  {
    RunKeeps(sys, es);
    var s := Run(sys, es);
    assert CallSound(s, j);
    assert s.rows[s.calls[i].id := s.rows[s.calls[i].id]] == s.rows;
  }

  /**
   Final states: sent and cancelled for good, needs_review unless the account is deleted. No provider
   call follows any of them.
   */
  lemma AbsorbingTheorem(sys: System, es: seq<Event>, id: MailId)
    requires Inv(sys) && id in sys.rows
    ensures id in Run(sys, es).rows
    ensures var row, after := sys.rows[id], Run(sys, es).rows[id];
            && (row.status == Sent ==> after == row)
            && (row.status == Cancelled ==> after.status == Cancelled)
            && (row.status == NeedsReview ==> after.status in {NeedsReview, Cancelled})
            && (row.status in {Sent, Cancelled, NeedsReview} ==>
                  forall k | |sys.calls| <= k < |Run(sys, es).calls| :: Run(sys, es).calls[k].id != id)
  {
    RunKeeps(sys, es);
    var s := Run(sys, es);
    assert RowAdvances(sys.rows[id], s.rows[id]);
    if sys.rows[id].status in {Sent, Cancelled, NeedsReview} {
      NoLaterCall(sys, es, id);
    }
  }

  /** Only a claim of a due row reaches the provider. */
  lemma StepCalls(sys: System, e: Event)
    ensures var next := Step(sys, e);
            next.calls == sys.calls
            || (e.Claimed? && e.id in sys.rows && Due(sys.rows[e.id], e.now)
                && |next.calls| == |sys.calls| + 1 && next.calls[..|sys.calls|] == sys.calls
                && next.calls[|sys.calls|].id == e.id && next.calls[|sys.calls|].at == e.now)
  {
  }

  lemma StepSendsNothing(sys: System, e: Event, id: MailId)
    requires Inv(sys) && id in sys.rows && sys.rows[id].status in {Sent, Cancelled, NeedsReview}
    ensures var next := Step(sys, e);
            && id in next.rows && next.rows[id].status in {Sent, Cancelled, NeedsReview}
            && |sys.calls| <= |next.calls|
            && forall k | |sys.calls| <= k < |next.calls| :: next.calls[k].id != id
  {
    StepKeeps(sys, e);
    StepCalls(sys, e);
    assert RowAdvances(sys.rows[id], Step(sys, e).rows[id]);
  }

  lemma {:induction false} NoLaterCall(sys: System, es: seq<Event>, id: MailId)
    requires Inv(sys) && id in sys.rows && sys.rows[id].status in {Sent, Cancelled, NeedsReview}
    ensures forall k | |sys.calls| <= k < |Run(sys, es).calls| :: Run(sys, es).calls[k].id != id
    decreases |es|
  {
    if es != [] {
      var next := Step(sys, es[0]);
      StepKeeps(sys, es[0]);
      StepSendsNothing(sys, es[0], id);
      RunKeeps(next, es[1..]);
      NoLaterCall(next, es[1..], id);
      CallsPersist(next, Run(sys, es), |sys.calls|, id);
    }
  }

  lemma CallsPersist(mid: System, end: System, from: nat, id: MailId)
    requires mid.calls <= end.calls && from <= |mid.calls|
    requires forall k | from <= k < |mid.calls| :: mid.calls[k].id != id
    requires forall k | |mid.calls| <= k < |end.calls| :: end.calls[k].id != id
    ensures forall k | from <= k < |end.calls| :: end.calls[k].id != id
  {
    forall k | from <= k < |mid.calls|
      ensures end.calls[k] == mid.calls[k]
    {
    }
  }

  lemma PowersOfTwo()
    ensures Pow2(0) == 1 && Pow2(1) == 2 && Pow2(2) == 4 && Pow2(3) == 8
    ensures Pow2(4) == 16 && Pow2(5) == 32 && Pow2(6) == 64 && Pow2(7) == 128
  {
    assert Pow2(4) == 2 * Pow2(3);
    assert Pow2(5) == 2 * Pow2(4);
    assert Pow2(6) == 2 * Pow2(5);
    assert Pow2(7) == 2 * Pow2(6);
  }

  /** Backoff starts at 30 seconds, doubles, never decreases and never exceeds an hour. */
  lemma BackoffBounds(a: nat, b: nat)
    requires a <= b
    ensures 30 <= Backoff(a) <= Backoff(b) <= 3600
    ensures Backoff(0) == 30 && (1 <= b ==> 60 <= Backoff(b))
    ensures 7 <= b ==> Backoff(b) == 3600
  {
    PowersOfTwo();
  }
}
