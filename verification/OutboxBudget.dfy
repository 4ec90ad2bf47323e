/** How often a row can reach the provider when no operator retries it. */
module OutboxBudget {
  import opened Common
  import opened Outbox
  import OutboxSafety

  const BUDGET: nat := 1381

  predicate Automatic(e: Event) {
    !e.RetriedBy?
  }

  /** The least time between the first claim and the n-th: 30 seconds, then a minute each. */
  function Elapsed(n: nat): Time {
    if n <= 1 then 0 else 30 * SECOND + (n - 2) * 60 * SECOND
  }

  /** `last` is when the row was claimed for the last time; the row keeps every later claim a gap away. */
  ghost predicate Paced(row: Row, last: Time) {
    && (row.attempts == 0 ==> row.firstAt.None? && row.status != Processing)
    && (row.attempts > 0 ==>
          && row.firstAt.Some?
          && row.firstAt.value + Elapsed(row.attempts) <= last < row.firstAt.value + WINDOW
          && (row.status == Pending ==> row.firstAt.value + Elapsed(row.attempts + 1) <= row.nextAt)
          && (row.status == Processing ==> row.lockedUntil == Some(last + LEASE)))
  }

  /** Every row is paced by its own last claim, and the newest call of each row is that claim. */
  ghost predicate AllPaced(sys: System, last: map<MailId, Time>) {
    && (forall id | id in sys.rows :: id in last && Paced(sys.rows[id], last[id]))
    && (forall i | 0 <= i < |sys.calls| && sys.calls[i].id in sys.rows
                   && sys.calls[i].token == sys.rows[sys.calls[i].id].attempts ::
                      sys.calls[i].at == last[sys.calls[i].id])
    && (forall i | 0 <= i < |sys.calls| ::
          sys.calls[i].id in sys.rows && 0 < sys.calls[i].token <= sys.rows[sys.calls[i].id].attempts)
  }

  lemma PacedIsBounded(row: Row, last: Time)
    requires Paced(row, last)
    ensures row.attempts <= BUDGET
  {
  }

  lemma BackoffIsPaced(token: nat)
    requires token > 0
    ensures Elapsed(token) + Backoff(token - 1) * SECOND >= Elapsed(token + 1)
  {
    assert Pow2(0) == 1 && Pow2(1) == 2;
    BackoffAtLeast(token - 1);
  }

  lemma BackoffAtLeast(a: nat)
    ensures Backoff(a) >= if a == 0 then 30 else 60
  {
    PowPositive(Min(a, 7));
  }

  lemma {:induction false} PowPositive(n: nat)
    ensures Pow2(n) >= 1 && (n > 0 ==> Pow2(n) >= 2)
  {
    if n > 0 {
      PowPositive(n - 1);
    }
  }

  lemma ClaimPaced(row: Row, env: Env, now: Time, last: Time)
    requires Paced(row, last) && Due(row, now)
    ensures var (after, reply) := Claim(row, env, now);
            Paced(after, if reply.Send? then now else last)
  {
  }

  lemma CompletePaced(row: Row, token: nat, o: Outcome, now: Time, last: Time)
    requires Paced(row, last) && token > 0 && (token == row.attempts ==> last <= now)
    ensures Paced(Complete(row, token, o, now), last)
  {
    BackoffIsPaced(token);
  }

  lemma RewritePaced(sys: System, last: map<MailId, Time>, id: MailId, row: Row)
    requires AllPaced(sys, last) && id in sys.rows && Paced(row, last[id]) && row.attempts == sys.rows[id].attempts
    ensures AllPaced(sys.(rows := sys.rows[id := row]), last)
  {
  }

  lemma LeasePaced(sys: System, last: map<MailId, Time>, id: MailId, row: Row, call: Call)
    requires AllPaced(sys, last) && id in sys.rows && Paced(row, call.at) && row.attempts == sys.rows[id].attempts + 1
    requires call.id == id && call.token == row.attempts
    ensures AllPaced(System(sys.rows[id := row], sys.calls + [call]), last[id := call.at])
  {
  }

  lemma ClaimStepPaced(sys: System, id: MailId, env: Env, now: Time, last: map<MailId, Time>)
      returns (last': map<MailId, Time>)
    requires AllPaced(sys, last) && id in sys.rows && Due(sys.rows[id], now)
    ensures AllPaced(ClaimRow(sys, id, env, now), last')
  {
    var (row, reply) := Claim(sys.rows[id], env, now);
    ClaimPaced(sys.rows[id], env, now, last[id]);
    match reply
    case Send(token, body) =>
      last' := last[id := now];
      LeasePaced(sys, last, id, row, Call(id, token, body, now));
    case Skip =>
      last' := last;
      RewritePaced(sys, last, id, row);
  }

  lemma StepPaced(sys: System, e: Event, last: map<MailId, Time>) returns (last': map<MailId, Time>)
    requires AllPaced(sys, last) && Automatic(e)
    ensures AllPaced(Step(sys, e), last')
  {
    last' := last;
    match e
    case Claimed(id, env, now) =>
      if id in sys.rows && Due(sys.rows[id], now) {
        last' := ClaimStepPaced(sys, id, env, now, last);
      }
    case Completed(k, outcome, now) =>
      if k < |sys.calls| && sys.calls[k].at <= now {
        var c := sys.calls[k];
        CompletePaced(sys.rows[c.id], c.token, outcome, now, last[c.id]);
        RewritePaced(sys, last, c.id, Complete(sys.rows[c.id], c.token, outcome, now));
      }
    case AccountDeleted(id) =>
      if id in sys.rows {
        RewritePaced(sys, last, id, CancelUnsent(sys.rows[id]));
      }
  }

  lemma {:induction false} RunPaced(sys: System, es: seq<Event>, last: map<MailId, Time>)
      returns (last': map<MailId, Time>)
    requires AllPaced(sys, last) && forall i | 0 <= i < |es| :: Automatic(es[i])
    ensures AllPaced(Run(sys, es), last')
    decreases |es|
  {
    if es == [] {
      last' := last;
    } else {
      var mid := StepPaced(sys, es[0], last);
      last' := RunPaced(Step(sys, es[0]), es[1..], mid);
    }
  }

  /** Provider calls of one row. */
  function CallCount(calls: seq<Call>, id: MailId): nat {
    if calls == [] then 0
    else CallCount(calls[..|calls| - 1], id) + if calls[|calls| - 1].id == id then 1 else 0
  }

  ghost predicate Counted(sys: System) {
    forall id | id in sys.rows :: CallCount(sys.calls, id) == sys.rows[id].attempts
  }

  lemma StepCounted(sys: System, e: Event)
    requires Counted(sys)
    ensures Counted(Step(sys, e))
  {
    if e.Claimed? && e.id in sys.rows && Due(sys.rows[e.id], e.now) {
      var (row, reply) := Claim(sys.rows[e.id], e.env, e.now);
      if reply.Send? {
        assert (sys.calls + [Call(e.id, reply.token, reply.body, e.now)])[..|sys.calls|] == sys.calls;
      }
    }
  }

  lemma {:induction false} RunCounted(sys: System, es: seq<Event>)
    requires Counted(sys)
    ensures Counted(Run(sys, es))
    decreases |es|
  {
    if es != [] {
      StepCounted(sys, es[0]);
      RunCounted(Step(sys, es[0]), es[1..]);
    }
  }

  /**
   Without operator retries no row reaches the provider more than 1381 times, whatever
   crashes, answers and clock readings occur.
   */
  lemma BudgetTheorem(sys: System, es: seq<Event>, id: MailId)
    requires Initial(sys) && id in sys.rows
    requires forall i | 0 <= i < |es| :: Automatic(es[i])
    ensures id in Run(sys, es).rows
    ensures CallCount(Run(sys, es).calls, id) == Run(sys, es).rows[id].attempts <= BUDGET
  {
    OutboxSafety.RunKeeps(sys, es);
    RunCounted(sys, es);
    var last := RunPaced(sys, es, map i | i in sys.rows :: 0);
    PacedIsBounded(Run(sys, es).rows[id], last[id]);
  }

  // ---------------------------------------------------------------- the bound is reached

  const READY := Env(true, true, Message(1))

  /** Claims at 0 s and 30 s, then one at every lease expiry. */
  function Busiest(n: nat): seq<Event> {
    if n == 0 then []
    else if n == 1 then [Claimed(0, READY, 0), Completed(0, Refused(None), 0)]
    else Busiest(n - 1) + [Claimed(0, READY, Elapsed(n))]
  }

  lemma {:induction false} RunAppends(sys: System, es: seq<Event>, fs: seq<Event>)
    ensures Run(sys, es + fs) == Run(Run(sys, es), fs)
    decreases |es|
  {
    if es == [] {
      assert es + fs == fs;
    } else {
      assert (es + fs)[1..] == es[1..] + fs;
      RunAppends(Step(sys, es[0]), es[1..], fs);
    }
  }

  function OneMail(): System {
    System(map[0 := Queued(0, false)], [])
  }

  lemma FirstClaimFails()
    ensures var s := Run(OneMail(), Busiest(1));
            && 0 in s.rows && s.rows[0] == Row(0, false, Pending, 1, 30 * SECOND, Some(0), None, Some(1))
            && |s.calls| == 1
  {
    var s1 := Step(OneMail(), Busiest(1)[0]);
    assert s1.rows[0] == Row(0, false, Processing, 1, 0, Some(0), Some(LEASE), Some(1));
    assert s1.calls == [Call(0, 1, 1, 0)];
    assert Pow2(0) == 1;
    assert Run(OneMail(), Busiest(1)) == Run(s1, Busiest(1)[1..]);
    assert Busiest(1)[1..] == [Completed(0, Refused(None), 0)];
    assert Run(s1, Busiest(1)[1..]) == Step(s1, Completed(0, Refused(None), 0));
  }

  /** 1381 claims do happen: the budget cannot be lowered. */
  lemma {:induction false} BudgetIsTight(n: nat)
    requires 1 <= n <= BUDGET
    ensures var s := Run(OneMail(), Busiest(n));
            && |s.calls| == n && 0 in s.rows
            && s.rows[0].attempts == n && s.rows[0].firstAt == Some(0) && s.rows[0].delivery == Some(1)
            && !s.rows[0].accountBound
            && (n > 1 ==> s.rows[0].status == Processing && s.rows[0].lockedUntil == Some(Elapsed(n) + LEASE))
    ensures forall i | 0 <= i < |Busiest(n)| :: Automatic(Busiest(n)[i])
  {
    FirstClaimFails();
    if n > 1 {
      BudgetIsTight(n - 1);
      var claim := Claimed(0, READY, Elapsed(n));
      RunAppends(OneMail(), Busiest(n - 1), [claim]);
      var s := Run(OneMail(), Busiest(n - 1));
      assert Run(s, [claim]) == Step(s, claim);
      assert Due(s.rows[0], Elapsed(n)) && !Expired(s.rows[0], Elapsed(n));
    }
  }
}
