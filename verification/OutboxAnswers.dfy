/**
 What each step of the outbox does to its row, in the row's own fields: who is sent mail, when, with
 which body, and what becomes of the rest.
 */
module OutboxAnswers {
  import opened Common
  import opened Outbox
  import opened OutboxSafety

  const HOURS_23: Time := 23 * 3600 * 1_000_000

  // ---------------------------------------------------------------- claims

  /** Waiting and its time has come, or leased and the lease has run out. */
  predicate Ready(row: Row, now: Time) {
    || (row.status == Pending && row.nextAt <= now)
    || (row.status == Processing && row.lockedUntil.Some? && row.lockedUntil.value <= now)
  }

  /** Its first attempt is 23 hours ago. */
  predicate TooOld(row: Row, now: Time) {
    row.firstAt.Some? && row.firstAt.value + HOURS_23 <= now
  }

  /** The row is mail to an account that is gone. */
  predicate Orphaned(row: Row, env: Env) {
    row.accountBound && !env.active
  }

  /** What would be sent: the stored body, else the one rendered now. */
  function BodyFor(row: Row, env: Env): Option<Body> {
    if row.delivery.Some? then row.delivery
    else match env.rendered
      case Message(body) => Some(body)
      case NoRecipient => None
      case Unrenderable => None
  }

  /** Everything the provider call depends on. */
  predicate Sends(row: Row, env: Env, now: Time) {
    Ready(row, now) && !TooOld(row, now) && !Orphaned(row, env) && env.configured && BodyFor(row, env).Some?
  }

  /** A claim calls the provider exactly when everything speaks for it, with the right body under a new token. */
  lemma ClaimCalls(sys: System, id: MailId, env: Env, now: Time)
    requires id in sys.rows
    ensures var after, row := Step(sys, Claimed(id, env, now)), sys.rows[id];
            && (after.calls != sys.calls <==> Sends(row, env, now))
            && (Sends(row, env, now) ==>
                  && after.calls == sys.calls + [Call(id, row.attempts + 1, BodyFor(row, env).value, now)]
                  && after.rows[id] == Row(row.createdAt, row.accountBound, Processing, row.attempts + 1, row.nextAt,
                                           Some(OrElse(row.firstAt, now)), Some(now + 60 * SECOND), BodyFor(row, env)))
            && after.rows == sys.rows[id := after.rows[id]]
  {
  }

  /** What becomes of a row whose claim calls nobody: review, cancellation, a minute's wait, or a failure to render. */
  lemma ClaimSkips(sys: System, id: MailId, env: Env, now: Time)
    requires id in sys.rows && !Sends(sys.rows[id], env, now)
    ensures var after, row := Step(sys, Claimed(id, env, now)).rows[id], sys.rows[id];
            && (!Ready(row, now) ==> after == row)
            && (Ready(row, now) ==>
                  after == if TooOld(row, now) then row.(status := NeedsReview, lockedUntil := None)
                           else if Orphaned(row, env)
                           then row.(status := Cancelled, delivery := None, lockedUntil := None)
                           else row.(status :=
                             if env.configured && env.rendered == Unrenderable then Failed else Pending,
                                     nextAt := now + 60 * SECOND, lockedUntil := None))
  {
  }

  // ---------------------------------------------------------------- completions

  /** The statuses of a client's error, except those that a later attempt can cure. */
  predicate Hopeless(o: Outcome) {
    match o
    case Accepted => false
    case Refused(None) => false
    case Refused(Some(status)) => 400 <= status <= 499 && status !in {409, 429}
  }

  /** A completion lands only under the claim's token; it settles the row or schedules the next attempt. */
  lemma CompletionRows(sys: System, k: nat, o: Outcome, now: Time)
    requires k < |sys.calls| && sys.calls[k].at <= now && sys.calls[k].id in sys.rows && sys.calls[k].token > 0
    ensures var c := sys.calls[k];
            var after, row := Step(sys, Completed(k, o, now)), sys.rows[c.id];
            && after.calls == sys.calls && after.rows == sys.rows[c.id := after.rows[c.id]]
            && after.rows[c.id] ==
                 if row.status != Processing || row.attempts != c.token then row
                 else if o == Accepted then row.(status := Sent, delivery := None, lockedUntil := None)
                 else row.(status := if Hopeless(o) then Failed else Pending,
                           nextAt := now + Backoff(c.token - 1) * SECOND, lockedUntil := None)
  {
  }

  /** The delay doubles from half a minute to an hour. */
  lemma BackoffDoubles(attempts: nat)
    ensures Backoff(0) == 30
    ensures Backoff(attempts + 1) == if 2 * Backoff(attempts) < 3600 then 2 * Backoff(attempts) else 3600
  {
    BackoffBounds(0, attempts);
    if attempts >= 7 {
      BackoffBounds(attempts, attempts + 1);
    } else {
      assert Pow2(attempts + 1) == 2 * Pow2(attempts);
    }
  }

  // ---------------------------------------------------------------- operators and deletions

  /** A retry reopens waiting and failed mail, unless it is too old, and touches nothing else. */
  lemma RetryRows(sys: System, id: MailId, now: Time)
    requires id in sys.rows
    ensures var after, row := Step(sys, RetriedBy(id, now)), sys.rows[id];
            && after.calls == sys.calls && after.rows == sys.rows[id := after.rows[id]]
            && after.rows[id] ==
                 if row.status != Pending && row.status != Failed then row
                 else if TooOld(row, now) then row.(status := NeedsReview)
                 else row.(status := Pending, nextAt := now, lockedUntil := None)
  {
  }

  /** An account's deletion cancels what was not sent. */
  lemma DeletionRows(sys: System, id: MailId)
    requires id in sys.rows
    ensures var after, row := Step(sys, AccountDeleted(id)), sys.rows[id];
            && after.calls == sys.calls && after.rows == sys.rows[id := after.rows[id]]
            && after.rows[id] == if row.status == Sent then row
                                 else row.(status := Cancelled, delivery := None, lockedUntil := None)
  {
  }

  // ---------------------------------------------------------------- runs

  /** Event i of the run is the claim that made this call, and everything spoke for it. */
  ghost predicate Made(sys: System, es: seq<Event>, i: nat, c: Call) {
    && i < |es| && es[i].Claimed? && es[i].id == c.id && es[i].now == c.at
    && var before := Run(sys, es[..i]);
       && c.id in before.rows && Sends(before.rows[c.id], es[i].env, c.at)
       && BodyFor(before.rows[c.id], es[i].env) == Some(c.body) && c.token == before.rows[c.id].attempts + 1
  }

  lemma StepMakes(sys: System, e: Event)
    ensures sys.calls <= Step(sys, e).calls
    ensures Step(sys, e).calls != sys.calls ==>
              && e.Claimed? && e.id in sys.rows && Sends(sys.rows[e.id], e.env, e.now)
              && Step(sys, e).calls ==
                   sys.calls + [Call(e.id, sys.rows[e.id].attempts + 1, BodyFor(sys.rows[e.id], e.env).value, e.now)]
  {
    StepCalls(sys, e);
    if e.Claimed? && e.id in sys.rows {
      ClaimCalls(sys, e.id, e.env, e.now);
    }
  }

  lemma {:induction false} CallsGrow(sys: System, es: seq<Event>)
    ensures sys.calls <= Run(sys, es).calls
    decreases |es|
  {
    if es != [] {
      StepMakes(sys, es[0]);
      CallsGrow(Step(sys, es[0]), es[1..]);
    }
  }

  /** Every provider call of a run was made by one of its claims, when everything spoke for it. */
  lemma {:induction false} CallOrigin(sys: System, es: seq<Event>, k: nat) returns (i: nat)
    requires |sys.calls| <= k < |Run(sys, es).calls|
    ensures Made(sys, es, i, Run(sys, es).calls[k])
    decreases |es|
  {
    var next := Step(sys, es[0]);
    StepMakes(sys, es[0]);
    CallsGrow(next, es[1..]);
    if k < |next.calls| {
      i := 0;
      assert es[..0] == [];
    } else {
      var j := CallOrigin(next, es[1..], k);
      i := j + 1;
      assert es[..i][1..] == es[1..][..j];
    }
  }

  /** No step adds or drops a row, or changes what kind of mail it is. */
  lemma RowsKeepKind(sys: System, e: Event)
    ensures Step(sys, e).rows.Keys == sys.rows.Keys
    ensures forall id | id in sys.rows :: Step(sys, e).rows[id].accountBound == sys.rows[id].accountBound
  {
  }

  lemma {:induction false} RunKeepsKind(sys: System, es: seq<Event>)
    ensures Run(sys, es).rows.Keys == sys.rows.Keys
    ensures forall id | id in sys.rows :: Run(sys, es).rows[id].accountBound == sys.rows[id].accountBound
    decreases |es|
  {
    if es != [] {
      RowsKeepKind(sys, es[0]);
      RunKeepsKind(Step(sys, es[0]), es[1..]);
    }
  }

  /**
   No mail about an account goes out once the account is gone: every provider call for such a row
   was made by a claim that found the account active and the provider configured.
   */
  lemma RecipientTheorem(sys: System, es: seq<Event>, k: nat) returns (i: nat)
    requires Initial(sys) && k < |Run(sys, es).calls|
    ensures var c := Run(sys, es).calls[k];
            && i < |es| && es[i].Claimed? && es[i].id == c.id && es[i].now == c.at && es[i].env.configured
            && c.id in sys.rows && (sys.rows[c.id].accountBound ==> es[i].env.active)
  {
    i := CallOrigin(sys, es, k);
    RunKeepsKind(sys, es[..i]);
  }

  /**
   All calls of a row carry the message rendered for the first of them: it alone was made from a
   rendering, and every later one from the stored body.
   */
  lemma RenderedOnce(sys: System, es: seq<Event>, k: nat, f: nat) returns (i: nat)
    requires Initial(sys) && f <= k < |Run(sys, es).calls|
    requires FirstCall(Run(sys, es).calls, f) && Run(sys, es).calls[f].id == Run(sys, es).calls[k].id
    ensures i < |es| && es[i].Claimed? && es[i].now == Run(sys, es).calls[f].at
    ensures es[i].env.rendered == Message(Run(sys, es).calls[k].body)
  {
    i := FirstRendered(sys, es, f);
    if f < k {
      ProviderCallTheorem(sys, es, f, k);
    }
  }

  lemma {:induction false} FirstRendered(sys: System, es: seq<Event>, f: nat) returns (i: nat)
    requires Inv(sys) && |sys.calls| <= f < |Run(sys, es).calls| && FirstCall(Run(sys, es).calls, f)
    ensures i < |es| && es[i].Claimed? && es[i].now == Run(sys, es).calls[f].at
    ensures es[i].env.rendered == Message(Run(sys, es).calls[f].body)
    decreases |es|
  {
    var next := Step(sys, es[0]);
    StepMakes(sys, es[0]);
    StepKeeps(sys, es[0]);
    CallsGrow(next, es[1..]);
    if f < |next.calls| {
      i := 0;
      assert !HasCall(sys.calls, next.calls[f].id);
    } else {
      var j := FirstRendered(next, es[1..], f);
      i := j + 1;
    }
  }
}
