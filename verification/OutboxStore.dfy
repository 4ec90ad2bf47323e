/** The outbox worker as it runs: pick a due row, claim it, call the provider, complete it. */
module OutboxStore {
  import opened Common
  import opened Outbox
  import OutboxBudget

  /** ORDER BY created_at, id. */
  predicate Before(rows: map<MailId, Row>, a: MailId, b: MailId)
    requires a in rows && b in rows
  {
    rows[a].createdAt < rows[b].createdAt || (rows[a].createdAt == rows[b].createdAt && a < b)
  }

  /**
   One turn of the job loop: what it reads, the rows other transactions hold locked, what the
   provider answers, and whether the job is stopped after the claim.
   */
  datatype Turn = Turn(env: Env, now: Time, locked: set<MailId>, outcome: Outcome, stopped: bool, doneAt: Time)

  datatype Claimed = Nothing | Skipped(id: MailId) | ToSend(id: MailId, token: nat, body: Body)

  class Store {
    var rows: map<MailId, Row>
    /** Every provider call so far. */
    var calls: seq<Call>

    function State(): System
      reads this
    {
      System(rows, calls)
    }

    /** A due row that FOR UPDATE SKIP LOCKED does not pass over. */
    predicate Available(id: MailId, now: Time, locked: set<MailId>)
      reads this
    {
      id in rows && id !in locked && Due(rows[id], now)
    }

    /** The first by creation of the due rows that no other transaction holds. */
    method PickDue(now: Time, locked: set<MailId>) returns (pick: Option<MailId>)
      ensures pick.None? ==> forall id | id in rows && Due(rows[id], now) :: id in locked
      ensures pick.Some? ==> Available(pick.value, now, locked)
      ensures pick.Some? ==> forall id | Available(id, now, locked) && id != pick.value ::
                rows[pick.value].createdAt < rows[id].createdAt
                || (rows[pick.value].createdAt == rows[id].createdAt && pick.value < id)
    {
      var todo := rows.Keys;
      pick := None;
      while todo != {}
        invariant todo <= rows.Keys
        invariant pick.None? ==> forall id | Available(id, now, locked) :: id in todo
        invariant pick.Some? ==> Available(pick.value, now, locked)
        invariant pick.Some? ==> forall id | Available(id, now, locked) && id !in todo && id != pick.value ::
                    Before(rows, pick.value, id)
        decreases |todo|
      {
        var id :| id in todo;
        if Available(id, now, locked) && (pick.None? || Before(rows, id, pick.value)) {
          pick := Some(id);
        }
        todo := todo - {id};
      }
      if pick.None? {
        forall id | id in rows && Due(rows[id], now)
          ensures id in locked
        {
          assert !Available(id, now, locked);
        }
      }
    }

    /** The claim transaction. It never touches a row that another transaction holds. */
    method ClaimNext(env: Env, now: Time, locked: set<MailId>) returns (reply: Claimed, ghost event: seq<Event>)
      modifies this
      ensures |event| <= 1 && State() == Run(old(State()), event)
      ensures reply.Nothing? ==> event == [] && forall id | id in rows && Due(rows[id], now) :: id in locked
      ensures !reply.Nothing? ==> event == [Event.Claimed(reply.id, env, now)] && old(Available(reply.id, now, locked))
      ensures rows.Keys == old(rows.Keys) && forall id | id in locked && id in rows :: rows[id] == old(rows[id])
      ensures if reply.ToSend?
              then calls == old(calls) + [Call(reply.id, reply.token, reply.body, now)] && reply.token > 0
              else calls == old(calls)
      ensures reply.ToSend? ==> reply.id in rows
    {
      var pick := PickDue(now, locked);
      if pick.None? {
        return Nothing, [];
      }
      var id := pick.value;
      var item := rows[id];
      event := [Event.Claimed(id, env, now)];
      assert Run(State(), event) == Step(State(), event[0]);
      if Expired(item, now) {
        rows := rows[id := item.(status := NeedsReview, lockedUntil := None)];
        return Skipped(id), event;
      }
      if item.accountBound && !env.active {
        rows := rows[id := CancelRow(item)];
        return Skipped(id), event;
      }
      var delivery := item.delivery;
      var failed, postponed := false, !env.configured;
      if !postponed && delivery.None? {
        match env.rendered
        case Message(body) => delivery := Some(body);
        case NoRecipient => postponed := true;
        case Unrenderable => postponed, failed := true, true;
      }
      if postponed {
        rows := rows[id := Postpone(item, if failed then Failed else Pending, now)];
        return Skipped(id), event;
      }
      rows := rows[id := Lease(item, delivery.value, now)];
      calls := calls + [Call(id, item.attempts + 1, delivery.value, now)];
      return ToSend(id, item.attempts + 1, delivery.value), event;
    }

    method CompleteClaim(id: MailId, token: nat, o: Outcome, now: Time)
      requires token > 0 && id in rows
      modifies this`rows
      ensures rows == old(rows)[id := Complete(old(rows)[id], token, o, now)]
    {
      var row := rows[id];
      if row.status == Processing && row.attempts == token {
        if o.Accepted? {
          rows := rows[id := row.(status := Sent, delivery := None, lockedUntil := None)];
        } else {
          var delay := Backoff(token - 1);
          rows := rows[id := row.(status := if Permanent(o) then Failed else Pending,
                                  nextAt := now + delay * SECOND, lockedUntil := None)];
        }
      }
      assert rows == old(rows)[id := Complete(old(rows)[id], token, o, now)];
    }

    /**
     The job: at most ten turns, stopping at the first that finds no due row free. Whatever
     happens, its effect is a run of the state machine with at most ten provider calls.
     Fewer turns mean that it was aborted before the next one.
     */
    method HandleJob(turns: seq<Turn>) returns (ghost events: seq<Event>)
      requires |turns| <= 10 && forall i | 0 <= i < |turns| :: turns[i].now <= turns[i].doneAt
      modifies this
      ensures State() == Run(old(State()), events)
      ensures old(calls) <= calls && |calls| <= |old(calls)| + 10
      ensures forall i | 0 <= i < |events| :: OutboxBudget.Automatic(events[i])
    {
      events := [];
      var count := 0;
      while count < 10
        invariant 0 <= count <= 10 && count <= |turns|
        invariant State() == Run(old(State()), events)
        invariant old(calls) <= calls && |calls| <= |old(calls)| + count
        invariant forall i | 0 <= i < |events| :: OutboxBudget.Automatic(events[i])
      {
        if count == |turns| {
          return;
        }
        var turn := turns[count];
        var reply, claim := ClaimNext(turn.env, turn.now, turn.locked);
        OutboxBudget.RunAppends(old(State()), events, claim);
        events := events + claim;
        match reply {
        case Nothing => return;
        case Skipped(_) =>
        case ToSend(id, token, body) =>
          if turn.stopped {
            return;
          }
          ghost var sent := State();
          CompleteClaim(id, token, turn.outcome, turn.doneAt);
          ghost var done := Completed(|calls| - 1, turn.outcome, turn.doneAt);
          assert Run(sent, [done]) == Step(sent, done);
          assert State() == Step(sent, done);
          OutboxBudget.RunAppends(old(State()), events, [done]);
          events := events + [done];
        }
        count := count + 1;
      }
    }

    method RetryMail(id: MailId, now: Time) returns (reply: RetryReply)
      modifies this`rows
      ensures id !in old(rows) ==> reply == Unavailable && rows == old(rows)
      ensures id in old(rows) ==>
                (rows, reply) == (old(rows)[id := Retry(old(rows)[id], now).0], Retry(old(rows)[id], now).1)
    {
      if id !in rows || rows[id].status !in {Pending, Failed} {
        assert id in rows ==> rows == rows[id := rows[id]];
        return Unavailable;
      }
      if Expired(rows[id], now) {
        rows := rows[id := rows[id].(status := NeedsReview)];
        return WindowExpired;
      }
      rows := rows[id := rows[id].(status := Pending, nextAt := now, lockedUntil := None)];
      return Retried;
    }
  }
}
