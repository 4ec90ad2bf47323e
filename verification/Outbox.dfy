/**
 The transactional email outbox: a row's life under leases, fencing tokens, a frozen
 body, backoff, cancellation and operator retry. Times are in microseconds.
 */
module Outbox {
  import opened Common

  type MailId = nat
  type Body = nat

  const SECOND: Time := 1_000_000
  const LEASE: Time := 60 * SECOND
  const WINDOW: Time := 23 * 3600 * SECOND

  datatype Row = Row(
    createdAt: Time, accountBound: bool, status: MailStatus, attempts: nat, nextAt: Time,
    firstAt: Option<Time>, lockedUntil: Option<Time>, delivery: Option<Body>)

  function Queued(createdAt: Time, accountBound: bool): Row {
    Row(createdAt, accountBound, Pending, 0, createdAt, None, None, None)
  }

  predicate Due(row: Row, now: Time) {
    || (row.status == Pending && row.nextAt <= now)
    || (row.status == Processing && row.lockedUntil.Some? && row.lockedUntil.value <= now)
  }

  predicate Expired(row: Row, now: Time) {
    row.firstAt.Some? && row.firstAt.value <= now - WINDOW
  }

  // ---------------------------------------------------------------- claim

  datatype Rendered = Message(body: Body) | NoRecipient | Unrenderable

  /** What a claim reads outside its row: recipient still active, provider key present, rendering of the payload. */
  datatype Env = Env(active: bool, configured: bool, rendered: Rendered)

  datatype ClaimReply = Skip | Send(token: nat, body: Body)

  function CancelRow(row: Row): Row {
    row.(status := Cancelled, delivery := None, lockedUntil := None)
  }

  function Postpone(row: Row, status: MailStatus, now: Time): Row {
    row.(status := status, nextAt := now + 60 * SECOND, lockedUntil := None)
  }

  function Lease(row: Row, body: Body, now: Time): Row {
    row.(status := Processing, delivery := Some(body), firstAt := Some(OrElse(row.firstAt, now)),
         lockedUntil := Some(now + LEASE), attempts := row.attempts + 1)
  }

  /** The claim transaction on the due row it selected. */
  function Claim(row: Row, env: Env, now: Time): (Row, ClaimReply) {
    if Expired(row, now) then (row.(status := NeedsReview, lockedUntil := None), Skip)
    else if row.accountBound && !env.active then (CancelRow(row), Skip)
    else if !env.configured then (Postpone(row, Pending, now), Skip)
    else match row.delivery
      case Some(body) => (Lease(row, body, now), Send(row.attempts + 1, body))
      case None =>
        match env.rendered
        case Message(body) => (Lease(row, body, now), Send(row.attempts + 1, body))
        case NoRecipient => (Postpone(row, Pending, now), Skip)
        case Unrenderable => (Postpone(row, Failed, now), Skip)
  }

  // ---------------------------------------------------------------- complete

  datatype Outcome = Accepted | Refused(status: Option<nat>)

  /** A client error that a retry cannot cure. */
  predicate Permanent(o: Outcome) {
    o.Refused? && o.status.Some? && 400 <= o.status.value < 500 && o.status.value != 409 && o.status.value != 429
  }

  function Pow2(n: nat): nat {
    if n == 0 then 1 else 2 * Pow2(n - 1)
  }

  function Min(a: int, b: int): int {
    if a <= b then a else b
  }

  /** Seconds until the next attempt, after `attempts` earlier ones. */
  function Backoff(attempts: nat): int {
    Min(3600, 30 * Pow2(Min(attempts, 7)))
  }

  /** The completion of the claim that holds `token`; it matches no row once the claim is superseded. */
  function Complete(row: Row, token: nat, o: Outcome, now: Time): Row
    requires token > 0
  {
    if row.status != Processing || row.attempts != token then row
    else if o.Accepted? then row.(status := Sent, delivery := None, lockedUntil := None)
    else row.(status := if Permanent(o) then Failed else Pending,
              nextAt := now + Backoff(token - 1) * SECOND, lockedUntil := None)
  }

  // ---------------------------------------------------------------- operator and account writers

  datatype RetryReply = Unavailable | WindowExpired | Retried

  function Retry(row: Row, now: Time): (Row, RetryReply) {
    if row.status !in {Pending, Failed} then (row, Unavailable)
    else if Expired(row, now) then (row.(status := NeedsReview), WindowExpired)
    else (row.(status := Pending, nextAt := now, lockedUntil := None), Retried)
  }

  /** Deleting the account cancels whatever is not sent. */
  function CancelUnsent(row: Row): Row {
    if row.status == Sent then row else CancelRow(row)
  }

  // ---------------------------------------------------------------- many workers, many rows

  /** A claim that was sent to the provider. Its idempotency key is the id alone. */
  datatype Call = Call(id: MailId, token: nat, body: Body, at: Time)

  datatype System = System(rows: map<MailId, Row>, calls: seq<Call>)

  /** `call` indexes an earlier claim: its worker may finish late, twice, or never. */
  datatype Event =
    | Claimed(id: MailId, env: Env, now: Time)
    | Completed(call: nat, outcome: Outcome, now: Time)
    | RetriedBy(id: MailId, now: Time)
    | AccountDeleted(id: MailId)

  function ClaimRow(sys: System, id: MailId, env: Env, now: Time): System
    requires id in sys.rows
  {
    var (row, reply) := Claim(sys.rows[id], env, now);
    System(sys.rows[id := row], if reply.Send? then sys.calls + [Call(id, reply.token, reply.body, now)] else sys.calls)
  }

  function Step(sys: System, e: Event): System {
    match e
    case Claimed(id, env, now) =>
      if id in sys.rows && Due(sys.rows[id], now) then ClaimRow(sys, id, env, now) else sys
    case Completed(k, outcome, now) =>
      if k < |sys.calls| && sys.calls[k].at <= now && sys.calls[k].id in sys.rows && sys.calls[k].token > 0 then
        var c := sys.calls[k];
        sys.(rows := sys.rows[c.id := Complete(sys.rows[c.id], c.token, outcome, now)])
      else sys
    case RetriedBy(id, now) =>
      if id in sys.rows then sys.(rows := sys.rows[id := Retry(sys.rows[id], now).0]) else sys
    case AccountDeleted(id) =>
      if id in sys.rows then sys.(rows := sys.rows[id := CancelUnsent(sys.rows[id])]) else sys
  }

  function Run(sys: System, es: seq<Event>): System
    decreases |es|
  {
    if es == [] then sys else Run(Step(sys, es[0]), es[1..])
  }

  /** Freshly queued rows, no provider call yet. */
  ghost predicate Initial(sys: System) {
    sys.calls == [] && forall id | id in sys.rows ::
      sys.rows[id] == Queued(sys.rows[id].createdAt, sys.rows[id].accountBound)
  }
}
