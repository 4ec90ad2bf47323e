/**
 Webhook deliveries, operators and enrolling users acting on the same tables.

 Every event is one committed transaction; an operator deletion is several of them,
 so its progress between transactions is kept per worker. Workers may stop anywhere,
 webhooks may be repeated and reordered, and acknowledgements may be lost.
 */
module AccountSystem {
  import opened Common
  import opened Accounts

  type WorkerId = nat

  /** Where an operator deletion stands between two of its transactions, with the token of its claim. */
  datatype Worker =
    | CallingProvider(user: Uuid, token: nat)
    | CleaningUp(user: Uuid, token: nat)
    | Reporting(user: Uuid, token: nat)

  datatype System = System(db: Db, workers: map<WorkerId, Worker>)

  datatype Event =
    | Snapshot(id: ClerkId, email: Email, ts: nat, newId: Uuid, welcome: MailKey, invitesRequired: bool, now: Time)
    | Deleted(id: ClerkId, cleanup: Cleanup, now: Time)
    | Claimed(worker: WorkerId, actor: Uuid, user: Uuid, now: Time)
    | ProviderAnswered(worker: WorkerId, ok: bool, ackLost: bool, now: Time)
    | CleanedUp(worker: WorkerId, cleanup: Cleanup, ackLost: bool, now: Time)
    | Reported(worker: WorkerId)
    | Redeemed(id: ClerkId, invite: Option<Time>, now: Time)
    | DeletedElsewhere(user: Uuid, now: Time)
    | MailQueued(key: MailKey, kind: MailKind, user: Uuid)
    | MailMoved(key: MailKey, status: MailStatus)
    | Crashed(worker: WorkerId)

  function Leave(sys: System, db: Db, w: WorkerId): System {
    System(db, sys.workers - {w})
  }

  function Go(sys: System, db: Db, w: WorkerId, to: Worker): System {
    System(db, sys.workers[w := to])
  }

  /** The control flow of an operator deletion from its claim on. */
  function AfterClaim(sys: System, w: WorkerId, u: Uuid, db: Db, reply: StageReply): System {
    match reply
    case Staged(token, clerkId, confirmed) =>
      Go(sys, db, w, if !confirmed && clerkId.Some? then CallingProvider(u, token) else CleaningUp(u, token))
    case _ => System(db, sys.workers)
  }

  function AfterProvider(sys: System, w: WorkerId, ok: bool, ackLost: bool, now: Time): System {
    if w !in sys.workers || !sys.workers[w].CallingProvider? then sys
    else
      var CallingProvider(u, token) := sys.workers[w];
      if !ok then Leave(sys, RecordError(sys.db, u, token, ProviderError), w)
      else
        var (db, landed) := ConfirmProvider(sys.db, u, token, now);
        if landed && !ackLost then Go(sys, db, w, CleaningUp(u, token)) else Leave(sys, db, w)
  }

  function AfterCleanup(sys: System, w: WorkerId, cleanup: Cleanup, ackLost: bool, now: Time): System {
    if w !in sys.workers || !sys.workers[w].CleaningUp? then sys
    else
      var CleaningUp(u, token) := sys.workers[w];
      var (db, reply) := CleanUp(sys.db, u, token, cleanup, now);
      if ackLost || reply == RolledBack then Go(sys, db, w, Reporting(u, token)) else Leave(sys, db, w)
  }

  function AfterReport(sys: System, w: WorkerId): System {
    if w !in sys.workers || !sys.workers[w].Reporting? then sys
    else Leave(sys, RecordError(sys.db, sys.workers[w].user, sys.workers[w].token, CleanupFailed), w)
  }

  /** The community-decision trigger queues nothing for a deleted account. */
  function QueueMail(db: Db, key: MailKey, kind: MailKind, u: Uuid): Db {
    if key in db.mail || kind == Welcome || u in db.deletions || Revoked(db, u) then db
    else db.(mail := db.mail[key := Mail(kind, Some(u), Pending)])
  }

  /** What the mail worker may do to a row: anything except leave a final status. */
  function MoveMail(db: Db, key: MailKey, status: MailStatus): Db {
    if key !in db.mail || db.mail[key].status in {Sent, Cancelled} then db
    else db.(mail := db.mail[key := db.mail[key].(status := status)])
  }

  ghost function Step(sys: System, e: Event): System {
    match e
    case Snapshot(id, email, ts, newId, welcome, invitesRequired, now) =>
      sys.(db := Apply(sys.db, id, email, ts, newId, welcome, invitesRequired, now).0)
    case Deleted(id, cleanup, now) => sys.(db := Remove(sys.db, id, cleanup, now))
    case Claimed(w, actor, u, now) =>
      if w in sys.workers then sys else
        var (db, reply) := Stage(sys.db, actor, u, now);
        AfterClaim(sys, w, u, db, reply)
    case ProviderAnswered(w, ok, ackLost, now) => AfterProvider(sys, w, ok, ackLost, now)
    case CleanedUp(w, cleanup, ackLost, now) => AfterCleanup(sys, w, cleanup, ackLost, now)
    case Reported(w) => AfterReport(sys, w)
    case Redeemed(id, invite, now) => sys.(db := Redeem(sys.db, id, invite, now).0)
    case DeletedElsewhere(u, now) => sys.(db := DeleteAuthRow(sys.db, u, now))
    case MailQueued(key, kind, u) => sys.(db := QueueMail(sys.db, key, kind, u))
    case MailMoved(key, status) => sys.(db := MoveMail(sys.db, key, status))
    case Crashed(w) => Leave(sys, sys.db, w)
  }

  /** randomUUID() hands out a UUID no table mentions. */
  predicate Unused(db: Db, u: Uuid) {
    && u !in db.auth && u !in db.profiles && u !in db.access && u !in db.deletions
    && !Owned(db, u)
    && forall id | id in db.lifecycle :: db.lifecycle[id].storage != Some(u)
  }

  predicate Possible(sys: System, e: Event) {
    e.Snapshot? ==> Unused(sys.db, e.newId)
  }

  ghost function Run(sys: System, es: seq<Event>): System
    decreases |es|
  {
    if es == [] then sys else Run(Step(sys, es[0]), es[1..])
  }

  ghost predicate PossibleRun(sys: System, es: seq<Event>)
    decreases |es|
  {
    es != [] ==> Possible(sys, es[0]) && PossibleRun(Step(sys, es[0]), es[1..])
  }
}
