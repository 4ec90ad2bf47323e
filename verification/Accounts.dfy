/**
 The tables behind accounts and the transactions that write them.

 Each function below is one committed transaction of the service: it takes the
 tables as they are when the transaction's locks are granted and returns the
 tables it commits. A transaction that rolls back returns its input.
 */
module Accounts {
  import opened Common

  type Uuid = nat
  type ClerkId = nat
  type Email = nat        // canonical form: trimmed and lower-case
  type MailKey = nat

  datatype Role = Admin | User
  datatype AuthRow = AuthRow(email: Option<Email>, confirmed: bool)
  datatype Profile = Profile(role: Role, email: Option<Email>)
  datatype Access = Access(
    enabled: bool, enabledAt: Option<Time>, disabledAt: Option<Time>,
    reason: Option<DisabledReason>, expiresAt: Option<Time>)
  datatype DisabledReason = ClerkAccountDeleted | DeletionRequested | ByOperator
  datatype MappedRole = Operator | Member
  datatype Mapping = Mapping(uuid: Uuid, email: Email, role: MappedRole)
  datatype Lifecycle = Lifecycle(storage: Option<Uuid>, providerUpdatedAt: nat, deletedAt: Option<Time>)
  datatype DeletionStatus = PendingProvider | PendingCleanup | CleanupDeferred | Completed
  datatype DeletionError = ProviderError | CleanupFailed | ProtectedAttribution
  datatype Deletion = Deletion(
    clerkId: Option<ClerkId>, status: DeletionStatus, attempts: nat, lockedUntil: Option<Time>,
    confirmedAt: Option<Time>, completedAt: Option<Time>, lastError: Option<DeletionError>)
  datatype Claim = Claim(claimedBy: Option<Uuid>, expiresAt: Time)
  datatype MailKind = Welcome | CommunityApproved | CommunityRejected | InviteMail
  datatype Mail = Mail(kind: MailKind, target: Option<Uuid>, status: MailStatus)

  datatype Db = Db(
    auth: map<Uuid, AuthRow>,
    profiles: map<Uuid, Profile>,
    access: map<Uuid, Access>,
    mapping: map<ClerkId, Mapping>,
    lifecycle: map<ClerkId, Lifecycle>,
    deletions: map<Uuid, Deletion>,
    claims: map<Email, Claim>,
    mail: map<MailKey, Mail>)

  const LEASE: Time := 30

  // ---------------------------------------------------------------- queries

  predicate Tombstoned(db: Db, id: ClerkId) {
    id in db.lifecycle && db.lifecycle[id].deletedAt.Some?
  }

  /** Some deleted identity names this UUID. */
  predicate Revoked(db: Db, u: Uuid) {
    exists id | id in db.lifecycle :: db.lifecycle[id].storage == Some(u) && db.lifecycle[id].deletedAt.Some?
  }

  predicate Owned(db: Db, u: Uuid) {
    exists id | id in db.mapping :: db.mapping[id].uuid == u
  }

  /** Accounts with a profile that carry the address. */
  function Historical(db: Db, email: Email): set<Uuid> {
    set u | u in db.auth && u in db.profiles && db.auth[u].email == Some(email)
  }

  /** The row of a query that found exactly one. */
  ghost function Sole<T>(s: set<T>): T
    requires s != {}
  {
    var x :| x in s; x
  }

  /** Another account carries the address. */
  predicate Collides(db: Db, email: Email, u: Uuid) {
    exists v | v in db.auth :: db.auth[v].email == Some(email) && v != u
  }

  predicate AccountMail(m: Mail) {
    m.kind != InviteMail
  }

  // ------------------------------------------------- statements shared by writers

  function CancelMail(mail: map<MailKey, Mail>, u: Uuid): map<MailKey, Mail> {
    map k | k in mail ::
      if AccountMail(mail[k]) && mail[k].target == Some(u) && mail[k].status != Sent
      then mail[k].(status := Cancelled) else mail[k]
  }

  /** Mark an identity deleted, keeping the first deletion time. */
  function Bury(row: Lifecycle, now: Time): Lifecycle {
    row.(deletedAt := Some(OrElse(row.deletedAt, now)))
  }

  /**
   DELETE FROM auth.users: the BEFORE trigger tombstones whoever is still mapped to
   the row, foreign keys cascade to profile, access and mapping, an invitation held
   by the account is released, and the AFTER trigger cancels its community mail.
   */
  function DeleteAuthRow(db: Db, u: Uuid, now: Time): Db {
    if u !in db.auth then db else
      db.(auth := db.auth - {u},
          profiles := db.profiles - {u},
          access := db.access - {u},
          lifecycle := map id | id in db.lifecycle.Keys + db.mapping.Keys
                              && (id in db.lifecycle || db.mapping[id].uuid == u) ::
            if id in db.mapping && db.mapping[id].uuid == u
            then Bury(
              if id in db.lifecycle then db.lifecycle[id].(storage := Some(u)) else Lifecycle(Some(u), 0, None), now)
            else db.lifecycle[id],
          mapping := map id | id in db.mapping && db.mapping[id].uuid != u :: db.mapping[id],
          claims := map e | e in db.claims ::
            if db.claims[e].claimedBy == Some(u) then db.claims[e].(claimedBy := None) else db.claims[e],
          mail := map k | k in db.mail ::
            if db.mail[k].kind in {CommunityApproved, CommunityRejected} && db.mail[k].target == Some(u)
               && db.mail[k].status != Sent
            then db.mail[k].(status := Cancelled) else db.mail[k])
  }

  /**
   Personal rows of an account whose UUID must stay: every table with a cascading
   foreign key loses its rows (the mapping is one of them; profile and access are
   spared) and the contact fields are cleared.
   */
  function CleanRetained(db: Db, u: Uuid): Db {
    db.(mapping := map id | id in db.mapping && db.mapping[id].uuid != u :: db.mapping[id],
        profiles := if u in db.profiles then db.profiles[u := db.profiles[u].(email := None)] else db.profiles,
        auth := if u in db.auth then db.auth[u := AuthRow(None, false)] else db.auth)
  }

  // ---------------------------------------------------------------- apply

  datatype ApplyReply = Applied | Stale | Conflict

  function UpdateMapped(db: Db, id: ClerkId, email: Email, ts: nat): Db
    requires id in db.mapping && db.mapping[id].uuid in db.auth
  {
    var u := db.mapping[id].uuid;
    db.(mapping := db.mapping[id := db.mapping[id].(email := email)],
        profiles := if u in db.profiles then db.profiles[u := db.profiles[u].(email := Some(email))] else db.profiles,
        auth := db.auth[u := AuthRow(Some(email), true)],
        lifecycle := db.lifecycle[id :=
          if id in db.lifecycle then db.lifecycle[id].(providerUpdatedAt := ts) else Lifecycle(Some(u), ts, None)])
  }

  /** INSERT INTO auth.users with its trigger, then the live invitation for the address, if any. */
  function CreateAccount(db: Db, email: Email, newId: Uuid, invitesRequired: bool, now: Time): Db {
    var live := email in db.claims && db.claims[email].claimedBy.None? && db.claims[email].expiresAt > now;
    var enabledAt := if invitesRequired then None else Some(now);
    db.(auth := db.auth[newId := AuthRow(Some(email), true)],
        profiles := if newId in db.profiles then db.profiles else db.profiles[newId := Profile(User, Some(email))],
        claims := if live then db.claims[email := db.claims[email].(claimedBy := Some(newId))] else db.claims,
        access := db.access[newId :=
          if live then Access(true, Some(OrElse(enabledAt, now)), None, None, None)
          else Access(!invitesRequired, enabledAt, None, None, None)])
  }

  /** Bind an identity that has no mapping to an account. */
  function LinkAccount(db: Db, id: ClerkId, email: Email, ts: nat, u: Uuid, role: MappedRole): Db {
    db.(mapping := db.mapping[id := Mapping(u, email, role)],
        lifecycle := db.lifecycle[id :=
          if id in db.lifecycle then db.lifecycle[id].(storage := Some(u), providerUpdatedAt := ts)
          else Lifecycle(Some(u), ts, None)])
  }

  function QueueWelcome(db: Db, key: MailKey, u: Uuid): Db {
    db.(mail := if key in db.mail then db.mail else db.mail[key := Mail(Welcome, Some(u), Pending)])
  }

  /** The transaction of a verified user.created or user.updated snapshot. */
  ghost function Apply(db: Db, id: ClerkId, email: Email, ts: nat, newId: Uuid, welcome: MailKey,
                       invitesRequired: bool, now: Time): (Db, ApplyReply) {
    if Tombstoned(db, id) then (db, Stale)
    else if id in db.lifecycle && db.lifecycle[id].providerUpdatedAt >= ts then (db, Stale)
    else if id in db.mapping && db.mapping[id].uuid in db.auth then
      if Collides(db, email, db.mapping[id].uuid) then (db, Conflict)
      else (UpdateMapped(db, id, email, ts), Applied)
    else
      var found := Historical(db, email);
      if |found| > 1 then (db, Conflict)
      else if found == {} then
        var made := CreateAccount(db, email, newId, invitesRequired, now);
        if Revoked(made, newId) || Owned(made, newId) || id in db.mapping then (db, Conflict)
        else (QueueWelcome(LinkAccount(made, id, email, ts, newId, Member), welcome, newId), Applied)
      else
        var u := Sole(found);
        if !db.auth[u].confirmed || Revoked(db, u) || Owned(db, u) || id in db.mapping then (db, Conflict)
        else
          (LinkAccount(db, id, email, ts, u, if db.profiles[u].role == Admin then Operator else Member), Applied)
  }

  // ---------------------------------------------------------------- remove

  /** How the storage cleanup inside a savepoint ends. */
  datatype Cleanup = Erased | ForeignKeyBlocked | Errored

  /** The account an identity stands for: its mapping first, its lifecycle row otherwise. */
  function AccountOf(db: Db, id: ClerkId): Option<Uuid> {
    if id in db.mapping then Some(db.mapping[id].uuid)
    else if id in db.lifecycle then db.lifecycle[id].storage
    else None
  }

  function Disable(access: map<Uuid, Access>, u: Uuid, reason: DisabledReason, at: Option<Time>,
                   now: Time): map<Uuid, Access> {
    if u !in access then access else
      access[u := access[u].(enabled := false, disabledAt := Some(OrElse(at, now)), reason := Some(reason))]
  }

  /** Revocation, which commits whatever the cleanup then does. */
  function Revoke(db: Db, id: ClerkId, u: Uuid, now: Time): Db {
    db.(lifecycle := db.lifecycle[id :=
          if id in db.lifecycle then Bury(db.lifecycle[id], now) else Lifecycle(Some(u), 0, Some(now))],
        mapping := db.mapping - {id},
        access := Disable(db.access, u, ClerkAccountDeleted,
                          if u in db.access then db.access[u].disabledAt else None, now),
        mail := CancelMail(db.mail, u),
        deletions := db.deletions[u :=
          if u in db.deletions then
            var d := db.deletions[u];
            d.(status := PendingCleanup, attempts := d.attempts + 1, confirmedAt := Some(OrElse(d.confirmedAt, now)),
               lockedUntil := None, lastError := None)
          else Deletion(Some(id), PendingCleanup, 1, None, Some(now), None, None)])
  }

  function SettleErased(db: Db, u: Uuid, now: Time): Db
    requires u in db.deletions
  {
    db.(deletions := db.deletions[u := db.deletions[u].(
      status := Completed, completedAt := Some(now), lockedUntil := None, lastError := None)])
  }

  function SettleDeferred(db: Db, u: Uuid): Db
    requires u in db.deletions
  {
    db.(deletions := db.deletions[u := db.deletions[u].(
      status := CleanupDeferred, lockedUntil := None, lastError := Some(ProtectedAttribution))])
  }

  /** The transaction of user.deleted, or of a provider lookup that answered 404. */
  function Remove(db: Db, id: ClerkId, cleanup: Cleanup, now: Time): Db {
    match AccountOf(db, id)
    case None =>
      db.(lifecycle := db.lifecycle[id :=
        if id in db.lifecycle then Bury(db.lifecycle[id], now) else Lifecycle(None, 0, Some(now))])
    case Some(u) =>
      if u in db.deletions && db.deletions[u].status == Completed then db
      else Settle(Revoke(db, id, u, now), u, cleanup, now)
  }

  /** The three ends of a removal's cleanup. */
  function Settle(db: Db, u: Uuid, cleanup: Cleanup, now: Time): Db
    requires u in db.deletions
  {
    match cleanup
    case Erased => SettleErased(DeleteAuthRow(db, u, now), u, now)
    case ForeignKeyBlocked =>
      var settled := SettleDeferred(CleanRetained(db, u), u);
      settled.(deletions := settled.deletions[u := settled.deletions[u].(completedAt := None)])
    case Errored =>
      db.(deletions := db.deletions[u := db.deletions[u].(lastError := Some(CleanupFailed), lockedUntil := None)])
  }

  // ---------------------------------------------------------------- operator deletion

  datatype StageReply =
    | AlreadyDone
    | Busy
    | Protected
    | NotFound
    | Staged(token: nat, clerkId: Option<ClerkId>, confirmed: bool)

  ghost function ClerkIdOf(db: Db, u: Uuid): Option<ClerkId> {
    var ids := set id | id in db.mapping && db.mapping[id].uuid == u;
    if ids == {} then None else Some(Sole(ids))
  }

  predicate IsAdmin(db: Db, u: Uuid) {
    u in db.profiles && db.profiles[u].role == Admin
  }

  function FirstStage(db: Db, u: Uuid, clerk: Option<ClerkId>, now: Time): Db {
    db.(deletions := db.deletions[u := Deletion(
          clerk, if clerk.Some? then PendingProvider else PendingCleanup, 1, Some(now + LEASE),
          if clerk.Some? then None else Some(now), None, None)],
        lifecycle := match clerk
          case None => db.lifecycle
          case Some(id) => db.lifecycle[id :=
            if id in db.lifecycle then Bury(db.lifecycle[id], now).(storage := Some(u))
            else Lifecycle(Some(u), 0, Some(now))],
        mapping := match clerk case None => db.mapping case Some(id) => db.mapping - {id},
        access := Disable(db.access, u, DeletionRequested, None, now),
        mail := CancelMail(db.mail, u))
  }

  /** An administrator asks for a deletion: claim an existing record or open one. */
  ghost function Stage(db: Db, actor: Uuid, u: Uuid, now: Time): (Db, StageReply) {
    if actor == u then (db, Protected)
    else if u in db.deletions then
      var d := db.deletions[u];
      if d.status == Completed then (db, AlreadyDone)
      else if d.lockedUntil.Some? && d.lockedUntil.value > now then (db, Busy)
      else if IsAdmin(db, u) then (db, Protected)
      else
        (db.(deletions := db.deletions[u := d.(attempts := d.attempts + 1, lockedUntil := Some(now + LEASE))]),
         Staged(d.attempts + 1, d.clerkId, d.confirmedAt.Some?))
    else if u !in db.auth then (db, NotFound)
    else if IsAdmin(db, u) then (db, Protected)
    else
      var clerk := ClerkIdOf(db, u);
      (FirstStage(db, u, clerk, now), Staged(1, clerk, clerk.None?))
  }

  /** A fenced write: it lands only while the record still carries the claim's token. */
  predicate Holds(db: Db, u: Uuid, token: nat) {
    u in db.deletions && db.deletions[u].attempts == token
  }

  function RecordError(db: Db, u: Uuid, token: nat, error: DeletionError): Db {
    if !Holds(db, u, token) then db else
      db.(deletions := db.deletions[u := db.deletions[u].(lastError := Some(error), lockedUntil := None)])
  }

  function ConfirmProvider(db: Db, u: Uuid, token: nat, now: Time): (Db, bool) {
    if !Holds(db, u, token) then (db, false) else
      (db.(deletions := db.deletions[u := db.deletions[u].(
         status := PendingCleanup, confirmedAt := Some(now), lastError := None)]), true)
  }

  datatype CleanupReply = Finished | Deferred | Superseded | RolledBack

  /** The cleanup transaction of an operator deletion. admin_delete_user refuses administrators and missing rows. */
  function CleanUp(db: Db, u: Uuid, token: nat, cleanup: Cleanup, now: Time): (Db, CleanupReply) {
    if u in db.deletions && db.deletions[u].status == Completed then (db, Finished)
    else if !Holds(db, u, token) then (db, Superseded)
    else match cleanup
      case Erased =>
        if u !in db.auth || IsAdmin(db, u) then (db, RolledBack)
        else (SettleErased(DeleteAuthRow(db, u, now), u, now), Finished)
      case ForeignKeyBlocked => (SettleDeferred(CleanRetained(db, u), u), Deferred)
      case Errored => (db, RolledBack)
  }

  // ---------------------------------------------------------------- redeem

  datatype RedeemReply = Ready | Denied | NotProvisioned | Invalid | LostClaim

  predicate Eligible(a: Access) {
    !a.enabled && a.enabledAt.None? && a.disabledAt.None? && a.reason.None? && a.expiresAt.None?
  }

  predicate Allowed(a: Access, now: Time) {
    a.enabled && (a.expiresAt.None? || a.expiresAt.value > now)
  }

  /**
   Redeem an invitation for a mapped identity. `invite` is what redeem_invite_for_email
   did: refuse the code, or leave an unclaimed invitation for the address with that expiry.
   */
  function Redeem(db: Db, id: ClerkId, invite: Option<Time>, now: Time): (Db, RedeemReply) {
    if id !in db.mapping then (db, if Tombstoned(db, id) then Denied else NotProvisioned)
    else
      var m := db.mapping[id];
      if m.uuid !in db.auth || m.uuid !in db.access then (db, Denied)
      else if Allowed(db.access[m.uuid], now) then (db, Ready)
      else if !Eligible(db.access[m.uuid]) || m.role != Member then (db, Denied)
      else if m.email in db.claims && db.claims[m.email].claimedBy.Some? then (db, Denied)
      else if invite.None? then (db, Invalid)
      else if invite.value <= now then (db, LostClaim)
      else
        (db.(claims := db.claims[m.email := Claim(Some(m.uuid), invite.value)],
             access := db.access[m.uuid := db.access[m.uuid].(enabled := true, enabledAt := Some(now))]),
         Ready)
  }
}
