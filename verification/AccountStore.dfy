/** The account transactions as the services run them: statement by statement over the tables. */
module AccountStore {
  import opened Common
  import opened Accounts
  import opened AccountSafety

  lemma SoleIs<T>(s: set<T>, x: T)
    requires x in s && |s| == 1
    ensures Sole(s) == x
  {
    var y := Sole(s);
    assert |s - {x}| == 0;
    assert y !in s - {x};
  }

  lemma ConfirmedIffPast(db: Db, u: Uuid)
    requires DeletionsSound(db) && u in db.deletions
    ensures db.deletions[u].status == PendingProvider <==> db.deletions[u].confirmedAt.None?
  {
    assert DeletionSound(db, u);
  }

  /** The cleanup of a deletion and the error report of a rolled-back one, without interference. */
  function Finish(db: Db, u: Uuid, token: nat, cleanup: Cleanup, now: Time): (Db, bool) {
    var (cleaned, outcome) := CleanUp(db, u, token, cleanup, now);
    if outcome == RolledBack then (RecordError(cleaned, u, token, CleanupFailed), false)
    else (cleaned, outcome == Finished)
  }

  /** What follows a claim: the provider call if it is still due, then the cleanup. */
  function Proceed(db: Db, u: Uuid, token: nat, due: bool, providerOk: bool, cleanup: Cleanup, now: Time): (Db, bool) {
    if !due then Finish(db, u, token, cleanup, now)
    else if providerOk then Finish(ConfirmProvider(db, u, token, now).0, u, token, cleanup, now)
    else (RecordError(db, u, token, ProviderError), false)
  }

  function AfterStage(staged: Db, reply: StageReply, u: Uuid, providerOk: bool, cleanup: Cleanup,
                      now: Time): (Db, bool) {
    match reply
    case Staged(token, clerkId, confirmed) =>
      Proceed(staged, u, token, !confirmed && clerkId.Some?, providerOk, cleanup, now)
    case _ => (staged, reply == AlreadyDone)
  }

  /** The transactions of one operator deletion, one after the other. */
  ghost function DeleteAlone(db: Db, actor: Uuid, u: Uuid, providerOk: bool, cleanup: Cleanup, now: Time): (Db, bool) {
    var (staged, reply) := Stage(db, actor, u, now);
    AfterStage(staged, reply, u, providerOk, cleanup, now)
  }

  lemma StagedHolds(db: Db, actor: Uuid, u: Uuid, now: Time)
    requires DeletionsSound(db) && Stage(db, actor, u, now).1.Staged?
    ensures Holds(Stage(db, actor, u, now).0, u, Stage(db, actor, u, now).1.token)
  {
    StagedRecord(db, actor, u, now);
  }

  /** A cleanup past the provider ends normally exactly with a completed record. */
  lemma FinishKeeps(db: Db, u: Uuid, token: nat, cleanup: Cleanup, now: Time)
    requires DbInv(db) && Holds(db, u, token) && db.deletions[u].status !in {PendingProvider, Completed}
    ensures var (after, ok) := Finish(db, u, token, cleanup, now);
            && DbInv(after) && Advances(db, after)
            && u in after.deletions && (ok <==> after.deletions[u].status == Completed)
  {
    ConfirmedIffPast(db, u);
    CleanUpKeeps(db, u, token, cleanup, now);
    CleanUpRecord(db, u, token, cleanup, now);
    var (cleaned, outcome) := CleanUp(db, u, token, cleanup, now);
    if outcome == RolledBack {
      FencedWriteKeeps(cleaned, RecordError(cleaned, u, token, CleanupFailed), u);
    }
  }

  lemma ProceedKeeps(db: Db, u: Uuid, token: nat, providerOk: bool, cleanup: Cleanup, now: Time)
    requires DbInv(db) && Holds(db, u, token) && db.deletions[u].status != Completed
    ensures var due := db.deletions[u].status == PendingProvider;
            var (after, ok) := Proceed(db, u, token, due, providerOk, cleanup, now);
            && DbInv(after) && Advances(db, after)
            && u in after.deletions && (ok <==> after.deletions[u].status == Completed)
  {
    if db.deletions[u].status != PendingProvider {
      FinishKeeps(db, u, token, cleanup, now);
    } else if providerOk {
      var confirmed := ConfirmProvider(db, u, token, now).0;
      FencedWriteKeeps(db, confirmed, u);
      FinishKeeps(confirmed, u, token, cleanup, now);
      AdvancesTransitive(db, confirmed, Finish(confirmed, u, token, cleanup, now).0);
    } else {
      FencedWriteKeeps(db, RecordError(db, u, token, ProviderError), u);
    }
  }

  /** An undisturbed deletion keeps the invariants and ends normally exactly with a completed record. */
  lemma DeleteAloneTheorem(db: Db, actor: Uuid, u: Uuid, providerOk: bool, cleanup: Cleanup, now: Time)
    requires DbInv(db)
    ensures var (after, ok) := DeleteAlone(db, actor, u, providerOk, cleanup, now);
            && DbInv(after) && Advances(db, after)
            && (ok <==> actor != u && u in after.deletions && after.deletions[u].status == Completed)
            && (actor == u ==> after == db && !ok)
  {
    var (staged, reply) := Stage(db, actor, u, now);
    StageKeeps(db, actor, u, now);
    StageAdvances(db, actor, u, now);
    StageAnswers(db, actor, u, now);
    AfterStageKeeps(db, staged, reply, u, providerOk, cleanup, now);
  }

  /** What the reply of staging says about the record. */
  predicate Answers(db: Db, reply: StageReply, u: Uuid) {
    if reply.Staged? then
      && Holds(db, u, reply.token) && db.deletions[u].status != Completed
      && (!reply.confirmed && reply.clerkId.Some? <==> db.deletions[u].status == PendingProvider)
    else reply == AlreadyDone <==> u in db.deletions && db.deletions[u].status == Completed
  }

  lemma StageAnswers(db: Db, actor: Uuid, u: Uuid, now: Time)
    requires DbInv(db)
    ensures var (staged, reply) := Stage(db, actor, u, now);
            if actor == u then staged == db && reply == Protected else Answers(staged, reply, u)
  {
    if Stage(db, actor, u, now).1.Staged? {
      StagedRecord(db, actor, u, now);
    }
  }

  lemma AfterStageKeeps(before: Db, db: Db, reply: StageReply, u: Uuid, providerOk: bool, cleanup: Cleanup, now: Time)
    requires DbInv(db) && Advances(before, db) && (reply == Protected || Answers(db, reply, u))
    ensures var (after, ok) := AfterStage(db, reply, u, providerOk, cleanup, now);
            && DbInv(after) && Advances(before, after) && (reply == Protected ==> after == db && !ok)
            && (reply == Protected || (ok <==> u in after.deletions && after.deletions[u].status == Completed))
  {
    if reply.Staged? {
      ProceedKeeps(db, u, reply.token, providerOk, cleanup, now);
      AdvancesTransitive(before, db, AfterStage(db, reply, u, providerOk, cleanup, now).0);
    }
  }

  /** The snapshot is neither stale nor of a mapped identity whose account exists. */
  predicate Unmapped(db: Db, id: ClerkId, ts: nat) {
    && !Tombstoned(db, id) && !(id in db.lifecycle && db.lifecycle[id].providerUpdatedAt >= ts)
    && !(id in db.mapping && db.mapping[id].uuid in db.auth)
  }

  lemma AppliesByCreating(db: Db, id: ClerkId, email: Email, ts: nat, newId: Uuid, welcome: MailKey,
                          invitesRequired: bool, now: Time)
    requires Unmapped(db, id, ts) && Historical(db, email) == {}
    ensures var made := CreateAccount(db, email, newId, invitesRequired, now);
            Apply(db, id, email, ts, newId, welcome, invitesRequired, now) ==
            if Revoked(made, newId) || Owned(made, newId) || id in db.mapping then (db, Conflict)
            else (QueueWelcome(LinkAccount(made, id, email, ts, newId, Member), welcome, newId), Applied)
  {
  }

  lemma AppliesByLinking(db: Db, id: ClerkId, email: Email, ts: nat, newId: Uuid, welcome: MailKey,
                         invitesRequired: bool, now: Time, u: Uuid)
    requires Unmapped(db, id, ts) && u in Historical(db, email) && |Historical(db, email)| == 1
    ensures Apply(db, id, email, ts, newId, welcome, invitesRequired, now) ==
            if !db.auth[u].confirmed || Revoked(db, u) || Owned(db, u) || id in db.mapping then (db, Conflict)
            else (LinkAccount(db, id, email, ts, u, if db.profiles[u].role == Admin then Operator else Member), Applied)
  {
    SoleIs(Historical(db, email), u);
  }

  /** A removal reaches the cleanup: the identity has an account whose deletion is not completed yet. */
  predicate Cleans(db: Db, id: ClerkId) {
    var u := AccountOf(db, id);
    u.Some? && !(u.value in db.deletions && db.deletions[u.value].status == Completed)
  }

  lemma RemovesAs(db: Db, id: ClerkId, u: Uuid, cleanup: Cleanup, now: Time)
    requires AccountOf(db, id) == Some(u) && Cleans(db, id)
    ensures Remove(db, id, cleanup, now) == Settle(Revoke(db, id, u, now), u, cleanup, now)
  {
  }

  class Store {
    var auth: map<Uuid, AuthRow>
    var profiles: map<Uuid, Profile>
    var access: map<Uuid, Access>
    var mapping: map<ClerkId, Mapping>
    var lifecycle: map<ClerkId, Lifecycle>
    var deletions: map<Uuid, Deletion>
    var claims: map<Email, Claim>
    var mail: map<MailKey, Mail>

    function Tables(): Db
      reads this
    {
      Db(auth, profiles, access, mapping, lifecycle, deletions, claims, mail)
    }

    /** Make the tables those of a snapshot; ROLLBACK is a restore of the tables at BEGIN. */
    method Restore(db: Db)
      modifies this
      ensures Tables() == db
    {
      auth, profiles, access, mapping := db.auth, db.profiles, db.access, db.mapping;
      lifecycle, deletions, claims, mail := db.lifecycle, db.deletions, db.claims, db.mail;
    }

    method ApplySnapshot(id: ClerkId, email: Email, ts: nat, newId: Uuid, welcome: MailKey, invitesRequired: bool,
                         now: Time)
      returns (reply: ApplyReply)
      modifies this
      ensures (Tables(), reply) == Apply(old(Tables()), id, email, ts, newId, welcome, invitesRequired, now)
    {
      if Tombstoned(Tables(), id) {
        return Stale;
      }
      if id in lifecycle && lifecycle[id].providerUpdatedAt >= ts {
        return Stale;
      }
      if id in mapping && mapping[id].uuid in auth {
        if Collides(Tables(), email, mapping[id].uuid) {
          return Conflict;
        }
        RefreshMapped(id, email, ts);
        return Applied;
      }
      var historical := Historical(Tables(), email);
      if |historical| > 1 {
        return Conflict;
      }
      if historical == {} {
        reply := CreateNew(id, email, ts, newId, welcome, invitesRequired, now);
      } else {
        var found :| found in historical;
        reply := LinkExisting(id, email, ts, newId, welcome, invitesRequired, now, found);
      }
    }

    /** No account has the address: create one, unless it cannot be linked after all. */
    method CreateNew(id: ClerkId, email: Email, ts: nat, newId: Uuid, welcome: MailKey, invitesRequired: bool,
                     now: Time)
        returns (reply: ApplyReply)
      requires Unmapped(Tables(), id, ts) && Historical(Tables(), email) == {}
      modifies this
      ensures (Tables(), reply) == Apply(old(Tables()), id, email, ts, newId, welcome, invitesRequired, now)
    {
      var atBegin := Tables();
      AppliesByCreating(atBegin, id, email, ts, newId, welcome, invitesRequired, now);
      Provision(email, newId, invitesRequired, now);
      if Revoked(Tables(), newId) || Owned(Tables(), newId) || id in mapping {
        Restore(atBegin);
        return Conflict;
      }
      Bind(id, email, ts, newId, Member);
      if welcome !in mail {
        mail := mail[welcome := Mail(Welcome, Some(newId), Pending)];
      }
      return Applied;
    }

    /** One account has the address: link it, if it is free and confirmed. */
    method LinkExisting(id: ClerkId, email: Email, ts: nat, ghost newId: Uuid, ghost welcome: MailKey,
                        ghost invitesRequired: bool, ghost now: Time, found: Uuid)
        returns (reply: ApplyReply)
      requires Unmapped(Tables(), id, ts)
      requires found in Historical(Tables(), email) && |Historical(Tables(), email)| == 1
      modifies this
      ensures (Tables(), reply) == Apply(old(Tables()), id, email, ts, newId, welcome, invitesRequired, now)
    {
      ghost var db := Tables();
      AppliesByLinking(db, id, email, ts, newId, welcome, invitesRequired, now, found);
      if !auth[found].confirmed || Revoked(Tables(), found) || Owned(Tables(), found) || id in mapping {
        return Conflict;
      }
      Bind(id, email, ts, found, if profiles[found].role == Admin then Operator else Member);
      return Applied;
    }

    method RefreshMapped(id: ClerkId, email: Email, ts: nat)
      requires id in mapping && mapping[id].uuid in auth
      modifies this
      ensures Tables() == UpdateMapped(old(Tables()), id, email, ts)
    {
      var uuid := mapping[id].uuid;
      mapping := mapping[id := mapping[id].(email := email)];
      if uuid in profiles {
        profiles := profiles[uuid := profiles[uuid].(email := Some(email))];
      }
      auth := auth[uuid := AuthRow(Some(email), true)];
      if id in lifecycle {
        lifecycle := lifecycle[id := lifecycle[id].(providerUpdatedAt := ts)];
      } else {
        lifecycle := lifecycle[id := Lifecycle(Some(uuid), ts, None)];
      }
    }

    method Bind(id: ClerkId, email: Email, ts: nat, uuid: Uuid, role: MappedRole)
      modifies this
      ensures Tables() == LinkAccount(old(Tables()), id, email, ts, uuid, role)
    {
      mapping := mapping[id := Mapping(uuid, email, role)];
      if id in lifecycle {
        lifecycle := lifecycle[id := lifecycle[id].(storage := Some(uuid), providerUpdatedAt := ts)];
      } else {
        lifecycle := lifecycle[id := Lifecycle(Some(uuid), ts, None)];
      }
    }

    /** The new account with the rows its insert trigger adds, and the invitation it may claim. */
    method Provision(email: Email, newId: Uuid, invitesRequired: bool, now: Time)
      modifies this
      ensures Tables() == CreateAccount(old(Tables()), email, newId, invitesRequired, now)
    {
      auth := auth[newId := AuthRow(Some(email), true)];
      if newId !in profiles {
        profiles := profiles[newId := Profile(User, Some(email))];
      }
      access := access[newId :=
        Access(!invitesRequired, if invitesRequired then None else Some(now), None, None, None)];
      if email in claims && claims[email].claimedBy.None? && claims[email].expiresAt > now {
        claims := claims[email := claims[email].(claimedBy := Some(newId))];
        access := access[newId := access[newId].(
          enabled := true, enabledAt := Some(OrElse(access[newId].enabledAt, now)),
          disabledAt := None, reason := None)];
      }
    }

    method RemoveIdentity(id: ClerkId, cleanup: Cleanup, now: Time) returns (failed: bool)
      modifies this
      ensures Tables() == Remove(old(Tables()), id, cleanup, now)
      ensures failed <==> cleanup.Errored? && Cleans(old(Tables()), id)
    {
      var uuid := AccountOf(Tables(), id);
      if uuid.None? {
        Entomb(id, None, now);
        return false;
      }
      var u := uuid.value;
      if u in deletions && deletions[u].status == Completed {
        return false;
      }
      ghost var db := Tables();
      assert Cleans(db, id);
      RemovesAs(db, id, u, cleanup, now);
      RevokeIdentity(id, u, now);
      failed := SettleRemoval(u, cleanup, now);
    }

    /** The cleanup part, under its savepoint; a failure other than a foreign key is recorded and rethrown. */
    method SettleRemoval(u: Uuid, cleanup: Cleanup, now: Time) returns (failed: bool)
      requires u in deletions
      modifies this
      ensures failed == cleanup.Errored?
      ensures Tables() == Settle(old(Tables()), u, cleanup, now)
    {
      match cleanup
      case Erased =>
        Erase(u, now);
        return false;
      case ForeignKeyBlocked =>
        Defer(u);
        deletions := deletions[u := deletions[u].(completedAt := None)];
        return false;
      case Errored =>
        deletions := deletions[u := deletions[u].(lastError := Some(CleanupFailed), lockedUntil := None)];
        return true;
    }

    method Erase(u: Uuid, now: Time)
      requires u in deletions
      modifies this
      ensures Tables() == SettleErased(DeleteAuthRow(old(Tables()), u, now), u, now)
    {
      Restore(DeleteAuthRow(Tables(), u, now));
      deletions := deletions[u := deletions[u].(
        status := Completed, completedAt := Some(now), lockedUntil := None, lastError := None)];
    }

    method Defer(u: Uuid)
      requires u in deletions
      modifies this
      ensures Tables() == SettleDeferred(CleanRetained(old(Tables()), u), u)
    {
      Restore(CleanRetained(Tables(), u));
      deletions := deletions[u := deletions[u].(
        status := CleanupDeferred, lockedUntil := None, lastError := Some(ProtectedAttribution))];
    }

    /** INSERT .. ON CONFLICT DO UPDATE of the lifecycle row: an earlier deletion time is kept. */
    method Entomb(id: ClerkId, storage: Option<Uuid>, now: Time)
      modifies this`lifecycle
      ensures lifecycle == old(lifecycle)[id :=
                if id in old(lifecycle) then Bury(old(lifecycle)[id], now) else Lifecycle(storage, 0, Some(now))]
    {
      lifecycle := lifecycle[id :=
        if id in lifecycle then Bury(lifecycle[id], now) else Lifecycle(storage, 0, Some(now))];
    }

    method RevokeIdentity(id: ClerkId, u: Uuid, now: Time)
      modifies this
      ensures Tables() == Revoke(old(Tables()), id, u, now)
    {
      Entomb(id, Some(u), now);
      mapping := mapping - {id};
      if u in access {
        access := access[u := access[u].(
          enabled := false, disabledAt := Some(OrElse(access[u].disabledAt, now)),
          reason := Some(ClerkAccountDeleted))];
      }
      mail := CancelMail(mail, u);
      if u in deletions {
        var d := deletions[u];
        deletions := deletions[u := d.(status := PendingCleanup, attempts := d.attempts + 1,
                                       confirmedAt := Some(OrElse(d.confirmedAt, now)), lockedUntil := None,
                                       lastError := None)];
      } else {
        deletions := deletions[u := Deletion(Some(id), PendingCleanup, 1, None, Some(now), None, None)];
      }
    }

    /** Claim or open a deletion record. The mapping is unique per UUID, as its unique index demands. */
    method StageDeletion(actor: Uuid, userId: Uuid, now: Time) returns (reply: StageReply)
      requires SoleOwner(Tables())
      modifies this
      ensures (Tables(), reply) == Stage(old(Tables()), actor, userId, now)
    {
      if actor == userId {
        return Protected;
      }
      if userId in deletions {
        var existing := deletions[userId];
        if existing.status == Completed {
          return AlreadyDone;
        }
        if existing.lockedUntil.Some? && existing.lockedUntil.value > now {
          return Busy;
        }
        if IsAdmin(Tables(), userId) {
          return Protected;
        }
        deletions := deletions[userId :=
          existing.(attempts := existing.attempts + 1, lockedUntil := Some(now + LEASE))];
        return Staged(existing.attempts + 1, existing.clerkId, existing.confirmedAt.Some?);
      }
      if userId !in auth {
        return NotFound;
      }
      if IsAdmin(Tables(), userId) {
        return Protected;
      }
      var clerkId := LinkedTo(userId);
      deletions := deletions[userId := Deletion(
        clerkId, if clerkId.Some? then PendingProvider else PendingCleanup, 1, Some(now + LEASE),
        if clerkId.Some? then None else Some(now), None, None)];
      if clerkId.Some? {
        var id := clerkId.value;
        lifecycle := lifecycle[id :=
          if id in lifecycle then Bury(lifecycle[id], now).(storage := Some(userId))
          else Lifecycle(Some(userId), 0, Some(now))];
        mapping := mapping - {id};
      }
      if userId in access {
        access := access[userId :=
          access[userId].(enabled := false, disabledAt := Some(now), reason := Some(DeletionRequested))];
      }
      mail := CancelMail(mail, userId);
      return Staged(1, clerkId, clerkId.None?);
    }

    method LinkedTo(userId: Uuid) returns (clerkId: Option<ClerkId>)
      requires SoleOwner(Tables())
      ensures clerkId == ClerkIdOf(Tables(), userId)
    {
      var ids := set id | id in mapping && mapping[id].uuid == userId;
      if ids == {} {
        return None;
      }
      var id :| id in ids;
      assert ids == {id};
      SoleIs(ids, id);
      return Some(id);
    }

    method Confirm(userId: Uuid, token: nat, now: Time) returns (landed: bool)
      modifies this
      ensures (Tables(), landed) == ConfirmProvider(old(Tables()), userId, token, now)
    {
      landed := userId in deletions && deletions[userId].attempts == token;
      if landed {
        deletions := deletions[userId :=
          deletions[userId].(status := PendingCleanup, confirmedAt := Some(now), lastError := None)];
      }
    }

    method Record(userId: Uuid, token: nat, error: DeletionError)
      modifies this
      ensures Tables() == RecordError(old(Tables()), userId, token, error)
    {
      if userId in deletions && deletions[userId].attempts == token {
        deletions := deletions[userId := deletions[userId].(lastError := Some(error), lockedUntil := None)];
      }
    }

    method CleanUpAccount(userId: Uuid, token: nat, cleanup: Cleanup, now: Time) returns (reply: CleanupReply)
      modifies this
      ensures (Tables(), reply) == CleanUp(old(Tables()), userId, token, cleanup, now)
    {
      if userId in deletions && deletions[userId].status == Completed {
        return Finished;
      }
      if userId !in deletions || deletions[userId].attempts != token {
        return Superseded;
      }
      match cleanup
      case Erased =>
        if userId !in auth || IsAdmin(Tables(), userId) {
          return RolledBack;
        }
        Erase(userId, now);
        return Finished;
      case ForeignKeyBlocked =>
        Defer(userId);
        return Deferred;
      case Errored =>
        return RolledBack;
    }

    /** The provider answered: record the refusal or the confirmation, under the token. */
    method AfterProvider(userId: Uuid, token: nat, providerOk: bool, now: Time) returns (landed: bool)
      modifies this
      ensures landed == (providerOk && old(Holds(Tables(), userId, token)))
      ensures Tables() == if providerOk then ConfirmProvider(old(Tables()), userId, token, now).0
                          else RecordError(old(Tables()), userId, token, ProviderError)
    {
      if providerOk {
        landed := Confirm(userId, token, now);
      } else {
        Record(userId, token, ProviderError);
        landed := false;
      }
    }

    /** The cleanup transaction, then the error report of a rolled-back one. */
    method FinishDeletion(userId: Uuid, token: nat, cleanup: Cleanup, now: Time) returns (ok: bool)
      modifies this
      ensures (Tables(), ok) == Finish(old(Tables()), userId, token, cleanup, now)
    {
      var outcome := CleanUpAccount(userId, token, cleanup, now);
      if outcome == RolledBack {
        Record(userId, token, CleanupFailed);
      }
      return outcome == Finished;
    }

    /**
     One operator deletion without interference: `providerOk` and `cleanup` are what the
     provider and the database answer. It returns normally exactly when the record is completed and
     the operator did not ask to delete themselves.
     */
    method DeleteAccount(actor: Uuid, userId: Uuid, providerOk: bool, cleanup: Cleanup, now: Time) returns (ok: bool)
      requires DbInv(Tables())
      modifies this
      ensures DbInv(Tables()) && Advances(old(Tables()), Tables())
      ensures (Tables(), ok) == DeleteAlone(old(Tables()), actor, userId, providerOk, cleanup, now)
      ensures ok <==> actor != userId && userId in deletions && deletions[userId].status == Completed
      ensures actor == userId ==> Tables() == old(Tables()) && !ok
    {
      ghost var db := Tables();
      DeleteAloneTheorem(db, actor, userId, providerOk, cleanup, now);
      var reply := StageDeletion(actor, userId, now);
      ghost var staged := Tables();
      assert DeleteAlone(db, actor, userId, providerOk, cleanup, now) ==
             AfterStage(staged, reply, userId, providerOk, cleanup, now);
      if !reply.Staged? {
        return reply == AlreadyDone;
      }
      if !reply.confirmed && reply.clerkId.Some? {
        var landed := AfterProvider(userId, reply.token, providerOk, now);
        if !landed {
          StagedHolds(db, actor, userId, now);
          return false;
        }
      }
      ok := FinishDeletion(userId, reply.token, cleanup, now);
    }

    method RedeemInvite(id: ClerkId, invite: Option<Time>, now: Time) returns (reply: RedeemReply)
      modifies this
      ensures (Tables(), reply) == Redeem(old(Tables()), id, invite, now)
    {
      if id !in mapping {
        return if Tombstoned(Tables(), id) then Denied else NotProvisioned;
      }
      var actor := mapping[id];
      if actor.uuid !in auth || actor.uuid !in access {
        return Denied;
      }
      if Allowed(access[actor.uuid], now) {
        return Ready;
      }
      if !Eligible(access[actor.uuid]) || actor.role != Member {
        return Denied;
      }
      if actor.email in claims && claims[actor.email].claimedBy.Some? {
        return Denied;
      }
      if invite.None? {
        return Invalid;
      }
      if invite.value <= now {
        return LostClaim;
      }
      claims := claims[actor.email := Claim(Some(actor.uuid), invite.value)];
      access := access[actor.uuid := access[actor.uuid].(enabled := true, enabledAt := Some(now))];
      return Ready;
    }
  }
}
