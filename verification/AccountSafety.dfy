/** What every interleaving of the account writers keeps. */
module AccountSafety {
  import opened Common
  import opened Accounts
  import opened AccountSystem

  // ---------------------------------------------------------------- the invariant

  ghost predicate SoleOwner(db: Db) {
    forall i, j | i in db.mapping && j in db.mapping && db.mapping[i].uuid == db.mapping[j].uuid :: i == j
  }

  ghost predicate MappedIsLive(db: Db) {
    forall id | id in db.mapping ::
      && !Tombstoned(db, id)
      && db.mapping[id].uuid in db.auth
      && (id in db.lifecycle ==> db.lifecycle[id].storage == Some(db.mapping[id].uuid))
  }

  ghost predicate BuriedIsUnmapped(db: Db) {
    forall id, j | id in db.lifecycle && db.lifecycle[id].deletedAt.Some? && j in db.mapping ::
      db.lifecycle[id].storage != Some(db.mapping[j].uuid)
  }

  /** The UUID cannot be found by address and belongs to a deletion staged without an identity. */
  ghost predicate Stranded(db: Db, u: Uuid) {
    && (u in db.auth ==> db.auth[u].email == None)
    && !Owned(db, u)
    && u in db.deletions && db.deletions[u].clerkId == None
  }

  /** A live identity that lost its mapping lost it to the cleanup of such a deletion. */
  ghost predicate UnmappedIsStranded(db: Db) {
    forall id | id in db.lifecycle && db.lifecycle[id].deletedAt.None? && db.lifecycle[id].storage.Some? &&
      id !in db.mapping ::
      Stranded(db, db.lifecycle[id].storage.value)
  }

  ghost predicate DeletionSound(db: Db, u: Uuid)
    requires u in db.deletions
  {
    var d := db.deletions[u];
    && (d.status == PendingProvider <==> d.confirmedAt.None?)
    && (d.status == PendingProvider ==> d.clerkId.Some?)
    && (d.status == Completed ==> u !in db.auth)
    && (u in db.access ==> !db.access[u].enabled && db.access[u].disabledAt.Some?)
    && (d.clerkId.Some? ==>
          && Tombstoned(db, d.clerkId.value)
          && db.lifecycle[d.clerkId.value].storage == Some(u))
  }

  ghost predicate DeletionsSound(db: Db) {
    forall u | u in db.deletions :: DeletionSound(db, u)
  }

  ghost predicate MailSilenced(db: Db) {
    forall k | k in db.mail && AccountMail(db.mail[k]) && db.mail[k].target.Some? &&
      db.mail[k].target.value in db.deletions ::
      db.mail[k].status in {Sent, Cancelled}
  }

  ghost predicate DbInv(db: Db) {
    && SoleOwner(db)
    && MappedIsLive(db)
    && BuriedIsUnmapped(db)
    && UnmappedIsStranded(db)
    && DeletionsSound(db)
    && MailSilenced(db)
  }

  /**
   A token at most as new as its record; while it is current, the record waits for exactly its holder's
   next write.
   */
  ghost predicate WorkerSound(db: Db, w: Worker) {
    && w.user in db.deletions
    && w.token <= db.deletions[w.user].attempts
    && (w.token == db.deletions[w.user].attempts ==>
          match w
          case CallingProvider(u, _) => db.deletions[u].status == PendingProvider
          case CleaningUp(u, _) => db.deletions[u].status in {PendingCleanup, CleanupDeferred}
          case Reporting(u, _) => db.deletions[u].status != PendingProvider)
  }

  ghost predicate WorkersSound(sys: System) {
    && (forall w | w in sys.workers :: WorkerSound(sys.db, sys.workers[w]))
    && (forall v, w | v in sys.workers && w in sys.workers && v != w ::
          sys.workers[v].user == sys.workers[w].user ==> sys.workers[v].token != sys.workers[w].token)
  }

  ghost predicate Inv(sys: System) {
    DbInv(sys.db) && WorkersSound(sys)
  }

  // ---------------------------------------------------------------- transactions keep it

  lemma DeleteAuthRowKeeps(db: Db, u: Uuid, now: Time)
    requires DbInv(db)
    ensures DbInv(DeleteAuthRow(db, u, now))
  {
    DeleteAuthRowMapping(db, u, now);
    DeleteAuthRowStrands(db, u, now);
    DeleteAuthRowDeletions(db, u, now);
  }

  lemma DeleteAuthRowMapping(db: Db, u: Uuid, now: Time)
    requires SoleOwner(db) && MappedIsLive(db) && BuriedIsUnmapped(db)
    ensures var after := DeleteAuthRow(db, u, now);
            SoleOwner(after) && MappedIsLive(after) && BuriedIsUnmapped(after)
  {
  }

  lemma DeleteAuthRowStrands(db: Db, u: Uuid, now: Time)
    requires UnmappedIsStranded(db)
    ensures UnmappedIsStranded(DeleteAuthRow(db, u, now))
  {
    var after := DeleteAuthRow(db, u, now);
    forall id | id in after.lifecycle && after.lifecycle[id].deletedAt.None? && after.lifecycle[id].storage.Some? &&
      id !in after.mapping
      ensures Stranded(after, after.lifecycle[id].storage.value)
    {
      assert id in db.lifecycle && id !in db.mapping && after.lifecycle[id] == db.lifecycle[id];
      assert Stranded(db, db.lifecycle[id].storage.value);
    }
  }

  lemma DeleteAuthRowDeletions(db: Db, u: Uuid, now: Time)
    requires MappedIsLive(db) && DeletionsSound(db) && MailSilenced(db)
    ensures var after := DeleteAuthRow(db, u, now);
            DeletionsSound(after) && MailSilenced(after)
  {
    var after := DeleteAuthRow(db, u, now);
    forall v | v in after.deletions
      ensures DeletionSound(after, v)
    {
      assert DeletionSound(db, v);
    }
  }

  lemma UpdateMappedDeletions(db: Db, id: ClerkId, email: Email, ts: nat)
    requires id in db.mapping && db.mapping[id].uuid in db.auth && DeletionsSound(db) && MailSilenced(db)
    requires !Tombstoned(db, id)
    ensures var after := UpdateMapped(db, id, email, ts);
            DeletionsSound(after) && MailSilenced(after)
  {
    var after := UpdateMapped(db, id, email, ts);
    forall u | u in after.deletions
      ensures DeletionSound(after, u)
    {
      assert DeletionSound(db, u);
    }
  }

  lemma UpdateMappedKeeps(db: Db, id: ClerkId, email: Email, ts: nat)
    requires DbInv(db) && id in db.mapping && db.mapping[id].uuid in db.auth
    ensures DbInv(UpdateMapped(db, id, email, ts))
  {
    UpdateMappedDeletions(db, id, email, ts);
    var after := UpdateMapped(db, id, email, ts);
    forall j | j in after.lifecycle && after.lifecycle[j].deletedAt.None? && after.lifecycle[j].storage.Some? &&
      j !in after.mapping
      ensures Stranded(after, after.lifecycle[j].storage.value)
    {
      assert Stranded(db, db.lifecycle[j].storage.value);
    }
  }

  lemma LinkKeeps(db: Db, id: ClerkId, email: Email, ts: nat, u: Uuid, role: MappedRole)
    requires DbInv(db) && id !in db.mapping && !Tombstoned(db, id)
    requires u in db.auth && db.auth[u].email.Some? && !Owned(db, u) && !Revoked(db, u)
    ensures DbInv(LinkAccount(db, id, email, ts, u, role))
  {
  }

  lemma CreateKeeps(db: Db, email: Email, newId: Uuid, invitesRequired: bool, now: Time)
    requires DbInv(db) && Unused(db, newId)
    ensures var made := CreateAccount(db, email, newId, invitesRequired, now);
            DbInv(made) && !Revoked(made, newId) && !Owned(made, newId)
            && made.lifecycle == db.lifecycle && made.mapping == db.mapping
            && made.deletions == db.deletions
            && newId in made.auth && made.auth[newId].email == Some(email)
  {
  }

  lemma ApplyKeeps(db: Db, id: ClerkId, email: Email, ts: nat, newId: Uuid, welcome: MailKey, invitesRequired: bool,
                   now: Time)
    requires DbInv(db) && Unused(db, newId)
    ensures DbInv(Apply(db, id, email, ts, newId, welcome, invitesRequired, now).0)
  {
    var after := Apply(db, id, email, ts, newId, welcome, invitesRequired, now).0;
    if after != db {
      var found := Historical(db, email);
      if id in db.mapping {
        UpdateMappedKeeps(db, id, email, ts);
        assert after == UpdateMapped(db, id, email, ts);
      } else if found == {} {
        CreatedKeeps(db, id, email, ts, newId, welcome, invitesRequired, now);
      } else {
        var u := Sole(found);
        var role := if db.profiles[u].role == Admin then Operator else Member;
        LinkKeeps(db, id, email, ts, u, role);
        assert after == LinkAccount(db, id, email, ts, u, role);
      }
    }
  }

  lemma CreatedKeeps(db: Db, id: ClerkId, email: Email, ts: nat, newId: Uuid, welcome: MailKey, invitesRequired: bool,
                     now: Time)
    requires DbInv(db) && Unused(db, newId) && id !in db.mapping && !Tombstoned(db, id)
    ensures DbInv(QueueWelcome(
              LinkAccount(CreateAccount(db, email, newId, invitesRequired, now), id, email, ts, newId, Member),
              welcome, newId))
  {
    CreateKeeps(db, email, newId, invitesRequired, now);
    var made := CreateAccount(db, email, newId, invitesRequired, now);
    LinkKeeps(made, id, email, ts, newId, Member);
    SameAccountsKeep(LinkAccount(made, id, email, ts, newId, Member),
                     QueueWelcome(LinkAccount(made, id, email, ts, newId, Member), welcome, newId));
  }

  /** Rewriting a deletion record for the same identity, soundly. */
  lemma RewriteDeletionKeeps(db: Db, u: Uuid, d: Deletion)
    requires DbInv(db) && u in db.deletions && d.clerkId == db.deletions[u].clerkId
    requires d.status == PendingProvider <==> d.confirmedAt.None?
    requires d.status == PendingProvider ==> db.deletions[u].status == PendingProvider
    requires d.status == Completed ==> u !in db.auth
    ensures DbInv(db.(deletions := db.deletions[u := d]))
  {
    var after := db.(deletions := db.deletions[u := d]);
    assert DeletionSound(db, u);
    forall v | v in after.deletions
      ensures DeletionSound(after, v)
    {
      assert DeletionSound(db, v);
    }
    forall id | id in after.lifecycle && after.lifecycle[id].deletedAt.None? && after.lifecycle[id].storage.Some? &&
      id !in after.mapping
      ensures Stranded(after, after.lifecycle[id].storage.value)
    {
      assert Stranded(db, db.lifecycle[id].storage.value);
    }
  }

  lemma RevokeMapping(db: Db, id: ClerkId, u: Uuid, now: Time)
    requires DbInv(db) && AccountOf(db, id) == Some(u)
    ensures var after := Revoke(db, id, u, now);
            && SoleOwner(after) && MappedIsLive(after) && BuriedIsUnmapped(after)
            && Tombstoned(after, id) && after.lifecycle[id].storage == Some(u) && !Owned(after, u)
  {
    if id !in db.mapping {
      assert Tombstoned(db, id) || Stranded(db, u);
    }
  }

  lemma RevokeStrands(db: Db, id: ClerkId, u: Uuid, now: Time)
    requires UnmappedIsStranded(db)
    ensures UnmappedIsStranded(Revoke(db, id, u, now))
  {
    var after := Revoke(db, id, u, now);
    forall j | j in after.lifecycle && after.lifecycle[j].deletedAt.None? && after.lifecycle[j].storage.Some? &&
      j !in after.mapping
      ensures Stranded(after, after.lifecycle[j].storage.value)
    {
      assert j != id && Stranded(db, db.lifecycle[j].storage.value);
    }
  }

  lemma RevokeDeletions(db: Db, id: ClerkId, u: Uuid, now: Time)
    requires DbInv(db) && AccountOf(db, id) == Some(u)
    ensures var after := Revoke(db, id, u, now);
            DeletionsSound(after) && MailSilenced(after)
  {
    RevokeMapping(db, id, u, now);
    var after := Revoke(db, id, u, now);
    forall v | v in after.deletions
      ensures DeletionSound(after, v)
    {
      assert v in db.deletions ==> DeletionSound(db, v);
    }
  }

  lemma RevokeKeeps(db: Db, id: ClerkId, u: Uuid, now: Time)
    requires DbInv(db) && AccountOf(db, id) == Some(u)
    ensures DbInv(Revoke(db, id, u, now))
  {
    RevokeMapping(db, id, u, now);
    RevokeStrands(db, id, u, now);
    RevokeDeletions(db, id, u, now);
  }

  /** A mapped account with a deletion record was staged without an identity. */
  lemma MappedDeletionHasNoIdentity(db: Db, u: Uuid)
    requires DbInv(db) && u in db.deletions && Owned(db, u)
    ensures db.deletions[u].clerkId == None
  {
    assert DeletionSound(db, u);
  }

  lemma CleanRetainedKeeps(db: Db, u: Uuid)
    requires DbInv(db) && u in db.deletions
    ensures DbInv(CleanRetained(db, u))
  {
    if Owned(db, u) {
      MappedDeletionHasNoIdentity(db, u);
    }
    var after := CleanRetained(db, u);
    assert !Owned(after, u);
    forall id | id in after.lifecycle && after.lifecycle[id].deletedAt.None? && after.lifecycle[id].storage.Some? &&
      id !in after.mapping
      ensures Stranded(after, after.lifecycle[id].storage.value)
    {
      if id !in db.mapping {
        assert Stranded(db, db.lifecycle[id].storage.value);
      } else {
        assert db.mapping[id].uuid == u;
      }
    }
  }

  lemma EraseKeeps(db: Db, u: Uuid, now: Time)
    requires DbInv(db) && u in db.deletions && db.deletions[u].confirmedAt.Some?
    ensures DbInv(SettleErased(DeleteAuthRow(db, u, now), u, now))
  {
    DeleteAuthRowKeeps(db, u, now);
    var gone := DeleteAuthRow(db, u, now);
    RewriteDeletionKeeps(gone, u, SettleErased(gone, u, now).deletions[u]);
  }

  lemma DeferKeeps(db: Db, u: Uuid)
    requires DbInv(db) && u in db.deletions && db.deletions[u].confirmedAt.Some?
    ensures DbInv(SettleDeferred(CleanRetained(db, u), u))
  {
    CleanRetainedKeeps(db, u);
    var clean := CleanRetained(db, u);
    RewriteDeletionKeeps(clean, u, SettleDeferred(clean, u).deletions[u]);
  }

  lemma RemoveKeeps(db: Db, id: ClerkId, cleanup: Cleanup, now: Time)
    requires DbInv(db)
    ensures DbInv(Remove(db, id, cleanup, now))
  {
    match AccountOf(db, id)
    case None => BuryUnknownKeeps(db, id, now);
    case Some(u) =>
      if !(u in db.deletions && db.deletions[u].status == Completed) {
        RevokeKeeps(db, id, u, now);
        RemoveCleanupKeeps(db, id, u, cleanup, now);
      }
  }

  lemma BuryUnknownKeeps(db: Db, id: ClerkId, now: Time)
    requires DbInv(db) && AccountOf(db, id) == None
    ensures DbInv(Remove(db, id, Errored, now))
  {
    var after := Remove(db, id, Errored, now);
    forall u | u in after.deletions
      ensures DeletionSound(after, u)
    {
      assert DeletionSound(db, u);
    }
  }

  lemma RemoveCleanupKeeps(db: Db, id: ClerkId, u: Uuid, cleanup: Cleanup, now: Time)
    requires AccountOf(db, id) == Some(u) && DbInv(Revoke(db, id, u, now))
    requires u in db.deletions ==> db.deletions[u].status != Completed
    ensures DbInv(Remove(db, id, cleanup, now))
  {
    var revoked := Revoke(db, id, u, now);
    match cleanup
    case Erased => EraseKeeps(revoked, u, now);
    case ForeignKeyBlocked =>
      DeferKeeps(revoked, u);
      var settled := SettleDeferred(CleanRetained(revoked, u), u);
      RewriteDeletionKeeps(settled, u, settled.deletions[u].(completedAt := None));
    case Errored => RewriteDeletionKeeps(revoked, u, revoked.deletions[u].(lastError := Some(CleanupFailed)));
  }

  lemma ReclaimKeeps(db: Db, u: Uuid, d: Deletion)
    requires DbInv(db) && u in db.deletions
    requires d == db.deletions[u].(attempts := d.attempts, lockedUntil := d.lockedUntil)
    ensures DbInv(db.(deletions := db.deletions[u := d]))
  {
    assert DeletionSound(db, u);
    RewriteDeletionKeeps(db, u, d);
  }

  lemma StageKeeps(db: Db, actor: Uuid, u: Uuid, now: Time)
    requires DbInv(db)
    ensures DbInv(Stage(db, actor, u, now).0)
  {
    var after := Stage(db, actor, u, now).0;
    if after != db {
      if u in db.deletions {
        ReclaimKeeps(db, u, after.deletions[u]);
        assert after == db.(deletions := db.deletions[u := after.deletions[u]]);
      } else {
        FirstStageKeeps(db, u, ClerkIdOf(db, u), now);
        assert after == FirstStage(db, u, ClerkIdOf(db, u), now);
      }
    }
  }

  lemma FirstStageMapping(db: Db, u: Uuid, clerk: Option<ClerkId>, now: Time)
    requires SoleOwner(db) && MappedIsLive(db) && BuriedIsUnmapped(db)
    requires clerk.Some? ==> clerk.value in db.mapping && db.mapping[clerk.value].uuid == u
    ensures var after := FirstStage(db, u, clerk, now);
            SoleOwner(after) && MappedIsLive(after) && BuriedIsUnmapped(after)
  {
  }

  lemma FirstStageStrands(db: Db, u: Uuid, clerk: Option<ClerkId>, now: Time)
    requires UnmappedIsStranded(db) && u !in db.deletions
    ensures UnmappedIsStranded(FirstStage(db, u, clerk, now))
  {
    var after := FirstStage(db, u, clerk, now);
    forall j | j in after.lifecycle && after.lifecycle[j].deletedAt.None? && after.lifecycle[j].storage.Some? &&
      j !in after.mapping
      ensures Stranded(after, after.lifecycle[j].storage.value)
    {
      assert Stranded(db, db.lifecycle[j].storage.value);
    }
  }

  lemma FirstStageDeletions(db: Db, u: Uuid, clerk: Option<ClerkId>, now: Time)
    requires DeletionsSound(db) && MailSilenced(db) && MappedIsLive(db) && u !in db.deletions && u in db.auth
    requires clerk.Some? ==> clerk.value in db.mapping && db.mapping[clerk.value].uuid == u
    ensures var after := FirstStage(db, u, clerk, now);
            DeletionsSound(after) && MailSilenced(after)
  {
    var after := FirstStage(db, u, clerk, now);
    forall v | v in after.deletions
      ensures DeletionSound(after, v)
    {
      assert v != u ==> DeletionSound(db, v);
    }
  }

  lemma FirstStageKeeps(db: Db, u: Uuid, clerk: Option<ClerkId>, now: Time)
    requires DbInv(db) && u !in db.deletions && u in db.auth
    requires clerk.Some? ==> clerk.value in db.mapping && db.mapping[clerk.value].uuid == u
    ensures DbInv(FirstStage(db, u, clerk, now))
  {
    FirstStageMapping(db, u, clerk, now);
    FirstStageStrands(db, u, clerk, now);
    FirstStageDeletions(db, u, clerk, now);
  }

  lemma CleanUpKeeps(db: Db, u: Uuid, token: nat, cleanup: Cleanup, now: Time)
    requires DbInv(db)
    requires Holds(db, u, token) ==> db.deletions[u].confirmedAt.Some?
    ensures DbInv(CleanUp(db, u, token, cleanup, now).0)
  {
    if Holds(db, u, token) {
      match cleanup
      case Erased => EraseKeeps(db, u, now);
      case ForeignKeyBlocked => DeferKeeps(db, u);
      case Errored =>
    }
  }

  lemma DeletedIsDisabled(db: Db, u: Uuid)
    requires DeletionsSound(db)
    ensures u in db.deletions && u in db.access ==> !db.access[u].enabled && db.access[u].disabledAt.Some?
  {
    assert u in db.deletions ==> DeletionSound(db, u);
  }

  lemma RedeemKeeps(db: Db, id: ClerkId, invite: Option<Time>, now: Time)
    requires DbInv(db)
    ensures var after := Redeem(db, id, invite, now).0;
            DbInv(after) && Advances(db, after) && after.deletions == db.deletions
  {
    var after := Redeem(db, id, invite, now).0;
    if after != db {
      var u := db.mapping[id].uuid;
      DeletedIsDisabled(db, u);
      EnableKeeps(db, after, u);
    }
  }

  /** Changing the access row of an account without a deletion record. */
  lemma EnableKeeps(db: Db, after: Db, u: Uuid)
    requires DbInv(db) && u !in db.deletions && u in after.access
    requires after == db.(claims := after.claims, access := db.access[u := after.access[u]])
    ensures DbInv(after)
  {
    forall v | v in after.deletions
      ensures DeletionSound(after, v)
    {
      assert DeletionSound(db, v);
    }
    forall j | j in after.lifecycle && after.lifecycle[j].deletedAt.None? && after.lifecycle[j].storage.Some? &&
      j !in after.mapping
      ensures Stranded(after, after.lifecycle[j].storage.value)
    {
      assert Stranded(db, db.lifecycle[j].storage.value);
    }
  }

  // ---------------------------------------------------------------- the fence

  /** What no transaction undoes: the tables only move forward between two states. */
  ghost predicate Advances(db: Db, after: Db) {
    && LifecycleAdvances(db.lifecycle, after.lifecycle)
    && DeletionsAdvance(db.deletions, after.deletions)
    && MailAdvances(db.mail, after.mail)
  }

  /** Rows stay, a deletion time once set stays as it is, and the snapshot timestamp never decreases. */
  ghost predicate LifecycleAdvances(rows: map<ClerkId, Lifecycle>, after: map<ClerkId, Lifecycle>) {
    forall id | id in rows ::
      && id in after
      && rows[id].providerUpdatedAt <= after[id].providerUpdatedAt
      && (rows[id].deletedAt.Some? ==> after[id].deletedAt == rows[id].deletedAt)
  }

  ghost predicate DeletionsAdvance(rows: map<Uuid, Deletion>, after: map<Uuid, Deletion>) {
    forall u | u in rows :: u in after && DeletionAdvances(rows[u], after[u])
  }

  ghost predicate DeletionAdvances(d: Deletion, e: Deletion) {
    && d.clerkId == e.clerkId
    && d.attempts <= e.attempts
    && (d.confirmedAt.Some? ==> e.confirmedAt.Some?)
    && (d.status == Completed ==> e.status == Completed && e.attempts == d.attempts && e.completedAt == d.completedAt)
  }

  ghost predicate MailAdvances(rows: map<MailKey, Mail>, after: map<MailKey, Mail>) {
    forall k | k in rows ::
      && k in after
      && (rows[k].status in {Sent, Cancelled} ==> after[k] == rows[k])
  }

  lemma AdvancesTransitive(a: Db, b: Db, c: Db)
    requires Advances(a, b) && Advances(b, c)
    ensures Advances(a, c)
  {
    forall u | u in a.deletions
      ensures u in c.deletions && DeletionAdvances(a.deletions[u], c.deletions[u])
    {
      assert u in b.deletions && DeletionAdvances(a.deletions[u], b.deletions[u]);
    }
  }

  /** Apply binds its identity to the snapshot it was given, or writes nothing. */
  ghost predicate Binds(db: Db, after: Db, id: ClerkId, email: Email, ts: nat) {
    && !Tombstoned(db, id) && (id in db.lifecycle ==> db.lifecycle[id].providerUpdatedAt < ts)
    && id in after.mapping && after.mapping == db.mapping[id := after.mapping[id]]
    && after.mapping[id].email == email
    && id in after.lifecycle && after.lifecycle == db.lifecycle[id := after.lifecycle[id]]
    && after.lifecycle[id].deletedAt.None? && after.lifecycle[id].providerUpdatedAt == ts
    && after.deletions == db.deletions
    && MailAdvances(db.mail, after.mail)
  }

  lemma UpdateBinds(db: Db, id: ClerkId, email: Email, ts: nat)
    requires id in db.mapping && db.mapping[id].uuid in db.auth
    requires !Tombstoned(db, id) && (id in db.lifecycle ==> db.lifecycle[id].providerUpdatedAt < ts)
    ensures Binds(db, UpdateMapped(db, id, email, ts), id, email, ts)
  {
    var after := UpdateMapped(db, id, email, ts);
    assert after.mapping == db.mapping[id := after.mapping[id]];
  }

  /** Linking binds, whether the account was there or was just made. */
  lemma LinkBinds(db: Db, made: Db, id: ClerkId, email: Email, ts: nat, u: Uuid, role: MappedRole)
    requires made.mapping == db.mapping && made.lifecycle == db.lifecycle && made.deletions == db.deletions
    requires MailAdvances(db.mail, made.mail)
    requires !Tombstoned(db, id) && (id in db.lifecycle ==> db.lifecycle[id].providerUpdatedAt < ts)
    ensures Binds(db, LinkAccount(made, id, email, ts, u, role), id, email, ts)
  {
  }

  lemma WelcomeBinds(db: Db, linked: Db, id: ClerkId, email: Email, ts: nat, welcome: MailKey, u: Uuid)
    requires Binds(db, linked, id, email, ts)
    ensures Binds(db, QueueWelcome(linked, welcome, u), id, email, ts)
  {
  }

  lemma ApplyBinds(db: Db, id: ClerkId, email: Email, ts: nat, newId: Uuid, welcome: MailKey, invitesRequired: bool,
                   now: Time)
    ensures var (after, reply) := Apply(db, id, email, ts, newId, welcome, invitesRequired, now);
            if reply == Applied then Binds(db, after, id, email, ts) else after == db
  {
    var (after, reply) := Apply(db, id, email, ts, newId, welcome, invitesRequired, now);
    if reply == Applied {
      var found := Historical(db, email);
      if id in db.mapping && db.mapping[id].uuid in db.auth {
        UpdateBinds(db, id, email, ts);
      } else if found == {} {
        var made := CreateAccount(db, email, newId, invitesRequired, now);
        LinkBinds(db, made, id, email, ts, newId, Member);
        WelcomeBinds(db, LinkAccount(made, id, email, ts, newId, Member), id, email, ts, welcome, newId);
      } else {
        var u := Sole(found);
        LinkBinds(db, db, id, email, ts, u, if db.profiles[u].role == Admin then Operator else Member);
      }
    }
  }

  lemma ApplyAdvances(db: Db, id: ClerkId, email: Email, ts: nat, newId: Uuid, welcome: MailKey,
                      invitesRequired: bool, now: Time)
    ensures var after := Apply(db, id, email, ts, newId, welcome, invitesRequired, now).0;
            Advances(db, after) && after.deletions == db.deletions
  {
    ApplyBinds(db, id, email, ts, newId, welcome, invitesRequired, now);
    BindsAdvances(db, Apply(db, id, email, ts, newId, welcome, invitesRequired, now).0, id, email, ts);
  }

  lemma BindsAdvances(db: Db, after: Db, id: ClerkId, email: Email, ts: nat)
    requires Binds(db, after, id, email, ts) || after == db
    ensures Advances(db, after)
  {
  }

  lemma DeleteAuthRowAdvances(db: Db, u: Uuid, now: Time)
    ensures Advances(db, DeleteAuthRow(db, u, now))
  {
  }

  lemma CleanUpRecord(db: Db, u: Uuid, token: nat, cleanup: Cleanup, now: Time)
    ensures var after := CleanUp(db, u, token, cleanup, now).0;
            && Advances(db, after)
            && (forall v | v in db.deletions && v != u :: v in after.deletions && after.deletions[v] == db.deletions[v])
            && (Holds(db, u, token) ==> u in after.deletions && after.deletions[u].attempts == token)
            && (!Holds(db, u, token) ==> after == db)
  {
    DeleteAuthRowAdvances(db, u, now);
    var after := CleanUp(db, u, token, cleanup, now).0;
    if Holds(db, u, token) && after != db {
      var d := after.deletions[u];
      assert after.deletions == db.deletions[u := d];
      assert DeletionAdvances(db.deletions[u], d);
      assert after.lifecycle == DeleteAuthRow(db, u, now).lifecycle || after.lifecycle == db.lifecycle;
      assert after.mail == DeleteAuthRow(db, u, now).mail || after.mail == db.mail;
    }
  }

  /** Remove either leaves the deletion records alone or reopens one under a new token. */
  lemma RemoveRecord(db: Db, id: ClerkId, cleanup: Cleanup, now: Time)
    ensures var after := Remove(db, id, cleanup, now);
            after.deletions == db.deletions
            || (AccountOf(db, id).Some? &&
                var u := AccountOf(db, id).value;
                && u in after.deletions && after.deletions == db.deletions[u := after.deletions[u]]
                && (u in db.deletions ==>
                      && db.deletions[u].status != Completed
                      && after.deletions[u].attempts == db.deletions[u].attempts + 1
                      && after.deletions[u].clerkId == db.deletions[u].clerkId
                      && after.deletions[u].confirmedAt.Some?))
  {
    if AccountOf(db, id).Some? && Remove(db, id, cleanup, now) != db {
      var u := AccountOf(db, id).value;
      var d := Remove(db, id, cleanup, now).deletions[u];
      assert Remove(db, id, cleanup, now).deletions == db.deletions[u := d];
    }
  }

  lemma RemoveLifecycle(db: Db, id: ClerkId, cleanup: Cleanup, now: Time)
    ensures LifecycleAdvances(db.lifecycle, Remove(db, id, cleanup, now).lifecycle)
  {
    if AccountOf(db, id).Some? {
      var u := AccountOf(db, id).value;
      DeleteAuthRowAdvances(Revoke(db, id, u, now), u, now);
    }
  }

  lemma RemoveMail(db: Db, id: ClerkId, cleanup: Cleanup, now: Time)
    ensures MailAdvances(db.mail, Remove(db, id, cleanup, now).mail)
  {
    if AccountOf(db, id).Some? {
      var u := AccountOf(db, id).value;
      DeleteAuthRowAdvances(Revoke(db, id, u, now), u, now);
    }
  }

  lemma RemoveAdvances(db: Db, id: ClerkId, cleanup: Cleanup, now: Time)
    ensures Advances(db, Remove(db, id, cleanup, now))
    ensures Undisturbed(db.deletions, Remove(db, id, cleanup, now).deletions)
  {
    RemoveRecord(db, id, cleanup, now);
    RemoveLifecycle(db, id, cleanup, now);
    RemoveMail(db, id, cleanup, now);
  }

  lemma StageAdvances(db: Db, actor: Uuid, u: Uuid, now: Time)
    ensures Advances(db, Stage(db, actor, u, now).0)
    ensures Undisturbed(db.deletions, Stage(db, actor, u, now).0.deletions)
  {
    var after := Stage(db, actor, u, now).0;
    if after != db && u in db.deletions {
      RewriteAdvances(db, u, after.deletions[u]);
      assert after == db.(deletions := db.deletions[u := after.deletions[u]]);
    } else if after != db {
      FirstStageAdvances(db, u, ClerkIdOf(db, u), now);
      assert after == FirstStage(db, u, ClerkIdOf(db, u), now);
    }
  }

  lemma RewriteAdvances(db: Db, u: Uuid, d: Deletion)
    requires u in db.deletions && DeletionAdvances(db.deletions[u], d)
    ensures Advances(db, db.(deletions := db.deletions[u := d]))
    ensures db.deletions[u].attempts < d.attempts ==> Undisturbed(db.deletions, db.deletions[u := d])
  {
  }

  lemma FirstStageAdvances(db: Db, u: Uuid, clerk: Option<ClerkId>, now: Time)
    requires u !in db.deletions
    ensures var after := FirstStage(db, u, clerk, now);
            Advances(db, after) && Undisturbed(db.deletions, after.deletions)
  {
    var after := FirstStage(db, u, clerk, now);
    assert after.deletions == db.deletions[u := after.deletions[u]];
  }

  /** Deletion records change their status only together with their attempt counter. */
  ghost predicate Undisturbed(rows: map<Uuid, Deletion>, after: map<Uuid, Deletion>) {
    forall u | u in rows ::
      && u in after
      && (rows[u].attempts < after[u].attempts
          || (rows[u].attempts == after[u].attempts && rows[u].status == after[u].status))
  }

  lemma UndisturbedKeepsWorkers(sys: System, after: Db)
    requires WorkersSound(sys) && Undisturbed(sys.db.deletions, after.deletions)
    ensures WorkersSound(sys.(db := after))
  {
  }

  lemma ClaimKeepsWorkers(sys: System, w: WorkerId, actor: Uuid, u: Uuid, now: Time)
    requires WorkersSound(sys) && w !in sys.workers && DeletionsSound(sys.db)
    ensures var (db, reply) := Stage(sys.db, actor, u, now);
            WorkersSound(AfterClaim(sys, w, u, db, reply))
  {
    var (db, reply) := Stage(sys.db, actor, u, now);
    StageAdvances(sys.db, actor, u, now);
    UndisturbedKeepsWorkers(sys, db);
    if reply.Staged? {
      StagedRecord(sys.db, actor, u, now);
      NewTokenIsGreatest(sys, u, reply.token);
      ClaimerJoins(sys, w, u, db, reply);
    }
  }

  lemma NewTokenIsGreatest(sys: System, u: Uuid, token: nat)
    requires WorkersSound(sys) && (u in sys.db.deletions ==> sys.db.deletions[u].attempts < token)
    ensures forall v | v in sys.workers && sys.workers[v].user == u :: sys.workers[v].token < token
  {
    assert forall v | v in sys.workers :: WorkerSound(sys.db, sys.workers[v]);
  }

  lemma ClaimerJoins(sys: System, w: WorkerId, u: Uuid, db: Db, reply: StageReply)
    requires WorkersSound(sys.(db := db)) && w !in sys.workers && reply.Staged?
    requires u in db.deletions && db.deletions[u].attempts == reply.token
    requires !reply.confirmed && reply.clerkId.Some? <==> db.deletions[u].status == PendingProvider
    requires db.deletions[u].status != Completed
    requires forall v | v in sys.workers && sys.workers[v].user == u :: sys.workers[v].token < reply.token
    ensures WorkersSound(AfterClaim(sys, w, u, db, reply))
  {
    NewClaimKeepsWorkers(sys, db, w,
      if !reply.confirmed && reply.clerkId.Some? then CallingProvider(u, reply.token) else CleaningUp(u, reply.token));
  }

  /** A claim hands out a token no earlier claim had, and sends its holder where the record stands. */
  lemma StagedRecord(db: Db, actor: Uuid, u: Uuid, now: Time)
    requires DeletionsSound(db) && Stage(db, actor, u, now).1.Staged?
    ensures var (after, reply) := Stage(db, actor, u, now);
            && u in after.deletions && after.deletions[u].attempts == reply.token
            && (u in db.deletions ==> db.deletions[u].attempts < reply.token)
            && (!reply.confirmed && reply.clerkId.Some? <==> after.deletions[u].status == PendingProvider)
            && after.deletions[u].status != Completed
            && after.deletions[u].lockedUntil == Some(now + LEASE)
            && (u in db.deletions && db.deletions[u].lockedUntil.Some? ==> db.deletions[u].lockedUntil.value <= now)
  {
    assert u in db.deletions ==> DeletionSound(db, u);
  }

  lemma NewClaimKeepsWorkers(sys: System, after: Db, w: WorkerId, to: Worker)
    requires WorkersSound(sys.(db := after)) && w !in sys.workers && WorkerSound(after, to)
    requires forall v | v in sys.workers && sys.workers[v].user == to.user :: sys.workers[v].token < to.token
    ensures WorkersSound(Go(sys, after, w, to))
  {
  }

  /** The holder of the current token moves the record on; everyone else on it is already superseded. */
  lemma HolderKeepsWorkers(sys: System, w: WorkerId, after: System)
    requires WorkersSound(sys) && w in sys.workers
    requires forall v | v in sys.workers && v != w :: v in after.workers && after.workers[v] == sys.workers[v]
    requires forall v | v in after.workers :: v in sys.workers
    requires forall u | u in sys.db.deletions && u != sys.workers[w].user ::
               u in after.db.deletions && after.db.deletions[u] == sys.db.deletions[u]
    requires var u := sys.workers[w].user;
             && u in after.db.deletions && after.db.deletions[u].attempts == sys.db.deletions[u].attempts
             && (sys.workers[w].token != sys.db.deletions[u].attempts ==> after.db.deletions[u] == sys.db.deletions[u])
    requires w in after.workers ==>
               after.workers[w].user == sys.workers[w].user && after.workers[w].token == sys.workers[w].token
               && WorkerSound(after.db, after.workers[w])
    ensures WorkersSound(after)
  {
  }

  /** A fenced write that keeps the token: the tables stay sound and move forward. */
  lemma FencedWriteKeeps(db: Db, after: Db, u: Uuid)
    requires DbInv(db) && u in db.deletions && u in after.deletions
    requires after == db.(deletions := db.deletions[u := after.deletions[u]])
    requires var d, e := db.deletions[u], after.deletions[u];
             && e == d.(status := e.status, confirmedAt := e.confirmedAt,
                          lockedUntil := e.lockedUntil, lastError := e.lastError)
             && ((e.status == d.status && e.confirmedAt == d.confirmedAt)
                 || (d.status == PendingProvider && e.status == PendingCleanup && e.confirmedAt.Some?))
    ensures DbInv(after) && Advances(db, after)
  {
    assert DeletionSound(db, u);
    RewriteDeletionKeeps(db, u, after.deletions[u]);
    RewriteAdvances(db, u, after.deletions[u]);
  }

  lemma ProviderWorkers(sys: System, w: WorkerId, ok: bool, ackLost: bool, now: Time)
    requires WorkersSound(sys) && w in sys.workers && sys.workers[w].CallingProvider?
    ensures WorkersSound(AfterProvider(sys, w, ok, ackLost, now))
  {
    assert WorkerSound(sys.db, sys.workers[w]);
    HolderKeepsWorkers(sys, w, AfterProvider(sys, w, ok, ackLost, now));
  }

  lemma ProviderKeeps(sys: System, w: WorkerId, ok: bool, ackLost: bool, now: Time)
    requires Inv(sys) && w in sys.workers && sys.workers[w].CallingProvider?
    ensures var after := AfterProvider(sys, w, ok, ackLost, now);
            Inv(after) && Advances(sys.db, after.db)
  {
    var after := AfterProvider(sys, w, ok, ackLost, now);
    ProviderWorkers(sys, w, ok, ackLost, now);
    assert WorkerSound(sys.db, sys.workers[w]);
    FencedWriteKeeps(sys.db, after.db, sys.workers[w].user);
  }

  lemma CleanupKeepsAll(sys: System, w: WorkerId, cleanup: Cleanup, ackLost: bool, now: Time)
    requires Inv(sys) && w in sys.workers && sys.workers[w].CleaningUp?
    ensures Inv(AfterCleanup(sys, w, cleanup, ackLost, now))
  {
    var after := AfterCleanup(sys, w, cleanup, ackLost, now);
    var CleaningUp(u, token) := sys.workers[w];
    assert WorkerSound(sys.db, sys.workers[w]) && DeletionSound(sys.db, u);
    CleanUpRecord(sys.db, u, token, cleanup, now);
    HolderKeepsWorkers(sys, w, after);
    CleanUpKeeps(sys.db, u, token, cleanup, now);
  }

  lemma ReportWorkers(sys: System, w: WorkerId)
    requires WorkersSound(sys) && w in sys.workers && sys.workers[w].Reporting?
    ensures WorkersSound(AfterReport(sys, w))
  {
    assert WorkerSound(sys.db, sys.workers[w]);
    HolderKeepsWorkers(sys, w, AfterReport(sys, w));
  }

  lemma ReportKeeps(sys: System, w: WorkerId)
    requires Inv(sys) && w in sys.workers && sys.workers[w].Reporting?
    ensures var after := AfterReport(sys, w);
            Inv(after) && Advances(sys.db, after.db)
  {
    var after := AfterReport(sys, w);
    ReportWorkers(sys, w);
    assert WorkerSound(sys.db, sys.workers[w]);
    FencedWriteKeeps(sys.db, after.db, sys.workers[w].user);
  }

  lemma MailRowKeeps(db: Db, key: MailKey, m: Mail)
    requires DbInv(db)
    requires key in db.mail ==> db.mail[key].status !in {Sent, Cancelled}
    requires AccountMail(m) && m.target.Some? && m.target.value in db.deletions ==> m.status in {Sent, Cancelled}
    ensures var after := db.(mail := db.mail[key := m]);
            DbInv(after) && Advances(db, after)
  {
    SameAccountsKeep(db, db.(mail := db.mail[key := m]));
  }

  lemma QueueMailKeeps(db: Db, key: MailKey, kind: MailKind, u: Uuid)
    requires DbInv(db)
    ensures DbInv(QueueMail(db, key, kind, u)) && Advances(db, QueueMail(db, key, kind, u))
  {
    if QueueMail(db, key, kind, u) != db {
      MailRowKeeps(db, key, Mail(kind, Some(u), Pending));
    }
  }

  lemma MoveMailKeeps(db: Db, key: MailKey, status: MailStatus)
    requires DbInv(db)
    ensures DbInv(MoveMail(db, key, status)) && Advances(db, MoveMail(db, key, status))
  {
    if MoveMail(db, key, status) != db {
      MailRowKeeps(db, key, db.mail[key].(status := status));
    }
  }

  /** A transaction that touches mail alone. */
  lemma SameAccountsKeep(db: Db, after: Db)
    requires DbInv(db) && after == db.(mail := after.mail) && MailSilenced(after)
    ensures DbInv(after)
  {
    forall u | u in after.deletions
      ensures DeletionSound(after, u)
    {
      assert DeletionSound(db, u);
    }
    forall id | id in after.lifecycle && after.lifecycle[id].deletedAt.None? && after.lifecycle[id].storage.Some? &&
      id !in after.mapping
      ensures Stranded(after, after.lifecycle[id].storage.value)
    {
      assert Stranded(db, db.lifecycle[id].storage.value);
    }
  }

  lemma SnapshotKeeps(sys: System, e: Event)
    requires Inv(sys) && e.Snapshot? && Possible(sys, e)
    ensures Inv(Step(sys, e)) && Advances(sys.db, Step(sys, e).db)
  {
    ApplyKeeps(sys.db, e.id, e.email, e.ts, e.newId, e.welcome, e.invitesRequired, e.now);
    ApplyAdvances(sys.db, e.id, e.email, e.ts, e.newId, e.welcome, e.invitesRequired, e.now);
    UndisturbedKeepsWorkers(sys, Step(sys, e).db);
  }

  lemma DeletedKeeps(sys: System, e: Event)
    requires Inv(sys) && e.Deleted?
    ensures Inv(Step(sys, e)) && Advances(sys.db, Step(sys, e).db)
  {
    RemoveKeeps(sys.db, e.id, e.cleanup, e.now);
    RemoveAdvances(sys.db, e.id, e.cleanup, e.now);
    UndisturbedKeepsWorkers(sys, Step(sys, e).db);
  }

  lemma ClaimedKeeps(sys: System, e: Event)
    requires Inv(sys) && e.Claimed? && e.worker !in sys.workers
    ensures Inv(Step(sys, e)) && Advances(sys.db, Step(sys, e).db)
  {
    StageKeeps(sys.db, e.actor, e.user, e.now);
    StageAdvances(sys.db, e.actor, e.user, e.now);
    ClaimKeepsWorkers(sys, e.worker, e.actor, e.user, e.now);
  }

  lemma CleanedUpKeeps(sys: System, e: Event)
    requires Inv(sys) && e.CleanedUp? && e.worker in sys.workers && sys.workers[e.worker].CleaningUp?
    ensures Inv(Step(sys, e)) && Advances(sys.db, Step(sys, e).db)
  {
    var w := sys.workers[e.worker];
    CleanupKeepsAll(sys, e.worker, e.cleanup, e.ackLost, e.now);
    CleanUpRecord(sys.db, w.user, w.token, e.cleanup, e.now);
  }

  lemma RedeemedKeeps(sys: System, e: Event)
    requires Inv(sys) && e.Redeemed?
    ensures Inv(Step(sys, e)) && Advances(sys.db, Step(sys, e).db)
  {
    RedeemKeeps(sys.db, e.id, e.invite, e.now);
    UndisturbedKeepsWorkers(sys, Step(sys, e).db);
  }

  lemma DeletedElsewhereKeeps(sys: System, e: Event)
    requires Inv(sys) && e.DeletedElsewhere?
    ensures Inv(Step(sys, e)) && Advances(sys.db, Step(sys, e).db)
  {
    DeleteAuthRowKeeps(sys.db, e.user, e.now);
    DeleteAuthRowAdvances(sys.db, e.user, e.now);
    UndisturbedKeepsWorkers(sys, Step(sys, e).db);
  }

  lemma MailKeeps(sys: System, e: Event)
    requires Inv(sys) && (e.MailQueued? || e.MailMoved?)
    ensures Inv(Step(sys, e)) && Advances(sys.db, Step(sys, e).db)
  {
    if e.MailQueued? {
      QueueMailKeeps(sys.db, e.key, e.kind, e.user);
    } else {
      MoveMailKeeps(sys.db, e.key, e.status);
    }
    UndisturbedKeepsWorkers(sys, Step(sys, e).db);
  }

  lemma StepKeeps(sys: System, e: Event)
    requires Inv(sys) && Possible(sys, e)
    ensures Inv(Step(sys, e)) && Advances(sys.db, Step(sys, e).db)
  {
    match e
    case Snapshot(_, _, _, _, _, _, _) => SnapshotKeeps(sys, e);
    case Deleted(_, _, _) => DeletedKeeps(sys, e);
    case Claimed(w, _, _, _) => if w !in sys.workers { ClaimedKeeps(sys, e); }
    case ProviderAnswered(w, ok, ackLost, now) =>
      if w in sys.workers && sys.workers[w].CallingProvider? {
        ProviderKeeps(sys, w, ok, ackLost, now);
      }
    case CleanedUp(w, _, _, _) =>
      if w in sys.workers && sys.workers[w].CleaningUp? {
        CleanedUpKeeps(sys, e);
      }
    case Reported(w) =>
      if w in sys.workers && sys.workers[w].Reporting? {
        ReportKeeps(sys, w);
      }
    case Redeemed(_, _, _) => RedeemedKeeps(sys, e);
    case DeletedElsewhere(_, _) => DeletedElsewhereKeeps(sys, e);
    case MailQueued(_, _, _) => MailKeeps(sys, e);
    case MailMoved(_, _) => MailKeeps(sys, e);
    case Crashed(_) =>
  }

  lemma {:induction false} RunKeeps(sys: System, es: seq<Event>)
    requires Inv(sys) && PossibleRun(sys, es)
    ensures Inv(Run(sys, es))
    ensures Advances(sys.db, Run(sys, es).db)
    decreases |es|
  {
    if es != [] {
      var next := Step(sys, es[0]);
      StepKeeps(sys, es[0]);
      RunKeeps(next, es[1..]);
      AdvancesTransitive(sys.db, next.db, Run(sys, es).db);
    }
  }
}
