/**
 What the account transactions answer and write, row by row: every reply as a condition on the rows
 before, and the rows after.
 */
module AccountAnswers {
  import opened Common
  import opened Accounts
  import opened AccountSystem
  import opened AccountTheorems

  // ---------------------------------------------------------------- snapshots

  /** An invitation for the address that nobody took and that has not expired. */
  predicate Open(db: Db, email: Email, now: Time) {
    email in db.claims && db.claims[email].claimedBy == None && now < db.claims[email].expiresAt
  }

  predicate Created(db: Db, after: Db, u: Uuid) {
    u !in db.auth && u in after.auth
  }

  /** An account with a profile that carries the address. */
  predicate HasAddress(db: Db, email: Email, u: Uuid) {
    u in db.auth && u in db.profiles && db.auth[u].email == Some(email)
  }

  /** A tombstone names the account. */
  predicate Buried(db: Db, u: Uuid) {
    exists i | i in db.lifecycle :: db.lifecycle[i].storage == Some(u) && db.lifecycle[i].deletedAt != None
  }

  predicate OutOfDate(db: Db, id: ClerkId, ts: nat) {
    id in db.lifecycle && (db.lifecycle[id].deletedAt != None || ts <= db.lifecycle[id].providerUpdatedAt)
  }

  predicate MappedLive(db: Db, id: ClerkId) {
    id in db.mapping && db.mapping[id].uuid in db.auth
  }

  /** An identity without an account can be given one for the address: at most one carries it, and that one is free. */
  ghost predicate Linkable(db: Db, id: ClerkId, email: Email) {
    && id !in db.mapping
    && (forall u, v | HasAddress(db, email, u) && HasAddress(db, email, v) :: u == v)
    && (forall u | HasAddress(db, email, u) ::
          db.auth[u].confirmed && !Buried(db, u) && forall i | i in db.mapping :: db.mapping[i].uuid != u)
  }

  lemma AtMostOne<T>(s: set<T>)
    ensures |s| <= 1 <==> forall x, y | x in s && y in s :: x == y
  {
    if s != {} {
      var x :| x in s;
      var rest := s - {x};
      assert |rest| == |s| - 1;
      if rest != {} {
        var y :| y in rest;
        assert y in s && x != y;
      }
    }
  }

  lemma FoundExactly(db: Db, email: Email)
    ensures forall u :: u in Historical(db, email) <==> HasAddress(db, email, u)
    ensures |Historical(db, email)| <= 1 <==>
              forall u, v | HasAddress(db, email, u) && HasAddress(db, email, v) :: u == v
  {
    AtMostOne(Historical(db, email));
  }

  /** The three replies to a snapshot. */
  lemma SnapshotReplies(db: Db, id: ClerkId, email: Email, ts: nat, newId: Uuid, welcome: MailKey,
                        invitesRequired: bool, now: Time)
    requires Unused(db, newId)
    ensures var reply := Apply(db, id, email, ts, newId, welcome, invitesRequired, now).1;
            && (reply == Stale <==> OutOfDate(db, id, ts))
            && (reply == Applied <==>
                  && !OutOfDate(db, id, ts)
                  && if MappedLive(db, id)
                     then forall v | v in db.auth && db.auth[v].email == Some(email) :: v == db.mapping[id].uuid
                     else Linkable(db, id, email))
  {
    FoundExactly(db, email);
    if !OutOfDate(db, id, ts) && !MappedLive(db, id) {
      UnmappedReplies(db, id, email, ts, newId, welcome, invitesRequired, now);
    }
  }

  lemma UnmappedReplies(db: Db, id: ClerkId, email: Email, ts: nat, newId: Uuid, welcome: MailKey,
                        invitesRequired: bool, now: Time)
    requires Unused(db, newId) && !OutOfDate(db, id, ts) && !MappedLive(db, id)
    ensures var reply := Apply(db, id, email, ts, newId, welcome, invitesRequired, now).1;
            reply != Stale && (reply == Applied <==> Linkable(db, id, email))
  {
    FoundExactly(db, email);
    var found := Historical(db, email);
    if found == {} {
      var made := CreateAccount(db, email, newId, invitesRequired, now);
      assert made.lifecycle == db.lifecycle && made.mapping == db.mapping;
      assert forall u :: !HasAddress(db, email, u);
    } else if |found| == 1 {
      var u := Sole(found);
      assert HasAddress(db, email, u);
      assert Revoked(db, u) <==> Buried(db, u);
    }
  }

  /** The account of an applied snapshot: the one mapped already, else the one with the address, else a new one. */
  ghost predicate AccountFor(db: Db, id: ClerkId, email: Email, newId: Uuid, u: Uuid) {
    if MappedLive(db, id) then u == db.mapping[id].uuid
    else HasAddress(db, email, u) || (u == newId && forall v :: !HasAddress(db, email, v))
  }

  /** The identity's own rows after an applied snapshot, and those of its account. */
  ghost predicate Bound(db: Db, after: Db, id: ClerkId, email: Email, ts: nat, u: Uuid) {
    && after.mapping == db.mapping[id := Mapping(u, email, RoleFor(db, id, u))]
    && after.auth == db.auth[u := AuthRow(Some(email), true)]
    && id in after.lifecycle && after.lifecycle == db.lifecycle[id := after.lifecycle[id]]
    && after.lifecycle[id].providerUpdatedAt == ts && after.lifecycle[id].deletedAt == None
    && (!MappedLive(db, id) ==> after.lifecycle[id].storage == Some(u))
    && after.deletions == db.deletions
  }

  /** A mapped identity keeps its role; a new one is an operator exactly for an administrator's account. */
  function RoleFor(db: Db, id: ClerkId, u: Uuid): MappedRole {
    if MappedLive(db, id) then db.mapping[id].role
    else if u in db.profiles && db.profiles[u].role == Admin then Operator
    else Member
  }

  /** Which account an applied snapshot binds, to what, and that no other identity and no deletion is touched. */
  lemma SnapshotBinds(db: Db, id: ClerkId, email: Email, ts: nat, newId: Uuid, welcome: MailKey,
                      invitesRequired: bool, now: Time) returns (u: Uuid)
    requires Unused(db, newId)
    requires Apply(db, id, email, ts, newId, welcome, invitesRequired, now).1 == Applied
    ensures var after := Apply(db, id, email, ts, newId, welcome, invitesRequired, now).0;
            AccountFor(db, id, email, newId, u) && Bound(db, after, id, email, ts, u)
  {
    FoundExactly(db, email);
    var after := Apply(db, id, email, ts, newId, welcome, invitesRequired, now).0;
    var found := Historical(db, email);
    if MappedLive(db, id) {
      u := db.mapping[id].uuid;
      assert after == UpdateMapped(db, id, email, ts);
    } else if found == {} {
      u := newId;
      var made := CreateAccount(db, email, newId, invitesRequired, now);
      assert after == QueueWelcome(LinkAccount(made, id, email, ts, newId, Member), welcome, newId);
    } else {
      u := Sole(found);
      assert HasAddress(db, email, u);
      assert after == LinkAccount(db, id, email, ts, u, RoleFor(db, id, u));
      assert db.auth[u] == AuthRow(Some(email), true);
    }
  }

  /** What the tables besides hold after an applied snapshot that creates no account: nothing new. */
  lemma NothingCreated(db: Db, id: ClerkId, email: Email, ts: nat, newId: Uuid, welcome: MailKey,
                       invitesRequired: bool, now: Time)
    requires Unused(db, newId)
    requires newId !in Apply(db, id, email, ts, newId, welcome, invitesRequired, now).0.auth
    ensures var after := Apply(db, id, email, ts, newId, welcome, invitesRequired, now).0;
            after.access == db.access && after.claims == db.claims && after.mail == db.mail
            && after.auth.Keys == db.auth.Keys
  {
    FoundExactly(db, email);
    var after := Apply(db, id, email, ts, newId, welcome, invitesRequired, now).0;
    if after != db && !MappedLive(db, id) {
      var found := Historical(db, email);
      if found != {} {
        var u := Sole(found);
        assert HasAddress(db, email, u);
        assert after == LinkAccount(db, id, email, ts, u, if db.profiles[u].role == Admin then Operator else Member);
      }
    }
  }

  /** A mapped account's profile follows its address; no other profile changes unless an account is created. */
  lemma ProfilesFollow(db: Db, id: ClerkId, email: Email, ts: nat, newId: Uuid, welcome: MailKey,
                       invitesRequired: bool, now: Time)
    requires Unused(db, newId)
    requires newId !in Apply(db, id, email, ts, newId, welcome, invitesRequired, now).0.auth
    ensures var (after, reply) := Apply(db, id, email, ts, newId, welcome, invitesRequired, now);
            && after.profiles.Keys == db.profiles.Keys
            && forall u | u in db.profiles ::
                 after.profiles[u] == if reply == Applied && MapsTo(db, id, u)
                                      then Profile(db.profiles[u].role, Some(email))
                                      else db.profiles[u]
  {
    FoundExactly(db, email);
    var (after, reply) := Apply(db, id, email, ts, newId, welcome, invitesRequired, now);
    if reply == Applied && !MappedLive(db, id) {
      var found := Historical(db, email);
      if found != {} {
        var u := Sole(found);
        assert HasAddress(db, email, u);
        assert after == LinkAccount(db, id, email, ts, u, if db.profiles[u].role == Admin then Operator else Member);
      }
    }
  }

  /** The rows of a created account: an ordinary profile, its access, its invitation and its welcome. */
  lemma CreatedRows(db: Db, id: ClerkId, email: Email, ts: nat, newId: Uuid, welcome: MailKey,
                    invitesRequired: bool, now: Time)
    requires Unused(db, newId)
    requires newId in Apply(db, id, email, ts, newId, welcome, invitesRequired, now).0.auth
    ensures var after := Apply(db, id, email, ts, newId, welcome, invitesRequired, now).0;
            var enabled := !invitesRequired || Open(db, email, now);
            && after.auth.Keys == db.auth.Keys + {newId}
            && after.profiles == db.profiles[newId := Profile(User, Some(email))]
            && after.access == db.access[newId :=
                 Access(enabled, if enabled then Some(now) else None, None, None, None)]
            && after.claims == (if Open(db, email, now)
                                then db.claims[email := Claim(Some(newId), db.claims[email].expiresAt)] else db.claims)
            && after.mail == (if welcome in db.mail then db.mail
                              else db.mail[welcome := Mail(Welcome, Some(newId), Pending)])
  {
    FoundExactly(db, email);
    var after := Apply(db, id, email, ts, newId, welcome, invitesRequired, now).0;
    var made := CreateAccount(db, email, newId, invitesRequired, now);
    assert after == QueueWelcome(LinkAccount(made, id, email, ts, newId, Member), welcome, newId);
  }

  /**
   With invitations required, a snapshot turns access on exactly for the account it created, and only
   on an invitation for its address that was there, unclaimed and not expired; a claim row changes
   exactly then, to that account.
   */
  lemma InvitationTheorem(db: Db, id: ClerkId, email: Email, ts: nat, newId: Uuid, welcome: MailKey,
                          invitesRequired: bool, now: Time, u: Uuid)
    requires Unused(db, newId)
    ensures var after := Apply(db, id, email, ts, newId, welcome, invitesRequired, now).0;
            && (TurnsOn(db, after, u) <==> Created(db, after, u) && (!invitesRequired || Open(db, email, now)))
            && after.claims.Keys == db.claims.Keys
            && (forall e | e in db.claims ::
                  after.claims[e] != db.claims[e] <==>
                    e == email && Open(db, email, now) && exists v :: Created(db, after, v))
            && (forall e | e in db.claims && after.claims[e] != db.claims[e] ::
                  && Created(db, after, OrElse(after.claims[e].claimedBy, 0)) && after.claims[e].claimedBy.Some?
                  && after.claims[e].expiresAt == db.claims[e].expiresAt)
  {
    var after := Apply(db, id, email, ts, newId, welcome, invitesRequired, now).0;
    if newId in after.auth {
      CreatedRows(db, id, email, ts, newId, welcome, invitesRequired, now);
      assert Created(db, after, newId);
    } else {
      NothingCreated(db, id, email, ts, newId, welcome, invitesRequired, now);
    }
  }

  /**
   A snapshot creates an account exactly when it is applied to an identity that has none, for an address
   that has none.
   */
  lemma CreatesExactly(db: Db, id: ClerkId, email: Email, ts: nat, newId: Uuid, welcome: MailKey,
                       invitesRequired: bool, now: Time)
    requires Unused(db, newId)
    ensures var (after, reply) := Apply(db, id, email, ts, newId, welcome, invitesRequired, now);
            (exists u :: Created(db, after, u)) <==>
              reply == Applied && !MappedLive(db, id) && forall u :: !HasAddress(db, email, u)
  {
    var (after, reply) := Apply(db, id, email, ts, newId, welcome, invitesRequired, now);
    if reply == Applied {
      var u := SnapshotBinds(db, id, email, ts, newId, welcome, invitesRequired, now);
      assert Created(db, after, u) <==> u !in db.auth;
    }
  }

  // ---------------------------------------------------------------- operator deletions

  predicate Administrator(db: Db, u: Uuid) {
    u in db.profiles && db.profiles[u].role == Admin
  }

  predicate LeaseRuns(d: Deletion, now: Time) {
    d.lockedUntil.Some? && now < d.lockedUntil.value
  }

  /** Each of the five replies of staging, as a condition on actor, record, lease, account and role. */
  lemma StageReplies(db: Db, actor: Uuid, u: Uuid, now: Time)
    ensures var reply := Stage(db, actor, u, now).1;
            var recorded := u in db.deletions;
            var done := recorded && db.deletions[u].status == Completed;
            var busy := recorded && !done && LeaseRuns(db.deletions[u], now);
            var known := recorded || u in db.auth;
            && (reply == AlreadyDone <==> actor != u && done)
            && (reply == Busy <==> actor != u && busy)
            && (reply == NotFound <==> actor != u && !known)
            && (reply == Protected <==> actor == u || (!done && !busy && known && Administrator(db, u)))
            && (reply.Staged? <==> actor != u && !done && !busy && known && !Administrator(db, u))
  {
  }

  /** An administrator's account is never claimed, and a refusal of any kind changes no table. */
  lemma AdministratorIsProtected(db: Db, actor: Uuid, u: Uuid, now: Time)
    ensures Administrator(db, u) || actor == u ==> !Stage(db, actor, u, now).1.Staged?
    ensures !Stage(db, actor, u, now).1.Staged? ==> Stage(db, actor, u, now).0 == db
  {
  }

  /** The account's mail on its own behalf is cancelled unless it was sent; every other row stays. */
  ghost predicate MailCancelled(before: map<MailKey, Mail>, after: map<MailKey, Mail>, u: Uuid) {
    && after.Keys == before.Keys
    && forall k | k in before ::
         after[k] == if before[k].target == Some(u) && before[k].kind != InviteMail && before[k].status != Sent
                     then Mail(before[k].kind, Some(u), Cancelled) else before[k]
  }

  /** Access is off from now on, for this reason; every other row stays. */
  ghost predicate AccessCut(before: map<Uuid, Access>, after: map<Uuid, Access>, u: Uuid, at: Time,
                            reason: DisabledReason) {
    && after.Keys == before.Keys
    && (forall v | v in before && v != u :: after[v] == before[v])
    && (u in before ==>
          !after[u].enabled && after[u].disabledAt == Some(at) && after[u].reason == Some(reason)
          && after[u].enabledAt == before[u].enabledAt && after[u].expiresAt == before[u].expiresAt)
  }

  ghost predicate MapsTo(db: Db, id: ClerkId, u: Uuid) {
    id in db.mapping && db.mapping[id].uuid == u
  }

  /** What the first staging writes: the identity is buried, access and mail are cut, and a record waits. */
  lemma FirstStageRows(db: Db, actor: Uuid, u: Uuid, now: Time)
    requires Stage(db, actor, u, now).1.Staged? && u !in db.deletions
    requires forall i, j | MapsTo(db, i, u) && MapsTo(db, j, u) :: i == j
    ensures var (after, reply) := Stage(db, actor, u, now);
            && after.auth == db.auth && after.profiles == db.profiles && after.claims == db.claims
            && AccessCut(db.access, after.access, u, now, DeletionRequested)
            && MailCancelled(db.mail, after.mail, u)
            && u in after.deletions && after.deletions == db.deletions[u := after.deletions[u]]
            && after.deletions[u].attempts == reply.token == 1
            && after.deletions[u].lockedUntil == Some(now + 30)
            && after.deletions[u].clerkId == reply.clerkId
            && after.deletions[u].completedAt == None && after.deletions[u].lastError == None
            && (forall id: nat :: MapsTo(db, id, u) <==> reply.clerkId == Some(id))
    ensures var (after, reply) := Stage(db, actor, u, now);
            match reply.clerkId
            case None =>
              && after.mapping == db.mapping && after.lifecycle == db.lifecycle && reply.confirmed
              && after.deletions[u].status == PendingCleanup && after.deletions[u].confirmedAt == Some(now)
            case Some(id) =>
              && after.mapping == db.mapping - {id} && !reply.confirmed
              && id in after.lifecycle && after.lifecycle == db.lifecycle[id := after.lifecycle[id]]
              && after.lifecycle[id].storage == Some(u) && Tombstoned(after, id)
              && (!Tombstoned(db, id) ==> after.lifecycle[id].deletedAt == Some(now))
              && after.deletions[u].status == PendingProvider && after.deletions[u].confirmedAt == None
  {
    var ids := set id | id in db.mapping && db.mapping[id].uuid == u;
    forall id | MapsTo(db, id, u)
      ensures ids != {} && Sole(ids) == id
    {
      assert id in ids && Sole(ids) in ids;
      assert MapsTo(db, Sole(ids), u);
    }
    assert ids != {} ==> MapsTo(db, Sole(ids), u);
  }

  /** What a reclaim writes: a newer token and a new lease on the record, and nothing else. */
  lemma ReclaimRows(db: Db, actor: Uuid, u: Uuid, now: Time)
    requires Stage(db, actor, u, now).1.Staged? && u in db.deletions
    ensures var (after, reply) := Stage(db, actor, u, now);
            && after == db.(deletions := after.deletions)
            && after.deletions == db.deletions[u :=
                 db.deletions[u].(attempts := db.deletions[u].attempts + 1, lockedUntil := Some(now + 30))]
            && reply == Staged(db.deletions[u].attempts + 1, db.deletions[u].clerkId,
                               db.deletions[u].confirmedAt != None)
  {
  }

  // ---------------------------------------------------------------- erasing an account

  /** Nothing of the account is left but its tombstones: its rows are gone and its invitation is free again. */
  ghost predicate Gone(db: Db, after: Db, u: Uuid) {
    && after.auth == db.auth - {u} && after.profiles == db.profiles - {u} && after.access == db.access - {u}
    && (forall id :: id in after.mapping <==> id in db.mapping && db.mapping[id].uuid != u)
    && (forall id | id in after.mapping :: after.mapping[id] == db.mapping[id])
    && after.claims.Keys == db.claims.Keys
    && (forall e | e in db.claims ::
          && after.claims[e].expiresAt == db.claims[e].expiresAt
          && after.claims[e].claimedBy == if db.claims[e].claimedBy == Some(u) then None else db.claims[e].claimedBy)
  }

  /** Who was still mapped to it is buried under its UUID; every other identity stays as it was. */
  ghost predicate OwnersBuried(db: Db, after: Db, u: Uuid, now: Time) {
    && (forall id | MapsTo(db, id, u) ::
          && Tombstoned(after, id) && after.lifecycle[id].storage == Some(u)
          && (!Tombstoned(db, id) ==> after.lifecycle[id].deletedAt == Some(now)))
    && (forall id | !MapsTo(db, id, u) ::
          (id in after.lifecycle <==> id in db.lifecycle)
          && (id in db.lifecycle ==> after.lifecycle[id] == db.lifecycle[id]))
  }

  /** Deleting an auth row erases the account, buries its identity and cancels the mail about its contributions. */
  lemma DeletedRows(db: Db, u: Uuid, now: Time)
    requires u in db.auth
    ensures var after := DeleteAuthRow(db, u, now);
            && Gone(db, after, u) && OwnersBuried(db, after, u, now) && after.deletions == db.deletions
            && after.mail.Keys == db.mail.Keys
            && forall k | k in db.mail ::
                 after.mail[k] == if db.mail[k].target == Some(u) && db.mail[k].status != Sent
                                     && (db.mail[k].kind == CommunityApproved || db.mail[k].kind == CommunityRejected)
                                  then Mail(db.mail[k].kind, Some(u), Cancelled) else db.mail[k]
  {
  }

  /** An account that has to stay keeps its UUID, its role and its access row, and loses identity and address. */
  ghost predicate Anonymised(db: Db, after: Db, u: Uuid) {
    && after.auth.Keys == db.auth.Keys && after.profiles.Keys == db.profiles.Keys
    && (forall v | v in db.auth :: after.auth[v] == if v == u then AuthRow(None, false) else db.auth[v])
    && (forall v | v in db.profiles ::
          after.profiles[v] == if v == u then Profile(db.profiles[u].role, None) else db.profiles[v])
    && (forall id :: id in after.mapping <==> id in db.mapping && db.mapping[id].uuid != u)
    && (forall id | id in after.mapping :: after.mapping[id] == db.mapping[id])
  }

  // ---------------------------------------------------------------- the cleanup of an operator deletion

  /** Each of the four replies of the cleanup transaction. */
  lemma CleanUpReplies(db: Db, u: Uuid, token: nat, cleanup: Cleanup, now: Time)
    ensures var reply := CleanUp(db, u, token, cleanup, now).1;
            var done := u in db.deletions && db.deletions[u].status == Completed;
            var holds := u in db.deletions && db.deletions[u].attempts == token && !done;
            && (reply == Superseded <==> !done && !holds)
            && (reply == Deferred <==> holds && cleanup == ForeignKeyBlocked)
            && (reply == RolledBack <==>
                  holds && (cleanup == Errored || (cleanup == Erased && (u !in db.auth || Administrator(db, u)))))
            && (reply == Finished <==> done || (holds && cleanup == Erased && u in db.auth && !Administrator(db, u)))
  {
  }

  /** The tables after an erasure that completes a record. */
  ghost predicate ErasedAll(db: Db, after: Db, u: Uuid, now: Time) {
    && Gone(db, after, u) && OwnersBuried(db, after, u, now) && u in db.deletions
    && after.deletions == db.deletions[u := db.deletions[u].(
         status := Completed, completedAt := Some(now), lockedUntil := None, lastError := None)]
  }

  lemma ErasedRows(db: Db, u: Uuid, now: Time)
    requires u in db.auth && u in db.deletions
    ensures ErasedAll(db, SettleErased(DeleteAuthRow(db, u, now), u, now), u, now)
  {
    DeletedRows(db, u, now);
  }

  /** The tables after an anonymisation that defers a record. */
  ghost predicate DeferredAll(db: Db, after: Db, u: Uuid, completedAt: Option<Time>) {
    && Anonymised(db, after, u) && u in db.deletions
    && after.access == db.access && after.lifecycle == db.lifecycle
    && after.claims == db.claims && after.mail == db.mail
    && after.deletions == db.deletions[u := db.deletions[u].(
         status := CleanupDeferred, lockedUntil := None, lastError := Some(ProtectedAttribution),
         completedAt := completedAt)]
  }

  lemma DeferredRows(db: Db, u: Uuid)
    requires u in db.deletions
    ensures DeferredAll(db, SettleDeferred(CleanRetained(db, u), u), u, db.deletions[u].completedAt)
  {
  }

  /** What the cleanup writes: an erased account, an anonymised one, or nothing. */
  lemma CleanUpRows(db: Db, u: Uuid, token: nat, cleanup: Cleanup, now: Time)
    ensures var (after, reply) := CleanUp(db, u, token, cleanup, now);
            && (after != db ==> u in db.deletions && db.deletions[u].attempts == token
                                && db.deletions[u].status != Completed)
            && (reply == Finished && after != db ==> ErasedAll(db, after, u, now))
            && (reply == Deferred ==> DeferredAll(db, after, u, db.deletions[u].completedAt))
            && (reply in {Superseded, RolledBack} ==> after == db)
  {
    if Holds(db, u, token) {
      DeferredRows(db, u);
      if u in db.auth {
        ErasedRows(db, u, now);
      }
    }
  }

  // ---------------------------------------------------------------- removals

  /** The account a removal is about: the mapped one, else the one the lifecycle row remembers. */
  ghost predicate StandsFor(db: Db, id: ClerkId, u: Uuid) {
    MapsTo(db, id, u) || (id !in db.mapping && id in db.lifecycle && db.lifecycle[id].storage == Some(u))
  }

  predicate Done(db: Db, u: Uuid) {
    u in db.deletions && db.deletions[u].status == Completed
  }

  /** The identity is buried at its first deletion time, or now; no other lifecycle row changes. */
  ghost predicate BuriedOnly(db: Db, after: Db, id: ClerkId, storage: Option<Uuid>, now: Time) {
    && Tombstoned(after, id) && after.lifecycle == db.lifecycle[id := after.lifecycle[id]]
    && (if id in db.lifecycle
        then after.lifecycle[id] == db.lifecycle[id].(deletedAt := after.lifecycle[id].deletedAt)
        else after.lifecycle[id] == Lifecycle(storage, 0, Some(now)))
    && after.lifecycle[id].deletedAt == if Tombstoned(db, id) then db.lifecycle[id].deletedAt else Some(now)
  }

  /** A removal of an identity that stands for no account buries it and does nothing else. */
  lemma UnknownRemoved(db: Db, id: ClerkId, cleanup: Cleanup, now: Time)
    requires forall u: nat :: !StandsFor(db, id, u)
    ensures var after := Remove(db, id, cleanup, now);
            BuriedOnly(db, after, id, None, now) && after == db.(lifecycle := after.lifecycle)
  {
    if AccountOf(db, id).Some? {
      assert StandsFor(db, id, AccountOf(db, id).value);
    }
  }

  lemma StandsForIs(db: Db, id: ClerkId, u: Uuid)
    ensures StandsFor(db, id, u) <==> AccountOf(db, id) == Some(u)
  {
  }

  /** The revocation: identity, access and mail are cut, and the deletion record is reopened under a newer token. */
  ghost predicate RevokedRows(db: Db, after: Db, id: ClerkId, u: Uuid, now: Time) {
    && after.auth == db.auth && after.profiles == db.profiles && after.claims == db.claims
    && after.mapping == db.mapping - {id} && BuriedOnly(db, after, id, Some(u), now)
    && (exists at :: AccessCut(db.access, after.access, u, at, ClerkAccountDeleted)
                     && (u in db.access ==> at == OrElse(db.access[u].disabledAt, now)))
    && MailCancelled(db.mail, after.mail, u)
    && u in after.deletions && after.deletions == db.deletions[u := after.deletions[u]]
    && ReopenedRecord(db, after.deletions[u], id, u, now)
  }

  ghost predicate ReopenedRecord(db: Db, d: Deletion, id: ClerkId, u: Uuid, now: Time) {
    && d.status == PendingCleanup && d.lockedUntil == None && d.lastError == None
    && (u in db.deletions ==>
          && d.attempts == db.deletions[u].attempts + 1 && d.clerkId == db.deletions[u].clerkId
          && d.confirmedAt == Some(OrElse(db.deletions[u].confirmedAt, now))
          && d.completedAt == db.deletions[u].completedAt)
    && (u !in db.deletions ==>
          d.attempts == 1 && d.clerkId == Some(id) && d.confirmedAt == Some(now) && d.completedAt == None)
  }

  lemma RevocationRows(db: Db, id: ClerkId, u: Uuid, now: Time)
    ensures RevokedRows(db, Revoke(db, id, u, now), id, u, now)
  {
    var after := Revoke(db, id, u, now);
    var at := if u in db.access then OrElse(db.access[u].disabledAt, now) else now;
    assert AccessCut(db.access, after.access, u, at, ClerkAccountDeleted);
  }

  /** The end of a removal's cleanup: the account erased, anonymised, or left for a retry. */
  ghost predicate Settled(db: Db, after: Db, u: Uuid, cleanup: Cleanup, now: Time) {
    match cleanup
    case Erased =>
      if u in db.auth then ErasedAll(db, after, u, now)
      else after == db.(deletions := after.deletions) && Done(after, u)
    case ForeignKeyBlocked => DeferredAll(db, after, u, None)
    case Errored =>
      && u in db.deletions && after == db.(deletions := after.deletions)
      && after.deletions == db.deletions[u := db.deletions[u].(lastError := Some(CleanupFailed), lockedUntil := None)]
  }

  lemma SettledRows(db: Db, u: Uuid, cleanup: Cleanup, now: Time)
    requires u in db.deletions
    ensures Settled(db, Settle(db, u, cleanup, now), u, cleanup, now)
  {
    match cleanup
    case Erased =>
      if u in db.auth {
        ErasedRows(db, u, now);
      }
    case ForeignKeyBlocked => DeferredRows(db, u);
    case Errored =>
  }

  lemma RemovesBySettling(db: Db, id: ClerkId, u: Uuid, cleanup: Cleanup, now: Time)
    requires StandsFor(db, id, u)
    ensures Remove(db, id, cleanup, now) == if Done(db, u) then db else Settle(Revoke(db, id, u, now), u, cleanup, now)
  {
    StandsForIs(db, id, u);
  }

  /**
   user.deleted for an identity with an account: nothing once its deletion is completed; otherwise the
   revocation, and then the end that the cleanup came to.
   */
  lemma RemovalRows(db: Db, id: ClerkId, u: Uuid, cleanup: Cleanup, now: Time) returns (revoked: Db)
    requires StandsFor(db, id, u)
    ensures Done(db, u) ==> Remove(db, id, cleanup, now) == db
    ensures !Done(db, u) ==>
              RevokedRows(db, revoked, id, u, now) && Settled(revoked, Remove(db, id, cleanup, now), u, cleanup, now)
  {
    revoked := Revoke(db, id, u, now);
    RemovesBySettling(db, id, u, cleanup, now);
    RevocationRows(db, id, u, now);
    SettledRows(revoked, u, cleanup, now);
  }

  // ---------------------------------------------------------------- redemptions

  /** Access was never given or taken. */
  predicate Untouched(a: Access) {
    a == Access(false, None, None, None, None)
  }

  predicate HasAccess(a: Access, now: Time) {
    a.enabled && match a.expiresAt case None => true case Some(t) => now < t
  }

  predicate Taken(db: Db, email: Email) {
    email in db.claims && db.claims[email].claimedBy != None
  }

  /** Each of the five replies to a redemption, for an identity that maps to an account with an access row. */
  lemma RedeemReplies(db: Db, id: ClerkId, invite: Option<Time>, now: Time)
    ensures var reply := Redeem(db, id, invite, now).1;
            var known := MappedLive(db, id) && db.mapping[id].uuid in db.access;
            var inside := known && HasAccess(db.access[db.mapping[id].uuid], now);
            var asks := known && !inside && Untouched(db.access[db.mapping[id].uuid]) && db.mapping[id].role == Member
                        && !Taken(db, db.mapping[id].email);
            && (reply == NotProvisioned <==> id !in db.mapping && !Tombstoned(db, id))
            && (reply == Invalid <==> asks && invite == None)
            && (reply == LostClaim <==> asks && invite.Some? && invite.value <= now)
            && (reply == Ready <==> inside || (asks && invite.Some? && now < invite.value))
            && (reply == Denied <==> (id in db.mapping || Tombstoned(db, id)) && !inside && !asks)
  {
  }

  /**
   A redemption writes only when it turns access on: for the identity's account, on an invitation for
   the mapped address that nobody held and that has not expired, which the account then holds.
   */
  lemma RedeemRows(db: Db, id: ClerkId, invite: Option<Time>, now: Time)
    ensures var (after, reply) := Redeem(db, id, invite, now);
            after != db ==>
              && reply == Ready && MappedLive(db, id) && invite.Some? && now < invite.value
              && var (u, email) := (db.mapping[id].uuid, db.mapping[id].email);
                 && u in db.access && Untouched(db.access[u]) && !Taken(db, email)
                 && after == db.(access := db.access[u := Access(true, Some(now), None, None, None)],
                                 claims := db.claims[email := Claim(Some(u), invite.value)])
    ensures var (after, reply) := Redeem(db, id, invite, now);
            reply == Ready && after == db ==> MappedLive(db, id) && db.mapping[id].uuid in db.access
                                              && HasAccess(db.access[db.mapping[id].uuid], now)
  {
  }

  // ---------------------------------------------------------------- fenced writes

  /** The record, rewritten under its token alone. */
  ghost predicate Rewritten(db: Db, after: Db, u: Uuid, token: nat, d: Deletion) {
    if u in db.deletions && db.deletions[u].attempts == token then after == db.(deletions := db.deletions[u := d])
    else after == db
  }

  lemma FencedRows(db: Db, u: Uuid, token: nat, error: DeletionError, now: Time)
    ensures u in db.deletions ==>
              var d := db.deletions[u];
              && Rewritten(db, RecordError(db, u, token, error), u, token,
                 d.(lastError := Some(error), lockedUntil := None))
              && Rewritten(db, ConfirmProvider(db, u, token, now).0, u, token,
                           d.(status := PendingCleanup, confirmedAt := Some(now), lastError := None))
    ensures u !in db.deletions ==> RecordError(db, u, token, error) == db && ConfirmProvider(db, u, token, now).0 == db
    ensures ConfirmProvider(db, u, token, now).1 <==> u in db.deletions && db.deletions[u].attempts == token
  {
  }

  /** A worker goes on to the cleanup exactly when its confirmation landed and it learned so; a refusal ends it. */
  lemma ProviderMoves(sys: System, w: WorkerId, ok: bool, ackLost: bool, now: Time)
    requires w in sys.workers && sys.workers[w].CallingProvider?
    ensures var (u, token) := (sys.workers[w].user, sys.workers[w].token);
            var after := Step(sys, ProviderAnswered(w, ok, ackLost, now));
            && (ok ==> after.db == ConfirmProvider(sys.db, u, token, now).0)
            && (!ok ==> after.db == RecordError(sys.db, u, token, ProviderError))
            && after.workers - {w} == sys.workers - {w}
            && (w in after.workers <==>
                  ok && !ackLost && u in sys.db.deletions && sys.db.deletions[u].attempts == token)
            && (w in after.workers ==> after.workers[w] == CleaningUp(u, token))
  {
  }

  /** A worker reports exactly a cleanup that was rolled back or whose end it did not learn; then it is done. */
  lemma CleanupMoves(sys: System, w: WorkerId, cleanup: Cleanup, ackLost: bool, now: Time)
    requires w in sys.workers && sys.workers[w].CleaningUp?
    ensures var (u, token) := (sys.workers[w].user, sys.workers[w].token);
            var after := Step(sys, CleanedUp(w, cleanup, ackLost, now));
            && after.db == CleanUp(sys.db, u, token, cleanup, now).0
            && after.workers - {w} == sys.workers - {w}
            && (w in after.workers <==> ackLost || CleanUp(sys.db, u, token, cleanup, now).1 == RolledBack)
            && (w in after.workers ==> after.workers[w] == Reporting(u, token))
  {
  }

  lemma ReportMoves(sys: System, w: WorkerId)
    requires w in sys.workers && sys.workers[w].Reporting?
    ensures Step(sys, Reported(w)) ==
            System(RecordError(sys.db, sys.workers[w].user, sys.workers[w].token, CleanupFailed), sys.workers - {w})
  {
  }

  /** Mail for an account is queued exactly under a new key, when no deletion and no tombstone names the account. */
  lemma QueuedMail(db: Db, key: MailKey, kind: MailKind, u: Uuid)
    ensures var after := QueueMail(db, key, kind, u);
            && after == db.(mail := after.mail)
            && (after.mail != db.mail <==> key !in db.mail && kind != Welcome && u !in db.deletions && !Buried(db, u))
            && (after.mail != db.mail ==> after.mail == db.mail[key := Mail(kind, Some(u), Pending)])
  {
    assert Revoked(db, u) <==> Buried(db, u);
    assert key !in db.mail ==> db.mail[key := Mail(kind, Some(u), Pending)] != db.mail;
  }
}
