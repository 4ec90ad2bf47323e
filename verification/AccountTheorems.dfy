/** The promises of the account writers, over every run. */
module AccountTheorems {
  import opened Common
  import opened Accounts
  import opened AccountSystem
  import opened AccountSafety

  /** A service that starts on accounts linked by hand: nothing deleted yet, no operator at work. */
  ghost predicate Initial(sys: System) {
    && sys.workers == map[]
    && sys.db.lifecycle == map[] && sys.db.deletions == map[]
    && SoleOwner(sys.db)
    && forall id | id in sys.db.mapping :: sys.db.mapping[id].uuid in sys.db.auth
  }

  lemma InitialIsSound(sys: System)
    requires Initial(sys)
    ensures Inv(sys)
  {
  }

  lemma {:induction false} RunAppends(sys: System, es: seq<Event>, fs: seq<Event>)
    ensures Run(sys, es + fs) == Run(Run(sys, es), fs)
    ensures PossibleRun(sys, es + fs) <==> PossibleRun(sys, es) && PossibleRun(Run(sys, es), fs)
    decreases |es|
  {
    if es == [] {
      assert es + fs == fs;
    } else {
      assert (es + fs)[1..] == es[1..] + fs;
      RunAppends(Step(sys, es[0]), es[1..], fs);
    }
  }

  // ---------------------------------------------------------------- identity

  /** Who owns which account, in every reachable state. */
  lemma IdentityTheorem(sys: System, es: seq<Event>)
    requires Initial(sys) && PossibleRun(sys, es)
    ensures var db := Run(sys, es).db;
            && (forall i, j | i in db.mapping && j in db.mapping && i != j :: db.mapping[i].uuid != db.mapping[j].uuid)
            && (forall id | id in db.mapping :: !Tombstoned(db, id))
            && (forall u | Revoked(db, u) :: !Owned(db, u))
            && (forall u | u in db.deletions && Owned(db, u) :: db.deletions[u].clerkId == None)
            && (forall u, v | u in db.deletions && v in db.deletions && u != v && db.deletions[u].clerkId.Some? ::
                  db.deletions[u].clerkId != db.deletions[v].clerkId)
  {
    InitialIsSound(sys);
    RunKeeps(sys, es);
    var db := Run(sys, es).db;
    forall u | u in db.deletions && Owned(db, u)
      ensures db.deletions[u].clerkId == None
    {
      MappedDeletionHasNoIdentity(db, u);
    }
    forall u, v | u in db.deletions && v in db.deletions && u != v && db.deletions[u].clerkId.Some?
      ensures db.deletions[u].clerkId != db.deletions[v].clerkId
    {
      assert DeletionSound(db, u) && DeletionSound(db, v);
    }
  }

  /** A deletion time, once set, survives every later run unchanged, and the identity is never mapped again. */
  lemma TombstoneIsForever(sys: System, es: seq<Event>, fs: seq<Event>, id: ClerkId)
    requires Initial(sys) && PossibleRun(sys, es + fs)
    requires Tombstoned(Run(sys, es).db, id)
    ensures var before, after := Run(sys, es).db, Run(sys, es + fs).db;
            && Tombstoned(after, id) && after.lifecycle[id].deletedAt == before.lifecycle[id].deletedAt
            && id !in after.mapping
  {
    RunAppends(sys, es, fs);
    InitialIsSound(sys);
    RunKeeps(sys, es);
    RunKeeps(Run(sys, es), fs);
    var after := Run(sys, es + fs).db;
    assert MappedIsLive(after);
  }

  // ---------------------------------------------------------------- revocation

  /** From the moment an account has a deletion record, no later run enables its access. */
  lemma RevocationTheorem(sys: System, es: seq<Event>, fs: seq<Event>, u: Uuid)
    requires Initial(sys) && PossibleRun(sys, es + fs)
    requires u in Run(sys, es).db.deletions
    ensures var after := Run(sys, es + fs).db;
            && u in after.deletions
            && (u in after.access ==> !after.access[u].enabled && after.access[u].disabledAt.Some?)
            && (forall k | k in after.mail && AccountMail(after.mail[k]) && after.mail[k].target == Some(u) ::
                  after.mail[k].status in {Sent, Cancelled})
  {
    RunAppends(sys, es, fs);
    InitialIsSound(sys);
    RunKeeps(sys, es);
    RunKeeps(Run(sys, es), fs);
    DeletedIsDisabled(Run(sys, es + fs).db, u);
  }

  /** Access of u turns on between the two states. */
  ghost predicate TurnsOn(db: Db, after: Db, u: Uuid) {
    u in after.access && after.access[u].enabled && (u in db.access ==> !db.access[u].enabled)
  }

  /** The two writers that enable access pass the reject_deleted_user_access trigger by construction. */
  lemma AccessTriggerNeverFires(sys: System, e: Event, u: Uuid)
    requires Inv(sys) && Possible(sys, e)
    requires e.Snapshot? || e.Redeemed?
    requires TurnsOn(sys.db, Step(sys, e).db, u)
    ensures var after := Step(sys, e).db;
            u !in after.deletions && !Revoked(after, u) && Owned(after, u)
  {
    StepKeeps(sys, e);
    var after := Step(sys, e).db;
    DeletedIsDisabled(after, u);
    if e.Snapshot? {
      EnablesOnlyCreated(sys.db, e.id, e.email, e.ts, e.newId, e.welcome, e.invitesRequired, e.now, u);
    }
    assert e.id in after.mapping && after.mapping[e.id].uuid == u;
    OwnedIsNotRevoked(after, e.id);
  }

  lemma OwnedIsNotRevoked(db: Db, id: ClerkId)
    requires BuriedIsUnmapped(db) && id in db.mapping
    ensures Owned(db, db.mapping[id].uuid) && !Revoked(db, db.mapping[id].uuid)
  {
  }

  lemma EnablesOnlyCreated(db: Db, id: ClerkId, email: Email, ts: nat, newId: Uuid, welcome: MailKey,
                           invitesRequired: bool, now: Time, u: Uuid)
    requires TurnsOn(db, Apply(db, id, email, ts, newId, welcome, invitesRequired, now).0, u)
    ensures var after := Apply(db, id, email, ts, newId, welcome, invitesRequired, now).0;
            u == newId && id in after.mapping && after.mapping[id].uuid == u
  {
    var after := Apply(db, id, email, ts, newId, welcome, invitesRequired, now).0;
    forall account, role
      ensures !TurnsOn(db, LinkAccount(db, id, email, ts, account, role), u)
    {
      LinkTurnsNothingOn(db, id, email, ts, account, role, u);
    }
    if id in db.mapping && db.mapping[id].uuid in db.auth {
      UpdateTurnsNothingOn(db, id, email, ts, u);
    } else if Historical(db, email) == {} {
      var made := CreateAccount(db, email, newId, invitesRequired, now);
      assert after.access == made.access && after.mapping == LinkAccount(made, id, email, ts, newId, Member).mapping;
    }
  }

  lemma UpdateTurnsNothingOn(db: Db, id: ClerkId, email: Email, ts: nat, u: Uuid)
    requires id in db.mapping && db.mapping[id].uuid in db.auth
    ensures !TurnsOn(db, UpdateMapped(db, id, email, ts), u)
  {
  }

  lemma LinkTurnsNothingOn(db: Db, id: ClerkId, email: Email, ts: nat, account: Uuid, role: MappedRole, u: Uuid)
    ensures !TurnsOn(db, LinkAccount(db, id, email, ts, account, role), u)
  {
  }

  // ---------------------------------------------------------------- operator deletions

  /** The states of a deletion record, along any run. */
  lemma DeletionTheorem(sys: System, es: seq<Event>, fs: seq<Event>, u: Uuid)
    requires Initial(sys) && PossibleRun(sys, es + fs)
    requires u in Run(sys, es).db.deletions
    ensures u in Run(sys, es + fs).db.deletions
    ensures var d, e := Run(sys, es).db.deletions[u], Run(sys, es + fs).db.deletions[u];
            && (e.status in {PendingCleanup, CleanupDeferred, Completed} <==> e.confirmedAt.Some?)
            && d.attempts <= e.attempts
            && (d.confirmedAt.Some? ==> e.confirmedAt.Some?)
            && (d.status == Completed ==>
                  e.status == Completed && e.attempts == d.attempts && e.completedAt == d.completedAt)
            && (e.status == Completed ==> u !in Run(sys, es + fs).db.auth)
  {
    RunAppends(sys, es, fs);
    InitialIsSound(sys);
    RunKeeps(sys, es);
    RunKeeps(Run(sys, es), fs);
    var before, after := Run(sys, es).db, Run(sys, es + fs).db;
    assert DeletionAdvances(before.deletions[u], after.deletions[u]);
    assert DeletionSound(after, u);
  }

  /** The token an event hands out, if it is a successful claim. */
  ghost function ClaimToken(sys: System, e: Event): Option<nat> {
    if e.Claimed? && e.worker !in sys.workers && Stage(sys.db, e.actor, e.user, e.now).1.Staged?
    then Some(Stage(sys.db, e.actor, e.user, e.now).1.token) else None
  }

  /** Of two claims of one account in a run, the later has the greater token. */
  lemma ClaimsIncrease(sys: System, es: seq<Event>, i: nat, j: nat)
    requires Initial(sys) && PossibleRun(sys, es) && i < j < |es|
    requires ClaimToken(Run(sys, es[..i]), es[i]).Some? && ClaimToken(Run(sys, es[..j]), es[j]).Some?
    requires es[i].user == es[j].user
    ensures ClaimToken(Run(sys, es[..i]), es[i]).value < ClaimToken(Run(sys, es[..j]), es[j]).value
  {
    InitialIsSound(sys);
    RunSplits(sys, es, i, j);
    RunKeeps(sys, es[..i]);
    TwoClaims(Run(sys, es[..i]), es[i], es[i + 1..j], es[j]);
  }

  /** A run, cut at two of its events. */
  lemma RunSplits(sys: System, es: seq<Event>, i: nat, j: nat)
    requires PossibleRun(sys, es) && i < j < |es|
    ensures PossibleRun(sys, es[..i])
    ensures var before := Run(sys, es[..i]);
            && Possible(before, es[i])
            && PossibleRun(Step(before, es[i]), es[i + 1..j])
            && Run(sys, es[..j]) == Run(Step(before, es[i]), es[i + 1..j])
  {
    var before := Run(sys, es[..i]);
    var mid := es[i..j];
    assert es == es[..j] + es[j..] && es[..j] == es[..i] + mid;
    RunAppends(sys, es[..j], es[j..]);
    RunAppends(sys, es[..i], mid);
    assert mid[0] == es[i] && mid[1..] == es[i + 1..j];
  }

  lemma TwoClaims(sys: System, e: Event, between: seq<Event>, f: Event)
    requires Inv(sys) && Possible(sys, e) && PossibleRun(Step(sys, e), between)
    requires ClaimToken(sys, e).Some? && ClaimToken(Run(Step(sys, e), between), f).Some? && e.user == f.user
    ensures ClaimToken(sys, e).value < ClaimToken(Run(Step(sys, e), between), f).value
  {
    var claimed := Step(sys, e);
    StepKeeps(sys, e);
    RunKeeps(claimed, between);
    StagedRecord(sys.db, e.actor, e.user, e.now);
    var later := Run(claimed, between);
    assert DeletionAdvances(claimed.db.deletions[e.user], later.db.deletions[e.user]);
    StagedRecord(later.db, f.actor, f.user, f.now);
  }

  ghost predicate OfWorker(e: Event, w: WorkerId) {
    (e.ProviderAnswered? || e.CleanedUp? || e.Reported?) && e.worker == w
  }

  ghost predicate Superseded(sys: System, w: WorkerId) {
    && w in sys.workers && sys.workers[w].user in sys.db.deletions
    && sys.workers[w].token < sys.db.deletions[sys.workers[w].user].attempts
  }

  lemma SupersededWritesNothing(sys: System, w: WorkerId, e: Event)
    requires Superseded(sys, w) && OfWorker(e, w)
    ensures Step(sys, e).db == sys.db
  {
  }

  /**
   Once the token of a worker is superseded, no step that worker takes at any later point of the run
   changes any table.
   */
  lemma FenceTheorem(sys: System, es: seq<Event>, fs: seq<Event>, w: WorkerId, e: Event)
    requires Initial(sys) && PossibleRun(sys, es + fs)
    requires Superseded(Run(sys, es), w) && OfWorker(e, w)
    requires w in Run(sys, es + fs).workers
    requires Run(sys, es + fs).workers[w].user == Run(sys, es).workers[w].user
    requires Run(sys, es + fs).workers[w].token == Run(sys, es).workers[w].token
    ensures Superseded(Run(sys, es + fs), w)
    ensures Step(Run(sys, es + fs), e).db == Run(sys, es + fs).db
  {
    InitialIsSound(sys);
    RunAppends(sys, es, fs);
    RunKeeps(sys, es);
    RunKeeps(Run(sys, es), fs);
    var before, later := Run(sys, es), Run(sys, es + fs);
    var u := before.workers[w].user;
    assert DeletionAdvances(before.db.deletions[u], later.db.deletions[u]);
    SupersededWritesNothing(later, w, e);
  }

  /** Two workers never hold the same token, and only the holder of the newest can still write. */
  lemma SingleHolder(sys: System, es: seq<Event>, v: WorkerId, w: WorkerId)
    requires Initial(sys) && PossibleRun(sys, es)
    requires var s := Run(sys, es); v in s.workers && w in s.workers && v != w && s.workers[v].user == s.workers[w].user
    ensures var s := Run(sys, es);
            s.workers[v].user in s.db.deletions && s.workers[v].token != s.workers[w].token
    ensures var s := Run(sys, es);
            s.workers[v].token < s.db.deletions[s.workers[v].user].attempts
            || s.workers[w].token < s.db.deletions[s.workers[v].user].attempts
  {
    InitialIsSound(sys);
    RunKeeps(sys, es);
    var s := Run(sys, es);
    assert WorkerSound(s.db, s.workers[v]) && WorkerSound(s.db, s.workers[w]);
  }

  // ---------------------------------------------------------------- provider snapshots

  /** The event is a snapshot of `id` that its transaction commits. */
  ghost predicate Commits(db: Db, e: Event, id: ClerkId) {
    e.Snapshot? && e.id == id && Apply(db, id, e.email, e.ts, e.newId, e.welcome, e.invitesRequired, e.now).1 == Applied
  }

  ghost predicate CommittedAt(sys: System, es: seq<Event>, i: nat, id: ClerkId) {
    i < |es| && Commits(Run(sys, es[..i]).db, es[i], id)
  }

  /** A change of the identity tables that drops mappings and buries identities, nothing else. */
  ghost predicate OnlyDrops(db: Db, after: Db) {
    forall id | id in after.mapping ::
      && id in db.mapping && after.mapping[id] == db.mapping[id]
      && (id in after.lifecycle ==>
            id in db.lifecycle && after.lifecycle[id].providerUpdatedAt == db.lifecycle[id].providerUpdatedAt)
  }

  lemma DeleteAuthRowDrops(db: Db, u: Uuid, now: Time)
    ensures OnlyDrops(db, DeleteAuthRow(db, u, now))
  {
  }

  lemma RevokeDrops(db: Db, id: ClerkId, u: Uuid, now: Time)
    ensures OnlyDrops(db, Revoke(db, id, u, now))
  {
  }

  lemma RemoveDrops(db: Db, id: ClerkId, cleanup: Cleanup, now: Time)
    requires MappedIsLive(db)
    ensures OnlyDrops(db, Remove(db, id, cleanup, now))
  {
    var after := Remove(db, id, cleanup, now);
    match AccountOf(db, id)
    case None =>
    case Some(u) =>
      if after != db {
        var revoked := Revoke(db, id, u, now);
        RevokeDrops(db, id, u, now);
        DeleteAuthRowDrops(revoked, u, now);
        assert OnlyDrops(revoked, after);
      }
  }

  lemma StageDrops(db: Db, actor: Uuid, u: Uuid, now: Time)
    ensures OnlyDrops(db, Stage(db, actor, u, now).0)
  {
  }

  lemma CleanUpDrops(db: Db, u: Uuid, token: nat, cleanup: Cleanup, now: Time)
    ensures OnlyDrops(db, CleanUp(db, u, token, cleanup, now).0)
  {
    DeleteAuthRowDrops(db, u, now);
  }

  /** Only committed snapshots write mappings; every other step can only drop them. */
  lemma StepDrops(sys: System, e: Event)
    requires Inv(sys) && !e.Snapshot?
    ensures OnlyDrops(sys.db, Step(sys, e).db)
  {
    match e
    case Deleted(id, cleanup, now) => RemoveDrops(sys.db, id, cleanup, now);
    case Claimed(w, actor, u, now) => StageDrops(sys.db, actor, u, now);
    case CleanedUp(w, cleanup, ackLost, now) =>
      if w in sys.workers && sys.workers[w].CleaningUp? {
        CleanUpDrops(sys.db, sys.workers[w].user, sys.workers[w].token, cleanup, now);
      }
    case DeletedElsewhere(u, now) => DeleteAuthRowDrops(sys.db, u, now);
    case _ => OtherStepsKeepIdentities(sys, e);
  }

  lemma OtherStepsKeepIdentities(sys: System, e: Event)
    requires !e.Snapshot? && !e.Deleted? && !e.Claimed? && !e.CleanedUp? && !e.DeletedElsewhere?
    ensures SameIdentities(sys.db, Step(sys, e).db)
  {
    match e
    case ProviderAnswered(w, ok, ackLost, now) => ProviderKeepsIdentities(sys, w, ok, ackLost, now);
    case Reported(w) => ReportKeepsIdentities(sys, w);
    case Redeemed(id, invite, now) => RedeemKeepsIdentities(sys.db, id, invite, now);
    case MailQueued(_, _, _) =>
    case MailMoved(_, _) =>
    case Crashed(_) =>
  }

  lemma ProviderKeepsIdentities(sys: System, w: WorkerId, ok: bool, ackLost: bool, now: Time)
    ensures SameIdentities(sys.db, AfterProvider(sys, w, ok, ackLost, now).db)
  {
  }

  lemma ReportKeepsIdentities(sys: System, w: WorkerId)
    ensures SameIdentities(sys.db, AfterReport(sys, w).db)
  {
  }

  lemma RedeemKeepsIdentities(db: Db, id: ClerkId, invite: Option<Time>, now: Time)
    ensures SameIdentities(db, Redeem(db, id, invite, now).0)
  {
  }

  ghost predicate SameIdentities(db: Db, after: Db) {
    after.mapping == db.mapping && after.lifecycle == db.lifecycle
  }

  /**
   The row an identity's mapping and lifecycle show after a step: that of the snapshot just committed,
   or the one before.
   */
  lemma StepShows(sys: System, e: Event, id: ClerkId)
    requires Inv(sys) && id in Step(sys, e).db.mapping && id in Step(sys, e).db.lifecycle
    ensures var db, after := sys.db, Step(sys, e).db;
            if Commits(db, e, id)
            then after.mapping[id].email == e.email && after.lifecycle[id].providerUpdatedAt == e.ts
            else id in db.mapping && after.mapping[id] == db.mapping[id] && id in db.lifecycle
                 && after.lifecycle[id].providerUpdatedAt == db.lifecycle[id].providerUpdatedAt
  {
    if e.Snapshot? {
      ApplyBinds(sys.db, e.id, e.email, e.ts, e.newId, e.welcome, e.invitesRequired, e.now);
    } else {
      StepDrops(sys, e);
    }
  }

  lemma RunLast(sys: System, es: seq<Event>)
    requires es != [] && PossibleRun(sys, es)
    ensures var n := |es| - 1;
            && PossibleRun(sys, es[..n]) && Possible(Run(sys, es[..n]), es[n])
            && Run(sys, es) == Step(Run(sys, es[..n]), es[n])
  {
    var n := |es| - 1;
    assert es == es[..n] + [es[n]];
    RunAppends(sys, es[..n], [es[n]]);
    assert Run(Step(Run(sys, es[..n]), es[n]), []) == Step(Run(sys, es[..n]), es[n]);
  }

  /** The committed snapshot that an identity's mapping and lifecycle row show. */
  lemma {:induction false} ShownSnapshot(sys: System, es: seq<Event>, id: ClerkId) returns (i: nat)
    requires Initial(sys) && PossibleRun(sys, es)
    requires id in Run(sys, es).db.mapping && id in Run(sys, es).db.lifecycle
    ensures CommittedAt(sys, es, i, id)
    ensures Run(sys, es).db.mapping[id].email == es[i].email
    ensures Run(sys, es).db.lifecycle[id].providerUpdatedAt == es[i].ts
    decreases |es|
  {
    InitialIsSound(sys);
    var n := |es| - 1;
    RunLast(sys, es);
    RunKeeps(sys, es[..n]);
    StepShows(Run(sys, es[..n]), es[n], id);
    if Commits(Run(sys, es[..n]).db, es[n], id) {
      i := n;
    } else {
      i := ShownSnapshot(sys, es[..n], id);
      assert es[..n][..i] == es[..i];
    }
  }

  /** From a committed snapshot on, the identity's timestamp is at least the snapshot's. */
  lemma CommittedIsKept(sys: System, es: seq<Event>, i: nat, id: ClerkId)
    requires Initial(sys) && PossibleRun(sys, es) && CommittedAt(sys, es, i, id)
    ensures id in Run(sys, es).db.lifecycle && es[i].ts <= Run(sys, es).db.lifecycle[id].providerUpdatedAt
  {
    InitialIsSound(sys);
    var before, e := Run(sys, es[..i]), es[i];
    assert es == es[..i] + es[i..] && es[i..] == [e] + es[i + 1..];
    RunAppends(sys, es[..i], es[i..]);
    RunKeeps(sys, es[..i]);
    StepKeeps(before, e);
    RunKeeps(Step(before, e), es[i + 1..]);
    ApplyBinds(before.db, id, e.email, e.ts, e.newId, e.welcome, e.invitesRequired, e.now);
  }

  /** Committed snapshots of one identity have strictly increasing timestamps: a repeated timestamp commits once. */
  lemma SnapshotsIncrease(sys: System, es: seq<Event>, i: nat, j: nat, id: ClerkId)
    requires Initial(sys) && PossibleRun(sys, es) && i < j
    requires CommittedAt(sys, es, i, id) && CommittedAt(sys, es, j, id)
    ensures es[i].ts < es[j].ts
  {
    var before, e := Run(sys, es[..j]), es[j];
    assert es == es[..j] + es[j..] && es[..j][..i] == es[..i];
    RunAppends(sys, es[..j], es[j..]);
    CommittedIsKept(sys, es[..j], i, id);
    ApplyBinds(before.db, id, e.email, e.ts, e.newId, e.welcome, e.invitesRequired, e.now);
  }

  /**
   Under duplicated and reordered webhooks, even contradictory ones: a mapped identity with a
   lifecycle row shows address and timestamp of one committed snapshot, the last and newest of all
   that committed for it.
   */
  lemma SnapshotTheorem(sys: System, es: seq<Event>, id: ClerkId) returns (i: nat)
    requires Initial(sys) && PossibleRun(sys, es)
    requires id in Run(sys, es).db.mapping && id in Run(sys, es).db.lifecycle
    ensures CommittedAt(sys, es, i, id)
    ensures Run(sys, es).db.mapping[id].email == es[i].email
    ensures Run(sys, es).db.lifecycle[id].providerUpdatedAt == es[i].ts
    ensures forall j: nat | CommittedAt(sys, es, j, id) && j != i :: j < i && es[j].ts < es[i].ts
  {
    i := ShownSnapshot(sys, es, id);
    forall j: nat | CommittedAt(sys, es, j, id) && j != i
      ensures j < i && es[j].ts < es[i].ts
    {
      CommittedIsKept(sys, es, j, id);
      if j < i {
        SnapshotsIncrease(sys, es, j, i, id);
      } else {
        SnapshotsIncrease(sys, es, i, j, id);
      }
    }
  }

  /** Along every run the timestamp of an identity never decreases. */
  lemma TimestampTheorem(sys: System, es: seq<Event>, fs: seq<Event>, id: ClerkId)
    requires Initial(sys) && PossibleRun(sys, es + fs) && id in Run(sys, es).db.lifecycle
    ensures id in Run(sys, es + fs).db.lifecycle
    ensures Run(sys, es).db.lifecycle[id].providerUpdatedAt <= Run(sys, es + fs).db.lifecycle[id].providerUpdatedAt
  {
    InitialIsSound(sys);
    RunAppends(sys, es, fs);
    RunKeeps(sys, es);
    RunKeeps(Run(sys, es), fs);
  }

  /** A snapshot that is not refused leaves its identity at its timestamp or a newer one, unless deleted. */
  lemma SnapshotIsAbsorbed(db: Db, id: ClerkId, email: Email, ts: nat, newId: Uuid, welcome: MailKey,
                           invitesRequired: bool, now: Time)
    requires Apply(db, id, email, ts, newId, welcome, invitesRequired, now).1 != Conflict
    ensures var after := Apply(db, id, email, ts, newId, welcome, invitesRequired, now).0;
            Tombstoned(after, id) || (id in after.lifecycle && ts <= after.lifecycle[id].providerUpdatedAt)
  {
    ApplyBinds(db, id, email, ts, newId, welcome, invitesRequired, now);
  }

  // ---------------------------------------------------------------- where the tombstone is missing

  /** A live identity whose old account was erased after a deletion that never named the identity. */
  ghost predicate LeftBehind(db: Db, id: ClerkId) {
    && AccountOf(db, id).Some? && AccountOf(db, id).value in db.deletions
    && db.deletions[AccountOf(db, id).value].status == Completed
    && !Tombstoned(db, id)
  }

  /**
   user.deleted always leaves the identity without a mapping, and leaves a tombstone
   unless the identity was left behind; then its account is already gone.
   */
  lemma RemoveBuries(sys: System, es: seq<Event>, id: ClerkId, cleanup: Cleanup, now: Time)
    requires Initial(sys) && PossibleRun(sys, es)
    ensures var db := Run(sys, es).db;
            var after := Remove(db, id, cleanup, now);
            && id !in after.mapping
            && (Tombstoned(after, id) <==> !LeftBehind(db, id))
            && (LeftBehind(db, id) ==>
                  && after == db
                  && AccountOf(db, id).value !in db.auth
                  && db.deletions[AccountOf(db, id).value].clerkId == None)
  {
    InitialIsSound(sys);
    RunKeeps(sys, es);
    var db := Run(sys, es).db;
    RemoveKeeps(db, id, cleanup, now);
    RemoveAdvances(db, id, cleanup, now);
    match AccountOf(db, id)
    case None =>
    case Some(u) =>
      assert u in db.deletions ==> DeletionSound(db, u);
      if u in db.deletions && db.deletions[u].status == Completed {
        assert id !in db.mapping;
        assert !Tombstoned(db, id) ==> Stranded(db, u);
      } else {
        RevokedIsTombstoned(db, id, u, cleanup, now);
      }
  }

  lemma RevokedIsTombstoned(db: Db, id: ClerkId, u: Uuid, cleanup: Cleanup, now: Time)
    requires AccountOf(db, id) == Some(u) && (u in db.deletions ==> db.deletions[u].status != Completed)
    ensures Tombstoned(Remove(db, id, cleanup, now), id)
    ensures id !in Remove(db, id, cleanup, now).mapping
  {
    DeleteAuthRowAdvances(Revoke(db, id, u, now), u, now);
    assert Tombstoned(Revoke(db, id, u, now), id);
  }

  /** One confirmed account, linked to nobody. */
  ghost function LoneAccount(): System {
    System(Db(map[1 := AuthRow(Some(7), true)], map[1 := Profile(User, Some(7))],
              map[1 := Access(true, Some(0), None, None, None)],
              map[], map[], map[], map[], map[]), map[])
  }

  ghost function AfterOperatorStage(): System {
    Step(LoneAccount(), Claimed(0, 9, 1, 0))
  }

  ghost function AfterSignIn(): System {
    Step(AfterOperatorStage(), Snapshot(5, 7, 1, 2, 0, false, 1))
  }

  ghost function AfterDeferral(): System {
    Step(AfterSignIn(), CleanedUp(0, ForeignKeyBlocked, false, 2))
  }

  ghost function AfterRetry(): System {
    Step(AfterReclaim(), CleanedUp(1, Erased, false, 101))
  }

  ghost function AfterReclaim(): System {
    Step(AfterDeferral(), Claimed(1, 9, 1, 100))
  }

  lemma StageOfLoneAccount()
    ensures Initial(LoneAccount())
    ensures var s := AfterOperatorStage();
            && s.workers == map[0 := CleaningUp(1, 1)]
            && s.db == FirstStage(LoneAccount().db, 1, None, 0)
  {
    assert ClerkIdOf(LoneAccount().db, 1) == None;
  }

  /**
   An account staged while no identity is linked gets no tombstone, so an identity that
   signs in with its address before the cleanup is linked to the account being deleted.
   */
  lemma SignInDuringDeletion()
    ensures Possible(AfterOperatorStage(), Snapshot(5, 7, 1, 2, 0, false, 1))
    ensures var s := AfterSignIn();
            && 1 in s.db.deletions && 5 in s.db.mapping && s.db.mapping[5].uuid == 1
            && s.db == LinkAccount(AfterOperatorStage().db, 5, 7, 1, 1, Member)
            && s.workers == AfterOperatorStage().workers
  {
    StageOfLoneAccount();
    var db := AfterOperatorStage().db;
    assert Historical(db, 7) == {1};
    assert Sole(Historical(db, 7)) == 1;
  }

  /** The holder keeps the account: the identity mapped to it loses its mapping, and its row stays. */
  lemma DeferredLeaves(sys: System, w: WorkerId, id: ClerkId, now: Time)
    requires w in sys.workers && sys.workers[w].CleaningUp?
    requires var u := sys.workers[w].user;
             && Holds(sys.db, u, sys.workers[w].token) && sys.db.deletions[u].status != Completed
             && u in sys.db.auth && u in sys.db.profiles && id in sys.db.mapping && sys.db.mapping[id].uuid == u
    requires id in sys.db.lifecycle
    ensures var u := sys.workers[w].user;
            var after := Step(sys, CleanedUp(w, ForeignKeyBlocked, false, now));
            && after == Leave(sys, SettleDeferred(CleanRetained(sys.db, u), u), w)
            && id !in after.db.mapping && id in after.db.lifecycle && after.db.lifecycle[id] == sys.db.lifecycle[id]
            && u in after.db.auth && u in after.db.profiles && after.db.profiles[u].role == sys.db.profiles[u].role
  {
  }

  lemma DeferralStrands()
    ensures var s := AfterDeferral();
            && s.workers == map[] && 5 !in s.db.mapping && 5 in s.db.lifecycle &&
               s.db.lifecycle[5] == Lifecycle(Some(1), 1, None)
            && 1 in s.db.deletions
            && s.db.deletions[1] == Deletion(None, CleanupDeferred, 1, None, Some(0), None, Some(ProtectedAttribution))
            && 1 in s.db.auth && 1 in s.db.profiles && s.db.profiles[1].role == User
  {
    StageOfLoneAccount();
    SignInDuringDeletion();
    DeferredLeaves(AfterSignIn(), 0, 5, 2);
  }

  lemma ReclaimOfDeferred()
    ensures var d := AfterDeferral().db;
            && 1 in d.deletions
            && AfterReclaim().db == d.(deletions := d.deletions[1 :=
                  d.deletions[1].(attempts := 2, lockedUntil := Some(130))])
            && AfterReclaim().workers == map[1 := CleaningUp(1, 2)]
  {
    DeferralStrands();
  }

  /** The holder erases the account: a live identity that is not mapped keeps its row. */
  lemma ErasedLeaves(sys: System, w: WorkerId, id: ClerkId, now: Time)
    requires w in sys.workers && sys.workers[w].CleaningUp?
    requires var u := sys.workers[w].user;
             && Holds(sys.db, u, sys.workers[w].token) && sys.db.deletions[u].status != Completed
             && u in sys.db.auth && !IsAdmin(sys.db, u)
    requires id !in sys.db.mapping && id in sys.db.lifecycle
    ensures var after := Step(sys, CleanedUp(w, Erased, false, now)).db;
            && sys.workers[w].user in after.deletions && after.deletions[sys.workers[w].user].status == Completed
            && id !in after.mapping && id in after.lifecycle && after.lifecycle[id] == sys.db.lifecycle[id]
  {
  }

  lemma RetryErases()
    ensures var s := AfterRetry();
            && 1 in s.db.deletions && s.db.deletions[1].status == Completed
            && 5 !in s.db.mapping && 5 in s.db.lifecycle && s.db.lifecycle[5] == Lifecycle(Some(1), 1, None)
  {
    DeferralStrands();
    ReclaimOfDeferred();
    ErasedLeaves(AfterReclaim(), 1, 5, 101);
  }

  /** The account is then erased, and a later user.deleted for the identity leaves no tombstone. */
  lemma IdentityLeftBehind()
    ensures LeftBehind(AfterRetry().db, 5)
    ensures forall cleanup, now :: !Tombstoned(Remove(AfterRetry().db, 5, cleanup, now), 5)
  {
    RetryErases();
  }
}
