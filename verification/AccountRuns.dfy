/** Who gets access, and who is protected, over every run of the account writers. */
module AccountRuns {
  import opened Common
  import opened Accounts
  import opened AccountSystem
  import opened AccountSafety
  import opened AccountTheorems
  import opened AccountAnswers

  // ---------------------------------------------------------------- access needs an invitation

  /** No access turns on, and who keeps an access row keeps the invitations they hold. */
  ghost predicate Narrows(db: Db, after: Db) {
    && (forall u | u in after.access && after.access[u].enabled :: u in db.access && db.access[u].enabled)
    && (forall e | e in db.claims && db.claims[e].claimedBy.Some? && db.claims[e].claimedBy.value in after.access ::
          e in after.claims && after.claims[e].claimedBy == db.claims[e].claimedBy)
    && after.access.Keys <= db.access.Keys
  }

  lemma NarrowsTwice(a: Db, b: Db, c: Db)
    requires Narrows(a, b) && Narrows(b, c)
    ensures Narrows(a, c)
  {
  }

  lemma ErasureNarrows(db: Db, u: Uuid, now: Time)
    ensures Narrows(db, DeleteAuthRow(db, u, now))
  {
    if u in db.auth {
      DeletedRows(db, u, now);
    }
  }

  lemma RemovalNarrows(db: Db, id: ClerkId, cleanup: Cleanup, now: Time)
    ensures Narrows(db, Remove(db, id, cleanup, now))
  {
    if AccountOf(db, id).None? {
      forall u: nat
        ensures !StandsFor(db, id, u)
      {
        StandsForIs(db, id, u);
      }
      UnknownRemoved(db, id, cleanup, now);
    } else {
      StandsForIs(db, id, AccountOf(db, id).value);
      KnownNarrows(db, id, AccountOf(db, id).value, cleanup, now, Remove(db, id, cleanup, now));
    }
  }

  lemma KnownNarrows(db: Db, id: ClerkId, u: Uuid, cleanup: Cleanup, now: Time, after: Db)
    requires StandsFor(db, id, u) && after == Remove(db, id, cleanup, now)
    ensures Narrows(db, after)
  {
    var revoked := RemovalRows(db, id, u, cleanup, now);
    if !Done(db, u) {
      RevokedNarrows(db, revoked, id, u, now);
      SettledNarrows(revoked, after, u, cleanup, now);
      NarrowsTwice(db, revoked, after);
    }
  }

  lemma RevokedNarrows(db: Db, after: Db, id: ClerkId, u: Uuid, now: Time)
    requires RevokedRows(db, after, id, u, now)
    ensures Narrows(db, after)
  {
  }

  lemma SettledNarrows(db: Db, after: Db, u: Uuid, cleanup: Cleanup, now: Time)
    requires Settled(db, after, u, cleanup, now)
    ensures Narrows(db, after)
  {
  }

  lemma StageNarrows(db: Db, actor: Uuid, u: Uuid, now: Time)
    ensures Narrows(db, Stage(db, actor, u, now).0)
  {
    var after := Stage(db, actor, u, now).0;
    assert after.claims == db.claims && after.access.Keys == db.access.Keys;
  }

  lemma CleanUpNarrows(db: Db, u: Uuid, token: nat, cleanup: Cleanup, now: Time)
    ensures Narrows(db, CleanUp(db, u, token, cleanup, now).0)
  {
    CleanUpRows(db, u, token, cleanup, now);
  }

  /** Access, invitations and profiles stay. */
  ghost predicate SameRows(db: Db, after: Db) {
    after.access == db.access && after.claims == db.claims && after.profiles == db.profiles
  }

  lemma FencedKeepRows(db: Db, u: Uuid, token: nat, error: DeletionError, now: Time)
    ensures SameRows(db, RecordError(db, u, token, error)) && SameRows(db, ConfirmProvider(db, u, token, now).0)
  {
  }

  lemma ProviderKeepsRows(sys: System, w: WorkerId, ok: bool, ackLost: bool, now: Time)
    ensures SameRows(sys.db, AfterProvider(sys, w, ok, ackLost, now).db)
  {
    if w in sys.workers {
      FencedKeepRows(sys.db, sys.workers[w].user, sys.workers[w].token, ProviderError, now);
    }
  }

  lemma ReportKeepsRows(sys: System, w: WorkerId)
    ensures SameRows(sys.db, AfterReport(sys, w).db)
  {
    if w in sys.workers {
      FencedKeepRows(sys.db, sys.workers[w].user, sys.workers[w].token, CleanupFailed, 0);
    }
  }

  /** The remaining steps touch none of the three. */
  lemma OthersKeepRows(sys: System, e: Event)
    requires e.ProviderAnswered? || e.Reported? || e.MailQueued? || e.MailMoved? || e.Crashed?
    ensures SameRows(sys.db, Step(sys, e).db)
  {
    if e.ProviderAnswered? {
      ProviderKeepsRows(sys, e.worker, e.ok, e.ackLost, e.now);
    } else if e.Reported? {
      ReportKeepsRows(sys, e.worker);
    }
  }

  /** Every step but a snapshot and a redemption. */
  lemma StepNarrows(sys: System, e: Event)
    requires !e.Snapshot? && !e.Redeemed?
    ensures Narrows(sys.db, Step(sys, e).db)
  {
    if e.Deleted? {
      RemovalNarrows(sys.db, e.id, e.cleanup, e.now);
    } else if e.Claimed? {
      StageNarrows(sys.db, e.actor, e.user, e.now);
    } else if e.CleanedUp? {
      if e.worker in sys.workers && sys.workers[e.worker].CleaningUp? {
        CleanUpNarrows(sys.db, sys.workers[e.worker].user, sys.workers[e.worker].token, e.cleanup, e.now);
      }
    } else if e.DeletedElsewhere? {
      ErasureNarrows(sys.db, e.user, e.now);
    } else {
      OthersKeepRows(sys, e);
    }
  }

  /**
   The event gives access to u: a snapshot that creates it, with a live invitation if one is required,
   or a redemption.
   */
  ghost predicate Grants(db: Db, e: Event, u: Uuid) {
    || (e.Snapshot? && u == e.newId && u !in db.auth && (!e.invitesRequired || Open(db, e.email, e.now)))
    || (e.Redeemed? && MapsTo(db, e.id, u) && db.mapping[e.id].role == Member
        && !Taken(db, db.mapping[e.id].email) && e.invite.Some? && e.now < e.invite.value)
  }

  lemma StepGrants(sys: System, e: Event, u: Uuid)
    requires Possible(sys, e) && TurnsOn(sys.db, Step(sys, e).db, u)
    ensures Grants(sys.db, e, u)
  {
    if e.Snapshot? {
      InvitationTheorem(sys.db, e.id, e.email, e.ts, e.newId, e.welcome, e.invitesRequired, e.now, u);
      SnapshotCreates(sys.db, e, u);
    } else if e.Redeemed? {
      RedeemReplies(sys.db, e.id, e.invite, e.now);
      RedeemRows(sys.db, e.id, e.invite, e.now);
    } else {
      StepNarrows(sys, e);
    }
  }

  lemma SnapshotCreates(db: Db, e: Event, u: Uuid)
    requires e.Snapshot? && Unused(db, e.newId)
    requires Created(db, Apply(db, e.id, e.email, e.ts, e.newId, e.welcome, e.invitesRequired, e.now).0, u)
    ensures u == e.newId
  {
    var after := Apply(db, e.id, e.email, e.ts, e.newId, e.welcome, e.invitesRequired, e.now).0;
    if e.newId in after.auth {
      CreatedRows(db, e.id, e.email, e.ts, e.newId, e.welcome, e.invitesRequired, e.now);
    } else {
      NothingCreated(db, e.id, e.email, e.ts, e.newId, e.welcome, e.invitesRequired, e.now);
    }
  }

  ghost predicate HasEnabled(db: Db, u: Uuid) {
    u in db.access && db.access[u].enabled
  }

  /**
   Whoever is enabled at the end of a run and was not at its start was given access by one of its
   events, at a moment when the condition for giving it held.
   */
  lemma {:induction false} AccessOrigin(sys: System, es: seq<Event>, u: Uuid) returns (i: nat)
    requires PossibleRun(sys, es) && HasEnabled(Run(sys, es).db, u) && !HasEnabled(sys.db, u)
    ensures i < |es| && Grants(Run(sys, es[..i]).db, es[i], u)
    decreases |es|
  {
    var next := Step(sys, es[0]);
    if HasEnabled(next.db, u) {
      StepGrants(sys, es[0], u);
      i := 0;
    } else {
      var k := AccessOrigin(next, es[1..], u);
      i := k + 1;
      assert es[..i][1..] == es[1..][..k];
    }
  }

  /** Everyone with access holds an invitation. */
  ghost predicate Invited(db: Db) {
    forall u: nat | HasEnabled(db, u) :: exists e | e in db.claims :: db.claims[e].claimedBy == Some(u)
  }

  lemma NarrowKeepsInvited(db: Db, after: Db)
    requires Invited(db) && Narrows(db, after)
    ensures Invited(after)
  {
    forall u: nat | HasEnabled(after, u)
      ensures exists e | e in after.claims :: after.claims[e].claimedBy == Some(u)
    {
      assert HasEnabled(db, u);
      var e :| e in db.claims && db.claims[e].claimedBy == Some(u);
      assert after.claims[e].claimedBy == Some(u);
    }
  }

  lemma SnapshotKeepsInvited(db: Db, e: Event)
    requires Invited(db) && e.Snapshot? && e.invitesRequired && Unused(db, e.newId)
    ensures Invited(Apply(db, e.id, e.email, e.ts, e.newId, e.welcome, e.invitesRequired, e.now).0)
  {
    var after := Apply(db, e.id, e.email, e.ts, e.newId, e.welcome, e.invitesRequired, e.now).0;
    if e.newId in after.auth {
      CreatedRows(db, e.id, e.email, e.ts, e.newId, e.welcome, e.invitesRequired, e.now);
      forall u: nat | HasEnabled(after, u)
        ensures exists k | k in after.claims :: after.claims[k].claimedBy == Some(u)
      {
        if u == e.newId {
          assert after.claims[e.email].claimedBy == Some(u);
        } else {
          assert HasEnabled(db, u);
          var k :| k in db.claims && db.claims[k].claimedBy == Some(u);
          assert after.claims[k].claimedBy == Some(u);
        }
      }
    } else {
      NothingCreated(db, e.id, e.email, e.ts, e.newId, e.welcome, e.invitesRequired, e.now);
      NarrowKeepsInvited(db, after);
    }
  }

  lemma RedemptionKeepsInvited(db: Db, id: ClerkId, invite: Option<Time>, now: Time)
    requires Invited(db)
    ensures Invited(Redeem(db, id, invite, now).0)
  {
    var after := Redeem(db, id, invite, now).0;
    RedeemRows(db, id, invite, now);
    if after != db {
      var (v, email) := (db.mapping[id].uuid, db.mapping[id].email);
      forall u: nat | HasEnabled(after, u)
        ensures exists k | k in after.claims :: after.claims[k].claimedBy == Some(u)
      {
        if u == v {
          assert after.claims[email].claimedBy == Some(u);
        } else {
          assert HasEnabled(db, u);
          var k :| k in db.claims && db.claims[k].claimedBy == Some(u);
          assert k != email && after.claims[k].claimedBy == Some(u);
        }
      }
    }
  }

  lemma StepKeepsInvited(sys: System, e: Event)
    requires Invited(sys.db) && Possible(sys, e) && (e.Snapshot? ==> e.invitesRequired)
    ensures Invited(Step(sys, e).db)
  {
    if e.Snapshot? {
      SnapshotKeepsInvited(sys.db, e);
    } else if e.Redeemed? {
      RedemptionKeepsInvited(sys.db, e.id, e.invite, e.now);
    } else {
      StepNarrows(sys, e);
      NarrowKeepsInvited(sys.db, Step(sys, e).db);
    }
  }

  /**
   While invitations are required, in every run, everyone with access holds an invitation of their
   own: whatever erasures release, and whoever redeems or signs up in between.
   */
  lemma {:induction false} InvitedTheorem(sys: System, es: seq<Event>)
    requires Invited(sys.db) && PossibleRun(sys, es)
    requires forall e | e in es && e.Snapshot? :: e.invitesRequired
    ensures Invited(Run(sys, es).db)
    decreases |es|
  {
    if es != [] {
      assert es[0] in es;
      assert forall e | e in es[1..] :: e in es;
      StepKeepsInvited(sys, es[0]);
      InvitedTheorem(Step(sys, es[0]), es[1..]);
    }
  }

  // ---------------------------------------------------------------- administrators

  /** No operator deletion is under way for an administrator's account. */
  ghost predicate AdministratorsSpared(sys: System) {
    forall w | w in sys.workers :: !Administrator(sys.db, sys.workers[w].user)
  }

  /** No account becomes an administrator's. */
  ghost predicate NoneAppointed(db: Db, after: Db) {
    forall u: nat | Administrator(after, u) :: Administrator(db, u)
  }

  lemma SnapshotAppointsNone(db: Db, e: Event)
    requires e.Snapshot? && Unused(db, e.newId)
    ensures NoneAppointed(db, Apply(db, e.id, e.email, e.ts, e.newId, e.welcome, e.invitesRequired, e.now).0)
  {
    var after := Apply(db, e.id, e.email, e.ts, e.newId, e.welcome, e.invitesRequired, e.now).0;
    if e.newId in after.auth {
      CreatedRows(db, e.id, e.email, e.ts, e.newId, e.welcome, e.invitesRequired, e.now);
    } else {
      ProfilesFollow(db, e.id, e.email, e.ts, e.newId, e.welcome, e.invitesRequired, e.now);
    }
  }

  lemma RemovalAppointsNone(db: Db, id: ClerkId, cleanup: Cleanup, now: Time)
    ensures NoneAppointed(db, Remove(db, id, cleanup, now))
  {
    if AccountOf(db, id).Some? {
      var u := AccountOf(db, id).value;
      StandsForIs(db, id, u);
      var revoked := RemovalRows(db, id, u, cleanup, now);
    }
  }

  lemma CleanUpAppointsNone(db: Db, u: Uuid, token: nat, cleanup: Cleanup, now: Time)
    ensures NoneAppointed(db, CleanUp(db, u, token, cleanup, now).0)
  {
    CleanUpRows(db, u, token, cleanup, now);
  }

  lemma StageAppointsNone(db: Db, actor: Uuid, u: Uuid, now: Time)
    ensures NoneAppointed(db, Stage(db, actor, u, now).0)
  {
    assert Stage(db, actor, u, now).0.profiles == db.profiles;
  }

  lemma ErasureAppointsNone(db: Db, u: Uuid, now: Time)
    ensures NoneAppointed(db, DeleteAuthRow(db, u, now))
  {
    if u in db.auth {
      DeletedRows(db, u, now);
    }
  }

  lemma StepAppointsNone(sys: System, e: Event)
    requires Possible(sys, e)
    ensures NoneAppointed(sys.db, Step(sys, e).db)
  {
    if e.Snapshot? {
      SnapshotAppointsNone(sys.db, e);
    } else if e.Deleted? {
      RemovalAppointsNone(sys.db, e.id, e.cleanup, e.now);
    } else if e.Claimed? {
      StageAppointsNone(sys.db, e.actor, e.user, e.now);
    } else if e.CleanedUp? {
      if e.worker in sys.workers && sys.workers[e.worker].CleaningUp? {
        CleanUpAppointsNone(sys.db, sys.workers[e.worker].user, sys.workers[e.worker].token, e.cleanup, e.now);
      }
    } else if e.DeletedElsewhere? {
      ErasureAppointsNone(sys.db, e.user, e.now);
    } else if e.Redeemed? {
      RedeemRows(sys.db, e.id, e.invite, e.now);
    } else {
      OthersKeepRows(sys, e);
    }
  }

  /** A worker after the step is one from before, for the same account, or was just granted its claim. */
  lemma StepWorkers(sys: System, e: Event, w: WorkerId)
    requires w in Step(sys, e).workers
    ensures var u := Step(sys, e).workers[w].user;
            || (w in sys.workers && sys.workers[w].user == u)
            || (e.Claimed? && e.worker == w && e.user == u && Stage(sys.db, e.actor, u, e.now).1.Staged?)
  {
  }

  lemma StepSpares(sys: System, e: Event)
    requires AdministratorsSpared(sys) && Possible(sys, e)
    ensures AdministratorsSpared(Step(sys, e))
  {
    StepAppointsNone(sys, e);
    forall w | w in Step(sys, e).workers
      ensures !Administrator(Step(sys, e).db, Step(sys, e).workers[w].user)
    {
      StepWorkers(sys, e, w);
      if e.Claimed? {
        AdministratorIsProtected(sys.db, e.actor, e.user, e.now);
      }
    }
  }

  /**
   In every run: no worker ever asks the provider about an administrator's account, cleans it up or
   reports on it.
   */
  lemma {:induction false} AdministratorTheorem(sys: System, es: seq<Event>)
    requires AdministratorsSpared(sys) && PossibleRun(sys, es)
    ensures AdministratorsSpared(Run(sys, es))
    decreases |es|
  {
    if es != [] {
      StepSpares(sys, es[0]);
      AdministratorTheorem(Step(sys, es[0]), es[1..]);
    }
  }
}
