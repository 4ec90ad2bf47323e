/** applyMigrations as it runs against one database when no other runner interferes. */
module MigrationStore {
  import opened Common
  import opened Migrations
  import opened MigrationRunners

  /** The SQL of migrations `from` up to `to` works. */
  predicate AllWork(h: seq<Migration>, works: Migration -> bool, from: nat, to: nat)
    requires to <= |h|
  {
    forall j | from <= j < to :: works(h[j])
  }

  /** The versions of migrations `from` up to `to`. */
  function VersionsBetween(h: seq<Migration>, from: nat, to: nat): (vs: seq<nat>)
    requires from <= to <= |h|
    ensures |vs| == to - from && forall i | 0 <= i < |vs| :: vs[i] == h[from + i].version
  {
    if from == to then [] else VersionsBetween(h, from, to - 1) + [h[to - 1].version]
  }

  function Executions(w: nat, h: seq<Migration>, from: nat, to: nat): (es: seq<Execution>)
    requires from <= to <= |h|
    ensures |es| == to - from && forall i | 0 <= i < |es| :: es[i] == Execution(w, h[from + i])
  {
    seq(to - from, i requires 0 <= i < to - from => Execution(w, h[from + i]))
  }

  /** The database after runner `w` applied its history up to `k`, starting from `db`. */
  ghost function Reached(db: Db, w: nat, h: seq<Migration>, k: nat): Db
    requires |db.ledger| <= k <= |h|
  {
    Db(Rows(h)[..k], db.executed + Executions(w, h, |db.ledger|, k))
  }

  lemma ReachedStart(db: Db, w: nat, h: seq<Migration>)
    requires PrefixOf(db.ledger, h)
    ensures Reached(db, w, h, |db.ledger|) == db
  {
  }

  lemma ReachedNext(db: Db, w: nat, h: seq<Migration>, k: nat)
    requires |db.ledger| <= k < |h|
    ensures var at := Reached(db, w, h, k);
            Reached(db, w, h, k + 1) == Db(at.ledger + [RowOf(h[k])], at.executed + [Execution(w, h[k])])
  {
    assert Executions(w, h, |db.ledger|, k + 1) == Executions(w, h, |db.ledger|, k) + [Execution(w, h[k])];
  }

  lemma InLedger(db: Db, h: seq<Migration>, i: nat)
    requires History(h) && PrefixOf(db.ledger, h) && i < |h|
    ensures i < |db.ledger| <==> h[i].version in Versions(db.ledger)
  {
    assert i < |db.ledger| ==> db.ledger[i] == Rows(h)[i] == RowOf(h[i]);
    if h[i].version in Versions(db.ledger) {
      var j :| 0 <= j < |db.ledger| && db.ledger[j].version == h[i].version;
      assert db.ledger[j] == Rows(h)[j] == RowOf(h[j]);
    }
  }

  /** The transaction of the migration the ledger lacks next. */
  lemma NextTransaction(db: Db, w: nat, h: seq<Migration>, works: bool)
    requires History(h) && PrefixOf(db.ledger, h) && |db.ledger| < |h|
    ensures var m := h[|db.ledger|];
            Transaction(db, w, h, |db.ledger|, works) ==
            (if works then Some(Db(db.ledger + [RowOf(m)], db.executed + [Execution(w, m)])) else None)
    ensures PrefixOf(db.ledger + [RowOf(h[|db.ledger|])], h)
  {
    var k := |db.ledger|;
    InLedger(db, h, k);
    forall r | r in db.ledger
      ensures r.version < h[k].version && r.file != h[k].file
    {
      var j :| 0 <= j < k && db.ledger[j] == r;
      assert r == Rows(h)[j] == RowOf(h[j]);
    }
    InsertLargest(db.ledger, RowOf(h[k]));
  }

  class Database {
    var ledger: seq<Row>
    var executed: seq<Execution>

    ghost function Tables(): Db
      reads this
    {
      Db(ledger, executed)
    }

    /** One locked transaction; `ok` is false for the rolled-back error, `ran` says that the SQL ran. */
    method RunOne(w: nat, h: seq<Migration>, i: nat, works: bool) returns (ok: bool, ran: bool)
      requires History(h) && i < |h|
      modifies this
      ensures ok == Transaction(old(Tables()), w, h, i, works).Some?
      ensures Tables() == if ok then Transaction(old(Tables()), w, h, i, works).value else old(Tables())
      ensures ran == (ok && h[i].version !in Versions(old(ledger)))
    {
      var r := Reconcile(ledger, h);
      if !r.Applied? {
        return false, false;
      }
      if h[i].version in r.versions {
        return true, false;
      }
      var inserted := Insert(ledger, RowOf(h[i]));
      if !works || inserted.None? {
        return false, false;
      }
      executed := executed + [Execution(w, h[i])];
      ledger := inserted.value;
      return true, true;
    }

    /** The same transaction of a runner that has come as far as `i`: it is idle, or it applies what comes next. */
    method RunInOrder(w: nat, h: seq<Migration>, i: nat, works: bool) returns (ok: bool, ran: bool)
      requires History(h) && PrefixOf(ledger, h) && i <= |ledger| && i < |h|
      modifies this
      ensures PrefixOf(ledger, h)
      ensures ran == (i == |old(ledger)| && works)
      ensures ok == (i < |old(ledger)| || works)
      ensures Tables() == if ran then Db(old(ledger) + [RowOf(h[i])], old(executed) + [Execution(w, h[i])])
                          else old(Tables())
    {
      InLedger(Tables(), h, i);
      if i == |ledger| {
        NextTransaction(Tables(), w, h, works);
      }
      ok, ran := RunOne(w, h, i, works);
    }

    /**
     It returns exactly when the ledger is a prefix of the history and the SQL still missing
     works; then the whole history is applied and the answer lists what this call applied. An
     error leaves the ledger a prefix of the history, ending just before the failing migration.
     */
    method ApplyMigrations(w: nat, h: seq<Migration>, works: Migration -> bool) returns (appliedNow: Option<seq<nat>>)
      requires History(h)
      modifies this
      ensures appliedNow.Some? <==> PrefixOf(old(ledger), h) && AllWork(h, works, |old(ledger)|, |h|)
      ensures appliedNow.Some? ==>
                && Tables() == Reached(old(Tables()), w, h, |h|)
                && appliedNow.value == VersionsBetween(h, |old(ledger)|, |h|)
      ensures appliedNow.None? && !PrefixOf(old(ledger), h) ==> Tables() == old(Tables())
      ensures appliedNow.None? && PrefixOf(old(ledger), h) ==>
                && |old(ledger)| <= |ledger| < |h| && !works(h[|ledger|]) && AllWork(h, works, |old(ledger)|, |ledger|)
                && Tables() == Reached(old(Tables()), w, h, |ledger|)
    {
      ghost var before := Tables();
      var first := Reconcile(ledger, h);
      if !first.Applied? {
        return None;
      }
      ReachedStart(before, w, h);
      ghost var n, k := |ledger|, |ledger|;
      var applied: seq<nat> := [];
      for i := 0 to |h|
        invariant n <= k <= |h| && i <= k && (k == n || k == i)
        invariant AllWork(h, works, n, k) && applied == VersionsBetween(h, n, k)
        invariant Tables() == Reached(before, w, h, k)
        invariant PrefixOf(ledger, h)
      {
        var ok, ran := RunInOrder(w, h, i, works(h[i]));
        if !ok {
          return None;
        }
        if ran {
          ReachedNext(before, w, h, k);
          applied := applied + [h[i].version];
          k := k + 1;
        }
      }
      appliedNow := Some(applied);
    }
  }
}
