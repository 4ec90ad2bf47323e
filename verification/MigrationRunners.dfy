/**
 Any number of migration runners, each with its own repository history, interleaved at
 transaction boundaries, crashing anywhere and losing answers.
 */
module MigrationRunners {
  import opened Common
  import opened Migrations

  /** One committed run of a migration's SQL. */
  datatype Execution = Execution(runner: nat, migration: Migration)

  /** The ledger table read ORDER BY version, and the SQL that has committed, in commit order. */
  datatype Db = Db(ledger: seq<Row>, executed: seq<Execution>)

  ghost predicate Ascending(ledger: seq<Row>) {
    forall i, j | 0 <= i < j < |ledger| :: ledger[i].version < ledger[j].version
  }

  function InsertByVersion(ledger: seq<Row>, row: Row): seq<Row> {
    if ledger == [] || row.version < ledger[0].version then [row] + ledger
    else [ledger[0]] + InsertByVersion(ledger[1..], row)
  }

  /** INSERT under the primary key on version and the unique file name: None is the constraint error. */
  function Insert(ledger: seq<Row>, row: Row): Option<seq<Row>> {
    if exists r | r in ledger :: r.version == row.version || r.file == row.file then None
    else Some(InsertByVersion(ledger, row))
  }

  /** The transaction for the i-th migration of `h`. None: it throws and rolls back. */
  ghost function Transaction(db: Db, w: nat, h: seq<Migration>, i: nat, sqlWorks: bool): Option<Db>
    requires i < |h|
  {
    if !PrefixOf(db.ledger, h) then None
    else if h[i].version in Versions(db.ledger) then Some(db)
    else if !sqlWorks || Insert(db.ledger, RowOf(h[i])).None? then None
    else Some(Db(Insert(db.ledger, RowOf(h[i])).value, db.executed + [Execution(w, h[i])]))
  }

  // ---------------------------------------------------------------- runs

  /** Before the first check, about to run migration `index`, returned, or ended by an error or a crash. */
  datatype Phase = Start | At(index: nat, applied: seq<nat>) | Returned(applied: seq<nat>) | Stopped

  datatype Runner = Runner(history: seq<Migration>, phase: Phase)
  datatype State = State(db: Db, runners: map<nat, Runner>)

  /**
   Check is the first transaction; Apply is one migration's transaction, whose SQL may fail and
   whose COMMIT may go unheard; Crash ends a runner between transactions or rolls back its open one.
   */
  datatype Event = Check(w: nat) | Apply(w: nat, sqlWorks: bool, heard: bool) | Crash(w: nat)

  function Next(h: seq<Migration>, i: nat, applied: seq<nat>): Phase {
    if i < |h| then At(i, applied) else Returned(applied)
  }

  function Put(s: State, w: nat, phase: Phase): State
    requires w in s.runners
  {
    s.(runners := s.runners[w := s.runners[w].(phase := phase)])
  }

  ghost function Step(s: State, e: Event): (after: State)
    ensures after.runners.Keys == s.runners.Keys
    ensures forall w | w in s.runners :: after.runners[w].history == s.runners[w].history
  {
    if e.w !in s.runners then s
    else
      var h, phase := s.runners[e.w].history, s.runners[e.w].phase;
      match e
      case Crash(w) => if phase.Returned? then s else Put(s, w, Stopped)
      case Check(w) =>
        if !phase.Start? then s
        else Put(s, w, if PrefixOf(s.db.ledger, h) then Next(h, 0, []) else Stopped)
      case Apply(w, sqlWorks, heard) =>
        if !phase.At? || phase.index >= |h| then s
        else
          var i := phase.index;
          match Transaction(s.db, w, h, i, sqlWorks)
          case None => Put(s, w, Stopped)
          case Some(db) =>
            var applied := phase.applied + (if db == s.db then [] else [h[i].version]);
            Put(s.(db := db), w, if heard then Next(h, i + 1, applied) else Stopped)
  }

  ghost function Run(s: State, es: seq<Event>): (after: State)
    ensures after.runners.Keys == s.runners.Keys
    ensures forall w | w in s.runners :: after.runners[w].history == s.runners[w].history
    decreases |es|
  {
    if es == [] then s else Run(Step(s, es[0]), es[1..])
  }

  // ---------------------------------------------------------------- invariant

  /** The versions a runner's committed transactions executed. */
  function RanBy(executed: seq<Execution>, w: nat): seq<nat> {
    if executed == [] then []
    else
      var n := |executed| - 1;
      RanBy(executed[..n], w) + (if executed[n].runner == w then [executed[n].migration.version] else [])
  }

  /** Exactly once and in order: what was executed, in commit order, is what the ledger lists by version. */
  ghost predicate Logged(db: Db) {
    && Ascending(db.ledger)
    && |db.executed| == |db.ledger|
    && forall i | 0 <= i < |db.ledger| :: db.ledger[i] == RowOf(db.executed[i].migration)
  }

  ghost predicate RunnerSound(db: Db, w: nat, r: Runner) {
    && History(r.history)
    && match r.phase
       case Start => RanBy(db.executed, w) == []
       case At(i, applied) =>
         && i <= |db.ledger| && i < |r.history| && db.ledger[..i] == Rows(r.history)[..i]
         && applied == RanBy(db.executed, w)
       case Returned(applied) => Rows(r.history) <= db.ledger && applied == RanBy(db.executed, w)
       case Stopped => true
  }

  ghost predicate RunnersSound(db: Db, runners: map<nat, Runner>) {
    forall w | w in runners :: RunnerSound(db, w, runners[w])
  }

  /** The ledger is a prefix of some runner's history. */
  ghost predicate Sourced(db: Db, runners: map<nat, Runner>) {
    db.ledger != [] ==> exists w | w in runners :: PrefixOf(db.ledger, runners[w].history)
  }

  ghost predicate Inv(s: State) {
    Logged(s.db) && RunnersSound(s.db, s.runners) && Sourced(s.db, s.runners)
  }

  lemma {:induction false} InsertLargest(ledger: seq<Row>, row: Row)
    requires forall r | r in ledger :: r.version < row.version
    ensures InsertByVersion(ledger, row) == ledger + [row]
    decreases |ledger|
  {
    if ledger != [] {
      InsertLargest(ledger[1..], row);
      assert ledger + [row] == [ledger[0]] + (ledger[1..] + [row]);
    }
  }

  /** A transaction changes nothing, or appends the one migration that comes next. */
  lemma TransactionAppends(db: Db, w: nat, h: seq<Migration>, i: nat, sqlWorks: bool)
    requires Logged(db) && History(h) && i < |h| && i <= |db.ledger| && db.ledger[..i] == Rows(h)[..i]
    requires Transaction(db, w, h, i, sqlWorks).Some?
    ensures var after := Transaction(db, w, h, i, sqlWorks).value;
            && PrefixOf(after.ledger, h)
            && i < |after.ledger|
            && (after == db || (|db.ledger| == i &&
               after == Db(db.ledger + [RowOf(h[i])], db.executed + [Execution(w, h[i])])))
  {
    assert i < |db.ledger| ==> db.ledger[i] == Rows(h)[i] && h[i].version in Versions(db.ledger);
    if h[i].version in Versions(db.ledger) {
      var j :| 0 <= j < |db.ledger| && db.ledger[j].version == h[i].version;
      assert db.ledger[j] == Rows(h)[j];
    } else {
      forall r | r in db.ledger
        ensures r.version < h[i].version
      {
        var j :| 0 <= j < |db.ledger| && db.ledger[j] == r;
        assert r == Rows(h)[j];
      }
      InsertLargest(db.ledger, RowOf(h[i]));
    }
  }

  lemma RanByAppend(executed: seq<Execution>, e: Execution, w: nat)
    ensures RanBy(executed + [e], w) == RanBy(executed, w) + (if e.runner == w then [e.migration.version] else [])
  {
    assert (executed + [e])[..|executed|] == executed;
  }

  /** Appending to the ledger keeps the other runners sound. */
  lemma OthersStaySound(db: Db, e: Execution, w: nat, r: Runner)
    requires RunnerSound(db, w, r) && e.runner != w
    ensures RunnerSound(Db(db.ledger + [RowOf(e.migration)], db.executed + [e]), w, r)
  {
    RanByAppend(db.executed, e, w);
    var after := db.ledger + [RowOf(e.migration)];
    if r.phase.At? {
      assert after[..r.phase.index] == db.ledger[..r.phase.index];
    }
  }

  lemma AdvanceSound(db: Db, w: nat, h: seq<Migration>, i: nat, applied: seq<nat>)
    requires History(h) && i < |h| && i < |db.ledger| && PrefixOf(db.ledger, h) && applied == RanBy(db.executed, w)
    ensures RunnerSound(db, w, Runner(h, Next(h, i + 1, applied)))
  {
    assert db.ledger[..i + 1] == Rows(h)[..i + 1];
    if i + 1 == |h| {
      assert db.ledger == Rows(h);
    }
  }

  /** Replacing one runner's phase, with the database as it was. */
  lemma PhaseKeeps(s: State, w: nat, phase: Phase)
    requires Inv(s) && w in s.runners && RunnerSound(s.db, w, s.runners[w].(phase := phase))
    ensures Inv(Put(s, w, phase))
  {
    if s.db.ledger != [] {
      var v :| v in s.runners && PrefixOf(s.db.ledger, s.runners[v].history);
      assert v in Put(s, w, phase).runners && Put(s, w, phase).runners[v].history == s.runners[v].history;
    }
  }

  /** Committing the migration that comes next, and replacing the runner's phase. */
  lemma CommitKeeps(s: State, w: nat, db: Db, m: Migration, phase: Phase)
    requires Inv(s) && w in s.runners
    requires db == Db(s.db.ledger + [RowOf(m)], s.db.executed + [Execution(w, m)]) &&
             PrefixOf(db.ledger, s.runners[w].history)
    requires RunnerSound(db, w, s.runners[w].(phase := phase))
    ensures Inv(Put(s.(db := db), w, phase))
  {
    var after := Put(s.(db := db), w, phase);
    assert after.runners[w].history == s.runners[w].history;
    PrefixAscends(db.ledger, s.runners[w].history);
    forall v | v in after.runners
      ensures RunnerSound(db, v, after.runners[v])
    {
      if v != w {
        assert RunnerSound(s.db, v, s.runners[v]);
        OthersStaySound(s.db, Execution(w, m), v, s.runners[v]);
      }
    }
  }

  lemma PrefixAscends(ledger: seq<Row>, h: seq<Migration>)
    requires History(h) && PrefixOf(ledger, h)
    ensures Ascending(ledger)
  {
    forall i, j | 0 <= i < j < |ledger|
      ensures ledger[i].version < ledger[j].version
    {
      assert ledger[i] == Rows(h)[i] && ledger[j] == Rows(h)[j];
    }
  }

  lemma IdleApplyKeeps(s: State, w: nat, heard: bool)
    requires Inv(s) && w in s.runners && s.runners[w].phase.At?
    requires PrefixOf(s.db.ledger, s.runners[w].history) && s.runners[w].phase.index < |s.db.ledger|
    ensures var h, i, applied := s.runners[w].history, s.runners[w].phase.index, s.runners[w].phase.applied;
            Inv(Put(s, w, if heard then Next(h, i + 1, applied) else Stopped))
  {
    var h, i, applied := s.runners[w].history, s.runners[w].phase.index, s.runners[w].phase.applied;
    assert RunnerSound(s.db, w, s.runners[w]);
    AdvanceSound(s.db, w, h, i, applied);
    PhaseKeeps(s, w, if heard then Next(h, i + 1, applied) else Stopped);
  }

  lemma CommittingApplyKeeps(s: State, w: nat, db: Db, heard: bool)
    requires Inv(s) && w in s.runners && s.runners[w].phase.At? && s.runners[w].phase.index < |s.runners[w].history|
    requires var m := s.runners[w].history[s.runners[w].phase.index];
             db == Db(s.db.ledger + [RowOf(m)], s.db.executed + [Execution(w, m)])
    requires PrefixOf(db.ledger, s.runners[w].history) && s.runners[w].phase.index < |db.ledger|
    ensures var h, i, applied := s.runners[w].history, s.runners[w].phase.index, s.runners[w].phase.applied;
            Inv(Put(s.(db := db), w, if heard then Next(h, i + 1, applied + [h[i].version]) else Stopped))
  {
    var h, i, applied := s.runners[w].history, s.runners[w].phase.index, s.runners[w].phase.applied;
    assert RunnerSound(s.db, w, s.runners[w]);
    RanByAppend(s.db.executed, Execution(w, h[i]), w);
    AdvanceSound(db, w, h, i, applied + [h[i].version]);
    CommitKeeps(s, w, db, h[i], if heard then Next(h, i + 1, applied + [h[i].version]) else Stopped);
  }

  lemma ApplyKeeps(s: State, w: nat, sqlWorks: bool, heard: bool)
    requires Inv(s) && w in s.runners && s.runners[w].phase.At?
    ensures Inv(Step(s, Apply(w, sqlWorks, heard)))
    ensures s.db.ledger <= Step(s, Apply(w, sqlWorks, heard)).db.ledger
  {
    var h, i := s.runners[w].history, s.runners[w].phase.index;
    assert RunnerSound(s.db, w, s.runners[w]);
    var t := Transaction(s.db, w, h, i, sqlWorks);
    StepApplies(s, w, sqlWorks, heard, h, i, t);
    if t.None? {
      PhaseKeeps(s, w, Stopped);
    } else {
      TransactionAppends(s.db, w, h, i, sqlWorks);
      TransactionKeeps(s, w, t.value, heard, h, i);
    }
  }

  lemma StepApplies(s: State, w: nat, sqlWorks: bool, heard: bool, h: seq<Migration>, i: nat, t: Option<Db>)
    requires w in s.runners && s.runners[w].phase.At?
    requires s.runners[w].history == h && s.runners[w].phase.index == i < |h|
    requires t == Transaction(s.db, w, h, i, sqlWorks)
    ensures Step(s, Apply(w, sqlWorks, heard)) ==
            if t.None? then Put(s, w, Stopped)
            else
              var applied := s.runners[w].phase.applied + (if t.value == s.db then [] else [h[i].version]);
              Put(s.(db := t.value), w, if heard then Next(h, i + 1, applied) else Stopped)
  {
  }

  /** A transaction that ran the next migration or found it done, as the runner goes on. */
  lemma TransactionKeeps(s: State, w: nat, db: Db, heard: bool, h: seq<Migration>, i: nat)
    requires Inv(s) && w in s.runners && s.runners[w].phase.At?
    requires s.runners[w].history == h && s.runners[w].phase.index == i < |h|
    requires PrefixOf(db.ledger, h) && i < |db.ledger|
    requires db == s.db || db == Db(s.db.ledger + [RowOf(h[i])], s.db.executed + [Execution(w, h[i])])
    ensures var applied := s.runners[w].phase.applied + (if db == s.db then [] else [h[i].version]);
            Inv(Put(s.(db := db), w, if heard then Next(h, i + 1, applied) else Stopped))
    ensures s.db.ledger <= db.ledger
  {
    if db == s.db {
      assert s.(db := db) == s;
      assert s.runners[w].phase.applied + [] == s.runners[w].phase.applied;
      IdleApplyKeeps(s, w, heard);
    } else {
      CommittingApplyKeeps(s, w, db, heard);
    }
  }

  lemma CheckKeeps(s: State, w: nat)
    requires Inv(s) && w in s.runners && s.runners[w].phase.Start?
    ensures Inv(Step(s, Check(w)))
  {
    assert RunnerSound(s.db, w, s.runners[w]);
    var h := s.runners[w].history;
    if PrefixOf(s.db.ledger, h) {
      assert h == [] ==> s.db.ledger == [];
      PhaseKeeps(s, w, Next(h, 0, []));
    } else {
      PhaseKeeps(s, w, Stopped);
    }
  }

  lemma StepKeeps(s: State, e: Event)
    requires Inv(s)
    ensures Inv(Step(s, e))
    ensures s.db.ledger <= Step(s, e).db.ledger
  {
    if e.w in s.runners {
      assert RunnerSound(s.db, e.w, s.runners[e.w]);
      match e
      case Crash(w) => PhaseKeeps(s, w, Stopped);
      case Check(w) =>
        if s.runners[w].phase.Start? {
          CheckKeeps(s, w);
        }
      case Apply(w, sqlWorks, heard) =>
        if s.runners[w].phase.At? {
          ApplyKeeps(s, w, sqlWorks, heard);
        }
    }
  }

  lemma ReturnedStays(s: State, e: Event, w: nat)
    requires w in s.runners && s.runners[w].phase.Returned?
    ensures Step(s, e).runners[w] == s.runners[w]
  {
  }

  lemma {:induction false} RunKeeps(s: State, es: seq<Event>)
    requires Inv(s)
    ensures Inv(Run(s, es))
    ensures s.db.ledger <= Run(s, es).db.ledger
    ensures forall w | w in s.runners && s.runners[w].phase.Returned? :: Run(s, es).runners[w] == s.runners[w]
    decreases |es|
  {
    if es != [] {
      StepKeeps(s, es[0]);
      RunKeeps(Step(s, es[0]), es[1..]);
      forall w | w in s.runners && s.runners[w].phase.Returned?
        ensures Run(s, es).runners[w] == s.runners[w]
      {
        ReturnedStays(s, es[0], w);
      }
    }
  }

  // ---------------------------------------------------------------- theorems

  /** An empty database, and runners of any histories that have not begun. */
  ghost predicate Initial(s: State) {
    && s.db == Db([], [])
    && forall w | w in s.runners :: s.runners[w].phase.Start? && History(s.runners[w].history)
  }

  /** Each migration's SQL commits at most once, in version order, and the ledger lists exactly those. */
  lemma ExactlyOnceTheorem(s: State, es: seq<Event>)
    requires Initial(s)
    ensures var db := Run(s, es).db;
            && |db.executed| == |db.ledger|
            && (forall i | 0 <= i < |db.ledger| :: db.ledger[i] == RowOf(db.executed[i].migration))
            && (forall i, j | 0 <= i < j < |db.executed| ::
               db.executed[i].migration.version < db.executed[j].migration.version)
  {
    RunKeeps(s, es);
    var db := Run(s, es).db;
    forall i, j | 0 <= i < j < |db.executed|
      ensures db.executed[i].migration.version < db.executed[j].migration.version
    {
      assert db.ledger[i].version < db.ledger[j].version;
    }
  }

  /** The ledger is always a prefix of some runner's history, so of the longest when they extend each other. */
  lemma PrefixTheorem(s: State, es: seq<Event>, longest: seq<Migration>)
    requires Initial(s) && forall w | w in s.runners :: s.runners[w].history <= longest
    ensures PrefixOf(Run(s, es).db.ledger, longest)
  {
    RunKeeps(s, es);
    var end := Run(s, es);
    if end.db.ledger != [] {
      var w :| w in end.runners && PrefixOf(end.db.ledger, end.runners[w].history);
      assert s.runners[w].history <= longest;
      assert Rows(s.runners[w].history) <= Rows(longest);
    }
  }

  /**
   A runner that returned left its whole history applied, and the versions it reports are exactly
   those its own transactions executed.
   */
  lemma ReturnTheorem(s: State, es: seq<Event>, w: nat)
    requires Initial(s) && w in s.runners && Run(s, es).runners[w].phase.Returned?
    ensures Rows(s.runners[w].history) <= Run(s, es).db.ledger
    ensures Run(s, es).runners[w].phase.applied == RanBy(Run(s, es).db.executed, w)
  {
    RunKeeps(s, es);
    assert RunnerSound(Run(s, es).db, w, Run(s, es).runners[w]);
  }

  lemma RanOnce(executed: seq<Execution>, v: nat, w: nat, x: nat)
    requires forall i, j | 0 <= i < j < |executed| :: executed[i].migration.version < executed[j].migration.version
    requires x in RanBy(executed, v) && x in RanBy(executed, w)
    ensures v == w
  {
    var i := RanAt(executed, v, x);
    var j := RanAt(executed, w, x);
    assert i == j;
  }

  /** No two runners report the same version. */
  lemma ReportsAreDisjoint(s: State, es: seq<Event>, v: nat, w: nat, x: nat)
    requires Initial(s) && v in s.runners && w in s.runners
    requires Run(s, es).runners[v].phase.Returned? && Run(s, es).runners[w].phase.Returned?
    requires x in Run(s, es).runners[v].phase.applied && x in Run(s, es).runners[w].phase.applied
    ensures v == w
  {
    ReturnTheorem(s, es, v);
    ReturnTheorem(s, es, w);
    ExactlyOnceTheorem(s, es);
    RanOnce(Run(s, es).db.executed, v, w, x);
  }

  lemma {:induction false} RanAt(executed: seq<Execution>, w: nat, x: nat) returns (i: nat)
    requires x in RanBy(executed, w)
    ensures i < |executed| && executed[i] == Execution(w, executed[i].migration) && executed[i].migration.version == x
    decreases |executed|
  {
    var n := |executed| - 1;
    if x in RanBy(executed[..n], w) {
      i := RanAt(executed[..n], w, x);
    } else {
      i := n;
    }
  }

  lemma {:induction false} RunAppends(s: State, es: seq<Event>, fs: seq<Event>)
    ensures Run(s, es + fs) == Run(Run(s, es), fs)
    decreases |es|
  {
    if es == [] {
      assert es + fs == fs;
    } else {
      assert (es + fs)[1..] == es[1..] + fs;
      RunAppends(Step(s, es[0]), es[1..], fs);
    }
  }

  /** What a runner applied stays applied, whatever happens next. */
  lemma AppliedForGood(s: State, es: seq<Event>, fs: seq<Event>, w: nat)
    requires Initial(s) && w in s.runners && Run(s, es).runners[w].phase.Returned?
    ensures Rows(s.runners[w].history) <= Run(s, es).db.ledger <= Run(s, es + fs).db.ledger
    ensures Run(s, es + fs).runners[w] == Run(s, es).runners[w]
  {
    ReturnTheorem(s, es, w);
    RunAppends(s, es, fs);
    RunKeeps(s, es);
    RunKeeps(Run(s, es), fs);
  }
}
