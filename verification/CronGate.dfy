/**
 The handoff of a scheduled operation between the legacy cron owner and the API workers: two
 enable bits per operation, a gated ownership change, and workers that read the bits once.
 */
module CronGate {
  import opened Common

  type Label = nat
  type Queue = nat

  /** A scheduled operation: `name` is its own label, and `legacy` is the label of the legacy service, if it has one. */
  datatype Operation = Operation(name: Label, legacy: Option<Label>, gateLabel: Label, queue: Queue)

  datatype Owner = Api | Legacy | Paused

  datatype Refusal = FamilyDisabled | NoLegacyOwner | ActiveJobs | LegacyOwns | SchedulePaused

  /** private.cron_enabled; a missing row means enabled. */
  type Gates = map<Label, bool>

  function Enabled(gates: Gates, name: Label): bool {
    name in gates ==> gates[name]
  }

  predicate LegacyOn(gates: Gates, op: Operation) {
    op.legacy.Some? && Enabled(gates, op.legacy.value)
  }

  predicate NestOn(gates: Gates, op: Operation) {
    Enabled(gates, op.gateLabel)
  }

  /** Every schedule has its own labels, and gate labels live in a namespace of their own. */
  ghost predicate Registry(ops: set<Operation>) {
    && (forall a, b | a in ops && b in ops && (a.name == b.name || a.gateLabel == b.gateLabel) :: a == b)
    && (forall a, b | a in ops && b in ops && a.legacy.Some? && a.legacy == b.legacy :: a == b)
    && (forall a, b | a in ops && b in ops && a.legacy.Some? :: a.legacy.value != b.gateLabel)
  }

  // ---------------------------------------------------------------- state

  /**
   What the worker process does with a job: nothing, started it, read the gates, runs the body, or
   is about to insert the history row that says success or failure. `run` numbers the bodies begun.
   */
  datatype Handler = Idle | Started | Decided(open: bool) | Body(run: nat) | Recording(run: nat, success: bool)

  /** A pg-boss job: `active` is its row's state, `handler` the process. */
  datatype Job = Job(op: Operation, active: bool, handler: Handler)

  /** How an INSERT ends: acknowledged, committed without its acknowledgement, or not committed. */
  datatype Insert = Stored | Unheard | NotStored

  /** A row of the run history, with the body it is about. */
  datatype HistoryRow = HistoryRow(name: Label, success: bool, run: nat)

  /** What became of one body: whether it worked, and the ends of the inserts that were tried for it. */
  datatype Trail = Trail(op: Operation, works: Option<bool>, succeeded: Option<Insert>, failed: Option<Insert>)

  datatype State = State(
    gates: Gates, jobs: map<nat, Job>, history: seq<HistoryRow>, trails: map<nat, Trail>, begun: nat)

  predicate QueueActive(jobs: map<nat, Job>, queue: Queue) {
    exists id | id in jobs :: jobs[id].active && jobs[id].op.queue == queue
  }

  /** The ownership transaction. The table lock keeps jobs from becoming active until it commits. */
  function SetOwner(gates: Gates, queueActive: bool, op: Operation, owner: Owner,
                    installed: bool): (r: (Gates, Option<Refusal>))
  {
    if owner == Api && !installed then (gates, Some(FamilyDisabled))
    else if owner == Legacy && op.legacy.None? then (gates, Some(NoLegacyOwner))
    else if owner == Legacy && queueActive then (gates, Some(ActiveJobs))
    else
      var handed := if op.legacy.Some? then gates[op.legacy.value := owner == Legacy] else gates;
      (handed[op.gateLabel := owner == Api], None)
  }

  /** The guards of an operator's dispatch. */
  function DispatchRefusal(gates: Gates, op: Operation, installed: bool): Option<Refusal> {
    if !installed then Some(FamilyDisabled)
    else if LegacyOn(gates, op) then Some(LegacyOwns)
    else if !NestOn(gates, op) then Some(SchedulePaused)
    else None
  }

  /**
   Send is a scheduled tick, Dispatch an operator's, which the queue may decline. Fetch makes a job
   active and starts its handler; ReadGates and Begin are the two halves of runGated's check; Skip
   ends a handler that decided not to run. EndBody and Record are the body's end and one insert of
   its history. Die kills the process; Expire takes the active state from a job row.
   */
  datatype Event =
    | Send(id: nat, op: Operation)
    | Dispatch(id: nat, op: Operation, installed: bool, accepted: bool)
    | Fetch(id: nat)
    | ReadGates(id: nat)
    | Begin(id: nat)
    | Skip(id: nat)
    | EndBody(id: nat, works: bool)
    | Record(id: nat, insert: Insert)
    | Die(id: nat)
    | Expire(id: nat)
    | ChangeOwner(op: Operation, owner: Owner, installed: bool)

  function HistoryLabel(op: Operation): Label {
    OrElse(op.legacy, op.name)
  }

  function Set(s: State, id: nat, job: Job): State {
    s.(jobs := s.jobs[id := job])
  }

  function Step(s: State, e: Event): State {
    match e
    case ChangeOwner(op, owner, installed) =>
      s.(gates := SetOwner(s.gates, QueueActive(s.jobs, op.queue), op, owner, installed).0)
    case Send(id, op) => if id in s.jobs then s else Set(s, id, Job(op, false, Idle))
    case Dispatch(id, op, installed, accepted) =>
      if id in s.jobs || DispatchRefusal(s.gates, op, installed).Some? || !accepted then s
      else Set(s, id, Job(op, false, Idle))
    case _ => if e.id in s.jobs then JobStep(s, e, s.jobs[e.id]) else s
  }

  function JobStep(s: State, e: Event, job: Job): State
    requires !e.ChangeOwner? && !e.Send? && !e.Dispatch?
  {
    match e
    case Fetch(id) =>
      if job.active || job.handler != Idle then s else Set(s, id, job.(active := true, handler := Started))
    case ReadGates(id) =>
      if job.handler != Started then s
      else Set(s, id, job.(handler := Decided(!LegacyOn(s.gates, job.op) && NestOn(s.gates, job.op))))
    case Begin(id) =>
      if job.handler != Decided(true) then s
      else Set(s, id, job.(handler := Body(s.begun))).(
        trails := s.trails[s.begun := Trail(job.op, None, None, None)], begun := s.begun + 1)
    case Skip(id) =>
      if job.handler != Decided(false) then s else Set(s, id, job.(active := false, handler := Idle))
    case EndBody(id, works) =>
      if !job.handler.Body? || job.handler.run !in s.trails then s
      else
        var run := job.handler.run;
        Set(s, id, job.(handler := Recording(run, works))).(
          trails := s.trails[run := s.trails[run].(works := Some(works))])
    case Record(id, insert) =>
      if !job.handler.Recording? || job.handler.run !in s.trails then s
      else RecordStep(s, id, job, insert)
    case Die(id) => Set(s, id, job.(handler := Idle))
    case Expire(id) => Set(s, id, job.(active := false))
  }

  /** An insert that is not acknowledged throws: after a success row, into the catch that inserts a failure row. */
  function RecordStep(s: State, id: nat, job: Job, insert: Insert): State
    requires job.handler.Recording? && job.handler.run in s.trails
  {
    var Recording(run, success) := job.handler;
    var trail := s.trails[run];
    var next := if success && insert != Stored then job.(handler := Recording(run, false))
                else job.(active := false, handler := Idle);
    Set(s, id, next).(
      history := s.history + (if insert == NotStored then [] else [HistoryRow(HistoryLabel(job.op), success, run)]),
      trails := s.trails[run := if success then trail.(succeeded := Some(insert)) else trail.(failed := Some(insert))])
  }

  function Run(s: State, es: seq<Event>): State
    decreases |es|
  {
    if es == [] then s else Run(Step(s, es[0]), es[1..])
  }

  /** Events name registered operations, and a job expires only after its handler is gone. */
  ghost predicate Attended(ops: set<Operation>, s: State, e: Event) {
    match e
    case ChangeOwner(op, _, _) => op in ops
    case Send(_, op) => op in ops
    case Dispatch(_, op, _, _) => op in ops
    case Expire(id) => id in s.jobs ==> s.jobs[id].handler == Idle
    case _ => true
  }

  ghost predicate AttendedRun(ops: set<Operation>, s: State, es: seq<Event>)
    decreases |es|
  {
    es != [] ==> Attended(ops, s, es[0]) && AttendedRun(ops, Step(s, es[0]), es[1..])
  }

  // ---------------------------------------------------------------- invariant

  /** A handler at work keeps its job active, and one that is past the check has its legacy owner disabled. */
  ghost predicate JobSound(gates: Gates, job: Job) {
    && (job.handler != Idle ==> job.active)
    && (job.handler == Decided(true) || job.handler.Body? ==> !LegacyOn(gates, job.op))
  }

  ghost predicate Safe(ops: set<Operation>, s: State) {
    forall id | id in s.jobs :: s.jobs[id].op in ops && JobSound(s.gates, s.jobs[id])
  }

  lemma ChangeOwnerKeeps(ops: set<Operation>, s: State, op: Operation, owner: Owner, installed: bool)
    requires Registry(ops) && op in ops && Safe(ops, s)
    ensures Safe(ops, Step(s, ChangeOwner(op, owner, installed)))
  {
    var after := Step(s, ChangeOwner(op, owner, installed));
    forall id | id in s.jobs && !LegacyOn(s.gates, s.jobs[id].op) && s.jobs[id].active
      ensures !LegacyOn(after.gates, s.jobs[id].op)
    {
      assert s.jobs[id].op in ops;
      assert s.jobs[id].op == op ==> QueueActive(s.jobs, op.queue);
    }
  }

  lemma StepKeeps(ops: set<Operation>, s: State, e: Event)
    requires Registry(ops) && Safe(ops, s) && Attended(ops, s, e)
    ensures Safe(ops, Step(s, e))
  {
    if e.ChangeOwner? {
      ChangeOwnerKeeps(ops, s, e.op, e.owner, e.installed);
    }
  }

  lemma {:induction false} RunKeeps(ops: set<Operation>, s: State, es: seq<Event>)
    requires Registry(ops) && Safe(ops, s) && AttendedRun(ops, s, es)
    ensures Safe(ops, Run(s, es))
    decreases |es|
  {
    if es != [] {
      StepKeeps(ops, s, es[0]);
      RunKeeps(ops, Step(s, es[0]), es[1..]);
    }
  }

  // ---------------------------------------------------------------- theorems

  ghost predicate Initial(s: State) {
    s.jobs == map[] && s.history == [] && s.trails == map[] && s.begun == 0
  }

  /** Whatever the gates were at first: no API body runs while the legacy owner of its operation is enabled. */
  lemma ExclusionTheorem(ops: set<Operation>, s: State, es: seq<Event>, id: nat)
    requires Registry(ops) && Initial(s) && AttendedRun(ops, s, es)
    requires id in Run(s, es).jobs && Run(s, es).jobs[id].handler.Body?
    ensures !LegacyOn(Run(s, es).gates, Run(s, es).jobs[id].op)
  {
    RunKeeps(ops, s, es);
  }

  /** Without that assumption it fails: a job that expires under its handler hides it from the ownership check. */
  lemma EarlyExpiryBreaksExclusion(op: Operation)
    requires op.legacy.Some? && op.legacy.value != op.gateLabel
    ensures var s := State(map[op.legacy.value := false], map[], [], map[], 0);
            var end := Run(s, [Send(0, op), Fetch(0), ReadGates(0), Begin(0), Expire(0),
              ChangeOwner(op, Legacy, true)]);
            0 in end.jobs && end.jobs[0].handler.Body? && LegacyOn(end.gates, op)
  {
    var s0 := State(map[op.legacy.value := false], map[], [], map[], 0);
    var s1 := Step(s0, Send(0, op));
    var s2 := Step(s1, Fetch(0));
    var s3 := Step(s2, ReadGates(0));
    var s4 := Step(s3, Begin(0));
    var s5 := Step(s4, Expire(0));
    var s6 := Step(s5, ChangeOwner(op, Legacy, true));
    assert s5.jobs == map[0 := Job(op, false, Body(0))];
    assert Run(s6, []) == s6;
    assert Run(s5, [ChangeOwner(op, Legacy, true)]) == s6;
    assert Run(s4, [Expire(0), ChangeOwner(op, Legacy, true)]) == s6;
    assert Run(s3, [Begin(0), Expire(0), ChangeOwner(op, Legacy, true)]) == s6;
    assert Run(s2, [ReadGates(0), Begin(0), Expire(0), ChangeOwner(op, Legacy, true)]) == s6;
    assert Run(s1, [Fetch(0), ReadGates(0), Begin(0), Expire(0), ChangeOwner(op, Legacy, true)]) == s6;
  }

  /** At most one owner. */
  ghost predicate OneOwner(gates: Gates, op: Operation) {
    !(LegacyOn(gates, op) && NestOn(gates, op))
  }

  lemma OneOwnerStays(ops: set<Operation>, s: State, e: Event, op: Operation)
    requires Registry(ops) && op in ops && Attended(ops, s, e)
    requires OneOwner(s.gates, op)
    ensures OneOwner(Step(s, e).gates, op)
  {
  }

  /** Once an ownership change of an operation has been accepted, its two bits are never on together again. */
  lemma {:induction false} OneOwnerTheorem(ops: set<Operation>, s: State, op: Operation, owner: Owner,
                                           installed: bool, es: seq<Event>)
    requires Registry(ops) && op in ops
    requires SetOwner(s.gates, QueueActive(s.jobs, op.queue), op, owner, installed).1.None?
    requires AttendedRun(ops, Step(s, ChangeOwner(op, owner, installed)), es)
    ensures OneOwner(Run(Step(s, ChangeOwner(op, owner, installed)), es).gates, op)
  {
    OneOwnerRuns(ops, Step(s, ChangeOwner(op, owner, installed)), op, es);
  }

  lemma {:induction false} OneOwnerRuns(ops: set<Operation>, s: State, op: Operation, es: seq<Event>)
    requires Registry(ops) && op in ops && OneOwner(s.gates, op) && AttendedRun(ops, s, es)
    ensures OneOwner(Run(s, es).gates, op)
    decreases |es|
  {
    if es != [] {
      OneOwnerStays(ops, s, es[0], op);
      OneOwnerRuns(ops, Step(s, es[0]), op, es[1..]);
    }
  }

  /** An ownership change is exact: the bits it sets, and nothing else in the table. */
  lemma OwnershipTheorem(gates: Gates, queueActive: bool, op: Operation, owner: Owner, installed: bool, name: Label)
    requires op.legacy != Some(op.gateLabel)
    ensures var (after, refusal) := SetOwner(gates, queueActive, op, owner, installed);
            && (refusal.Some? ==> after == gates)
            && (refusal.None? ==> NestOn(after, op) == (owner == Api) && LegacyOn(after, op) == (owner == Legacy))
            && (name != op.gateLabel && Some(name) != op.legacy ==> Enabled(after, name) == Enabled(gates, name))
            && (refusal.None? && owner == Legacy ==> !queueActive)
  {
  }

  // ---------------------------------------------------------------- history

  predicate Wrote(insert: Option<Insert>) {
    insert == Some(Stored) || insert == Some(Unheard)
  }

  /** The rows about one body, in the order of the table. */
  function RowsOf(history: seq<HistoryRow>, run: nat): seq<HistoryRow> {
    if history == [] then []
    else
      var n := |history| - 1;
      RowsOf(history[..n], run) + (if history[n].run == run then [history[n]] else [])
  }

  /** The rows that the ends of the inserts leave. */
  function Written(run: nat, t: Trail): seq<HistoryRow> {
    (if Wrote(t.succeeded) then [HistoryRow(HistoryLabel(t.op), true, run)] else [])
    + (if Wrote(t.failed) then [HistoryRow(HistoryLabel(t.op), false, run)] else [])
  }

  /** Which inserts can have been tried. */
  predicate Plausible(t: Trail) {
    match t.works
    case None => t.succeeded.None? && t.failed.None?
    case Some(false) => t.succeeded.None?
    case Some(true) => t.succeeded.None? || t.succeeded == Some(Stored) ==> t.failed.None?
  }

  /** The handler that is at a body knows where its trail stands. */
  ghost predicate AtTrail(trails: map<nat, Trail>, job: Job) {
    match job.handler
    case Body(run) => run in trails && trails[run] == Trail(job.op, None, None, None)
    case Recording(run, true) => run in trails && trails[run] == Trail(job.op, Some(true), None, None)
    case Recording(run, false) =>
      && run in trails && trails[run].op == job.op && trails[run].failed.None?
      && (trails[run].works == Some(false)
          || (trails[run].works == Some(true) && trails[run].succeeded in {Some(Unheard), Some(NotStored)}))
    case _ => true
  }

  predicate AtRun(job: Job, run: nat) {
    (job.handler.Body? || job.handler.Recording?) && job.handler.run == run
  }

  ghost predicate Tracked(s: State) {
    && (forall run | run in s.trails :: run < s.begun && Plausible(s.trails[run]))
    && (forall id | id in s.jobs :: AtTrail(s.trails, s.jobs[id]))
    && (forall id, other, run | id in s.jobs && other in s.jobs && id != other ::
          AtRun(s.jobs[id], run) ==> !AtRun(s.jobs[other], run))
  }

  ghost predicate Recorded(history: seq<HistoryRow>, trails: map<nat, Trail>) {
    && (forall run | run in trails :: RowsOf(history, run) == Written(run, trails[run]))
    && (forall i | 0 <= i < |history| :: history[i].run in trails)
  }

  lemma RowsAppend(history: seq<HistoryRow>, row: HistoryRow, run: nat)
    ensures RowsOf(history + [row], run) == RowsOf(history, run) + (if row.run == run then [row] else [])
  {
    assert (history + [row])[..|history|] == history;
  }

  lemma {:induction false} NoRows(history: seq<HistoryRow>, run: nat)
    requires forall i | 0 <= i < |history| :: history[i].run != run
    ensures RowsOf(history, run) == []
    decreases |history|
  {
    if history != [] {
      NoRows(history[..|history| - 1], run);
    }
  }

  lemma RecordTracked(s: State, id: nat, insert: Insert)
    requires Tracked(s) && id in s.jobs && s.jobs[id].handler.Recording?
    ensures Tracked(Step(s, Record(id, insert)))
  {
    var job, after := s.jobs[id], Step(s, Record(id, insert));
    var run := job.handler.run;
    assert AtTrail(s.trails, job) && AtRun(job, run);
    assert Plausible(s.trails[run]) && Plausible(after.trails[run]);
    assert AtTrail(after.trails, after.jobs[id]);
    forall other | other in s.jobs && other != id
      ensures AtTrail(after.trails, s.jobs[other])
    {
      assert AtTrail(s.trails, s.jobs[other]) && !AtRun(s.jobs[other], run);
    }
  }

  function AfterInsert(t: Trail, success: bool, insert: Insert): Trail {
    if success then t.(succeeded := Some(insert)) else t.(failed := Some(insert))
  }

  function NewRows(op: Operation, run: nat, success: bool, insert: Insert): seq<HistoryRow> {
    if insert == NotStored then [] else [HistoryRow(HistoryLabel(op), success, run)]
  }

  lemma InsertWritten(run: nat, t: Trail, success: bool, insert: Insert)
    requires t.failed.None? && (success ==> t.succeeded.None?)
    ensures Written(run, AfterInsert(t, success, insert)) == Written(run, t) + NewRows(t.op, run, success, insert)
  {
  }

  /** An insert adds to the rows of its body what it adds to the trail. */
  lemma InsertRecorded(history: seq<HistoryRow>, trails: map<nat, Trail>, run: nat, success: bool, insert: Insert)
    requires Recorded(history, trails) && run in trails
    requires trails[run].failed.None? && (success ==> trails[run].succeeded.None?)
    ensures Recorded(history + NewRows(trails[run].op, run, success, insert),
                     trails[run := AfterInsert(trails[run], success, insert)])
  {
    InsertWritten(run, trails[run], success, insert);
    if insert == NotStored {
      assert history + [] == history;
    } else {
      forall r
        ensures RowsOf(history + NewRows(trails[run].op, run, success, insert), r)
             == RowsOf(history, r) + (if r == run then NewRows(trails[run].op, run, success, insert) else [])
      {
        RowsAppend(history, HistoryRow(HistoryLabel(trails[run].op), success, run), r);
      }
    }
  }

  lemma RecordRecorded(s: State, id: nat, insert: Insert)
    requires Recorded(s.history, s.trails) && id in s.jobs && s.jobs[id].handler.Recording? &&
             AtTrail(s.trails, s.jobs[id])
    ensures Recorded(Step(s, Record(id, insert)).history, Step(s, Record(id, insert)).trails)
  {
    var Recording(run, success) := s.jobs[id].handler;
    InsertRecorded(s.history, s.trails, run, success, insert);
  }

  lemma BeginTracked(s: State, id: nat)
    requires Tracked(s) && Recorded(s.history, s.trails) && id in s.jobs && s.jobs[id].handler == Decided(true)
    ensures Tracked(Step(s, Begin(id)))
    ensures Recorded(Step(s, Begin(id)).history, Step(s, Begin(id)).trails)
  {
    var after := Step(s, Begin(id));
    assert s.begun !in s.trails;
    NoRows(s.history, s.begun);
    forall other | other in s.jobs && other != id
      ensures AtTrail(after.trails, s.jobs[other]) && !AtRun(s.jobs[other], s.begun)
    {
      assert AtTrail(s.trails, s.jobs[other]);
    }
  }

  lemma EndBodyTracked(s: State, id: nat, works: bool)
    requires Tracked(s) && Recorded(s.history, s.trails) && id in s.jobs && s.jobs[id].handler.Body?
    ensures Tracked(Step(s, EndBody(id, works)))
    ensures Recorded(Step(s, EndBody(id, works)).history, Step(s, EndBody(id, works)).trails)
  {
    var job, after := s.jobs[id], Step(s, EndBody(id, works));
    assert AtTrail(s.trails, job) && AtRun(job, job.handler.run);
    forall other | other in s.jobs && other != id
      ensures AtTrail(after.trails, s.jobs[other])
    {
      assert AtTrail(s.trails, s.jobs[other]) && !AtRun(s.jobs[other], job.handler.run);
    }
  }

  /** Moving a handler that does not enter a body. */
  lemma MoveTracked(s: State, id: nat, job: Job)
    requires Tracked(s) && !job.handler.Body? && !job.handler.Recording?
    ensures Tracked(Set(s, id, job))
  {
    forall other | other in s.jobs && other != id
      ensures AtTrail(s.trails, s.jobs[other])
    {
    }
  }

  lemma ExpireTracked(s: State, id: nat)
    requires Tracked(s) && id in s.jobs
    ensures Tracked(Step(s, Expire(id)))
  {
    var after := Step(s, Expire(id));
    assert AtTrail(s.trails, s.jobs[id]);
    forall other | other in after.jobs
      ensures AtTrail(after.trails, after.jobs[other])
      ensures forall run :: AtRun(after.jobs[other], run) <==> AtRun(s.jobs[other], run)
    {
      assert AtTrail(s.trails, s.jobs[other]);
    }
  }

  lemma StepTracked(s: State, e: Event)
    requires Tracked(s) && Recorded(s.history, s.trails)
    ensures Tracked(Step(s, e)) && Recorded(Step(s, e).history, Step(s, e).trails)
  {
    match e
    case Send(id, op) => MoveTracked(s, id, Job(op, false, Idle));
    case Dispatch(id, op, _, _) => MoveTracked(s, id, Job(op, false, Idle));
    case Fetch(id) => if id in s.jobs { MoveTracked(s, id, s.jobs[id].(active := true, handler := Started)); }
    case ReadGates(id) =>
      if id in s.jobs {
        var open := !LegacyOn(s.gates, s.jobs[id].op) && NestOn(s.gates, s.jobs[id].op);
        MoveTracked(s, id, s.jobs[id].(handler := Decided(open)));
      }
    case Skip(id) => if id in s.jobs { MoveTracked(s, id, s.jobs[id].(active := false, handler := Idle)); }
    case Die(id) => if id in s.jobs { MoveTracked(s, id, s.jobs[id].(handler := Idle)); }
    case Expire(id) => if id in s.jobs { ExpireTracked(s, id); }
    case Begin(id) => if id in s.jobs && s.jobs[id].handler == Decided(true) { BeginTracked(s, id); }
    case EndBody(id, works) => if id in s.jobs && s.jobs[id].handler.Body? { EndBodyTracked(s, id, works); }
    case Record(id, insert) =>
      if id in s.jobs && s.jobs[id].handler.Recording? {
        RecordTracked(s, id, insert);
        RecordRecorded(s, id, insert);
      }
    case ChangeOwner(_, _, _) =>
  }

  lemma {:induction false} RunTracked(s: State, es: seq<Event>)
    requires Tracked(s) && Recorded(s.history, s.trails)
    ensures Tracked(Run(s, es)) && Recorded(Run(s, es).history, Run(s, es).trails)
    decreases |es|
  {
    if es != [] {
      StepTracked(s, es[0]);
      RunTracked(Step(s, es[0]), es[1..]);
    }
  }

  /** The ends of a body and of its inserts that leave exactly one history row. */
  predicate OnceRecorded(t: Trail) {
    match t.succeeded
    case None => Wrote(t.failed)
    case Some(Stored) => true
    case Some(Unheard) => !Wrote(t.failed)
    case Some(NotStored) => Wrote(t.failed)
  }

  /**
   Body by body, in every run with dying workers and failing inserts: the history holds a success
   row and a failure row at most, each under the operation's label and only if its insert committed,
   and exactly one row under a condition on the ends of the inserts. A success row needs a body that
   worked; a failure row needs one that failed, or a success insert that was not acknowledged.
   */
  lemma HistoryTheorem(s: State, es: seq<Event>, run: nat)
    requires Initial(s) && run in Run(s, es).trails
    ensures var t, rows := Run(s, es).trails[run], RowsOf(Run(s, es).history, run);
            && rows == Written(run, t) && |rows| <= 2
            && (|rows| == 1 <==> OnceRecorded(t))
            && (Wrote(t.succeeded) ==> t.works == Some(true))
            && (Wrote(t.failed) ==> t.works == Some(false) || t.succeeded in {Some(Unheard), Some(NotStored)})
  {
    RunTracked(s, es);
    assert Plausible(Run(s, es).trails[run]);
  }

  /** No row is about a body that never began. */
  lemma HistoryIsGrounded(s: State, es: seq<Event>, i: nat)
    requires Initial(s) && i < |Run(s, es).history|
    ensures Run(s, es).history[i].run in Run(s, es).trails
  {
    RunTracked(s, es);
  }

  /** A state whose only job, of an operation the API owns, is in its first body. */
  function InBody(gates: Gates, op: Operation): State {
    State(gates, map[0 := Job(op, true, Body(0))], [], map[0 := Trail(op, None, None, None)], 1)
  }

  lemma InBodyIsReached(gates: Gates, op: Operation)
    requires !LegacyOn(gates, op) && NestOn(gates, op)
    ensures Run(State(gates, map[], [], map[], 0), [Send(0, op), Fetch(0), ReadGates(0), Begin(0)]) == InBody(gates, op)
  {
    var s1 := Step(State(gates, map[], [], map[], 0), Send(0, op));
    var s2 := Step(s1, Fetch(0));
    var s3 := Step(s2, ReadGates(0));
    var s4 := Step(s3, Begin(0));
    assert s4.jobs == map[0 := Job(op, true, Body(0))];
    assert Run(s4, []) == s4;
    assert Run(s3, [Begin(0)]) == s4;
    assert Run(s2, [ReadGates(0), Begin(0)]) == s4;
    assert Run(s1, [Fetch(0), ReadGates(0), Begin(0)]) == s4;
  }

  lemma InBodyTracked(gates: Gates, op: Operation)
    ensures Tracked(InBody(gates, op)) && Recorded(InBody(gates, op).history, InBody(gates, op).trails)
  {
  }

  lemma InBodyEnds(gates: Gates, op: Operation, first: Insert, second: Insert)
    requires first != Stored
    ensures var end := Run(InBody(gates, op), [EndBody(0, true), Record(0, first), Record(0, second)]);
            && 0 in end.jobs && end.jobs[0] == Job(op, false, Idle)
            && |RowsOf(end.history, 0)| == (if first == Unheard then 1 else 0) + (if second == NotStored then 0 else 1)
  {
    var es := [EndBody(0, true), Record(0, first), Record(0, second)];
    InBodyTracked(gates, op);
    RunTracked(InBody(gates, op), es);
    RunOfThree(InBody(gates, op), es[0], es[1], es[2]);
    TrailOfTwo(gates, op, first, second);
  }

  /**
   From a state without jobs: a body that worked and came to its end leaves two rows, or none,
   when its success insert is not acknowledged.
   */
  lemma TwoRowsOrNone(gates: Gates, op: Operation, first: Insert, second: Insert)
    requires !LegacyOn(gates, op) && NestOn(gates, op) && first != Stored
    ensures var start := State(gates, map[], [], map[], 0);
            var end := Run(start, [Send(0, op), Fetch(0), ReadGates(0), Begin(0)]
                                  + [EndBody(0, true), Record(0, first), Record(0, second)]);
            && Initial(start) && 0 in end.jobs && end.jobs[0] == Job(op, false, Idle)
            && |RowsOf(end.history, 0)| == (if first == Unheard then 1 else 0) + (if second == NotStored then 0 else 1)
  {
    InBodyIsReached(gates, op);
    RunAppends(State(gates, map[], [], map[], 0), [Send(0, op), Fetch(0), ReadGates(0), Begin(0)],
               [EndBody(0, true), Record(0, first), Record(0, second)]);
    InBodyEnds(gates, op, first, second);
  }

  lemma {:induction false} RunAppends(s: State, es: seq<Event>, fs: seq<Event>)
    ensures Run(s, es + fs) == Run(Run(s, es), fs)
    decreases |es|
  {
    if es == [] {
      assert es + fs == fs;
    } else {
      assert (es + fs)[1..] == es[1..] + fs;
      RunAppends(Step(s, es[0]), es[1..], fs);
    }
  }

  lemma RunOfThree(s: State, e: Event, f: Event, g: Event)
    ensures Run(s, [e, f, g]) == Step(Step(Step(s, e), f), g)
  {
    var s1 := Step(s, e);
    var s2 := Step(s1, f);
    var s3 := Step(s2, g);
    assert Run(s3, []) == s3;
    assert Run(s2, [g]) == s3;
    assert Run(s1, [f, g]) == s3;
  }

  lemma TrailOfTwo(gates: Gates, op: Operation, first: Insert, second: Insert)
    requires first != Stored
    ensures var end := Step(Step(Step(InBody(gates, op), EndBody(0, true)), Record(0, first)), Record(0, second));
            && 0 in end.trails && end.trails[0] == Trail(op, Some(true), Some(first), Some(second))
            && 0 in end.jobs && end.jobs[0] == Job(op, false, Idle)
  {
  }

  // ---------------------------------------------------------------- the services

  /** What a handler that ran to its end leaves on its trail. */
  function EndOf(op: Operation, works: bool, succeeded: Insert, failed: Insert): Trail {
    Trail(op, Some(works), if works then Some(succeeded) else None,
          if works && succeeded == Stored then None else Some(failed))
  }

  /** The tables as the control repository and one worker process use them. */
  class CronTables {
    var gates: Gates
    var jobs: map<nat, Job>
    var history: seq<HistoryRow>

    /** setOwner: the whole new gate table, or the refusal and no change. */
    method SetOwnerOf(op: Operation, owner: Owner, installed: bool) returns (refusal: Option<Refusal>)
      modifies this`gates
      ensures (gates, refusal) == SetOwner(old(gates), QueueActive(jobs, op.queue), op, owner, installed)
    {
      if owner == Api && !installed {
        return Some(FamilyDisabled);
      }
      if owner == Legacy && op.legacy.None? {
        return Some(NoLegacyOwner);
      }
      if owner == Legacy {
        if QueueActive(jobs, op.queue) {
          return Some(ActiveJobs);
        }
      }
      if op.legacy.Some? {
        gates := gates[op.legacy.value := owner == Legacy];
      }
      gates := gates[op.gateLabel := owner == Api];
      refusal := None;
    }

    /**
     dispatch: allowed exactly when the API owns the schedule and it is not paused; a job is then
     enqueued unless the queue declines it, as it does for a second dispatch within a minute.
     */
    method DispatchJob(op: Operation, installed: bool, sent: Option<nat>)
        returns (refusal: Option<Refusal>, accepted: bool)
      requires sent.Some? ==> sent.value !in jobs
      modifies this`jobs
      ensures refusal.None? <==> installed && !LegacyOn(gates, op) && NestOn(gates, op)
      ensures refusal == DispatchRefusal(gates, op, installed)
      ensures accepted <==> refusal.None? && sent.Some?
      ensures jobs == if accepted then old(jobs)[sent.value := Job(op, false, Idle)] else old(jobs)
    {
      if !installed {
        return Some(FamilyDisabled), false;
      }
      if op.legacy.Some? && (if op.legacy.value in gates then gates[op.legacy.value] else true) {
        return Some(LegacyOwns), false;
      }
      if !(if op.gateLabel in gates then gates[op.gateLabel] else true) {
        return Some(SchedulePaused), false;
      }
      if sent.Some? {
        jobs := jobs[sent.value := Job(op, false, Idle)];
      }
      return None, sent.Some?;
    }

    /** recordRun: it throws unless the insert is acknowledged. */
    method RecordRun(name: Label, success: bool, run: nat, insert: Insert) returns (thrown: bool)
      modifies this`history
      ensures thrown <==> insert != Stored
      ensures history == old(history) + (if insert == NotStored then [] else [HistoryRow(name, success, run)])
    {
      if insert != NotStored {
        history := history + [HistoryRow(name, success, run)];
      }
      thrown := insert != Stored;
    }

    /**
     runGated and runInternal: the body runs exactly when the gates allow it, and the call returns
     normally exactly when the body worked and its success row was acknowledged; the rows it leaves
     are those of its trail.
     */
    method RunGated(op: Operation, run: nat, works: bool, succeeded: Insert, failed: Insert)
        returns (ran: bool, thrown: bool)
      modifies this`history
      ensures ran <==> !LegacyOn(gates, op) && NestOn(gates, op)
      ensures thrown <==> ran && !(works && succeeded == Stored)
      ensures history == if ran then old(history) + Written(run, EndOf(op, works, succeeded, failed)) else old(history)
    {
      if op.legacy.Some? {
        if Enabled(gates, op.legacy.value) {
          return false, false;
        }
      }
      if !Enabled(gates, op.gateLabel) {
        return false, false;
      }
      var failure := !works;
      if works {
        failure := RecordRun(OrElse(op.legacy, op.name), true, run, succeeded);
      }
      if failure {
        var ignored := RecordRun(OrElse(op.legacy, op.name), false, run, failed);
      }
      return true, failure;
    }
  }
}
