/**
 What the handoff of a scheduled operation answers in terms of the two rows of its gates, and what its
 history names.
 */
module CronAnswers {
  import opened Common
  import opened CronGate

  // ---------------------------------------------------------------- the gates

  /** No row turns this label off. */
  predicate NotOff(gates: Gates, name: Label) {
    name !in gates || gates[name] == true
  }

  /** The API owns the schedule and it is not paused: the legacy row says off, and the API row does not. */
  predicate ApiMayRun(gates: Gates, op: Operation) {
    NotOff(gates, op.gateLabel) && match op.legacy case None => true case Some(l) => !NotOff(gates, l)
  }

  /** A handler that reads the gates goes on to its body exactly when the API may run. */
  lemma ReadsGates(s: State, id: nat)
    requires id in s.jobs && s.jobs[id].handler == Started
    ensures Step(s, ReadGates(id)) ==
            s.(jobs := s.jobs[id := s.jobs[id].(handler := Decided(ApiMayRun(s.gates, s.jobs[id].op)))])
  {
  }

  /** Why an operator's dispatch is refused. */
  lemma DispatchReplies(gates: Gates, op: Operation, installed: bool)
    ensures var r := DispatchRefusal(gates, op, installed);
            var legacyOn := op.legacy.Some? && NotOff(gates, op.legacy.value);
            && (r == Some(FamilyDisabled) <==> !installed)
            && (r == Some(LegacyOwns) <==> installed && legacyOn)
            && (r == Some(SchedulePaused) <==> installed && !legacyOn && !NotOff(gates, op.gateLabel))
            && (r == None <==> installed && ApiMayRun(gates, op))
  {
  }

  /** Why a change of ownership is refused, and the two rows of an accepted one. */
  lemma OwnershipReplies(gates: Gates, queueActive: bool, op: Operation, owner: Owner, installed: bool)
    requires op.legacy != Some(op.gateLabel)
    ensures var (after, r) := SetOwner(gates, queueActive, op, owner, installed);
            && (r == Some(FamilyDisabled) <==> owner == Api && !installed)
            && (r == Some(NoLegacyOwner) <==> owner == Legacy && op.legacy == None)
            && (r == Some(ActiveJobs) <==> owner == Legacy && op.legacy != None && queueActive)
            && (r in {None, Some(FamilyDisabled), Some(NoLegacyOwner), Some(ActiveJobs)})
            && (r.Some? ==> after == gates)
            && (r == None ==>
                  && op.gateLabel in after && after[op.gateLabel] == (owner == Api)
                  && (op.legacy.Some? ==> op.legacy.value in after && after[op.legacy.value] == (owner == Legacy))
                  && (forall l | l != op.gateLabel && Some(l) != op.legacy ::
                        (l in after <==> l in gates) && (l in gates ==> after[l] == gates[l])))
  {
  }

  /** The handoff to the legacy service waits for the queue's active jobs, and for nothing else. */
  lemma HandsOver(s: State, op: Operation, installed: bool)
    requires op.legacy.Some? && op.legacy != Some(op.gateLabel)
    ensures var after := Step(s, ChangeOwner(op, Legacy, installed));
            && after == s.(gates := after.gates)
            && (if exists id | id in s.jobs :: s.jobs[id].active && s.jobs[id].op.queue == op.queue
                then after.gates == s.gates
                else after.gates == s.gates[op.legacy.value := true][op.gateLabel := false])
  {
  }

  /** A dispatch adds an idle job exactly when the API may run and the queue takes it. */
  lemma Dispatches(s: State, id: nat, op: Operation, installed: bool, accepted: bool)
    requires id !in s.jobs
    ensures Step(s, Dispatch(id, op, installed, accepted)) ==
            if installed && ApiMayRun(s.gates, op) && accepted then s.(jobs := s.jobs[id := Job(op, false, Idle)])
            else s
  {
    DispatchReplies(s.gates, op, installed);
  }

  // ---------------------------------------------------------------- bodies

  /** Event i of the run is a handler of the operation that read the gates when the API might run. */
  ghost predicate CheckedAt(s: State, es: seq<Event>, i: nat, op: Operation) {
    && i < |es| && es[i].ReadGates?
    && var before := Run(s, es[..i]);
       && es[i].id in before.jobs && before.jobs[es[i].id].op == op && ApiMayRun(before.gates, op)
  }

  ghost predicate Checked(s: State, es: seq<Event>, op: Operation) {
    exists i: nat :: CheckedAt(s, es, i, op)
  }

  ghost predicate AllChecked(s: State, es: seq<Event>, end: State) {
    && (forall id | id in end.jobs && end.jobs[id].handler == Decided(true) :: Checked(s, es, end.jobs[id].op))
    && (forall run | run in end.trails :: Checked(s, es, end.trails[run].op))
  }

  lemma CheckedStays(s: State, es: seq<Event>, e: Event, op: Operation)
    requires Checked(s, es, op)
    ensures Checked(s, es + [e], op)
  {
    var i: nat :| CheckedAt(s, es, i, op);
    assert (es + [e])[..i] == es[..i];
    assert CheckedAt(s, es + [e], i, op);
  }

  lemma ChecksNow(s: State, es: seq<Event>, id: nat)
    requires id in Run(s, es).jobs && ApiMayRun(Run(s, es).gates, Run(s, es).jobs[id].op)
    ensures Checked(s, es + [ReadGates(id)], Run(s, es).jobs[id].op)
  {
    assert (es + [ReadGates(id)])[..|es|] == es;
    assert CheckedAt(s, es + [ReadGates(id)], |es|, Run(s, es).jobs[id].op);
  }

  /** What a step can add: a decision to run by a handler that may, and a trail for a handler that decided so. */
  lemma StepDecides(s: State, e: Event)
    ensures var after := Step(s, e);
            && (forall id | id in after.jobs && after.jobs[id].handler == Decided(true) ::
                  && id in s.jobs && s.jobs[id].op == after.jobs[id].op
                  && (s.jobs[id].handler == Decided(true)
                      || (e == ReadGates(id) && ApiMayRun(s.gates, s.jobs[id].op))))
            && (forall run | run in after.trails ::
                  || (run in s.trails && s.trails[run].op == after.trails[run].op)
                  || (e.Begin? && e.id in s.jobs && s.jobs[e.id].handler == Decided(true)
                      && s.jobs[e.id].op == after.trails[run].op))
  {
  }

  lemma StepChecked(s: State, es: seq<Event>, e: Event)
    requires AllChecked(s, es, Run(s, es))
    ensures AllChecked(s, es + [e], Step(Run(s, es), e))
  {
    var before, after := Run(s, es), Step(Run(s, es), e);
    StepDecides(before, e);
    forall id | id in after.jobs && after.jobs[id].handler == Decided(true)
      ensures Checked(s, es + [e], after.jobs[id].op)
    {
      if before.jobs[id].handler == Decided(true) {
        CheckedStays(s, es, e, after.jobs[id].op);
      } else {
        ChecksNow(s, es, id);
      }
    }
    forall run | run in after.trails
      ensures Checked(s, es + [e], after.trails[run].op)
    {
      CheckedStays(s, es, e, after.trails[run].op);
    }
  }

  lemma {:induction false} RunChecked(s: State, es: seq<Event>)
    requires Initial(s)
    ensures AllChecked(s, es, Run(s, es))
    decreases |es|
  {
    if es != [] {
      var n := |es| - 1;
      RunChecked(s, es[..n]);
      StepChecked(s, es[..n], es[n]);
      assert es == es[..n] + [es[n]];
      RunAppends(s, es[..n], [es[n]]);
      assert Run(Step(Run(s, es[..n]), es[n]), []) == Step(Run(s, es[..n]), es[n]);
    }
  }

  /** Every body that ever began was let in by a handler of its operation that read the gates when the API might run. */
  lemma BodyOrigin(s: State, es: seq<Event>, run: nat) returns (i: nat)
    requires Initial(s) && run in Run(s, es).trails
    ensures CheckedAt(s, es, i, Run(s, es).trails[run].op)
  {
    RunChecked(s, es);
    i :| CheckedAt(s, es, i, Run(s, es).trails[run].op);
  }

  // ---------------------------------------------------------------- history

  lemma {:induction false} RowIsAmong(history: seq<HistoryRow>, i: nat)
    requires i < |history|
    ensures history[i] in RowsOf(history, history[i].run)
    decreases |history|
  {
    var n := |history| - 1;
    if i < n {
      RowIsAmong(history[..n], i);
    }
  }

  /** A history row carries the legacy label of its operation if there is one, and else its own. */
  lemma LabelTheorem(s: State, es: seq<Event>, i: nat)
    requires Initial(s) && i < |Run(s, es).history|
    ensures var row, trails := Run(s, es).history[i], Run(s, es).trails;
            && row.run in trails
            && (match trails[row.run].op.legacy
                case Some(l) => row.name == l
                case None => row.name == trails[row.run].op.name)
            && (row.success ==> trails[row.run].works == Some(true))
  {
    var row := Run(s, es).history[i];
    HistoryIsGrounded(s, es, i);
    HistoryTheorem(s, es, row.run);
    RowIsAmong(Run(s, es).history, i);
  }
}
