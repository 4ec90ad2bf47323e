/**
 The debounced change queue: runs that list, deliver and mark entries, and writers that refresh
 rows at any moment in between.
 */
module NotificationQueue {
  import opened Common

  type Id = nat
  type Runner = nat
  type Change = nat

  const LIST_LIMIT: nat := 100

  /** A queue row; `change` stands for its type, detail and recipients. */
  datatype Row = Row(createdAt: Time, change: Change, processed: bool)

  /** A listed version of a row. */
  datatype Entry = Entry(id: Id, createdAt: Time, change: Change)

  datatype Phase = Idle | Listed(entries: seq<Entry>) | Sent(entries: seq<Entry>)

  /** `delivered` remembers every entry a run has sent out. */
  datatype State = State(
    queue: map<Id, Row>, holder: Option<Runner>, runners: map<Runner, Phase>, delivered: set<Entry>)

  // ---------------------------------------------------------------- statements

  predicate Pending(row: Row, cutoff: Time) {
    !row.processed && row.createdAt < cutoff
  }

  /** ORDER BY created_at, id. */
  predicate Before(a: Entry, b: Entry) {
    a.createdAt < b.createdAt || (a.createdAt == b.createdAt && a.id < b.id)
  }

  /** What the list query returns: the first hundred pending versions in order. */
  ghost predicate Listing(queue: map<Id, Row>, cutoff: Time, entries: seq<Entry>) {
    && |entries| <= LIST_LIMIT
    && (forall i, j | 0 <= i < j < |entries| :: Before(entries[i], entries[j]))
    && (forall e | e in entries :: e.id in queue && Pending(queue[e.id], cutoff) && Current(queue, e))
    && (forall id | id in queue && Pending(queue[id], cutoff) ::
          var e := Entry(id, queue[id].createdAt, queue[id].change);
          e in entries || (|entries| == LIST_LIMIT && forall x | x in entries :: Before(x, e)))
  }

  /** The entry is the row's present version. */
  predicate Current(queue: map<Id, Row>, e: Entry) {
    e.id in queue && queue[e.id].createdAt == e.createdAt && queue[e.id].change == e.change
  }

  /** The marker's WHERE clause for one listed version. */
  predicate Marks(row: Row, e: Entry) {
    row.createdAt == e.createdAt && !row.processed
  }

  /** markProcessed: one UPDATE over the listed versions. */
  function Mark(queue: map<Id, Row>, entries: seq<Entry>): map<Id, Row> {
    map id | id in queue ::
      if exists e | e in entries :: e.id == id && Marks(queue[id], e) then queue[id].(processed := true) else queue[id]
  }

  function MarkedIds(queue: map<Id, Row>, entries: seq<Entry>): set<Id> {
    set e | e in entries && e.id in queue && Marks(queue[e.id], e) :: e.id
  }

  // ---------------------------------------------------------------- runs

  /**
   Enqueue and Refresh are other transactions. A run tries the advisory lock, lists, sends
   everything, marks and ends; ending also covers a crash. Drop loses the session that holds the
   lock while the run itself goes on.
   */
  datatype Event =
    | Enqueue(id: Id, at: Time, change: Change)
    | Refresh(id: Id, at: Time, change: Change)
    | Begin(w: Runner)
    | List(w: Runner, cutoff: Time, entries: seq<Entry>)
    | Deliver(w: Runner)
    | MarkAll(w: Runner)
    | End(w: Runner)
    | Drop(w: Runner)

  function Put(s: State, id: Id, at: Time, change: Change): State {
    s.(queue := s.queue[id := Row(at, change, false)])
  }

  ghost function Step(s: State, e: Event): State {
    match e
    case Enqueue(id, at, change) => if id in s.queue then s else Put(s, id, at, change)
    case Refresh(id, at, change) => if id !in s.queue || s.queue[id].processed then s else Put(s, id, at, change)
    case Begin(w) =>
      if s.holder.Some? || w in s.runners then s else s.(holder := Some(w), runners := s.runners[w := Idle])
    case List(w, cutoff, entries) =>
      if w in s.runners && s.runners[w].Idle? && Listing(s.queue, cutoff, entries)
      then s.(runners := s.runners[w := Listed(entries)]) else s
    case Deliver(w) =>
      if w !in s.runners || !s.runners[w].Listed? then s
      else
        var entries := s.runners[w].entries;
        s.(runners := s.runners[w := Phase.Sent(entries)], delivered := s.delivered + set x | x in entries)
    case MarkAll(w) =>
      if w !in s.runners || !s.runners[w].Sent? then s
      else s.(queue := Mark(s.queue, s.runners[w].entries), runners := s.runners[w := Idle])
    case End(w) => s.(holder := if s.holder == Some(w) then None else s.holder, runners := s.runners - {w})
    case Drop(w) => s.(holder := if s.holder == Some(w) then None else s.holder)
  }

  ghost function Run(s: State, es: seq<Event>): State
    decreases |es|
  {
    if es == [] then s else Run(Step(s, es[0]), es[1..])
  }

  /** Some run holds an entry with this id and stamp, but another change. */
  ghost predicate Clashes(s: State, id: Id, at: Time, change: Change) {
    exists w, e | w in s.runners && !s.runners[w].Idle? && e in s.runners[w].entries ::
      e.id == id && e.createdAt == at && e.change != change
  }

  /** A refresh does not repeat the stamp of an entry that a run holds, unless it repeats its change too. */
  ghost predicate NewStamp(s: State, e: Event) {
    e.Refresh? ==> !Clashes(s, e.id, e.at, e.change)
  }

  ghost predicate NewStamps(s: State, es: seq<Event>)
    decreases |es|
  {
    es != [] ==> NewStamp(s, es[0]) && NewStamps(Step(s, es[0]), es[1..])
  }

  ghost predicate Initial(s: State) {
    s.queue == map[] && s.holder.None? && s.runners == map[] && s.delivered == {}
  }

  // ---------------------------------------------------------------- no refreshed change is lost

  /** A version that a run holds: if the row still has its stamp, it still has its change. */
  ghost predicate Known(queue: map<Id, Row>, e: Entry) {
    e.id in queue && (queue[e.id].createdAt == e.createdAt ==> queue[e.id].change == e.change)
  }

  ghost predicate PhaseSound(s: State, phase: Phase) {
    && (!phase.Idle? ==> forall e | e in phase.entries :: Known(s.queue, e))
    && (phase.Sent? ==> forall e | e in phase.entries :: e in s.delivered)
  }

  ghost predicate ProcessedDelivered(queue: map<Id, Row>, delivered: set<Entry>) {
    forall id | id in queue && queue[id].processed :: Entry(id, queue[id].createdAt, queue[id].change) in delivered
  }

  ghost predicate Sound(s: State) {
    && (forall w | w in s.runners :: PhaseSound(s, s.runners[w]))
    && ProcessedDelivered(s.queue, s.delivered)
  }

  lemma PutKeeps(s: State, id: Id, at: Time, change: Change)
    requires Sound(s) && !Clashes(s, id, at, change) && (id in s.queue ==> !s.queue[id].processed)
    ensures Sound(Put(s, id, at, change))
  {
    var after := Put(s, id, at, change);
    forall w | w in after.runners
      ensures PhaseSound(after, after.runners[w])
    {
      assert PhaseSound(s, s.runners[w]);
    }
  }

  lemma NobodyHolds(s: State, id: Id, at: Time, change: Change)
    requires Sound(s) && id !in s.queue
    ensures !Clashes(s, id, at, change)
  {
    forall w, e | w in s.runners && !s.runners[w].Idle? && e in s.runners[w].entries
      ensures e.id != id
    {
      assert PhaseSound(s, s.runners[w]) && Known(s.queue, e);
    }
  }

  lemma MarkKeeps(s: State, w: Runner)
    requires Sound(s) && w in s.runners && s.runners[w].Sent?
    ensures Sound(Step(s, MarkAll(w)))
  {
    var after, entries := Step(s, MarkAll(w)), s.runners[w].entries;
    assert PhaseSound(s, s.runners[w]);
    forall id | id in after.queue && after.queue[id].processed
      ensures Entry(id, after.queue[id].createdAt, after.queue[id].change) in after.delivered
    {
      if !s.queue[id].processed {
        var e :| e in entries && e.id == id && Marks(s.queue[id], e);
        assert Known(s.queue, e);
      }
    }
    forall v | v in after.runners
      ensures PhaseSound(after, after.runners[v])
    {
      assert PhaseSound(s, s.runners[v]);
    }
  }

  lemma RunnerMovesKeep(s: State, e: Event)
    requires Sound(s) && !e.Enqueue? && !e.Refresh? && !e.MarkAll?
    ensures Sound(Step(s, e))
  {
    var after := Step(s, e);
    forall v | v in after.runners
      ensures PhaseSound(after, after.runners[v])
    {
      if v in s.runners {
        assert PhaseSound(s, s.runners[v]);
      }
    }
  }

  lemma StepKeeps(s: State, e: Event)
    requires Sound(s) && NewStamp(s, e)
    ensures Sound(Step(s, e))
  {
    match e
    case Enqueue(id, at, change) =>
      if id !in s.queue {
        NobodyHolds(s, id, at, change);
        PutKeeps(s, id, at, change);
      }
    case Refresh(id, at, change) =>
      if id in s.queue && !s.queue[id].processed {
        PutKeeps(s, id, at, change);
      }
    case MarkAll(w) =>
      if w in s.runners && s.runners[w].Sent? {
        MarkKeeps(s, w);
      }
    case _ => RunnerMovesKeep(s, e);
  }

  lemma {:induction false} RunKeeps(s: State, es: seq<Event>)
    requires Sound(s) && NewStamps(s, es)
    ensures Sound(Run(s, es))
    decreases |es|
  {
    if es != [] {
      StepKeeps(s, es[0]);
      RunKeeps(Step(s, es[0]), es[1..]);
    }
  }

  /**
   In every run, with refreshes anywhere, crashes, and even runs whose lock session was lost: a row
   marked processed was delivered in exactly its present version.
   */
  lemma NoLostChangeTheorem(s: State, es: seq<Event>, id: Id)
    requires Initial(s) && NewStamps(s, es)
    requires id in Run(s, es).queue && Run(s, es).queue[id].processed
    ensures var row := Run(s, es).queue[id]; Entry(id, row.createdAt, row.change) in Run(s, es).delivered
  {
    RunKeeps(s, es);
  }

  /**
   The condition is needed: in any state in which a run has sent out the present version of a row, a
   refresh that repeats its stamp with a change nobody has delivered is lost when that run marks.
   */
  lemma ClashLosesChange(s: State, w: Runner, e: Entry, later: Change)
    requires w in s.runners && s.runners[w].Sent? && e in s.runners[w].entries
    requires e.id in s.queue && !s.queue[e.id].processed && Entry(e.id, e.createdAt, later) !in s.delivered
    ensures e.change != later ==> !NewStamp(s, Refresh(e.id, e.createdAt, later))
    ensures var end := Step(Step(s, Refresh(e.id, e.createdAt, later)), MarkAll(w));
            && e.id in end.queue && end.queue[e.id] == Row(e.createdAt, later, true)
            && Entry(e.id, e.createdAt, later) !in end.delivered
  {
    var refreshed := Step(s, Refresh(e.id, e.createdAt, later));
    assert Marks(refreshed.queue[e.id], e);
  }

  /** A state in which a run has sent out the only version of the only row. */
  function SentState(id: Id, at: Time, change: Change): State {
    var e := Entry(id, at, change);
    State(map[id := Row(at, change, false)], Some(0), map[0 := Phase.Sent([e])], {e})
  }

  lemma SentStateIsReached(s: State, id: Id, at: Time, change: Change)
    requires Initial(s)
    ensures Run(s, [Enqueue(id, at, change), Begin(0), List(0, at + 1, [Entry(id, at, change)]), Deliver(0)])
         == SentState(id, at, change)
  {
    var e := Entry(id, at, change);
    var s1 := Step(s, Enqueue(id, at, change));
    assert s1.queue == map[id := Row(at, change, false)];
    var s2 := Step(s1, Begin(0));
    assert s2.runners == map[0 := Idle];
    assert s2 == State(map[id := Row(at, change, false)], Some(0), map[0 := Idle], {});
    assert Listing(s2.queue, at + 1, [e]);
    var s3 := Step(s2, List(0, at + 1, [e]));
    var s4 := Step(s3, Deliver(0));
    assert s4 == SentState(id, at, change);
    assert Run(s4, []) == s4;
    assert Run(s3, [Deliver(0)]) == s4;
    assert Run(s2, [List(0, at + 1, [e]), Deliver(0)]) == s4;
    assert Run(s1, [Begin(0), List(0, at + 1, [e]), Deliver(0)]) == s4;
  }

  lemma {:induction false} RunAppends(s: State, es: seq<Event>, fs: seq<Event>)
    ensures Run(s, es + fs) == Run(Run(s, es), fs)
    decreases |es|
  {
    if es == [] {
      assert es + fs == fs;
    } else {
      assert (es + fs)[1..] == es[1..] + fs;
      RunAppends(Step(s, es[0]), es[1..], fs);
    }
  }

  /** From an empty queue: a run that ends with a changed row marked processed, its change never delivered. */
  lemma RepeatedStampLosesChange(s: State, id: Id, at: Time, earlier: Change, later: Change)
    requires Initial(s) && earlier != later
    ensures var es := [Enqueue(id, at, earlier), Begin(0), List(0, at + 1, [Entry(id, at, earlier)]), Deliver(0)];
            var end := Run(s, es + [Refresh(id, at, later), MarkAll(0)]);
            id in end.queue && end.queue[id] == Row(at, later, true) && Entry(id, at, later) !in end.delivered
  {
    var es := [Enqueue(id, at, earlier), Begin(0), List(0, at + 1, [Entry(id, at, earlier)]), Deliver(0)];
    var sent := SentState(id, at, earlier);
    SentStateIsReached(s, id, at, earlier);
    RunAppends(s, es, [Refresh(id, at, later), MarkAll(0)]);
    assert Entry(id, at, earlier) in sent.runners[0].entries;
    ClashLosesChange(sent, 0, Entry(id, at, earlier), later);
    var s5 := Step(sent, Refresh(id, at, later));
    assert Run(Step(s5, MarkAll(0)), []) == Step(s5, MarkAll(0));
    assert Run(s5, [MarkAll(0)]) == Step(s5, MarkAll(0));
  }

  // ---------------------------------------------------------------- exactness of the marker

  /**
   The marker touches a row exactly when its stamp is the listed one; everything else, and every other
   field, stays.
   */
  lemma MarkTheorem(queue: map<Id, Row>, entries: seq<Entry>, id: Id)
    requires id in queue
    ensures Mark(queue, entries).Keys == queue.Keys
    ensures Mark(queue, entries)[id] == queue[id].(processed := queue[id].processed || id in MarkedIds(queue, entries))
    ensures (forall e | e in entries && e.id == id :: queue[id].createdAt != e.createdAt) ==>
            Mark(queue, entries)[id] == queue[id]
  {
  }

  lemma {:induction false} DistinctIdsBound(entries: seq<Entry>, ids: set<Id>)
    requires forall id | id in ids :: exists e | e in entries :: e.id == id
    ensures |ids| <= |entries|
    decreases |entries|
  {
    if entries == [] {
      assert ids == {};
    } else {
      DistinctIdsBound(entries[1..], ids - {entries[0].id});
    }
  }

  /** Processed and refreshed add up to the listed entries, and neither is negative. */
  lemma MarkCountTheorem(queue: map<Id, Row>, entries: seq<Entry>)
    ensures 0 <= |entries| - |MarkedIds(queue, entries)|
    ensures |MarkedIds(queue, entries)| == |entries| ==>
            forall e | e in entries :: e.id in queue && exists x | x in entries :: x.id == e.id && Marks(queue[e.id], x)
  {
    DistinctIdsBound(entries, MarkedIds(queue, entries));
    if |MarkedIds(queue, entries)| == |entries| {
      forall e | e in entries
        ensures e.id in MarkedIds(queue, entries)
      {
        AllMarked(entries, MarkedIds(queue, entries), e);
      }
    }
  }

  lemma AllMarked(entries: seq<Entry>, ids: set<Id>, e: Entry)
    requires forall id | id in ids :: exists e | e in entries :: e.id == id
    requires |ids| == |entries| && e in entries
    ensures e.id in ids
  {
    var k :| 0 <= k < |entries| && entries[k] == e;
    var rest := entries[..k] + entries[k + 1..];
    if e.id !in ids {
      forall id | id in ids
        ensures exists x | x in rest :: x.id == id
      {
        var x :| x in entries && x.id == id;
        var j :| 0 <= j < |entries| && entries[j] == x;
        assert rest[if j < k then j else j - 1] == x;
      }
      DistinctIdsBound(rest, ids);
      assert false;
    }
  }

  // ---------------------------------------------------------------- exclusive runs

  ghost predicate NoDrops(es: seq<Event>) {
    forall e | e in es :: !e.Drop?
  }

  ghost predicate Exclusive(s: State) {
    forall w | w in s.runners :: s.holder == Some(w)
  }

  lemma {:induction false} ExclusiveRuns(s: State, es: seq<Event>)
    requires Exclusive(s) && NoDrops(es)
    ensures Exclusive(Run(s, es))
    decreases |es|
  {
    if es != [] {
      assert es[0] in es;
      ExclusiveRuns(Step(s, es[0]), es[1..]);
    }
  }

  /** As long as lock sessions last, at most one run is between its lock and its end. */
  lemma ExclusiveTheorem(s: State, es: seq<Event>, v: Runner, w: Runner)
    requires Initial(s) && NoDrops(es) && v in Run(s, es).runners && w in Run(s, es).runners
    ensures v == w
  {
    ExclusiveRuns(s, es);
  }
}
