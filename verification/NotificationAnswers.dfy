/** Which entries a run of the notification queue may send: the listing is determined, and everything sent was due. */
module NotificationAnswers {
  import opened Common
  import opened NotificationQueue

  // ---------------------------------------------------------------- one listing

  lemma SamePrefix(queue: map<Id, Row>, cutoff: Time, es: seq<Entry>, fs: seq<Entry>, i: nat)
    requires Listing(queue, cutoff, es) && Listing(queue, cutoff, fs)
    requires i < |es| && i < |fs| && es[..i] == fs[..i]
    ensures !Before(es[i], fs[i])
  {
    if Before(es[i], fs[i]) {
      var e := es[i];
      assert e in es && NotificationQueue.Pending(queue[e.id], cutoff) && Current(queue, e);
      assert fs[i] in fs;
      forall j | 0 <= j < |fs|
        ensures fs[j] != e
      {
        if j < i {
          assert fs[j] == fs[..i][j] == es[..i][j] == es[j];
        }
      }
    }
  }

  lemma TotalOrder(queue: map<Id, Row>, a: Entry, b: Entry)
    requires Current(queue, a) && Current(queue, b)
    ensures a == b || Before(a, b) || Before(b, a)
  {
  }

  lemma {:induction false} SameUpTo(queue: map<Id, Row>, cutoff: Time, es: seq<Entry>, fs: seq<Entry>, n: nat)
    requires Listing(queue, cutoff, es) && Listing(queue, cutoff, fs) && n <= |es| && n <= |fs|
    ensures es[..n] == fs[..n]
    decreases n
  {
    if n > 0 {
      SameUpTo(queue, cutoff, es, fs, n - 1);
      SamePrefix(queue, cutoff, es, fs, n - 1);
      SamePrefix(queue, cutoff, fs, es, n - 1);
      assert es[n - 1] in es && fs[n - 1] in fs;
      TotalOrder(queue, es[n - 1], fs[n - 1]);
      assert es[..n] == es[..n - 1] + [es[n - 1]] && fs[..n] == fs[..n - 1] + [fs[n - 1]];
    }
  }

  lemma NoLonger(queue: map<Id, Row>, cutoff: Time, es: seq<Entry>, fs: seq<Entry>)
    requires Listing(queue, cutoff, es) && Listing(queue, cutoff, fs)
    ensures |fs| <= |es|
  {
    if |es| < |fs| {
      var f := fs[|es|];
      SameUpTo(queue, cutoff, es, fs, |es|);
      assert f in fs && NotificationQueue.Pending(queue[f.id], cutoff) && Current(queue, f);
      forall j | 0 <= j < |es|
        ensures es[j] != f
      {
        assert es[..|es|][j] == fs[..|es|][j] == fs[j];
      }
    }
  }

  /** The queue and the cutoff determine the listing: the hundred oldest entries that are due, in order. */
  lemma OneListing(queue: map<Id, Row>, cutoff: Time, es: seq<Entry>, fs: seq<Entry>)
    requires Listing(queue, cutoff, es) && Listing(queue, cutoff, fs)
    ensures es == fs
  {
    NoLonger(queue, cutoff, es, fs);
    NoLonger(queue, cutoff, fs, es);
    SameUpTo(queue, cutoff, es, fs, |es|);
    assert es[..|es|] == es && fs[..|es|] == fs;
  }

  // ---------------------------------------------------------------- what is sent was due

  /** Event i of the run listed the entry: it was the row's version then, unprocessed and older than the cutoff. */
  ghost predicate DueAt(s: State, es: seq<Event>, i: nat, e: Entry) {
    && i < |es| && es[i].List? && e in es[i].entries && |es[i].entries| <= 100
    && var queue := Run(s, es[..i]).queue;
       e.id in queue && queue[e.id] == Row(e.createdAt, e.change, false) && e.createdAt < es[i].cutoff
  }

  ghost predicate WasDue(s: State, es: seq<Event>, e: Entry) {
    exists i: nat :: DueAt(s, es, i, e)
  }

  ghost predicate AllDue(s: State, es: seq<Event>, end: State) {
    && (forall w | w in end.runners && !end.runners[w].Idle? ::
          forall e | e in end.runners[w].entries :: WasDue(s, es, e))
    && (forall e | e in end.delivered :: WasDue(s, es, e))
  }

  lemma DueStays(s: State, es: seq<Event>, event: Event, e: Entry)
    requires WasDue(s, es, e)
    ensures WasDue(s, es + [event], e)
  {
    var i: nat :| DueAt(s, es, i, e);
    assert (es + [event])[..i] == es[..i];
    assert DueAt(s, es + [event], i, e);
  }

  lemma DueNow(s: State, es: seq<Event>, w: Runner, cutoff: Time, entries: seq<Entry>, e: Entry)
    requires Listing(Run(s, es).queue, cutoff, entries) && e in entries
    ensures WasDue(s, es + [List(w, cutoff, entries)], e)
  {
    var after := es + [List(w, cutoff, entries)];
    assert after[..|es|] == es;
    assert DueAt(s, after, |es|, e);
  }

  /** What a step can add to the entries held and sent. */
  lemma StepHolds(s: State, event: Event)
    ensures var after := Step(s, event);
            && (forall w, e | w in after.runners && !after.runners[w].Idle? && e in after.runners[w].entries ::
                  || (w in s.runners && !s.runners[w].Idle? && e in s.runners[w].entries)
                  || (event.List? && e in event.entries && Listing(s.queue, event.cutoff, event.entries)))
            && (forall e | e in after.delivered ::
                  || e in s.delivered
                  || exists w | w in s.runners && !s.runners[w].Idle? :: e in s.runners[w].entries)
  {
  }

  lemma StepDue(s: State, es: seq<Event>, event: Event)
    requires AllDue(s, es, Run(s, es))
    ensures AllDue(s, es + [event], Step(Run(s, es), event))
  {
    var before, after := Run(s, es), Step(Run(s, es), event);
    StepHolds(before, event);
    forall w, e | w in after.runners && !after.runners[w].Idle? && e in after.runners[w].entries
      ensures WasDue(s, es + [event], e)
    {
      if w in before.runners && !before.runners[w].Idle? && e in before.runners[w].entries {
        DueStays(s, es, event, e);
      } else {
        DueNow(s, es, event.w, event.cutoff, event.entries, e);
      }
    }
    forall e | e in after.delivered
      ensures WasDue(s, es + [event], e)
    {
      DueStays(s, es, event, e);
    }
  }

  lemma {:induction false} RunDue(s: State, es: seq<Event>)
    requires Initial(s)
    ensures AllDue(s, es, Run(s, es))
    decreases |es|
  {
    if es != [] {
      var n := |es| - 1;
      RunDue(s, es[..n]);
      StepDue(s, es[..n], es[n]);
      assert es == es[..n] + [es[n]];
      RunAppends(s, es[..n], [es[n]]);
      assert Run(Step(Run(s, es[..n]), es[n]), []) == Step(Run(s, es[..n]), es[n]);
    }
  }

  /**
   Nothing is sent before its time, or after it was processed: every entry ever
   delivered was listed when it was the row's version, unprocessed and older than the cutoff.
   */
  lemma DebounceTheorem(s: State, es: seq<Event>, e: Entry) returns (i: nat)
    requires Initial(s) && e in Run(s, es).delivered
    ensures DueAt(s, es, i, e)
  {
    RunDue(s, es);
    i :| DueAt(s, es, i, e);
  }
}
