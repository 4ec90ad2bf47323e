/** The bounded log a job run keeps for its pg-boss output. */
module JobLog {
  import opened Common

  const MAX_EVENTS: nat := 25
  const MAX_LOG_BYTES: nat := 24 * 1024
  const MAX_OUTPUT_BYTES: nat := 32 * 1024

  /** A projected log event: its identity, its size as JSON, and whether it reports the job's completion. */
  datatype Event = Event(id: nat, bytes: nat, completion: bool)

  /** What one write projects to; None when the line does not parse or projects to nothing. */
  type Line = Option<Event>

  datatype Log = Log(events: seq<Event>, dropped: nat)

  function Bytes(events: seq<Event>): nat {
    if events == [] then 0 else events[0].bytes + Bytes(events[1..])
  }

  /** Room for one more event of `bytes`. */
  predicate Fits(events: seq<Event>, bytes: nat) {
    |events| < MAX_EVENTS && Bytes(events) + bytes <= MAX_LOG_BYTES
  }

  /** A completion makes room by dropping the oldest events, no more than needed. */
  function Evicted(events: seq<Event>, bytes: nat): (k: nat)
    ensures k <= |events|
  {
    if Fits(events, bytes) || events == [] then 0 else 1 + Evicted(events[1..], bytes)
  }

  function Write(log: Log, line: Line): Log {
    if line.None? || line.value.bytes > MAX_LOG_BYTES then log.(dropped := log.dropped + 1)
    else
      var e := line.value;
      var k := if e.completion then Evicted(log.events, e.bytes) else 0;
      var kept := log.events[k..];
      if Fits(kept, e.bytes) then Log(kept + [e], log.dropped + k) else Log(kept, log.dropped + k + 1)
  }

  function WriteAll(lines: seq<Line>): Log {
    if lines == [] then Log([], 0) else Write(WriteAll(lines[..|lines| - 1]), lines[|lines| - 1])
  }

  // ---------------------------------------------------------------- properties

  /** `events` appear among `lines` in this order. */
  predicate InOrder(events: seq<Event>, lines: seq<Line>) {
    events == [] ||
    (lines != [] &&
     ((lines[|lines| - 1] == Some(events[|events| - 1]) && InOrder(events[..|events| - 1], lines[..|lines| - 1]))
      || InOrder(events, lines[..|lines| - 1])))
  }

  lemma {:induction false} SuffixInOrder(events: seq<Event>, lines: seq<Line>, k: nat)
    requires InOrder(events, lines) && k <= |events|
    ensures InOrder(events[k..], lines)
    decreases |lines|
  {
    if k < |events| {
      var n, m := |events| - 1, |lines| - 1;
      assert events[k..][..n - k] == events[..n][k..];
      if lines[m] == Some(events[n]) && InOrder(events[..n], lines[..m]) {
        SuffixInOrder(events[..n], lines[..m], k);
      } else {
        SuffixInOrder(events, lines[..m], k);
      }
    }
  }

  lemma {:induction false} BytesAppend(events: seq<Event>, e: Event)
    ensures Bytes(events + [e]) == Bytes(events) + e.bytes
    decreases |events|
  {
    if events != [] {
      assert (events + [e])[1..] == events[1..] + [e];
      BytesAppend(events[1..], e);
    }
  }

  lemma {:induction false} RoomIsMade(events: seq<Event>, bytes: nat)
    requires bytes <= MAX_LOG_BYTES
    ensures Fits(events[Evicted(events, bytes)..], bytes)
    ensures forall k | 0 <= k < Evicted(events, bytes) :: !Fits(events[k..], bytes)
    decreases |events|
  {
    assert events[0..] == events;
    if !Fits(events, bytes) && events != [] {
      var n := Evicted(events[1..], bytes);
      RoomIsMade(events[1..], bytes);
      assert events[1..][n..] == events[n + 1..];
      forall k | 0 < k < n + 1
        ensures !Fits(events[k..], bytes)
      {
        assert events[1..][k - 1..] == events[k..];
      }
    }
  }

  lemma {:induction false} BytesOfSuffix(events: seq<Event>, k: nat)
    requires k <= |events|
    ensures Bytes(events[k..]) <= Bytes(events)
    decreases k
  {
    if k == 0 {
      assert events[0..] == events;
    } else {
      BytesOfSuffix(events[1..], k - 1);
      assert events[1..][k - 1..] == events[k..];
    }
  }

  ghost predicate Sound(log: Log, lines: seq<Line>) {
    && |log.events| <= MAX_EVENTS
    && Bytes(log.events) <= MAX_LOG_BYTES
    && |log.events| + log.dropped == |lines|
    && InOrder(log.events, lines)
  }

  lemma AddedInOrder(kept: seq<Event>, lines: seq<Line>, line: Line)
    requires InOrder(kept, lines)
    ensures InOrder(kept, lines + [line])
    ensures line.Some? ==> InOrder(kept + [line.value], lines + [line])
  {
    assert (lines + [line])[..|lines|] == lines;
    if line.Some? {
      assert (kept + [line.value])[..|kept|] == kept;
    }
  }

  lemma WriteKeeps(log: Log, lines: seq<Line>, line: Line)
    requires Sound(log, lines)
    ensures Sound(Write(log, line), lines + [line])
  {
    AddedInOrder(log.events, lines, line);
    if line.Some? && line.value.bytes <= MAX_LOG_BYTES {
      var e := line.value;
      var k := if e.completion then Evicted(log.events, e.bytes) else 0;
      SuffixInOrder(log.events, lines, k);
      BytesOfSuffix(log.events, k);
      AddedInOrder(log.events[k..], lines, line);
      BytesAppend(log.events[k..], e);
    }
  }

  lemma {:induction false} AllSound(lines: seq<Line>)
    ensures Sound(WriteAll(lines), lines)
    decreases |lines|
  {
    if lines != [] {
      var n := |lines| - 1;
      AllSound(lines[..n]);
      WriteKeeps(WriteAll(lines[..n]), lines[..n], lines[n]);
      assert lines[..n] + [lines[n]] == lines;
    }
  }

  /**
   For every sequence of writes: the two limits hold, kept and dropped add up to the writes, and
   the kept events are in write order.
   */
  lemma LogTheorem(lines: seq<Line>)
    ensures |WriteAll(lines).events| <= MAX_EVENTS
    ensures Bytes(WriteAll(lines).events) <= MAX_LOG_BYTES
    ensures |WriteAll(lines).events| + WriteAll(lines).dropped == |lines|
    ensures InOrder(WriteAll(lines).events, lines)
  {
    AllSound(lines);
  }

  /**
   A completion within the cap is always admitted as the newest event, after the longest run of
   recent events that leaves room for it.
   */
  lemma CompletionTheorem(lines: seq<Line>, e: Event) returns (k: nat)
    requires e.completion && e.bytes <= MAX_LOG_BYTES
    ensures k <= |WriteAll(lines).events|
    ensures WriteAll(lines + [Some(e)]) == Log(WriteAll(lines).events[k..] + [e], WriteAll(lines).dropped + k)
    ensures forall j | 0 <= j < k :: !Fits(WriteAll(lines).events[j..], e.bytes)
  {
    assert (lines + [Some(e)])[..|lines|] == lines;
    RoomIsMade(WriteAll(lines).events, e.bytes);
    k := Evicted(WriteAll(lines).events, e.bytes);
  }

  /**
   Any other line: an event within the cap is kept as the newest exactly when fewer than 25 are kept and
   it fits into the 24 KiB; nothing that is kept ever makes way for it.
   */
  lemma AdmissionTheorem(lines: seq<Line>, line: Line)
    requires line.Some? ==> !line.value.completion
    ensures var before, after := WriteAll(lines), WriteAll(lines + [line]);
            if line.Some? && |before.events| < 25 && Bytes(before.events) + line.value.bytes <= 24_576
            then after == Log(before.events + [line.value], before.dropped)
            else after == Log(before.events, before.dropped + 1)
  {
    assert (lines + [line])[..|lines|] == lines;
    var events := WriteAll(lines).events;
    assert events[0..] == events;
    BytesNonNegative(events, line);
  }

  lemma BytesNonNegative(events: seq<Event>, line: Line)
    ensures line.Some? && Bytes(events) + line.value.bytes <= 24_576 ==> line.value.bytes <= MAX_LOG_BYTES
  {
  }

  /** The events of lines that all project to one. */
  function EventsOf(lines: seq<Line>): (events: seq<Event>)
    requires forall i | 0 <= i < |lines| :: lines[i].Some?
    ensures |events| == |lines|
  {
    seq(|lines|, i requires 0 <= i < |lines| => lines[i].value)
  }

  lemma {:induction false} AllInOrder(events: seq<Event>, lines: seq<Line>)
    requires InOrder(events, lines) && |events| == |lines|
    ensures forall i | 0 <= i < |lines| :: lines[i] == Some(events[i])
    decreases |lines|
  {
    if lines != [] {
      var n := |lines| - 1;
      if !(lines[n] == Some(events[n]) && InOrder(events[..n], lines[..n])) {
        FewerInOrder(events, lines[..n]);
      }
      AllInOrder(events[..n], lines[..n]);
      assert forall i | 0 <= i < n :: lines[..n][i] == lines[i] && events[..n][i] == events[i];
    }
  }

  lemma {:induction false} FewerInOrder(events: seq<Event>, lines: seq<Line>)
    requires InOrder(events, lines)
    ensures |events| <= |lines|
    decreases |lines|
  {
    if events != [] {
      var n, m := |events| - 1, |lines| - 1;
      if lines[m] == Some(events[n]) && InOrder(events[..n], lines[..m]) {
        FewerInOrder(events[..n], lines[..m]);
      } else {
        FewerInOrder(events, lines[..m]);
      }
    }
  }

  lemma {:induction false} AllKept(lines: seq<Line>)
    requires forall i | 0 <= i < |lines| :: lines[i].Some?
    requires |lines| <= 25 && Bytes(EventsOf(lines)) <= 24_576
    ensures WriteAll(lines) == Log(EventsOf(lines), 0)
    decreases |lines|
  {
    if lines != [] {
      var n := |lines| - 1;
      assert EventsOf(lines) == EventsOf(lines[..n]) + [lines[n].value];
      BytesAppend(EventsOf(lines[..n]), lines[n].value);
      AllKept(lines[..n]);
      assert EventsOf(lines[..n])[0..] == EventsOf(lines[..n]);
    }
  }

  /**
   The log loses nothing exactly when every line projects to an event, there are at most 25, and they
   fit together.
   */
  lemma LosslessTheorem(lines: seq<Line>)
    ensures WriteAll(lines).dropped == 0 <==>
              && (forall i | 0 <= i < |lines| :: lines[i].Some?)
              && |lines| <= 25 && Bytes(EventsOf(lines)) <= 24_576
    ensures WriteAll(lines).dropped == 0 ==> WriteAll(lines).events == EventsOf(lines)
  {
    LogTheorem(lines);
    if WriteAll(lines).dropped == 0 {
      AllInOrder(WriteAll(lines).events, lines);
      assert WriteAll(lines).events == EventsOf(lines);
    } else if (forall i | 0 <= i < |lines| :: lines[i].Some?) && |lines| <= 25 && Bytes(EventsOf(lines)) <= 24_576 {
      AllKept(lines);
    }
  }

  // ---------------------------------------------------------------- the job's output

  function Digits(n: nat): nat {
    if n < 10 then 1 else 1 + Digits(n / 10)
  }

  /** Commas between array elements. */
  function Commas(n: nat): nat {
    if n == 0 then 0 else n - 1
  }

  /**
   The longest envelope: a failure with its longest category, and a duration of ten digits, a point and
   two decimals.
   */
  const ENVELOPE :=
    "{\"outcome\":\"failure\",\"duration_ms\":2147483647.00,\"log_events\":[],"
    + "\"dropped_events\":,\"error_category\":\"unhandled_worker_error\"}"

  const MAX_SAFE_INTEGER: nat := 9_007_199_254_740_991

  function OutputBytes(log: Log): nat {
    |ENVELOPE| + Bytes(log.events) + Commas(|log.events|) + Digits(log.dropped)
  }

  function PowerOfTen(k: nat): nat {
    if k == 0 then 1 else 10 * PowerOfTen(k - 1)
  }

  lemma {:induction false} FewDigits(n: nat, k: nat)
    requires k > 0 && n < PowerOfTen(k)
    ensures Digits(n) <= k
    decreases k
  {
    if n >= 10 {
      FewDigits(n / 10, k - 1);
    }
  }

  /** The serialized output stays within its limit for as many writes as the drop counter can count exactly. */
  lemma OutputTheorem(lines: seq<Line>)
    requires |lines| <= MAX_SAFE_INTEGER
    ensures OutputBytes(WriteAll(lines)) <= MAX_OUTPUT_BYTES
  {
    LogTheorem(lines);
    assert PowerOfTen(4) == 10_000;
    assert PowerOfTen(8) == 100_000_000;
    assert PowerOfTen(12) == 1_000_000_000_000;
    assert PowerOfTen(16) == 10_000_000_000_000_000;
    FewDigits(WriteAll(lines).dropped, 16);
  }

  // ---------------------------------------------------------------- the sink

  /** The sink object of one job run. */
  class Sink {
    var events: seq<Event>
    var collectedBytes: int
    var dropped: nat

    /** The byte counter is the sum of what is kept. */
    ghost predicate Valid()
      reads this
    {
      collectedBytes == Bytes(events)
    }

    ghost function Contents(): Log
      reads this
    {
      Log(events, dropped)
    }

    constructor ()
      ensures Valid() && Contents() == WriteAll([])
    {
      events, collectedBytes, dropped := [], 0, 0;
    }

    /** The eviction loop of a completion. */
    method Evict(bytes: nat)
      requires Valid()
      modifies this
      ensures Valid()
      ensures events == old(events)[Evicted(old(events), bytes)..]
      ensures dropped == old(dropped) + Evicted(old(events), bytes)
    {
      ghost var k := 0;
      assert old(events)[0..] == old(events);
      while |events| >= MAX_EVENTS || collectedBytes + bytes > MAX_LOG_BYTES
        invariant k <= |old(events)| && events == old(events)[k..] && dropped == old(dropped) + k
        invariant Valid() && Evicted(old(events), bytes) == k + Evicted(events, bytes)
        decreases |events|
      {
        if |events| == 0 {
          break;
        }
        collectedBytes := collectedBytes - events[0].bytes;
        events := events[1..];
        dropped := dropped + 1;
        k := k + 1;
      }
    }

    /** One write of a projected line. */
    method Accept(line: Line)
      requires Valid()
      modifies this
      ensures Valid()
      ensures Contents() == Write(old(Contents()), line)
    {
      if line.None? {
        dropped := dropped + 1;
        return;
      }
      var e := line.value;
      if e.bytes > MAX_LOG_BYTES {
        dropped := dropped + 1;
        return;
      }
      assert events[0..] == events;
      if e.completion {
        Evict(e.bytes);
      }
      if |events| >= MAX_EVENTS || collectedBytes + e.bytes > MAX_LOG_BYTES {
        dropped := dropped + 1;
        return;
      }
      BytesAppend(events, e);
      events := events + [e];
      collectedBytes := collectedBytes + e.bytes;
    }
  }
}
