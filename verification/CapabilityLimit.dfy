/** The issuance limit of anonymous capabilities, for clocks that lag behind by less than 14 minutes. */
module CapabilityLimit {
  import opened Common
  import opened CorrectionReports

  /** A run together with the capabilities minted so far, their times, and the latest clock reading. */
  datatype Trace = Trace(state: State, minted: map<Token, Time>, clock: Time)

  /** How far a transaction's now() may lie behind that of one that committed before it. */
  const SKEW: int := 14 * MINUTE

  function NowOf(e: Event, clock: Time): Time {
    match e
    case Submitting(q) => q.now
    case Minting(now, _, _) => now
    case _ => clock
  }

  /** The mint stored its new capability. */
  predicate Mints(s: State, e: Event) {
    e.Minting? && Mint(s, e.now, e.token, e.presented).Accepted? && e.token in Step(s, e).issued && e.token !in s.issued
  }

  function Next(t: Trace, e: Event): Trace {
    var now := NowOf(e, t.clock);
    Trace(Step(t.state, e), if Mints(t.state, e) then t.minted[e.token := e.now] else t.minted,
          if t.clock < now then now else t.clock)
  }

  function Follow(t: Trace, es: seq<Event>): Trace
    decreases |es|
  {
    if es == [] then t else Follow(Next(t, es[0]), es[1..])
  }

  /** No clock reading is 14 minutes behind an earlier one, and stored tokens are new. */
  ghost predicate Ordered(t: Trace, es: seq<Event>)
    decreases |es|
  {
    es != [] ==>
      t.clock < NowOf(es[0], t.clock) + SKEW && FreshTokens(t.state, es[0]) && Ordered(Next(t, es[0]), es[1..])
  }

  /** A minted capability is stored as minted, or it was purged after its 15 minutes. */
  ghost predicate Stored(cs: map<Token, Capability>, token: Token, at: Time, clock: Time) {
    && at <= clock
    && if token in cs
       then cs[token].createdAt == at && cs[token].expiresAt == at + WINDOW
            && (cs[token].consumedAt.Some? ==> at < cs[token].consumedAt.value + SKEW)
       else at + WINDOW <= clock
  }

  ghost predicate AllStored(t: Trace) {
    && (forall k | k in t.minted :: k in t.state.issued && Stored(t.state.capabilities, k, t.minted[k], t.clock))
    && (forall k | k in t.state.capabilities :: k in t.state.issued)
  }

  function InMinute(minted: map<Token, Time>, start: Time): set<Token> {
    set k | k in minted && start < minted[k] <= start + MINUTE
  }

  ghost predicate Limited(minted: map<Token, Time>) {
    forall start :: |InMinute(minted, start)| <= MINT_LIMIT
  }

  lemma PurgeStored(cs: map<Token, Capability>, token: Token, at: Time, clock: Time, now: Time)
    requires Stored(cs, token, at, clock)
    ensures Stored(PurgeCapabilities(cs, now), token, at, if clock < now then now else clock)
  {
  }

  lemma SubmitStored(t: Trace, q: Request)
    requires AllStored(t) && t.clock < q.now + SKEW && q.replacement !in t.state.issued
    ensures AllStored(Next(t, Submitting(q)))
  {
    var s, after := t.state, Next(t, Submitting(q));
    forall k | k in t.minted
      ensures k in after.state.issued && Stored(after.state.capabilities, k, t.minted[k], after.clock)
    {
      if Submit(s, q).Accepted? && q.user.None? {
        var p := q.presented.value;
        var consumed := s.capabilities[p := s.capabilities[p].(consumedAt := Some(q.now))];
        assert Stored(consumed, k, t.minted[k], t.clock);
        PurgeStored(consumed, k, t.minted[k], t.clock, q.now);
        assert after.state.capabilities ==
               PurgeCapabilities(consumed, q.now)[q.replacement := Capability(q.now, q.now + WINDOW, None)];
      }
    }
  }

  lemma MintStored(t: Trace, now: Time, token: Token, presented: Option<Token>)
    requires AllStored(t) && token !in t.state.issued
    ensures AllStored(Next(t, Minting(now, token, presented)))
  {
    forall k | k in t.minted
      ensures Stored(PurgeCapabilities(t.state.capabilities, now), k, t.minted[k],
                     if t.clock < now then now else t.clock)
    {
      PurgeStored(t.state.capabilities, k, t.minted[k], t.clock, now);
    }
  }

  lemma NextStored(t: Trace, e: Event)
    requires AllStored(t) && t.clock < NowOf(e, t.clock) + SKEW && FreshTokens(t.state, e)
    ensures AllStored(Next(t, e))
  {
    match e
    case Submitting(q) => SubmitStored(t, q);
    case Minting(now, token, presented) => MintStored(t, now, token, presented);
    case _ =>
      assert Next(t, e).state.capabilities == t.state.capabilities && Next(t, e).state.issued == t.state.issued;
  }

  lemma SubsetSize<T>(a: set<T>, b: set<T>)
    requires a <= b
    ensures |a| <= |b|
  {
    assert b == a + (b - a);
  }

  /** All capabilities minted in the last minute are still stored when the limit is checked. */
  lemma RecentAreCounted(t: Trace, now: Time, start: Time)
    requires AllStored(t) && t.clock < now + SKEW && start < now <= start + MINUTE
    ensures |InMinute(t.minted, start)| <= |CreatedAfter(PurgeCapabilities(t.state.capabilities, now), now - MINUTE)|
  {
    forall k | k in InMinute(t.minted, start)
      ensures k in CreatedAfter(PurgeCapabilities(t.state.capabilities, now), now - MINUTE)
    {
      PurgeStored(t.state.capabilities, k, t.minted[k], t.clock, now);
    }
    SubsetSize(InMinute(t.minted, start), CreatedAfter(PurgeCapabilities(t.state.capabilities, now), now - MINUTE));
  }

  /** A capability is minted only below the limit. */
  lemma MintedBelowLimit(s: State, e: Event)
    requires Mints(s, e)
    ensures |CreatedAfter(PurgeCapabilities(s.capabilities, e.now), e.now - MINUTE)| < MINT_LIMIT
  {
  }

  lemma InMinuteGrows(minted: map<Token, Time>, token: Token, now: Time, start: Time)
    ensures |InMinute(minted[token := now], start)| <=
            |InMinute(minted, start)| + (if start < now <= start + MINUTE then 1 else 0)
  {
    var before, after := InMinute(minted, start), InMinute(minted[token := now], start);
    if start < now <= start + MINUTE {
      assert after <= before + {token};
      SubsetSize(after, before + {token});
    } else {
      SubsetSize(after, before);
    }
  }

  lemma MintFits(t: Trace, e: Event, start: Time)
    requires AllStored(t) && e.Minting? && t.clock < e.now + SKEW
    requires |CreatedAfter(PurgeCapabilities(t.state.capabilities, e.now), e.now - MINUTE)| < MINT_LIMIT
    requires |InMinute(t.minted, start)| <= MINT_LIMIT
    ensures |InMinute(t.minted[e.token := e.now], start)| <= MINT_LIMIT
  {
    InMinuteGrows(t.minted, e.token, e.now, start);
    if start < e.now <= start + MINUTE {
      RecentAreCounted(t, e.now, start);
    }
  }

  lemma NextLimited(t: Trace, e: Event)
    requires AllStored(t) && Limited(t.minted) && t.clock < NowOf(e, t.clock) + SKEW
    ensures Limited(Next(t, e).minted)
  {
    if Mints(t.state, e) {
      MintedBelowLimit(t.state, e);
      var minted := t.minted[e.token := e.now];
      forall start
        ensures |InMinute(minted, start)| <= MINT_LIMIT
      {
        MintFits(t, e, start);
      }
    }
  }

  lemma {:induction false} FollowLimited(t: Trace, es: seq<Event>)
    requires AllStored(t) && Limited(t.minted) && Ordered(t, es)
    ensures Limited(Follow(t, es).minted)
    decreases |es|
  {
    if es != [] {
      NextStored(t, es[0]);
      NextLimited(t, es[0]);
      FollowLimited(Next(t, es[0]), es[1..]);
    }
  }

  lemma {:induction false} FollowIsRun(t: Trace, es: seq<Event>)
    ensures Follow(t, es).state == Run(t.state, es)
    decreases |es|
  {
    if es != [] {
      FollowIsRun(Next(t, es[0]), es[1..]);
    }
  }

  /** Every one-minute window holds at most 120 minted capabilities. */
  lemma MintTheorem(s: State, clock: Time, es: seq<Event>, start: Time)
    requires Initial(s) && Ordered(Trace(s, map[], clock), es)
    ensures Follow(Trace(s, map[], clock), es).state == Run(s, es)
    ensures |InMinute(Follow(Trace(s, map[], clock), es).minted, start)| <= 120
  {
    assert forall t :: InMinute(map[], t) == {};
    FollowLimited(Trace(s, map[], clock), es);
    FollowIsRun(Trace(s, map[], clock), es);
  }
}
