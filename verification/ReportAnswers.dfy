/**
 What a correction report or a new capability is answered, as a condition on the rows, and how old the
 capability of an anonymous report can be.
 */
module ReportAnswers {
  import opened Common
  import opened CorrectionReports

  // ---------------------------------------------------------------- counting rows

  function Positions(reports: seq<Report>, p: Report -> bool): set<int> {
    set i | 0 <= i < |reports| && p(reports[i])
  }

  lemma {:induction false} CountIsSize(reports: seq<Report>, p: Report -> bool)
    ensures Count(reports, p) == |Positions(reports, p)|
    decreases |reports|
  {
    if reports == [] {
      assert Positions(reports, p) == {};
    } else {
      var n := |reports| - 1;
      CountIsSize(reports[..n], p);
      assert Positions(reports, p) ==
             if p(reports[n]) then Positions(reports[..n], p) + {n} else Positions(reports[..n], p);
    }
  }

  /** The anonymous reports on an event in the last 15 minutes. */
  function AnonymousLately(s: State, event: EventId, now: Time): set<int> {
    set i | 0 <= i < |s.reports| && s.reports[i].shown == None && s.reports[i].event == event
            && now - 900 < s.reports[i].at
  }

  /** A user's reports in the last 15 minutes. */
  function UserLately(s: State, user: User, now: Time): set<int> {
    set i | 0 <= i < |s.reports| && s.reports[i].shown == Some(user) && now - 900 < s.reports[i].at
  }

  lemma LatelyCounted(s: State, event: EventId, user: User, now: Time)
    ensures Count(s.reports, Recent(event, None, now)) == |AnonymousLately(s, event, now)|
    ensures Count(s.reports, Recent(event, Some(user), now)) == |UserLately(s, user, now)|
  {
    CountIsSize(s.reports, Recent(event, None, now));
    CountIsSize(s.reports, Recent(event, Some(user), now));
    assert AnonymousLately(s, event, now) == Positions(s.reports, Recent(event, None, now));
    assert UserLately(s, user, now) == Positions(s.reports, Recent(event, Some(user), now));
  }

  // ---------------------------------------------------------------- replies to a report

  /** The capability is stored, unspent and not expired. */
  predicate Spendable(cs: map<Token, Capability>, t: Option<Token>, now: Time) {
    t.Some? && t.value in cs && cs[t.value].consumedAt == None && now < cs[t.value].expiresAt
  }

  /** It survives the purge: not expired, and not spent over an hour ago. */
  predicate Survives(c: Capability, now: Time) {
    now < c.expiresAt && match c.consumedAt case None => true case Some(at) => now - 3600 <= at
  }

  predicate KnownContent(s: State, d: Digest, now: Time) {
    d in s.digests && now < s.digests[d]
  }

  /** The replacement's key is in use after the purge. */
  predicate KeyInUse(s: State, q: Request) {
    q.replacement in s.capabilities && q.now < s.capabilities[q.replacement].expiresAt
    && (Some(q.replacement) == q.presented || Survives(s.capabilities[q.replacement], q.now))
  }

  /** Each reply to an anonymous report. */
  lemma AnonymousReplies(s: State, q: Request)
    requires q.user == None
    ensures var o := Submit(s, q);
            var known := q.event in s.events;
            var live := known && Spendable(s.capabilities, q.presented, q.now);
            var full := |AnonymousLately(s, q.event, q.now)| >= 20;
            var admitted := live && !full && !KeyInUse(s, q);
            && (o == Refused(NoEvent) <==> !known)
            && (o == Refused(CapabilityRequired) <==> known && q.presented == None)
            && (o == Refused(CapabilityExpired) <==> known && q.presented != None && !live)
            && (o == Refused(LimitReached) <==> live && full)
            && (o == Refused(TokenTaken) <==> live && !full && KeyInUse(s, q))
            && (o == Refused(AlreadyReceived) <==> admitted && KnownContent(s, q.digest, q.now))
            && (o.Accepted? <==> admitted && !KnownContent(s, q.digest, q.now))
  {
    LatelyCounted(s, q.event, 0, q.now);
  }

  /** Each reply to a signed-in user's report. */
  lemma UserReplies(s: State, q: Request, user: User)
    requires q.user == Some(user)
    ensures var o := Submit(s, q);
            var known := q.event in s.events;
            var barred := user in s.restricted && q.now < s.restricted[user];
            var full := |UserLately(s, user, q.now)| >= 5;
            var admitted := known && !barred && !full;
            && (o == Refused(NoEvent) <==> !known)
            && (o == Refused(Unavailable) <==> known && barred)
            && (o == Refused(LimitReached) <==> known && !barred && full)
            && (o == Refused(AlreadyReceived) <==> admitted && KnownContent(s, q.digest, q.now))
            && (o == Refused(NoUser) <==> admitted && !KnownContent(s, q.digest, q.now) && user !in s.users)
            && (o.Accepted? <==> admitted && !KnownContent(s, q.digest, q.now) && user in s.users)
  {
    LatelyCounted(s, q.event, user, q.now);
  }

  // ---------------------------------------------------------------- what is written

  ghost predicate ContentClaimed(before: map<Digest, Time>, after: map<Digest, Time>, d: Digest, now: Time) {
    && (forall x :: x in after <==> x == d || (x in before && now < before[x]))
    && (forall x | x in after :: after[x] == if x == d then now + 900 else before[x])
  }

  /** The presented capability is spent, the stale ones are gone, and the replacement is good for 15 minutes. */
  ghost predicate CapabilitiesTurned(before: map<Token, Capability>, after: map<Token, Capability>,
                                     spent: Option<Token>, issued: Option<Token>, now: Time) {
    && (forall t :: t in after <==>
          issued == Some(t) || (t in before && now < before[t].expiresAt
                                && (spent == Some(t) || Survives(before[t], now))))
    && (forall t | t in after ::
          after[t] == if issued == Some(t) then Capability(now, now + 900, None)
                      else if spent == Some(t) then before[t].(consumedAt := Some(now))
                      else before[t])
  }

  /**
   An accepted report is stored with its sender or its capability, its content is claimed, and users
   keep the rest.
   */
  lemma AcceptedRows(s: State, q: Request)
    requires Submit(s, q).Accepted?
    ensures var after := Submit(s, q).state;
            && after.events == s.events && after.users == s.users && after.restricted == s.restricted
            && after.reports == s.reports +
                 [Report(q.event, q.user, q.user, q.now, q.digest, if q.user == None then q.presented else None)]
            && ContentClaimed(s.digests, after.digests, q.digest, q.now)
    ensures var after := Submit(s, q).state;
            if q.user == None
            then CapabilitiesTurned(s.capabilities, after.capabilities, q.presented, Some(q.replacement), q.now)
                 && after.issued == s.issued + {q.replacement}
            else after.capabilities == s.capabilities && after.issued == s.issued
  {
  }

  // ---------------------------------------------------------------- capabilities

  /** The capabilities created in the last minute that survive the purge. */
  function MintedLately(s: State, now: Time): set<Token> {
    set t | t in s.capabilities && Survives(s.capabilities[t], now) && now - 60 < s.capabilities[t].createdAt
  }

  /** Whether a capability is issued, and what refuses it. */
  lemma MintReplies(s: State, now: Time, token: Token, presented: Option<Token>)
    ensures var o := Mint(s, now, token, presented);
            var held := Spendable(s.capabilities, presented, now);
            var full := |MintedLately(s, now)| >= 120;
            var taken := token in s.capabilities && Survives(s.capabilities[token], now);
            && (o == Refused(LimitReached) <==> !held && full)
            && (o == Refused(TokenTaken) <==> !held && !full && taken)
            && (o.Accepted? <==> held || (!full && !taken))
            && (o.Accepted? ==>
                  && o.state == s.(capabilities := o.state.capabilities, issued := o.state.issued)
                  && o.state.issued == (if held then s.issued else s.issued + {token})
                  && CapabilitiesTurned(s.capabilities, o.state.capabilities, None,
                                        if held then None else Some(token), now))
  {
    var kept := PurgeCapabilities(s.capabilities, now);
    assert MintedLately(s, now) == CreatedAfter(kept, now - MINUTE);
  }

  /** Deleting a user takes the name off their reports, and nothing else of them; a restriction bars one user. */
  lemma OtherRows(s: State, user: User, until: Time)
    ensures var after := Step(s, DeletingUser(user));
            && after == s.(users := s.users - {user}, reports := after.reports, restricted := s.restricted - {user})
            && |after.reports| == |s.reports|
            && forall i | 0 <= i < |s.reports| ::
                 && after.reports[i] == s.reports[i].(shown := after.reports[i].shown)
                 && after.reports[i].shown == if s.reports[i].shown == Some(user) then None else s.reports[i].shown
    ensures Step(s, Restricting(user, until)) == s.(restricted := s.restricted[user := until])
  {
  }

  // ---------------------------------------------------------------- runs

  /** Event i of the run issued the token at this time. */
  ghost predicate IssuedBy(s: State, es: seq<Event>, i: nat, t: Token, at: Time) {
    && i < |es|
    && match es[i]
       case Submitting(q) => q.user == None && q.replacement == t && q.now == at && Submit(Run(s, es[..i]), q).Accepted?
       case Minting(now, token, presented) => token == t && now == at && Mints(Run(s, es[..i]), now, token, presented)
       case _ => false
  }

  /** The mint stores a new capability: it is not refused, and the presented one is of no use. */
  predicate Mints(s: State, now: Time, token: Token, presented: Option<Token>) {
    Mint(s, now, token, presented).Accepted? && !Spendable(s.capabilities, presented, now)
  }

  /** Some event of the run issued the token at this time. */
  ghost predicate Issued(s: State, es: seq<Event>, t: Token, at: Time) {
    exists i: nat :: IssuedBy(s, es, i, t, at)
  }

  ghost predicate CapabilityTraced(s: State, es: seq<Event>, t: Token, c: Capability) {
    c.expiresAt == c.createdAt + 900 && Issued(s, es, t, c.createdAt)
  }

  /** An anonymous report spent a capability that was issued less than 15 minutes before. */
  ghost predicate ReportTraced(s: State, es: seq<Event>, r: Report) {
    r.sender == None ==> r.spent.Some? && exists at :: Issued(s, es, r.spent.value, at) && r.at < at + 900
  }

  ghost predicate Traced(s: State, es: seq<Event>, end: State) {
    && (forall t | t in end.capabilities :: CapabilityTraced(s, es, t, end.capabilities[t]))
    && (forall r | r in end.reports :: ReportTraced(s, es, r))
  }

  lemma IssuedStays(s: State, es: seq<Event>, e: Event, t: Token, at: Time)
    requires Issued(s, es, t, at)
    ensures Issued(s, es + [e], t, at)
  {
    var i: nat :| IssuedBy(s, es, i, t, at);
    assert (es + [e])[..i] == es[..i];
    assert IssuedBy(s, es + [e], i, t, at);
  }

  lemma TracedStays(s: State, es: seq<Event>, e: Event, end: State)
    requires Traced(s, es, end)
    ensures Traced(s, es + [e], end)
  {
    forall t | t in end.capabilities
      ensures CapabilityTraced(s, es + [e], t, end.capabilities[t])
    {
      assert CapabilityTraced(s, es, t, end.capabilities[t]);
      IssuedStays(s, es, e, t, end.capabilities[t].createdAt);
    }
    forall r | r in end.reports
      ensures ReportTraced(s, es + [e], r)
    {
      assert ReportTraced(s, es, r);
      if r.sender == None {
        var at :| Issued(s, es, r.spent.value, at) && r.at < at + 900;
        IssuedStays(s, es, e, r.spent.value, at);
      }
    }
  }

  lemma IssuesNow(s: State, es: seq<Event>, e: Event, t: Token, at: Time)
    requires match e
             case Submitting(q) =>
               q.user == None && q.replacement == t && q.now == at && Submit(Run(s, es), q).Accepted?
             case Minting(now, token, presented) => token == t && now == at && Mints(Run(s, es), now, token, presented)
             case _ => false
    ensures Issued(s, es + [e], t, at)
  {
    assert (es + [e])[..|es|] == es;
    assert IssuedBy(s, es + [e], |es|, t, at);
  }

  lemma TurnedTraced(s: State, es: seq<Event>, before: map<Token, Capability>, after: map<Token, Capability>,
                     spent: Option<Token>, issued: Option<Token>, now: Time)
    requires forall t | t in before :: CapabilityTraced(s, es, t, before[t])
    requires CapabilitiesTurned(before, after, spent, issued, now)
    requires issued.Some? ==> Issued(s, es, issued.value, now)
    ensures forall t | t in after :: CapabilityTraced(s, es, t, after[t])
  {
    forall t | t in after
      ensures CapabilityTraced(s, es, t, after[t])
    {
      assert t in before ==> CapabilityTraced(s, es, t, before[t]);
    }
  }

  lemma TracedSubmit(s: State, es: seq<Event>, q: Request)
    requires Traced(s, es, Run(s, es)) && Submit(Run(s, es), q).Accepted?
    ensures Traced(s, es + [Submitting(q)], Submit(Run(s, es), q).state)
  {
    var e, before := Submitting(q), Run(s, es);
    var after := Submit(before, q).state;
    TracedStays(s, es, e, before);
    AcceptedRows(before, q);
    if q.user == None {
      AnonymousReplies(before, q);
      var t := q.presented.value;
      assert CapabilityTraced(s, es + [e], t, before.capabilities[t]);
      IssuesNow(s, es, e, q.replacement, q.now);
      TurnedTraced(s, es + [e], before.capabilities, after.capabilities, q.presented, Some(q.replacement), q.now);
    }
    forall r | r in after.reports
      ensures ReportTraced(s, es + [e], r)
    {
    }
  }

  lemma TracedMint(s: State, es: seq<Event>, now: Time, token: Token, presented: Option<Token>)
    requires Traced(s, es, Run(s, es)) && Mint(Run(s, es), now, token, presented).Accepted?
    ensures Traced(s, es + [Minting(now, token, presented)], Mint(Run(s, es), now, token, presented).state)
  {
    var e, before := Minting(now, token, presented), Run(s, es);
    var after := Mint(before, now, token, presented).state;
    TracedStays(s, es, e, before);
    MintReplies(before, now, token, presented);
    if Mints(before, now, token, presented) {
      IssuesNow(s, es, e, token, now);
    }
    TurnedTraced(s, es + [e], before.capabilities, after.capabilities, None,
                 if Mints(before, now, token, presented) then Some(token) else None, now);
  }

  lemma TracedForget(s: State, es: seq<Event>, end: State, user: User)
    requires Traced(s, es, end)
    ensures forall r | r in Forget(end.reports, user) :: ReportTraced(s, es, r)
  {
    var after := Forget(end.reports, user);
    forall r | r in after
      ensures ReportTraced(s, es, r)
    {
      var i :| 0 <= i < |after| && after[i] == r;
      assert end.reports[i] in end.reports;
      assert ReportTraced(s, es, end.reports[i]);
    }
  }

  lemma TracedStep(s: State, es: seq<Event>, e: Event)
    requires Traced(s, es, Run(s, es))
    ensures Traced(s, es + [e], Step(Run(s, es), e))
  {
    TracedStays(s, es, e, Run(s, es));
    match e
    case Submitting(q) =>
      if Submit(Run(s, es), q).Accepted? {
        TracedSubmit(s, es, q);
      }
    case Minting(now, token, presented) =>
      if Mint(Run(s, es), now, token, presented).Accepted? {
        TracedMint(s, es, now, token, presented);
      }
    case DeletingUser(user) => TracedForget(s, es + [e], Run(s, es), user);
    case Restricting(_, _) =>
  }

  lemma {:induction false} RunSnoc(s: State, es: seq<Event>, e: Event)
    ensures Run(s, es + [e]) == Step(Run(s, es), e)
    decreases |es|
  {
    if es == [] {
      assert es + [e] == [e];
      assert Run(Step(s, e), []) == Step(s, e);
    } else {
      assert (es + [e])[0] == es[0] && (es + [e])[1..] == es[1..] + [e];
      RunSnoc(Step(s, es[0]), es[1..], e);
    }
  }

  lemma {:induction false} TracedRun(s: State, es: seq<Event>)
    requires Initial(s)
    ensures Traced(s, es, Run(s, es))
    decreases |es|
  {
    if es != [] {
      var n := |es| - 1;
      TracedRun(s, es[..n]);
      TracedStep(s, es[..n], es[n]);
      RunSnoc(s, es[..n], es[n]);
      assert es[..n] + [es[n]] == es;
    }
  }

  /** In every run, an anonymous report was sent within 15 minutes of the issue of the capability it spent. */
  lemma CapabilityAgeTheorem(s: State, es: seq<Event>, r: Report) returns (i: nat, at: Time)
    requires Initial(s) && r in Run(s, es).reports && r.sender == None
    ensures r.spent.Some? && IssuedBy(s, es, i, r.spent.value, at) && r.at < at + 900
  {
    TracedRun(s, es);
    assert ReportTraced(s, es, r);
    at :| Issued(s, es, r.spent.value, at) && r.at < at + 900;
    i :| IssuedBy(s, es, i, r.spent.value, at);
  }
}
