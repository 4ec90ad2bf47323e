/**
 Correction reports: sliding-window limits, single-use capabilities and content deduplication.
 Every transaction brings its own now(), and commits in an order unrelated to those readings.
 */
module CorrectionReports {
  import opened Common

  type User = nat
  type EventId = nat
  type Token = nat
  type Digest = nat

  const MINUTE: int := 60
  const WINDOW: int := 15 * MINUTE
  const HOUR: int := 60 * MINUTE
  const ANONYMOUS_LIMIT: nat := 20
  const USER_LIMIT: nat := 5
  const MINT_LIMIT: nat := 120

  /**
   A committed report. `sender` is who sent it; `shown` is the table's reporter column, which an
   account deletion sets to NULL. `spent` is the capability an anonymous sender presented.
   */
  datatype Report = Report(
    event: EventId, sender: Option<User>, shown: Option<User>, at: Time, digest: Digest, spent: Option<Token>)

  datatype Capability = Capability(createdAt: Time, expiresAt: Time, consumedAt: Option<Time>)

  /** `reports` in commit order; `issued` is every capability ever stored. */
  datatype State = State(
    events: set<EventId>, users: set<User>, restricted: map<User, Time>,
    reports: seq<Report>, digests: map<Digest, Time>, capabilities: map<Token, Capability>, issued: set<Token>)

  datatype Request = Request(
    now: Time, event: EventId, user: Option<User>, digest: Digest, presented: Option<Token>, replacement: Token)

  datatype Refusal =
    | NoEvent
    | NoUser
    | CapabilityRequired
    | CapabilityExpired
    | LimitReached
    | Unavailable
    | AlreadyReceived
    | TokenTaken

  datatype Outcome = Accepted(state: State) | Refused(refusal: Refusal)

  // ---------------------------------------------------------------- transactions

  function Count(reports: seq<Report>, p: Report -> bool): nat {
    if reports == [] then 0
    else Count(reports[..|reports| - 1], p) + (if p(reports[|reports| - 1]) then 1 else 0)
  }

  /** The rows the limit query counts. */
  function Recent(event: EventId, user: Option<User>, now: Time): Report -> bool {
    (r: Report) => (if user.None? then r.shown.None? && r.event == event else r.shown == user) && r.at > now - WINDOW
  }

  predicate Usable(c: Capability, now: Time) {
    c.consumedAt.None? && c.expiresAt > now
  }

  function PurgeCapabilities(cs: map<Token, Capability>, now: Time): map<Token, Capability> {
    map t | t in cs && !(cs[t].expiresAt <= now || (cs[t].consumedAt.Some? && cs[t].consumedAt.value < now - HOUR)) ::
      cs[t]
  }

  function PurgeDigests(ds: map<Digest, Time>, now: Time): map<Digest, Time> {
    map d | d in ds && ds[d] > now :: ds[d]
  }

  function Issue(s: State, cs: map<Token, Capability>, t: Token, now: Time): State {
    s.(capabilities := cs[t := Capability(now, now + WINDOW, None)], issued := s.issued + {t})
  }

  /** The anonymous branch: consume the capability, check the event's limit, purge, issue the replacement. */
  function AdmitAnonymous(s: State, q: Request): Outcome {
    if q.presented.None? then Refused(CapabilityRequired)
    else if q.presented.value !in s.capabilities || !Usable(s.capabilities[q.presented.value], q.now)
    then Refused(CapabilityExpired)
    else
      var t := q.presented.value;
      var consumed := s.capabilities[t := s.capabilities[t].(consumedAt := Some(q.now))];
      if Count(s.reports, Recent(q.event, None, q.now)) >= ANONYMOUS_LIMIT then Refused(LimitReached)
      else
        var kept := PurgeCapabilities(consumed, q.now);
        if q.replacement in kept then Refused(TokenTaken) else Accepted(Issue(s, kept, q.replacement, q.now))
  }

  function AdmitUser(s: State, q: Request, user: User): Outcome {
    if user in s.restricted && s.restricted[user] > q.now then Refused(Unavailable)
    else if Count(s.reports, Recent(q.event, Some(user), q.now)) >= USER_LIMIT then Refused(LimitReached)
    else Accepted(s)
  }

  /** Purge old content, claim the digest, store the report. */
  function Store(s: State, q: Request): Outcome {
    var digests := PurgeDigests(s.digests, q.now);
    if q.digest in digests then Refused(AlreadyReceived)
    else if q.user.Some? && q.user.value !in s.users then Refused(NoUser)
    else
      var report := Report(q.event, q.user, q.user, q.now, q.digest, if q.user.None? then q.presented else None);
      Accepted(s.(digests := digests[q.digest := q.now + WINDOW], reports := s.reports + [report]))
  }

  /** submit: one transaction, so a refusal leaves no trace. */
  function Submit(s: State, q: Request): Outcome {
    if q.event !in s.events then Refused(NoEvent)
    else
      var admitted := if q.user.None? then AdmitAnonymous(s, q) else AdmitUser(s, q, q.user.value);
      match admitted
      case Refused(_) => admitted
      case Accepted(s') => Store(s', q)
  }

  function CreatedAfter(cs: map<Token, Capability>, t: Time): set<Token> {
    set k | k in cs && cs[k].createdAt > t
  }

  /** mintAnonymousCapability: nothing to do for a usable capability, else at most 120 a minute. */
  function Mint(s: State, now: Time, token: Token, presented: Option<Token>): Outcome {
    var kept := PurgeCapabilities(s.capabilities, now);
    if presented.Some? && presented.value in kept && Usable(kept[presented.value], now)
      then Accepted(s.(capabilities := kept))
    else if |CreatedAfter(kept, now - MINUTE)| >= MINT_LIMIT then Refused(LimitReached)
    else if token in kept then Refused(TokenTaken)
    else Accepted(Issue(s, kept, token, now))
  }

  /** ON DELETE SET NULL on the reporter. */
  function Forget(reports: seq<Report>, user: User): (after: seq<Report>)
    ensures |after| == |reports|
    ensures forall i | 0 <= i < |reports| ::
              after[i] == if reports[i].shown == Some(user) then reports[i].(shown := None) else reports[i]
  {
    seq(|reports|, i requires 0 <= i < |reports| =>
      if reports[i].shown == Some(user) then reports[i].(shown := None) else reports[i])
  }

  datatype Event =
    | Submitting(q: Request)
    | Minting(now: Time, token: Token, presented: Option<Token>)
    | DeletingUser(user: User)
    | Restricting(user: User, until: Time)

  function Settle(s: State, o: Outcome): State {
    match o
    case Accepted(after) => after
    case Refused(_) => s
  }

  function Step(s: State, e: Event): State {
    match e
    case Submitting(q) => Settle(s, Submit(s, q))
    case Minting(now, token, presented) => Settle(s, Mint(s, now, token, presented))
    case DeletingUser(user) =>
      s.(users := s.users - {user}, reports := Forget(s.reports, user), restricted := s.restricted - {user})
    case Restricting(user, until) => s.(restricted := s.restricted[user := until])
  }

  function Run(s: State, es: seq<Event>): State
    decreases |es|
  {
    if es == [] then s else Run(Step(s, es[0]), es[1..])
  }

  ghost predicate Initial(s: State) {
    s.reports == [] && s.digests == map[] && s.capabilities == map[] && s.issued == {}
  }

  // ---------------------------------------------------------------- sliding windows

  /** Anonymous reports on an event, or a user's reports, committed with now() in the 15 minutes after `t`. */
  function InWindow(event: EventId, user: Option<User>, t: Time): Report -> bool {
    (r: Report) => (if user.None? then r.sender.None? && r.event == event else r.sender == user) &&
      t < r.at <= t + WINDOW
  }

  lemma {:induction false} CountMonotone(xs: seq<Report>, ys: seq<Report>, p: Report -> bool, q: Report -> bool)
    requires |xs| == |ys| && forall i | 0 <= i < |xs| :: p(xs[i]) ==> q(ys[i])
    ensures Count(xs, p) <= Count(ys, q)
    decreases |xs|
  {
    if xs != [] {
      var n := |xs| - 1;
      assert forall i | 0 <= i < n :: xs[..n][i] == xs[i] && ys[..n][i] == ys[i];
      CountMonotone(xs[..n], ys[..n], p, q);
    }
  }

  lemma CountAppend(xs: seq<Report>, r: Report, p: Report -> bool)
    ensures Count(xs + [r], p) == Count(xs, p) + (if p(r) then 1 else 0)
  {
    assert (xs + [r])[..|xs|] == xs;
  }

  /** The reporter column shows the sender for as long as the account exists. */
  ghost predicate Shown(s: State) {
    forall r | r in s.reports :: (r.sender.None? ==> r.shown.None?) &&
      (r.sender.Some? && r.sender.value in s.users ==> r.shown == r.sender)
  }

  function LimitOf(user: Option<User>): nat {
    if user.None? then ANONYMOUS_LIMIT else USER_LIMIT
  }

  ghost predicate Limited(s: State) {
    forall event, user, t :: Count(s.reports, InWindow(event, user, t)) <= LimitOf(user)
  }

  /** What an accepted submission did. */
  lemma SubmitAppends(s: State, q: Request)
    requires Submit(s, q).Accepted?
    ensures var after := Submit(s, q).state;
            && after.reports == s.reports +
               [Report(q.event, q.user, q.user, q.now, q.digest, if q.user.None? then q.presented else None)]
            && Count(s.reports, Recent(q.event, q.user, q.now)) < LimitOf(q.user)
            && (q.user.Some? ==> q.user.value in s.users)
            && after.users == s.users
            && q.digest !in PurgeDigests(s.digests, q.now)
            && after.digests == PurgeDigests(s.digests, q.now)[q.digest := q.now + WINDOW]
  {
  }

  lemma SubmitKeepsLimit(s: State, q: Request, event: EventId, user: Option<User>, t: Time)
    requires Limited(s) && Shown(s) && Submit(s, q).Accepted?
    ensures Count(Submit(s, q).state.reports, InWindow(event, user, t)) <= LimitOf(user)
  {
    SubmitAppends(s, q);
    var r := Report(q.event, q.user, q.user, q.now, q.digest, if q.user.None? then q.presented else None);
    var window, recent := InWindow(event, user, t), Recent(q.event, q.user, q.now);
    CountAppend(s.reports, r, window);
    if window(r) {
      forall i | 0 <= i < |s.reports| && window(s.reports[i])
        ensures recent(s.reports[i])
      {
        assert s.reports[i] in s.reports;
      }
      CountMonotone(s.reports, s.reports, window, recent);
    }
  }

  lemma WindowsKept(s: State, e: Event)
    requires Limited(s) && Shown(s)
    ensures Limited(Step(s, e)) && Shown(Step(s, e))
  {
    var after := Step(s, e);
    match e
    case Submitting(q) =>
      if Submit(s, q).Accepted? {
        SubmitAppends(s, q);
        forall event, user, t
          ensures Count(after.reports, InWindow(event, user, t)) <= LimitOf(user)
        {
          SubmitKeepsLimit(s, q, event, user, t);
        }
      }
    case DeletingUser(gone) =>
      forall event, user, t
        ensures Count(after.reports, InWindow(event, user, t)) <= LimitOf(user)
      {
        CountMonotone(after.reports, s.reports, InWindow(event, user, t), InWindow(event, user, t));
      }
      forall r | r in after.reports
        ensures (r.sender.None? ==> r.shown.None?) &&
                (r.sender.Some? && r.sender.value in after.users ==> r.shown == r.sender)
      {
        var i :| 0 <= i < |after.reports| && after.reports[i] == r;
        assert s.reports[i] in s.reports;
      }
    case _ =>
      assert after.reports == s.reports && after.users == s.users;
  }

  lemma {:induction false} WindowsRun(s: State, es: seq<Event>)
    requires Limited(s) && Shown(s)
    ensures Limited(Run(s, es))
    decreases |es|
  {
    if es != [] {
      WindowsKept(s, es[0]);
      WindowsRun(Step(s, es[0]), es[1..]);
    }
  }

  /**
   In every run, every 15-minute window holds at most 20 reports committed anonymously on one
   event and at most 5 committed by one user, whatever the order of the now() readings.
   */
  lemma WindowTheorem(s: State, es: seq<Event>, event: EventId, user: Option<User>, t: Time)
    requires Initial(s)
    ensures Count(Run(s, es).reports, InWindow(event, user, t)) <= (if user.None? then 20 else 5)
  {
    WindowsRun(s, es);
  }

  // ---------------------------------------------------------------- content deduplication

  /** The recent-content table as the committed reports alone determine it. */
  function DigestsOf(reports: seq<Report>): map<Digest, Time> {
    if reports == [] then map[]
    else
      var r := reports[|reports| - 1];
      PurgeDigests(DigestsOf(reports[..|reports| - 1]), r.at)[r.digest := r.at + WINDOW]
  }

  /** No report was committed while the table held its digest. */
  ghost predicate NewContent(reports: seq<Report>, j: nat)
    requires j < |reports|
  {
    reports[j].digest !in PurgeDigests(DigestsOf(reports[..j]), reports[j].at)
  }

  ghost predicate Deduped(reports: seq<Report>) {
    forall j | 0 <= j < |reports| :: NewContent(reports, j)
  }

  ghost predicate Tracked(s: State) {
    s.digests == DigestsOf(s.reports) && Deduped(s.reports)
  }

  lemma {:induction false} SameContent(xs: seq<Report>, ys: seq<Report>)
    requires |xs| == |ys| && forall i | 0 <= i < |xs| :: xs[i].at == ys[i].at && xs[i].digest == ys[i].digest
    ensures DigestsOf(xs) == DigestsOf(ys)
    decreases |xs|
  {
    if xs != [] {
      var n := |xs| - 1;
      assert forall i | 0 <= i < n :: xs[..n][i] == xs[i] && ys[..n][i] == ys[i];
      SameContent(xs[..n], ys[..n]);
    }
  }

  lemma ForgetKeepsTracked(reports: seq<Report>, user: User)
    requires Deduped(reports)
    ensures DigestsOf(Forget(reports, user)) == DigestsOf(reports) && Deduped(Forget(reports, user))
  {
    var after := Forget(reports, user);
    SameContent(after, reports);
    forall j | 0 <= j < |reports|
      ensures NewContent(after, j)
    {
      assert NewContent(reports, j);
      SameContent(after[..j], reports[..j]);
    }
  }

  lemma TrackedAppend(reports: seq<Report>, r: Report)
    requires Deduped(reports) && r.digest !in PurgeDigests(DigestsOf(reports), r.at)
    ensures Deduped(reports + [r])
    ensures DigestsOf(reports + [r]) == PurgeDigests(DigestsOf(reports), r.at)[r.digest := r.at + WINDOW]
  {
    var after := reports + [r];
    assert after[..|reports|] == reports;
    forall j | 0 <= j < |reports|
      ensures NewContent(after, j)
    {
      assert NewContent(reports, j);
      assert after[..j] == reports[..j];
    }
  }

  lemma TrackedSubmit(s: State, q: Request)
    requires Tracked(s) && Submit(s, q).Accepted?
    ensures Tracked(Submit(s, q).state)
  {
    SubmitAppends(s, q);
    var reports := Submit(s, q).state.reports;
    TrackedAppend(s.reports, reports[|s.reports|]);
  }

  lemma TrackedKept(s: State, e: Event)
    requires Tracked(s)
    ensures Tracked(Step(s, e))
  {
    match e
    case Submitting(q) =>
      if Submit(s, q).Accepted? {
        TrackedSubmit(s, q);
      }
    case DeletingUser(user) => ForgetKeepsTracked(s.reports, user);
    case _ =>
      assert Step(s, e).reports == s.reports && Step(s, e).digests == s.digests;
  }

  lemma {:induction false} TrackedRun(s: State, es: seq<Event>)
    requires Tracked(s)
    ensures Tracked(Run(s, es))
    decreases |es|
  {
    if es != [] {
      TrackedKept(s, es[0]);
      TrackedRun(Step(s, es[0]), es[1..]);
    }
  }

  lemma DigestsStep(reports: seq<Report>, n: nat)
    requires n < |reports|
    ensures DigestsOf(reports[..n + 1]) ==
            PurgeDigests(DigestsOf(reports[..n]), reports[n].at)[reports[n].digest := reports[n].at + WINDOW]
  {
    assert reports[..n + 1][..n] == reports[..n];
  }

  /** Until a report with a clock 15 minutes ahead commits, the digest of report i stays and keeps others out. */
  lemma {:induction false} Persists(reports: seq<Report>, i: nat, n: nat)
    requires Deduped(reports) && i < n <= |reports|
    requires forall k | i < k < n :: reports[k].at < reports[i].at + WINDOW
    ensures reports[i].digest in DigestsOf(reports[..n]) &&
            DigestsOf(reports[..n])[reports[i].digest] == reports[i].at + WINDOW
    ensures forall k | i < k < n :: reports[k].digest != reports[i].digest
    decreases n
  {
    DigestsStep(reports, n - 1);
    if n - 1 > i {
      Persists(reports, i, n - 1);
      assert NewContent(reports, n - 1);
    }
  }

  lemma {:induction false} Origin(reports: seq<Report>, d: Digest) returns (i: nat)
    requires d in DigestsOf(reports)
    ensures i < |reports| && reports[i].digest == d && DigestsOf(reports)[d] == reports[i].at + WINDOW
    ensures forall k | i < k < |reports| :: reports[k].at < reports[i].at + WINDOW
    decreases |reports|
  {
    var n := |reports| - 1;
    if reports[n].digest == d {
      i := n;
    } else {
      i := Origin(reports[..n], d);
    }
  }

  /** The request got past its event, limit and capability checks. */
  predicate Admitted(s: State, q: Request) {
    q.event in s.events && (if q.user.None? then AdmitAnonymous(s, q) else AdmitUser(s, q, q.user.value)).Accepted?
  }

  /**
   Some report has this content, is less than 15 minutes old by `now`, and none committed since is 15
   minutes ahead of it.
   */
  ghost predicate Remembered(reports: seq<Report>, d: Digest, now: Time) {
    exists i | 0 <= i < |reports| ::
      && reports[i].digest == d && now < reports[i].at + WINDOW
      && forall k | i < k < |reports| :: reports[k].at < reports[i].at + WINDOW
  }

  lemma RememberedExactly(reports: seq<Report>, d: Digest, now: Time)
    requires Deduped(reports)
    ensures d in PurgeDigests(DigestsOf(reports), now) <==> Remembered(reports, d, now)
  {
    if d in PurgeDigests(DigestsOf(reports), now) {
      var i := Origin(reports, d);
    }
    if Remembered(reports, d, now) {
      var i :| 0 <= i < |reports| && reports[i].digest == d && now < reports[i].at + WINDOW
        && forall k | i < k < |reports| :: reports[k].at < reports[i].at + WINDOW;
      assert reports[..|reports|] == reports;
      Persists(reports, i, |reports|);
    }
  }

  lemma StoreRefuses(s: State, q: Request)
    requires Admitted(s, q)
    ensures Submit(s, q) == Refused(AlreadyReceived) <==> q.digest in PurgeDigests(s.digests, q.now)
  {
  }

  /** Exactly when a report is turned away as already received, in every reachable state. */
  lemma DuplicateTheorem(s: State, es: seq<Event>, q: Request)
    requires Initial(s) && Admitted(Run(s, es), q)
    ensures Submit(Run(s, es), q) == Refused(AlreadyReceived) <==> Remembered(Run(s, es).reports, q.digest, q.now)
  {
    TrackedRun(s, es);
    RememberedExactly(Run(s, es).reports, q.digest, q.now);
    StoreRefuses(Run(s, es), q);
  }

  /** Two reports of one content are 15 minutes apart, or a report between them ran 15 minutes ahead of the first. */
  lemma SpacingTheorem(s: State, es: seq<Event>, i: nat, j: nat)
    requires Initial(s) && i < j < |Run(s, es).reports|
    requires Run(s, es).reports[i].digest == Run(s, es).reports[j].digest
    ensures exists k | i < k <= j :: Run(s, es).reports[k].at >= Run(s, es).reports[i].at + WINDOW
  {
    TrackedRun(s, es);
    var reports := Run(s, es).reports;
    if forall k | i < k <= j :: reports[k].at < reports[i].at + WINDOW {
      Persists(reports, i, j + 1);
      assert false;
    }
  }

  /** So the promised gap holds if no report between the two has a clock ahead of the second. */
  lemma GapTheorem(s: State, es: seq<Event>, i: nat, j: nat)
    requires Initial(s) && i < j < |Run(s, es).reports|
    requires forall k | i < k < j :: Run(s, es).reports[k].at <= Run(s, es).reports[j].at
    requires Run(s, es).reports[i].digest == Run(s, es).reports[j].digest
    ensures Run(s, es).reports[j].at >= Run(s, es).reports[i].at + WINDOW
  {
    SpacingTheorem(s, es, i, j);
    var k :| i < k <= j && Run(s, es).reports[k].at >= Run(s, es).reports[i].at + WINDOW;
  }

  /** Without it the gap fails: one content, one second apart, while another report's clock ran ahead. */
  lemma SkewBreaksGap(s: State, a: Request, b: Request, c: Request)
    requires Initial(s) && s.events == {1} && s.users == {1, 2} && s.restricted == map[]
    requires a == Request(0, 1, Some(1), 7, None, 0) && b == Request(WINDOW, 1, Some(2), 8, None, 0)
    requires c == Request(1, 1, Some(1), 7, None, 0)
    ensures var reports := Run(s, [Submitting(a), Submitting(b), Submitting(c)]).reports;
            |reports| == 3 && reports[0].digest == reports[2].digest && reports[2].at == reports[0].at + 1
  {
    var r1, r2 := Report(1, Some(1), Some(1), 0, 7, None), Report(1, Some(2), Some(2), WINDOW, 8, None);
    var s1 := Step(s, Submitting(a));
    assert s1.reports == [r1] && s1.digests == map[7 := WINDOW];
    CountBound([r1], Recent(1, Some(2), WINDOW));
    assert PurgeDigests(s1.digests, WINDOW) == map[];
    var s2 := Step(s1, Submitting(b));
    assert s2.reports == [r1, r2] && s2.digests == map[8 := 2 * WINDOW];
    CountBound([r1, r2], Recent(1, Some(1), 1));
    var s3 := Step(s2, Submitting(c));
    assert s3.reports == [r1, r2, Report(1, Some(1), Some(1), 1, 7, None)];
    assert Run(s3, []) == s3;
    assert Run(s2, [Submitting(c)]) == s3;
    assert Run(s1, [Submitting(b), Submitting(c)]) == s3;
  }

  lemma {:induction false} CountBound(xs: seq<Report>, p: Report -> bool)
    ensures Count(xs, p) <= |xs|
    decreases |xs|
  {
    if xs != [] {
      CountBound(xs[..|xs| - 1], p);
    }
  }

  // ---------------------------------------------------------------- capabilities

  /** Tokens are random: no transaction stores one that was stored before. */
  ghost predicate FreshTokens(s: State, e: Event) {
    match e
    case Submitting(q) => q.replacement !in s.issued
    case Minting(_, token, _) => token !in s.issued
    case _ => true
  }

  ghost predicate FreshRun(s: State, es: seq<Event>)
    decreases |es|
  {
    es != [] ==> FreshTokens(s, es[0]) && FreshRun(Step(s, es[0]), es[1..])
  }

  /** Stored tokens were issued; a spent one is consumed if still stored; and no two reports spent the same. */
  ghost predicate Spends(reports: seq<Report>, cs: map<Token, Capability>, issued: set<Token>) {
    && (forall t | t in cs :: t in issued)
    && (forall r | r in reports :: r.sender.None? ==> r.spent.Some?)
    && (forall r | r in reports && r.spent.Some? ::
          r.spent.value in issued && (r.spent.value in cs ==> cs[r.spent.value].consumedAt.Some?))
    && (forall i, j | 0 <= i < j < |reports| && reports[i].spent.Some? :: reports[i].spent != reports[j].spent)
  }

  lemma SpendsSubmit(s: State, q: Request)
    requires Spends(s.reports, s.capabilities, s.issued) && q.replacement !in s.issued && Submit(s, q).Accepted?
    ensures var after := Submit(s, q).state; Spends(after.reports, after.capabilities, after.issued)
  {
    SubmitAppends(s, q);
    var after := Submit(s, q).state;
    assert after.issued == if q.user.None? then s.issued + {q.replacement} else s.issued;
    if q.user.None? {
      var t := q.presented.value;
      assert forall r | r in s.reports :: r.spent != Some(t);
      assert t in after.capabilities ==> after.capabilities[t].consumedAt.Some?;
    }
  }

  lemma SpendsMint(s: State, now: Time, token: Token, presented: Option<Token>)
    requires Spends(s.reports, s.capabilities, s.issued) && token !in s.issued &&
             Mint(s, now, token, presented).Accepted?
    ensures var after := Mint(s, now, token, presented).state; Spends(after.reports, after.capabilities, after.issued)
  {
  }

  lemma SpendsForget(reports: seq<Report>, cs: map<Token, Capability>, issued: set<Token>, user: User)
    requires Spends(reports, cs, issued)
    ensures Spends(Forget(reports, user), cs, issued)
  {
    var after := Forget(reports, user);
    forall r | r in after
      ensures exists o | o in reports :: o.sender == r.sender && o.spent == r.spent
    {
      var i :| 0 <= i < |after| && after[i] == r;
      assert reports[i] in reports;
    }
  }

  lemma SpendsKept(s: State, e: Event)
    requires Spends(s.reports, s.capabilities, s.issued) && FreshTokens(s, e)
    ensures var after := Step(s, e); Spends(after.reports, after.capabilities, after.issued)
  {
    match e
    case Submitting(q) =>
      if Submit(s, q).Accepted? {
        SpendsSubmit(s, q);
      }
    case Minting(now, token, presented) =>
      if Mint(s, now, token, presented).Accepted? {
        SpendsMint(s, now, token, presented);
      }
    case DeletingUser(user) => SpendsForget(s.reports, s.capabilities, s.issued, user);
    case Restricting(_, _) =>
  }

  lemma {:induction false} SpendsRun(s: State, es: seq<Event>)
    requires Spends(s.reports, s.capabilities, s.issued) && FreshRun(s, es)
    ensures var after := Run(s, es); Spends(after.reports, after.capabilities, after.issued)
    decreases |es|
  {
    if es != [] {
      SpendsKept(s, es[0]);
      SpendsRun(Step(s, es[0]), es[1..]);
    }
  }

  /** Every anonymous report spent an issued capability, and no capability admitted two reports. */
  lemma SingleUseTheorem(s: State, es: seq<Event>, i: nat, j: nat)
    requires Initial(s) && FreshRun(s, es) && i < j < |Run(s, es).reports|
    requires Run(s, es).reports[i].sender.None? && Run(s, es).reports[j].sender.None?
    ensures var reports := Run(s, es).reports;
            && reports[i].spent.Some? && reports[i].spent.value in Run(s, es).issued
            && reports[i].spent != reports[j].spent
  {
    SpendsRun(s, es);
    assert Run(s, es).reports[i] in Run(s, es).reports;
  }
}
