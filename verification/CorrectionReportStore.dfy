/** The submit and mint transactions as they update the tables, with rollback on every refusal. */
module CorrectionReportStore {
  import opened Common
  import opened CorrectionReports

  class Tables {
    var events: set<EventId>
    var users: set<User>
    var restricted: map<User, Time>
    var reports: seq<Report>
    var digests: map<Digest, Time>
    var capabilities: map<Token, Capability>
    var issued: set<Token>

    function Contents(): State
      reads this
    {
      State(events, users, restricted, reports, digests, capabilities, issued)
    }

    /** UPDATE ... RETURNING: a usable capability is consumed, anything else changes nothing. */
    method ConsumeCapability(presented: Option<Token>, now: Time) returns (refusal: Option<Refusal>)
      modifies this`capabilities
      ensures refusal.None? <==>
              && presented.Some? && presented.value in old(capabilities)
              && old(capabilities)[presented.value].consumedAt == None
              && now < old(capabilities)[presented.value].expiresAt
      ensures refusal.Some? ==> refusal.value == if presented.None? then CapabilityRequired else CapabilityExpired
      ensures capabilities ==
              if refusal.Some? then old(capabilities)
              else old(capabilities)[presented.value := old(capabilities)[presented.value].(consumedAt := Some(now))]
    {
      if presented.None? {
        return Some(CapabilityRequired);
      }
      var t := presented.value;
      if t !in capabilities || capabilities[t].consumedAt.Some? || capabilities[t].expiresAt <= now {
        return Some(CapabilityExpired);
      }
      capabilities := capabilities[t := capabilities[t].(consumedAt := Some(now))];
      refusal := None;
    }

    /** INSERT of a capability; the refusal is the key violation. */
    method StoreCapability(t: Token, now: Time) returns (refusal: Option<Refusal>)
      modifies this`capabilities, this`issued
      ensures refusal == if t in old(capabilities) then Some(TokenTaken) else None
      ensures Contents() == if refusal.Some? then old(Contents()) else Issue(old(Contents()), old(capabilities), t, now)
    {
      if t in capabilities {
        return Some(TokenTaken);
      }
      capabilities := capabilities[t := Capability(now, now + WINDOW, None)];
      issued := issued + {t};
      refusal := None;
    }

    method Admit(q: Request) returns (refusal: Option<Refusal>)
      modifies this`capabilities, this`issued
      ensures var o := if q.user.None? then AdmitAnonymous(old(Contents()), q)
                       else AdmitUser(old(Contents()), q, q.user.value);
              match o
              case Accepted(after) => refusal.None? && Contents() == after
              case Refused(r) => refusal == Some(r)
    {
      if q.user.None? {
        refusal := ConsumeCapability(q.presented, q.now);
        if refusal.Some? {
          return;
        }
        if Count(reports, Recent(q.event, None, q.now)) >= ANONYMOUS_LIMIT {
          return Some(LimitReached);
        }
        capabilities := PurgeCapabilities(capabilities, q.now);
        refusal := StoreCapability(q.replacement, q.now);
      } else {
        var user := q.user.value;
        if user in restricted && restricted[user] > q.now {
          return Some(Unavailable);
        }
        if Count(reports, Recent(q.event, Some(user), q.now)) >= USER_LIMIT {
          return Some(LimitReached);
        }
        refusal := None;
      }
    }

    /** submit: commits exactly what Submit says, and a refusal leaves every table as it was. */
    method SubmitReport(q: Request) returns (refusal: Option<Refusal>)
      modifies this
      ensures Contents() == Settle(old(Contents()), Submit(old(Contents()), q))
      ensures refusal == match Submit(old(Contents()), q) case Accepted(_) => None case Refused(r) => Some(r)
    {
      var before := Contents();
      refusal := Try(q);
      if refusal.Some? {
        Rollback(before);
      }
    }

    method Try(q: Request) returns (refusal: Option<Refusal>)
      modifies this
      ensures match Submit(old(Contents()), q)
              case Accepted(after) => refusal.None? && Contents() == after
              case Refused(r) => refusal == Some(r)
    {
      if q.event !in events {
        return Some(NoEvent);
      }
      refusal := Admit(q);
      if refusal.Some? {
        return;
      }
      digests := PurgeDigests(digests, q.now);
      if q.digest in digests {
        return Some(AlreadyReceived);
      }
      digests := digests[q.digest := q.now + WINDOW];
      if q.user.Some? && q.user.value !in users {
        return Some(NoUser);
      }
      reports := reports + [Report(q.event, q.user, q.user, q.now, q.digest,
                                   if q.user.None? then q.presented else None)];
      refusal := None;
    }

    method Rollback(before: State)
      modifies this
      ensures Contents() == before
    {
      events, users, restricted, reports := before.events, before.users, before.restricted, before.reports;
      digests, capabilities, issued := before.digests, before.capabilities, before.issued;
    }

    /** mintAnonymousCapability; `minted` is false when the presented capability is still usable. */
    method MintCapability(now: Time, token: Token, presented: Option<Token>)
        returns (minted: bool, refusal: Option<Refusal>)
      modifies this
      ensures Contents() == Settle(old(Contents()), Mint(old(Contents()), now, token, presented))
      ensures refusal == match Mint(old(Contents()), now, token, presented)
                         case Accepted(_) => None
                         case Refused(r) => Some(r)
      ensures minted ==> token in capabilities && capabilities[token] == Capability(now, now + WINDOW, None)
      ensures !minted && refusal.None? ==>
                && presented.Some? && presented.value in capabilities
                && capabilities[presented.value].consumedAt == None && now < capabilities[presented.value].expiresAt
    {
      var before := Contents();
      capabilities := PurgeCapabilities(capabilities, now);
      if presented.Some? && presented.value in capabilities && Usable(capabilities[presented.value], now) {
        return false, None;
      }
      if |CreatedAfter(capabilities, now - MINUTE)| >= MINT_LIMIT {
        Rollback(before);
        return false, Some(LimitReached);
      }
      refusal := StoreCapability(token, now);
      if refusal.Some? {
        Rollback(before);
      }
      minted := refusal.None?;
    }
  }
}
