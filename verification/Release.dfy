// What a release, a warning, an invitation and a changed contact write to the
// outbox, in the transaction that makes the change.

module Release {
  import opened Wrappers
  import opened Collections
  import opened Tables
  import opened Delivery
  import opened Heartbeat
  import opened Beneficiaries
  import opened Requests

  // The order in which the database returns the beneficiaries.
  predicate Lists(listing: seq<int>, people: map<int, Beneficiary>) {
    && Distinct(listing)
    && (forall b :: b in people ==> b in listing)
    && (forall b :: b in listing ==> b in people)
  }

  function PersonOf(r: Rows, b: int): Recipient
    requires b in r.people
  {
    Person(b, r.people[b].contactRevision)
  }

  predicate HasPhone(p: Beneficiary) {
    p.phone.Some? && p.phone.value != ""
  }

  function NoticesFor(r: Rows, b: int, sms: bool): seq<Addressee> {
    if b !in r.people || r.people[b].invitation != Accepted then []
    else if sms && HasPhone(r.people[b]) then [Addressee(PersonOf(r, b), Email), Addressee(PersonOf(r, b), Sms)]
    else [Addressee(PersonOf(r, b), Email)]
  }

  // Everyone who has accepted, by e-mail, and by text message if enabled.
  function Notices(r: Rows, listing: seq<int>, sms: bool): seq<Addressee>
    decreases |listing|
  {
    if listing == [] then []
    else Notices(r, listing[..|listing| - 1], sms) + NoticesFor(r, listing[|listing| - 1], sms)
  }

  // release_locked: warnings are cancelled and the release is announced.
  function AnnounceRelease(r: Rows, b: Outbox, listing: seq<int>, sms: bool, now: Time): Outbox {
    Announce(CancelWarnings(b), Event(ReleasedEvent, r.status.version), Notices(r, listing, sms), now, None)
  }

  function WarnOnce(r: Rows, b: Outbox, k: Kind, listing: seq<int>, now: Time): Outbox {
    var e := Event(k, r.status.episode);
    if HasEvent(b, e) then b
    else Announce(b, e, [Addressee(Owner, Email)] + Notices(r, listing, false), now, None)
  }

  // The warnings due at now for a vault in grace.
  function WarningKinds(r: Rows, now: Time): seq<Kind>
    requires r.config.Some? && r.config.value.lastCheckIn.Some? && r.status.graceStarted.Some?
  {
    var c := r.config.value;
    if ReleaseTime(c) <= now then []
    else
      [GraceFirst]
      + (if now >= r.status.graceStarted.value + 3 * DAY && c.grace > 3 then [GraceSecond] else [])
      + (if ReleaseTime(c) <= now + DAY then [GraceFinal] else [])
  }

  function WarnAll(r: Rows, b: Outbox, kinds: seq<Kind>, listing: seq<int>, now: Time): Outbox
    decreases |kinds|
  {
    if kinds == [] then b
    else WarnOnce(r, WarnAll(r, b, kinds[..|kinds| - 1], listing, now), kinds[|kinds| - 1], listing, now)
  }

  function StageWarning(r: Rows, b: Outbox, listing: seq<int>, now: Time): Outbox {
    if r.config.Some? && r.config.value.lastCheckIn.Some? && r.status.graceStarted.Some? then
      WarnAll(r, b, WarningKinds(r, now), listing, now)
    else b
  }

  // s is what the request committed, from r.
  function Announced(r: Rows, s: Rows, b: Outbox, q: Request, listing: seq<int>, sms: bool): Outbox {
    match q
    case InvitePerson(id, token, now) =>
      if id in s.people then
        Announce(CancelRecipient(b, id), Event(InvitationEvent, s.status.version),
                 [Addressee(PersonOf(s, id), Email)], now, Some(now + INVITATION_LIFE))
      else b
    case UpdatePerson(id, change) =>
      if id in r.people && ChangesContact(r, id, change) then CancelRecipient(b, id) else b
    case DeletePerson(id) => CancelRecipient(b, id)
    case SaveSettings(settings, now) => CancelWarnings(b)
    case RecordCheckIn(now) => CancelWarnings(b)
    case Trigger(reason, now, hold) =>
      if r.status.state != Triggered && s.status.state == Triggered then AnnounceRelease(s, b, listing, sms, now) else b
    case Check(now, hold) =>
      if s.status.state == Triggered then AnnounceRelease(s, b, listing, sms, now)
      else StageWarning(s, b, listing, now)
    case _ => b
  }
}
