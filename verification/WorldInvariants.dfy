// The invariants of rows, outbox and sessions together, over every step.

module WorldInvariants {
  import opened Wrappers
  import opened Tables
  import opened Beneficiaries
  import opened Requests
  import opened Release
  import opened Delivery
  import opened BoxInvariants
  import opened OutboxRuns
  import opened BoxLinks
  import opened ReleaseRuns
  import opened RowInvariants
  import opened Worlds
  import S = Sessions
  import Ceremonies
  import Readiness
  import Heartbeat
  import Evidence

  // ---------------------------------------------------------------------
  // Requests, as far as contacts and the switch go
  // ---------------------------------------------------------------------

  // The request takes id's contact address away.
  predicate DropsContact(r: Rows, q: Request, id: int) {
    || (q.UpdatePerson? && q.id == id && id in r.people && ChangesContact(r, id, q.change))
    || (q.DeletePerson? && q.id == id)
  }

  lemma ContactKept(r: Rows, q: Request, id: int)
    requires id in r.people && !DropsContact(r, q, id)
    ensures id in Next(r, q).people && Next(r, q).people[id].contactRevision == r.people[id].contactRevision
  {
    if q.FinalizeCeremony? {
      hide Ceremonies.Acknowledged, Ceremonies.IndexAbove, Ceremonies.Supersede;
    } else if !Evidence.ForPeople(q) {
      hide Next;
      Evidence.PeopleUnchanged(r, q);
    } else {
      hide InRange, IndexTaken, EmailTaken;
    }
  }

  // The switch moves on without leaving grace or being released.
  predicate Steady(r: Rows, s: Rows) {
    && r.status.version <= s.status.version && r.status.episode <= s.status.episode
    && (r.status.state == Grace ==> s.status.state == Grace && s.status.episode == r.status.episode)
    && (s.status.state == Triggered <==> r.status.state == Triggered)
  }

  predicate Resets(q: Request) {
    q.SaveSettings? || q.RecordCheckIn?
  }

  lemma SteadyUnless(r: Rows, q: Request)
    requires !Resets(q) && !Releases(r, q)
    ensures Steady(r, Next(r, q))
  {
    if !Evidence.ForSwitch(q) {
      hide Next;
      Evidence.SwitchUnchanged(r, q);
    } else {
      hide Readiness.ReleaseReady, Heartbeat.Deadline, Heartbeat.ReleaseTime;
    }
  }

  lemma ResetMoves(r: Rows, q: Request)
    requires Resets(q) && Apply(r, q).Done?
    ensures var s := Next(r, q);
            && r.status.version <= s.status.version && r.status.episode == s.status.episode
            && s.status.state != Triggered && r.status.state != Triggered
  {
    hide Readiness.ReleaseReady;
  }

  lemma ReleaseMoves(r: Rows, q: Request)
    requires Releases(r, q)
    ensures r.status.version <= Next(r, q).status.version && r.status.episode <= Next(r, q).status.episode
    ensures q.Trigger? || q.Check?
    ensures Apply(r, q) == Done(Next(r, q))
  {
    if !Evidence.ForSwitch(q) {
      hide Next;
      Evidence.SwitchUnchanged(r, q);
      assert false;
    } else {
      hide Readiness.ReleaseReady, Heartbeat.Deadline, Heartbeat.ReleaseTime;
    }
  }

  lemma LockMoves(r: Rows)
    ensures Steady(r, Lock(r)) && Lock(r).people == r.people && Lock(r).status.version == r.status.version + 1
  {
  }

  // ---------------------------------------------------------------------
  // The rows move under an outbox that stays
  // ---------------------------------------------------------------------

  lemma MoveLinked(r: Rows, s: Rows, b: Outbox)
    requires Linked(r, b) && ContactOk(s, b) && Steady(r, s)
    ensures Linked(s, b)
  {
    hide ReleasedAt, KeysOk, Current, Warning;
  }

  lemma ContactsMove(r: Rows, q: Request, b: Outbox)
    requires ContactOk(r, b)
    requires forall i :: 0 <= i < |b.jobs| && Live(b.jobs[i]) && b.jobs[i].recipient.Person? ==>
                           !DropsContact(r, q, b.jobs[i].recipient.id)
    ensures ContactOk(Next(r, q), b)
  {
    hide Next, DropsContact;
    forall i | 0 <= i < |b.jobs| && Live(b.jobs[i]) ensures Current(Next(r, q), b.jobs[i].recipient) {
      assert Current(r, b.jobs[i].recipient);
      if b.jobs[i].recipient.Person? {
        ContactKept(r, q, b.jobs[i].recipient.id);
      }
    }
  }

  // No live job is for id.
  predicate Silent(b: Outbox, id: int) {
    forall i :: 0 <= i < |b.jobs| && Live(b.jobs[i]) ==> !Addressed(b.jobs[i], id)
  }

  predicate NoWarnings(b: Outbox) {
    forall i :: 0 <= i < |b.jobs| && Live(b.jobs[i]) ==> !Warns(b, b.jobs[i])
  }

  lemma CancelSilences(b: Outbox, id: int)
    ensures Silent(CancelRecipient(b, id), id) && Onward(b, CancelRecipient(b, id))
  {
    hide Onward;
    CancelOnward(b, j => Addressed(j, id));
  }

  lemma CancelQuiets(b: Outbox)
    ensures NoWarnings(CancelWarnings(b)) && Onward(b, CancelWarnings(b))
  {
    hide Onward, Warning;
    CancelOnward(b, j => Warns(b, j));
  }

  // Any request that writes nothing to the outbox, or cancels one recipient.
  lemma SteadyRoute(r: Rows, q: Request, b: Outbox)
    requires Linked(r, b) && !Resets(q) && !Releases(r, q)
    requires forall id :: DropsContact(r, q, id) ==> Silent(b, id)
    ensures Linked(Next(r, q), b)
  {
    hide Next, Linked, Steady, DropsContact, Resets, Releases, ContactOk, Current;
    SteadyUnless(r, q);
    forall i | 0 <= i < |b.jobs| && Live(b.jobs[i]) && b.jobs[i].recipient.Person?
      ensures !DropsContact(r, q, b.jobs[i].recipient.id)
    {
      assert Addressed(b.jobs[i], b.jobs[i].recipient.id);
    }
    assert ContactOk(r, b) by { LinkedParts(r, b); }
    ContactsMove(r, q, b);
    MoveLinked(r, Next(r, q), b);
  }

  lemma LinkedParts(r: Rows, b: Outbox)
    requires Linked(r, b)
    ensures ContactOk(r, b) && GraceOk(r, b) && EventsOk(r, b) && ReleaseOk(r, b) && KeysOk(b)
  {
  }

  lemma QuietMove(r: Rows, s: Rows, b: Outbox)
    requires Linked(r, b) && NoWarnings(b) && ContactOk(s, b)
    requires r.status.version <= s.status.version && r.status.episode <= s.status.episode
    ensures GraceOk(s, b) && EventsOk(s, b) && KeysOk(b)
    ensures (s.status.state == Triggered <==> r.status.state == Triggered) ==> Linked(s, b)
  {
    hide ReleasedAt, KeysOk, Current, Warning;
  }

  lemma NoDrop(r: Rows, q: Request, id: int)
    requires !q.UpdatePerson? && !q.DeletePerson?
    ensures !DropsContact(r, q, id)
  {
  }

  lemma ResetRoute(r: Rows, q: Request, b: Outbox)
    requires Linked(r, b) && Resets(q) && Apply(r, q).Done?
    ensures Linked(Next(r, q), CancelWarnings(b))
  {
    hide Next, Apply, Linked, ContactOk, CancelWarnings, Onward;
    var c := CancelWarnings(b);
    CancelQuiets(b);
    OnwardLinked(r, b, c);
    LinkedParts(r, c);
    ResetMoves(r, q);
    forall id ensures !DropsContact(r, q, id) { NoDrop(r, q, id); }
    ContactsMove(r, q, c);
    QuietMove(r, Next(r, q), c);
  }

  lemma ReleaseRoute(r: Rows, q: Request, b: Outbox, listing: seq<int>, sms: bool, now: Time)
    requires BoxInv(b) && Linked(r, b) && Releases(r, q) && Lists(listing, Next(r, q).people)
    ensures Linked(Next(r, q), AnnounceRelease(Next(r, q), b, listing, sms, now))
  {
    hide Next, Apply, Linked, ContactOk, CancelWarnings, Onward, BoxInv, Lists, Announce, Notices, Addressable;
    var s, c := Next(r, q), CancelWarnings(b);
    CancelQuiets(b);
    BoxInvariants.CancelKeeps(b, j => Warns(b, j));
    CancelWarningsIs(b);
    OnwardLinked(r, b, c);
    LinkedParts(r, c);
    ReleaseMoves(r, q);
    forall id ensures !DropsContact(r, q, id) { NoDrop(r, q, id); }
    ContactsMove(r, q, c);
    QuietMove(r, s, c);
    NoticesAddressable(s, listing, sms);
    ReleaseLinked(s, c, Event(ReleasedEvent, s.status.version), Notices(s, listing, sms), now);
  }

  lemma CancelWarningsIs(b: Outbox)
    ensures CancelWarnings(b) == CancelWhere(b, j => Warns(b, j))
  {
    hide Warning;
  }

  lemma CancelRecipientIs(b: Outbox, id: int)
    ensures CancelRecipient(b, id) == CancelWhere(b, j => Addressed(j, id))
  {
  }

  // ---------------------------------------------------------------------
  // Warnings
  // ---------------------------------------------------------------------

  lemma NewWarning(r: Rows, b: Outbox, k: Kind, listing: seq<int>, now: Time)
    requires BoxInv(b) && Linked(r, b) && Lists(listing, r.people) && r.status.state == Grace && Warning(k)
    ensures Linked(r, WarnOnce(r, b, k, listing, now))
  {
    hide Linked, BoxInv, Lists, Announce, Notices, HasEvent, Addressable;
    var e := Event(k, r.status.episode);
    if !HasEvent(b, e) {
      NoticesAddressable(r, listing, false);
      AnnouncedLinked(r, b, e, [Addressee(Owner, Email)] + Notices(r, listing, false), now, None);
    }
  }

  lemma WarningKeeps(r: Rows, b: Outbox, k: Kind, listing: seq<int>, now: Time)
    requires BoxInv(b)
    ensures BoxInv(WarnOnce(r, b, k, listing, now))
  {
    hide BoxInv, Announce, Notices, HasEvent;
    AnnounceKeeps(b, Event(k, r.status.episode), [Addressee(Owner, Email)] + Notices(r, listing, false), now, None);
  }

  lemma {:induction false} WarnAllLinked(r: Rows, b: Outbox, kinds: seq<Kind>, listing: seq<int>, now: Time)
    requires BoxInv(b) && Linked(r, b) && Lists(listing, r.people) && r.status.state == Grace
    requires forall i :: 0 <= i < |kinds| ==> Warning(kinds[i])
    ensures BoxInv(WarnAll(r, b, kinds, listing, now)) && Linked(r, WarnAll(r, b, kinds, listing, now))
    decreases |kinds|
  {
    hide BoxInv, Linked, Lists, WarnOnce, Warning;
    if kinds != [] {
      var n := |kinds| - 1;
      WarnAllLinked(r, b, kinds[..n], listing, now);
      NewWarning(r, WarnAll(r, b, kinds[..n], listing, now), kinds[n], listing, now);
      WarningKeeps(r, WarnAll(r, b, kinds[..n], listing, now), kinds[n], listing, now);
    }
  }

  lemma StageLinked(r: Rows, b: Outbox, listing: seq<int>, now: Time)
    requires BoxInv(b) && Linked(r, b) && Lists(listing, r.people) && r.status.state == Grace
    ensures Linked(r, StageWarning(r, b, listing, now)) && BoxInv(StageWarning(r, b, listing, now))
  {
    hide BoxInv, Linked, Lists, WarnAll;
    if r.config.Some? && r.config.value.lastCheckIn.Some? && r.status.graceStarted.Some? {
      WarnAllLinked(r, b, WarningKinds(r, now), listing, now);
    }
  }

  lemma CheckWarns(r: Rows, q: Request)
    requires q.Check? && Apply(r, q).Done? && !Releases(r, q)
    ensures Next(r, q).status.state == Grace && r.status.state != Triggered
  {
    hide Readiness.ReleaseReady, Heartbeat.Deadline, Heartbeat.ReleaseTime;
  }

  // ---------------------------------------------------------------------
  // Invitations and changed contacts
  // ---------------------------------------------------------------------

  // An event numbered by a version not yet committed is new.
  lemma FreshEvent(r: Rows, b: Outbox, e: Event)
    requires EventsOk(r, b) && !Warning(e.kind) && e.revision > r.status.version
    ensures !HasEvent(b, e)
  {
    forall i | 0 <= i < |b.events| ensures b.events[i] != e {
      assert InPast(r, b.events[i]);
    }
  }

  // A new version announces something to one beneficiary.
  lemma OneLinked(r: Rows, s: Rows, b: Outbox, k: Kind, id: int, now: Time, expires: Option<Time>)
    requires BoxInv(b) && Linked(r, b) && Linked(s, b) && id in s.people && s.status.version > r.status.version
    requires k == InvitationEvent || k == LoginEvent
    ensures Linked(s, Announce(b, Event(k, s.status.version), [Addressee(PersonOf(s, id), Email)], now, expires))
  {
    hide BoxInv, Linked, HasEvent, EventsOk, Announce;
    LinkedParts(r, b);
    FreshEvent(r, b, Event(k, s.status.version));
    AnnouncedLinked(s, b, Event(k, s.status.version), [Addressee(PersonOf(s, id), Email)], now, expires);
  }

  lemma InviteMoves(r: Rows, q: Request)
    requires q.InvitePerson? && Apply(r, q).Done?
    ensures q.id in Next(r, q).people && Next(r, q).status.version == r.status.version + 1
    ensures !Releases(r, q)
  {
  }

  lemma InviteRoute(r: Rows, q: Request, b: Outbox)
    requires BoxInv(b) && Linked(r, b) && q.InvitePerson? && Apply(r, q).Done?
    ensures Linked(Next(r, q), Announced(r, Next(r, q), b, q, [], false))
  {
    hide BoxInv, Linked, Next, Apply, CancelRecipient, Announce, Onward, Releases;
    var s, c := Next(r, q), CancelRecipient(b, q.id);
    InviteMoves(r, q);
    CancelSilences(b, q.id);
    BoxInvariants.CancelKeeps(b, j => Addressed(j, q.id));
    CancelRecipientIs(b, q.id);
    OnwardLinked(r, b, c);
    forall id ensures !DropsContact(r, q, id) { NoDrop(r, q, id); }
    SteadyRoute(r, q, c);
    OneLinked(r, s, c, InvitationEvent, q.id, q.now, Some(q.now + INVITATION_LIFE));
  }

  lemma DropRoute(r: Rows, q: Request, b: Outbox)
    requires Linked(r, b) && (q.UpdatePerson? || q.DeletePerson?) && !Releases(r, q)
    ensures Linked(Next(r, q), CancelRecipient(b, q.id))
  {
    hide Linked, Next, CancelRecipient, Onward, Releases, Silent;
    CancelSilences(b, q.id);
    OnwardLinked(r, b, CancelRecipient(b, q.id));
    SteadyRoute(r, q, CancelRecipient(b, q.id));
  }

  lemma OthersNeverRelease(r: Rows, q: Request)
    requires !q.Trigger? && !q.Check?
    ensures !Releases(r, q)
  {
    if Releases(r, q) {
      hide Releases;
      ReleaseMoves(r, q);
    }
  }

  // ---------------------------------------------------------------------
  // Every request
  // ---------------------------------------------------------------------

  lemma RouteLinked(r: Rows, q: Request, b: Outbox, listing: seq<int>, sms: bool)
    requires BoxInv(b) && Linked(r, b) && Apply(r, q).Done? && (ReadsListing(q) ==> Lists(listing, Next(r, q).people))
    ensures Linked(Next(r, q), Announced(r, Next(r, q), b, q, listing, sms))
  {
    hide BoxInv, Linked, Next, Apply, CancelRecipient, CancelWarnings, AnnounceRelease, StageWarning, Lists,
        Announce, Silent;
    var s := Next(r, q);
    if q.Trigger? || q.Check? {
      forall id ensures !DropsContact(r, q, id) { NoDrop(r, q, id); }
      if Releases(r, q) {
        ReleaseRoute(r, q, b, listing, sms, q.now);
      } else {
        SteadyRoute(r, q, b);
        if q.Check? {
          CheckWarns(r, q);
          StageLinked(s, b, listing, q.now);
        }
      }
    } else {
      OthersNeverRelease(r, q);
      if Resets(q) {
        ResetRoute(r, q, b);
      } else if q.InvitePerson? {
        InviteRoute(r, q, b);
      } else if q.DeletePerson? || (q.UpdatePerson? && DropsContact(r, q, q.id)) {
        DropRoute(r, q, b);
      } else {
        SteadyRoute(r, q, b);
      }
    }
  }

  // ---------------------------------------------------------------------
  // What a request announces keeps the outbox's own invariants
  // ---------------------------------------------------------------------

  predicate BoxGood(b: Outbox) {
    BoxInv(b) && OnceInv(b)
  }

  lemma CancelGood(b: Outbox, hit: Job -> bool)
    requires BoxGood(b)
    ensures BoxGood(CancelWhere(b, hit)) && Grows(b, CancelWhere(b, hit))
  {
    BoxInvariants.CancelKeeps(b, hit);
    CancelGrows(b, hit);
    hide BoxInv, OnceInv, Grows;
    OnceKept(b, CancelWhere(b, hit));
  }

  lemma AnnounceGood(b: Outbox, e: Event, to: seq<Addressee>, now: Time, expires: Option<Time>)
    requires BoxGood(b)
    ensures BoxGood(Announce(b, e, to, now, expires)) && Grows(b, Announce(b, e, to, now, expires))
  {
    AnnounceKeeps(b, e, to, now, expires);
    AnnounceGrows(b, e, to, now, expires);
    hide BoxInv, OnceInv, Grows;
    OnceKept(b, Announce(b, e, to, now, expires));
  }

  lemma CancelAnnounceGood(b: Outbox, hit: Job -> bool, e: Event, to: seq<Addressee>, now: Time, expires: Option<Time>)
    requires BoxGood(b)
    ensures BoxGood(Announce(CancelWhere(b, hit), e, to, now, expires))
    ensures Grows(b, Announce(CancelWhere(b, hit), e, to, now, expires))
  {
    hide *;
    CancelGood(b, hit);
    AnnounceGood(CancelWhere(b, hit), e, to, now, expires);
    GrowsTransitive(b, CancelWhere(b, hit), Announce(CancelWhere(b, hit), e, to, now, expires));
  }

  lemma WarnOnceGood(r: Rows, b: Outbox, k: Kind, listing: seq<int>, now: Time)
    requires BoxGood(b)
    ensures BoxGood(WarnOnce(r, b, k, listing, now)) && Grows(b, WarnOnce(r, b, k, listing, now))
  {
    hide BoxGood, Grows, Announce, Notices, HasEvent;
    GrowsReflexive(b);
    AnnounceGood(b, Event(k, r.status.episode), [Addressee(Owner, Email)] + Notices(r, listing, false), now, None);
  }

  lemma {:induction false} WarnAllGood(r: Rows, b: Outbox, kinds: seq<Kind>, listing: seq<int>, now: Time)
    requires BoxGood(b)
    ensures BoxGood(WarnAll(r, b, kinds, listing, now)) && Grows(b, WarnAll(r, b, kinds, listing, now))
    decreases |kinds|
  {
    hide BoxGood, Grows, WarnOnce;
    if kinds == [] {
      GrowsReflexive(b);
    } else {
      var n := |kinds| - 1;
      var c := WarnAll(r, b, kinds[..n], listing, now);
      WarnAllGood(r, b, kinds[..n], listing, now);
      WarnOnceGood(r, c, kinds[n], listing, now);
      GrowsTransitive(b, c, WarnOnce(r, c, kinds[n], listing, now));
    }
  }

  lemma StageGood(r: Rows, b: Outbox, listing: seq<int>, now: Time)
    requires BoxGood(b)
    ensures BoxGood(StageWarning(r, b, listing, now)) && Grows(b, StageWarning(r, b, listing, now))
  {
    hide BoxGood, Grows, WarnAll;
    GrowsReflexive(b);
    if r.config.Some? && r.config.value.lastCheckIn.Some? && r.status.graceStarted.Some? {
      WarnAllGood(r, b, WarningKinds(r, now), listing, now);
    }
  }

  lemma ReleaseGood(r: Rows, b: Outbox, listing: seq<int>, sms: bool, now: Time)
    requires BoxGood(b)
    ensures BoxGood(AnnounceRelease(r, b, listing, sms, now)) && Grows(b, AnnounceRelease(r, b, listing, sms, now))
  {
    hide BoxGood, Grows, CancelWarnings, Notices, Announce;
    CancelWarningsIs(b);
    CancelAnnounceGood(b, j => Warns(b, j), Event(ReleasedEvent, r.status.version), Notices(r, listing, sms), now,
                       None);
  }

  lemma RecipientGood(b: Outbox, id: int)
    requires BoxGood(b)
    ensures BoxGood(CancelRecipient(b, id)) && Grows(b, CancelRecipient(b, id))
  {
    hide BoxGood, Grows, CancelRecipient;
    CancelRecipientIs(b, id);
    CancelGood(b, j => Addressed(j, id));
  }

  lemma WarningsGood(b: Outbox)
    requires BoxGood(b)
    ensures BoxGood(CancelWarnings(b)) && Grows(b, CancelWarnings(b))
  {
    hide BoxGood, Grows, CancelWarnings;
    CancelWarningsIs(b);
    CancelGood(b, j => Warns(b, j));
  }

  lemma AnnouncedGood(r: Rows, s: Rows, b: Outbox, q: Request, listing: seq<int>, sms: bool)
    requires BoxGood(b)
    ensures BoxGood(Announced(r, s, b, q, listing, sms)) && Grows(b, Announced(r, s, b, q, listing, sms))
  {
    hide BoxGood, Grows, CancelRecipient, CancelWarnings, AnnounceRelease, StageWarning, Announce;
    GrowsReflexive(b);
    match q
    case InvitePerson(id, token, now) =>
      if id in s.people {
        CancelRecipientIs(b, id);
        CancelAnnounceGood(b, j => Addressed(j, id), Event(InvitationEvent, s.status.version),
                           [Addressee(PersonOf(s, id), Email)], now, Some(now + INVITATION_LIFE));
      }
    case UpdatePerson(id, change) => RecipientGood(b, id);
    case DeletePerson(id) => RecipientGood(b, id);
    case SaveSettings(settings, now) => WarningsGood(b);
    case RecordCheckIn(now) => WarningsGood(b);
    case Trigger(reason, now, hold) => ReleaseGood(s, b, listing, sms, now);
    case Check(now, hold) =>
      ReleaseGood(s, b, listing, sms, now);
      StageGood(s, b, listing, now);
    case _ =>
  }

  // ---------------------------------------------------------------------
  // Sessions and the people they are for
  // ---------------------------------------------------------------------

  // Every family not revoked, and every link not used, belongs to an accepted
  // beneficiary at the same contact address.
  predicate SessionsOk(r: Rows, a: Auth) {
    && (forall i :: 0 <= i < |a.families| && !a.families[i].revoked ==> S.PrincipalStands(r, a.families[i].principal))
    && (forall i :: 0 <= i < |a.challenges| && a.challenges[i].consumedAt.None? ==>
          S.Entitled(r, a.challenges[i].beneficiary, a.challenges[i].contactRevision))
  }

  lemma EntitledKept(r: Rows, q: Request, id: int, contactRevision: nat)
    requires S.Entitled(r, id, contactRevision) && !DropsContact(r, q, id)
    ensures S.Entitled(Next(r, q), id, contactRevision)
  {
    if q.FinalizeCeremony? {
      hide Ceremonies.Acknowledged, Ceremonies.IndexAbove, Ceremonies.Supersede;
    } else if !Evidence.ForPeople(q) {
      hide Next;
      Evidence.PeopleUnchanged(r, q);
    } else {
      hide InRange, IndexTaken, EmailTaken;
    }
  }

  // No family or link of id is left.
  predicate SignedOut(a: Auth, id: int) {
    && (forall i :: 0 <= i < |a.families| && !a.families[i].revoked ==> !S.BelongsTo(a.families[i], id))
    && (forall i :: 0 <= i < |a.challenges| && a.challenges[i].consumedAt.None? ==> a.challenges[i].beneficiary != id)
  }

  lemma RevokeSignsOut(r: Rows, a: Auth, id: int, now: Time)
    requires SessionsOk(r, a)
    ensures SignedOut(S.RevokeBeneficiary(a, id, now), id) && SessionsOk(r, S.RevokeBeneficiary(a, id, now))
  {
    hide S.PrincipalStands, S.Entitled;
  }

  lemma SessionsMove(r: Rows, q: Request, a: Auth)
    requires SessionsOk(r, a) && forall id :: DropsContact(r, q, id) ==> SignedOut(a, id)
    ensures SessionsOk(Next(r, q), a)
  {
    hide Next, DropsContact, S.Entitled;
    var s := Next(r, q);
    forall i | 0 <= i < |a.families| && !a.families[i].revoked ensures S.PrincipalStands(s, a.families[i].principal) {
      assert S.PrincipalStands(r, a.families[i].principal);
      match a.families[i].principal
      case OwnerOf(_) =>
      case BeneficiaryAt(id, contactRevision) =>
        assert S.BelongsTo(a.families[i], id);
        EntitledKept(r, q, id, contactRevision);
    }
    forall i | 0 <= i < |a.challenges| && a.challenges[i].consumedAt.None?
      ensures S.Entitled(s, a.challenges[i].beneficiary, a.challenges[i].contactRevision)
    {
      EntitledKept(r, q, a.challenges[i].beneficiary, a.challenges[i].contactRevision);
    }
  }

  lemma IssueSessions(r: Rows, a: Auth, p: Principal, epoch: string, now: Time)
    requires SessionsOk(r, a) && S.PrincipalStands(r, p)
    ensures SessionsOk(r, S.Issue(a, p, epoch, now))
  {
    hide S.Entitled, S.PrincipalStands;
  }

  lemma DropIs(r: Rows, q: Request, id: int)
    requires DropsContact(r, q, id)
    ensures (q.UpdatePerson? || q.DeletePerson?) && q.id == id
    ensures q.UpdatePerson? ==> id in r.people && ChangesContact(r, id, q.change)
  {
  }

  lemma SignedKeeps(r: Rows, q: Request, a: Auth, epoch: string, at: Time)
    requires SessionsOk(r, a) && Apply(r, q).Done?
    ensures SessionsOk(Next(r, q), Signed(r, Next(r, q), a, q, epoch, at))
  {
    hide Next, Apply, SessionsOk, SignedOut, S.RevokeBeneficiary, S.Issue, DropsContact, ChangesContact;
    forall id | DropsContact(r, q, id) ensures (q.UpdatePerson? || q.DeletePerson?) && q.id == id {
      DropIs(r, q, id);
    }
    if q.InvitePerson? || q.UpdatePerson? || q.DeletePerson? {
      var c := S.RevokeBeneficiary(a, q.id, at);
      RevokeSignsOut(r, a, q.id, at);
      SessionsMove(r, q, c);
      if q.UpdatePerson? && !(q.id in r.people && ChangesContact(r, q.id, q.change)) {
        forall id ensures !DropsContact(r, q, id) {
          if DropsContact(r, q, id) { DropIs(r, q, id); }
        }
        SessionsMove(r, q, a);
      }
    } else {
      SessionsMove(r, q, a);
      if q.AcceptInvitation? {
        var s := Next(r, q);
        if q.id in s.people && s.people[q.id].invitation == Accepted {
          IssueSessions(s, a, BeneficiaryAt(q.id, s.people[q.id].contactRevision), epoch, q.now);
        }
      }
    }
  }
}
