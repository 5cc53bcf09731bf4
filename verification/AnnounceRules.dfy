// What the routes write to the outbox and to sessions: which messages they
// cancel, which they add, and who is signed out or in.

module AnnounceRules {
  import opened Wrappers
  import opened Tables
  import opened Requests
  import opened Release
  import opened Delivery
  import opened BoxLinks
  import opened ReleaseRuns
  import opened Worlds
  import opened WorldInvariants
  import opened WorldRuns
  import opened Guarantees
  import opened SwitchRules
  import Beneficiaries
  import RowInvariants
  import Readiness
  import SignRules
  import S = Sessions

  // The route is granted, and the database's listing is one of the people.
  predicate Goes(w: World, step: Step) {
    && step.Route? && Apply(w.rows, step.request).Done?
    && (ReadsListing(step.request) ==> Lists(step.listing, Next(w.rows, step.request).people))
  }

  lemma RouteParts(w: World, step: Step)
    requires Goes(w, step)
    ensures var v := NextWorld(w, step);
            && v.rows == Next(w.rows, step.request)
            && v.box == Announced(w.rows, v.rows, w.box, step.request, step.listing, step.sms)
            && v.auth == Signed(w.rows, v.rows, w.auth, step.request, step.epoch, step.at)
  {
    hide Apply, Announced, Signed, Lists;
  }

  // Whom a request cuts off from what they were sent before.
  predicate CutsOff(r: Rows, q: Request, id: int) {
    || (q.InvitePerson? && q.id == id)
    || (q.DeletePerson? && q.id == id)
    || (q.UpdatePerson? && q.id == id && id in r.people && q.change.email.Some?
        && q.change.email.value != r.people[id].email)
  }

  predicate EndsGrace(r: Rows, q: Request) {
    q.SaveSettings? || q.RecordCheckIn? || Releases(r, q)
  }

  predicate IsLive(j: Job) {
    j.state in {ReadyJob, RetryJob, ClaimedJob}
  }

  predicate IsWarning(b: Outbox, j: Job) {
    j.event < |b.events| && b.events[j.event].kind in {GraceFirst, GraceSecond, GraceFinal}
  }

  predicate Stopped(r: Rows, b: Outbox, q: Request, j: Job) {
    && IsLive(j)
    && ((j.recipient.Person? && CutsOff(r, q, j.recipient.id)) || (EndsGrace(r, q) && IsWarning(b, j)))
  }

  function Off(j: Job): Job {
    j.(state := CancelledJob, payload := false, token := None)
  }

  // From b to c, exactly the jobs to be stopped were, and others only added.
  predicate Stops(r: Rows, b: Outbox, c: Outbox, q: Request) {
    && |b.jobs| <= |c.jobs| && c.attempts == b.attempts && c.issued == b.issued && c.log == b.log
    && forall i :: 0 <= i < |b.jobs| ==> c.jobs[i] == if Stopped(r, b, q, b.jobs[i]) then Off(b.jobs[i]) else b.jobs[i]
  }

  lemma AddsOnly(b: Outbox, e: Event, to: seq<Addressee>, now: Time, expires: Option<Time>)
    ensures var c := Announce(b, e, to, now, expires);
            && |b.jobs| <= |c.jobs| && c.jobs[..|b.jobs|] == b.jobs
            && c.attempts == b.attempts && c.issued == b.issued && c.log == b.log
  {
  }

  lemma WarnAdds(r: Rows, b: Outbox, k: Kind, listing: seq<int>, now: Time)
    ensures var c := WarnOnce(r, b, k, listing, now);
            && |b.jobs| <= |c.jobs| && c.jobs[..|b.jobs|] == b.jobs
            && c.attempts == b.attempts && c.issued == b.issued && c.log == b.log
  {
    hide Announce, HasEvent, Notices;
    AddsOnly(b, Event(k, r.status.episode), [Addressee(Owner, Email)] + Notices(r, listing, false), now, None);
  }

  lemma {:induction false} WarnAllAdds(r: Rows, b: Outbox, kinds: seq<Kind>, listing: seq<int>, now: Time)
    ensures var c := WarnAll(r, b, kinds, listing, now);
            && |b.jobs| <= |c.jobs| && c.jobs[..|b.jobs|] == b.jobs
            && c.attempts == b.attempts && c.issued == b.issued && c.log == b.log
    decreases |kinds|
  {
    hide WarnOnce;
    if kinds != [] {
      var n := |kinds| - 1;
      var c := WarnAll(r, b, kinds[..n], listing, now);
      WarnAllAdds(r, b, kinds[..n], listing, now);
      WarnAdds(r, c, kinds[n], listing, now);
      assert WarnOnce(r, c, kinds[n], listing, now).jobs[..|b.jobs|]
          == WarnOnce(r, c, kinds[n], listing, now).jobs[..|c.jobs|][..|b.jobs|];
    }
  }

  lemma PersonStops(r: Rows, b: Outbox, q: Request, id: int)
    requires CutsOff(r, q, id)
    ensures Stops(r, b, CancelRecipient(b, id), q)
  {
    hide Releases;
    ForPersonReleases(r, q, id);
  }

  lemma ForPersonReleases(r: Rows, q: Request, id: int)
    requires CutsOff(r, q, id)
    ensures !EndsGrace(r, q)
  {
    hide Next;
    if Releases(r, q) {
      ReleaseNeeds(r, q);
    }
  }

  lemma WarningStops(r: Rows, b: Outbox, q: Request)
    requires EndsGrace(r, q) && forall id :: !CutsOff(r, q, id)
    ensures Stops(r, b, CancelWarnings(b), q)
  {
    hide EndsGrace, CutsOff;
  }

  lemma NothingStops(r: Rows, b: Outbox, q: Request)
    requires !EndsGrace(r, q) && forall id :: !CutsOff(r, q, id)
    ensures Stops(r, b, b, q)
  {
    hide EndsGrace, CutsOff;
  }

  lemma StopsOn(r: Rows, b: Outbox, c: Outbox, d: Outbox, q: Request)
    requires Stops(r, b, c, q) && |c.jobs| <= |d.jobs| && d.jobs[..|c.jobs|] == c.jobs
    requires d.attempts == c.attempts && d.issued == c.issued && d.log == c.log
    ensures Stops(r, b, d, q)
  {
    hide Stopped;
    forall i | 0 <= i < |b.jobs| ensures d.jobs[i] == c.jobs[i] {
      assert d.jobs[i] == d.jobs[..|c.jobs|][i];
    }
  }

  // Which messages a granted request stops: all live ones to somebody who is
  // invited again, moves or is removed; all live warnings when grace ends or
  // the vault is released. No others, and none is brought back.
  lemma StopsExactly(r: Rows, b: Outbox, q: Request, listing: seq<int>, sms: bool)
    requires Apply(r, q).Done?
    ensures Stops(r, b, Announced(r, Next(r, q), b, q, listing, sms), q)
  {
    hide Apply, Next, CancelRecipient, CancelWarnings, Announce, StageWarning, Stops, Notices, Releases, EndsGrace;
    var s := Next(r, q);
    match q
    case InvitePerson(id, token, now) =>
      PersonStops(r, b, q, id);
      if id in s.people {
        AddsOnly(CancelRecipient(b, id), Event(InvitationEvent, s.status.version), [Addressee(PersonOf(s, id), Email)],
                 now, Some(now + Beneficiaries.INVITATION_LIFE));
        StopsOn(r, b, CancelRecipient(b, id), Announced(r, s, b, q, listing, sms), q);
      } else {
        InvitedEnrolled(r, q);
      }
    case DeletePerson(id) => PersonStops(r, b, q, id);
    case UpdatePerson(id, change) =>
      if CutsOff(r, q, id) {
        PersonStops(r, b, q, id);
      } else {
        QuietStops(r, b, q);
      }
    case SaveSettings(settings, now) => SettingsStop(r, b, q);
    case RecordCheckIn(now) => SettingsStop(r, b, q);
    case Trigger(reason, now, hold) => ReleaseStops(r, b, q, listing, sms);
    case Check(now, hold) => ReleaseStops(r, b, q, listing, sms);
    case _ => QuietStops(r, b, q);
  }

  lemma InvitedEnrolled(r: Rows, q: Request)
    requires q.InvitePerson? && Apply(r, q).Done?
    ensures q.id in Next(r, q).people
  {
  }

  // Neither cutting anybody off nor ending grace.
  lemma QuietStops(r: Rows, b: Outbox, q: Request)
    requires !q.SaveSettings? && !q.RecordCheckIn? && !q.Trigger? && !q.Check? && !q.InvitePerson? && !q.DeletePerson?
    requires q.UpdatePerson? ==> !CutsOff(r, q, q.id)
    ensures Stops(r, b, b, q)
  {
    hide Stops, Next;
    if Releases(r, q) {
      ReleaseNeeds(r, q);
    }
    NothingStops(r, b, q);
  }

  lemma SettingsStop(r: Rows, b: Outbox, q: Request)
    requires q.SaveSettings? || q.RecordCheckIn?
    ensures Stops(r, b, CancelWarnings(b), q)
  {
    hide Stops, Releases, CancelWarnings;
    WarningStops(r, b, q);
  }

  lemma ReleaseStops(r: Rows, b: Outbox, q: Request, listing: seq<int>, sms: bool)
    requires (q.Trigger? || q.Check?) && Apply(r, q).Done?
    ensures Stops(r, b, Announced(r, Next(r, q), b, q, listing, sms), q)
  {
    hide Apply, Next, CancelWarnings, Announce, Stops, Notices, WarnAll;
    var s := Next(r, q);
    if Releases(r, q) {
      WarningStops(r, b, q);
      AddsOnly(CancelWarnings(b), Event(ReleasedEvent, s.status.version), Notices(s, listing, sms), q.now, None);
      StopsOn(r, b, CancelWarnings(b), Announced(r, s, b, q, listing, sms), q);
    } else {
      if q.Check? { CheckedState(r, q); }
      NothingStops(r, b, q);
      if q.Check? && s.config.Some? && s.config.value.lastCheckIn.Some? && s.status.graceStarted.Some? {
        WarnAllAdds(s, b, WarningKinds(s, q.now), listing, q.now);
        StopsOn(r, b, b, Announced(r, s, b, q, listing, sms), q);
      }
    }
  }

  lemma CheckedState(r: Rows, q: Request)
    requires q.Check? && Apply(r, q).Done? && !Releases(r, q)
    ensures Next(r, q).status.state != Triggered
  {
    hide Readiness.ReleaseReady;
  }

  // ---------------------------------------------------------------------
  // What is added
  // ---------------------------------------------------------------------

  // A message nobody has tried to deliver yet, due at once.
  predicate Unsent(j: Job, event: nat, to: Recipient, channel: Channel, now: Time, expires: Option<Time>) {
    j == Job(event, to, channel, ReadyJob, 0, now, None, None, true, now, expires)
  }

  // An invitation sends one e-mail, to the address the person has now, whose
  // link is good for seven days.
  lemma InvitationExactly(w: World, step: Step)
    requires Goes(w, step) && step.request.InvitePerson?
    ensures var v := NextWorld(w, step); var q := step.request;
            && q.id in w.rows.people
            && v.box.events == w.box.events + [Event(InvitationEvent, w.rows.status.version + 1)]
            && |v.box.jobs| == |w.box.jobs| + 1
            && Unsent(v.box.jobs[|w.box.jobs|], |w.box.events|,
                      Person(q.id, w.rows.people[q.id].contactRevision), Email, q.now,
                      Some(q.now + 7 * 24 * 60 * 60))
  {
    hide NextWorld, CancelRecipient, Lists;
    RouteParts(w, step);
    CancelFrame(w.box, step.request.id);
  }

  lemma CancelFrame(b: Outbox, id: int)
    ensures CancelRecipient(b, id).events == b.events && |CancelRecipient(b, id).jobs| == |b.jobs|
  {
  }

  // Somebody a release is announced to: whoever has accepted, at the address
  // they have now, by e-mail, and by text message if that is enabled and they
  // left a number.
  predicate Told(r: Rows, a: Addressee, sms: bool) {
    match a.recipient
    case Owner => false
    case Person(id, contactRevision) =>
      && id in r.people && r.people[id].invitation == Accepted && r.people[id].contactRevision == contactRevision
      && (a.channel == Email
          || (sms && a.channel == Sms && r.people[id].phone.Some? && r.people[id].phone.value != []))
  }

  lemma ReleaseTells(w: World, step: Step, a: Addressee)
    requires WorldInv(w) && ReleasesNow(w, step)
    ensures step.Route?
    ensures |NoticesOf(NextWorld(w, step).box, |w.box.events|, a)|
         == if Told(NextWorld(w, step).rows, a, step.sms) then 1 else 0
  {
    hide NextWorld, NoticesOf, WorldInv;
    OnlyRoutesRelease(w, step);
    ReleaseNotices(w, step, a);
    ToldExactly(NextWorld(w, step).rows, a, step.sms);
  }

  lemma ToldExactly(r: Rows, a: Addressee, sms: bool)
    ensures Told(r, a, sms) <==> Wanted(r, a, sms)
  {
  }

  // Requests other than invitations, checks and releases announce nothing.
  lemma OthersAnnounceNothing(w: World, step: Step)
    requires Goes(w, step) && !step.request.InvitePerson? && !step.request.Check? && !Releases(w.rows, step.request)
    ensures NextWorld(w, step).box.events == w.box.events && |NextWorld(w, step).box.jobs| == |w.box.jobs|
  {
    hide NextWorld, Apply, Next, AnnounceRelease, StageWarning;
    RouteParts(w, step);
  }

  // Who is signed out or in by a granted request: whoever is invited again,
  // moves or is removed is barred; whoever accepts is signed in.
  lemma SignsExactly(w: World, step: Step)
    requires Goes(w, step)
    ensures var v := NextWorld(w, step); var q := step.request;
            if q.AcceptInvitation? && v.rows.people[q.id].invitation == Accepted then
              SignRules.Opened(w.auth, v.auth, BeneficiaryAt(q.id, v.rows.people[q.id].contactRevision), step.epoch,
                               q.now)
            else if exists id :: CutsOff(w.rows, q, id) then SignRules.Barred(w.auth, v.auth, q.id, step.at)
            else v.auth == w.auth
  {
    hide NextWorld, Lists, S.Issue, S.RevokeBeneficiary, SignRules.Opened, SignRules.Barred, Announced;
    RouteParts(w, step);
    var q := step.request;
    if q.AcceptInvitation? {
      AcceptedEnrolled(w.rows, q);
      SignRules.OpensExactly(w.auth, BeneficiaryAt(q.id, Next(w.rows, q).people[q.id].contactRevision), step.epoch,
                             q.now);
    }
    if q.InvitePerson? || q.DeletePerson? || q.UpdatePerson? {
      SignRules.BarsExactly(w.auth, q.id, step.at);
      assert CutsOff(w.rows, q, q.id) || forall id :: !CutsOff(w.rows, q, id);
    }
  }

  lemma AcceptedEnrolled(r: Rows, q: Request)
    requires q.AcceptInvitation? && Apply(r, q).Done?
    ensures q.id in r.people && q.id in Next(r, q).people
  {
  }

  // A sign-in link goes out in one e-mail, to the address the person has now,
  // and is good for a quarter of an hour.
  lemma LinkMessageExactly(w: World, id: int, email: string, only: Option<int>, found: bool, epoch: string, now: Time)
    ensures var v := NextWorld(w, AskLink(id, email, only, found, epoch, now));
            if found && SignRules.Qualifies(w, id, email, only, now) then
              && v.box.events == w.box.events + [Event(LoginEvent, w.rows.status.version + 1)]
              && |v.box.jobs| == |w.box.jobs| + 1 && v.box.jobs[..|w.box.jobs|] == w.box.jobs
              && Unsent(v.box.jobs[|w.box.jobs|], |w.box.events|, Person(id, w.rows.people[id].contactRevision), Email,
                        now, Some(now + 15 * 60))
            else v.box == w.box
  {
  }

  // Signing out everywhere stops the live messages to that person alone.
  lemma EverywhereStops(w: World, id: int, now: Time)
    requires id in w.rows.people
    ensures var v := NextWorld(w, SignOutEverywhere(id, now));
            && v.box == w.box.(jobs := v.box.jobs) && |v.box.jobs| == |w.box.jobs|
            && forall i :: 0 <= i < |w.box.jobs| ==>
                 v.box.jobs[i] == if IsLive(w.box.jobs[i]) && w.box.jobs[i].recipient.Person?
                                     && w.box.jobs[i].recipient.id == id
                                  then Off(w.box.jobs[i]) else w.box.jobs[i]
  {
    hide S.RevokeBeneficiary;
  }

  // ---------------------------------------------------------------------
  // Warnings
  // ---------------------------------------------------------------------

  // A vault in grace is warned at once, again after three days if grace is
  // longer than that, and for the last time a day before the release.
  predicate Calling(r: Rows, k: Kind, now: Time) {
    || k == GraceFirst
    || (k == GraceSecond && GraceOf(r) > 3 && DueAt(r) + 3 * A_DAY <= now)
    || (k == GraceFinal && OverAt(r) <= now + A_DAY)
  }

  // In grace, with time left to check in.
  predicate InGrace(r: Rows, now: Time) {
    && r.config.Some? && r.config.value.lastCheckIn.Some? && r.status.state == Grace
    && r.status.graceStarted == Some(DueAt(r)) && now < OverAt(r)
  }

  lemma KindsExactly(r: Rows, now: Time, k: Kind)
    requires InGrace(r, now)
    ensures k in WarningKinds(r, now) <==> Calling(r, k, now)
  {
  }

  // Since b, warnings of these kinds were announced, each unless it had been,
  // and to the owner and everybody who has accepted.
  ghost predicate WarnedSince(r: Rows, b: Outbox, c: Outbox, kinds: seq<Kind>, listing: seq<int>) {
    && |b.events| <= |c.events| && c.events[..|b.events|] == b.events
    && (forall i :: 0 <= i < |c.jobs| ==> c.jobs[i].event < |c.events|)
    && (forall k :: HasEvent(c, Event(k, r.status.episode)) <==> HasEvent(b, Event(k, r.status.episode)) || k in kinds)
    && (forall e :: |b.events| <= e < |c.events| ==>
          c.events[e].kind in kinds && c.events[e].revision == r.status.episode)
    && (forall e, a :: |b.events| <= e < |c.events| ==>
          (Noticed(c, e, a) <==> a == Addressee(Owner, Email) || a in Notices(r, listing, false)))
  }

  lemma HasEventSnoc(b: Outbox, c: Outbox, e: Event, f: Event)
    requires c.events == b.events + [e]
    ensures HasEvent(c, f) <==> HasEvent(b, f) || f == e
  {
    if HasEvent(b, f) {
      var i :| 0 <= i < |b.events| && b.events[i] == f;
      assert c.events[i] == f;
    }
    if f == e {
      assert c.events[|b.events|] == f;
    }
  }

  lemma OldNotices(b: Outbox, e: Event, to: seq<Addressee>, now: Time, expires: Option<Time>, i: nat, a: Addressee)
    requires i < |b.events|
    ensures Noticed(Announce(b, e, to, now, expires), i, a) <==> Noticed(b, i, a)
  {
    var c := Announce(b, e, to, now, expires);
    if Noticed(b, i, a) {
      var k :| 0 <= k < |b.jobs| && NoticeAt(b, k, i, a);
      assert NoticeAt(c, k, i, a);
    }
    if Noticed(c, i, a) {
      var k :| 0 <= k < |c.jobs| && NoticeAt(c, k, i, a);
      assert k < |b.jobs| && NoticeAt(b, k, i, a);
    }
  }

  lemma WarnOnceStep(r: Rows, b: Outbox, c: Outbox, kinds: seq<Kind>, k: Kind, listing: seq<int>, now: Time)
    requires WarnedSince(r, b, c, kinds, listing)
    ensures WarnedSince(r, b, WarnOnce(r, c, k, listing, now), kinds + [k], listing)
  {
    hide HasEvent, Noticed, Notices, Announce;
    var e := Event(k, r.status.episode);
    var to := [Addressee(Owner, Email)] + Notices(r, listing, false);
    if !HasEvent(c, e) {
      var d := Announce(c, e, to, now, None);
      AnnouncedShape(c, e, to, now, None);
      forall f ensures HasEvent(d, f) <==> HasEvent(c, f) || f == e { HasEventSnoc(c, d, e, f); }
      forall i, a | |b.events| <= i < |d.events|
        ensures Noticed(d, i, a) <==> a == Addressee(Owner, Email) || a in Notices(r, listing, false)
      {
        if i < |c.events| { OldNotices(c, e, to, now, None, i, a); } else { AnnouncedNotices(c, e, to, now, None, a); }
      }
    }
  }

  lemma AnnouncedShape(b: Outbox, e: Event, to: seq<Addressee>, now: Time, expires: Option<Time>)
    requires forall i :: 0 <= i < |b.jobs| ==> b.jobs[i].event < |b.events|
    ensures var c := Announce(b, e, to, now, expires);
            c.events == b.events + [e] && forall i :: 0 <= i < |c.jobs| ==> c.jobs[i].event < |c.events|
  {
  }

  lemma {:induction false} WarnAllSince(r: Rows, b: Outbox, kinds: seq<Kind>, listing: seq<int>, now: Time)
    requires forall i :: 0 <= i < |b.jobs| ==> b.jobs[i].event < |b.events|
    ensures WarnedSince(r, b, WarnAll(r, b, kinds, listing, now), kinds, listing)
    decreases |kinds|
  {
    hide WarnOnce, HasEvent, Noticed, Notices;
    if kinds != [] {
      hide WarnedSince;
      var n := |kinds| - 1;
      WarnAllSince(r, b, kinds[..n], listing, now);
      WarnOnceStep(r, b, WarnAll(r, b, kinds[..n], listing, now), kinds[..n], kinds[n], listing, now);
      assert kinds[..n] + [kinds[n]] == kinds;
    }
  }

  // A check that leaves the vault in grace announces exactly the warnings that
  // are due and were not announced in this episode, each to the owner and to
  // everybody who has accepted, by one e-mail, and nothing else.
  lemma WarningsExactly(w: World, step: Step, k: Kind, e: nat, a: Addressee)
    requires WorldInv(w) && Goes(w, step) && step.request.Check? && NextWorld(w, step).rows.status.state == Grace
    ensures var v := NextWorld(w, step); var r := v.rows;
            && (HasEvent(v.box, Event(k, r.status.episode))
                <==> HasEvent(w.box, Event(k, r.status.episode)) || Calling(r, k, step.request.now))
            && |w.box.events| <= |v.box.events|
            && (|w.box.events| <= e < |v.box.events| ==>
                  && v.box.events[e].revision == r.status.episode
                  && Calling(r, v.box.events[e].kind, step.request.now)
                  && |NoticesOf(v.box, e, a)| == if a == Addressee(Owner, Email) || Told(r, a, false) then 1 else 0)
  {
    hide NextWorld, Apply, WorldInv, WarnAll, HasEvent, Noticed, NoticesOf, Calling, Notices, Lists, Wanted, Told,
         WorldRuns.Moves, WarnedSince, KeysOk, AnnounceRelease;
    var v, q := NextWorld(w, step), step.request;
    RouteParts(w, step);
    GraceAfterCheck(w, step);
    EventsThere(w);
    var kinds := WarningKinds(v.rows, q.now);
    WarnAllSince(v.rows, w.box, kinds, step.listing, q.now);
    WarnedParts(v.rows, w.box, v.box, kinds, step.listing, k, e, a);
    forall l ensures l in kinds <==> Calling(v.rows, l, q.now) { KindsExactly(v.rows, q.now, l); }
    StepMoves(w, step);
    MovesValid(w, v);
    WorldKeys(v);
    NoticesCounted(v.box, e, a);
    ListedExactly(v.rows, step.listing, a);
    ToldExactly(v.rows, a, false);
  }

  lemma WarnedParts(r: Rows, b: Outbox, c: Outbox, kinds: seq<Kind>, listing: seq<int>, k: Kind, e: nat, a: Addressee)
    requires WarnedSince(r, b, c, kinds, listing)
    ensures HasEvent(c, Event(k, r.status.episode)) <==> HasEvent(b, Event(k, r.status.episode)) || k in kinds
    ensures |b.events| <= |c.events|
    ensures |b.events| <= e < |c.events| ==>
              && c.events[e].kind in kinds && c.events[e].revision == r.status.episode
              && (Noticed(c, e, a) <==> a == Addressee(Owner, Email) || a in Notices(r, listing, false))
  {
    hide HasEvent, Noticed, Notices;
  }

  lemma ListedExactly(r: Rows, listing: seq<int>, a: Addressee)
    requires Lists(listing, r.people)
    ensures a in Notices(r, listing, false) <==> Wanted(r, a, false)
  {
    hide Notices;
    NoticesExact(r, listing, false, a);
  }

  lemma EventsThere(w: World)
    requires WorldInv(w)
    ensures forall i :: 0 <= i < |w.box.jobs| ==> w.box.jobs[i].event < |w.box.events|
  {
    hide RowInvariants.Inv, S.AuthInv, SessionsOk, Linked;
    EventsExist(w.box);
  }

  lemma GraceAfterCheck(w: World, step: Step)
    requires WorldInv(w) && Goes(w, step) && step.request.Check? && NextWorld(w, step).rows.status.state == Grace
    ensures var v := NextWorld(w, step);
            && InGrace(v.rows, step.request.now) && Lists(step.listing, v.rows.people)
            && v.box == WarnAll(v.rows, w.box, WarningKinds(v.rows, step.request.now), step.listing, step.request.now)
  {
    hide NextWorld, Apply, Next, WorldInv, WarnAll, Lists, Running, RowInvariants.Inv, WarningKinds;
    var q := step.request;
    RouteParts(w, step);
    WorldRows(w);
    CheckExactly(w.rows, q.now, q.hold);
    CheckLeaves(w.rows, q);
  }

  lemma CheckLeaves(r: Rows, q: Request)
    requires RowInvariants.Inv(r) && q.Check? && Apply(r, q).Done? && Next(r, q).status.state == Grace
    ensures InGrace(Next(r, q), q.now)
  {
    hide Apply, Next, RowInvariants.CeremoniesValid, RowInvariants.VaultValid, RowInvariants.PeopleValid,
         Readiness.ReleaseReady;
    OverIs(r);
    CheckExactly(r, q.now, q.hold);
  }
}
