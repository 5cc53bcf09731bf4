// Every request served on a database session does what the system model says.

module Server {
  import opened Wrappers
  import opened Tables
  import opened Transactions
  import opened Requests
  import opened Release
  import opened Worlds
  import Ceremonies
  import Readiness
  import Beneficiaries
  import Heartbeat
  import D = Delivery
  import W = OutboxWorker
  import S = Sessions
  import Store = SessionStore
  import CeremonyRoutes
  import BeneficiaryRoutes
  import HeartbeatRoutes
  import Evidence

  // Ending so, the request turned w into v, to be kept if it commits.
  predicate Serves(w: World, v: World, outcome: Outcome, q: Request, listing: seq<int>, sms: bool, epoch: string,
                   at: Time) {
    && Gives(w.rows, v.rows, outcome, Apply(w.rows, q))
    && (outcome.Commit? ==>
          && v.box == Announced(w.rows, v.rows, w.box, q, listing, sms)
          && v.auth == Signed(w.rows, v.rows, w.auth, q, epoch, at))
    && (outcome.Discard? ==> q.FinalizeCeremony?)
  }

  lemma ServedIsRouted(w: World, v: World, outcome: Outcome, q: Request, listing: seq<int>, sms: bool,
                       epoch: string, at: Time)
    requires Serves(w, v, outcome, q, listing, sms, epoch, at)
    requires ReadsListing(q) && outcome.Commit? ==> Lists(listing, v.rows.people)
    ensures Routed(w, q, listing, sms, epoch, at) == if outcome.Commit? then v else w
  {
    hide Apply, Lists, AnnounceRelease, StageWarning;
  }

  method ServeMaterial(db: Session, q: Request, listing: seq<int>, sms: bool, epoch: string, at: Time)
    returns (outcome: Outcome)
    requires Evidence.ForMaterial(q)
    modifies db`status, db`vault, db`ceremonies, db`people
    ensures Serves(old(db.Now()), db.Now(), outcome, q, listing, sms, epoch, at)
  {
    hide Ceremonies.CreateDraft, Ceremonies.Finalize, Ceremonies.Cancel, Ceremonies.Rewrap, Readiness.ReportDrill;
    match q
    case DraftCeremony(draft) => outcome := CeremonyRoutes.CreateDraftRoute(db, draft);
    case FinalizeCeremony(id, indexes) => outcome := CeremonyRoutes.FinalizeRoute(db, id, indexes);
    case CancelCeremony(id) => outcome := CeremonyRoutes.CancelRoute(db, id);
    case RewrapKey(expected, bundle, valid) => outcome := CeremonyRoutes.SaveCryptoMaterial(db, expected, bundle,
        valid);
    case ReportRecovery(drill) => outcome := CeremonyRoutes.ReportDrillRoute(db, drill);
  }

  method ServeEnrolment(db: Session, q: Request, listing: seq<int>, sms: bool, epoch: string, at: Time)
    returns (outcome: Outcome)
    requires (q.AddPerson? && q.id !in db.people) || q.AssignPerson? || q.AcceptInvitation?
    modifies db`status, db`people, db`families, db`tokens
    ensures Serves(old(db.Now()), db.Now(), outcome, q, listing, sms, epoch, at)
  {
    hide Beneficiaries.Add, Beneficiaries.AssignShare, Beneficiaries.Accept, S.Issue;
    match q
    case AddPerson(id, person, limit) => outcome := BeneficiaryRoutes.AddRoute(db, id, person, limit);
    case AssignPerson(id, index) => outcome := BeneficiaryRoutes.AssignRoute(db, id, index);
    case AcceptInvitation(id, token, now) =>
      var raw;
      outcome, raw := BeneficiaryRoutes.AcceptRoute(db, id, token, epoch, now);
  }

  method ServeContact(db: Session, q: Request, listing: seq<int>, sms: bool, epoch: string, at: Time)
    returns (outcome: Outcome)
    requires (q.InvitePerson? && q.now == at) || q.UpdatePerson? || q.DeletePerson?
    modifies db`status, db`people, db`families, db`challenges, db`events, db`jobs
    ensures Serves(old(db.Now()), db.Now(), outcome, q, listing, sms, epoch, at)
  {
    hide Beneficiaries.Invite, Beneficiaries.Update, Beneficiaries.Delete, S.RevokeBeneficiary, D.CancelRecipient,
         D.Announce, Beneficiaries.ChangesContact;
    match q
    case InvitePerson(id, token, now) => outcome := BeneficiaryRoutes.InviteRoute(db, id, token, now);
    case UpdatePerson(id, change) => outcome := BeneficiaryRoutes.UpdateRoute(db, id, change, at);
    case DeletePerson(id) => outcome := BeneficiaryRoutes.DeleteRoute(db, id, at);
  }

  method ServeSwitch(db: Session, q: Request, listing: seq<int>, sms: bool, epoch: string, at: Time)
    returns (outcome: Outcome)
    requires Evidence.ForSwitch(q) && (db.status.state == Grace ==> db.status.graceStarted.Some?)
    modifies db`status, db`config, db`events, db`jobs
    ensures Serves(old(db.Now()), db.Now(), outcome, q, listing, sms, epoch, at)
  {
    hide Heartbeat.SaveHeartbeat, Heartbeat.CheckIn, Heartbeat.MoveToGrace, Heartbeat.TriggerVault,
         D.CancelWarnings, AnnounceRelease, StageWarning;
    match q
    case SaveSettings(settings, now) => outcome := HeartbeatRoutes.SaveRoute(db, settings, now);
    case RecordCheckIn(now) => outcome := HeartbeatRoutes.CheckInRoute(db, now);
    case StartGrace(now) => HeartbeatRoutes.GraceRoute(db, now); outcome := Commit;
    case Trigger(reason, now, hold) => outcome := HeartbeatRoutes.TriggerRoute(db, reason, listing, now, hold, sms);
    case Check(now, hold) => outcome := ServeCheck(db, listing, sms, epoch, at, now, hold);
  }

  method ServeCheck(db: Session, listing: seq<int>, sms: bool, epoch: string, at: Time, now: Time, hold: bool)
    returns (outcome: Outcome)
    requires db.status.state == Grace ==> db.status.graceStarted.Some?
    modifies db`status, db`events, db`jobs
    ensures Serves(old(db.Now()), db.Now(), outcome, Check(now, hold), listing, sms, epoch, at)
  {
    hide Heartbeat.CheckOne, AnnounceRelease, StageWarning;
    CheckedState(db.RowsNow(), now);
    if hold {
      return Raise(Conflict);
    }
    outcome := HeartbeatRoutes.CheckRoute(db, listing, now, sms);
    if outcome != Commit {
      outcome := Raise(Conflict);
    }
  }

  lemma CheckedState(r: Rows, now: Time)
    ensures Heartbeat.CheckOne(r, now).Warned? ==> Heartbeat.CheckOne(r, now).rows.status.state != Triggered
    ensures Heartbeat.CheckOne(r, now).Released? ==> Heartbeat.CheckOne(r, now).rows.status.state == Triggered
  {
    hide Readiness.ReleaseReady;
  }

  method ServeRequest(db: Session, q: Request, listing: seq<int>, sms: bool, epoch: string, at: Time)
    returns (outcome: Outcome)
    requires (q.AddPerson? ==> q.id !in db.people) && (q.InvitePerson? ==> q.now == at)
    requires db.status.state == Grace ==> db.status.graceStarted.Some?
    modifies db`vault, db`status, db`config, db`ceremonies, db`people, db`events, db`jobs, db`families, db`tokens,
        db`challenges
    ensures Serves(old(db.Now()), db.Now(), outcome, q, listing, sms, epoch, at)
  {
    hide Serves;
    if Evidence.ForMaterial(q) {
      outcome := ServeMaterial(db, q, listing, sms, epoch, at);
    } else if q.AddPerson? || q.AssignPerson? || q.AcceptInvitation? {
      outcome := ServeEnrolment(db, q, listing, sms, epoch, at);
    } else if Evidence.ForPeople(q) {
      outcome := ServeContact(db, q, listing, sms, epoch, at);
    } else if Evidence.ForSwitch(q) {
      outcome := ServeSwitch(db, q, listing, sms, epoch, at);
    } else {
      db.LockStatus();
      TouchServes(old(db.Now()), db.Now(), q, listing, sms, epoch, at);
      outcome := Commit;
    }
  }

  lemma TouchServes(w: World, v: World, q: Request, listing: seq<int>, sms: bool, epoch: string, at: Time)
    requires q.Touch? && v == w.(rows := Lock(w.rows))
    ensures Serves(w, v, Commit, q, listing, sms, epoch, at)
  {
  }

  // A request served from begin to end is one step of the model: what is
  // committed afterwards is what the model says, and nothing is left open.
  method Serve(db: Session, q: Request, listing: seq<int>, sms: bool, epoch: string, at: Time)
    returns (outcome: Outcome)
    requires db.Clean() && Lists(listing, db.people)
    requires (q.AddPerson? ==> q.id !in db.people) && (q.InvitePerson? ==> q.now == at)
    requires db.status.state == Grace ==> db.status.graceStarted.Some?
    modifies db
    ensures db.Clean()
    ensures db.committed == NextWorld(old(db.committed), Route(q, listing, sms, epoch, at))
  {
    hide Serves, Lists, Routed, Next;
    outcome := ServeRequest(db, q, listing, sms, epoch, at);
    ghost var v := db.Now();
    if outcome.Commit? && ReadsListing(q) {
      ListingKept(old(db.Now()), v, outcome, q, listing, sms, epoch, at);
    }
    ServedIsRouted(old(db.Now()), v, outcome, q, listing, sms, epoch, at);
    Settle(db, outcome);
  }

  lemma ListingKept(w: World, v: World, outcome: Outcome, q: Request, listing: seq<int>, sms: bool, epoch: string,
                    at: Time)
    requires Serves(w, v, outcome, q, listing, sms, epoch, at) && outcome.Commit? && ReadsListing(q)
    ensures v.rows.people == w.rows.people
  {
    hide Apply, Announced, Signed;
    Evidence.PeopleUnchanged(w.rows, q);
  }

  // The session endpoints likewise: signing in and out, renewing a session,
  // asking for a sign-in link and redeeming it.
  method ServeSession(db: Session, step: Step)
    requires db.Clean() && !step.Route? && !step.Deliver?
    requires step.SignOutEverywhere? ==> step.id in db.people
    modifies db
    ensures db.Clean() && db.committed == NextWorld(old(db.committed), step)
  {
    hide S.LinkSent, LinkAsked, Rotated, Routed, Lock, S.Issue, S.RevokeCookie, S.RevokeBeneficiary, S.Redeemable,
         S.Redeem, D.CancelRecipient;
    match step
    case SignIn(user, epoch, now) => var _ := Store.SignInRoute(db, user, epoch, now);
    case RefreshSession(raw, beneficiary, epoch, now) =>
      var _ := Store.RefreshRoute(db, raw, beneficiary, epoch, now);
    case SignOut(raw, beneficiary) => Store.SignOutRoute(db, raw, beneficiary);
    case SignOutEverywhere(id, now) => Store.SignOutEverywhereRoute(db, id, now);
    case AskLink(id, email, only, found, epoch, now) =>
      Store.RequestLinkRoute(db, id, email, only, found, epoch, now);
    case RedeemLink(challenge, epoch, now) => var _ := Store.RedeemRoute(db, challenge, epoch, now);
  }

  // One pass of the worker: cleanup, then claims, each its own transaction.
  method WorkOnce(db: Session, expired: seq<nat>, picks: seq<nat>, now: Time, hold: bool, limit: nat, locked: set<nat>)
    returns (claimed: seq<(nat, nat)>)
    requires db.Clean() && D.CleanupBatch(db.BoxNow(), expired, now)
    requires D.Batch(D.CleanAll(db.BoxNow(), expired), picks, now, hold, limit, locked)
    modifies db
    ensures db.Clean()
    ensures db.committed == NextWorld(NextWorld(old(db.committed), Deliver(D.CleanUp(expired, now))),
                                      Deliver(D.Claim(picks, now, hold, limit, locked)))
    ensures |db.issued| == |old(db.issued)| + |claimed|
    ensures forall k :: 0 <= k < |claimed| ==>
              claimed[k].1 == |old(db.issued)| + k && db.issued[claimed[k].1] == claimed[k].0
  {
    hide D.Batch, D.CleanupBatch, D.CleanAll, D.ClaimAll, Routed, Rotated;
    assert forall p :: 0 <= p < |expired| ==> expired[p] < |db.jobs| by {
      ExpiredExist(db.BoxNow(), expired, now);
    }
    W.CleanUpJobs(db, expired);
    db.Commit();
    claimed := W.ClaimJobs(db, picks, now);
    db.Commit();
  }

  lemma ExpiredExist(b: Outbox, picks: seq<nat>, now: Time)
    requires D.CleanupBatch(b, picks, now)
    ensures forall p :: 0 <= p < |picks| ==> picks[p] < |b.jobs|
  {
    hide D.Expirable;
  }

  // The two transactions of one send, with the provider's call between them:
  // whatever else is committed meanwhile, the answer is written back under
  // the token, or not at all.
  method StartDelivery(db: Session, i: nat, token: nat, now: Time, hold: bool, readable: bool) returns (send: bool)
    requires db.Clean()
    modifies db
    ensures db.Clean() && db.committed == NextWorld(old(db.committed), Deliver(D.Start(i, token, now, hold, readable)))
    ensures send ==> D.Sending(db.BoxNow(), i, token)
    ensures send <==> token !in old(db.attempts) && token in db.attempts
  {
    hide D.PreSend, Routed, Rotated;
    send := W.StartSend(db, i, token, now, hold, readable);
    db.Commit();
  }

  method FinishDelivery(db: Session, i: nat, token: nat, sent: D.Sent, now: Time, jitter: nat)
    requires db.Clean() && D.Sending(db.BoxNow(), i, token)
    modifies db
    ensures db.Clean() && db.committed == NextWorld(old(db.committed), Deliver(D.Finish(i, token, sent, now, jitter)))
  {
    hide D.PostSend, D.Sending, Routed, Rotated;
    W.FinishSend(db, i, token, sent, now, jitter);
    db.Commit();
  }
}
