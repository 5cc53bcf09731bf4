// What the owner, the beneficiaries and the operator may rely on, in every
// run of the whole system from a freshly registered vault.

module Guarantees {
  import opened Wrappers
  import opened Tables
  import opened Requests
  import opened Release
  import opened Delivery
  import opened BoxInvariants
  import opened OutboxRuns
  import opened BoxLinks
  import opened ReleaseRuns
  import opened Worlds
  import opened WorldInvariants
  import opened WorldRuns
  import opened Beneficiaries
  import opened Readiness
  import opened Recoverable
  import Field
  import Heartbeat
  import S = Sessions
  import Shamir
  import RowInvariants

  // ---------------------------------------------------------------------
  // Release and its notices
  // ---------------------------------------------------------------------

  predicate ReleasesNow(w: World, step: Step) {
    w.rows.status.state != Triggered && NextWorld(w, step).rows.status.state == Triggered
  }

  predicate NoticeAt(b: Outbox, i: int, e: nat, a: Addressee)
    requires 0 <= i < |b.jobs|
  {
    b.jobs[i].event == e && b.jobs[i].recipient == a.recipient && b.jobs[i].channel == a.channel
  }

  // The addressee's notices of event e in the outbox.
  function NoticesOf(b: Outbox, e: nat, a: Addressee): set<int> {
    set i | 0 <= i < |b.jobs| && NoticeAt(b, i, e, a)
  }

  predicate Noticed(b: Outbox, e: nat, a: Addressee) {
    exists i :: 0 <= i < |b.jobs| && NoticeAt(b, i, e, a)
  }

  lemma NoticesCounted(b: Outbox, e: nat, a: Addressee)
    requires KeysOk(b)
    ensures |NoticesOf(b, e, a)| == if Noticed(b, e, a) then 1 else 0
  {
    if Noticed(b, e, a) {
      var i :| 0 <= i < |b.jobs| && NoticeAt(b, i, e, a);
      forall j | 0 <= j < |b.jobs| && NoticeAt(b, j, e, a) ensures j == i {
        assert SameKey(b.jobs[i], b.jobs[j]);
      }
      assert NoticesOf(b, e, a) == {i};
    } else {
      assert NoticesOf(b, e, a) == {};
    }
  }

  lemma WorldKeys(w: World)
    requires WorldInv(w)
    ensures KeysOk(w.box)
  {
    hide RowInvariants.Inv, BoxGood, S.AuthInv, SessionsOk, ContactOk, GraceOk, EventsOk, ReleaseOk, KeysOk;
  }

  lemma OnlyRoutesRelease(w: World, step: Step)
    requires ReleasesNow(w, step)
    ensures step.Route? && Releases(w.rows, step.request)
    ensures ReadsListing(step.request) ==> Lists(step.listing, NextWorld(w, step).rows.people)
    ensures Apply(w.rows, step.request) == Done(NextWorld(w, step).rows)
    ensures NextWorld(w, step).box
            == Announced(w.rows, NextWorld(w, step).rows, w.box, step.request, step.listing, step.sms)
  {
    hide Apply, Announced, Signed, Worked, S.Rotate, S.RevokeCookie, CancelRecipient, S.RevokeBeneficiary, Announce,
         S.Redeem, S.Redeemable, S.LinkSent, S.AddChallenge, Lists, S.Issue;
  }

  lemma ReleaseBox(w: World, step: Step) returns (now: Time)
    requires ReleasesNow(w, step)
    ensures step.Route? && Lists(step.listing, NextWorld(w, step).rows.people)
    ensures NextWorld(w, step).box == AnnounceRelease(NextWorld(w, step).rows, w.box, step.listing, step.sms, now)
  {
    hide NextWorld, Apply, AnnounceRelease, StageWarning, Lists, Releases;
    OnlyRoutesRelease(w, step);
    ReleaseMoves(w.rows, step.request);
    now := step.request.now;
  }

  lemma AnnouncedNotices(b: Outbox, e: Event, to: seq<Addressee>, now: Time, expires: Option<Time>, a: Addressee)
    requires forall i :: 0 <= i < |b.jobs| ==> b.jobs[i].event < |b.events|
    ensures Noticed(Announce(b, e, to, now, expires), |b.events|, a) <==> a in to
  {
    var c := Announce(b, e, to, now, expires);
    if a in to {
      var i :| 0 <= i < |to| && to[i] == a;
      assert c.jobs[|b.jobs| + i] == NewJob(|b.events|, to[i], now, expires);
      assert NoticeAt(c, |b.jobs| + i, |b.events|, a);
    }
  }

  lemma CancelledKeepsEvents(b: Outbox)
    ensures CancelWarnings(b).events == b.events && |CancelWarnings(b).jobs| == |b.jobs|
    ensures forall i :: 0 <= i < |b.jobs| ==> CancelWarnings(b).jobs[i].event == b.jobs[i].event
  {
    hide Warning;
  }

  lemma ReleaseNoticed(w: World, step: Step, a: Addressee)
    requires WorldInv(w) && ReleasesNow(w, step)
    ensures var v := NextWorld(w, step);
            && v.box.events == w.box.events + [Event(ReleasedEvent, v.rows.status.version)]
            && (Noticed(v.box, |w.box.events|, a) <==> Wanted(v.rows, a, step.sms))
  {
    hide NextWorld, Linked, Lists, Notices, Wanted, CancelWarnings, RowInvariants.Inv, OnceInv, S.AuthInv, SessionsOk,
         Noticed, Releases, BoxInv;
    var v := NextWorld(w, step);
    var now := ReleaseBox(w, step);
    OnlyRoutesRelease(w, step);
    var to := Notices(v.rows, step.listing, step.sms);
    EventsExist(w.box);
    CancelledKeepsEvents(w.box);
    AnnouncedNotices(CancelWarnings(w.box), Event(ReleasedEvent, v.rows.status.version), to, now, None, a);
    NoticesExact(v.rows, step.listing, step.sms, a);
    assert Wanted(v.rows, a, step.sms) ==> a.recipient.Person? && a.recipient.id in step.listing by {
      WantedListed(v.rows, step.listing, a, step.sms);
    }
  }

  // A release adds one event, and for it exactly one e-mail to every beneficiary
  // who has accepted, exactly one text message to each of them with a phone if
  // enabled, and nothing else.
  lemma ReleaseNotices(w: World, step: Step, a: Addressee)
    requires WorldInv(w) && ReleasesNow(w, step)
    ensures var v := NextWorld(w, step);
            && v.box.events == w.box.events + [Event(ReleasedEvent, v.rows.status.version)]
            && |NoticesOf(v.box, |w.box.events|, a)| == if Wanted(v.rows, a, step.sms) then 1 else 0
  {
    hide NextWorld, Wanted, Noticed, NoticesOf, WorldInv, Grows, AuthMoves, Releases, KeysOk;
    StepMoves(w, step);
    ReleaseNoticed(w, step, a);
    WorldKeys(NextWorld(w, step));
    NoticesCounted(NextWorld(w, step).box, |w.box.events|, a);
  }

  lemma WantedListed(r: Rows, listing: seq<int>, a: Addressee, sms: bool)
    requires Lists(listing, r.people)
    ensures Wanted(r, a, sms) ==> a.recipient.Person? && a.recipient.id in listing
  {
  }

  // An event's notices are those made with it.
  lemma NoticesKept(b: Outbox, c: Outbox, e: nat, a: Addressee)
    requires Grows(b, c) && e < |b.events|
    ensures Noticed(b, e, a) <==> Noticed(c, e, a)
  {
    hide Prefix;
    if Noticed(b, e, a) {
      var i :| 0 <= i < |b.jobs| && NoticeAt(b, i, e, a);
      assert JobGrows(b.jobs[i], c.jobs[i]);
      assert NoticeAt(c, i, e, a);
    }
    if Noticed(c, e, a) {
      var i :| 0 <= i < |c.jobs| && NoticeAt(c, i, e, a);
      if i < |b.jobs| {
        assert JobGrows(b.jobs[i], c.jobs[i]);
        assert NoticeAt(b, i, e, a);
      }
    }
  }

  // From the release on, in every run: the vault stays released, on the same
  // material, policy, generation and settings; the one release event there is
  // has the notices it was made with and never any other.
  lemma ReleasedOnceForAll(w: World, step: Step, u: World, a: Addressee)
    requires WorldInv(w) && ReleasesNow(w, step) && Later(NextWorld(w, step), u)
    ensures var v := NextWorld(w, step);
            && u.rows.status.state == Triggered && Fixed(v.rows, u.rows)
            && ReleasedAt(u.box, |w.box.events|)
            && (forall i :: ReleasedAt(u.box, i) ==> i == |w.box.events|)
            && |NoticesOf(u.box, |w.box.events|, a)| == if Wanted(v.rows, a, step.sms) then 1 else 0
  {
    hide NextWorld, Later, Wanted, Noticed, NoticesOf, Grows, AuthMoves, RowInvariants.Inv, BoxGood, S.AuthInv,
         SessionsOk, ContactOk, GraceOk, EventsOk, KeysOk;
    var v := NextWorld(w, step);
    StepMoves(w, step);
    LaterMoves(v, u);
    var qs := LaterRows(v, u);
    ReleasedForever(v.rows, qs);
    ReleaseNoticed(w, step, a);
    NoticesKept(v.box, u.box, |w.box.events|, a);
    NoticesCounted(u.box, |w.box.events|, a);
    assert ReleasedAt(v.box, |w.box.events|);
    EventsStay(v.box, u.box, |w.box.events|);
  }

  lemma EventsStay(b: Outbox, c: Outbox, e: nat)
    requires Grows(b, c) && e < |b.events|
    ensures e < |c.events| && c.events[e] == b.events[e]
  {
    hide JobGrows;
    assert c.events[..|b.events|][e] == c.events[e];
  }

  // In every reachable state the vault is released exactly when one release
  // event, and one only, exists.
  lemma ReleasedIffAnnounced(w: World)
    requires Reachable(w)
    ensures w.rows.status.state == Triggered <==> exists i :: ReleasedAt(w.box, i)
    ensures forall i, j :: ReleasedAt(w.box, i) && ReleasedAt(w.box, j) ==> i == j
  {
    hide Later, RowInvariants.Inv, BoxGood, S.AuthInv, SessionsOk, ContactOk, GraceOk, EventsOk, KeysOk, ReleasedAt;
    ReachableWorld(w);
  }

  // ---------------------------------------------------------------------
  // Live jobs
  // ---------------------------------------------------------------------

  // In every reachable state a live warning is about the grace period the
  // vault is in, and a live message is for an address that is still current.
  lemma LiveJobsCurrent(w: World, i: nat)
    requires Reachable(w) && i < |w.box.jobs| && Live(w.box.jobs[i])
    ensures w.box.jobs[i].event < |w.box.events| && Current(w.rows, w.box.jobs[i].recipient)
    ensures var e := w.box.events[w.box.jobs[i].event];
            Warning(e.kind) ==> w.rows.status.state == Grace && w.rows.status.episode == e.revision
  {
    hide Later, RowInvariants.Inv, S.AuthInv, SessionsOk, ReleaseOk, EventsOk, KeysOk, Current, BoxInv, OnceInv;
    ReachableWorld(w);
    EventsExist(w.box);
  }

  // No kind of event happens twice at one revision, and no recipient gets two
  // jobs for one event on one channel: the unique constraints never fire.
  lemma NoDuplicates(w: World, i: nat, j: nat)
    requires Reachable(w) && i < j
    ensures j < |w.box.events| ==> w.box.events[i] != w.box.events[j]
    ensures j < |w.box.jobs| ==> !SameKey(w.box.jobs[i], w.box.jobs[j])
  {
    hide Later, RowInvariants.Inv, S.AuthInv, SessionsOk, ReleaseOk, ContactOk, GraceOk, BoxGood, SameKey, InPast;
    ReachableWorld(w);
  }

  // ---------------------------------------------------------------------
  // Delivery
  // ---------------------------------------------------------------------

  // In every reachable state, for every job.
  lemma DeliveryBounds(w: World, i: nat)
    requires Reachable(w) && i < |w.box.jobs|
    ensures Written(w.box.log, i) <= 8 && Retried(w.box.log, i) <= 7
    ensures w.box.jobs[i].attempts == Count(w.box.issued, i)
    ensures |AttemptRows(w.box, i)| <= w.box.jobs[i].attempts
    ensures w.box.jobs[i].token.Some? <==> w.box.jobs[i].state == ClaimedJob
    ensures w.box.jobs[i].state == AcceptedJob || w.box.jobs[i].state == CancelledJob ==> !w.box.jobs[i].payload
  {
    hide Later, RowInvariants.Inv, S.AuthInv, SessionsOk, Linked, BoxInv, OnceInv, Count, Written, Retried,
         AttemptRows;
    ReachableWorld(w);
    ResultsBounded(w.box, i);
    SendsBounded(w.box, i);
  }

  // A settled job never changes again, except that its payload may be erased.
  lemma SettledForever(w: World, u: World, i: nat)
    requires WorldInv(w) && Later(w, u) && i < |w.box.jobs| && !Live(w.box.jobs[i])
    ensures i < |u.box.jobs| && u.box.jobs[i] == w.box.jobs[i].(payload := u.box.jobs[i].payload)
    ensures u.box.jobs[i].payload ==> w.box.jobs[i].payload
  {
    hide Later, WorldInv, AuthMoves, Prefix;
    LaterMoves(w, u);
    assert JobGrows(w.box.jobs[i], u.box.jobs[i]);
  }

  // Of what makes a send obsolete, only its credential's expiry can happen to
  // a job that is still claimed: a changed contact or an ended grace period
  // has cancelled it already.
  lemma ObsoleteOnlyByExpiry(w: World, i: nat, token: nat, now: Time)
    requires Reachable(w) && Holder(w.box, i, token)
    ensures Obsolete(w.rows, w.box, w.box.jobs[i], now)
            <==> w.box.jobs[i].expires.Some? && w.box.jobs[i].expires.value <= now
  {
    hide Later;
    LiveJobsCurrent(w, i);
  }

  // ---------------------------------------------------------------------
  // Sessions
  // ---------------------------------------------------------------------

  // In every reachable state a token is exchanged exactly if it is the newest
  // of a family of that role that is neither revoked nor expired nor of
  // another epoch: the check of the beneficiary's standing never decides.
  lemma RotatesNewestOnly(w: World, raw: nat, beneficiary: bool, epoch: string, now: Time)
    requires Reachable(w) && raw < |w.auth.tokens|
    ensures w.auth.tokens[raw].family < |w.auth.families|
    ensures var f := w.auth.families[w.auth.tokens[raw].family];
            S.Rotate(w.rows, w.auth, raw, beneficiary, epoch, now).Rotated?
            <==> (S.Latest(w.auth.tokens, w.auth.tokens[raw].family) == Some(raw)
                  && f.principal.BeneficiaryAt? == beneficiary && !f.revoked && f.epoch == epoch && f.expires > now)
  {
    hide Later, S.PrincipalStands, S.Latest;
    SessionsCurrent(w);
    assert S.TokenOk(w.auth, raw);
  }

  // A sign-in link works once: redeemed, it never is redeemable again.
  lemma LinkUsedOnce(w: World, c: nat, epoch: string, now: Time, u: World, again: string, later: Time)
    requires WorldInv(w) && S.Redeemable(w.rows, w.auth, c, epoch, now)
    requires Later(NextWorld(w, RedeemLink(c, epoch, now)), u)
    ensures !S.Redeemable(u.rows, u.auth, c, again, later)
  {
    hide Later, WorldInv, Grows, S.AuthInv, S.Entitled, Routed, Rotated, S.Issue;
    var v := NextWorld(w, RedeemLink(c, epoch, now));
    StepMoves(w, RedeemLink(c, epoch, now));
    LaterMoves(v, u);
    Redeemed(w.auth, c, epoch, now);
    assert S.ChallengeGrows(v.auth.challenges[c], u.auth.challenges[c]);
  }

  lemma Redeemed(a: Auth, c: nat, epoch: string, now: Time)
    requires c < |a.challenges|
    ensures |S.Redeem(a, c, epoch, now).challenges| == |a.challenges|
    ensures S.Redeem(a, c, epoch, now).challenges[c].consumedAt == Some(now)
  {
  }

  // The links of one beneficiary are a minute apart at least.
  predicate LinksSpaced(a: Auth) {
    forall i, j :: 0 <= i < j < |a.challenges| && a.challenges[i].beneficiary == a.challenges[j].beneficiary ==>
                     a.challenges[j].createdAt >= a.challenges[i].createdAt + S.LINK_COOLDOWN
  }

  lemma NoNewLinks(w: World, step: Step)
    requires !step.AskLink?
    ensures |NextWorld(w, step).auth.challenges| == |w.auth.challenges|
  {
    hide Apply, Announced, Worked, CancelRecipient, Lists, ChangesContact, S.Entitled, S.PrincipalStands,
         S.ValidFamily;
  }

  lemma SpacedSame(a: Auth, b: Auth)
    requires LinksSpaced(a) && S.AuthGrows(a, b) && |b.challenges| == |a.challenges|
    ensures LinksSpaced(b)
  {
    forall i | 0 <= i < |b.challenges| ensures b.challenges[i].beneficiary == a.challenges[i].beneficiary
                                               && b.challenges[i].createdAt == a.challenges[i].createdAt {
      assert S.ChallengeGrows(a.challenges[i], b.challenges[i]);
    }
  }

  lemma SpacedAfterAsk(w: World, step: Step)
    requires LinksSpaced(w.auth) && step.AskLink?
    ensures LinksSpaced(NextWorld(w, step).auth)
  {
    hide Announce, Routed, Rotated;
  }

  lemma {:induction false} LinksSpacedAfter(steps: seq<Step>)
    ensures LinksSpaced(AfterWorld(START, steps).auth)
    decreases |steps|
  {
    hide NextWorld, LinksSpaced, WorldInv, Grows, S.AuthInv, S.AuthGrows;
    if steps == [] {
      NoLinks();
    } else {
      var n := |steps| - 1;
      var w := AfterWorld(START, steps[..n]);
      LinksSpacedAfter(steps[..n]);
      StartOk();
      RunMoves(START, steps[..n]);
      StepMoves(w, steps[n]);
      if steps[n].AskLink? {
        SpacedAfterAsk(w, steps[n]);
      } else {
        NoNewLinks(w, steps[n]);
        SpacedSame(w.auth, NextWorld(w, steps[n]).auth);
      }
    }
  }

  lemma LinkCooldown(w: World)
    requires Reachable(w)
    ensures LinksSpaced(w.auth)
  {
    hide AfterWorld, LinksSpaced;
    var steps :| Runs(START, steps, w);
    LinksSpacedAfter(steps);
  }

  lemma NoLinks()
    ensures LinksSpaced(START.auth)
  {
  }

  // In every reachable state a family that is not revoked, or a link that is
  // not used, belongs to an accepted beneficiary at the same contact address.
  lemma SessionsCurrent(w: World)
    requires Reachable(w)
    ensures SessionsOk(w.rows, w.auth) && S.AuthInv(w.auth)
  {
    hide Later, RowInvariants.Inv, S.AuthInv, SessionsOk, Linked, BoxGood;
    ReachableWorld(w);
  }

  // Revocation is permanent.
  lemma RevokedForever(w: World, u: World, f: nat)
    requires WorldInv(w) && Later(w, u) && f < |w.auth.families| && w.auth.families[f].revoked
    ensures f < |u.auth.families| && u.auth.families[f] == w.auth.families[f]
  {
    hide Later, WorldInv, Grows, S.AuthInv;
    LaterMoves(w, u);
    assert S.FamilyGrows(w.auth.families[f], u.auth.families[f]);
  }

  // Once a spent token comes back after its grace period, no token of its
  // family is ever honoured again.
  lemma ReuseEndsFamilyForever(w: World, raw: nat, beneficiary: bool, epoch: string, now: Time, u: World,
                               other: nat, otherRole: bool, otherEpoch: string, later: Time)
    requires WorldInv(w) && S.Rotate(w.rows, w.auth, raw, beneficiary, epoch, now).Reused?
    requires Later(NextWorld(w, RefreshSession(raw, beneficiary, epoch, now)), u)
    requires raw < |w.auth.tokens| && other < |u.auth.tokens|
    requires u.auth.tokens[other].family == w.auth.tokens[raw].family
    ensures S.Rotate(u.rows, u.auth, other, otherRole, otherEpoch, later) == S.Denied(Unauthorized)
  {
    hide Later, WorldInv, Grows, S.AuthInv, S.Rotate, S.AuthGrows;
    var step := RefreshSession(raw, beneficiary, epoch, now);
    var v := NextWorld(w, step);
    StepMoves(w, step);
    LaterMoves(v, u);
    WorldAuth(w);
    S.ReuseEndsFamily(w.rows, w.auth, raw, beneficiary, epoch, now, u.rows, u.auth, other, otherRole, otherEpoch,
                      later);
  }

  lemma WorldAuth(w: World)
    requires WorldInv(w)
    ensures S.AuthInv(w.auth)
  {
    hide Linked, BoxGood, SessionsOk, RowInvariants.Inv;
  }

  // ---------------------------------------------------------------------
  // End to end
  // ---------------------------------------------------------------------

  // In every reachable state in which a release is allowed there is a quorum
  // of accepted holders, and the shares of any quorum, as split by the
  // ceremony, rebuild the key.
  lemma ReachableReady(w: World) returns (holders: seq<int>)
    requires Reachable(w) && ReleaseReady(w.rows)
    ensures Quorum(w.rows, holders)
  {
    hide Later, WorldInv, ReleaseReady, Quorum;
    ReachableWorld(w);
    WorldRows(w);
    holders := QuorumExists(w.rows);
  }

  lemma ReachableRecovers(w: World, holders: seq<int>, key: seq<Field.Byte>, random: seq<Field.Byte>,
                          coeffs: seq<seq<Field.Byte>>)
    requires Reachable(w) && ReleaseReady(w.rows) && Quorum(w.rows, holders)
    requires |key| == 32 && |random| == 16 && Shamir.Coefficients(coeffs, w.rows.vault.threshold)
    ensures Recovers(w.rows, holders, key, random, coeffs)
  {
    hide Later, WorldInv, ReleaseReady, Quorum, Recovers, Shamir.Coefficients;
    ReachableWorld(w);
    WorldRows(w);
    ReadyMeansRecoverable(w.rows, holders, key, random, coeffs);
  }

  lemma WorldRows(w: World)
    requires WorldInv(w)
    ensures RowInvariants.Inv(w.rows)
  {
    hide Linked, BoxGood, SessionsOk, RowInvariants.Inv, S.AuthInv;
  }

  // In every reachable state, what the clock alone releases is an armed vault,
  // at interval and grace after its last check-in or later.
  lemma AutomaticReleaseDue(w: World, step: Step)
    requires Reachable(w) && ReleasesNow(w, step)
    ensures step.Route? && (step.request.Trigger? || step.request.Check?) && ReleaseReady(w.rows)
    ensures Automatic(step.request) ==>
              && w.rows.status.armed && w.rows.config.Some? && w.rows.config.value.lastCheckIn.Some?
              && step.request.now >= Heartbeat.ReleaseTime(w.rows.config.value)
  {
    hide Later, WorldInv, ReleaseReady, NextWorld, Lists, Announced, RowInvariants.Inv, Apply;
    ReachableWorld(w);
    WorldRows(w);
    OnlyRoutesRelease(w, step);
    ReleaseNeeds(w.rows, step.request);
    if Automatic(step.request) {
      AutomaticReleaseTime(w.rows, step.request);
    }
  }
}
