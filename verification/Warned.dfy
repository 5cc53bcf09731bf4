// No silent release: while the checker alone puts a vault in grace, a vault in
// grace has had its first warning announced.

module Warned {
  import opened Wrappers
  import opened Tables
  import opened Requests
  import opened Release
  import opened Delivery
  import opened OutboxRuns
  import opened BoxLinks
  import opened ReleaseRuns
  import opened Worlds
  import opened WorldInvariants
  import opened WorldRuns
  import opened Guarantees
  import Evidence
  import Heartbeat
  import Readiness
  import RowInvariants
  import S = Sessions

  predicate FirstWarned(r: Rows, b: Outbox) {
    r.status.state == Grace ==> HasEvent(b, Event(GraceFirst, r.status.episode))
  }

  lemma HasEventGrows(b: Outbox, c: Outbox, e: Event)
    requires Grows(b, c) && HasEvent(b, e)
    ensures HasEvent(c, e)
  {
    hide JobGrows;
    var i :| 0 <= i < |b.events| && b.events[i] == e;
    assert c.events[..|b.events|][i] == c.events[i];
  }

  lemma WarnOnceAnnounces(r: Rows, b: Outbox, k: Kind, listing: seq<int>, now: Time)
    ensures HasEvent(WarnOnce(r, b, k, listing, now), Event(k, r.status.episode))
  {
    hide Notices;
    var c := WarnOnce(r, b, k, listing, now);
    if !HasEvent(b, Event(k, r.status.episode)) {
      assert c.events[|b.events|] == Event(k, r.status.episode);
    }
  }

  lemma {:induction false} WarnAllAnnounces(r: Rows, b: Outbox, kinds: seq<Kind>, listing: seq<int>, now: Time, k: Kind)
    requires BoxGood(b) && k in kinds
    ensures HasEvent(WarnAll(r, b, kinds, listing, now), Event(k, r.status.episode))
    decreases |kinds|
  {
    hide HasEvent, WarnOnce, BoxGood, Grows;
    var n := |kinds| - 1;
    var c := WarnAll(r, b, kinds[..n], listing, now);
    WarnAllGood(r, b, kinds[..n], listing, now);
    WarnOnceAnnounces(r, c, kinds[n], listing, now);
    if k != kinds[n] {
      assert k in kinds[..n];
      WarnAllAnnounces(r, b, kinds[..n], listing, now, k);
      WarnOnceGood(r, c, kinds[n], listing, now);
      HasEventGrows(c, WarnOnce(r, c, kinds[n], listing, now), Event(k, r.status.episode));
    }
  }

  // A check that does not release leaves time before the deadline.
  lemma CheckedInTime(r: Rows, q: Request)
    requires q.Check? && Apply(r, q).Done? && !Releases(r, q)
    requires RowInvariants.SwitchValid(r)
    ensures var s := Next(r, q);
            && s.config.Some? && s.config.value.lastCheckIn.Some? && s.status.graceStarted.Some?
            && q.now < Heartbeat.ReleaseTime(s.config.value)
  {
    hide Readiness.ReleaseReady;
  }

  lemma CheckAnnounces(r: Rows, q: Request, b: Outbox, listing: seq<int>)
    requires q.Check? && Apply(r, q).Done? && !Releases(r, q)
    requires RowInvariants.SwitchValid(r) && BoxGood(b)
    ensures FirstWarned(Next(r, q), StageWarning(Next(r, q), b, listing, q.now))
  {
    hide Next, Apply, Releases, BoxGood, HasEvent, WarnAll, RowInvariants.SwitchValid, Heartbeat.ReleaseTime;
    CheckedInTime(r, q);
    WarnAllAnnounces(Next(r, q), b, WarningKinds(Next(r, q), q.now), listing, q.now, GraceFirst);
  }

  // A step that does not enter grace keeps what was warned of.
  lemma KeepsWarned(r: Rows, s: Rows, b: Outbox, c: Outbox)
    requires FirstWarned(r, b) && Grows(b, c)
    requires s.status.state == Grace ==> r.status.state == Grace && s.status.episode == r.status.episode
    ensures FirstWarned(s, c)
  {
    hide HasEvent, Grows;
    if s.status.state == Grace {
      HasEventGrows(b, c, Event(GraceFirst, r.status.episode));
    }
  }

  // Grace is entered by the checker, and otherwise by StartGrace alone.
  lemma EntersGrace(r: Rows, q: Request)
    requires !q.Check? && !q.StartGrace? && Next(r, q).status.state == Grace
    ensures r.status.state == Grace && Next(r, q).status.episode == r.status.episode
  {
    if !Evidence.ForSwitch(q) {
      hide Next;
      Evidence.SwitchUnchanged(r, q);
    } else {
      hide Readiness.ReleaseReady, Heartbeat.Deadline, Heartbeat.ReleaseTime;
    }
  }

  predicate StartsGrace(step: Step) {
    step.Route? && step.request.StartGrace?
  }

  lemma SwitchOf(w: World)
    requires WorldInv(w)
    ensures RowInvariants.SwitchValid(w.rows) && BoxGood(w.box)
  {
    hide Linked, BoxGood, SessionsOk, S.AuthInv, RowInvariants.SwitchValid, RowInvariants.CeremoniesValid,
         RowInvariants.VaultValid, RowInvariants.PeopleValid;
  }

  lemma RouteWarned(w: World, q: Request, listing: seq<int>, sms: bool, epoch: string, at: Time)
    requires WorldInv(w) && FirstWarned(w.rows, w.box) && !q.StartGrace?
    ensures var v := Routed(w, q, listing, sms, epoch, at);
            FirstWarned(v.rows, v.box)
  {
    hide WorldInv, FirstWarned, Apply, Lists, Signed, Grows, BoxGood, StageWarning, AnnounceRelease;
    SwitchOf(w);
    if Apply(w.rows, q).Done? {
      var s := Apply(w.rows, q).rows;
      AnnouncedGood(w.rows, s, w.box, q, listing, sms);
      if q.Check? && !Releases(w.rows, q) {
        CheckWarns(w.rows, q);
        CheckAnnounces(w.rows, q, w.box, listing);
      } else {
        if q.Check? {
          assert s.status.state == Triggered by { CheckReleases(w.rows, q); }
        } else if s.status.state == Grace {
          EntersGrace(w.rows, q);
        }
        KeepsWarned(w.rows, s, w.box, Announced(w.rows, s, w.box, q, listing, sms));
      }
    }
  }

  lemma CheckReleases(r: Rows, q: Request)
    requires Releases(r, q)
    ensures Next(r, q).status.state == Triggered
  {
    hide Next;
  }

  lemma OtherWarned(w: World, step: Step)
    requires WorldInv(w) && FirstWarned(w.rows, w.box) && !step.Route?
    ensures FirstWarned(NextWorld(w, step).rows, NextWorld(w, step).box)
  {
    hide WorldInv, FirstWarned, NextWorld, Grows, AuthMoves;
    StepMoves(w, step);
    SameSwitch(w, step);
    KeepsWarned(w.rows, NextWorld(w, step).rows, w.box, NextWorld(w, step).box);
  }

  lemma SameSwitch(w: World, step: Step)
    requires !step.Route?
    ensures NextWorld(w, step).rows.status.state == w.rows.status.state
    ensures NextWorld(w, step).rows.status.episode == w.rows.status.episode
  {
    hide Worked, S.Rotate, S.RevokeCookie, CancelRecipient, S.RevokeBeneficiary, Announce, S.Redeem, S.Redeemable,
         S.LinkSent, S.AddChallenge, S.Issue;
  }

  lemma {:induction false} WarnedRun(steps: seq<Step>)
    requires forall i :: 0 <= i < |steps| ==> !StartsGrace(steps[i])
    ensures FirstWarned(AfterWorld(START, steps).rows, AfterWorld(START, steps).box)
    decreases |steps|
  {
    hide NextWorld, FirstWarned, WorldInv, Routed;
    if steps == [] {
      assert FirstWarned(START.rows, START.box) by { StartWarned(); }
    } else {
      var n := |steps| - 1;
      var w := AfterWorld(START, steps[..n]);
      WarnedRun(steps[..n]);
      StartOk();
      RunMoves(START, steps[..n]);
      MovesValid(START, w);
      if steps[n].Route? {
        var q := steps[n];
        assert !StartsGrace(steps[n]);
        RouteWarned(w, q.request, q.listing, q.sms, q.epoch, q.at);
        RouteIs(w, q);
      } else {
        OtherWarned(w, steps[n]);
      }
    }
  }

  lemma RouteIs(w: World, step: Step)
    requires step.Route?
    ensures NextWorld(w, step) == Routed(w, step.request, step.listing, step.sms, step.epoch, step.at)
  {
    hide Routed;
  }

  lemma StartWarned()
    ensures FirstWarned(START.rows, START.box)
  {
  }

  // Reachable by a run in which the checker alone starts grace.
  ghost predicate ReachableByChecker(w: World) {
    exists steps :: Runs(START, steps, w) && NoneStartsGrace(steps)
  }

  predicate NoneStartsGrace(steps: seq<Step>) {
    forall i :: 0 <= i < |steps| ==> !StartsGrace(steps[i])
  }

  // A vault then released out of grace, by the clock or by hand, had its first
  // warning of that episode announced.
  lemma WarnedBeforeRelease(w: World, step: Step)
    requires ReachableByChecker(w) && ReleasesNow(w, step) && w.rows.status.state == Grace
    ensures HasEvent(w.box, Event(GraceFirst, w.rows.status.episode))
  {
    hide AfterWorld, HasEvent, ReleasesNow, StartsGrace;
    var steps :| Runs(START, steps, w) && NoneStartsGrace(steps);
    WarnedRun(steps);
  }
}
