// Where the claims of a delivery job went: each attempt counted ended in a
// result, was lost, or is still out.

module Attempts {
  import opened Wrappers
  import opened Tables
  import opened Requests
  import opened Beneficiaries
  import opened Release
  import opened Delivery
  import opened BoxInvariants
  import opened OutboxRuns
  import opened Worlds
  import opened WorldInvariants
  import opened WorldRuns
  import S = Sessions

  // ---------------------------------------------------------------------
  // How a claim ends without a result
  // ---------------------------------------------------------------------

  predicate InBoth(b: Outbox, c: Outbox, i: nat) {
    i < |b.jobs| && i < |c.jobs| && b.jobs[i].token.Some?
  }

  // The lease ran out and the job was claimed again.
  predicate Lapsed(b: Outbox, c: Outbox, i: nat) {
    InBoth(b, c, i) && c.jobs[i].token.Some? && c.jobs[i].token != b.jobs[i].token
  }

  // A release hold sent the job back to wait.
  predicate Requeued(b: Outbox, c: Outbox, i: nat) {
    InBoth(b, c, i) && c.jobs[i].token.None? && c.log == b.log && Live(c.jobs[i])
  }

  // The job was dropped before sending, or cancelled or cleaned up while claimed.
  predicate Dropped(b: Outbox, c: Outbox, i: nat) {
    InBoth(b, c, i) && c.jobs[i].token.None? && c.log == b.log && !Live(c.jobs[i])
  }

  function BoxAfter(steps: seq<Step>): Outbox {
    AfterWorld(START, steps).box
  }

  function One(b: bool): nat {
    if b then 1 else 0
  }

  // How often that happened to job i in a run from the start.
  function Lapses(steps: seq<Step>, i: nat): nat
    decreases |steps|
  {
    if steps == [] then 0
    else Lapses(steps[..|steps| - 1], i) + One(Lapsed(BoxAfter(steps[..|steps| - 1]), BoxAfter(steps), i))
  }

  function Requeues(steps: seq<Step>, i: nat): nat
    decreases |steps|
  {
    if steps == [] then 0
    else Requeues(steps[..|steps| - 1], i) + One(Requeued(BoxAfter(steps[..|steps| - 1]), BoxAfter(steps), i))
  }

  function Drops(steps: seq<Step>, i: nat): nat
    decreases |steps|
  {
    if steps == [] then 0
    else Drops(steps[..|steps| - 1], i) + One(Dropped(BoxAfter(steps[..|steps| - 1]), BoxAfter(steps), i))
  }

  // ---------------------------------------------------------------------
  // One transaction, one job
  // ---------------------------------------------------------------------

  predicate SameResults(b: Outbox, c: Outbox, i: nat) {
    Written(c.log, i) == Written(b.log, i) && Retried(c.log, i) == Retried(b.log, i)
  }

  predicate Kept(b: Outbox, c: Outbox, i: nat)
    requires i < |b.jobs| && i < |c.jobs|
  {
    c.jobs[i].token == b.jobs[i].token && c.jobs[i].attempts == b.jobs[i].attempts && SameResults(b, c, i)
  }

  predicate Claimed(b: Outbox, c: Outbox, i: nat)
    requires i < |b.jobs| && i < |c.jobs|
  {
    && c.jobs[i].token.Some? && c.jobs[i].token != b.jobs[i].token
    && c.jobs[i].attempts == b.jobs[i].attempts + 1 && c.log == b.log
  }

  predicate Lost(b: Outbox, c: Outbox, i: nat)
    requires i < |b.jobs| && i < |c.jobs|
  {
    && b.jobs[i].token.Some? && c.jobs[i].token.None?
    && c.jobs[i].attempts == b.jobs[i].attempts && c.log == b.log
  }

  predicate Answered(b: Outbox, c: Outbox, i: nat)
    requires i < |b.jobs| && i < |c.jobs|
  {
    && b.jobs[i].token.Some? && c.jobs[i].token.None?
    && c.jobs[i].attempts == b.jobs[i].attempts
    && |c.log| == |b.log| + 1 && c.log[..|b.log|] == b.log && c.log[|b.log|].job == i
  }

  predicate New(c: Outbox, i: nat)
    requires i < |c.jobs|
  {
    c.jobs[i].attempts == 0 && c.jobs[i].token.None? && Live(c.jobs[i])
  }

  predicate Stepped(b: Outbox, c: Outbox) {
    && |b.jobs| <= |c.jobs|
    && (forall i :: 0 <= i < |b.jobs| ==> Kept(b, c, i) || Claimed(b, c, i) || Lost(b, c, i) || Answered(b, c, i))
    && (forall i :: |b.jobs| <= i < |c.jobs| ==> New(c, i) && c.log == b.log)
  }

  // A transaction that claims nothing and answers nothing.
  predicate Quiet(b: Outbox, c: Outbox) {
    && c.log == b.log && |b.jobs| <= |c.jobs|
    && (forall i :: 0 <= i < |b.jobs| ==> c.jobs[i] == b.jobs[i] || c.jobs[i] == CancelledFrom(b.jobs[i]))
    && (forall i :: |b.jobs| <= i < |c.jobs| ==> New(c, i))
  }

  lemma QuietSteps(b: Outbox, c: Outbox)
    requires Quiet(b, c)
    ensures Stepped(b, c)
  {
    hide Written, Retried;
  }

  lemma QuietRefl(b: Outbox)
    ensures Quiet(b, b)
  {
  }

  lemma CancelQuiet(b: Outbox, hit: Job -> bool)
    ensures Quiet(b, CancelWhere(b, hit))
  {
  }

  lemma AnnounceQuiet(b: Outbox, e: Event, to: seq<Addressee>, now: Time, expires: Option<Time>)
    ensures Quiet(b, Announce(b, e, to, now, expires))
  {
    hide CancelledFrom;
  }

  lemma CancelAnnounceQuiet(b: Outbox, hit: Job -> bool, e: Event, to: seq<Addressee>, now: Time, expires: Option<Time>)
    ensures Quiet(b, Announce(CancelWhere(b, hit), e, to, now, expires))
  {
    hide CancelledFrom;
  }

  // What no cancellation touches.
  predicate Adds(b: Outbox, c: Outbox) {
    && c.log == b.log && |b.jobs| <= |c.jobs| && c.jobs[..|b.jobs|] == b.jobs
    && (forall i :: |b.jobs| <= i < |c.jobs| ==> New(c, i))
  }

  lemma AddsTransitive(b: Outbox, c: Outbox, d: Outbox)
    requires Adds(b, c) && Adds(c, d)
    ensures Adds(b, d)
  {
    assert d.jobs[..|b.jobs|] == d.jobs[..|c.jobs|][..|b.jobs|];
    forall i | |b.jobs| <= i < |d.jobs| ensures New(d, i) {
      if i < |c.jobs| {
        assert d.jobs[i] == d.jobs[..|c.jobs|][i] && New(c, i);
      }
    }
  }

  lemma WarnOnceAdds(r: Rows, b: Outbox, k: Kind, listing: seq<int>, now: Time)
    ensures Adds(b, WarnOnce(r, b, k, listing, now))
  {
    hide Notices, HasEvent;
    assert b.jobs[..|b.jobs|] == b.jobs;
  }

  lemma {:induction false} WarnAllAdds(r: Rows, b: Outbox, kinds: seq<Kind>, listing: seq<int>, now: Time)
    ensures Adds(b, WarnAll(r, b, kinds, listing, now))
    decreases |kinds|
  {
    hide WarnOnce;
    if kinds == [] {
      assert b.jobs[..|b.jobs|] == b.jobs;
    } else {
      hide Adds;
      var n := |kinds| - 1;
      WarnAllAdds(r, b, kinds[..n], listing, now);
      WarnOnceAdds(r, WarnAll(r, b, kinds[..n], listing, now), kinds[n], listing, now);
      AddsTransitive(b, WarnAll(r, b, kinds[..n], listing, now), WarnAll(r, b, kinds, listing, now));
    }
  }

  lemma AddsQuiet(b: Outbox, c: Outbox)
    requires Adds(b, c)
    ensures Quiet(b, c)
  {
    hide CancelledFrom;
    forall i | 0 <= i < |b.jobs| ensures c.jobs[i] == b.jobs[i] {
      assert c.jobs[i] == c.jobs[..|b.jobs|][i];
    }
  }

  lemma StageQuiet(r: Rows, b: Outbox, listing: seq<int>, now: Time)
    ensures Quiet(b, StageWarning(r, b, listing, now))
  {
    hide WarnAll, Quiet, Adds;
    QuietRefl(b);
    if r.config.Some? && r.config.value.lastCheckIn.Some? && r.status.graceStarted.Some? {
      WarnAllAdds(r, b, WarningKinds(r, now), listing, now);
      AddsQuiet(b, WarnAll(r, b, WarningKinds(r, now), listing, now));
    }
  }

  lemma AnnouncedQuiet(r: Rows, s: Rows, b: Outbox, q: Request, listing: seq<int>, sms: bool)
    ensures Quiet(b, Announced(r, s, b, q, listing, sms))
  {
    hide Quiet, CancelWhere, StageWarning, Announce, Notices, Warns, Addressed;
    QuietRefl(b);
    match q
    case InvitePerson(id, token, now) =>
      CancelRecipientIs(b, id);
      if id in s.people {
        CancelAnnounceQuiet(b, j => Addressed(j, id), Event(InvitationEvent, s.status.version),
                            [Addressee(PersonOf(s, id), Email)], now, Some(now + INVITATION_LIFE));
      }
    case UpdatePerson(id, change) => RecipientQuiet(b, id);
    case DeletePerson(id) => RecipientQuiet(b, id);
    case SaveSettings(settings, now) => WarningsQuiet(b);
    case RecordCheckIn(now) => WarningsQuiet(b);
    case Trigger(reason, now, hold) => ReleaseQuiet(s, b, listing, sms, now);
    case Check(now, hold) =>
      ReleaseQuiet(s, b, listing, sms, now);
      StageQuiet(s, b, listing, now);
    case _ =>
  }

  lemma RecipientQuiet(b: Outbox, id: int)
    ensures Quiet(b, CancelRecipient(b, id))
  {
    hide Quiet, CancelRecipient;
    CancelRecipientIs(b, id);
    CancelQuiet(b, j => Addressed(j, id));
  }

  lemma WarningsQuiet(b: Outbox)
    ensures Quiet(b, CancelWarnings(b))
  {
    hide Quiet, CancelWarnings;
    CancelWarningsIs(b);
    CancelQuiet(b, j => Warns(b, j));
  }

  lemma ReleaseQuiet(r: Rows, b: Outbox, listing: seq<int>, sms: bool, now: Time)
    ensures Quiet(b, AnnounceRelease(r, b, listing, sms, now))
  {
    hide Quiet, CancelWarnings, Notices, Announce;
    CancelWarningsIs(b);
    CancelAnnounceQuiet(b, j => Warns(b, j), Event(ReleasedEvent, r.status.version), Notices(r, listing, sms), now,
                        None);
  }

  // ---------------------------------------------------------------------
  // The worker's transactions
  // ---------------------------------------------------------------------

  lemma ClaimStepped(b: Outbox, picks: seq<nat>, now: Time, hold: bool, limit: nat, locked: set<nat>)
    requires BoxInv(b) && Batch(b, picks, now, hold, limit, locked)
    ensures Stepped(b, ClaimAll(b, picks, now))
  {
    var c := ClaimAll(b, picks, now);
    hide ClaimAll, Due, Permitted, Written, Retried;
    assert forall p :: 0 <= p < |picks| ==> Candidate(b, picks[p], now, hold, locked);
    BatchClaimed(b, picks, now);
    ClaimAllFrame(b, picks, now);
    forall i | 0 <= i < |b.jobs| ensures Kept(b, c, i) || Claimed(b, c, i) {
      if i in picks {
        var p :| 0 <= p < |picks| && picks[p] == i;
        TokenPast(b, i);
        assert c.jobs[i] == ClaimedAs(b.jobs[i], |b.issued| + p, now);
      }
    }
  }

  lemma TokenPast(b: Outbox, i: nat)
    requires BoxInv(b) && i < |b.jobs|
    ensures b.jobs[i].token.Some? ==> b.jobs[i].token.value < |b.issued|
  {
    hide Count, LogOk, PayloadOk;
    assert JobOk(b, i);
  }

  lemma PreSendStepped(r: Rows, b: Outbox, i: nat, token: nat, now: Time, hold: bool, readable: bool)
    ensures Stepped(b, PreSend(r, b, i, token, now, hold, readable))
  {
    hide Obsolete, Permitted, Written, Retried;
  }

  lemma PostSendStepped(b: Outbox, i: nat, token: nat, sent: Sent, now: Time, jitter: nat)
    ensures Stepped(b, PostSend(b, i, token, sent, now, jitter))
  {
    hide VerdictOf, Judged, Written, Retried;
    if Sending(b, i, token) && Holder(b, i, token) {
      var c := PostSend(b, i, token, sent, now, jitter);
      JudgedToken(b.jobs[i], sent, now, jitter);
      forall k | 0 <= k < |b.jobs| && k != i ensures Kept(b, c, k) {
        LogSnoc(b.log, WriteBack(i, token, VerdictOf(b.jobs[i], sent)), k);
      }
    }
  }

  lemma JudgedToken(j: Job, sent: Sent, now: Time, jitter: nat)
    ensures Judged(j, sent, now, jitter).token.None? && Judged(j, sent, now, jitter).attempts == j.attempts
  {
    hide RetryDelay;
  }

  predicate Cleansed(j: Job, k: Job) {
    k.attempts == j.attempts && (k.token == j.token || k.token.None?)
  }

  lemma {:induction false} CleanAllCleanses(b: Outbox, picks: seq<nat>)
    ensures |CleanAll(b, picks).jobs| == |b.jobs|
    ensures forall i :: 0 <= i < |b.jobs| ==> Cleansed(b.jobs[i], CleanAll(b, picks).jobs[i])
    decreases |picks|
  {
    if picks != [] {
      CleanAllCleanses(b, picks[..|picks| - 1]);
    }
  }

  lemma CleanStepped(b: Outbox, picks: seq<nat>)
    ensures Stepped(b, CleanAll(b, picks))
  {
    hide CleanAll, Written, Retried;
    CleanAllCleanses(b, picks);
    CleanAllFrame(b, picks);
    var c := CleanAll(b, picks);
    forall i | 0 <= i < |b.jobs| ensures Kept(b, c, i) || Lost(b, c, i) {
      assert Cleansed(b.jobs[i], c.jobs[i]);
    }
  }

  lemma SteppedRefl(b: Outbox)
    ensures Stepped(b, b)
  {
    hide Written, Retried;
  }

  lemma WorkStepped(r: Rows, b: Outbox, w: Work)
    requires BoxInv(b)
    ensures Stepped(b, Worked(r, b, w))
  {
    hide BoxInv, Stepped, Batch, CleanupBatch, ClaimAll, CleanAll, PreSend, PostSend;
    SteppedRefl(b);
    match w
    case Claim(picks, now, hold, limit, locked) =>
      if Batch(b, picks, now, hold, limit, locked) { ClaimStepped(b, picks, now, hold, limit, locked); }
    case Start(job, token, now, hold, readable) => PreSendStepped(r, b, job, token, now, hold, readable);
    case Finish(job, token, sent, now, jitter) => PostSendStepped(b, job, token, sent, now, jitter);
    case CleanUp(picks, now) => CleanStepped(b, picks);
  }

  lemma RoutedQuiet(w: World, q: Request, listing: seq<int>, sms: bool, epoch: string, at: Time)
    ensures Quiet(w.box, Routed(w, q, listing, sms, epoch, at).box)
  {
    hide Quiet, Apply, Announced, Signed, Lists;
    QuietRefl(w.box);
    if Apply(w.rows, q).Done? {
      AnnouncedQuiet(w.rows, Apply(w.rows, q).rows, w.box, q, listing, sms);
    }
  }

  lemma OthersQuiet(w: World, step: Step)
    requires !step.Route? && !step.Deliver?
    ensures Quiet(w.box, NextWorld(w, step).box)
  {
    hide Quiet, S.Rotate, S.RevokeCookie, S.RevokeBeneficiary, S.Issue, S.Redeem, S.Redeemable, S.LinkSent,
         S.AddChallenge, CancelRecipient, Announce, Routed;
    QuietRefl(w.box);
    match step
    case SignOutEverywhere(id, now) => RecipientQuiet(w.box, id);
    case AskLink(id, email, only, found, epoch, now) =>
      if id in w.rows.people {
        AnnounceQuiet(w.box, Event(LoginEvent, Lock(w.rows).status.version),
                      [Addressee(PersonOf(Lock(w.rows), id), Email)], now, Some(now + S.LINK_LIFE));
      }
      LinkSentKnown(w, id, email, only, now);
    case _ =>
  }

  lemma LinkSentKnown(w: World, id: int, email: string, only: Option<int>, now: Time)
    ensures S.LinkSent(w.rows, w.auth, id, email, only, now) ==> id in w.rows.people
  {
    hide S.RecentLink;
  }

  lemma StepStepped(w: World, step: Step)
    requires BoxInv(w.box)
    ensures Stepped(w.box, NextWorld(w, step).box)
  {
    hide BoxInv, Stepped, Quiet, Routed, Rotated, LinkAsked, Worked, Lock, CancelRecipient;
    if step.Deliver? {
      WorkStepped(w.rows, w.box, step.work);
    } else if step.Route? {
      RoutedQuiet(w, step.request, step.listing, step.sms, step.epoch, step.at);
      QuietSteps(w.box, NextWorld(w, step).box);
    } else {
      OthersQuiet(w, step);
      QuietSteps(w.box, NextWorld(w, step).box);
    }
  }

  // ---------------------------------------------------------------------
  // What the losses mean
  // ---------------------------------------------------------------------

  lemma JobFacts(b: Outbox, i: nat)
    requires BoxInv(b) && i < |b.jobs|
    ensures b.jobs[i].token.Some? <==> b.jobs[i].state == ClaimedJob
    ensures b.jobs[i].token.Some? ==> Live(b.jobs[i])
    ensures Live(b.jobs[i]) ==> Written(b.log, i) == Retried(b.log, i)
    ensures Written(b.log, i) <= 8 && Retried(b.log, i) <= 7
  {
    hide Count, Written, Retried;
    assert JobOk(b, i);
  }

  lemma QuietLosesNone(b: Outbox, c: Outbox, i: nat)
    requires Quiet(b, c)
    ensures !Lapsed(b, c, i) && !Requeued(b, c, i)
  {
  }

  predicate SentBack(w: Work, i: nat) {
    w.Start? && w.job == i && w.hold
  }

  lemma WorkLosses(r: Rows, b: Outbox, w: Work, i: nat)
    requires BoxInv(b) && i < |b.jobs|
    ensures Lapsed(b, Worked(r, b, w), i) ==> w.Claim? && i in w.picks && Due(b.jobs[i], w.now)
    ensures Requeued(b, Worked(r, b, w), i) ==> SentBack(w, i)
  {
    hide BoxInv, Batch, Written, Retried, Obsolete, Judged, VerdictOf, Warns, KindIs;
    JobFacts(b, i);
    match w
    case Claim(picks, now, hold, limit, locked) =>
      if Batch(b, picks, now, hold, limit, locked) { ClaimLosses(b, picks, now, hold, limit, locked, i); }
    case Start(job, token, now, hold, readable) =>
    case Finish(job, token, sent, now, jitter) => FinishLosses(b, job, token, sent, now, jitter, i);
    case CleanUp(picks, now) => CleanLosses(b, picks, i);
  }

  lemma ClaimLosses(b: Outbox, picks: seq<nat>, now: Time, hold: bool, limit: nat, locked: set<nat>, i: nat)
    requires BoxInv(b) && Batch(b, picks, now, hold, limit, locked) && i < |b.jobs|
    ensures Lapsed(b, ClaimAll(b, picks, now), i) ==> i in picks && Due(b.jobs[i], now)
    ensures !Requeued(b, ClaimAll(b, picks, now), i)
  {
    hide ClaimAll, Permitted, Due, BoxInv;
    assert forall p :: 0 <= p < |picks| ==> Candidate(b, picks[p], now, hold, locked);
    BatchClaimed(b, picks, now);
  }

  lemma FinishLosses(b: Outbox, job: nat, token: nat, sent: Sent, now: Time, jitter: nat, i: nat)
    ensures !Lapsed(b, PostSend(b, job, token, sent, now, jitter), i)
    ensures !Requeued(b, PostSend(b, job, token, sent, now, jitter), i)
  {
    hide Judged, VerdictOf;
    if Holder(b, job, token) {
      JudgedToken(b.jobs[job], sent, now, jitter);
    }
  }

  lemma {:induction false} CleanLosses(b: Outbox, picks: seq<nat>, i: nat)
    requires i < |b.jobs| && (b.jobs[i].token.Some? ==> Live(b.jobs[i]))
    ensures var c := CleanAll(b, picks);
            |c.jobs| == |b.jobs| && (c.jobs[i].token == b.jobs[i].token || !Live(c.jobs[i]))
    ensures !Lapsed(b, CleanAll(b, picks), i) && !Requeued(b, CleanAll(b, picks), i)
    decreases |picks|
  {
    if picks != [] {
      CleanLosses(b, picks[..|picks| - 1], i);
      CleanAllCleanses(b, picks);
    }
  }

  // The two ways to lose a claim: the worker claims the job again when its
  // lease has run out, or a release hold sends it back before sending.
  lemma LossesMean(w: World, step: Step, i: nat)
    requires WorldInv(w) && i < |w.box.jobs|
    ensures var c := NextWorld(w, step).box; var j := w.box.jobs[i];
            && (Lapsed(w.box, c, i) ==>
                  && step.Deliver? && step.work.Claim? && i in step.work.picks
                  && j.leaseUntil.Some? && j.leaseUntil.value <= step.work.now)
            && (Requeued(w.box, c, i) ==> step.Deliver? && SentBack(step.work, i))
  {
    hide BoxInv, Quiet, Routed, Rotated, LinkAsked, Worked, Lock, CancelRecipient, WorldInv, Written, Retried;
    WorldBox(w);
    JobFacts(w.box, i);
    if step.Deliver? {
      WorkLosses(w.rows, w.box, step.work, i);
    } else if step.Route? {
      RoutedQuiet(w, step.request, step.listing, step.sms, step.epoch, step.at);
      QuietLosesNone(w.box, NextWorld(w, step).box, i);
    } else {
      OthersQuiet(w, step);
      QuietLosesNone(w.box, NextWorld(w, step).box, i);
    }
  }

  // ---------------------------------------------------------------------
  // The account
  // ---------------------------------------------------------------------

  // A live job has not been dropped; a dropped one was, once, and every result
  // it had asked to retry.
  predicate Account(b: Outbox, i: nat, lapses: nat, requeues: nat, drops: nat) {
    if i < |b.jobs| then
      && b.jobs[i].attempts == Written(b.log, i) + lapses + requeues + drops + One(b.jobs[i].state == ClaimedJob)
      && drops <= 1 && (Live(b.jobs[i]) ==> drops == 0)
      && (drops == 1 ==> Written(b.log, i) == Retried(b.log, i))
    else lapses == requeues == drops == 0
  }

  lemma NewResults(b: Outbox, i: nat)
    requires BoxInv(b) && i >= |b.jobs|
    ensures Written(b.log, i) == 0 && Retried(b.log, i) == 0
  {
    hide Count, LogOk, PayloadOk, TokenOk;
    LogAbsent(b.log, i);
  }

  lemma AnsweredResults(b: Outbox, c: Outbox, i: nat)
    requires i < |b.jobs| && i < |c.jobs| && Answered(b, c, i)
    ensures Written(c.log, i) == Written(b.log, i) + 1
  {
    assert c.log == b.log + [c.log[|b.log|]];
    LogSnoc(b.log, c.log[|b.log|], i);
  }

  lemma AccountOld(b: Outbox, c: Outbox, i: nat, lapses: nat, requeues: nat, drops: nat)
    requires BoxInv(b) && BoxInv(c) && Grows(b, c) && Stepped(b, c) && i < |b.jobs|
    requires Account(b, i, lapses, requeues, drops)
    ensures Account(c, i, lapses + One(Lapsed(b, c, i)), requeues + One(Requeued(b, c, i)),
                    drops + One(Dropped(b, c, i)))
  {
    hide BoxInv, Written, Retried, Prefix;
    JobFacts(b, i); JobFacts(c, i);
    assert JobGrows(b.jobs[i], c.jobs[i]);
    if Answered(b, c, i) {
      AnsweredResults(b, c, i);
    }
  }

  lemma AccountNew(b: Outbox, c: Outbox, i: nat)
    requires BoxInv(b) && BoxInv(c) && Stepped(b, c) && i >= |b.jobs|
    ensures Account(c, i, 0, 0, 0)
  {
    hide BoxInv, Written, Retried;
    if i < |c.jobs| {
      NewResults(b, i);
      JobFacts(c, i);
      assert New(c, i) && c.log == b.log;
    }
  }

  lemma AccountStep(b: Outbox, c: Outbox, i: nat, lapses: nat, requeues: nat, drops: nat)
    requires BoxInv(b) && BoxInv(c) && Grows(b, c) && Stepped(b, c) && Account(b, i, lapses, requeues, drops)
    ensures Account(c, i, lapses + One(Lapsed(b, c, i)), requeues + One(Requeued(b, c, i)),
                    drops + One(Dropped(b, c, i)))
  {
    hide BoxInv, Stepped, Grows;
    if i < |b.jobs| {
      AccountOld(b, c, i, lapses, requeues, drops);
    } else {
      AccountNew(b, c, i);
      hide Account;
    }
  }

  lemma {:induction false} RunAccount(steps: seq<Step>, i: nat)
    ensures WorldInv(AfterWorld(START, steps))
    ensures Account(BoxAfter(steps), i, Lapses(steps, i), Requeues(steps, i), Drops(steps, i))
    decreases |steps|
  {
    hide WorldInv, Moves, NextWorld, Lapsed, Requeued, Dropped, Account, AuthMoves;
    StartOk();
    RunMoves(START, steps);
    MovesValid(START, AfterWorld(START, steps));
    if steps == [] {
      StartAccount(i);
    } else {
      var w := AfterWorld(START, steps[..|steps| - 1]);
      RunAccount(steps[..|steps| - 1], i);
      StepAccount(w, steps[|steps| - 1], i, Lapses(steps[..|steps| - 1], i), Requeues(steps[..|steps| - 1], i),
                  Drops(steps[..|steps| - 1], i));
    }
  }

  lemma StartAccount(i: nat)
    ensures Account(START.box, i, 0, 0, 0)
  {
  }

  lemma StepAccount(w: World, step: Step, i: nat, lapses: nat, requeues: nat, drops: nat)
    requires WorldInv(w) && Account(w.box, i, lapses, requeues, drops)
    ensures var c := NextWorld(w, step).box;
            Account(c, i, lapses + One(Lapsed(w.box, c, i)), requeues + One(Requeued(w.box, c, i)),
                    drops + One(Dropped(w.box, c, i)))
  {
    hide WorldInv, NextWorld, Lapsed, Requeued, Dropped, Account, AuthMoves, Grows, Stepped, BoxInv, One;
    StepMoves(w, step);
    WorldBox(w);
    WorldBox(NextWorld(w, step));
    StepStepped(w, step);
    AccountStep(w.box, NextWorld(w, step).box, i, lapses, requeues, drops);
  }

  lemma WorldBox(w: World)
    requires WorldInv(w)
    ensures BoxInv(w.box)
  {
    hide BoxInv;
  }

  // The attempt counter of a job, after every run: results written back, claims
  // lost to a lapse, a hold or a drop, and the claim now out.
  lemma AttemptsExact(steps: seq<Step>, i: nat)
    requires i < |BoxAfter(steps).jobs|
    ensures var b := BoxAfter(steps);
            && b.jobs[i].attempts == Written(b.log, i) + Lapses(steps, i) + Requeues(steps, i) + Drops(steps, i)
                                     + One(b.jobs[i].state == ClaimedJob)
            && Drops(steps, i) <= 1 && (Live(b.jobs[i]) ==> Drops(steps, i) == 0)
  {
    hide WorldInv, Written, Lapses, Requeues, Drops, BoxAfter;
    RunAccount(steps, i);
  }

  // Beyond the attempts lost to a lapse or a hold there are at most eight.
  lemma AttemptsBeyondLosses(steps: seq<Step>, i: nat)
    requires i < |BoxAfter(steps).jobs|
    ensures BoxAfter(steps).jobs[i].attempts <= 8 + Lapses(steps, i) + Requeues(steps, i)
  {
    hide WorldInv, Written, Retried, Lapses, Requeues, Drops;
    RunAccount(steps, i);
    WorldBox(AfterWorld(START, steps));
    JobFacts(BoxAfter(steps), i);
  }

  // A ninth attempt means that some claim of the job lapsed or was sent back by
  // a hold; a job that lost none that way has at most eight.
  lemma NinthNeedsLoss(steps: seq<Step>, i: nat)
    requires i < |BoxAfter(steps).jobs| && BoxAfter(steps).jobs[i].attempts > 8
    ensures exists n | 0 < n <= |steps| ::
              var b, c := BoxAfter(steps[..n - 1]), BoxAfter(steps[..n]); Lapsed(b, c, i) || Requeued(b, c, i)
  {
    hide Lapsed, Requeued, BoxAfter;
    AttemptsBeyondLosses(steps, i);
    LossFound(steps, i);
  }

  lemma {:induction false} LossFound(steps: seq<Step>, i: nat)
    requires Lapses(steps, i) + Requeues(steps, i) > 0
    ensures exists n | 0 < n <= |steps| ::
              var b, c := BoxAfter(steps[..n - 1]), BoxAfter(steps[..n]); Lapsed(b, c, i) || Requeued(b, c, i)
    decreases |steps|
  {
    hide Lapsed, Requeued, BoxAfter;
    var k := |steps| - 1;
    var b, c := BoxAfter(steps[..k]), BoxAfter(steps);
    assert steps[..k + 1] == steps;
    if !Lapsed(b, c, i) && !Requeued(b, c, i) {
      LossFound(steps[..k], i);
      var n :| 0 < n <= k && (Lapsed(BoxAfter(steps[..k][..n - 1]), BoxAfter(steps[..k][..n]), i)
                               || Requeued(BoxAfter(steps[..k][..n - 1]), BoxAfter(steps[..k][..n]), i));
      assert steps[..k][..n - 1] == steps[..n - 1] && steps[..k][..n] == steps[..n];
    }
  }
}
