// What each transaction of the delivery worker does to which job.

module DeliveryRules {
  import opened Wrappers
  import opened Tables
  import opened Delivery
  import opened BoxInvariants
  import opened OutboxRuns
  import opened Worlds
  import opened WorldRuns
  import opened Attempts

  // Job i is out under this token.
  predicate Out(b: Outbox, i: nat, token: nat) {
    i < |b.jobs| && b.jobs[i].state == ClaimedJob && b.jobs[i].token == Some(token)
  }

  // A send of job i under this token has begun, and no answer is on record.
  predicate Begun(b: Outbox, i: nat, token: nat) {
    token in b.attempts && b.attempts[token].job == i && !b.attempts[token].completed
  }

  // Of the jobs none but the i-th has changed, and of the rest of the system
  // nothing but the outbox.
  predicate OnlyJob(w: World, v: World, i: nat) {
    && v.rows == w.rows && v.auth == w.auth && v.box.events == w.box.events && v.box.issued == w.box.issued
    && |v.box.jobs| == |w.box.jobs|
    && forall k :: 0 <= k < |w.box.jobs| && k != i ==> v.box.jobs[k] == w.box.jobs[k]
  }

  // Only these fields of a job have changed.
  predicate SameMessage(j: Job, k: Job) {
    && k.event == j.event && k.recipient == j.recipient && k.channel == j.channel && k.createdAt == j.createdAt
    && k.expires == j.expires && k.attempts == j.attempts
  }

  // ---------------------------------------------------------------------
  // Writing an answer back
  // ---------------------------------------------------------------------

  // What the provider's answer makes of the job it is about.
  predicate Answers(j: Job, k: Job, sent: Sent, now: Time, jitter: nat) {
    && SameMessage(j, k) && k.token == None && k.leaseUntil == None
    && (if sent.accepted then k.state == AcceptedJob && !k.payload && k.dueAt == j.dueAt
        else
          && k.payload == j.payload
          && if !sent.retryable || j.attempts >= 8 then k.state == DeadJob && k.dueAt == j.dueAt
             else
               && k.state == RetryJob
               && now + sent.retryAfter <= k.dueAt && (j.attempts >= 1 ==> now + 60 <= k.dueAt)
               && (k.dueAt <= now + sent.retryAfter || k.dueAt <= now + 3600 + jitter))
  }

  predicate Logged(log: seq<WriteBack>, now: seq<WriteBack>, i: nat, token: nat, j: Job, sent: Sent) {
    && |now| == |log| + 1 && now[..|log|] == log && now[|log|].job == i && now[|log|].token == token
    && (now[|log|].verdict == Delivered <==> sent.accepted)
    && (now[|log|].verdict == GaveUp <==> !sent.accepted && (!sent.retryable || j.attempts >= 8))
  }

  lemma DelayFacts(attempts: nat, retryAfter: nat, jitter: nat)
    ensures RetryDelay(attempts, retryAfter, jitter) >= retryAfter
    ensures attempts >= 1 ==> RetryDelay(attempts, retryAfter, jitter) >= 60
    ensures RetryDelay(attempts, retryAfter, jitter) <= retryAfter
            || RetryDelay(attempts, retryAfter, jitter) <= 3600 + jitter
  {
    if attempts >= 1 {
      PowerAtLeast(attempts);
    }
  }

  lemma {:induction false} PowerAtLeast(n: nat)
    requires n >= 1
    ensures Power2(n) >= 2
    decreases n
  {
    if n > 1 {
      PowerAtLeast(n - 1);
    }
  }

  // An answer that comes while the token still holds the job settles it as the
  // answer says; one that comes too late only completes its own send.
  lemma AnswerExactly(w: World, i: nat, token: nat, sent: Sent, now: Time, jitter: nat)
    ensures var v := NextWorld(w, Deliver(Finish(i, token, sent, now, jitter)));
            && OnlyJob(w, v, i)
            && (!Begun(w.box, i, token) ==> v == w)
            && (Begun(w.box, i, token) ==>
                  v.box.attempts == w.box.attempts[token := w.box.attempts[token].(completed := true)])
            && (Begun(w.box, i, token) && Out(w.box, i, token) ==>
                  && Answers(w.box.jobs[i], v.box.jobs[i], sent, now, jitter)
                  && Logged(w.box.log, v.box.log, i, token, w.box.jobs[i], sent))
            && (!Out(w.box, i, token) ==> v.box.jobs == w.box.jobs && v.box.log == w.box.log)
  {
    hide RetryDelay;
    if Out(w.box, i, token) {
      DelayFacts(w.box.jobs[i].attempts, sent.retryAfter, jitter);
    }
  }

  predicate AnsweredBy(w: World, step: Step, i: nat) {
    && step.Deliver? && step.work.Finish? && step.work.job == i && step.work.sent.accepted
    && Begun(w.box, i, step.work.token) && Out(w.box, i, step.work.token)
  }

  lemma QuietAccepts(b: Outbox, c: Outbox, i: nat)
    requires Quiet(b, c) && i < |c.jobs| && c.jobs[i].state == AcceptedJob
    ensures i < |b.jobs| && b.jobs[i].state == AcceptedJob
  {
    assert i >= |b.jobs| ==> New(c, i);
  }

  lemma {:induction false} CleanAccepts(b: Outbox, picks: seq<nat>, i: nat)
    requires i < |b.jobs|
    ensures |CleanAll(b, picks).jobs| == |b.jobs|
    ensures CleanAll(b, picks).jobs[i].state == b.jobs[i].state || CleanAll(b, picks).jobs[i].state == CancelledJob
    decreases |picks|
  {
    if picks != [] {
      CleanAccepts(b, picks[..|picks| - 1], i);
    }
  }

  lemma WorkAccepts(w: World, work: Work, i: nat)
    requires BoxInv(w.box) && i < |w.box.jobs| && w.box.jobs[i].state != AcceptedJob
    requires i < |NextWorld(w, Deliver(work)).box.jobs| && NextWorld(w, Deliver(work)).box.jobs[i].state == AcceptedJob
    ensures AnsweredBy(w, Deliver(work), i)
  {
    hide BoxInv, Batch, CleanupBatch, CleanAll, Obsolete, Permitted;
    match work
    case Claim(picks, now, hold, limit, locked) =>
      if Batch(w.box, picks, now, hold, limit, locked) { ClaimAccepts(w.box, picks, now, hold, limit, locked, i); }
    case Start(job, token, now, hold, readable) =>
    case Finish(job, token, sent, now, jitter) => AnswerExactly(w, job, token, sent, now, jitter);
    case CleanUp(picks, now) => CleanAccepts(w.box, picks, i);
  }

  lemma ClaimAccepts(b: Outbox, picks: seq<nat>, now: Time, hold: bool, limit: nat, locked: set<nat>, i: nat)
    requires Batch(b, picks, now, hold, limit, locked) && i < |b.jobs|
    ensures |ClaimAll(b, picks, now).jobs| == |b.jobs|
    ensures ClaimAll(b, picks, now).jobs[i].state == b.jobs[i].state
            || ClaimAll(b, picks, now).jobs[i].state == ClaimedJob
  {
    hide ClaimAll, Permitted, Due;
    assert forall p :: 0 <= p < |picks| ==> Candidate(b, picks[p], now, hold, locked);
    BatchClaimed(b, picks, now);
  }

  lemma StepAccepts(w: World, step: Step, i: nat)
    requires WorldInv(w) && i < |NextWorld(w, step).box.jobs| && NextWorld(w, step).box.jobs[i].state == AcceptedJob
    ensures AnsweredBy(w, step, i) || (i < |w.box.jobs| && w.box.jobs[i].state == AcceptedJob)
  {
    hide BoxInv, Quiet, Routed, Rotated, LinkAsked, Worked, Lock, CancelRecipient, WorldInv, AnsweredBy, Grows;
    if step.Deliver? {
      WorldBox(w);
      WorkGrows(w.rows, w.box, step.work);
      SameJobs(w, step.work);
      if w.box.jobs[i].state != AcceptedJob { WorkAccepts(w, step.work, i); }
    } else if step.Route? {
      RoutedQuiet(w, step.request, step.listing, step.sms, step.epoch, step.at);
      QuietAccepts(w.box, NextWorld(w, step).box, i);
    } else {
      OthersQuiet(w, step);
      QuietAccepts(w.box, NextWorld(w, step).box, i);
    }
  }

  lemma SameJobs(w: World, work: Work)
    ensures |NextWorld(w, Deliver(work)).box.jobs| == |w.box.jobs|
  {
    hide Batch, CleanupBatch, Obsolete, Permitted, Judged, VerdictOf;
    match work
    case Claim(picks, now, hold, limit, locked) => ClaimAllFrame(w.box, picks, now);
    case CleanUp(picks, now) => CleanAllFrame(w.box, picks);
    case _ =>
  }

  // In every run, a job is accepted only because an accepting answer was
  // written back under the claim it was out under.
  lemma {:induction false} AcceptedWasAnswered(steps: seq<Step>, i: nat) returns (n: nat)
    requires i < |BoxAfter(steps).jobs| && BoxAfter(steps).jobs[i].state == AcceptedJob
    ensures n < |steps| && AnsweredBy(AfterWorld(START, steps[..n]), steps[n], i)
    decreases |steps|
  {
    hide WorldInv, NextWorld, AnsweredBy, Moves;
    if steps != [] {
      var k := |steps| - 1;
      var w := AfterWorld(START, steps[..k]);
      StartOk();
      RunMoves(START, steps[..k]);
      MovesValid(START, w);
      StepAccepts(w, steps[k], i);
      if AnsweredBy(w, steps[k], i) {
        n := k;
      } else {
        n := AcceptedWasAnswered(steps[..k], i);
        assert steps[..k][..n] == steps[..n];
      }
    }
  }

  // ---------------------------------------------------------------------
  // Before the provider is called
  // ---------------------------------------------------------------------

  predicate KindOf(b: Outbox, j: Job, kinds: set<Kind>) {
    j.event < |b.events| && b.events[j.event].kind in kinds
  }

  // Held back while there is a release hold.
  predicate HeldBack(b: Outbox, j: Job, hold: bool) {
    hold && KindOf(b, j, {GraceFirst, GraceSecond, GraceFinal, ReleasedEvent})
  }

  // The provider may have forgotten an earlier send of it.
  predicate TooLate(j: Job, now: Time) {
    j.attempts > 1 && now > j.createdAt + 23 * 60 * 60
  }

  predicate GoneContact(r: Rows, p: Recipient) {
    p.Person? && (p.id !in r.people || r.people[p.id].contactRevision != p.contactRevision)
  }

  // Nobody needs it any more.
  predicate Pointless(r: Rows, b: Outbox, j: Job, now: Time) {
    || GoneContact(r, j.recipient)
    || (KindOf(b, j, {GraceFirst, GraceSecond, GraceFinal})
        && !(r.status.state == Grace && r.status.episode == b.events[j.event].revision))
    || (j.expires.Some? && j.expires.value <= now)
  }

  // The first phase of a send, for the token that holds the job: it is put off,
  // given up, dropped or begun, in this order, and nothing else happens.
  lemma StartExactly(w: World, i: nat, token: nat, now: Time, hold: bool, readable: bool)
    ensures var v := NextWorld(w, Deliver(Start(i, token, now, hold, readable)));
            && OnlyJob(w, v, i) && v.box.log == w.box.log
            && (!Out(w.box, i, token) ==> v == w)
            && (Out(w.box, i, token) ==>
                  var j, k := w.box.jobs[i], v.box.jobs[i];
                  if HeldBack(w.box, j, hold) then
                    && k == j.(state := RetryJob, token := None, leaseUntil := None, dueAt := now + 60)
                    && v.box.attempts == w.box.attempts
                  else if TooLate(j, now) || (!Pointless(w.rows, w.box, j, now) && !readable) then
                    k == j.(state := DeadJob, token := None) && v.box.attempts == w.box.attempts
                  else if Pointless(w.rows, w.box, j, now) then
                    k == j.(state := CancelledJob, payload := false, token := None) && v.box.attempts == w.box.attempts
                  else
                    && k == j
                    && v.box.attempts == if token in w.box.attempts then w.box.attempts
                                         else w.box.attempts[token := Attempt(i, false)])
  {
  }

  // ---------------------------------------------------------------------
  // Claiming and cleaning up
  // ---------------------------------------------------------------------

  // A job waiting whose time has come, or one whose lease has run out.
  predicate Ripe(j: Job, now: Time) {
    || (j.state in {ReadyJob, RetryJob} && j.dueAt <= now)
    || (j.state == ClaimedJob && j.leaseUntil.Some? && j.leaseUntil.value <= now)
  }

  predicate Claimable(b: Outbox, i: nat, now: Time, hold: bool, locked: set<nat>) {
    i < |b.jobs| && i !in locked && Ripe(b.jobs[i], now) && !HeldBack(b, b.jobs[i], hold)
  }

  function Capped(limit: nat): nat {
    if limit <= 20 then limit else 20
  }

  lemma ClaimableExactly(b: Outbox, i: nat, now: Time, hold: bool, locked: set<nat>)
    ensures Candidate(b, i, now, hold, locked) <==> Claimable(b, i, now, hold, locked)
  {
  }

  // A pass claims jobs that may be claimed, twenty at most and each once, and
  // leaves one that may be claimed only for a full batch that was due before it.
  lemma BatchExactly(b: Outbox, picks: seq<nat>, now: Time, hold: bool, limit: nat, locked: set<nat>)
    requires Batch(b, picks, now, hold, limit, locked)
    ensures |picks| <= Capped(limit) && (forall p, q :: 0 <= p < q < |picks| ==> picks[p] != picks[q])
    ensures forall p :: 0 <= p < |picks| ==> Claimable(b, picks[p], now, hold, locked)
    ensures forall i: nat :: Claimable(b, i, now, hold, locked) && i !in picks ==>
              |picks| == Capped(limit) && forall p :: 0 <= p < |picks| ==> b.jobs[picks[p]].dueAt <= b.jobs[i].dueAt
  {
    hide Due, Permitted, Ripe, HeldBack;
    forall i: nat ensures Candidate(b, i, now, hold, locked) <==> Claimable(b, i, now, hold, locked) {
      ClaimableExactly(b, i, now, hold, locked);
    }
  }

  // A claimed job is out under a token never issued before, leased for ninety
  // seconds and one attempt older; the jobs that were not picked stay.
  lemma ClaimExactly(b: Outbox, picks: seq<nat>, now: Time, hold: bool, limit: nat, locked: set<nat>, i: nat)
    requires BoxInv(b) && Batch(b, picks, now, hold, limit, locked) && i < |b.jobs|
    ensures var c := ClaimAll(b, picks, now);
            && |c.jobs| == |b.jobs| && c == b.(jobs := c.jobs, issued := b.issued + picks)
            && (i !in picks ==> c.jobs[i] == b.jobs[i])
            && (i in picks ==>
                  && c.jobs[i].token.Some? && c.jobs[i].token.value >= |b.issued|
                  && c.jobs[i] == b.jobs[i].(state := ClaimedJob, token := c.jobs[i].token,
                                             leaseUntil := Some(now + 90), attempts := b.jobs[i].attempts + 1))
  {
    hide ClaimAll, Permitted, Due, BoxInv;
    assert forall p :: 0 <= p < |picks| ==> Candidate(b, picks[p], now, hold, locked);
    BatchClaimed(b, picks, now);
    ClaimAllFrame(b, picks, now);
    ClaimSends(b, picks, now);
    if i in picks { var token := PickedClaim(b, ClaimAll(b, picks, now), picks, now, i); }
  }

  lemma PickedClaim(b: Outbox, c: Outbox, picks: seq<nat>, now: Time, i: nat) returns (token: nat)
    requires ClaimedFrom(b, c, picks, now) && i < |b.jobs| && i in picks
    ensures token >= |b.issued| && c.jobs[i] == ClaimedAs(b.jobs[i], token, now)
  {
    var p :| 0 <= p < |picks| && picks[p] == i;
    token := |b.issued| + p;
  }

  lemma {:induction false} ClaimSends(b: Outbox, picks: seq<nat>, now: Time)
    ensures ClaimAll(b, picks, now).attempts == b.attempts && ClaimAll(b, picks, now).events == b.events
    decreases |picks|
  {
    hide Due;
    if picks != [] {
      ClaimSends(b, picks[..|picks| - 1], now);
    }
  }

  // What cleaning a job up leaves of it.
  lemma CleanExactly(b: Outbox, i: nat)
    requires i < |b.jobs|
    ensures var c := CleanJob(b, i); var j := b.jobs[i];
            && c == b.(jobs := c.jobs) && |c.jobs| == |b.jobs|
            && (forall k :: 0 <= k < |b.jobs| && k != i ==> c.jobs[k] == b.jobs[k])
            && c.jobs[i] == if j.state in {ReadyJob, RetryJob, ClaimedJob}
                            then j.(state := CancelledJob, payload := false, token := None, leaseUntil := None)
                            else j.(payload := false)
  {
  }

  // A batch that is one, and only that, is claimed or cleaned up.
  lemma PassExactly(w: World, work: Work)
    ensures work.Claim? ==>
              NextWorld(w, Deliver(work))
              == if Batch(w.box, work.picks, work.now, work.hold, work.limit, work.locked)
                 then w.(box := ClaimAll(w.box, work.picks, work.now)) else w
    ensures work.CleanUp? ==>
              NextWorld(w, Deliver(work))
              == if CleanupBatch(w.box, work.picks, work.now) then w.(box := CleanAll(w.box, work.picks)) else w
  {
    hide Batch, CleanupBatch, ClaimAll, CleanAll;
  }

  // One pass cleans up a hundred jobs at most, each once.
  lemma CleanupExactly(b: Outbox, picks: seq<nat>, now: Time)
    ensures CleanupBatch(b, picks, now)
            <==> && |picks| <= 100
                 && (forall p :: 0 <= p < |picks| ==> picks[p] < |b.jobs| && Expirable(b.jobs[picks[p]], now))
                 && (forall p, q :: 0 <= p < q < |picks| ==> picks[p] != picks[q])
  {
    hide Expirable;
  }

  // A job is cleaned up that still has its message, when its credential has
  // expired or it was settled thirty days ago.
  lemma ExpirableExactly(j: Job, now: Time)
    ensures Expirable(j, now)
            <==> && j.payload
                 && ((j.expires.Some? && j.expires.value <= now)
                     || (j.state in {AcceptedJob, DeadJob, CancelledJob} && j.createdAt + 30 * 24 * 60 * 60 <= now))
  {
  }
}
