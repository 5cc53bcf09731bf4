// The outbox: delivery jobs written with the change they announce, claimed
// under a lease, sent outside any transaction, and written back by whoever
// still holds the claim.

module Delivery {
  import opened Wrappers
  import opened Tables

  const LEASE: nat := 90
  const HOLD_DELAY: nat := 60
  const PROVIDER_WINDOW: nat := 23 * 3600
  const RETENTION: nat := 30 * DAY
  const MAX_BATCH: nat := 20
  const MAX_CLEANUP: nat := 100
  const MAX_ATTEMPTS: nat := 8

  predicate Live(j: Job) {
    j.state == ReadyJob || j.state == RetryJob || j.state == ClaimedJob
  }

  predicate Warning(k: Kind) {
    k == GraceFirst || k == GraceSecond || k == GraceFinal
  }

  predicate KindIs(b: Outbox, j: Job, k: Kind) {
    j.event < |b.events| && b.events[j.event].kind == k
  }

  predicate Warns(b: Outbox, j: Job) {
    j.event < |b.events| && Warning(b.events[j.event].kind)
  }

  // ---------------------------------------------------------------------
  // Announcing
  // ---------------------------------------------------------------------

  datatype Addressee = Addressee(recipient: Recipient, channel: Channel)

  function NewJob(event: nat, a: Addressee, now: Time, expires: Option<Time>): Job {
    Job(event, a.recipient, a.channel, ReadyJob, 0, now, None, None, true, now, expires)
  }

  // One event and a job for each addressee.
  function Announce(b: Outbox, e: Event, to: seq<Addressee>, now: Time, expires: Option<Time>): Outbox {
    b.(events := b.events + [e],
       jobs := b.jobs + seq(|to|, i requires 0 <= i < |to| => NewJob(|b.events|, to[i], now, expires)))
  }

  predicate HasEvent(b: Outbox, e: Event) {
    exists i :: 0 <= i < |b.events| && b.events[i] == e
  }

  // ---------------------------------------------------------------------
  // Cancelling
  // ---------------------------------------------------------------------

  function CancelledFrom(j: Job): Job {
    j.(state := CancelledJob, payload := false, token := None)
  }

  function CancelWhere(b: Outbox, hit: Job -> bool): (c: Outbox)
    ensures |c.jobs| == |b.jobs|
    ensures forall i :: 0 <= i < |b.jobs| ==>
              c.jobs[i] == if Live(b.jobs[i]) && hit(b.jobs[i]) then CancelledFrom(b.jobs[i]) else b.jobs[i]
    ensures c == b.(jobs := c.jobs)
  {
    b.(jobs := seq(|b.jobs|, i requires 0 <= i < |b.jobs| =>
         if Live(b.jobs[i]) && hit(b.jobs[i]) then CancelledFrom(b.jobs[i]) else b.jobs[i]))
  }

  predicate Addressed(j: Job, id: int) {
    j.recipient.Person? && j.recipient.id == id
  }

  function CancelRecipient(b: Outbox, id: int): Outbox {
    CancelWhere(b, j => Addressed(j, id))
  }

  function CancelWarnings(b: Outbox): Outbox {
    CancelWhere(b, j => Warns(b, j))
  }

  // ---------------------------------------------------------------------
  // Claiming
  // ---------------------------------------------------------------------

  predicate Due(j: Job, now: Time) {
    || ((j.state == ReadyJob || j.state == RetryJob) && j.dueAt <= now)
    || (j.state == ClaimedJob && j.leaseUntil.Some? && j.leaseUntil.value <= now)
  }

  // A release hold keeps warnings and release notices back.
  predicate Permitted(b: Outbox, j: Job, hold: bool) {
    hold ==> !Warns(b, j) && !KindIs(b, j, ReleasedEvent)
  }

  predicate Candidate(b: Outbox, i: nat, now: Time, hold: bool, locked: set<nat>) {
    i < |b.jobs| && i !in locked && Due(b.jobs[i], now) && Permitted(b, b.jobs[i], hold)
  }

  // What the claiming query may return: the candidates nobody has locked,
  // oldest due first, as many as the limit allows.
  predicate Batch(b: Outbox, picks: seq<nat>, now: Time, hold: bool, limit: nat, locked: set<nat>) {
    && |picks| <= (if limit < MAX_BATCH then limit else MAX_BATCH)
    && (forall p :: 0 <= p < |picks| ==> Candidate(b, picks[p], now, hold, locked))
    && (forall p, q :: 0 <= p < q < |picks| ==>
          picks[p] != picks[q] && b.jobs[picks[p]].dueAt <= b.jobs[picks[q]].dueAt)
    && (forall i: nat :: i < |b.jobs| && Candidate(b, i, now, hold, locked) && i !in picks ==>
          && |picks| == (if limit < MAX_BATCH then limit else MAX_BATCH)
          && forall p :: 0 <= p < |picks| ==> b.jobs[picks[p]].dueAt <= b.jobs[i].dueAt)
  }

  // A conditional update: the job must still be due. The token is a fresh one.
  function ClaimJob(b: Outbox, i: nat, now: Time): Outbox {
    if i < |b.jobs| && Due(b.jobs[i], now) then
      b.(jobs := b.jobs[i := b.jobs[i].(state := ClaimedJob, token := Some(|b.issued|),
                                        leaseUntil := Some(now + LEASE), attempts := b.jobs[i].attempts + 1)],
         issued := b.issued + [i])
    else b
  }

  function ClaimAll(b: Outbox, picks: seq<nat>, now: Time): Outbox
    decreases |picks|
  {
    if picks == [] then b else ClaimJob(ClaimAll(b, picks[..|picks| - 1], now), picks[|picks| - 1], now)
  }

  // ---------------------------------------------------------------------
  // Sending
  // ---------------------------------------------------------------------

  predicate Holder(b: Outbox, i: nat, token: nat) {
    i < |b.jobs| && b.jobs[i].state == ClaimedJob && b.jobs[i].token == Some(token)
  }

  function SetJob(b: Outbox, i: nat, j: Job): Outbox
    requires i < |b.jobs|
  {
    b.(jobs := b.jobs[i := j])
  }

  // What the message was for no longer stands.
  predicate Obsolete(r: Rows, b: Outbox, j: Job, now: Time) {
    || (j.recipient.Person?
        && (j.recipient.id !in r.people || r.people[j.recipient.id].contactRevision != j.recipient.contactRevision))
    || (Warns(b, j) && (r.status.state != Grace || r.status.episode != b.events[j.event].revision))
    || (j.expires.Some? && j.expires.value <= now)
  }

  // Everything before the provider is called, as one atomic step. readable
  // says whether the stored payload decrypts.
  function PreSend(r: Rows, b: Outbox, i: nat, token: nat, now: Time, hold: bool, readable: bool): Outbox {
    if !Holder(b, i, token) then b
    else
      var j := b.jobs[i];
      if !Permitted(b, j, hold) then
        SetJob(b, i, j.(state := RetryJob, token := None, leaseUntil := None, dueAt := now + HOLD_DELAY))
      else if j.attempts > 1 && now > j.createdAt + PROVIDER_WINDOW then
        SetJob(b, i, j.(state := DeadJob, token := None))
      else if Obsolete(r, b, j, now) then SetJob(b, i, CancelledFrom(j))
      else if !readable then SetJob(b, i, j.(state := DeadJob, token := None))
      else if token in b.attempts then b  // the primary key of the attempt row
      else b.(attempts := b.attempts[token := Attempt(i, false)])
  }

  datatype Sent = Sent(accepted: bool, retryable: bool, retryAfter: nat)

  function Min(a: nat, b: nat): nat { if a < b then a else b }
  function Max(a: nat, b: nat): nat { if a < b then b else a }

  function Power2(n: nat): nat { if n == 0 then 1 else 2 * Power2(n - 1) }

  // jitter is the random addition of at most 20 seconds
  function RetryDelay(attempts: nat, retryAfter: nat, jitter: nat): nat {
    Max(retryAfter, Min(3600, 30 * Power2(attempts)) + jitter)
  }

  // token is out with the provider for job i
  predicate Sending(b: Outbox, i: nat, token: nat) {
    token in b.attempts && b.attempts[token] == Attempt(i, false)
  }

  function VerdictOf(j: Job, sent: Sent): Verdict {
    if sent.accepted then Delivered
    else if !sent.retryable || j.attempts >= MAX_ATTEMPTS then GaveUp
    else Again
  }

  function Judged(j: Job, sent: Sent, now: Time, jitter: nat): Job {
    var k := j.(token := None, leaseUntil := None);
    match VerdictOf(j, sent)
    case Delivered => k.(state := AcceptedJob, payload := false)
    case GaveUp => k.(state := DeadJob)
    case Again => k.(state := RetryJob, dueAt := now + RetryDelay(j.attempts, sent.retryAfter, jitter))
  }

  // The provider answered. The attempt is completed in any case; the job is
  // changed only if the token still holds it.
  function PostSend(b: Outbox, i: nat, token: nat, sent: Sent, now: Time, jitter: nat): Outbox {
    if !Sending(b, i, token) then b
    else
      var c := b.(attempts := b.attempts[token := Attempt(i, true)]);
      if !Holder(b, i, token) then c
      else
        var j := b.jobs[i];
        SetJob(c, i, Judged(j, sent, now, jitter)).(log := c.log + [WriteBack(i, token, VerdictOf(j, sent))])
  }

  // ---------------------------------------------------------------------
  // Cleaning up
  // ---------------------------------------------------------------------

  predicate Expirable(j: Job, now: Time) {
    && j.payload
    && ((j.expires.Some? && j.expires.value <= now) || (!Live(j) && j.createdAt + RETENTION <= now))
  }

  // What the cleanup query may return: the rows it locks, at most a hundred.
  predicate CleanupBatch(b: Outbox, picks: seq<nat>, now: Time) {
    && |picks| <= MAX_CLEANUP
    && (forall p :: 0 <= p < |picks| ==> picks[p] < |b.jobs| && Expirable(b.jobs[picks[p]], now))
    && (forall p, q :: 0 <= p < q < |picks| ==> picks[p] != picks[q])
  }

  function CleanJob(b: Outbox, i: nat): Outbox {
    if i >= |b.jobs| then b
    else
      var j := b.jobs[i];
      SetJob(b, i, if Live(j) then CancelledFrom(j).(leaseUntil := None) else j.(payload := false))
  }

  function CleanAll(b: Outbox, picks: seq<nat>): Outbox
    decreases |picks|
  {
    if picks == [] then b else CleanJob(CleanAll(b, picks[..|picks| - 1]), picks[|picks| - 1])
  }

  // ---------------------------------------------------------------------
  // The worker's transactions
  // ---------------------------------------------------------------------

  datatype Work =
    | Claim(picks: seq<nat>, now: Time, hold: bool, limit: nat, locked: set<nat>)
    | Start(job: nat, token: nat, now: Time, hold: bool, readable: bool)
    | Finish(job: nat, token: nat, sent: Sent, now: Time, jitter: nat)
    | CleanUp(picks: seq<nat>, now: Time)

  // A query that cannot return these rows is not a step.
  function Worked(r: Rows, b: Outbox, w: Work): Outbox {
    match w
    case Claim(picks, now, hold, limit, locked) =>
      if Batch(b, picks, now, hold, limit, locked) then ClaimAll(b, picks, now) else b
    case Start(job, token, now, hold, readable) => PreSend(r, b, job, token, now, hold, readable)
    case Finish(job, token, sent, now, jitter) => PostSend(b, job, token, sent, now, jitter)
    case CleanUp(picks, now) => if CleanupBatch(b, picks, now) then CleanAll(b, picks) else b
  }
}
