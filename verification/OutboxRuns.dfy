// How the outbox may change: what is settled stays settled, and results are
// written back by the current holder of a claim only.

module OutboxRuns {
  import opened Wrappers
  import opened Tables
  import opened Delivery
  import opened BoxInvariants
  import opened Collections

  // ---------------------------------------------------------------------
  // Growth
  // ---------------------------------------------------------------------

  // Accepted, dead and cancelled are final; only the payload may still go.
  predicate JobGrows(j: Job, k: Job) {
    && k.event == j.event && k.recipient == j.recipient && k.channel == j.channel
    && k.createdAt == j.createdAt && k.expires == j.expires
    && j.attempts <= k.attempts
    && (!Live(j) ==> k == j.(payload := k.payload) && (k.payload ==> j.payload))
  }

  predicate Prefix<T(==)>(s: seq<T>, t: seq<T>) {
    |s| <= |t| && t[..|s|] == s
  }

  predicate Grows(b: Outbox, c: Outbox) {
    && Prefix(b.events, c.events) && Prefix(b.issued, c.issued) && Prefix(b.log, c.log)
    && |b.jobs| <= |c.jobs|
    && (forall i :: 0 <= i < |b.jobs| ==> JobGrows(b.jobs[i], c.jobs[i]))
    // an event gets its jobs when it is made, and none later
    && (forall i :: |b.jobs| <= i < |c.jobs| ==> c.jobs[i].event >= |b.events|)
    && (forall t :: t in b.attempts ==>
          t in c.attempts && c.attempts[t].job == b.attempts[t].job && (b.attempts[t].completed
              ==> c.attempts[t].completed))
  }

  lemma GrowsReflexive(b: Outbox)
    ensures Grows(b, b)
  {
  }

  lemma PrefixTransitive<T>(s: seq<T>, t: seq<T>, u: seq<T>)
    requires Prefix(s, t) && Prefix(t, u)
    ensures Prefix(s, u)
  {
    assert u[..|s|] == u[..|t|][..|s|];
  }

  lemma GrowsTransitive(b: Outbox, c: Outbox, d: Outbox)
    requires Grows(b, c) && Grows(c, d)
    ensures Grows(b, d)
  {
    hide Prefix;
    PrefixTransitive(b.events, c.events, d.events);
    PrefixTransitive(b.issued, c.issued, d.issued);
    PrefixTransitive(b.log, c.log, d.log);
    forall i | 0 <= i < |b.jobs| ensures JobGrows(b.jobs[i], d.jobs[i]) {
      assert JobGrows(b.jobs[i], c.jobs[i]) && JobGrows(c.jobs[i], d.jobs[i]);
    }
    assert |b.events| <= |c.events| by { PrefixShorter(b.events, c.events); }
    forall i | |b.jobs| <= i < |d.jobs| ensures d.jobs[i].event >= |b.events| {
      if i < |c.jobs| {
        assert JobGrows(c.jobs[i], d.jobs[i]);
      }
    }
  }

  lemma PrefixShorter<T>(s: seq<T>, t: seq<T>)
    requires Prefix(s, t)
    ensures |s| <= |t|
  {
  }

  lemma CancelGrows(b: Outbox, hit: Job -> bool)
    ensures Grows(b, CancelWhere(b, hit))
  {
  }

  lemma AnnounceGrows(b: Outbox, e: Event, to: seq<Addressee>, now: Time, expires: Option<Time>)
    ensures Grows(b, Announce(b, e, to, now, expires))
  {
  }

  lemma SetJobGrows(b: Outbox, i: nat, j: Job)
    requires i < |b.jobs| && JobGrows(b.jobs[i], j)
    ensures Grows(b, SetJob(b, i, j))
  {
  }

  lemma ClaimGrows(b: Outbox, i: nat, now: Time)
    ensures Grows(b, ClaimJob(b, i, now))
  {
  }

  lemma {:induction false} ClaimAllGrows(b: Outbox, picks: seq<nat>, now: Time)
    ensures Grows(b, ClaimAll(b, picks, now))
    decreases |picks|
  {
    hide Grows, ClaimJob;
    if picks == [] {
      GrowsReflexive(b);
    } else {
      var c := ClaimAll(b, picks[..|picks| - 1], now);
      ClaimAllGrows(b, picks[..|picks| - 1], now);
      ClaimGrows(c, picks[|picks| - 1], now);
      GrowsTransitive(b, c, ClaimJob(c, picks[|picks| - 1], now));
    }
  }

  lemma PreSendGrows(r: Rows, b: Outbox, i: nat, token: nat, now: Time, hold: bool, readable: bool)
    ensures Grows(b, PreSend(r, b, i, token, now, hold, readable))
  {
    hide Obsolete, Permitted, Grows;
    GrowsReflexive(b);
    if Holder(b, i, token) {
      var c := PreSend(r, b, i, token, now, hold, readable);
      if c.attempts == b.attempts {
        SetJobGrows(b, i, c.jobs[i]);
        assert c == SetJob(b, i, c.jobs[i]);
      } else {
        AttemptGrows(b, token, Attempt(i, false));
      }
    }
  }

  lemma AttemptGrows(b: Outbox, token: nat, a: Attempt)
    requires token !in b.attempts
    ensures Grows(b, b.(attempts := b.attempts[token := a]))
  {
  }

  lemma PostSendGrows(b: Outbox, i: nat, token: nat, sent: Sent, now: Time, jitter: nat)
    ensures Grows(b, PostSend(b, i, token, sent, now, jitter))
  {
    hide RetryDelay;
  }

  lemma CleanGrows(b: Outbox, i: nat)
    ensures Grows(b, CleanJob(b, i))
  {
  }

  lemma {:induction false} CleanAllGrows(b: Outbox, picks: seq<nat>)
    ensures Grows(b, CleanAll(b, picks))
    decreases |picks|
  {
    hide Grows, CleanJob;
    if picks == [] {
      GrowsReflexive(b);
    } else {
      var c := CleanAll(b, picks[..|picks| - 1]);
      CleanAllGrows(b, picks[..|picks| - 1]);
      CleanGrows(c, picks[|picks| - 1]);
      GrowsTransitive(b, c, CleanJob(c, picks[|picks| - 1]));
    }
  }

  lemma WorkGrows(r: Rows, b: Outbox, w: Work)
    ensures Grows(b, Worked(r, b, w))
  {
    hide Grows, Batch, CleanupBatch, ClaimAll, CleanAll, PreSend, PostSend;
    GrowsReflexive(b);
    match w
    case Claim(picks, now, hold, limit, locked) => ClaimAllGrows(b, picks, now);
    case Start(job, token, now, hold, readable) => PreSendGrows(r, b, job, token, now, hold, readable);
    case Finish(job, token, sent, now, jitter) => PostSendGrows(b, job, token, sent, now, jitter);
    case CleanUp(picks, now) => CleanAllGrows(b, picks);
  }

  // ---------------------------------------------------------------------
  // Who writes a result back
  // ---------------------------------------------------------------------

  lemma {:induction false} ClaimAllFrame(b: Outbox, picks: seq<nat>, now: Time)
    ensures var c := ClaimAll(b, picks, now);
            c.log == b.log && c.events == b.events && |c.jobs| == |b.jobs|
    decreases |picks|
  {
    if picks != [] {
      ClaimAllFrame(b, picks[..|picks| - 1], now);
    }
  }

  lemma {:induction false} CleanAllFrame(b: Outbox, picks: seq<nat>)
    ensures var c := CleanAll(b, picks);
            c.log == b.log && c.events == b.events && |c.jobs| == |b.jobs|
    decreases |picks|
  {
    if picks != [] {
      CleanAllFrame(b, picks[..|picks| - 1]);
    }
  }

  // A transaction that adds a result to the history is the finish of a send by
  // the token that holds the job then, and it adds that one result.
  lemma ResultByHolder(r: Rows, b: Outbox, w: Work)
    requires Worked(r, b, w).log != b.log
    ensures w.Finish? && Sending(b, w.job, w.token) && Holder(b, w.job, w.token)
    ensures Worked(r, b, w).log == b.log + [WriteBack(w.job, w.token, VerdictOf(b.jobs[w.job], w.sent))]
  {
    hide Batch, CleanupBatch, ClaimAll, CleanAll, Obsolete, Permitted, Judged, VerdictOf;
    match w
    case Claim(picks, now, hold, limit, locked) => ClaimAllFrame(b, picks, now);
    case Start(job, token, now, hold, readable) =>
    case Finish(job, token, sent, now, jitter) =>
    case CleanUp(picks, now) => CleanAllFrame(b, picks);
  }

  // ---------------------------------------------------------------------
  // Bounds
  // ---------------------------------------------------------------------

  // Eight results and seven retries at most, however many claims there were.
  lemma ResultsBounded(b: Outbox, i: nat)
    requires BoxInv(b) && i < |b.jobs|
    ensures Written(b.log, i) <= MAX_ATTEMPTS && Retried(b.log, i) <= MAX_ATTEMPTS - 1
    ensures b.jobs[i].attempts == Count(b.issued, i)
    ensures b.jobs[i].token.Some? <==> b.jobs[i].state == ClaimedJob
    ensures b.jobs[i].state == AcceptedJob || b.jobs[i].state == CancelledJob ==> !b.jobs[i].payload
  {
    hide Count, Written, Retried;
    assert JobOk(b, i);
  }

  function AttemptRows(b: Outbox, i: nat): set<nat> {
    set t | t in b.attempts && b.attempts[t].job == i
  }

  function Places(s: seq<nat>, x: nat): set<nat> {
    set t: nat | t < |s| && s[t] == x
  }

  lemma {:induction false} PlacesCount(s: seq<nat>, x: nat)
    ensures |Places(s, x)| == Count(s, x)
    decreases |s|
  {
    if s == [] {
      assert Places(s, x) == {};
    } else {
      var n := |s| - 1;
      PlacesCount(s[..n], x);
      if s[n] == x {
        assert Places(s, x) == Places(s[..n], x) + {n};
      } else {
        assert Places(s, x) == Places(s[..n], x);
      }
    }
  }

  // A send is recorded under its claim: no more sends than claims.
  lemma SendsBounded(b: Outbox, i: nat)
    requires BoxInv(b) && i < |b.jobs|
    ensures |AttemptRows(b, i)| <= b.jobs[i].attempts
  {
    hide Count, LogOk, PayloadOk;
    assert JobOk(b, i);
    PlacesCount(b.issued, i);
    SubsetSize(AttemptRows(b, i), Places(b.issued, i));
  }

  // Leases of job i that lapse one after the other, each reclaimed as it does.
  function LapsedClaims(b: Outbox, i: nat, now: Time, n: nat): Outbox {
    if n == 0 then b else ClaimJob(LapsedClaims(b, i, now, n - 1), i, now + n * LEASE)
  }

  // The attempt counter has no bound of its own: crashes alone drive it past
  // any number, eight included.
  lemma {:induction false} AttemptsUnbounded(b: Outbox, i: nat, now: Time, n: nat)
    requires i < |b.jobs| && Live(b.jobs[i])
    requires if b.jobs[i].state == ClaimedJob then b.jobs[i].leaseUntil == Some(now + LEASE) else b.jobs[i].dueAt <= now
    ensures var c := LapsedClaims(b, i, now, n);
            && |c.jobs| == |b.jobs| && c.jobs[i].attempts == b.jobs[i].attempts + n
            && (n > 0 ==> c.jobs[i].state == ClaimedJob && c.jobs[i].leaseUntil == Some(now + n * LEASE + LEASE))
  {
    if n > 0 {
      AttemptsUnbounded(b, i, now, n - 1);
    }
  }

  // ---------------------------------------------------------------------
  // Claims and retries
  // ---------------------------------------------------------------------

  function ClaimedAs(j: Job, token: nat, now: Time): Job {
    j.(state := ClaimedJob, token := Some(token), leaseUntil := Some(now + LEASE), attempts := j.attempts + 1)
  }

  // From b to c, the picked jobs were claimed, and no other job changed.
  predicate ClaimedFrom(b: Outbox, c: Outbox, picks: seq<nat>, now: Time) {
    && c.issued == b.issued + picks && |c.jobs| == |b.jobs|
    && (forall p :: 0 <= p < |picks| ==>
          picks[p] < |b.jobs| && c.jobs[picks[p]] == ClaimedAs(b.jobs[picks[p]], |b.issued| + p, now))
    && (forall i :: 0 <= i < |b.jobs| && i !in picks ==> c.jobs[i] == b.jobs[i])
  }

  lemma ClaimedStep(b: Outbox, c: Outbox, picks: seq<nat>, i: nat, now: Time)
    requires ClaimedFrom(b, c, picks, now) && i !in picks && i < |b.jobs| && Due(b.jobs[i], now)
    ensures ClaimedFrom(b, ClaimJob(c, i, now), picks + [i], now)
  {
    hide Due;
    assert c.jobs[i] == b.jobs[i];
    var d, all := ClaimJob(c, i, now), picks + [i];
    forall p | 0 <= p < |all| ensures d.jobs[all[p]] == ClaimedAs(b.jobs[all[p]], |b.issued| + p, now) {
      if p < |picks| {
        assert all[p] == picks[p] && picks[p] in picks;
      }
    }
    forall k | 0 <= k < |b.jobs| && k !in all ensures d.jobs[k] == b.jobs[k] {
      assert all[|picks|] == i;
      forall m | 0 <= m < |picks| ensures picks[m] != k {
        assert all[m] == picks[m];
      }
    }
  }

  // Claiming a batch gives each of its jobs a token of its own and a lease of
  // ninety seconds, and leaves every other job as it was.
  lemma {:induction false} BatchClaimed(b: Outbox, picks: seq<nat>, now: Time)
    requires forall p :: 0 <= p < |picks| ==> picks[p] < |b.jobs| && Due(b.jobs[picks[p]], now)
    requires forall p, q :: 0 <= p < q < |picks| ==> picks[p] != picks[q]
    ensures ClaimedFrom(b, ClaimAll(b, picks, now), picks, now)
    decreases |picks|
  {
    if picks != [] {
      hide ClaimedFrom, ClaimJob, Due;
      var n := |picks| - 1;
      BatchClaimed(b, picks[..n], now);
      assert picks == picks[..n] + [picks[n]];
      ClaimedStep(b, ClaimAll(b, picks[..n], now), picks[..n], picks[n], now);
    }
  }

  lemma {:induction false} PowerGrows(n: nat, m: nat)
    requires n <= m
    ensures Power2(n) <= Power2(m)
    decreases m
  {
    if n < m {
      PowerGrows(n, m - 1);
    }
  }

  // A retry waits for as long as the provider asks, a minute at least after
  // the first claim, and no more than an hour and the jitter on its own account.
  lemma RetryDelayBounds(attempts: nat, retryAfter: nat, jitter: nat)
    requires attempts >= 1 && jitter <= 20
    ensures RetryDelay(attempts, retryAfter, jitter) >= retryAfter
    ensures RetryDelay(attempts, retryAfter, jitter) >= 60
    ensures RetryDelay(attempts, retryAfter, jitter) <= Max(retryAfter, 3620)
    ensures attempts >= 7 ==> RetryDelay(attempts, 0, jitter) == 3600 + jitter
    ensures attempts <= 6 ==> RetryDelay(attempts, 0, jitter) == 30 * Power2(attempts) + jitter
  {
    assert Power2(1) == 2;
    assert Power2(6) == 64 by { assert Power2(3) == 8; assert Power2(5) == 32; }
    assert Power2(7) == 128;
    hide Power2;
    PowerGrows(1, attempts);
    if attempts >= 7 {
      PowerGrows(7, attempts);
    } else {
      PowerGrows(attempts, 6);
    }
  }

  // ---------------------------------------------------------------------
  // One result for each claim
  // ---------------------------------------------------------------------

  predicate UsedToken(b: Outbox, token: nat) {
    exists e :: 0 <= e < |b.log| && b.log[e].token == token
  }

  predicate OnceInv(b: Outbox) {
    && (forall e, f :: 0 <= e < f < |b.log| ==> b.log[e].token != b.log[f].token)
    && (forall i :: 0 <= i < |b.jobs| && b.jobs[i].token.Some? ==> !UsedToken(b, b.jobs[i].token.value))
  }

  lemma OnceAfterClaim(b: Outbox, i: nat, now: Time)
    requires BoxInv(b) && OnceInv(b)
    ensures OnceInv(ClaimJob(b, i, now))
  {
    hide Count, LogOk, PayloadOk, TokenOk;
    var c := ClaimJob(b, i, now);
    forall k | 0 <= k < |c.jobs| && c.jobs[k].token.Some? ensures !UsedToken(c, c.jobs[k].token.value) {
      if c != b && k == i {
        assert forall e :: 0 <= e < |b.log| ==> b.log[e].token < |b.issued|;
      } else {
        assert !UsedToken(b, b.jobs[k].token.value);
      }
    }
  }

  // Jobs that hold what they held, or nothing, and an unchanged history.
  lemma OnceKept(b: Outbox, c: Outbox)
    requires OnceInv(b) && c.log == b.log
    requires forall k :: 0 <= k < |c.jobs| && c.jobs[k].token.Some? ==>
                           k < |b.jobs| && c.jobs[k].token == b.jobs[k].token
    ensures OnceInv(c)
  {
    forall k | 0 <= k < |c.jobs| && c.jobs[k].token.Some? ensures !UsedToken(c, c.jobs[k].token.value) {
      assert !UsedToken(b, b.jobs[k].token.value);
    }
  }

  lemma OnceAfterPostSend(b: Outbox, i: nat, token: nat, sent: Sent, now: Time, jitter: nat)
    requires BoxInv(b) && OnceInv(b)
    ensures OnceInv(PostSend(b, i, token, sent, now, jitter))
  {
    hide Count, LogOk, PayloadOk, RetryDelay;
    var c := PostSend(b, i, token, sent, now, jitter);
    if c.log == b.log {
      OnceKept(b, c);
    } else {
      assert c.log == b.log + [WriteBack(i, token, VerdictOf(b.jobs[i], sent))];
      assert JobOk(b, i);
      assert !UsedToken(b, token);
      forall k | 0 <= k < |c.jobs| && c.jobs[k].token.Some? ensures !UsedToken(c, c.jobs[k].token.value) {
        assert JobOk(b, k) && c.jobs[k] == b.jobs[k];
        assert !UsedToken(b, b.jobs[k].token.value);
        assert b.jobs[k].token.value != token;
      }
    }
  }

  lemma {:induction false} OnceAfterClaims(b: Outbox, picks: seq<nat>, now: Time)
    requires BoxInv(b) && OnceInv(b)
    ensures OnceInv(ClaimAll(b, picks, now))
    decreases |picks|
  {
    hide BoxInv, OnceInv, ClaimJob;
    if picks != [] {
      OnceAfterClaims(b, picks[..|picks| - 1], now);
      ClaimAllKeeps(b, picks[..|picks| - 1], now);
      OnceAfterClaim(ClaimAll(b, picks[..|picks| - 1], now), picks[|picks| - 1], now);
    }
  }

  lemma {:induction false} OnceAfterCleanup(b: Outbox, picks: seq<nat>)
    requires OnceInv(b)
    ensures OnceInv(CleanAll(b, picks))
    decreases |picks|
  {
    if picks != [] {
      hide OnceInv;
      var c := CleanAll(b, picks[..|picks| - 1]);
      OnceAfterCleanup(b, picks[..|picks| - 1]);
      OnceKept(c, CleanJob(c, picks[|picks| - 1]));
    }
  }

  // No claim ever gets two results written back.
  lemma OnceAfterWork(r: Rows, b: Outbox, w: Work)
    requires BoxInv(b) && OnceInv(b)
    ensures OnceInv(Worked(r, b, w))
  {
    hide BoxInv, OnceInv, Batch, CleanupBatch, ClaimAll, CleanAll, PostSend, Obsolete, Permitted;
    match w
    case Claim(picks, now, hold, limit, locked) => OnceAfterClaims(b, picks, now);
    case Start(job, token, now, hold, readable) => OnceKept(b, PreSend(r, b, job, token, now, hold, readable));
    case Finish(job, token, sent, now, jitter) => OnceAfterPostSend(b, job, token, sent, now, jitter);
    case CleanUp(picks, now) => OnceAfterCleanup(b, picks);
  }
}
