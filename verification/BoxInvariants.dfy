// What holds of every job, claim and provider result, however claims, lapsed
// leases, cancellations, cleanups and late results interleave.

module BoxInvariants {
  import opened Wrappers
  import opened Tables
  import opened Delivery

  function Count(s: seq<nat>, x: nat): nat
    decreases |s|
  {
    if s == [] then 0 else Count(s[..|s| - 1], x) + if s[|s| - 1] == x then 1 else 0
  }

  lemma CountSnoc(s: seq<nat>, a: nat, x: nat)
    ensures Count(s + [a], x) == Count(s, x) + if a == x then 1 else 0
  {
    assert (s + [a])[..|s|] == s;
  }

  lemma {:induction false} CountAbsent(s: seq<nat>, x: nat)
    requires forall i :: 0 <= i < |s| ==> s[i] != x
    ensures Count(s, x) == 0
    decreases |s|
  {
    if s != [] {
      CountAbsent(s[..|s| - 1], x);
    }
  }

  // How many results were written back for job x, and how many asked to retry.
  function Written(log: seq<WriteBack>, x: nat): nat
    decreases |log|
  {
    if log == [] then 0 else Written(log[..|log| - 1], x) + if log[|log| - 1].job == x then 1 else 0
  }

  function Retried(log: seq<WriteBack>, x: nat): nat
    decreases |log|
  {
    if log == [] then 0
    else Retried(log[..|log| - 1], x) + if log[|log| - 1].job == x && log[|log| - 1].verdict == Again then 1 else 0
  }

  lemma LogSnoc(log: seq<WriteBack>, e: WriteBack, x: nat)
    ensures Written(log + [e], x) == Written(log, x) + if e.job == x then 1 else 0
    ensures Retried(log + [e], x) == Retried(log, x) + if e.job == x && e.verdict == Again then 1 else 0
  {
    assert (log + [e])[..|log|] == log;
  }

  lemma {:induction false} LogAbsent(log: seq<WriteBack>, x: nat)
    requires forall i :: 0 <= i < |log| ==> log[i].job != x
    ensures Written(log, x) == 0 && Retried(log, x) == 0
    decreases |log|
  {
    if log != [] {
      LogAbsent(log[..|log| - 1], x);
    }
  }

  // ---------------------------------------------------------------------
  // The invariant
  // ---------------------------------------------------------------------

  predicate PayloadOk(j: Job) {
    && (Live(j) ==> j.payload)
    && (j.state == AcceptedJob || j.state == CancelledJob ==> !j.payload)
  }

  predicate TokenOk(j: Job, i: nat, issued: seq<nat>) {
    && (j.token.Some? <==> j.state == ClaimedJob)
    && (j.token.Some? ==> j.token.value < |issued| && issued[j.token.value] == i)
    && j.attempts == Count(issued, i)
  }

  // Results written back: a live job has asked to retry each time, on fewer
  // claims than it has had; a settled one has one more result at most.
  predicate LogOk(j: Job, i: nat, log: seq<WriteBack>) {
    && Retried(log, i) <= Written(log, i) <= Retried(log, i) + 1
    && Retried(log, i) < MAX_ATTEMPTS
    && (Live(j) ==> Written(log, i) == Retried(log, i) <= j.attempts)
    && (j.state == ClaimedJob ==> Written(log, i) < j.attempts)
  }

  predicate JobOk(b: Outbox, i: nat)
    requires i < |b.jobs|
  {
    && b.jobs[i].event < |b.events|
    && PayloadOk(b.jobs[i])
    && TokenOk(b.jobs[i], i, b.issued)
    && LogOk(b.jobs[i], i, b.log)
  }

  // History refers to jobs and claims there were.
  predicate HistoryOk(b: Outbox) {
    && (forall t :: 0 <= t < |b.issued| ==> b.issued[t] < |b.jobs|)
    && (forall t :: t in b.attempts ==> t < |b.issued| && b.attempts[t].job == b.issued[t])
    && (forall e :: 0 <= e < |b.log| ==> b.log[e].token < |b.issued| && b.issued[b.log[e].token] == b.log[e].job)
  }

  predicate BoxInv(b: Outbox) {
    && HistoryOk(b)
    && forall i :: 0 <= i < |b.jobs| ==> JobOk(b, i)
  }

  const EMPTY_BOX: Outbox := Outbox([], [], map[], [], [])

  lemma EmptyBoxOk()
    ensures BoxInv(EMPTY_BOX)
  {
  }

  // A change of one job that leaves claims and results alone.
  lemma SetJobKeeps(b: Outbox, i: nat, j: Job)
    requires BoxInv(b) && i < |b.jobs|
    requires j.event == b.jobs[i].event && PayloadOk(j) && TokenOk(j, i, b.issued) && LogOk(j, i, b.log)
    ensures BoxInv(SetJob(b, i, j))
  {
    hide PayloadOk, TokenOk, LogOk;
    var c := SetJob(b, i, j);
    forall k | 0 <= k < |c.jobs| ensures JobOk(c, k) {
      assert JobOk(b, k);
    }
  }

  lemma CancelledOk(b: Outbox, i: nat)
    requires i < |b.jobs| && JobOk(b, i)
    ensures PayloadOk(CancelledFrom(b.jobs[i])) && TokenOk(CancelledFrom(b.jobs[i]), i, b.issued)
            && LogOk(CancelledFrom(b.jobs[i]), i, b.log)
  {
  }

  lemma CancelKeeps(b: Outbox, hit: Job -> bool)
    requires BoxInv(b)
    ensures BoxInv(CancelWhere(b, hit))
  {
    hide PayloadOk, TokenOk, LogOk, CancelWhere;
    forall i | 0 <= i < |b.jobs| ensures JobOk(CancelWhere(b, hit), i) {
      CancelledOk(b, i);
    }
  }

  lemma NewJobOk(b: Outbox, i: nat, j: Job)
    requires HistoryOk(b) && i >= |b.jobs|
    requires j.state == ReadyJob && j.payload && j.attempts == 0 && j.token.None?
    ensures PayloadOk(j) && TokenOk(j, i, b.issued) && LogOk(j, i, b.log)
  {
    CountAbsent(b.issued, i);
    LogAbsent(b.log, i);
  }

  lemma AnnounceKeeps(b: Outbox, e: Event, to: seq<Addressee>, now: Time, expires: Option<Time>)
    requires BoxInv(b)
    ensures BoxInv(Announce(b, e, to, now, expires))
  {
    hide PayloadOk, TokenOk, LogOk;
    var c := Announce(b, e, to, now, expires);
    forall i | 0 <= i < |c.jobs| ensures JobOk(c, i) {
      if i < |b.jobs| {
        assert JobOk(b, i);
      } else {
        NewJobOk(b, i, c.jobs[i]);
      }
    }
  }

  // ---------------------------------------------------------------------
  // Claims
  // ---------------------------------------------------------------------

  lemma ClaimedOk(b: Outbox, i: nat, now: Time)
    requires BoxInv(b) && i < |b.jobs| && Due(b.jobs[i], now)
    ensures JobOk(ClaimJob(b, i, now), i)
  {
    assert JobOk(b, i);
    CountSnoc(b.issued, i, i);
  }

  lemma OtherClaimOk(b: Outbox, i: nat, k: nat)
    requires k < |b.jobs| && k != i && JobOk(b, k)
    ensures TokenOk(b.jobs[k], k, b.issued + [i])
  {
    CountSnoc(b.issued, i, k);
  }

  lemma ClaimKeeps(b: Outbox, i: nat, now: Time)
    requires BoxInv(b)
    ensures BoxInv(ClaimJob(b, i, now))
  {
    if i < |b.jobs| && Due(b.jobs[i], now) {
      var c := ClaimJob(b, i, now);
      forall k | 0 <= k < |c.jobs| ensures JobOk(c, k) {
        hide PayloadOk, TokenOk, LogOk;
        if k == i {
          hide ClaimJob;
          ClaimedOk(b, i, now);
        } else {
          assert JobOk(b, k);
          OtherClaimOk(b, i, k);
        }
      }
    }
  }

  lemma {:induction false} ClaimAllKeeps(b: Outbox, picks: seq<nat>, now: Time)
    requires BoxInv(b)
    ensures BoxInv(ClaimAll(b, picks, now))
    decreases |picks|
  {
    hide BoxInv, ClaimJob;
    if picks != [] {
      ClaimAllKeeps(b, picks[..|picks| - 1], now);
      ClaimKeeps(ClaimAll(b, picks[..|picks| - 1], now), picks[|picks| - 1], now);
    }
  }

  // ---------------------------------------------------------------------
  // Sends
  // ---------------------------------------------------------------------

  lemma PreSendKeeps(r: Rows, b: Outbox, i: nat, token: nat, now: Time, hold: bool, readable: bool)
    requires BoxInv(b)
    ensures BoxInv(PreSend(r, b, i, token, now, hold, readable))
  {
    if Holder(b, i, token) {
      var j := b.jobs[i];
      assert JobOk(b, i);
      hide Count, Written, Retried, Obsolete, Permitted;
      if !Permitted(b, j, hold) {
        SetJobKeeps(b, i, j.(state := RetryJob, token := None, leaseUntil := None, dueAt := now + HOLD_DELAY));
      } else if j.attempts > 1 && now > j.createdAt + PROVIDER_WINDOW {
        SetJobKeeps(b, i, j.(state := DeadJob, token := None));
      } else if Obsolete(r, b, j, now) {
        SetJobKeeps(b, i, CancelledFrom(j));
      } else if !readable {
        SetJobKeeps(b, i, j.(state := DeadJob, token := None));
      } else {
        AttemptKeeps(b, token, Attempt(i, false));
      }
    }
  }

  lemma AttemptKeeps(b: Outbox, token: nat, a: Attempt)
    requires BoxInv(b) && token < |b.issued| && a.job == b.issued[token]
    ensures BoxInv(b.(attempts := b.attempts[token := a]))
  {
    hide PayloadOk, TokenOk, LogOk;
    var c := b.(attempts := b.attempts[token := a]);
    forall i | 0 <= i < |c.jobs| ensures JobOk(c, i) {
      assert JobOk(b, i);
    }
  }

  // The holder's result: at most one more result than claims allow.
  lemma JudgedOk(b: Outbox, i: nat, token: nat, sent: Sent, now: Time, jitter: nat)
    requires BoxInv(b) && Holder(b, i, token)
    ensures var j := Judged(b.jobs[i], sent, now, jitter);
            && PayloadOk(j) && TokenOk(j, i, b.issued)
            && LogOk(j, i, b.log + [WriteBack(i, token, VerdictOf(b.jobs[i], sent))])
  {
    hide Count, RetryDelay;
    assert JobOk(b, i);
    LogSnoc(b.log, WriteBack(i, token, VerdictOf(b.jobs[i], sent)), i);
  }

  lemma OtherLogOk(b: Outbox, k: nat, e: WriteBack)
    requires k < |b.jobs| && JobOk(b, k) && e.job != k
    ensures LogOk(b.jobs[k], k, b.log + [e])
  {
    LogSnoc(b.log, e, k);
  }

  lemma PostSendKeeps(b: Outbox, i: nat, token: nat, sent: Sent, now: Time, jitter: nat)
    requires BoxInv(b)
    ensures BoxInv(PostSend(b, i, token, sent, now, jitter))
  {
    hide Judged, VerdictOf;
    if Sending(b, i, token) {
      AttemptKeeps(b, token, Attempt(i, true));
      if Holder(b, i, token) {
        var c := PostSend(b, i, token, sent, now, jitter);
        JudgedOk(b, i, token, sent, now, jitter);
        JudgedSame(b.jobs[i], sent, now, jitter);
        forall k | 0 <= k < |c.jobs| ensures JobOk(c, k) {
          hide PayloadOk, TokenOk, LogOk;
          assert JobOk(b, k);
          if k != i {
            OtherLogOk(b, k, WriteBack(i, token, VerdictOf(b.jobs[i], sent)));
          }
        }
      }
    }
  }

  lemma JudgedSame(j: Job, sent: Sent, now: Time, jitter: nat)
    ensures var k := Judged(j, sent, now, jitter);
            && k.event == j.event && k.recipient == j.recipient && k.channel == j.channel
            && k.attempts == j.attempts && k.createdAt == j.createdAt && k.expires == j.expires
  {
  }

  // ---------------------------------------------------------------------
  // Cleanups
  // ---------------------------------------------------------------------

  lemma CleanKeeps(b: Outbox, i: nat)
    requires BoxInv(b)
    ensures BoxInv(CleanJob(b, i))
  {
    if i < |b.jobs| {
      hide Count, Written, Retried;
      var j := b.jobs[i];
      assert JobOk(b, i);
      SetJobKeeps(b, i, if Live(j) then CancelledFrom(j).(leaseUntil := None) else j.(payload := false));
    }
  }

  lemma {:induction false} CleanAllKeeps(b: Outbox, picks: seq<nat>)
    requires BoxInv(b)
    ensures BoxInv(CleanAll(b, picks))
    decreases |picks|
  {
    hide BoxInv, CleanJob;
    if picks != [] {
      CleanAllKeeps(b, picks[..|picks| - 1]);
      CleanKeeps(CleanAll(b, picks[..|picks| - 1]), picks[|picks| - 1]);
    }
  }

  lemma WorkKeeps(r: Rows, b: Outbox, w: Work)
    requires BoxInv(b)
    ensures BoxInv(Worked(r, b, w))
  {
    hide BoxInv, Batch, CleanupBatch, ClaimAll, CleanAll, PreSend, PostSend;
    match w
    case Claim(picks, now, hold, limit, locked) => ClaimAllKeeps(b, picks, now);
    case Start(job, token, now, hold, readable) => PreSendKeeps(r, b, job, token, now, hold, readable);
    case Finish(job, token, sent, now, jitter) => PostSendKeeps(b, job, token, sent, now, jitter);
    case CleanUp(picks, now) => CleanAllKeeps(b, picks);
  }
}
