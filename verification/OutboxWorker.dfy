// Writing to the outbox and working it off, on a database session.

module OutboxWorker {
  import opened Wrappers
  import opened Tables
  import opened Delivery

  // ---------------------------------------------------------------------
  // Writing
  // ---------------------------------------------------------------------

  method NewEvent(db: Session, kind: Kind, revision: nat) returns (event: nat)
    modifies db`events
    ensures event == |old(db.events)| && db.events == old(db.events) + [Event(kind, revision)]
  {
    event := |db.events|;
    db.events := db.events + [Event(kind, revision)];
  }

  method Enqueue(db: Session, event: nat, to: Addressee, now: Time, expires: Option<Time>)
    modifies db`jobs
    ensures db.jobs == old(db.jobs) + [NewJob(event, to, now, expires)]
  {
    db.jobs := db.jobs + [Job(event, to.recipient, to.channel, ReadyJob, 0, now, None, None, true, now, expires)];
  }

  // The jobs of one event.
  function Queue(event: nat, to: seq<Addressee>, now: Time, expires: Option<Time>): (jobs: seq<Job>)
    ensures |jobs| == |to|
  {
    seq(|to|, i requires 0 <= i < |to| => NewJob(event, to[i], now, expires))
  }

  lemma QueueConcat(event: nat, s: seq<Addressee>, t: seq<Addressee>, now: Time, expires: Option<Time>)
    ensures Queue(event, s + t, now, expires) == Queue(event, s, now, expires) + Queue(event, t, now, expires)
  {
  }

  lemma AnnounceIs(b: Outbox, e: Event, to: seq<Addressee>, now: Time, expires: Option<Time>)
    ensures Announce(b, e, to, now, expires) == b.(events := b.events + [e], jobs := b.jobs + Queue(|b.events|, to,
        now, expires))
  {
  }

  lemma AnnounceOne(b: Outbox, e: Event, a: Addressee, now: Time, expires: Option<Time>)
    ensures Announce(b, e, [a], now, expires)
            == b.(events := b.events + [e], jobs := b.jobs + [NewJob(|b.events|, a, now, expires)])
  {
    assert seq(1, i requires 0 <= i < 1 => NewJob(|b.events|, [a][i], now, expires)) == [NewJob(|b.events|, a, now,
        expires)];
  }

  method CancelRecipientJobs(db: Session, id: int)
    modifies db`jobs
    ensures db.BoxNow() == CancelRecipient(old(db.BoxNow()), id)
  {
    db.jobs := CancelRecipient(db.BoxNow(), id).jobs;
  }

  method CancelWarningJobs(db: Session)
    modifies db`jobs
    ensures db.BoxNow() == CancelWarnings(old(db.BoxNow()))
  {
    db.jobs := CancelWarnings(db.BoxNow()).jobs;
  }

  // ---------------------------------------------------------------------
  // Claiming
  // ---------------------------------------------------------------------

  // Claims what the query returned, each job under a fresh token.
  method ClaimJobs(db: Session, picks: seq<nat>, now: Time) returns (claimed: seq<(nat, nat)>)
    modifies db`jobs, db`issued
    ensures db.BoxNow() == ClaimAll(old(db.BoxNow()), picks, now)
    ensures forall k :: 0 <= k < |claimed| ==>
              && claimed[k].1 == |old(db.issued)| + k
              && claimed[k].1 < |db.issued| && db.issued[claimed[k].1] == claimed[k].0
    ensures |db.issued| == |old(db.issued)| + |claimed|
  {
    claimed := [];
    var i := 0;
    while i < |picks|
      invariant 0 <= i <= |picks|
      invariant db.BoxNow() == ClaimAll(old(db.BoxNow()), picks[..i], now)
      invariant |db.issued| == |old(db.issued)| + |claimed|
      invariant forall k :: 0 <= k < |claimed| ==>
                  claimed[k].1 == |old(db.issued)| + k && db.issued[claimed[k].1] == claimed[k].0
    {
      assert picks[..i + 1][..i] == picks[..i];
      var job := picks[i];
      if job < |db.jobs| && Due(db.jobs[job], now) {
        var token := |db.issued|;
        db.jobs := db.jobs[job := db.jobs[job].(state := ClaimedJob, token := Some(token),
                                                leaseUntil := Some(now + LEASE),
                                                    attempts := db.jobs[job].attempts + 1)];
        db.issued := db.issued + [job];
        claimed := claimed + [(job, token)];
      }
      i := i + 1;
    }
    assert picks[..i] == picks;
  }

  // ---------------------------------------------------------------------
  // Sending
  // ---------------------------------------------------------------------

  // The first transaction of a send; true if the provider is to be called.
  method StartSend(db: Session, i: nat, token: nat, now: Time, hold: bool, readable: bool) returns (send: bool)
    modifies db`jobs, db`attempts
    ensures db.BoxNow() == PreSend(old(db.RowsNow()), old(db.BoxNow()), i, token, now, hold, readable)
    ensures send ==> Sending(db.BoxNow(), i, token) && db.jobs == old(db.jobs)
    ensures send <==> token !in old(db.attempts) && token in db.attempts
  {
    hide Obsolete, Permitted;
    if !(i < |db.jobs| && db.jobs[i].state == ClaimedJob && db.jobs[i].token == Some(token)) {
      return false;
    }
    var j := db.jobs[i];
    if !Permitted(db.BoxNow(), j, hold) {
      j := j.(state := RetryJob, token := None, leaseUntil := None);
      db.jobs := db.jobs[i := j.(dueAt := now + HOLD_DELAY)];
      return false;
    }
    if j.attempts > 1 && now > j.createdAt + PROVIDER_WINDOW {
      db.jobs := db.jobs[i := j.(state := DeadJob, token := None)];
      return false;
    }
    if Obsolete(db.RowsNow(), db.BoxNow(), j, now) {
      db.jobs := db.jobs[i := j.(state := CancelledJob, payload := false, token := None)];
      return false;
    }
    if !readable {
      db.jobs := db.jobs[i := j.(state := DeadJob, token := None)];
      return false;
    }
    if token in db.attempts {
      return false;
    }
    db.attempts := db.attempts[token := Attempt(i, false)];
    return true;
  }

  // The second transaction of a send, with the provider's answer.
  method FinishSend(db: Session, i: nat, token: nat, sent: Sent, now: Time, jitter: nat)
    requires Sending(db.BoxNow(), i, token)
    modifies db`jobs, db`attempts, db`log
    ensures db.BoxNow() == PostSend(old(db.BoxNow()), i, token, sent, now, jitter)
  {
    hide RetryDelay;
    db.attempts := db.attempts[token := Attempt(i, true)];
    if !(i < |db.jobs| && db.jobs[i].state == ClaimedJob && db.jobs[i].token == Some(token)) {
      return;
    }
    var j := db.jobs[i].(token := None, leaseUntil := None);
    var verdict := VerdictOf(j, sent);
    if sent.accepted {
      j := j.(state := AcceptedJob, payload := false);
    } else if !sent.retryable || j.attempts >= MAX_ATTEMPTS {
      j := j.(state := DeadJob);
    } else {
      j := j.(state := RetryJob, dueAt := now + RetryDelay(j.attempts, sent.retryAfter, jitter));
    }
    db.jobs := db.jobs[i := j];
    db.log := db.log + [WriteBack(i, token, verdict)];
  }

  // ---------------------------------------------------------------------
  // Cleaning up
  // ---------------------------------------------------------------------

  // Erases what the cleanup query returned, and cancels what of it is live.
  method CleanUpJobs(db: Session, picks: seq<nat>)
    requires forall p :: 0 <= p < |picks| ==> picks[p] < |db.jobs|
    modifies db`jobs
    ensures db.BoxNow() == CleanAll(old(db.BoxNow()), picks)
  {
    var i := 0;
    while i < |picks|
      invariant 0 <= i <= |picks| && |db.jobs| == |old(db.jobs)|
      invariant db.BoxNow() == CleanAll(old(db.BoxNow()), picks[..i])
    {
      assert picks[..i + 1][..i] == picks[..i];
      var j := db.jobs[picks[i]].(payload := false);
      if j.state == ReadyJob || j.state == RetryJob || j.state == ClaimedJob {
        j := j.(state := CancelledJob, token := None, leaseUntil := None);
      }
      db.jobs := db.jobs[picks[i] := j];
      i := i + 1;
    }
    assert picks[..i] == picks;
  }
}
