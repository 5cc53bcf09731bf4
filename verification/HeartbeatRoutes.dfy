// Settings, check-ins, grace, release and the periodic check, working on the
// session's rows in place.

module HeartbeatRoutes {
  import opened Wrappers
  import opened Tables
  import opened Transactions
  import opened Readiness
  import opened Heartbeat
  import opened Delivery
  import opened OutboxWorker
  import opened Release
  import opened ReleaseRuns

  // ---------------------------------------------------------------------
  // Settings and check-ins
  // ---------------------------------------------------------------------

  method SaveRoute(db: Session, q: Settings, now: Time) returns (outcome: Outcome)
    modifies db`status, db`config, db`jobs
    ensures Gives(old(db.RowsNow()), db.RowsNow(), outcome, SaveHeartbeat(old(db.RowsNow()), q, now))
    ensures outcome != Discard
    ensures outcome.Commit? ==> db.BoxNow() == CancelWarnings(old(db.BoxNow()))
  {
    hide ReleaseReady, CancelWarnings;
    if !(1 <= q.interval <= 365 && 1 <= q.grace <= 90) || q.grace > q.interval {
      return Raise(Invalid);
    }
    db.LockStatus();
    if db.status.state == Triggered {
      return Raise(Conflict);
    }
    var cfg := if db.config.Some? then db.config.value else DEFAULT_CONFIG;
    cfg := cfg.(interval := q.interval, grace := q.grace);
    db.status := db.status.(state := Active, graceStarted := None);
    if q.armed.Some? {
      if q.armed.value {
        ReadyIgnoresSwitch(Lock(old(db.RowsNow())), db.RowsNow());
        if !ReleaseReady(db.RowsNow()) {
          return Raise(Conflict);
        }
      }
      db.status := db.status.(armed := q.armed.value);
      if q.armed.value && cfg.lastCheckIn.None? {
        cfg := cfg.(lastCheckIn := Some(now));
      }
    }
    db.config := Some(cfg);
    CancelWarningJobs(db);
    return Commit;
  }

  method CheckInRoute(db: Session, now: Time) returns (outcome: Outcome)
    modifies db`status, db`config, db`jobs
    ensures Gives(old(db.RowsNow()), db.RowsNow(), outcome, CheckIn(old(db.RowsNow()), now))
    ensures outcome != Discard
    ensures outcome.Commit? ==> db.BoxNow() == CancelWarnings(old(db.BoxNow()))
  {
    hide ReleaseReady, CancelWarnings;
    db.LockStatus();
    if db.status.state == Triggered {
      return Raise(Conflict);
    }
    if !ReleaseReady(db.RowsNow()) {
      return Raise(Conflict);
    }
    var cfg := if db.config.Some? then db.config.value else DEFAULT_CONFIG;
    db.config := Some(cfg.(lastCheckIn := Some(now)));
    db.status := db.status.(armed := true);
    if db.status.state != Active || db.status.graceStarted.Some? {
      db.status := db.status.(state := Active, graceStarted := None, version := db.status.version + 1);
    }
    CancelWarningJobs(db);
    return Commit;
  }

  method GraceRoute(db: Session, now: Time)
    modifies db`status
    ensures MoveToGrace(old(db.RowsNow()), now) == Done(db.RowsNow())
  {
    hide ReleaseReady;
    db.LockStatus();
    if db.status.state != Active || !db.status.armed || db.config.None? || db.config.value.lastCheckIn.None? {
      return;
    }
    if !ReleaseReady(db.RowsNow()) {
      return;
    }
    var deadline := db.config.value.lastCheckIn.value + db.config.value.interval * DAY;
    if now < deadline {
      return;
    }
    db.status := db.status.(state := Grace, graceStarted := Some(deadline));
    db.status := db.status.(episode := db.status.episode + 1);
  }

  // ---------------------------------------------------------------------
  // Release
  // ---------------------------------------------------------------------

  method NotifyPerson(db: Session, event: nat, b: int, sms: bool, now: Time)
    modifies db`jobs
    ensures db.jobs == old(db.jobs) + Queue(event, NoticesFor(db.RowsNow(), b, sms), now, None)
  {
    if b in db.people && db.people[b].invitation == Accepted {
      var ben := db.people[b];
      Enqueue(db, event, Addressee(Person(b, ben.contactRevision), Email), now, None);
      if sms && ben.phone.Some? && ben.phone.value != "" {
        Enqueue(db, event, Addressee(Person(b, ben.contactRevision), Sms), now, None);
      }
    }
  }

  // A job for everyone who has accepted, in the order the database lists them.
  method NotifyAll(db: Session, event: nat, listing: seq<int>, sms: bool, now: Time)
    modifies db`jobs
    ensures db.jobs == old(db.jobs) + Queue(event, Notices(db.RowsNow(), listing, sms), now, None)
  {
    hide NoticesFor;
    var i := 0;
    while i < |listing|
      invariant 0 <= i <= |listing|
      invariant db.jobs == old(db.jobs) + Queue(event, Notices(db.RowsNow(), listing[..i], sms), now, None)
    {
      assert listing[..i + 1][..i] == listing[..i];
      NotifyPerson(db, event, listing[i], sms, now);
      QueueConcat(event, Notices(db.RowsNow(), listing[..i], sms), NoticesFor(db.RowsNow(), listing[i], sms), now,
                  None);
      i := i + 1;
    }
    assert listing[..i] == listing;
  }

  // For a vault whose lock is held.
  method ReleaseVault(db: Session, listing: seq<int>, now: Time, hold: bool, sms: bool) returns (outcome: Outcome)
    modifies db`status, db`events, db`jobs
    ensures Gives(old(db.RowsNow()), db.RowsNow(), outcome, ReleaseLocked(old(db.RowsNow()), now, hold))
    ensures outcome != Discard
    ensures outcome.Commit? ==>
              db.BoxNow() == if old(db.status.state) == Triggered then old(db.BoxNow())
                             else AnnounceRelease(db.RowsNow(), old(db.BoxNow()), listing, sms, now)
  {
    hide ReleaseReady, CancelWarnings, Notices, Announce;
    if db.status.state == Triggered {
      return Commit;
    }
    if hold {
      return Raise(Conflict);
    }
    if !ReleaseReady(db.RowsNow()) {
      return Raise(Conflict);
    }
    db.status := db.status.(state := Triggered, triggeredAt := Some(now));
    CancelWarningJobs(db);
    AnnounceIs(db.BoxNow(), Event(ReleasedEvent, db.status.version), Notices(db.RowsNow(), listing, sms), now, None);
    var business := NewEvent(db, ReleasedEvent, db.status.version);
    NotifyAll(db, business, listing, sms, now);
    return Commit;
  }

  method TriggerRoute(db: Session, reason: Reason, listing: seq<int>, now: Time, hold: bool, sms: bool)
    returns (outcome: Outcome)
    modifies db`status, db`events, db`jobs
    ensures Gives(old(db.RowsNow()), db.RowsNow(), outcome, TriggerVault(old(db.RowsNow()), reason, now, hold))
    ensures outcome != Discard
    ensures outcome.Commit? ==>
              db.BoxNow() == if old(db.status.state) != Triggered && db.status.state == Triggered
                             then AnnounceRelease(db.RowsNow(), old(db.BoxNow()), listing, sms, now)
                             else old(db.BoxNow())
  {
    hide ReleaseReady, AnnounceRelease;
    db.LockStatus();
    if reason == Inactivity {
      if db.config.None? || db.config.value.lastCheckIn.None? || !db.status.armed || db.status.state != Grace {
        return Commit;
      }
      var cfg := db.config.value;
      if now < cfg.lastCheckIn.value + (cfg.interval + cfg.grace) * DAY {
        return Commit;
      }
    }
    outcome := ReleaseVault(db, listing, now, hold, sms);
  }

  // ---------------------------------------------------------------------
  // Warnings
  // ---------------------------------------------------------------------

  method WarnRoute(db: Session, kind: Kind, listing: seq<int>, now: Time)
    modifies db`events, db`jobs
    ensures db.BoxNow() == WarnOnce(db.RowsNow(), old(db.BoxNow()), kind, listing, now)
  {
    hide Notices, Announce, HasEvent;
    if HasEvent(db.BoxNow(), Event(kind, db.status.episode)) {
      return;
    }
    var to := Notices(db.RowsNow(), listing, false);
    AnnounceIs(db.BoxNow(), Event(kind, db.status.episode), [Addressee(Owner, Email)] + to, now, None);
    var business := NewEvent(db, kind, db.status.episode);
    Enqueue(db, business, Addressee(Owner, Email), now, None);
    NotifyAll(db, business, listing, false, now);
    QueueConcat(business, [Addressee(Owner, Email)], to, now, None);
  }

  method StageRoute(db: Session, listing: seq<int>, now: Time)
    requires db.config.Some? && db.config.value.lastCheckIn.Some? && db.status.graceStarted.Some?
    modifies db`events, db`jobs
    ensures db.BoxNow() == StageWarning(db.RowsNow(), old(db.BoxNow()), listing, now)
  {
    hide WarnOnce, WarningKinds, ReleaseTime;
    var kinds := KindsDue(db, now);
    var i := 0;
    while i < |kinds|
      invariant 0 <= i <= |kinds|
      invariant db.BoxNow() == WarnAll(db.RowsNow(), old(db.BoxNow()), kinds[..i], listing, now)
    {
      assert kinds[..i + 1][..i] == kinds[..i];
      WarnRoute(db, kinds[i], listing, now);
      i := i + 1;
    }
    assert kinds[..i] == kinds;
  }

  method KindsDue(db: Session, now: Time) returns (kinds: seq<Kind>)
    requires db.config.Some? && db.config.value.lastCheckIn.Some? && db.status.graceStarted.Some?
    ensures kinds == WarningKinds(db.RowsNow(), now)
  {
    var end := ReleaseTime(db.config.value);
    kinds := [];
    if end > now {
      kinds := kinds + [GraceFirst];
      if now >= db.status.graceStarted.value + 3 * DAY && db.config.value.grace > 3 {
        kinds := kinds + [GraceSecond];
      }
      if end <= now + DAY {
        kinds := kinds + [GraceFinal];
      }
    }
  }

  // ---------------------------------------------------------------------
  // The periodic check
  // ---------------------------------------------------------------------

  // Enters grace, from active, once the deadline has passed.
  method OverdueRoute(db: Session, deadline: Time)
    modifies db`status
    ensures db.RowsNow() == if old(db.status.state) == Active then EnterGrace(old(db.RowsNow()), deadline)
        else old(db.RowsNow())
  {
    if db.status.state == Active {
      db.status := db.status.(state := Grace, graceStarted := Some(deadline));
      db.status := db.status.(episode := db.status.episode + 1);
    }
  }

  // One vault's round of the check, with no hold in place.
  method CheckRoute(db: Session, listing: seq<int>, now: Time, sms: bool) returns (outcome: Outcome)
    requires db.status.state == Grace ==> db.status.graceStarted.Some?
    modifies db`status, db`events, db`jobs
    ensures match CheckOne(old(db.RowsNow()), now)
            case Idle => !outcome.Commit?
            case Warned(rows) => outcome == Commit && db.RowsNow() == rows
                                 && db.BoxNow() == StageWarning(rows, old(db.BoxNow()), listing, now)
            case Released(rows) => outcome == Commit && db.RowsNow() == rows
                                   && db.BoxNow() == AnnounceRelease(rows, old(db.BoxNow()), listing, sms, now)
  {
    hide ReleaseReady, AnnounceRelease, StageWarning, EnterGrace, ReleaseTime;
    if !Selected(db.RowsNow(), now) {
      return Discard;
    }
    db.LockStatus();
    if !CanAdvance(db.RowsNow(), now) {
      return Discard;
    }
    var deadline := Deadline(db.config.value);
    OverdueRoute(db, deadline);
    GraceEntered(Lock(old(db.RowsNow())), deadline);
    ReadyIgnoresSwitch(Lock(old(db.RowsNow())), db.RowsNow());
    if now >= deadline + db.config.value.grace * DAY {
      outcome := ReleaseVault(db, listing, now, false, sms);
    } else {
      StageRoute(db, listing, now);
      outcome := Commit;
    }
  }

  lemma GraceEntered(r: Rows, deadline: Time)
    ensures var g := EnterGrace(r, deadline);
            && g.status.state == Grace && g.status.graceStarted.Some? && g.config == r.config
            && g.vault == r.vault && g.ceremonies == r.ceremonies && g.people == r.people
  {
  }
}
