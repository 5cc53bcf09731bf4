// The beneficiary routes and the acceptance of invitations, working on the
// session's rows in place.

module BeneficiaryRoutes {
  import opened Wrappers
  import opened Tables
  import opened Transactions
  import opened Beneficiaries
  import opened Delivery
  import opened OutboxWorker
  import opened SessionStore
  import S = Sessions
  import Release

  // id is the key the table gives the new row.
  method AddRoute(db: Session, id: int, q: NewPerson, limit: int) returns (outcome: Outcome)
    requires id !in db.people
    modifies db`status, db`people
    ensures Gives(old(db.RowsNow()), db.RowsNow(), outcome, Add(old(db.RowsNow()), id, q, limit))
    ensures outcome != Discard
  {
    hide EmailTaken, IndexTaken;
    db.LockStatus();
    if EmailTaken(db.RowsNow(), q.email, None) {
      return Raise(Conflict);
    }
    if |db.people| >= limit {
      return Raise(Conflict);
    }
    if q.index.Some? {
      if !InRange(db.RowsNow(), q.index.value) {
        return Raise(Invalid);
      }
      if IndexTaken(db.RowsNow(), q.index.value, None) {
        return Raise(Conflict);
      }
    }
    var entry := Beneficiary(q.email, q.phone, q.index, 1, None, Pending, None, None);
    if q.index.Some? {
      entry := entry.(generation := db.vault.generation);
    }
    db.people := db.people[id := entry];
    return Commit;
  }

  method InviteRoute(db: Session, id: int, token: nat, now: Time) returns (outcome: Outcome)
    modifies db`status, db`people, db`families, db`challenges, db`events, db`jobs
    ensures Gives(old(db.RowsNow()), db.RowsNow(), outcome, Invite(old(db.RowsNow()), id, token, now))
    ensures outcome != Discard
    ensures outcome.Commit? ==>
              && id in db.people && db.AuthNow() == S.RevokeBeneficiary(old(db.AuthNow()), id, now)
              && db.BoxNow() == Announce(CancelRecipient(old(db.BoxNow()), id), Event(InvitationEvent,
                  db.status.version),
                                         [Addressee(Release.PersonOf(db.RowsNow(), id), Email)], now,
                                             Some(now + INVITATION_LIFE))
  {
    hide Announce, NewJob, CancelRecipient, S.RevokeBeneficiary;
    db.LockStatus();
    if id !in db.people {
      return Raise(NotFound);
    }
    if db.people[id].invitation == Accepted {
      return Raise(Conflict);
    }
    RevokeEverything(db, id, now);
    var ben := db.people[id].(token := Some(token));
    ben := ben.(invitation := Invitation.Sent, sentAt := Some(now));
    db.people := db.people[id := ben];
    var event := NewEvent(db, InvitationEvent, db.status.version);
    Enqueue(db, event, Addressee(Person(id, ben.contactRevision), Email), now, Some(now + INVITATION_LIFE));
    AnnounceOne(CancelRecipient(old(db.BoxNow()), id), Event(InvitationEvent, db.status.version),
                Addressee(Person(id, ben.contactRevision), Email), now, Some(now + INVITATION_LIFE));
    return Commit;
  }

  // A new address revokes what the old one was given and starts over.
  method ChangeContact(db: Session, id: int, q: Change, now: Time) returns (ben: Beneficiary)
    requires id in db.people
    modifies db`families, db`challenges, db`jobs
    ensures if ChangesContact(db.RowsNow(), id, q) then
              && ben == NewContact(db.people[id], q.email.value)
              && db.AuthNow() == S.RevokeBeneficiary(old(db.AuthNow()), id, now)
              && db.BoxNow() == CancelRecipient(old(db.BoxNow()), id)
            else ben == db.people[id] && db.AuthNow() == old(db.AuthNow()) && db.BoxNow() == old(db.BoxNow())
  {
    hide CancelRecipient, S.RevokeBeneficiary;
    ben := db.people[id];
    if q.email.Some? && q.email.value != ben.email {
      RevokeEverything(db, id, now);
      ben := ben.(contactRevision := ben.contactRevision + 1);
      ben := ben.(email := q.email.value, invitation := Pending, token := None, sentAt := None);
    }
  }

  method UpdateRoute(db: Session, id: int, q: Change, now: Time) returns (outcome: Outcome)
    modifies db`status, db`people, db`families, db`challenges, db`jobs
    ensures Gives(old(db.RowsNow()), db.RowsNow(), outcome, Update(old(db.RowsNow()), id, q))
    ensures outcome != Discard
    ensures outcome.Commit? ==>
              if id in old(db.people) && ChangesContact(old(db.RowsNow()), id, q) then
                && db.AuthNow() == S.RevokeBeneficiary(old(db.AuthNow()), id, now)
                && db.BoxNow() == CancelRecipient(old(db.BoxNow()), id)
              else db.AuthNow() == old(db.AuthNow()) && db.BoxNow() == old(db.BoxNow())
  {
    hide CancelRecipient, S.RevokeBeneficiary, EmailTaken, IndexTaken, NewContact;
    db.LockStatus();
    if id !in db.people {
      return Raise(NotFound);
    }
    var ben := ChangeContact(db, id, q, now);
    if q.phone.Some? {
      ben := ben.(phone := q.phone.value);
    }
    if q.index.Clear? {
      ben := ben.(index := None, generation := None);
    }
    if q.index.Assign? {
      if !InRange(db.RowsNow(), q.index.index) {
        return Raise(Invalid);
      }
      if IndexTaken(db.RowsNow(), q.index.index, Some(id)) {
        return Raise(Conflict);
      }
      ben := ben.(index := Some(q.index.index), generation := db.vault.generation);
    }
    if EmailTaken(db.RowsNow(), ben.email, Some(id)) {
      return Raise(Conflict);
    }
    db.people := db.people[id := ben];
    return Commit;
  }

  method AssignRoute(db: Session, id: int, index: int) returns (outcome: Outcome)
    modifies db`status, db`people
    ensures Gives(old(db.RowsNow()), db.RowsNow(), outcome, AssignShare(old(db.RowsNow()), id, index))
    ensures outcome != Discard
  {
    hide IndexTaken;
    db.LockStatus();
    if !InRange(db.RowsNow(), index) {
      return Raise(Invalid);
    }
    if id !in db.people {
      return Raise(NotFound);
    }
    if IndexTaken(db.RowsNow(), index, Some(id)) {
      return Raise(Conflict);
    }
    db.people := db.people[id := db.people[id].(index := Some(index), generation := db.vault.generation)];
    return Commit;
  }

  method DeleteRoute(db: Session, id: int, now: Time) returns (outcome: Outcome)
    modifies db`status, db`people, db`families, db`challenges, db`jobs
    ensures Gives(old(db.RowsNow()), db.RowsNow(), outcome, Delete(old(db.RowsNow()), id))
    ensures outcome != Discard
    ensures outcome.Commit? ==>
              && db.AuthNow() == S.RevokeBeneficiary(old(db.AuthNow()), id, now)
              && db.BoxNow() == CancelRecipient(old(db.BoxNow()), id)
  {
    hide CancelRecipient, S.RevokeBeneficiary;
    db.LockStatus();
    if id !in db.people {
      return Raise(NotFound);
    }
    RevokeEverything(db, id, now);
    db.people := db.people - {id};
    return Commit;
  }

  // An invitation too old is marked expired, and that is committed.
  method AcceptRoute(db: Session, id: int, token: nat, epoch: string, now: Time)
    returns (outcome: Outcome, raw: Option<nat>)
    modifies db`status, db`people, db`families, db`tokens
    ensures Gives(old(db.RowsNow()), db.RowsNow(), outcome, Accept(old(db.RowsNow()), id, token, now))
    ensures outcome != Discard
    ensures raw.Some? ==> raw.value == |old(db.tokens)|
    ensures raw.Some? <==> outcome.Commit? && id in db.people && db.people[id].invitation == Accepted
    ensures outcome.Commit? ==>
              db.AuthNow() == if id in db.people && db.people[id].invitation == Accepted
                              then S.Issue(old(db.AuthNow()), BeneficiaryAt(id, db.people[id].contactRevision),
                                           epoch, now)
                              else old(db.AuthNow())
  {
    hide S.Issue;
    raw := None;
    if id !in db.people || db.people[id].token != Some(token) {
      return Raise(NotFound), raw;
    }
    db.LockStatus();
    var ben := db.people[id];
    if ben.invitation == Accepted {
      return Raise(Conflict), raw;
    }
    if ben.invitation == Expired {
      return Raise(Gone), raw;
    }
    if ben.sentAt.Some? && now > ben.sentAt.value + INVITATION_LIFE {
      db.people := db.people[id := ben.(invitation := Expired)];
      return Commit, raw;
    }
    if ben.invitation != Invitation.Sent {
      return Raise(NotFound), raw;
    }
    db.people := db.people[id := ben.(invitation := Accepted, token := None)];
    var minted := IssueSession(db, BeneficiaryAt(id, ben.contactRevision), epoch, now);
    return Commit, Some(minted);
  }
}
