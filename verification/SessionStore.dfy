// Issuing, rotating and revoking sessions, and sign-in links, on a database
// session.

module SessionStore {
  import opened Wrappers
  import opened Tables
  import opened Transactions
  import opened Sessions
  import opened Delivery
  import opened OutboxWorker
  import Release
  import Worlds

  // A fresh token of a family; only its hash is stored.
  method Mint(db: Session, family: nat, parent: Option<nat>) returns (raw: nat)
    requires family < |db.families|
    modifies db`tokens
    ensures raw == |old(db.tokens)|
    ensures db.tokens == old(db.tokens) + [Refresh(family, None, db.families[family].expires, parent)]
  {
    raw := |db.tokens|;
    db.tokens := db.tokens + [Refresh(family, None, db.families[family].expires, parent)];
  }

  method IssueSession(db: Session, p: Principal, epoch: string, now: Time) returns (raw: nat)
    modifies db`families, db`tokens
    ensures db.AuthNow() == Issue(old(db.AuthNow()), p, epoch, now) && raw == |old(db.tokens)|
  {
    var family := |db.families|;
    db.families := db.families + [Family(p, epoch, false, now + Life(p))];
    raw := Mint(db, family, None);
  }

  // Signs the beneficiary out everywhere and silences the messages to them.
  method RevokeEverything(db: Session, id: int, now: Time)
    modifies db`families, db`challenges, db`jobs
    ensures db.AuthNow() == RevokeBeneficiary(old(db.AuthNow()), id, now)
    ensures db.BoxNow() == CancelRecipient(old(db.BoxNow()), id)
  {
    hide CancelRecipient, RevokeFamilies, ConsumeChallenges;
    db.families := RevokeFamilies(db.families, id);
    db.challenges := ConsumeChallenges(db.challenges, id, now);
    CancelRecipientJobs(db, id);
  }

  // Exchanges a refresh token. A token presented again after its grace period
  // revokes its family, and that is committed although the request is refused.
  method RotateToken(db: Session, raw: nat, beneficiary: bool, epoch: string, now: Time)
    returns (outcome: Outcome, minted: Result<nat, Refusal>)
    modifies db`status, db`families, db`tokens
    ensures match Rotate(old(db.RowsNow()), old(db.AuthNow()), raw, beneficiary, epoch, now)
            case Rotated(auth) => outcome == Commit && db.AuthNow() == auth && minted == Success(|old(db.tokens)|)
            case Reused(auth) => outcome == Commit && db.AuthNow() == auth && minted == Failure(Unauthorized)
            case Denied(why) => outcome == Raise(why) && minted == Failure(why)
    ensures outcome.Commit? ==> db.RowsNow() == if beneficiary then Lock(old(db.RowsNow())) else old(db.RowsNow())
  {
    hide PrincipalStands, ValidFamily;
    if raw >= |db.tokens| || db.tokens[raw].family >= |db.families| {
      return Raise(Unauthorized), Failure(Unauthorized);
    }
    var t := db.tokens[raw];
    var f := db.families[t.family];
    if f.principal.BeneficiaryAt? != beneficiary {
      return Raise(Unauthorized), Failure(Unauthorized);
    }
    if beneficiary {
      db.LockStatus();
    }
    LockStands(old(db.RowsNow()), f.principal);
    if !ValidFamily(f, epoch, now) || !PrincipalStands(db.RowsNow(), f.principal) {
      return Raise(Unauthorized), Failure(Unauthorized);
    }
    if t.consumedAt.Some? {
      if now <= t.consumedAt.value + REUSE_GRACE {
        return Raise(Conflict), Failure(Conflict);
      }
      db.families := db.families[t.family := f.(revoked := true)];
      return Commit, Failure(Unauthorized);
    }
    db.tokens := db.tokens[raw := t.(consumedAt := Some(now))];
    var next := Mint(db, t.family, Some(raw));
    return Commit, Success(next);
  }

  lemma LockStands(r: Rows, p: Principal)
    ensures PrincipalStands(Lock(r), p) <==> PrincipalStands(r, p)
  {
  }

  method Revoke(db: Session, raw: nat, beneficiary: bool)
    modifies db`families
    ensures db.AuthNow() == RevokeCookie(old(db.AuthNow()), raw, beneficiary)
  {
    if raw < |db.tokens| && db.tokens[raw].family < |db.families| {
      var i := db.tokens[raw].family;
      if db.families[i].principal.BeneficiaryAt? == beneficiary {
        db.families := db.families[i := db.families[i].(revoked := true)];
      }
    }
  }

  // A sign-in link for the candidate the unlocked query found. Under the lock it
  // is looked at again: if it no longer qualifies only the lock is committed.
  method SendLink(db: Session, id: int, email: string, only: Option<int>, found: bool, epoch: string, now: Time)
    returns (outcome: Outcome)
    modifies db`status, db`challenges, db`events, db`jobs
    ensures outcome == if found then Commit else Discard
    ensures found ==> db.RowsNow() == Lock(old(db.RowsNow()))
    ensures found && !LinkSent(old(db.RowsNow()), old(db.AuthNow()), id, email, only, now) ==>
              db.AuthNow() == old(db.AuthNow()) && db.BoxNow() == old(db.BoxNow())
    ensures found && LinkSent(old(db.RowsNow()), old(db.AuthNow()), id, email, only, now) ==>
              && id in db.people
              && db.AuthNow() == AddChallenge(db.RowsNow(), old(db.AuthNow()), id, epoch, now)
              && db.BoxNow() == Announce(old(db.BoxNow()), Event(LoginEvent, db.status.version),
                                         [Addressee(Release.PersonOf(db.RowsNow(), id), Email)], now,
                                             Some(now + LINK_LIFE))
  {
    hide RecentLink, Announce, AddChallenge;
    if !found {
      return Discard;
    }
    db.LockStatus();
    if Named(db.RowsNow(), id, email, only) && !RecentLink(db.AuthNow(), id, now) {
      AddLink(db, id, epoch, now);
    }
    return Commit;
  }

  // The challenge, and the message that carries its link.
  method AddLink(db: Session, id: int, epoch: string, now: Time)
    requires id in db.people
    modifies db`challenges, db`events, db`jobs
    ensures db.AuthNow() == AddChallenge(db.RowsNow(), old(db.AuthNow()), id, epoch, now)
    ensures db.BoxNow() == Announce(old(db.BoxNow()), Event(LoginEvent, db.status.version),
                                    [Addressee(Release.PersonOf(db.RowsNow(), id), Email)], now, Some(now + LINK_LIFE))
  {
    hide Announce, NewJob;
    var ben := db.people[id];
    db.challenges := db.challenges + [Challenge(id, ben.contactRevision, epoch, None, now + LINK_LIFE, now)];
    var event := NewEvent(db, LoginEvent, db.status.version);
    Enqueue(db, event, Addressee(Person(id, ben.contactRevision), Email), now, Some(now + LINK_LIFE));
    AnnounceOne(old(db.BoxNow()), Event(LoginEvent, db.status.version),
                Addressee(Person(id, ben.contactRevision), Email), now, Some(now + LINK_LIFE));
  }

  // A link is used once, by an accepted beneficiary at the address it went to.
  method UseLink(db: Session, c: nat, epoch: string, now: Time) returns (outcome: Outcome)
    modifies db`status, db`challenges, db`families, db`tokens
    ensures outcome == if Redeemable(old(db.RowsNow()), old(db.AuthNow()), c, epoch, now) then Commit
        else Raise(Unauthorized)
    ensures outcome.Commit? ==>
              && db.RowsNow() == Lock(old(db.RowsNow())) && c < |db.challenges|
              && db.AuthNow() == Redeem(old(db.AuthNow()), c, epoch, now)
  {
    hide Entitled;
    if c >= |db.challenges| {
      return Raise(Unauthorized);
    }
    var row := db.challenges[c];
    if row.consumedAt.Some? || row.expires <= now || row.epoch != epoch {
      return Raise(Unauthorized);
    }
    db.LockStatus();
    EntitledIgnoresLock(old(db.RowsNow()), row.beneficiary, row.contactRevision);
    if !Entitled(db.RowsNow(), row.beneficiary, row.contactRevision) {
      return Raise(Unauthorized);
    }
    db.challenges := db.challenges[c := row.(consumedAt := Some(now))];
    var _ := IssueSession(db, BeneficiaryAt(row.beneficiary, row.contactRevision), epoch, now);
    return Commit;
  }

  lemma EntitledIgnoresLock(r: Rows, id: int, contactRevision: nat)
    ensures Entitled(Lock(r), id, contactRevision) <==> Entitled(r, id, contactRevision)
  {
  }

  // ---------------------------------------------------------------------
  // The endpoints, from begin to commit or rollback
  // ---------------------------------------------------------------------

  method SignInRoute(db: Session, user: int, epoch: string, now: Time) returns (raw: nat)
    requires db.Clean()
    modifies db
    ensures db.Clean() && db.committed == Worlds.NextWorld(old(db.committed), Worlds.SignIn(user, epoch, now))
  {
    hide Issue, Worlds.Routed, Worlds.Rotated;
    raw := IssueSession(db, OwnerOf(user), epoch, now);
    db.Commit();
  }

  method RefreshRoute(db: Session, raw: nat, beneficiary: bool, epoch: string, now: Time)
    returns (minted: Result<nat, Refusal>)
    requires db.Clean()
    modifies db
    ensures db.Clean()
    ensures db.committed == Worlds.NextWorld(old(db.committed), Worlds.RefreshSession(raw, beneficiary, epoch, now))
    ensures minted == match Rotate(old(db.RowsNow()), old(db.AuthNow()), raw, beneficiary, epoch, now)
                      case Rotated(_) => Success(|old(db.tokens)|)
                      case Reused(_) => Failure(Unauthorized)
                      case Denied(why) => Failure(why)
  {
    hide Rotate, Worlds.Routed, Worlds.LinkAsked;
    var outcome;
    outcome, minted := RotateToken(db, raw, beneficiary, epoch, now);
    Settle(db, outcome);
  }

  method SignOutRoute(db: Session, raw: nat, beneficiary: bool)
    requires db.Clean()
    modifies db
    ensures db.Clean() && db.committed == Worlds.NextWorld(old(db.committed), Worlds.SignOut(raw, beneficiary))
  {
    hide RevokeCookie, Worlds.Routed, Worlds.Rotated;
    Revoke(db, raw, beneficiary);
    db.Commit();
  }

  // The endpoint serves only somebody who is enrolled.
  method SignOutEverywhereRoute(db: Session, id: int, now: Time)
    requires db.Clean() && id in db.people
    modifies db
    ensures db.Clean() && db.committed == Worlds.NextWorld(old(db.committed), Worlds.SignOutEverywhere(id, now))
  {
    hide RevokeBeneficiary, CancelRecipient, Worlds.Routed, Worlds.Rotated;
    db.LockStatus();
    RevokeEverything(db, id, now);
    db.Commit();
  }

  method RequestLinkRoute(db: Session, id: int, email: string, only: Option<int>, found: bool, epoch: string, now: Time)
    requires db.Clean()
    modifies db
    ensures db.Clean()
    ensures db.committed == Worlds.NextWorld(old(db.committed), Worlds.AskLink(id, email, only, found, epoch, now))
  {
    hide LinkSent, AddChallenge, Announce, Worlds.Routed, Worlds.Rotated, Lock;
    var outcome := SendLink(db, id, email, only, found, epoch, now);
    Settle(db, outcome);
  }

  method RedeemRoute(db: Session, c: nat, epoch: string, now: Time) returns (ok: bool)
    requires db.Clean()
    modifies db
    ensures db.Clean() && ok == Redeemable(old(db.RowsNow()), old(db.AuthNow()), c, epoch, now)
    ensures db.committed == Worlds.NextWorld(old(db.committed), Worlds.RedeemLink(c, epoch, now))
  {
    hide Redeemable, Redeem, Worlds.Routed, Worlds.Rotated, Lock;
    var outcome := UseLink(db, c, epoch, now);
    Settle(db, outcome);
    ok := outcome.Commit?;
  }
}
