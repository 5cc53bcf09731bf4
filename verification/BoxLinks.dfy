// What the outbox has to do with the vault's rows: who a live job is for,
// which episode a live warning belongs to, and which events there can be.

module BoxLinks {
  import opened Wrappers
  import opened Collections
  import opened Tables
  import opened Delivery
  import opened BoxInvariants
  import opened OutboxRuns
  import opened Release

  // ---------------------------------------------------------------------
  // The links
  // ---------------------------------------------------------------------

  predicate Current(r: Rows, p: Recipient) {
    p.Person? ==> p.id in r.people && r.people[p.id].contactRevision == p.contactRevision
  }

  // A live job is for the owner, or for a beneficiary at the current address.
  predicate ContactOk(r: Rows, b: Outbox) {
    forall i :: 0 <= i < |b.jobs| && Live(b.jobs[i]) ==> Current(r, b.jobs[i].recipient)
  }

  predicate WarnsOfNow(r: Rows, e: Event) {
    r.status.state == Grace && r.status.episode == e.revision
  }

  // A live warning is about the grace period the vault is in.
  predicate GraceOk(r: Rows, b: Outbox) {
    forall i :: 0 <= i < |b.jobs| && Live(b.jobs[i]) && Warns(b, b.jobs[i]) ==> WarnsOfNow(r, b.events[b.jobs[i].event])
  }

  predicate InPast(r: Rows, e: Event) {
    if Warning(e.kind) then e.revision <= r.status.episode else e.revision <= r.status.version
  }

  // No event is announced twice.
  predicate EventsOk(r: Rows, b: Outbox) {
    && (forall i :: 0 <= i < |b.events| ==> InPast(r, b.events[i]))
    && (forall i, j :: 0 <= i < j < |b.events| ==> b.events[i] != b.events[j])
  }

  predicate ReleasedAt(b: Outbox, i: int) {
    0 <= i < |b.events| && b.events[i].kind == ReleasedEvent
  }

  // The vault is released exactly when one release event exists.
  ghost predicate ReleaseOk(r: Rows, b: Outbox) {
    && (r.status.state == Triggered <==> exists i :: ReleasedAt(b, i))
    && (forall i, j :: ReleasedAt(b, i) && ReleasedAt(b, j) ==> i == j)
  }

  predicate SameWho(p: Recipient, q: Recipient) {
    match p
    case Owner => q.Owner?
    case Person(id, _) => q.Person? && q.id == id
  }

  predicate SameKey(j: Job, k: Job) {
    j.event == k.event && j.channel == k.channel && SameWho(j.recipient, k.recipient)
  }

  // One job for each event, recipient and channel.
  predicate KeysOk(b: Outbox) {
    forall i, j :: 0 <= i < |b.jobs| && 0 <= j < |b.jobs| && SameKey(b.jobs[i], b.jobs[j]) ==> i == j
  }

  ghost predicate Linked(r: Rows, b: Outbox) {
    ContactOk(r, b) && GraceOk(r, b) && EventsOk(r, b) && ReleaseOk(r, b) && KeysOk(b)
  }

  // ---------------------------------------------------------------------
  // Changes to jobs that are there
  // ---------------------------------------------------------------------

  // The same jobs, further on.
  predicate Onward(b: Outbox, c: Outbox) {
    Grows(b, c) && c.events == b.events && |c.jobs| == |b.jobs|
  }

  lemma OnwardLinked(r: Rows, b: Outbox, c: Outbox)
    requires Linked(r, b) && Onward(b, c)
    ensures Linked(r, c)
  {
    hide Prefix, InPast, WarnsOfNow, Current;
    assert forall i :: ReleasedAt(b, i) <==> ReleasedAt(c, i);
    forall i | 0 <= i < |c.jobs| && Live(c.jobs[i])
      ensures Live(b.jobs[i]) && c.jobs[i].event == b.jobs[i].event && c.jobs[i].recipient == b.jobs[i].recipient
    {
      assert JobGrows(b.jobs[i], c.jobs[i]);
    }
    forall i, j | 0 <= i < |c.jobs| && 0 <= j < |c.jobs| && SameKey(c.jobs[i], c.jobs[j]) ensures i == j {
      assert JobGrows(b.jobs[i], c.jobs[i]) && JobGrows(b.jobs[j], c.jobs[j]);
      assert SameKey(b.jobs[i], b.jobs[j]);
    }
  }

  lemma CancelOnward(b: Outbox, hit: Job -> bool)
    ensures Onward(b, CancelWhere(b, hit))
  {
    CancelGrows(b, hit);
  }

  lemma WorkOnward(r: Rows, b: Outbox, w: Work)
    ensures Onward(b, Worked(r, b, w))
  {
    hide Grows, Batch, CleanupBatch, ClaimAll, CleanAll, Obsolete, Permitted, Judged, VerdictOf;
    WorkGrows(r, b, w);
    match w
    case Claim(picks, now, hold, limit, locked) => ClaimAllFrame(b, picks, now);
    case Start(job, token, now, hold, readable) =>
    case Finish(job, token, sent, now, jitter) =>
    case CleanUp(picks, now) => CleanAllFrame(b, picks);
  }

  // ---------------------------------------------------------------------
  // Announcements
  // ---------------------------------------------------------------------

  predicate DistinctAddressees(to: seq<Addressee>) {
    forall i, j :: 0 <= i < j < |to| ==> to[i].channel != to[j].channel || !SameWho(to[i].recipient, to[j].recipient)
  }

  predicate Addressable(r: Rows, to: seq<Addressee>) {
    DistinctAddressees(to) && forall i :: 0 <= i < |to| ==> Current(r, to[i].recipient)
  }

  lemma SameWhoSymmetric(p: Recipient, q: Recipient)
    ensures SameWho(p, q) <==> SameWho(q, p)
  {
  }

  lemma AnnouncedKeys(b: Outbox, e: Event, to: seq<Addressee>, now: Time, expires: Option<Time>)
    requires KeysOk(b) && DistinctAddressees(to)
    requires forall i :: 0 <= i < |b.jobs| ==> b.jobs[i].event < |b.events|
    ensures KeysOk(Announce(b, e, to, now, expires))
  {
    var c := Announce(b, e, to, now, expires);
    var n := |b.jobs|;
    forall i, j | 0 <= i < |c.jobs| && 0 <= j < |c.jobs| && SameKey(c.jobs[i], c.jobs[j]) ensures i == j {
      SameWhoSymmetric(c.jobs[i].recipient, c.jobs[j].recipient);
      if i < n && j < n {
        assert SameKey(b.jobs[i], b.jobs[j]);
      } else if i >= n && j >= n {
        hide SameWho;
        assert c.jobs[i] == NewJob(|b.events|, to[i - n], now, expires);
        assert c.jobs[j] == NewJob(|b.events|, to[j - n], now, expires);
      }
    }
  }

  lemma AnnouncedEvents(r: Rows, b: Outbox, e: Event, to: seq<Addressee>, now: Time, expires: Option<Time>)
    requires EventsOk(r, b) && InPast(r, e) && !HasEvent(b, e)
    ensures EventsOk(r, Announce(b, e, to, now, expires))
  {
    hide InPast;
  }

  lemma AnnouncedContacts(r: Rows, b: Outbox, e: Event, to: seq<Addressee>, now: Time, expires: Option<Time>)
    requires ContactOk(r, b) && Addressable(r, to)
    ensures ContactOk(r, Announce(b, e, to, now, expires))
  {
    hide Current, DistinctAddressees;
  }

  lemma AnnouncedGrace(r: Rows, b: Outbox, e: Event, to: seq<Addressee>, now: Time, expires: Option<Time>)
    requires GraceOk(r, b) && (Warning(e.kind) ==> WarnsOfNow(r, e))
    requires forall i :: 0 <= i < |b.jobs| ==> b.jobs[i].event < |b.events|
    ensures GraceOk(r, Announce(b, e, to, now, expires))
  {
    hide WarnsOfNow;
    var c := Announce(b, e, to, now, expires);
    forall i | 0 <= i < |c.jobs| && Live(c.jobs[i]) && Warns(c, c.jobs[i])
      ensures WarnsOfNow(r, c.events[c.jobs[i].event])
    {
      if i < |b.jobs| {
        assert c.jobs[i] == b.jobs[i];
      }
    }
  }

  // Any announcement but a release.
  lemma AnnouncedLinked(r: Rows, b: Outbox, e: Event, to: seq<Addressee>, now: Time, expires: Option<Time>)
    requires BoxInv(b) && Linked(r, b) && e.kind != ReleasedEvent
    requires InPast(r, e) && !HasEvent(b, e) && Addressable(r, to) && (Warning(e.kind) ==> WarnsOfNow(r, e))
    ensures Linked(r, Announce(b, e, to, now, expires))
  {
    EventsExist(b);
    AnnouncedKeys(b, e, to, now, expires);
    AnnouncedEvents(r, b, e, to, now, expires);
    AnnouncedContacts(r, b, e, to, now, expires);
    AnnouncedGrace(r, b, e, to, now, expires);
    AnnouncedRelease(b, e, to, now, expires);
    hide ContactOk, GraceOk, EventsOk, KeysOk, Announce, ReleasedAt, HasEvent;
    var c := Announce(b, e, to, now, expires);
    if exists i :: ReleasedAt(b, i) {
      var i :| ReleasedAt(b, i);
      assert ReleasedAt(c, i);
    }
    if exists i :: ReleasedAt(c, i) {
      var i :| ReleasedAt(c, i);
      assert ReleasedAt(b, i);
    }
  }

  lemma EventsExist(b: Outbox)
    requires BoxInv(b)
    ensures forall i :: 0 <= i < |b.jobs| ==> b.jobs[i].event < |b.events|
  {
    hide PayloadOk, TokenOk, LogOk;
    forall i | 0 <= i < |b.jobs| ensures b.jobs[i].event < |b.events| {
      assert JobOk(b, i);
    }
  }

  lemma AnnouncedRelease(b: Outbox, e: Event, to: seq<Addressee>, now: Time, expires: Option<Time>)
    ensures forall i :: ReleasedAt(Announce(b, e, to, now, expires), i)
                        <==> ReleasedAt(b, i) || (i == |b.events| && e.kind == ReleasedEvent)
  {
  }

  // The one announcement that makes a vault released.
  lemma ReleaseLinked(r: Rows, b: Outbox, e: Event, to: seq<Addressee>, now: Time)
    requires BoxInv(b) && ContactOk(r, b) && GraceOk(r, b) && EventsOk(r, b) && KeysOk(b)
    requires r.status.state == Triggered && forall i :: !ReleasedAt(b, i)
    requires e.kind == ReleasedEvent && InPast(r, e) && Addressable(r, to)
    ensures Linked(r, Announce(b, e, to, now, None))
  {
    EventsExist(b);
    forall i | 0 <= i < |b.events| ensures b.events[i] != e {
      assert !ReleasedAt(b, i);
    }
    AnnouncedKeys(b, e, to, now, None);
    AnnouncedEvents(r, b, e, to, now, None);
    AnnouncedContacts(r, b, e, to, now, None);
    AnnouncedGrace(r, b, e, to, now, None);
    AnnouncedRelease(b, e, to, now, None);
    hide ContactOk, GraceOk, EventsOk, KeysOk, Announce, ReleasedAt, HasEvent;
    assert ReleasedAt(Announce(b, e, to, now, None), |b.events|);
  }

  // ---------------------------------------------------------------------
  // Who gets a notice
  // ---------------------------------------------------------------------

  // a is an accepted beneficiary, by e-mail, or by text message when enabled.
  predicate Wanted(r: Rows, a: Addressee, sms: bool) {
    && a.recipient.Person? && a.recipient.id in r.people
    && a.recipient == PersonOf(r, a.recipient.id) && r.people[a.recipient.id].invitation == Accepted
    && (a.channel == Email || (sms && HasPhone(r.people[a.recipient.id])))
  }

  lemma {:induction false} NoticesExact(r: Rows, listing: seq<int>, sms: bool, a: Addressee)
    ensures a in Notices(r, listing, sms) <==> Wanted(r, a, sms) && a.recipient.id in listing
    decreases |listing|
  {
    if listing != [] {
      var n := |listing| - 1;
      NoticesExact(r, listing[..n], sms, a);
      assert a in NoticesFor(r, listing[n], sms) <==> Wanted(r, a, sms) && a.recipient.id == listing[n];
      assert listing == listing[..n] + [listing[n]];
    }
  }

  lemma {:induction false} NoticesDistinct(r: Rows, listing: seq<int>, sms: bool)
    requires Distinct(listing)
    ensures DistinctAddressees(Notices(r, listing, sms))
    decreases |listing|
  {
    if listing != [] {
      var n := |listing| - 1;
      var before, last := Notices(r, listing[..n], sms), NoticesFor(r, listing[n], sms);
      NoticesDistinct(r, listing[..n], sms);
      forall i, j | 0 <= i < |before| && 0 <= j < |last| ensures !SameWho(before[i].recipient, last[j].recipient) {
        NoticesExact(r, listing[..n], sms, before[i]);
      }
      LastDistinct(r, listing[n], sms);
      ConcatDistinct(before, last);
    }
  }

  lemma LastDistinct(r: Rows, b: int, sms: bool)
    ensures DistinctAddressees(NoticesFor(r, b, sms))
  {
  }

  lemma ConcatDistinct(s: seq<Addressee>, t: seq<Addressee>)
    requires DistinctAddressees(s) && DistinctAddressees(t)
    requires forall i, j :: 0 <= i < |s| && 0 <= j < |t| ==> !SameWho(s[i].recipient, t[j].recipient)
    ensures DistinctAddressees(s + t)
  {
    hide SameWho;
  }

  lemma NoticesAddressable(r: Rows, listing: seq<int>, sms: bool)
    requires Lists(listing, r.people)
    ensures Addressable(r, Notices(r, listing, sms))
    ensures Addressable(r, [Addressee(Owner, Email)] + Notices(r, listing, sms))
  {
    var to := Notices(r, listing, sms);
    NoticesDistinct(r, listing, sms);
    forall i | 0 <= i < |to| ensures Current(r, to[i].recipient) && to[i].recipient.Person? {
      NoticesExact(r, listing, sms, to[i]);
    }
    ConcatDistinct([Addressee(Owner, Email)], to);
  }
}
