// Which answer a refused request gets. What is not found, not valid or gone is
// listed here; every other refusal is a conflict.

module Refusals {
  import opened Wrappers
  import opened Tables
  import opened Requests
  import opened CeremonyRules
  import opened PeopleRules
  import opened SwitchRules
  import SignRules
  import S = Sessions

  predicate Enrolled(r: Rows, b: int) {
    b in r.people
  }

  predicate Writes(r: Rows, revision: int) {
    r.status.state != Triggered && r.vault.revision == revision
  }

  // The row a request is about is not there, or not there for it.
  predicate Missing(r: Rows, q: Request) {
    match q
    case FinalizeCeremony(id, _) => !(0 <= id < |r.ceremonies|)
    case CancelCeremony(id) => !(0 <= id < |r.ceremonies|)
    case InvitePerson(b, _, _) => !Enrolled(r, b)
    case UpdatePerson(b, _) => !Enrolled(r, b)
    case AssignPerson(b, index) => !Enrolled(r, b) && 1 <= index <= r.vault.total
    case DeletePerson(b) => !Enrolled(r, b)
    case AcceptInvitation(b, token, now) =>
      !Presented(r, b, token) || (r.people[b].invitation == Pending && !Late(r.people[b], now))
    case _ => false
  }

  // The request makes no sense as it stands.
  predicate Senseless(r: Rows, q: Request) {
    match q
    case DraftCeremony(d) =>
      && Writes(r, d.expectedRevision)
      && (!Digits(d.generation) || !(1 <= d.threshold <= d.total <= 10)
          || (r.vault.generation != Some(d.generation) && !(r.vault.wrapped.Some? && d.initial.Some?)
              && !BringsKey(r, d)))
    case FinalizeCeremony(id, indexes) =>
      && 0 <= id < |r.ceremonies| && r.ceremonies[id].status == Draft && Writes(r, r.ceremonies[id].expectedRevision)
      && !EachOnce(indexes, r.ceremonies[id].total)
    case RewrapKey(_, _, valid) => !valid
    case AddPerson(b, p, limit) =>
      && !Enrolled(r, b) && !SomeoneElseAt(r, b, p.email) && |r.people| < limit
      && p.index.Some? && !(1 <= p.index.value <= r.vault.total)
    case UpdatePerson(b, change) =>
      Enrolled(r, b) && change.index.Assign? && !(1 <= change.index.index <= r.vault.total)
    case AssignPerson(_, index) => !(1 <= index <= r.vault.total)
    case SaveSettings(settings, _) => !InBounds(settings)
    case _ => false
  }

  predicate PastUse(r: Rows, q: Request) {
    q.AcceptInvitation? && Presented(r, q.id, q.token) && r.people[q.id].invitation == Expired
  }

  lemma MaterialRefusals(r: Rows, q: Request)
    requires q.DraftCeremony? || q.FinalizeCeremony? || q.CancelCeremony? || q.RewrapKey? || q.ReportRecovery?
    ensures Apply(r, q) == Refused(NotFound) <==> Missing(r, q)
    ensures Apply(r, q) == Refused(Invalid) <==> Senseless(r, q)
    ensures Apply(r, q) != Refused(Gone) && Apply(r, q) != Refused(Unauthorized)
  {
    hide Digits;
    if q.DraftCeremony? {
      DigitsExactly(q.draft.generation);
    }
  }

  lemma PeopleRefusals(r: Rows, q: Request)
    requires q.AddPerson? || q.InvitePerson? || q.UpdatePerson? || q.AssignPerson? || q.DeletePerson?
             || q.AcceptInvitation?
    ensures Apply(r, q) == Refused(NotFound) <==> Missing(r, q)
    ensures Apply(r, q) == Refused(Invalid) <==> Senseless(r, q)
    ensures Apply(r, q) == Refused(Gone) <==> PastUse(r, q)
    ensures Apply(r, q) != Refused(Unauthorized)
  {
  }

  lemma SwitchRefusals(r: Rows, q: Request)
    requires q.SaveSettings? || q.RecordCheckIn? || q.StartGrace? || q.Trigger? || q.Check? || q.Touch?
    ensures Apply(r, q) != Refused(NotFound) && Apply(r, q) != Refused(Gone) && Apply(r, q) != Refused(Unauthorized)
    ensures Apply(r, q) == Refused(Invalid) <==> Senseless(r, q)
    ensures q.Touch? ==> Next(r, q) == r.(status := Bumped(r))
  {
  }

  // Every refused request leaves the rows as they were, and is answered so.
  lemma RefusalsExactly(r: Rows, q: Request)
    ensures Apply(r, q) == Refused(NotFound) <==> Missing(r, q)
    ensures Apply(r, q) == Refused(Invalid) <==> Senseless(r, q)
    ensures Apply(r, q) == Refused(Gone) <==> PastUse(r, q)
    ensures Apply(r, q) != Refused(Unauthorized)
    ensures Apply(r, q).Refused? ==> Next(r, q) == r
  {
    hide Apply, Digits, BringsKey, EachOnce, SomeoneElseAt, InBounds;
    if q.DraftCeremony? || q.FinalizeCeremony? || q.CancelCeremony? || q.RewrapKey? || q.ReportRecovery? {
      MaterialRefusals(r, q);
    } else if q.AddPerson? || q.InvitePerson? || q.UpdatePerson? || q.AssignPerson? || q.DeletePerson?
              || q.AcceptInvitation? {
      PeopleRefusals(r, q);
    } else {
      SwitchRefusals(r, q);
    }
  }

  // A token that is not exchanged: one spent moments ago meets a conflict, and
  // the browser retries; any other is not authorized.
  lemma RenewalRefusals(w: World, raw: nat, beneficiary: bool, epoch: string, now: Time)
    ensures S.Rotate(w.rows, w.auth, raw, beneficiary, epoch, now) == S.Denied(Conflict)
            <==> && SignRules.Standing(w, raw, beneficiary, epoch, now) && w.auth.tokens[raw].consumedAt.Some?
                 && now <= w.auth.tokens[raw].consumedAt.value + 10
    ensures S.Rotate(w.rows, w.auth, raw, beneficiary, epoch, now) == S.Denied(Unauthorized)
            <==> !SignRules.Standing(w, raw, beneficiary, epoch, now)
  {
  }
}
