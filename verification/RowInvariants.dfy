// What every request keeps true of one vault's rows.

module RowInvariants {
  import opened Wrappers
  import opened Tables
  import opened Ceremonies
  import opened Readiness
  import opened Beneficiaries
  import opened Heartbeat
  import opened Requests

  predicate AtMostOne(cs: seq<Ceremony>, status: CeremonyStatus) {
    forall i, j :: 0 <= i < |cs| && 0 <= j < |cs| && cs[i].status == status && cs[j].status == status ==> i == j
  }

  predicate DistinctGenerations(cs: seq<Ceremony>) {
    forall i, j :: 0 <= i < |cs| && 0 <= j < |cs| && cs[i].generation == cs[j].generation ==> i == j
  }

  predicate WellFormed(c: Ceremony) {
    && Canonical(c.generation)
    && 1 <= c.threshold <= c.total <= 10
    && (c.pending.Some? ==> c.status == Draft)
    && (c.drill.Some? ==> c.status != Draft)
  }

  // A finalized ceremony is the one the vault's policy and generation name.
  predicate Matches(v: Vault, c: Ceremony) {
    c.status == Finalized ==>
      && v.threshold == c.threshold && v.total == c.total
      && v.generation == Some(c.generation)
      && c.expectedRevision + 1 <= v.revision
  }

  // Pending material waits on the draft of an unwrapped vault, and only there.
  predicate PendingFits(v: Vault, c: Ceremony) {
    && c.expectedRevision <= v.revision
    && (c.status == Draft ==> (c.pending.Some? <==> v.wrapped.None?))
  }

  predicate HasFinalized(cs: seq<Ceremony>) {
    exists i :: 0 <= i < |cs| && cs[i].status == Finalized
  }

  predicate CeremoniesValid(r: Rows) {
    && AtMostOne(r.ceremonies, Draft)
    && AtMostOne(r.ceremonies, Finalized)
    && DistinctGenerations(r.ceremonies)
    && forall i :: 0 <= i < |r.ceremonies| ==>
         && WellFormed(r.ceremonies[i])
         && Matches(r.vault, r.ceremonies[i])
         && PendingFits(r.vault, r.ceremonies[i])
  }

  predicate VaultValid(r: Rows) {
    && (r.vault.revision == 0 <==> r.vault.wrapped.None?)
    && (r.vault.generation.Some? <==> r.vault.wrapped.Some?)
    && (r.vault.setup == Ready <==> r.vault.wrapped.Some?)
    && (r.vault.generation.Some? <==> HasFinalized(r.ceremonies))
  }

  predicate PersonValid(v: Vault, p: Beneficiary) {
    && (p.index.Some? ==> 1 <= p.index.value <= v.total)
    && (p.generation.Some? ==> p.index.Some? && p.generation == v.generation)
    && p.contactRevision >= 1
    && (p.invitation == Sent ==> p.sentAt.Some? && p.token.Some?)
  }

  predicate DistinctIndexes(people: map<int, Beneficiary>) {
    forall a, b :: a in people && b in people && people[a].index.Some? && people[a].index == people[b].index ==> a == b
  }

  predicate DistinctEmails(people: map<int, Beneficiary>) {
    forall a, b :: a in people && b in people && people[a].email == people[b].email ==> a == b
  }

  predicate PeopleValid(r: Rows) {
    && DistinctIndexes(r.people)
    && DistinctEmails(r.people)
    && forall b :: b in r.people ==> PersonValid(r.vault, r.people[b])
  }

  predicate SwitchValid(r: Rows) {
    && (r.config.Some? ==> 1 <= r.config.value.grace <= r.config.value.interval)
    && (r.status.armed ==> r.config.Some? && r.config.value.lastCheckIn.Some?)
    && (r.status.state == Active ==> r.status.graceStarted.None?)
    && (r.status.state == Grace ==>
          r.status.armed && r.status.graceStarted == Some(Deadline(r.config.value)))
    && (r.status.state == Triggered <==> r.status.triggeredAt.Some?)
  }

  predicate Inv(r: Rows) {
    CeremoniesValid(r) && VaultValid(r) && PeopleValid(r) && SwitchValid(r)
  }

  lemma FreshValid()
    ensures Inv(FRESH)
  {
  }

  // ---------------------------------------------------------------------
  // Ceremonies
  // ---------------------------------------------------------------------

  // Changing a row that stays finalized, or was and is not, keeps the answer.
  lemma UpdateKeepsFinalized(cs: seq<Ceremony>, id: nat, c: Ceremony)
    requires id < |cs| && (cs[id].status == Finalized <==> c.status == Finalized)
    ensures HasFinalized(cs) <==> HasFinalized(cs[id := c])
  {
    var ds := cs[id := c];
    if HasFinalized(cs) {
      var i :| 0 <= i < |cs| && cs[i].status == Finalized;
      assert ds[i].status == Finalized;
    }
    if HasFinalized(ds) {
      var i :| 0 <= i < |ds| && ds[i].status == Finalized;
      assert cs[i].status == Finalized;
    }
  }

  lemma CancelDraftsKeeps(v: Vault, cs: seq<Ceremony>)
    requires AtMostOne(cs, Finalized) && DistinctGenerations(cs)
    requires forall i :: 0 <= i < |cs| ==> WellFormed(cs[i]) && Matches(v, cs[i]) && PendingFits(v, cs[i])
    ensures AtMostOne(CancelDrafts(cs), Finalized) && DistinctGenerations(CancelDrafts(cs))
    ensures forall i :: 0 <= i < |cs| ==>
              && WellFormed(CancelDrafts(cs)[i]) && Matches(v, CancelDrafts(cs)[i])
              && PendingFits(v, CancelDrafts(cs)[i]) && CancelDrafts(cs)[i].status != Draft
    ensures HasFinalized(cs) <==> HasFinalized(CancelDrafts(cs))
  {
    hide Canonical;
    if HasFinalized(cs) {
      var i :| 0 <= i < |cs| && cs[i].status == Finalized;
      assert CancelDrafts(cs)[i].status == Finalized;
    }
  }

  lemma AppendDraft(v: Vault, cs: seq<Ceremony>, row: Ceremony)
    requires AtMostOne(cs, Finalized) && DistinctGenerations(cs)
    requires forall i :: 0 <= i < |cs| ==>
               WellFormed(cs[i]) && Matches(v, cs[i]) && PendingFits(v, cs[i]) && cs[i].status != Draft
    requires row.status == Draft && WellFormed(row) && PendingFits(v, row)
    requires forall i :: 0 <= i < |cs| ==> cs[i].generation != row.generation
    ensures AtMostOne(cs + [row], Draft) && AtMostOne(cs + [row], Finalized) && DistinctGenerations(cs + [row])
    ensures forall i :: 0 <= i <= |cs| ==>
              WellFormed((cs + [row])[i]) && Matches(v, (cs + [row])[i]) && PendingFits(v, (cs + [row])[i])
    ensures HasFinalized(cs) <==> HasFinalized(cs + [row])
  {
    hide WellFormed, PendingFits;
    if HasFinalized(cs) {
      var i :| 0 <= i < |cs| && cs[i].status == Finalized;
      assert (cs + [row])[i].status == Finalized;
    }
    if HasFinalized(cs + [row]) {
      var i :| 0 <= i < |cs + [row]| && (cs + [row])[i].status == Finalized;
      assert cs[i].status == Finalized;
    }
  }

  lemma DraftKeeps(r: Rows, q: DraftRequest)
    requires Inv(r) && CreateDraft(r, q).Done?
    ensures Inv(CreateDraft(r, q).rows)
  {
    hide Canonical, AtMostOne, DistinctGenerations, HasFinalized, DistinctIndexes, DistinctEmails, CancelDrafts;
    var s := CreateDraft(r, q).rows;
    var cs := CancelDrafts(r.ceremonies);
    var row := s.ceremonies[|cs|];
    CancelDraftsKeeps(r.vault, r.ceremonies);
    DraftIsNew(r, q);
    AppendDraft(r.vault, cs, row);
    assert s.ceremonies == cs + [row];
  }

  lemma DraftIsNew(r: Rows, q: DraftRequest)
    requires CreateDraft(r, q).Done?
    ensures forall i :: 0 <= i < |r.ceremonies| ==> CancelDrafts(r.ceremonies)[i].generation != q.generation
  {
    hide Canonical;
  }

  // The ceremonies after row id, a draft, is finalized.
  function Promoted(cs: seq<Ceremony>, id: nat): seq<Ceremony>
    requires id < |cs|
  {
    Supersede(cs)[id := cs[id].(status := Finalized, pending := None)]
  }

  lemma PromotedKeeps(v: Vault, w: Vault, cs: seq<Ceremony>, id: nat)
    requires id < |cs| && AtMostOne(cs, Draft) && DistinctGenerations(cs) && cs[id].status == Draft
    requires forall i :: 0 <= i < |cs| ==> WellFormed(cs[i]) && PendingFits(v, cs[i])
    requires w.revision == v.revision + 1 && cs[id].expectedRevision == v.revision && w.wrapped.Some?
    requires w.threshold == cs[id].threshold && w.total == cs[id].total && w.generation == Some(cs[id].generation)
    ensures AtMostOne(Promoted(cs, id), Draft) && AtMostOne(Promoted(cs, id), Finalized)
    ensures DistinctGenerations(Promoted(cs, id)) && HasFinalized(Promoted(cs, id))
    ensures forall i :: 0 <= i < |cs| ==>
              && WellFormed(Promoted(cs, id)[i]) && Matches(w, Promoted(cs, id)[i])
              && PendingFits(w, Promoted(cs, id)[i])
  {
    hide Canonical;
    assert Promoted(cs, id)[id].status == Finalized;
  }

  lemma UnassignKeeps(v: Vault, w: Vault, people: map<int, Beneficiary>)
    requires DistinctIndexes(people) && DistinctEmails(people)
    requires forall b :: b in people ==> PersonValid(v, people[b])
    requires forall b :: b in people && people[b].index.Some? ==> people[b].index.value <= w.total
    ensures DistinctIndexes(Unassign(people)) && DistinctEmails(Unassign(people))
    ensures forall b :: b in people ==> PersonValid(w, Unassign(people)[b])
  {
  }

  // What a finalization that takes effect leaves.
  lemma Finalizing(r: Rows, id: int, indexes: seq<int>)
    requires Inv(r) && Finalize(r, id, indexes).Done? && r.ceremonies[id].status == Draft
    ensures 0 <= id < |r.ceremonies|
    ensures var s := Finalize(r, id, indexes).rows;
            && s.ceremonies == Promoted(r.ceremonies, id) && s.people == Unassign(r.people)
            && s.config == r.config && s.status == Lock(r).status
            && s.vault.revision == r.vault.revision + 1 && s.vault.wrapped.Some? && s.vault.setup == Ready
            && s.vault.threshold == r.ceremonies[id].threshold && s.vault.total == r.ceremonies[id].total
            && s.vault.generation == Some(r.ceremonies[id].generation)
    ensures r.ceremonies[id].expectedRevision == r.vault.revision
    ensures forall b :: b in r.people && r.people[b].index.Some? ==> r.people[b].index.value <= r.ceremonies[id].total
  {
    hide Supersede, Unassign, Canonical, AtMostOne, DistinctGenerations, HasFinalized, Acknowledged, PeopleValid,
        SwitchValid;
  }

  lemma FinalizeKeeps(r: Rows, id: int, indexes: seq<int>)
    requires Inv(r) && Finalize(r, id, indexes).Done?
    ensures Inv(Finalize(r, id, indexes).rows)
  {
    if r.ceremonies[id].status == Draft {
      hide Canonical, AtMostOne, DistinctGenerations, HasFinalized, DistinctEmails, DistinctIndexes, Finalize,
           Promoted, Unassign, WellFormed, PersonValid, Matches, PendingFits;
      var s := Finalize(r, id, indexes).rows;
      Finalizing(r, id, indexes);
      PromotedKeeps(r.vault, s.vault, r.ceremonies, id);
      UnassignKeeps(r.vault, s.vault, r.people);
    }
  }

  lemma CancelKeeps(r: Rows, id: int)
    requires Inv(r) && Cancel(r, id).Done?
    ensures Inv(Cancel(r, id).rows)
  {
    hide Canonical, HasFinalized, DistinctEmails, DistinctIndexes;
    UpdateKeepsFinalized(r.ceremonies, id, r.ceremonies[id].(status := Cancelled, pending := None));
  }

  lemma RewrapKeeps(r: Rows, expected: int, bundle: Bundle, valid: bool)
    requires Inv(r) && Rewrap(r, expected, bundle, valid).Done?
    ensures Inv(Rewrap(r, expected, bundle, valid).rows)
  {
  }

  lemma DrillKeeps(r: Rows, d: Drill)
    requires Inv(r) && ReportDrill(r, d).Done?
    ensures Inv(ReportDrill(r, d).rows)
  {
    hide Canonical, HasFinalized, DistinctEmails, DistinctIndexes, PersonValid, BindingOf;
    var i := CurrentFrom(Lock(r), 0).value;
    UpdateKeepsFinalized(r.ceremonies, i, r.ceremonies[i].(drill := Some(d)));
  }

  // ---------------------------------------------------------------------
  // People
  // ---------------------------------------------------------------------

  lemma PeopleFrame(r: Rows, people: map<int, Beneficiary>)
    requires Inv(r) && PeopleValid(r.(people := people))
    ensures Inv(Lock(r).(people := people))
  {
    hide WellFormed, AtMostOne, DistinctGenerations, DistinctIndexes, DistinctEmails, PersonValid;
  }

  // p may take the place of id's row, or be a new row under a key nobody has.
  predicate Fits(r: Rows, id: int, p: Beneficiary) {
    && PersonValid(r.vault, p)
    && (p.index.Some? ==> !IndexTaken(r, p.index.value, Some(id)))
    && !EmailTaken(r, p.email, Some(id))
  }

  lemma SetPersonKeeps(r: Rows, id: int, p: Beneficiary)
    requires Inv(r) && Fits(r, id, p)
    ensures Inv(Lock(r).(people := r.people[id := p]))
  {
    hide CeremoniesValid, VaultValid, SwitchValid, PersonValid;
    PeopleFrame(r, r.people[id := p]);
  }

  // A change that leaves the contact address and the index fits.
  lemma SameContactFits(r: Rows, id: int, p: Beneficiary)
    requires Inv(r) && id in r.people && PersonValid(r.vault, p)
    requires p.email == r.people[id].email && p.index == r.people[id].index
    ensures Fits(r, id, p)
  {
    hide CeremoniesValid, VaultValid, SwitchValid, PersonValid;
  }

  lemma AddKeeps(r: Rows, id: int, q: NewPerson, limit: int)
    requires Inv(r) && id !in r.people && Add(r, id, q, limit).Done?
    ensures Inv(Add(r, id, q, limit).rows)
  {
    hide CeremoniesValid, VaultValid, SwitchValid, DistinctIndexes, DistinctEmails;
    SetPersonKeeps(r, id, Add(r, id, q, limit).rows.people[id]);
  }

  lemma InviteKeeps(r: Rows, id: int, token: nat, now: Time)
    requires Inv(r) && Invite(r, id, token, now).Done?
    ensures Inv(Invite(r, id, token, now).rows)
  {
    hide CeremoniesValid, VaultValid, SwitchValid, DistinctIndexes, DistinctEmails, Fits;
    var p := Invite(r, id, token, now).rows.people[id];
    SameContactFits(r, id, p);
    SetPersonKeeps(r, id, p);
  }

  lemma UpdateFits(r: Rows, id: int, q: Change)
    requires Inv(r) && Update(r, id, q).Done?
    ensures Fits(r, id, Update(r, id, q).rows.people[id])
  {
    hide CeremoniesValid, VaultValid, SwitchValid, DistinctEmails;
  }

  lemma UpdateKeeps(r: Rows, id: int, q: Change)
    requires Inv(r) && Update(r, id, q).Done?
    ensures Inv(Update(r, id, q).rows)
  {
    hide Inv, Fits, IndexTaken, EmailTaken;
    UpdateFits(r, id, q);
    SetPersonKeeps(r, id, Update(r, id, q).rows.people[id]);
  }

  lemma AssignKeeps(r: Rows, id: int, index: int)
    requires Inv(r) && AssignShare(r, id, index).Done?
    ensures Inv(AssignShare(r, id, index).rows)
  {
    hide CeremoniesValid, VaultValid, SwitchValid, DistinctIndexes;
    SetPersonKeeps(r, id, AssignShare(r, id, index).rows.people[id]);
  }

  lemma DeleteKeeps(r: Rows, id: int)
    requires Inv(r) && Delete(r, id).Done?
    ensures Inv(Delete(r, id).rows)
  {
    hide CeremoniesValid, VaultValid, SwitchValid, PersonValid;
    PeopleFrame(r, r.people - {id});
  }

  lemma AcceptKeeps(r: Rows, id: int, token: nat, now: Time)
    requires Inv(r) && Accept(r, id, token, now).Done?
    ensures Inv(Accept(r, id, token, now).rows)
  {
    hide CeremoniesValid, VaultValid, SwitchValid, DistinctIndexes, DistinctEmails, Fits;
    var p := Accept(r, id, token, now).rows.people[id];
    SameContactFits(r, id, p);
    SetPersonKeeps(r, id, p);
  }

  // An invitation is accepted exactly by its current token, while it stands as
  // sent, within seven days of being sent.
  lemma AcceptExact(r: Rows, id: int, token: nat, now: Time)
    requires Inv(r)
    ensures (Accept(r, id, token, now).Done? && Accept(r, id, token, now).rows.people[id].invitation == Accepted)
            <==> (id in r.people && r.people[id].token == Some(token) && r.people[id].invitation == Sent
                  && now <= r.people[id].sentAt.value + 7 * DAY)
  {
    hide CeremoniesValid, VaultValid, SwitchValid, DistinctIndexes, DistinctEmails;
    assert id in r.people ==> PersonValid(r.vault, r.people[id]);
  }

  // ---------------------------------------------------------------------
  // The switch
  // ---------------------------------------------------------------------

  // Only the status and the settings differ.
  predicate SameMaterial(r: Rows, s: Rows) {
    s.vault == r.vault && s.ceremonies == r.ceremonies && s.people == r.people
  }

  lemma SwitchFrame(r: Rows, s: Rows)
    requires Inv(r) && SwitchValid(s) && SameMaterial(r, s)
    ensures Inv(s)
  {
    hide SwitchValid, AtMostOne, DistinctGenerations, WellFormed, DistinctIndexes, DistinctEmails, PersonValid;
  }

  lemma SaveKeeps(r: Rows, q: Settings, now: Time)
    requires Inv(r) && SaveHeartbeat(r, q, now).Done?
    ensures Inv(SaveHeartbeat(r, q, now).rows)
  {
    hide CeremoniesValid, VaultValid, PeopleValid, ReleaseReady;
    SwitchFrame(r, SaveHeartbeat(r, q, now).rows);
  }

  lemma CheckInKeeps(r: Rows, now: Time)
    requires Inv(r) && CheckIn(r, now).Done?
    ensures Inv(CheckIn(r, now).rows)
  {
    hide CeremoniesValid, VaultValid, PeopleValid, ReleaseReady;
    SwitchFrame(r, CheckIn(r, now).rows);
  }

  lemma GraceKeeps(r: Rows, now: Time)
    requires Inv(r) && MoveToGrace(r, now).Done?
    ensures Inv(MoveToGrace(r, now).rows)
  {
    hide CeremoniesValid, VaultValid, PeopleValid, ReleaseReady, Deadline;
    SwitchFrame(r, MoveToGrace(r, now).rows);
  }

  lemma TriggerKeeps(r: Rows, reason: Reason, now: Time, hold: bool)
    requires Inv(r) && TriggerVault(r, reason, now, hold).Done?
    ensures Inv(TriggerVault(r, reason, now, hold).rows)
  {
    hide CeremoniesValid, VaultValid, PeopleValid, ReleaseReady, Deadline, ReleaseTime;
    SwitchFrame(r, TriggerVault(r, reason, now, hold).rows);
  }

  lemma CheckKeeps(r: Rows, now: Time)
    requires Inv(r) && CheckReply(CheckOne(r, now)).Done?
    ensures Inv(CheckReply(CheckOne(r, now)).rows)
  {
    hide CeremoniesValid, VaultValid, PeopleValid, ReleaseReady, Deadline;
    SwitchFrame(r, CheckReply(CheckOne(r, now)).rows);
  }

  lemma TouchKeeps(r: Rows)
    requires Inv(r)
    ensures Inv(Lock(r))
  {
    hide CeremoniesValid, VaultValid, PeopleValid, Deadline;
    SwitchFrame(r, Lock(r));
  }

  // ---------------------------------------------------------------------
  // All requests, all runs
  // ---------------------------------------------------------------------

  lemma NextKeeps(r: Rows, q: Request)
    requires Inv(r)
    ensures Inv(Next(r, q))
  {
    hide CreateDraft, Finalize, Cancel, Rewrap, ReportDrill, Add, Invite, Update, AssignShare, Delete, Accept,
         SaveHeartbeat, CheckIn, MoveToGrace, TriggerVault, CheckOne, CheckReply, Lock, Inv;
    if Apply(r, q).Done? {
      match q
      case DraftCeremony(draft) => DraftKeeps(r, draft);
      case FinalizeCeremony(id, indexes) => FinalizeKeeps(r, id, indexes);
      case CancelCeremony(id) => CancelKeeps(r, id);
      case RewrapKey(expected, bundle, valid) => RewrapKeeps(r, expected, bundle, valid);
      case ReportRecovery(drill) => DrillKeeps(r, drill);
      case AddPerson(id, person, limit) => AddKeeps(r, id, person, limit);
      case InvitePerson(id, token, now) => InviteKeeps(r, id, token, now);
      case UpdatePerson(id, change) => UpdateKeeps(r, id, change);
      case AssignPerson(id, index) => AssignKeeps(r, id, index);
      case DeletePerson(id) => DeleteKeeps(r, id);
      case AcceptInvitation(id, token, now) => AcceptKeeps(r, id, token, now);
      case SaveSettings(settings, now) => SaveKeeps(r, settings, now);
      case RecordCheckIn(now) => CheckInKeeps(r, now);
      case StartGrace(now) => GraceKeeps(r, now);
      case Trigger(reason, now, hold) => TriggerKeeps(r, reason, now, hold);
      case Check(now, hold) => CheckKeeps(r, now);
      case Touch => TouchKeeps(r);
    }
  }

  // The invariant holds after every run that starts from a fresh vault.
  lemma {:induction false} RunKeeps(r: Rows, qs: seq<Request>)
    requires Inv(r)
    ensures Inv(After(r, qs))
    decreases |qs|
  {
    hide Inv, Next;
    if qs != [] {
      RunKeeps(r, qs[..|qs| - 1]);
      NextKeeps(After(r, qs[..|qs| - 1]), qs[|qs| - 1]);
    }
  }

  lemma ReachableValid(qs: seq<Request>)
    ensures Inv(After(FRESH, qs))
  {
    hide Inv, After;
    FreshValid();
    RunKeeps(FRESH, qs);
  }
}
