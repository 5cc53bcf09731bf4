// What release readiness means, and what it takes to be ready again after a
// new ceremony or a new passphrase.

module Evidence {
  import opened Wrappers
  import opened Tables
  import opened Ceremonies
  import opened Readiness
  import opened Beneficiaries
  import opened Heartbeat
  import opened Requests
  import opened RowInvariants

  // ---------------------------------------------------------------------
  // Which requests touch what
  // ---------------------------------------------------------------------

  predicate ForMaterial(q: Request) {
    q.DraftCeremony? || q.FinalizeCeremony? || q.CancelCeremony? || q.RewrapKey? || q.ReportRecovery?
  }

  predicate ForPeople(q: Request) {
    q.AddPerson? || q.InvitePerson? || q.UpdatePerson? || q.AssignPerson? || q.DeletePerson? || q.AcceptInvitation?
  }

  predicate ForSwitch(q: Request) {
    q.SaveSettings? || q.RecordCheckIn? || q.StartGrace? || q.Trigger? || q.Check?
  }

  lemma MaterialFrame(r: Rows, q: Request)
    requires !ForMaterial(q)
    ensures Next(r, q).vault == r.vault && Next(r, q).ceremonies == r.ceremonies
  {
    hide ReleaseReady, IndexTaken, EmailTaken, InRange, Deadline, ReleaseTime;
  }

  lemma PeopleUnchanged(r: Rows, q: Request)
    requires !ForPeople(q) && !q.FinalizeCeremony?
    ensures Next(r, q).people == r.people
  {
    hide ReleaseReady, Deadline, ReleaseTime, Canonical, Used, CancelDrafts, Acknowledged, BindingOf;
  }

  lemma SwitchUnchanged(r: Rows, q: Request)
    requires !ForSwitch(q)
    ensures Next(r, q).config == r.config
    ensures Next(r, q).status == r.status || Next(r, q).status == Lock(r).status
  {
    hide ReleaseReady, IndexTaken, EmailTaken, InRange, Canonical, Used, CancelDrafts, Acknowledged, BindingOf,
         Supersede, Unassign, IndexAbove;
  }

  // The request finalizes a draft.
  predicate Finalizes(r: Rows, q: Request) {
    && q.FinalizeCeremony? && Finalize(r, q.ceremony, q.indexes).Done?
    && r.ceremonies[q.ceremony].status == Draft
  }

  lemma FinalizeFrame(r: Rows, q: Request)
    requires q.FinalizeCeremony? && !Finalizes(r, q)
    ensures Next(r, q) == r
  {
    hide Acknowledged, IndexAbove, Supersede, Unassign;
  }

  // A wrapped key, once stored, is replaced by a rewrap and by nothing else.
  lemma OnlyRewrapReplacesKey(r: Rows, q: Request)
    requires Inv(r) && r.vault.wrapped.Some? && Next(r, q).vault.wrapped != r.vault.wrapped
    ensures q.RewrapKey? && Next(r, q).vault.wrapped == Some(q.bundle)
  {
    hide ReleaseReady, IndexTaken, EmailTaken, InRange, Canonical, Used, CancelDrafts, Acknowledged, BindingOf,
         Supersede, Unassign, IndexAbove, PeopleValid, SwitchValid, AtMostOne, DistinctGenerations, WellFormed,
             HasFinalized;
    if !ForMaterial(q) {
      MaterialFrame(r, q);
    }
  }

  // ---------------------------------------------------------------------
  // After a finalization
  // ---------------------------------------------------------------------

  lemma NobodyHolds(r: Rows)
    requires r.vault.generation.Some?
    requires forall b :: b in r.people ==> r.people[b].generation.None?
    ensures Eligible(r) == {}
  {
  }

  // Finalizing leaves the vault unready: no share of the new set is assigned.
  lemma FinalizeUnready(r: Rows, q: Request)
    requires Inv(r) && Finalizes(r, q)
    ensures Eligible(Next(r, q)) == {} && !ReleaseReady(Next(r, q))
  {
    hide Eligible, Promoted, DrillCurrent, CurrentCeremony, Finalize;
    Finalizing(r, q.ceremony, q.indexes);
    NobodyHolds(Next(r, q));
  }

  // ---------------------------------------------------------------------
  // After a rewrap
  // ---------------------------------------------------------------------

  // Every finalized ceremony was finalized at an older revision.
  predicate Stale(r: Rows) {
    forall i :: 0 <= i < |r.ceremonies| && r.ceremonies[i].status == Finalized ==>
                  r.ceremonies[i].expectedRevision + 1 < r.vault.revision
  }

  lemma StaleUnready(r: Rows)
    requires Stale(r)
    ensures !ReleaseReady(r)
  {
  }

  lemma RewrapStales(r: Rows, q: Request)
    requires Inv(r) && q.RewrapKey? && Apply(r, q).Done?
    ensures Stale(Next(r, q))
  {
    hide AtMostOne, DistinctGenerations, WellFormed, PendingFits, PeopleValid, SwitchValid, VaultValid;
  }

  lemma StaleKept(r: Rows, q: Request)
    requires Stale(r) && !Finalizes(r, q)
    ensures Stale(Next(r, q))
  {
    if !ForMaterial(q) {
      hide Next;
      MaterialFrame(r, q);
    } else if q.FinalizeCeremony? {
      FinalizeFrame(r, q);
    } else {
      hide Canonical, Used, BindingOf;
    }
  }

  // ---------------------------------------------------------------------
  // Drills
  // ---------------------------------------------------------------------

  // The owner's report d, accepted against the evidence of that moment.
  predicate Reports(r: Rows, q: Request, d: Drill) {
    && q == ReportRecovery(d) && ReportDrill(r, d).Done?
    && d.binding == BindingOf(r) && d.revision == r.vault.revision && r.vault.generation == Some(d.generation)
  }

  predicate Recorded(r: Rows, d: Drill) {
    exists i :: 0 <= i < |r.ceremonies| && r.ceremonies[i].drill == Some(d)
  }

  lemma BindingIgnoresLock(r: Rows)
    ensures BindingOf(Lock(r)) == BindingOf(r)
  {
  }

  lemma DrillOrigin(r: Rows, q: Request, d: Drill)
    requires Recorded(Next(r, q), d)
    ensures Recorded(r, d) || Reports(r, q, d)
  {
    var s := Next(r, q);
    var i :| 0 <= i < |s.ceremonies| && s.ceremonies[i].drill == Some(d);
    if !ForMaterial(q) {
      hide Next;
      MaterialFrame(r, q);
      assert r.ceremonies[i].drill == Some(d);
    } else if q.ReportRecovery? {
      hide BindingOf;
      BindingIgnoresLock(r);
      assert Recorded(r, d) || Reports(r, q, d) by {
        if q.drill != d { assert r.ceremonies[i].drill == Some(d); }
      }
    } else {
      hide Canonical, Used, Acknowledged, IndexAbove, Unassign;
      assert r.ceremonies[i].drill == Some(d);
    }
  }
}
