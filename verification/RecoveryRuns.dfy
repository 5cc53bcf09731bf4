// Recovery evidence over whole runs of requests.

module RecoveryRuns {
  import opened Wrappers
  import opened Tables
  import opened Ceremonies
  import opened Readiness
  import opened Beneficiaries
  import opened Heartbeat
  import opened Requests
  import opened RowInvariants
  import opened Evidence

  // The rows before request i of the run.
  function Before(r: Rows, qs: seq<Request>, i: nat): Rows
    requires i <= |qs|
  {
    After(r, qs[..i])
  }

  lemma BeforeStep(r: Rows, qs: seq<Request>, i: nat)
    requires i < |qs|
    ensures Before(r, qs, i + 1) == Next(Before(r, qs, i), qs[i])
  {
    hide Next;
    assert qs[..i + 1][..i] == qs[..i];
  }

  lemma BeforeAll(r: Rows, qs: seq<Request>)
    ensures Before(r, qs, 0) == r && Before(r, qs, |qs|) == After(r, qs)
  {
    hide Next;
    assert qs[..|qs|] == qs && qs[..0] == [];
  }

  lemma BeforeValid(r: Rows, qs: seq<Request>, i: nat)
    requires Inv(r) && i <= |qs|
    ensures Inv(Before(r, qs, i))
  {
    hide Inv, After;
    RunKeeps(r, qs[..i]);
  }

  predicate FinalizesAt(r: Rows, qs: seq<Request>, i: nat) {
    i < |qs| && Finalizes(Before(r, qs, i), qs[i])
  }

  // f finalizes a draft, and no later request does.
  predicate LastFinalizes(r: Rows, qs: seq<Request>, f: nat) {
    FinalizesAt(r, qs, f) && forall j :: f < j < |qs| ==> !FinalizesAt(r, qs, j)
  }

  predicate ReportsAt(r: Rows, qs: seq<Request>, i: nat, d: Drill) {
    i < |qs| && Reports(Before(r, qs, i), qs[i], d)
  }

  // ---------------------------------------------------------------------
  // Assignments
  // ---------------------------------------------------------------------

  // The owner gives b an index of the current generation.
  predicate Assigns(q: Request, b: int) {
    || (q.AssignPerson? && q.id == b)
    || (q.UpdatePerson? && q.id == b && q.change.index.Assign?)
    || (q.AddPerson? && q.id == b && q.person.index.Some?)
  }

  predicate Holding(r: Rows, b: int, g: Generation) {
    b in r.people && r.people[b].generation == Some(g)
  }

  // Request i made b a holder under generation g, who was none before it.
  predicate AssignedAt(r: Rows, qs: seq<Request>, i: nat, b: int, g: Generation)
    requires i < |qs|
  {
    Assigns(qs[i], b) && !Holding(Before(r, qs, i), b, g) && Holding(Before(r, qs, i + 1), b, g)
  }

  lemma HoldingOrigin(r: Rows, q: Request, b: int, g: Generation)
    requires Holding(Next(r, q), b, g) && !Finalizes(r, q)
    ensures Holding(r, b, g) || Assigns(q, b)
  {
    if q.FinalizeCeremony? {
      FinalizeFrame(r, q);
    } else if !ForPeople(q) {
      hide Next;
      PeopleUnchanged(r, q);
    } else {
      hide InRange, IndexTaken, EmailTaken;
    }
  }

  // ---------------------------------------------------------------------
  // Where evidence at the end of a run came from
  // ---------------------------------------------------------------------

  lemma {:induction false} DrillHistory(r: Rows, qs: seq<Request>, n: nat, d: Drill) returns (i: Option<nat>)
    requires n <= |qs| && Recorded(Before(r, qs, n), d)
    ensures i.None? ==> Recorded(r, d)
    ensures i.Some? ==> i.value < n && ReportsAt(r, qs, i.value, d)
    decreases n
  {
    hide Before, Recorded, Reports, Next;
    BeforeAll(r, qs);
    if n == 0 {
      return None;
    }
    BeforeStep(r, qs, n - 1);
    DrillOrigin(Before(r, qs, n - 1), qs[n - 1], d);
    if Recorded(Before(r, qs, n - 1), d) {
      i := DrillHistory(r, qs, n - 1, d);
    } else {
      i := Some(n - 1);
    }
  }

  lemma {:induction false} HoldingHistory(r: Rows, qs: seq<Request>, lo: nat, n: nat, b: int, g: Generation)
    returns (i: nat)
    requires lo <= n <= |qs| && Holding(Before(r, qs, n), b, g) && !Holding(Before(r, qs, lo), b, g)
    requires forall j :: lo <= j < n ==> !FinalizesAt(r, qs, j)
    ensures lo <= i < n && AssignedAt(r, qs, i, b, g)
    decreases n
  {
    hide Before, Holding, Finalizes, Next, Assigns;
    if Holding(Before(r, qs, n - 1), b, g) {
      i := HoldingHistory(r, qs, lo, n - 1, b, g);
    } else {
      BeforeStep(r, qs, n - 1);
      assert !FinalizesAt(r, qs, n - 1);
      HoldingOrigin(Before(r, qs, n - 1), qs[n - 1], b, g);
      i := n - 1;
    }
  }

  lemma {:induction false} StaleHistory(r: Rows, qs: seq<Request>, n: nat)
    requires n <= |qs| && Stale(r) && forall j :: 0 <= j < n ==> !FinalizesAt(r, qs, j)
    ensures Stale(Before(r, qs, n))
    decreases n
  {
    hide Before, Finalizes, Next, Stale;
    BeforeAll(r, qs);
    if n > 0 {
      BeforeStep(r, qs, n - 1);
      assert !FinalizesAt(r, qs, n - 1);
      StaleHistory(r, qs, n - 1);
      StaleKept(Before(r, qs, n - 1), qs[n - 1]);
    }
  }

  // The last of the first n requests that finalizes a draft.
  lemma {:induction false} LastFinalize(r: Rows, qs: seq<Request>, n: nat) returns (f: Option<nat>)
    requires n <= |qs|
    ensures f.None? ==> forall j :: 0 <= j < n ==> !FinalizesAt(r, qs, j)
    ensures f.Some? ==> f.value < n && FinalizesAt(r, qs, f.value)
                        && (forall j :: f.value < j < n ==> !FinalizesAt(r, qs, j))
    ensures f.Some? && n == |qs| ==> LastFinalizes(r, qs, f.value)
    decreases n
  {
    hide Before, Finalizes;
    if n == 0 {
      f := None;
    } else if FinalizesAt(r, qs, n - 1) {
      f := Some(n - 1);
    } else {
      f := LastFinalize(r, qs, n - 1);
    }
  }

  // ---------------------------------------------------------------------
  // Ready again
  // ---------------------------------------------------------------------

  predicate AssignedAfter(r: Rows, qs: seq<Request>, f: nat, b: int, g: Generation) {
    exists i :: f < i < |qs| && AssignedAt(r, qs, i, b, g)
  }

  // A drill reported after f, against evidence equal to the final evidence.
  predicate ReportedAfter(r: Rows, qs: seq<Request>, f: nat) {
    exists i :: f < i < |qs| && ReportsFinal(r, qs, i)
  }

  predicate ReportsFinal(r: Rows, qs: seq<Request>, i: nat)
    requires i < |qs|
  {
    && qs[i].ReportRecovery? && ReportsAt(r, qs, i, qs[i].drill)
    && BindingOf(Before(r, qs, i)) == BindingOf(After(r, qs))
    && Before(r, qs, i).vault.revision == After(r, qs).vault.revision
    && Before(r, qs, i).vault.generation == After(r, qs).vault.generation
  }

  // Everyone the quorum counts was given an index of the final generation, by
  // an accepted request, after f.
  predicate ReassignedAfter(r: Rows, qs: seq<Request>, f: nat) {
    && After(r, qs).vault.generation.Some?
    && forall b :: b in After(r, qs).people && Holds(After(r, qs), b) ==>
         AssignedAfter(r, qs, f, b, After(r, qs).vault.generation.value)
  }

  lemma ReadyDrill(r: Rows) returns (d: Drill)
    requires ReleaseReady(r)
    ensures Recorded(r, d) && d.binding == BindingOf(r) && d.revision == r.vault.revision
    ensures r.vault.generation == Some(d.generation)
  {
    hide BindingOf, Eligible;
    var i := CurrentFrom(r, 0).value;
    d := r.ceremonies[i].drill.value;
  }

  // No drill is recorded for the ceremony a finalization makes current.
  lemma FinalizedUndrilled(r: Rows, q: Request, d: Drill)
    requires Inv(r) && Finalizes(r, q) && Recorded(Next(r, q), d)
    ensures Recorded(r, d)
  {
    hide Finalize, Unassign, Inv;
    Finalizing(r, q.ceremony, q.indexes);
    var s := Finalize(r, q.ceremony, q.indexes).rows;
    assert s == Next(r, q);
    var i :| 0 <= i < |s.ceremonies| && s.ceremonies[i].drill == Some(d);
    assert r.ceremonies[i].drill == Some(d);
  }

  predicate DrillsPast(r: Rows) {
    forall i :: 0 <= i < |r.ceremonies| && r.ceremonies[i].drill.Some?
        ==> r.ceremonies[i].drill.value.revision <= r.vault.revision
  }

  lemma DrillsPastKept(r: Rows, q: Request)
    requires Inv(r) && DrillsPast(r)
    ensures DrillsPast(Next(r, q))
  {
    var s := Next(r, q);
    RevisionGrows(r, q);
    forall i | 0 <= i < |s.ceremonies| && s.ceremonies[i].drill.Some?
      ensures s.ceremonies[i].drill.value.revision <= s.vault.revision
    {
      hide Next, Inv, Reports;
      var d := s.ceremonies[i].drill.value;
      assert Recorded(s, d);
      DrillOrigin(r, q, d);
      if Reports(r, q, d) {
        ReportsRevision(r, q, d);
      } else {
        var j :| 0 <= j < |r.ceremonies| && r.ceremonies[j].drill == Some(d);
      }
    }
  }

  lemma ReportsRevision(r: Rows, q: Request, d: Drill)
    requires Reports(r, q, d)
    ensures d.revision == r.vault.revision
  {
    hide BindingOf;
  }

  lemma RevisionGrows(r: Rows, q: Request)
    ensures r.vault.revision <= Next(r, q).vault.revision
    ensures Finalizes(r, q) ==> r.vault.revision < Next(r, q).vault.revision
  {
    if !ForMaterial(q) {
      hide Next;
      MaterialFrame(r, q);
    } else {
      hide Canonical, Used, BindingOf, CancelDrafts, Acknowledged, IndexAbove, Unassign, Supersede;
    }
  }

  lemma {:induction false} HistoryKept(r: Rows, qs: seq<Request>, lo: nat, n: nat)
    requires lo <= n <= |qs| && Inv(r) && DrillsPast(r)
    ensures Before(r, qs, lo).vault.revision <= Before(r, qs, n).vault.revision
    ensures DrillsPast(Before(r, qs, n))
    decreases n
  {
    hide Before, Next, DrillsPast, Inv;
    BeforeAll(r, qs);
    if n > 0 {
      BeforeStep(r, qs, n - 1);
      BeforeValid(r, qs, n - 1);
      HistoryKept(r, qs, if lo < n then lo else n - 1, n - 1);
      RevisionGrows(Before(r, qs, n - 1), qs[n - 1]);
      DrillsPastKept(Before(r, qs, n - 1), qs[n - 1]);
    }
  }

  // A drill recorded when f finalizes is bound to an older revision.
  lemma DrillOutdated(r: Rows, qs: seq<Request>, f: nat, d: Drill)
    requires Inv(r) && DrillsPast(r) && FinalizesAt(r, qs, f) && Recorded(Before(r, qs, f + 1), d)
    ensures d.revision < After(r, qs).vault.revision
  {
    hide Before, Next, Inv, Finalizes;
    BeforeValid(r, qs, f);
    BeforeStep(r, qs, f);
    FinalizedUndrilled(Before(r, qs, f), qs[f], d);
    HistoryKept(r, qs, f, f);
    HistoryKept(r, qs, f + 1, |qs|);
    RevisionGrows(Before(r, qs, f), qs[f]);
    BeforeAll(r, qs);
  }

  lemma FinalizedUnheld(r: Rows, q: Request, b: int, g: Generation)
    requires Inv(r) && Finalizes(r, q)
    ensures !Holding(Next(r, q), b, g)
  {
    hide Promoted, Finalize, CeremoniesValid, SwitchValid, VaultValid, PeopleValid;
    Finalizing(r, q.ceremony, q.indexes);
  }

  // The run from just after f, seen as a run of its own, starts there.
  lemma {:induction false} Suffix(r: Rows, qs: seq<Request>, f: nat, n: nat)
    requires f <= n <= |qs|
    ensures Before(Before(r, qs, f), qs[f..], n - f) == Before(r, qs, n)
    decreases n
  {
    hide Before, Next;
    BeforeAll(Before(r, qs, f), qs[f..]);
    if f < n {
      Suffix(r, qs, f, n - 1);
      BeforeStep(r, qs, n - 1);
      BeforeStep(Before(r, qs, f), qs[f..], n - 1 - f);
    }
  }

  lemma ReadyReported(r: Rows, qs: seq<Request>, f: nat)
    requires Inv(r) && DrillsPast(r) && FinalizesAt(r, qs, f) && ReleaseReady(After(r, qs))
    ensures ReportedAfter(r, qs, f)
  {
    hide Before, After, Next, Inv, DrillsPast, Finalizes, ReleaseReady, BindingOf, Recorded;
    BeforeAll(r, qs);
    var d := ReadyDrill(After(r, qs));
    var mid := Before(r, qs, f + 1);
    Suffix(r, qs, f + 1, |qs|);
    var i := DrillHistory(mid, qs[f + 1..], |qs| - f - 1, d);
    if i.None? {
      DrillOutdated(r, qs, f, d);
      assert false;
    } else {
      Suffix(r, qs, f + 1, f + 1 + i.value);
      ReportsRequest(Before(r, qs, f + 1 + i.value), qs[f + 1 + i.value], d);
      assert ReportsFinal(r, qs, f + 1 + i.value);
    }
  }

  lemma ReportsRequest(r: Rows, q: Request, d: Drill)
    requires Reports(r, q, d)
    ensures q == ReportRecovery(d) && d.binding == BindingOf(r) && d.revision == r.vault.revision
    ensures r.vault.generation == Some(d.generation)
  {
    hide BindingOf;
  }

  lemma HoldsGeneration(r: Rows, b: int)
    requires ReleaseReady(r) && Holds(r, b)
    ensures r.vault.generation.Some? && Holding(r, b, r.vault.generation.value)
  {
    hide DrillCurrent, Eligible, CurrentCeremony;
  }

  lemma ReadyGeneration(r: Rows)
    requires ReleaseReady(r)
    ensures r.vault.generation.Some?
  {
    hide DrillCurrent, Eligible, CurrentCeremony;
  }

  lemma ReadyReassigned(r: Rows, qs: seq<Request>, f: nat)
    requires Inv(r) && LastFinalizes(r, qs, f) && ReleaseReady(After(r, qs))
    ensures ReassignedAfter(r, qs, f)
  {
    ReadyGeneration(After(r, qs));
    hide Before, After, Next, Inv, ReleaseReady, Holds, Holding, Finalizes, Assigns;
    BeforeAll(r, qs);
    BeforeStep(r, qs, f);
    BeforeValid(r, qs, f);
    var t := After(r, qs);
    forall b | b in t.people && Holds(t, b) ensures AssignedAfter(r, qs, f, b, t.vault.generation.value) {
      HoldsGeneration(t, b);
      FinalizedUnheld(Before(r, qs, f), qs[f], b, t.vault.generation.value);
      var i := HoldingHistory(r, qs, f + 1, |qs|, b, t.vault.generation.value);
    }
  }

  lemma LastDoes(r: Rows, qs: seq<Request>, f: nat)
    requires LastFinalizes(r, qs, f)
    ensures FinalizesAt(r, qs, f)
  {
    hide FinalizesAt;
  }

  // After a finalization the vault is not ready until a quorum has been
  // assigned again and a drill reported whose evidence still stands.
  lemma ReadyAfterFinalize(r: Rows, qs: seq<Request>, f: nat)
    requires Inv(r) && DrillsPast(r) && LastFinalizes(r, qs, f) && ReleaseReady(After(r, qs))
    ensures ReportedAfter(r, qs, f) && ReassignedAfter(r, qs, f)
  {
    hide *;
    LastDoes(r, qs, f);
    ReadyReported(r, qs, f);
    ReadyReassigned(r, qs, f);
  }

  // After a new passphrase it takes a new ceremony as well.
  lemma ReadyAfterRewrap(r: Rows, q: Request, qs: seq<Request>) returns (f: nat)
    requires Inv(r) && DrillsPast(r) && q.RewrapKey? && Apply(r, q).Done?
    requires ReleaseReady(After(Next(r, q), qs))
    ensures LastFinalizes(Next(r, q), qs, f)
    ensures ReportedAfter(Next(r, q), qs, f) && ReassignedAfter(Next(r, q), qs, f)
  {
    hide *;
    var s := Next(r, q);
    NextKeeps(r, q);
    DrillsPastKept(r, q);
    RewrapStales(r, q);
    BeforeAll(s, qs);
    var last := LastFinalize(s, qs, |qs|);
    if last.None? {
      StaleHistory(s, qs, |qs|);
      StaleUnready(After(s, qs));
      assert false;
    } else {
      f := last.value;
      ReadyAfterFinalize(s, qs, f);
    }
  }

  // Whatever the run, a vault is ready only after a ceremony was finalized in it.
  lemma ReadyFromFresh(qs: seq<Request>) returns (f: nat)
    requires ReleaseReady(After(FRESH, qs))
    ensures LastFinalizes(FRESH, qs, f) && ReportedAfter(FRESH, qs, f) && ReassignedAfter(FRESH, qs, f)
  {
    hide *;
    FreshStart();
    BeforeAll(FRESH, qs);
    var last := LastFinalize(FRESH, qs, |qs|);
    if last.None? {
      StaleHistory(FRESH, qs, |qs|);
      StaleUnready(After(FRESH, qs));
      assert false;
    } else {
      f := last.value;
      ReadyAfterFinalize(FRESH, qs, f);
    }
  }

  lemma FreshStart()
    ensures Inv(FRESH) && DrillsPast(FRESH) && Stale(FRESH)
  {
    hide Inv;
    FreshValid();
  }
}
