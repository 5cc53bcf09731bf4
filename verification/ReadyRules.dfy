// When a vault is ready for release, said of its rows alone.

module ReadyRules {
  import opened Wrappers
  import opened Collections
  import opened Tables
  import opened Readiness
  import opened Requests
  import opened RowInvariants
  import opened WorldRuns
  import Guarantees
  import Recoverable

  // Someone who has accepted and holds a share of the set now in force.
  predicate Keeps(r: Rows, b: int) {
    && b in r.people && r.people[b].invitation == Accepted
    && r.people[b].index.Some? && r.people[b].generation == r.vault.generation
  }

  // As many of them as the threshold asks for.
  predicate Backed(r: Rows, holders: seq<int>) {
    |holders| == r.vault.threshold && Distinct(holders) && forall i :: 0 <= i < |holders| ==> Keeps(r, holders[i])
  }

  // What a drill's binding says of everybody who is enrolled, is still so.
  predicate StillBound(r: Rows, binding: Binding) {
    && (forall b :: b in binding ==> b in r.people) && (forall b :: b in r.people ==> b in binding)
    && (forall b :: b in r.people ==>
          && binding[b].contactRevision == r.people[b].contactRevision && binding[b].index == r.people[b].index
          && binding[b].generation == r.people[b].generation && binding[b].invitation == r.people[b].invitation)
  }

  // The ceremony behind the material now in force.
  predicate InForce(r: Rows, i: int) {
    && 0 <= i < |r.ceremonies| && r.ceremonies[i].status == Finalized
    && r.vault.generation == Some(r.ceremonies[i].generation)
    && r.ceremonies[i].expectedRevision + 1 == r.vault.revision
  }

  predicate Rehearsed(r: Rows, d: Drill) {
    d.revision == r.vault.revision && r.vault.generation == Some(d.generation) && StillBound(r, d.binding)
  }

  predicate Drilled(r: Rows, i: int) {
    InForce(r, i) && r.ceremonies[i].drill.Some? && Rehearsed(r, r.ceremonies[i].drill.value)
  }

  lemma BoundExactly(r: Rows, binding: Binding)
    ensures binding == BindingOf(r) <==> StillBound(r, binding)
  {
    if StillBound(r, binding) {
      forall b | b in binding ensures binding[b] == BindingOf(r)[b] {
        assert binding[b].contactRevision == r.people[b].contactRevision;
      }
      forall b ensures b in binding <==> b in BindingOf(r) {
        assert b in BindingOf(r) <==> b in r.people;
      }
      assert binding == BindingOf(r);
    }
  }

  lemma KeepsHolds(r: Rows, b: int)
    ensures Keeps(r, b) <==> Holds(r, b)
  {
  }

  function IndexOf(r: Rows, b: int): int {
    if b in r.people && r.people[b].index.Some? then r.people[b].index.value else 0
  }

  lemma HoldersCounted(r: Rows, holders: seq<int>)
    requires DistinctIndexes(r.people) && Distinct(holders)
    requires forall i :: 0 <= i < |holders| ==> Keeps(r, holders[i])
    ensures |Eligible(r)| >= |holders|
  {
    var xs := seq(|holders|, i requires 0 <= i < |holders| => IndexOf(r, holders[i]));
    forall i, j | 0 <= i < j < |xs| ensures xs[i] != xs[j] {
      assert holders[i] != holders[j] && Keeps(r, holders[i]) && Keeps(r, holders[j]);
    }
    DistinctSize(xs);
    forall x | x in xs ensures x in Eligible(r) {
      var i :| 0 <= i < |xs| && xs[i] == x;
      assert Keeps(r, holders[i]) && Holds(r, holders[i]);
    }
    SubsetSize((set x | x in xs), Eligible(r));
  }

  lemma ReadyBacked(r: Rows) returns (holders: seq<int>)
    requires Inv(r) && ReleaseReady(r)
    ensures Backed(r, holders)
  {
    hide Inv, ReleaseReady, Holds, Keeps, Distinct;
    holders := Recoverable.QuorumExists(r);
    forall i | 0 <= i < |holders| ensures Keeps(r, holders[i]) {
      assert Holds(r, holders[i]);
      KeepsHolds(r, holders[i]);
    }
  }

  lemma ReadyDrilled(r: Rows) returns (i: int)
    requires ReleaseReady(r)
    ensures Drilled(r, i)
  {
    hide BindingOf, Eligible, StillBound;
    i := CurrentFrom(r, 0).value;
    BoundExactly(r, r.ceremonies[i].drill.value.binding);
  }

  // The finalized ceremony of the vault's generation is the one that is found.
  lemma FoundInForce(r: Rows, i: int)
    requires CeremoniesValid(r) && IsCurrent(r, i)
    ensures CurrentFrom(r, 0) == Some(i) && CurrentCeremony(r) == Some(r.ceremonies[i])
    ensures 1 <= r.vault.threshold <= r.vault.total
    ensures r.vault.threshold == r.ceremonies[i].threshold && r.vault.total == r.ceremonies[i].total
  {
    hide DistinctGenerations;
    assert WellFormed(r.ceremonies[i]) && Matches(r.vault, r.ceremonies[i]);
  }

  lemma DrilledReady(r: Rows, holders: seq<int>, i: int)
    requires Inv(r) && Backed(r, holders) && Drilled(r, i)
    ensures ReleaseReady(r)
  {
    hide Eligible, BindingOf, StillBound, CurrentFrom, WellFormed, DistinctGenerations, Matches, PersonValid, Keeps,
         DistinctEmails, PendingFits, Distinct;
    FoundInForce(r, i);
    BoundExactly(r, r.ceremonies[i].drill.value.binding);
    HoldersCounted(r, holders);
    assert 0 <= i < |r.ceremonies| && r.ceremonies[i].status == Finalized;
  }

  // A vault is ready exactly if enough people keep shares of the set in force
  // and its ceremony has a drill made against what still stands.
  lemma ReadyByRows(r: Rows)
    requires Inv(r)
    ensures ReleaseReady(r) <==> (exists holders :: Backed(r, holders)) && (exists i :: Drilled(r, i))
  {
    hide Inv, ReleaseReady, Backed, Drilled;
    if ReleaseReady(r) {
      var holders := ReadyBacked(r);
      var i := ReadyDrilled(r);
    }
    if (exists holders :: Backed(r, holders)) && (exists i :: Drilled(r, i)) {
      var holders :| Backed(r, holders);
      var i :| Drilled(r, i);
      DrilledReady(r, holders, i);
    }
  }

  lemma ReadyExactly(w: World)
    requires Reachable(w)
    ensures ReleaseReady(w.rows) <==> (exists holders :: Backed(w.rows, holders)) && (exists i :: Drilled(w.rows, i))
  {
    hide Reachable, WorldInv, Inv, ReleaseReady, Backed, Drilled;
    ReachableWorld(w);
    Guarantees.WorldRows(w);
    ReadyByRows(w.rows);
  }

  // ---------------------------------------------------------------------
  // Reporting a drill
  // ---------------------------------------------------------------------

  lemma CurrentExists(r: Rows) returns (i: int)
    requires Inv(r) && r.vault.generation.Some?
    ensures IsCurrent(r, i)
  {
    hide DistinctGenerations, WellFormed, PeopleValid, SwitchValid, AtMostOne;
    i :| 0 <= i < |r.ceremonies| && r.ceremonies[i].status == Finalized;
    assert Matches(r.vault, r.ceremonies[i]);
  }

  // A drill is accepted exactly if it was made against what stands now; it is
  // then on record for the finalized ceremony, and nothing else has changed.
  lemma DrillExactly(r: Rows, d: Drill)
    requires Inv(r)
    ensures Apply(r, ReportRecovery(d)).Done? <==> Rehearsed(r, d)
    ensures Rehearsed(r, d) ==>
              exists i :: IsCurrent(r, i) && Next(r, ReportRecovery(d)) == WithDrill(r, i, d)
  {
    hide StillBound, BindingOf, CurrentFrom, Inv;
    BoundExactly(Lock(r), d.binding);
    BoundLocked(r, d.binding);
    if Rehearsed(r, d) {
      var i := CurrentExists(r);
      ValidCeremonies(r);
      CurrentLocked(r, i);
      assert Next(r, ReportRecovery(d)) == WithDrill(r, i, d);
    }
  }

  lemma ValidCeremonies(r: Rows)
    requires Inv(r)
    ensures CeremoniesValid(r)
  {
  }

  function WithDrill(r: Rows, i: int, d: Drill): Rows
    requires 0 <= i < |r.ceremonies|
  {
    r.(ceremonies := r.ceremonies[i := r.ceremonies[i].(drill := Some(d))],
       status := r.status.(version := r.status.version + 1))
  }

  lemma BoundLocked(r: Rows, binding: Binding)
    ensures StillBound(Lock(r), binding) <==> StillBound(r, binding)
  {
  }

  lemma CurrentLocked(r: Rows, i: int)
    requires CeremoniesValid(r) && IsCurrent(r, i)
    ensures CurrentFrom(Lock(r), 0) == Some(i)
  {
    hide DistinctGenerations, WellFormed, PendingFits, CurrentFrom;
    assert CeremoniesValid(Lock(r)) && IsCurrent(Lock(r), i);
    FoundInForce(Lock(r), i);
  }

  // Whoever else is enrolled: with enough people who keep shares of the set in
  // force, an accepted drill makes the vault ready.
  lemma DrillMakesReady(r: Rows, d: Drill, holders: seq<int>, i: int)
    requires Inv(r) && Backed(r, holders) && InForce(r, i) && Apply(r, ReportRecovery(d)).Done?
    ensures ReleaseReady(Next(r, ReportRecovery(d)))
  {
    hide Inv, Apply, Next, ReleaseReady, Keeps, StillBound, Distinct;
    DrillExactly(r, d);
    var j :| IsCurrent(r, j) && Next(r, ReportRecovery(d)) == WithDrill(r, j, d);
    ValidCeremonies(r);
    FoundInForce(r, i); FoundInForce(r, j);
    var s := Next(r, ReportRecovery(d));
    NextKeeps(r, ReportRecovery(d));
    KeepsOn(r, s, holders);
    BoundOn(r, s, d.binding);
    DrilledReady(s, holders, i);
  }

  lemma KeepsOn(r: Rows, s: Rows, holders: seq<int>)
    requires Backed(r, holders) && s.people == r.people && s.vault == r.vault
    ensures Backed(s, holders)
  {
    hide Distinct;
    forall i | 0 <= i < |holders| ensures Keeps(s, holders[i]) {
      assert Keeps(r, holders[i]);
    }
  }

  lemma BoundOn(r: Rows, s: Rows, binding: Binding)
    requires s.people == r.people
    ensures StillBound(s, binding) <==> StillBound(r, binding)
  {
  }
}
