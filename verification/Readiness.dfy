// Recovery evidence: what a vault needs before it may be armed or released.

module Readiness {
  import opened Wrappers
  import opened Tables

  function BoundOf(p: Beneficiary): Bound {
    Bound(p.contactRevision, p.index, p.generation, p.invitation)
  }

  function BindingOf(r: Rows): Binding {
    map b | b in r.people :: BoundOf(r.people[b])
  }

  // b has accepted and holds a share of the vault's current generation
  predicate Holds(r: Rows, b: int) {
    b in r.people && r.people[b].invitation == Accepted && r.people[b].index.Some?
    && r.people[b].generation == r.vault.generation
  }

  function Eligible(r: Rows): set<int> {
    set b | b in r.people && Holds(r, b) :: r.people[b].index.value
  }

  predicate IsCurrent(r: Rows, i: int) {
    0 <= i < |r.ceremonies| && r.ceremonies[i].status == Finalized
    && r.vault.generation == Some(r.ceremonies[i].generation)
  }

  // The first current ceremony, if any.
  function CurrentFrom(r: Rows, i: nat): (c: Option<nat>)
    requires i <= |r.ceremonies|
    ensures c.Some? ==> IsCurrent(r, c.value)
    ensures c.None? ==> forall j :: i <= j < |r.ceremonies| ==> !IsCurrent(r, j)
    decreases |r.ceremonies| - i
  {
    if i == |r.ceremonies| then None
    else if IsCurrent(r, i) then Some(i)
    else CurrentFrom(r, i + 1)
  }

  function CurrentCeremony(r: Rows): (c: Option<Ceremony>) {
    if r.vault.generation.None? || r.vault.generation.value == "" then None
    else
      match CurrentFrom(r, 0)
      case None => None
      case Some(i) => Some(r.ceremonies[i])
  }

  predicate DrillCurrent(r: Rows) {
    match CurrentCeremony(r)
    case None => false
    case Some(c) =>
      && c.drill.Some?
      && c.expectedRevision + 1 == r.vault.revision
      && c.threshold == r.vault.threshold && c.total == r.vault.total
      && c.drill.value.revision == r.vault.revision
      && c.drill.value.binding == BindingOf(r)
      && r.vault.generation == Some(c.drill.value.generation)
  }

  predicate ReleaseReady(r: Rows) {
    && r.vault.wrapped.Some?
    && r.vault.setup == Ready
    && r.vault.generation.Some? && r.vault.generation.value != ""
    && 1 <= r.vault.threshold <= r.vault.total
    && CurrentCeremony(r).Some?
    && |Eligible(r)| >= r.vault.threshold
    && DrillCurrent(r)
  }

  // The owner reports a recovery drill made against the evidence it was shown.
  function ReportDrill(r: Rows, d: Drill): Reply {
    var l := Lock(r);
    if l.vault.revision != d.revision || l.vault.generation != Some(d.generation) || BindingOf(l) != d.binding then
      Refused(Conflict)
    else
      match CurrentFrom(l, 0)
      case None => Refused(Conflict)
      case Some(i) => Done(l.(ceremonies := l.ceremonies[i := l.ceremonies[i].(drill := Some(d))]))
  }
}
