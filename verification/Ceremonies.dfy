// Recovery ceremonies: drafts that leave the active material alone until they
// are finalized, cancellation, and passphrase rewraps.

module Ceremonies {
  import opened Wrappers
  import opened Tables

  datatype DraftRequest = DraftRequest(
    expectedRevision: int, generation: Generation, threshold: int, total: int,
    initial: Option<InitialMaterial>)

  // A bundle, the revision its sender expects, and whether it passes validation.
  datatype InitialMaterial = InitialMaterial(bundle: Bundle, expectedRevision: int, valid: bool)

  predicate Canonical(g: Generation) {
    |g| == 32 && forall i :: 0 <= i < 32 ==> '0' <= g[i] <= '9' || 'a' <= g[i] <= 'f'
  }

  predicate Used(r: Rows, g: Generation) {
    exists i :: 0 <= i < |r.ceremonies| && r.ceremonies[i].generation == g
  }

  function CancelDrafts(cs: seq<Ceremony>): (r: seq<Ceremony>)
    ensures |r| == |cs|
  {
    seq(|cs|, i requires 0 <= i < |cs| =>
      if cs[i].status == Draft then cs[i].(status := Cancelled, pending := None) else cs[i])
  }

  function CreateDraft(r: Rows, q: DraftRequest): Reply {
    match Writable(r, Some(q.expectedRevision))
    case Refused(why) => Refused(why)
    case Done(l) =>
      if !Canonical(q.generation) then Refused(Invalid)
      else if !(1 <= q.threshold <= q.total <= 10) then Refused(Invalid)
      else if l.vault.generation == Some(q.generation) then Refused(Conflict)
      else if l.vault.wrapped.Some? && q.initial.Some? then Refused(Conflict)
      else if l.vault.wrapped.None? && (q.initial.None? || q.initial.value.expectedRevision != 0) then Refused(Invalid)
      else if q.initial.Some? && !q.initial.value.valid then Refused(Invalid)
      else if Used(l, q.generation) then Refused(Conflict)  // the unique constraint
      else
        var pending := if q.initial.Some? then Some(q.initial.value.bundle) else None;
        var row := Ceremony(q.generation, q.threshold, q.total, Draft, l.vault.revision, pending, None);
        Done(l.(ceremonies := CancelDrafts(l.ceremonies) + [row],
                vault := if l.vault.wrapped.None? then l.vault.(setup := Drafting) else l.vault))
  }

  function ApplyMaterial(v: Vault, b: Bundle): Vault {
    v.(wrapped := Some(b), revision := v.revision + 1)
  }

  function Supersede(cs: seq<Ceremony>): (r: seq<Ceremony>)
    ensures |r| == |cs|
  {
    seq(|cs|, i requires 0 <= i < |cs| =>
      if cs[i].status == Finalized then cs[i].(status := Superseded) else cs[i])
  }

  function Unassign(people: map<int, Beneficiary>): map<int, Beneficiary> {
    map b | b in people :: people[b].(generation := None)
  }

  // Every share acknowledged exactly once.
  predicate Acknowledged(indexes: seq<int>, total: int) {
    |indexes| == total && forall i :: 1 <= i <= total ==> i in indexes
  }

  predicate IndexAbove(r: Rows, total: int) {
    exists b :: b in r.people && r.people[b].index.Some? && r.people[b].index.value > total
  }

  function Finalize(r: Rows, id: int, indexes: seq<int>): Reply {
    if !(0 <= id < |r.ceremonies|) then Refused(NotFound)
    else
      match Writable(r, None)
      case Refused(why) => Refused(why)
      case Done(l) =>
        var row := l.ceremonies[id];
        if row.status == Finalized then Done(r)  // already finalized; the lock is rolled back
        else if row.status != Draft || l.vault.revision != row.expectedRevision then Refused(Conflict)
        else if !Acknowledged(indexes, row.total) then Refused(Invalid)
        else if IndexAbove(l, row.total) then Refused(Conflict)
        else
          var v := if row.pending.Some? then ApplyMaterial(l.vault, row.pending.value)
                   else l.vault.(revision := l.vault.revision + 1);
          Done(l.(vault := v.(threshold := row.threshold, total := row.total,
                              generation := Some(row.generation), setup := Ready),
                  ceremonies := Supersede(l.ceremonies)[id := row.(status := Finalized, pending := None)],
                  people := Unassign(l.people)))
  }

  function Cancel(r: Rows, id: int): Reply {
    if !(0 <= id < |r.ceremonies|) then Refused(NotFound)
    else
      match Writable(r, None)
      case Refused(why) => Refused(why)
      case Done(l) =>
        var row := l.ceremonies[id];
        if row.status == Finalized then Refused(Conflict)
        else
          Done(l.(ceremonies := l.ceremonies[id := row.(status := Cancelled, pending := None)],
                  vault := if l.vault.wrapped.None? then l.vault.(setup := Uninitialized) else l.vault))
  }

  // A new passphrase: the same key under another bundle.
  function Rewrap(r: Rows, expected: int, bundle: Bundle, valid: bool): Reply {
    if !valid then Refused(Invalid)
    else
      match Writable(r, Some(expected))
      case Refused(why) => Refused(why)
      case Done(l) =>
        if l.vault.wrapped.None? then Refused(Conflict)
        else Done(l.(vault := ApplyMaterial(l.vault, bundle)))
  }
}
