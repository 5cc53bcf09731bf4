// What each request about the key material is granted for, and what it changes.

module CeremonyRules {
  import opened Wrappers
  import opened Tables
  import opened Ceremonies
  import opened Requests
  import opened RowInvariants

  // Thirty-two hexadecimal digits in lower case.
  predicate Digits(g: Generation) {
    |g| == 32 && forall i :: 0 <= i < 32 ==> g[i] in "0123456789abcdef"
  }

  predicate Fresh(r: Rows, g: Generation) {
    forall i :: 0 <= i < |r.ceremonies| ==> r.ceremonies[i].generation != g
  }

  // The first ceremony of a vault brings the wrapped key; later ones do not.
  predicate BringsKey(r: Rows, d: DraftRequest) {
    if r.vault.wrapped.Some? then d.initial.None?
    else d.initial.Some? && d.initial.value.valid && d.initial.value.expectedRevision == 0
  }

  predicate CancelledDraft(c: Ceremony, d: Ceremony) {
    d == if c.status == Draft then c.(status := Cancelled, pending := None) else c
  }

  function Bumped(r: Rows): Status {
    r.status.(version := r.status.version + 1)
  }

  lemma DigitsExactly(g: Generation)
    ensures Canonical(g) <==> Digits(g)
  {
    forall c: char ensures c in "0123456789abcdef" <==> '0' <= c <= '9' || 'a' <= c <= 'f' {
      DigitExactly(c);
    }
  }

  lemma DigitExactly(c: char)
    ensures c in "0123456789abcdef" <==> '0' <= c <= '9' || 'a' <= c <= 'f'
  {
    var s := "0123456789abcdef";
    if '0' <= c <= '9' {
      assert s[c as int - 48] == c;
    }
    if 'a' <= c <= 'f' {
      assert s[c as int - 87] == c;
    }
    if c in s {
      var i :| 0 <= i < |s| && s[i] == c;
      assert i < 10 ==> s[i] as int == 48 + i;
      assert i >= 10 ==> s[i] as int == 87 + i;
    }
  }

  // A draft is taken for the revision its sender saw, before the release, with
  // a policy of at most ten and a generation that was never used. It replaces
  // the draft before it, and leaves what is in force alone.
  lemma DraftExactly(r: Rows, d: DraftRequest)
    requires Inv(r)
    ensures Apply(r, DraftCeremony(d)).Done?
            <==> && r.status.state != Triggered && r.vault.revision == d.expectedRevision
                 && 1 <= d.threshold <= d.total <= 10 && Digits(d.generation) && Fresh(r, d.generation)
                 && BringsKey(r, d)
    ensures Apply(r, DraftCeremony(d)).Done? ==>
              && var s := Next(r, DraftCeremony(d)); var n := |r.ceremonies|;
              && |s.ceremonies| == n + 1
              && s.ceremonies[n] == Ceremony(d.generation, d.threshold, d.total, Draft, r.vault.revision,
                                             if d.initial.Some? then Some(d.initial.value.bundle) else None, None)
              && (forall i :: 0 <= i < n ==> CancelledDraft(r.ceremonies[i], s.ceremonies[i]))
              && s.vault == r.vault.(setup := if r.vault.wrapped.None? then Drafting else r.vault.setup)
              && s == r.(ceremonies := s.ceremonies, vault := s.vault, status := Bumped(r))
  {
    hide Canonical, Digits, PeopleValid, SwitchValid, AtMostOne, WellFormed, PendingFits;
    DigitsExactly(d.generation);
    if r.vault.generation.Some? {
      var i :| 0 <= i < |r.ceremonies| && r.ceremonies[i].status == Finalized;
      assert Matches(r.vault, r.ceremonies[i]);
    }
  }

  // Every share of 1..total is acknowledged, each once.
  predicate EachOnce(indexes: seq<int>, total: int) {
    |indexes| == total && forall i :: 1 <= i <= total ==> i in indexes
  }

  predicate FitsAll(r: Rows, total: int) {
    forall b :: b in r.people && r.people[b].index.Some? ==> r.people[b].index.value <= total
  }

  // A draft becomes final before the release, for the revision it was made at,
  // once all its shares are acknowledged and nobody has an index beyond them.
  lemma FinalizeExactly(r: Rows, id: int, indexes: seq<int>)
    ensures Apply(r, FinalizeCeremony(id, indexes)).Done?
            <==> && 0 <= id < |r.ceremonies| && r.status.state != Triggered
                 && (r.ceremonies[id].status == Finalized
                     || (&& r.ceremonies[id].status == Draft && r.vault.revision == r.ceremonies[id].expectedRevision
                         && EachOnce(indexes, r.ceremonies[id].total) && FitsAll(r, r.ceremonies[id].total)))
    ensures 0 <= id < |r.ceremonies| && r.ceremonies[id].status != Draft ==>
              Next(r, FinalizeCeremony(id, indexes)) == r
  {
  }

  // Its policy, generation and, the first time, its wrapped key are then in
  // force, at the next revision; it is the only final one, and everybody has
  // to be assigned anew.
  lemma FinalizeEffect(r: Rows, id: int, indexes: seq<int>)
    requires Inv(r) && Apply(r, FinalizeCeremony(id, indexes)).Done? && r.ceremonies[id].status == Draft
    ensures var s := Next(r, FinalizeCeremony(id, indexes)); var c := r.ceremonies[id];
            && s.vault == Vault(if r.vault.wrapped.Some? then r.vault.wrapped else c.pending, r.vault.revision + 1,
                                c.threshold, c.total, Some(c.generation), Ready)
            && |s.ceremonies| == |r.ceremonies|
            && s.ceremonies[id] == c.(status := Finalized, pending := None)
            && (forall i :: 0 <= i < |r.ceremonies| && i != id ==>
                  s.ceremonies[i] == if r.ceremonies[i].status == Finalized then
                                       r.ceremonies[i].(status := Superseded)
                                     else r.ceremonies[i])
            && (forall b :: b in s.people <==> b in r.people)
            && (forall b :: b in s.people ==> s.people[b] == r.people[b].(generation := None))
            && s.config == r.config && s.status == Bumped(r)
  {
    hide AtMostOne, DistinctGenerations, WellFormed, Matches, PeopleValid, SwitchValid, Acknowledged, IndexAbove;
    assert PendingFits(r.vault, r.ceremonies[id]);
  }

  // Any ceremony that is not final can be cancelled before the release.
  lemma CancelExactly(r: Rows, id: int)
    ensures Apply(r, CancelCeremony(id)).Done?
            <==> 0 <= id < |r.ceremonies| && r.status.state != Triggered && r.ceremonies[id].status != Finalized
    ensures Apply(r, CancelCeremony(id)).Done? ==>
              && var s := Next(r, CancelCeremony(id));
              && |s.ceremonies| == |r.ceremonies|
              && s.ceremonies[id] == r.ceremonies[id].(status := Cancelled, pending := None)
              && (forall i :: 0 <= i < |r.ceremonies| && i != id ==> s.ceremonies[i] == r.ceremonies[i])
              && s.vault == r.vault.(setup := if r.vault.wrapped.None? then Uninitialized else r.vault.setup)
              && s == r.(ceremonies := s.ceremonies, vault := s.vault, status := Bumped(r))
  {
  }

  // A new passphrase replaces the wrapped key of the revision its sender saw,
  // and nothing but that.
  lemma RewrapExactly(r: Rows, expected: int, bundle: Bundle, valid: bool)
    ensures Apply(r, RewrapKey(expected, bundle, valid)).Done?
            <==> valid && r.status.state != Triggered && r.vault.revision == expected && r.vault.wrapped.Some?
    ensures Apply(r, RewrapKey(expected, bundle, valid)).Done? ==>
              Next(r, RewrapKey(expected, bundle, valid))
              == r.(vault := r.vault.(wrapped := Some(bundle), revision := r.vault.revision + 1), status := Bumped(r))
  {
  }
}
