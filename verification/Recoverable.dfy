// Release readiness joined with key splitting: when a vault is ready, the
// shares of its current ceremony at any quorum's indices rebuild the key.

module Recoverable {
  import opened Wrappers
  import opened Tables
  import opened Ceremonies
  import opened Readiness
  import opened RowInvariants
  import opened Field
  import opened Collections
  import Shamir
  import Shares

  predicate CurrentAt(r: Rows, i: nat) {
    && i < |r.ceremonies| && r.ceremonies[i].status == Finalized
    && r.vault.generation == Some(r.ceremonies[i].generation)
    && r.vault.threshold == r.ceremonies[i].threshold && r.vault.total == r.ceremonies[i].total
  }

  // The ceremony behind a ready vault is its only finalized one.
  lemma ReadyCeremony(r: Rows) returns (i: nat)
    requires Inv(r) && ReleaseReady(r)
    ensures CurrentAt(r, i) && WellFormed(r.ceremonies[i])
    ensures forall j :: 0 <= j < |r.ceremonies| && r.ceremonies[j].status == Finalized ==> j == i
  {
    hide BindingOf, Eligible, Canonical, DistinctGenerations, PeopleValid, SwitchValid, HasFinalized;
    i := CurrentFrom(r, 0).value;
  }

  lemma EligibleInRange(r: Rows)
    requires Inv(r) && ReleaseReady(r)
    ensures |Eligible(r)| >= r.vault.threshold >= 1
    ensures forall x :: x in Eligible(r) ==> 1 <= x <= r.vault.total
  {
    hide BindingOf, DrillCurrent, CurrentCeremony, CeremoniesValid, VaultValid, SwitchValid;
  }

  // A quorum: distinct people, each holding a share of the current set.
  predicate Quorum(r: Rows, holders: seq<int>) {
    && |holders| == r.vault.threshold && Distinct(holders)
    && forall i :: 0 <= i < |holders| ==> Holds(r, holders[i])
  }

  lemma {:induction false} ChooseHolders(r: Rows, xs: set<int>, n: nat) returns (holders: seq<int>)
    requires xs <= Eligible(r) && n <= |xs|
    ensures |holders| == n && Distinct(holders)
    ensures forall i :: 0 <= i < n ==> Holds(r, holders[i]) && r.people[holders[i]].index.value in xs
    decreases n
  {
    if n == 0 {
      holders := [];
    } else {
      var x := Member(xs);
      var b :| b in r.people && Holds(r, b) && r.people[b].index.value == x;
      var rest := ChooseHolders(r, xs - {x}, n - 1);
      holders := [b] + rest;
    }
  }

  lemma QuorumExists(r: Rows) returns (holders: seq<int>)
    requires Inv(r) && ReleaseReady(r)
    ensures Quorum(r, holders)
  {
    hide Inv, ReleaseReady, Eligible, Holds, Distinct;
    EligibleInRange(r);
    holders := ChooseHolders(r, Eligible(r), r.vault.threshold);
  }

  // b holds a share the split has printed.
  predicate HoldsPrinted(r: Rows, b: int) {
    Holds(r, b) && 1 <= r.people[b].index.value <= r.vault.total
  }

  lemma HoldersPrinted(r: Rows, holders: seq<int>)
    requires Inv(r) && forall i :: 0 <= i < |holders| ==> Holds(r, holders[i])
    ensures forall i :: 0 <= i < |holders| ==> HoldsPrinted(r, holders[i])
  {
    hide CeremoniesValid, VaultValid, SwitchValid, DistinctIndexes, DistinctEmails;
    forall i | 0 <= i < |holders| ensures HoldsPrinted(r, holders[i]) {
      assert PersonValid(r.vault, r.people[holders[i]]);
    }
  }

  // The positions, in the list the split printed, of the shares people hold.
  function Positions(r: Rows, holders: seq<int>): (ps: seq<nat>)
    ensures |ps| == |holders|
  {
    seq(|holders|, i requires 0 <= i < |holders| => Position(r, holders[i]))
  }

  function Position(r: Rows, b: int): nat {
    if HoldsPrinted(r, b) then r.people[b].index.value - 1 else 0
  }

  lemma PositionsDistinct(r: Rows, holders: seq<int>)
    requires Inv(r) && Distinct(holders) && forall i :: 0 <= i < |holders| ==> HoldsPrinted(r, holders[i])
    ensures Distinct(Positions(r, holders))
    ensures forall i :: 0 <= i < |holders| ==> Positions(r, holders)[i] < r.vault.total
  {
    hide CeremoniesValid, VaultValid, SwitchValid;
  }

  lemma HexChar(c: char)
    requires '0' <= c <= '9' || 'a' <= c <= 'f'
    ensures Shares.HexValue(c).Some? && Shares.Lower(c) == c
  {
  }

  lemma CanonicalHex(g: Generation)
    requires Canonical(g)
    ensures |g| == 32 && Shares.IsHex(g) && Shares.LowerCase(g) == g
  {
    hide Shares.HexValue, Shares.Lower;
    forall i | 0 <= i < |g| ensures Shares.HexValue(g[i]).Some? && Shares.Lower(g[i]) == g[i] {
      HexChar(g[i]);
    }
  }

  // A finalized ceremony's generation is the one its shares carry.
  lemma GenerationParses(g: Generation, random: seq<Byte>)
    requires Canonical(g) && |random| == 16
    ensures Shamir.NormalizeGeneration(Some(g), random).Success?
    ensures Shares.LowerCase(g) == Shares.Hex(Shamir.NormalizeGeneration(Some(g), random).value)
  {
    hide Canonical, Shares.Hex, Shares.ParseHex, Shares.IsHex, Shares.LowerCase;
    CanonicalHex(g);
    Shares.HexRoundTrip(g);
  }

  // Splitting key under the vault's policy and generation succeeds, and the
  // shares printed at the holders' indices, in that order, give the key back.
  predicate Recovers(r: Rows, holders: seq<int>, key: seq<Byte>, random: seq<Byte>, coeffs: seq<seq<Byte>>)
    requires |key| == 32 && |random| == 16 && Shamir.Coefficients(coeffs, r.vault.threshold)
  {
    && Shamir.ValidPolicy(r.vault.threshold, r.vault.total)
    && (forall i :: 0 <= i < |holders| ==> HoldsPrinted(r, holders[i]))
    && var split := Shamir.Split(key, r.vault.threshold, r.vault.total, r.vault.generation, random, coeffs);
       && split.Success? && |split.value| == r.vault.total
       && (forall i :: 0 <= i < |holders| ==> Positions(r, holders)[i] < |split.value|)
       && Shamir.Reconstruct(Shamir.Pick(split.value, Positions(r, holders)), r.vault.threshold, r.vault.generation)
          == Success(key)
  }

  // In a ready vault any quorum of holders can rebuild the key, whatever key
  // and coefficients its ceremony split.
  lemma ReadyMeansRecoverable(r: Rows, holders: seq<int>, key: seq<Byte>, random: seq<Byte>, coeffs: seq<seq<Byte>>)
    requires Inv(r) && ReleaseReady(r) && Quorum(r, holders)
    requires |key| == 32 && |random| == 16 && Shamir.Coefficients(coeffs, r.vault.threshold)
    ensures Recovers(r, holders, key, random, coeffs)
  {
    hide Inv, ReleaseReady, Holds, Positions, Canonical, Distinct, Shamir.Split, Shamir.Reconstruct, Shamir.Pick,
         Shamir.NormalizeGeneration, Shamir.Coefficients, Shares.Hex, Shares.LowerCase;
    var i := ReadyCeremony(r);
    var g := r.ceremonies[i].generation;
    GenerationParses(g, random);
    HoldersPrinted(r, holders);
    PositionsDistinct(r, holders);
    Shamir.SplitThenReconstruct(key, r.vault.threshold, r.vault.total, Some(g), random, coeffs,
                                Positions(r, holders), Some(g));
  }
}
