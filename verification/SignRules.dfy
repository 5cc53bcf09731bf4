// What signing in, renewing and signing out do to sessions, and to which.

module SignRules {
  import opened Wrappers
  import opened Tables
  import opened Worlds
  import opened WorldRuns
  import Delivery
  import OutboxRuns
  import S = Sessions

  const THIRTY_DAYS: nat := 30 * 24 * 60 * 60
  const SEVEN_DAYS: nat := 7 * 24 * 60 * 60

  // The outbox and the rows are as they were.
  predicate SameElse(w: World, v: World) {
    v.rows == w.rows && v.box == w.box
  }

  // ---------------------------------------------------------------------
  // Signing in
  // ---------------------------------------------------------------------

  function LastsFor(p: Principal): nat {
    if p.OwnerOf? then THIRTY_DAYS else SEVEN_DAYS
  }

  // Since a, a family for p has been opened, with one token that is unspent.
  predicate Opened(a: Auth, b: Auth, p: Principal, epoch: string, now: Time) {
    && |b.families| == |a.families| + 1 && b.families[..|a.families|] == a.families
    && b.families[|a.families|] == Family(p, epoch, false, now + LastsFor(p))
    && |b.tokens| == |a.tokens| + 1 && b.tokens[..|a.tokens|] == a.tokens
    && b.tokens[|a.tokens|] == Refresh(|a.families|, None, now + LastsFor(p), None)
    && b.challenges == a.challenges
  }

  lemma OpensExactly(a: Auth, p: Principal, epoch: string, now: Time)
    ensures Opened(a, S.Issue(a, p, epoch, now), p, epoch, now)
  {
  }

  // An owner signs in for thirty days.
  lemma SignInExactly(w: World, user: int, epoch: string, now: Time)
    ensures var v := NextWorld(w, SignIn(user, epoch, now));
            SameElse(w, v) && Opened(w.auth, v.auth, OwnerOf(user), epoch, now)
  {
    OpensExactly(w.auth, OwnerOf(user), epoch, now);
  }

  // ---------------------------------------------------------------------
  // Signing out
  // ---------------------------------------------------------------------

  predicate RoleOf(f: Family, beneficiary: bool) {
    f.principal.BeneficiaryAt? <==> beneficiary
  }

  // The token is one of this role's.
  predicate Known(a: Auth, raw: nat, beneficiary: bool) {
    && raw < |a.tokens| && a.tokens[raw].family < |a.families|
    && RoleOf(a.families[a.tokens[raw].family], beneficiary)
  }

  // Signing out revokes the family of the token that is presented, of whatever
  // age, and nothing else; with any other token it changes nothing.
  lemma SignOutExactly(w: World, raw: nat, beneficiary: bool)
    ensures var v := NextWorld(w, SignOut(raw, beneficiary));
            && SameElse(w, v) && v.auth.tokens == w.auth.tokens && v.auth.challenges == w.auth.challenges
            && |v.auth.families| == |w.auth.families|
            && forall f :: 0 <= f < |w.auth.families| ==>
                 v.auth.families[f] == if Known(w.auth, raw, beneficiary) && w.auth.tokens[raw].family == f
                                       then w.auth.families[f].(revoked := true) else w.auth.families[f]
  {
  }

  // No token of the family is honoured, now or in any later state.
  lemma NeverHonoured(w: World, u: World, f: nat, other: nat, role: bool, epoch: string, now: Time)
    requires WorldInv(w) && Later(w, u) && f < |w.auth.families| && w.auth.families[f].revoked
    requires other < |u.auth.tokens| && u.auth.tokens[other].family == f
    ensures S.Rotate(u.rows, u.auth, other, role, epoch, now) == S.Denied(Unauthorized)
  {
    hide WorldInv, Later, OutboxRuns.Grows, S.AuthInv, S.PrincipalStands;
    LaterMoves(w, u);
    assert S.FamilyGrows(w.auth.families[f], u.auth.families[f]);
  }

  // After a sign-out no token of that session is ever exchanged again.
  lemma SignOutEnds(w: World, raw: nat, beneficiary: bool, u: World, other: nat, role: bool, epoch: string, now: Time)
    requires Reachable(w) && Known(w.auth, raw, beneficiary) && Later(NextWorld(w, SignOut(raw, beneficiary)), u)
    requires other < |u.auth.tokens| && u.auth.tokens[other].family == w.auth.tokens[raw].family
    ensures S.Rotate(u.rows, u.auth, other, role, epoch, now) == S.Denied(Unauthorized)
  {
    hide WorldInv, NextWorld, Moves, Later, S.Rotate;
    var v := NextWorld(w, SignOut(raw, beneficiary));
    ReachableWorld(w);
    StepMoves(w, SignOut(raw, beneficiary));
    MovesValid(w, v);
    SignOutExactly(w, raw, beneficiary);
    NeverHonoured(v, u, w.auth.tokens[raw].family, other, role, epoch, now);
  }

  predicate IsFor(f: Family, id: int) {
    f.principal.BeneficiaryAt? && f.principal.id == id
  }

  // Every family of the beneficiary revoked, every link of theirs used up, and
  // everybody else's left alone.
  predicate Barred(a: Auth, b: Auth, id: int, now: Time) {
    && |b.families| == |a.families| && b.tokens == a.tokens && |b.challenges| == |a.challenges|
    && (forall f :: 0 <= f < |a.families| ==>
          b.families[f] == if IsFor(a.families[f], id) then a.families[f].(revoked := true) else a.families[f])
    && (forall c :: 0 <= c < |a.challenges| ==>
          b.challenges[c] == if a.challenges[c].beneficiary == id && a.challenges[c].consumedAt.None?
                             then a.challenges[c].(consumedAt := Some(now))
                             else a.challenges[c])
  }

  lemma BarsExactly(a: Auth, id: int, now: Time)
    ensures Barred(a, S.RevokeBeneficiary(a, id, now), id, now)
  {
  }

  // Signing out everywhere bars the beneficiary until they sign in anew.
  lemma EverywhereExactly(w: World, id: int, now: Time)
    requires id in w.rows.people
    ensures var v := NextWorld(w, SignOutEverywhere(id, now));
            && Barred(w.auth, v.auth, id, now)
            && v.rows == w.rows.(status := w.rows.status.(version := w.rows.status.version + 1))
  {
    hide Delivery.CancelRecipient, S.RevokeBeneficiary, Barred;
    BarsExactly(w.auth, id, now);
  }

  lemma EverywhereEnds(w: World, id: int, at: Time, u: World, f: nat, other: nat, role: bool, epoch: string, now: Time)
    requires Reachable(w) && id in w.rows.people && Later(NextWorld(w, SignOutEverywhere(id, at)), u)
    requires f < |w.auth.families| && IsFor(w.auth.families[f], id)
    requires other < |u.auth.tokens| && u.auth.tokens[other].family == f
    ensures S.Rotate(u.rows, u.auth, other, role, epoch, now) == S.Denied(Unauthorized)
  {
    hide WorldInv, NextWorld, Moves, Later, S.Rotate;
    var v := NextWorld(w, SignOutEverywhere(id, at));
    ReachableWorld(w);
    StepMoves(w, SignOutEverywhere(id, at));
    MovesValid(w, v);
    EverywhereExactly(w, id, at);
    NeverHonoured(v, u, f, other, role, epoch, now);
  }

  // ---------------------------------------------------------------------
  // Renewing
  // ---------------------------------------------------------------------

  // The family of the token can still be renewed under this epoch.
  predicate Standing(w: World, raw: nat, beneficiary: bool, epoch: string, now: Time) {
    && Known(w.auth, raw, beneficiary)
    && var f := w.auth.families[w.auth.tokens[raw].family];
       && !f.revoked && f.epoch == epoch && now < f.expires
       && (f.principal.BeneficiaryAt? ==>
             && f.principal.id in w.rows.people && w.rows.people[f.principal.id].invitation == Accepted
             && w.rows.people[f.principal.id].contactRevision == f.principal.contactRevision)
  }

  // An unspent token is spent and one that succeeds it made, in its family.
  predicate Exchanged(a: Auth, b: Auth, raw: nat, now: Time)
    requires raw < |a.tokens| && a.tokens[raw].family < |a.families|
  {
    && b.families == a.families && b.challenges == a.challenges && |b.tokens| == |a.tokens| + 1
    && (forall j :: 0 <= j < |a.tokens| && j != raw ==> b.tokens[j] == a.tokens[j])
    && b.tokens[raw] == a.tokens[raw].(consumedAt := Some(now))
    && b.tokens[|a.tokens|] == Refresh(a.tokens[raw].family, None, a.families[a.tokens[raw].family].expires, Some(raw))
  }

  predicate RevokedOnly(a: Auth, b: Auth, f: nat)
    requires f < |a.families|
  {
    && b.tokens == a.tokens && b.challenges == a.challenges && |b.families| == |a.families|
    && b.families[f] == a.families[f].(revoked := true)
    && forall g :: 0 <= g < |a.families| && g != f ==> b.families[g] == a.families[g]
  }

  // The lock has been taken once more.
  function Relocked(r: Rows): Rows {
    r.(status := r.status.(version := r.status.version + 1))
  }

  // Presented for a standing family: an unspent token is exchanged; one spent
  // at most ten seconds ago is refused and harms nobody; an older one ends the
  // family. For any other nothing happens.
  lemma RenewExactly(w: World, raw: nat, beneficiary: bool, epoch: string, now: Time)
    ensures var v := NextWorld(w, RefreshSession(raw, beneficiary, epoch, now));
            && v.box == w.box
            && (!Standing(w, raw, beneficiary, epoch, now) ==> v == w)
            && (Standing(w, raw, beneficiary, epoch, now) ==>
                  match w.auth.tokens[raw].consumedAt
                  case None => Exchanged(w.auth, v.auth, raw, now)
                  case Some(spent) =>
                    if now <= spent + 10 then v == w else RevokedOnly(w.auth, v.auth, w.auth.tokens[raw].family))
            && (v == w || v.rows == if beneficiary then Relocked(w.rows) else w.rows)
  {
  }

  // ---------------------------------------------------------------------
  // Links
  // ---------------------------------------------------------------------

  // The beneficiary qualifies for a link: accepted, at that address, the one
  // asked for if one is, and sent none for a minute.
  predicate Qualifies(w: World, id: int, email: string, only: Option<int>, now: Time) {
    && id in w.rows.people && w.rows.people[id].invitation == Accepted && w.rows.people[id].email == email
    && (only == None || only == Some(id))
    && forall c :: 0 <= c < |w.auth.challenges| && w.auth.challenges[c].beneficiary == id ==>
         now >= w.auth.challenges[c].createdAt + 60
  }

  // The link is good for a quarter of an hour, at the address it was sent to.
  lemma LinkExactly(w: World, id: int, email: string, only: Option<int>, found: bool, epoch: string, now: Time)
    ensures var v := NextWorld(w, AskLink(id, email, only, found, epoch, now));
            && v.auth.families == w.auth.families && v.auth.tokens == w.auth.tokens
            && v.auth.challenges == w.auth.challenges + (
                 if found && Qualifies(w, id, email, only, now) then
                   [Challenge(id, w.rows.people[id].contactRevision, epoch, None, now + 15 * 60, now)]
                 else [])
            && (found ==> v.rows == w.rows.(status := w.rows.status.(version := w.rows.status.version + 1)))
            && (!found ==> v == w)
  {
    hide Delivery.Announce;
  }

  // A link can be redeemed once, in time, under its epoch, by the accepted
  // beneficiary at the address it went to.
  predicate Good(w: World, c: nat, epoch: string, now: Time) {
    && c < |w.auth.challenges|
    && var ch := w.auth.challenges[c];
       && ch.consumedAt == None && now < ch.expires && ch.epoch == epoch
       && ch.beneficiary in w.rows.people && w.rows.people[ch.beneficiary].invitation == Accepted
       && w.rows.people[ch.beneficiary].contactRevision == ch.contactRevision
  }

  // It then signs them in for seven days.
  lemma RedeemExactly(w: World, c: nat, epoch: string, now: Time)
    ensures var v := NextWorld(w, RedeemLink(c, epoch, now));
            && v.box == w.box && (!Good(w, c, epoch, now) ==> v == w)
            && (Good(w, c, epoch, now) ==>
                  && v.rows == Relocked(w.rows) &&
                  var ch := w.auth.challenges[c];
                  && v.auth.challenges == w.auth.challenges[c := ch.(consumedAt := Some(now))]
                  && Opened(w.auth.(challenges := v.auth.challenges), v.auth,
                            BeneficiaryAt(ch.beneficiary, ch.contactRevision), epoch, now))
  {
    if Good(w, c, epoch, now) {
      var ch := w.auth.challenges[c];
      OpensExactly(w.auth.(challenges := w.auth.challenges[c := ch.(consumedAt := Some(now))]),
                   BeneficiaryAt(ch.beneficiary, ch.contactRevision), epoch, now);
    }
  }
}
