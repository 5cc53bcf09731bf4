// Session families, their single-use refresh tokens, and sign-in links.

module Sessions {
  import opened Wrappers
  import opened Tables

  const OWNER_LIFE: nat := 30 * DAY
  const BENEFICIARY_LIFE: nat := 7 * DAY
  const LINK_LIFE: nat := 15 * 60
  const LINK_COOLDOWN: nat := 60
  const REUSE_GRACE: nat := 10

  function Life(p: Principal): nat {
    if p.OwnerOf? then OWNER_LIFE else BENEFICIARY_LIFE
  }

  // A new family and its first token.
  function Issue(a: Auth, p: Principal, epoch: string, now: Time): Auth {
    a.(families := a.families + [Family(p, epoch, false, now + Life(p))],
       tokens := a.tokens + [Refresh(|a.families|, None, now + Life(p), None)])
  }

  // Revocation, epoch and expiry; the role and principal are the caller's own.
  predicate ValidFamily(f: Family, epoch: string, now: Time) {
    !f.revoked && f.epoch == epoch && f.expires > now
  }

  // The beneficiary is enrolled under the same contact address, and accepted.
  predicate Entitled(r: Rows, id: int, contactRevision: nat) {
    id in r.people && r.people[id].invitation == Accepted && r.people[id].contactRevision == contactRevision
  }

  predicate PrincipalStands(r: Rows, p: Principal) {
    match p
    case OwnerOf(user) => true
    case BeneficiaryAt(id, contactRevision) => Entitled(r, id, contactRevision)
  }

  // Rotated and Reused commit; Denied does not.
  datatype Rotation = Rotated(auth: Auth) | Reused(auth: Auth) | Denied(why: Refusal) {
    function Or(a: Auth): Auth {
      if Denied? then a else auth
    }
  }

  function Rotate(r: Rows, a: Auth, raw: nat, beneficiary: bool, epoch: string, now: Time): Rotation {
    if raw >= |a.tokens| || a.tokens[raw].family >= |a.families| then Denied(Unauthorized)
    else
      var t := a.tokens[raw];
      var f := a.families[t.family];
      if f.principal.BeneficiaryAt? != beneficiary then Denied(Unauthorized)
      else if !ValidFamily(f, epoch, now) then Denied(Unauthorized)
      else if !PrincipalStands(r, f.principal) then Denied(Unauthorized)
      else if t.consumedAt.Some? then
        if now <= t.consumedAt.value + REUSE_GRACE then Denied(Conflict)
        else Reused(a.(families := a.families[t.family := f.(revoked := true)]))
      else
        Rotated(a.(tokens := a.tokens[raw := t.(consumedAt := Some(now))]
                             + [Refresh(t.family, None, f.expires, Some(raw))]))
  }

  function RevokeCookie(a: Auth, raw: nat, beneficiary: bool): Auth {
    if raw >= |a.tokens| || a.tokens[raw].family >= |a.families| then a
    else
      var i := a.tokens[raw].family;
      if a.families[i].principal.BeneficiaryAt? != beneficiary then a
      else a.(families := a.families[i := a.families[i].(revoked := true)])
  }

  predicate BelongsTo(f: Family, id: int) {
    f.principal.BeneficiaryAt? && f.principal.id == id
  }

  function RevokeFamilies(families: seq<Family>, id: int): (fs: seq<Family>)
    ensures |fs| == |families|
  {
    seq(|families|, i requires 0 <= i < |families| =>
      if BelongsTo(families[i], id) then families[i].(revoked := true) else families[i])
  }

  function ConsumeChallenges(challenges: seq<Challenge>, id: int, now: Time): (cs: seq<Challenge>)
    ensures |cs| == |challenges|
  {
    seq(|challenges|, i requires 0 <= i < |challenges| =>
      if challenges[i].beneficiary == id && challenges[i].consumedAt.None? then challenges[i].(consumedAt := Some(now))
      else challenges[i])
  }

  // Everything a beneficiary could sign in with.
  function RevokeBeneficiary(a: Auth, id: int, now: Time): Auth {
    a.(families := RevokeFamilies(a.families, id), challenges := ConsumeChallenges(a.challenges, id, now))
  }

  // ---------------------------------------------------------------------
  // Sign-in links
  // ---------------------------------------------------------------------

  predicate RecentLink(a: Auth, id: int, now: Time) {
    exists i :: 0 <= i < |a.challenges| && a.challenges[i].beneficiary == id
        && now < a.challenges[i].createdAt + LINK_COOLDOWN
  }

  // The beneficiary of this vault the request names: accepted, at that address.
  predicate Named(r: Rows, id: int, email: string, only: Option<int>) {
    && id in r.people && r.people[id].invitation == Accepted && r.people[id].email == email
    && (only.None? || only.value == id)
  }

  predicate LinkSent(r: Rows, a: Auth, id: int, email: string, only: Option<int>, now: Time) {
    Named(r, id, email, only) && !RecentLink(a, id, now)
  }

  function AddChallenge(r: Rows, a: Auth, id: int, epoch: string, now: Time): Auth
    requires id in r.people
  {
    a.(challenges := a.challenges + [Challenge(id, r.people[id].contactRevision, epoch, None, now + LINK_LIFE, now)])
  }

  predicate Redeemable(r: Rows, a: Auth, c: nat, epoch: string, now: Time) {
    && c < |a.challenges| && a.challenges[c].consumedAt.None? && a.challenges[c].expires > now
    && a.challenges[c].epoch == epoch && Entitled(r, a.challenges[c].beneficiary, a.challenges[c].contactRevision)
  }

  function Redeem(a: Auth, c: nat, epoch: string, now: Time): Auth
    requires c < |a.challenges|
  {
    var ch := a.challenges[c];
    Issue(a.(challenges := a.challenges[c := ch.(consumedAt := Some(now))]),
          BeneficiaryAt(ch.beneficiary, ch.contactRevision), epoch, now)
  }

  // ---------------------------------------------------------------------
  // Chains
  // ---------------------------------------------------------------------

  // The newest token of family f.
  function Latest(tokens: seq<Refresh>, f: nat): (k: Option<nat>)
    ensures k.Some? ==> k.value < |tokens| && tokens[k.value].family == f
    ensures k.Some? ==> forall j :: k.value < j < |tokens| ==> tokens[j].family != f
    ensures k.None? ==> forall j :: 0 <= j < |tokens| ==> tokens[j].family != f
    decreases |tokens|
  {
    if tokens == [] then None
    else if tokens[|tokens| - 1].family == f then Some(|tokens| - 1)
    else Latest(tokens[..|tokens| - 1], f)
  }

  // Token j came from the one before it in its family, and is unconsumed as
  // long as it is the newest.
  predicate TokenOk(a: Auth, j: nat)
    requires j < |a.tokens|
  {
    var t := a.tokens[j];
    && t.family < |a.families| && t.expires == a.families[t.family].expires
    && t.parent == Latest(a.tokens[..j], t.family)
    && (t.consumedAt.None? <==> Latest(a.tokens, t.family) == Some(j))
  }

  predicate AuthInv(a: Auth) {
    && (forall j :: 0 <= j < |a.tokens| ==> TokenOk(a, j))
    && (forall f: nat :: f < |a.families| ==> Latest(a.tokens, f).Some?)
  }

  const NO_AUTH: Auth := Auth([], [], [])

  lemma NoAuthOk()
    ensures AuthInv(NO_AUTH)
  {
  }

  lemma LatestSnoc(tokens: seq<Refresh>, t: Refresh, f: nat)
    ensures Latest(tokens + [t], f) == if t.family == f then Some(|tokens|) else Latest(tokens, f)
  {
    assert (tokens + [t])[..|tokens|] == tokens;
  }

  // Only the families of the tokens matter.
  lemma {:induction false} LatestSame(s: seq<Refresh>, t: seq<Refresh>, f: nat)
    requires |s| == |t| && forall j :: 0 <= j < |s| ==> s[j].family == t[j].family
    ensures Latest(s, f) == Latest(t, f)
    decreases |s|
  {
    if s != [] {
      LatestSame(s[..|s| - 1], t[..|t| - 1], f);
    }
  }

  lemma IssueKeeps(a: Auth, p: Principal, epoch: string, now: Time)
    requires AuthInv(a)
    ensures AuthInv(Issue(a, p, epoch, now))
  {
    hide Latest;
    var b := Issue(a, p, epoch, now);
    var t := b.tokens[|a.tokens|];
    forall j | 0 <= j < |b.tokens| ensures TokenOk(b, j) {
      if j < |a.tokens| {
        assert TokenOk(a, j);
        assert b.tokens[..j] == a.tokens[..j];
        LatestSnoc(a.tokens, t, a.tokens[j].family);
      } else {
        assert b.tokens[..j] == a.tokens;
        LatestSnoc(a.tokens, t, |a.families|);
        NoTokens(a, |a.families|);
      }
    }
    forall f: nat | f < |b.families| ensures Latest(b.tokens, f).Some? {
      LatestSnoc(a.tokens, t, f);
    }
  }

  lemma NoTokens(a: Auth, f: nat)
    requires AuthInv(a) && f >= |a.families|
    ensures Latest(a.tokens, f).None?
  {
    hide Latest;
    forall j | 0 <= j < |a.tokens| ensures a.tokens[j].family != f {
      assert TokenOk(a, j);
    }
  }

  lemma RotateKeeps(r: Rows, a: Auth, raw: nat, beneficiary: bool, epoch: string, now: Time)
    requires AuthInv(a)
    ensures AuthInv(Rotate(r, a, raw, beneficiary, epoch, now).Or(a))
  {
    hide Latest, PrincipalStands, ValidFamily;
    match Rotate(r, a, raw, beneficiary, epoch, now)
    case Denied(_) =>
    case Reused(b) => FamiliesKeep(a, b.families, a.challenges);
    case Rotated(b) =>
      var t := b.tokens[|a.tokens|];
      var s := a.tokens[raw := a.tokens[raw].(consumedAt := Some(now))];
      assert TokenOk(a, raw);
      forall f: nat ensures Latest(b.tokens, f) == if t.family == f then Some(|a.tokens|) else Latest(a.tokens, f) {
        LatestSnoc(s, t, f);
        LatestSame(s, a.tokens, f);
      }
      forall j | 0 <= j < |b.tokens| ensures TokenOk(b, j) {
        LatestSame(b.tokens[..j], a.tokens[..j], b.tokens[j].family);
        if j < |a.tokens| {
          assert TokenOk(a, j);
        } else {
          assert a.tokens[..j] == a.tokens;
        }
      }
  }

  // Revoking families and consuming challenges leaves the chains alone.
  lemma FamiliesKeep(a: Auth, families: seq<Family>, challenges: seq<Challenge>)
    requires AuthInv(a) && |families| == |a.families|
    requires forall f :: 0 <= f < |families| ==> families[f].expires == a.families[f].expires
    ensures AuthInv(a.(families := families, challenges := challenges))
  {
    hide Latest;
    var b := a.(families := families, challenges := challenges);
    forall j | 0 <= j < |b.tokens| ensures TokenOk(b, j) {
      assert TokenOk(a, j);
    }
  }

  // ---------------------------------------------------------------------
  // What the chains mean
  // ---------------------------------------------------------------------

  // Every family has one unconsumed token, and only one.
  lemma OneUnconsumed(a: Auth, f: nat) returns (k: nat)
    requires AuthInv(a) && f < |a.families|
    ensures k < |a.tokens| && a.tokens[k].family == f && a.tokens[k].consumedAt.None?
    ensures forall j :: 0 <= j < |a.tokens| && a.tokens[j].family == f && a.tokens[j].consumedAt.None? ==> j == k
  {
    k := Latest(a.tokens, f).value;
    assert TokenOk(a, k);
    forall j | 0 <= j < |a.tokens| && a.tokens[j].family == f && a.tokens[j].consumedAt.None? ensures j == k {
      assert TokenOk(a, j);
    }
  }

  // A token was exchanged within its family, for one token at most.
  lemma OneSuccessor(a: Auth, i: nat, j: nat)
    requires AuthInv(a) && i < j < |a.tokens| && a.tokens[i].parent.Some?
    ensures a.tokens[j].parent != a.tokens[i].parent
    ensures a.tokens[i].parent.value < i && a.tokens[a.tokens[i].parent.value].family == a.tokens[i].family
  {
    assert TokenOk(a, i) && TokenOk(a, j);
    var p := a.tokens[i].parent.value;
    assert a.tokens[..i][p] == a.tokens[p];
    if a.tokens[j].parent == Some(p) {
      assert false;
    }
  }

  // A token is consumed exactly when it has been exchanged.
  lemma ConsumedHasSuccessor(a: Auth, p: nat) returns (j: Option<nat>)
    requires AuthInv(a) && p < |a.tokens|
    ensures j.Some? <==> a.tokens[p].consumedAt.Some?
    ensures j.Some? ==> p < j.value < |a.tokens| && a.tokens[j.value].parent == Some(p)
    ensures j.None? ==> forall i :: 0 <= i < |a.tokens| ==> a.tokens[i].parent != Some(p)
  {
    assert TokenOk(a, p);
    var f := a.tokens[p].family;
    if a.tokens[p].consumedAt.Some? {
      var k := NextInFamily(a.tokens, p);
      assert TokenOk(a, k);
      assert a.tokens[..k][p] == a.tokens[p];
      var q := a.tokens[k].parent.value;
      assert a.tokens[..k][q] == a.tokens[q];
      j := Some(k);
    } else {
      j := None;
      forall i | 0 <= i < |a.tokens| ensures a.tokens[i].parent != Some(p) {
        assert TokenOk(a, i);
        if a.tokens[i].parent == Some(p) {
          assert false;
        }
      }
    }
  }

  lemma NextInFamily(tokens: seq<Refresh>, p: nat) returns (k: nat)
    requires p < |tokens| && Latest(tokens, tokens[p].family) != Some(p)
    ensures p < k < |tokens| && tokens[k].family == tokens[p].family
    ensures forall m :: p < m < k ==> tokens[m].family != tokens[p].family
  {
    hide Latest;
    k := p + 1;
    while k < |tokens| && tokens[k].family != tokens[p].family
      invariant p < k <= |tokens|
      invariant forall m :: p < m < k ==> tokens[m].family != tokens[p].family
    {
      k := k + 1;
    }
  }

  // ---------------------------------------------------------------------
  // Revocation is for good
  // ---------------------------------------------------------------------

  predicate FamilyGrows(f: Family, g: Family) {
    g == f.(revoked := g.revoked) && (f.revoked ==> g.revoked)
  }

  predicate TokenGrows(t: Refresh, u: Refresh) {
    u == t.(consumedAt := u.consumedAt) && (t.consumedAt.Some? ==> u.consumedAt == t.consumedAt)
  }

  predicate ChallengeGrows(c: Challenge, d: Challenge) {
    d == c.(consumedAt := d.consumedAt) && (c.consumedAt.Some? ==> d.consumedAt == c.consumedAt)
  }

  predicate AuthGrows(a: Auth, b: Auth) {
    && |a.families| <= |b.families| && |a.tokens| <= |b.tokens| && |a.challenges| <= |b.challenges|
    && (forall i :: 0 <= i < |a.families| ==> FamilyGrows(a.families[i], b.families[i]))
    && (forall i :: 0 <= i < |a.tokens| ==> TokenGrows(a.tokens[i], b.tokens[i]))
    && (forall i :: 0 <= i < |a.challenges| ==> ChallengeGrows(a.challenges[i], b.challenges[i]))
  }

  lemma AuthGrowsTransitive(a: Auth, b: Auth, c: Auth)
    requires AuthGrows(a, b) && AuthGrows(b, c)
    ensures AuthGrows(a, c)
  {
    forall i | 0 <= i < |a.families| ensures FamilyGrows(a.families[i], c.families[i]) {
      assert FamilyGrows(a.families[i], b.families[i]) && FamilyGrows(b.families[i], c.families[i]);
    }
    forall i | 0 <= i < |a.tokens| ensures TokenGrows(a.tokens[i], c.tokens[i]) {
      assert TokenGrows(a.tokens[i], b.tokens[i]) && TokenGrows(b.tokens[i], c.tokens[i]);
    }
    forall i | 0 <= i < |a.challenges| ensures ChallengeGrows(a.challenges[i], c.challenges[i]) {
      assert ChallengeGrows(a.challenges[i], b.challenges[i]) && ChallengeGrows(b.challenges[i], c.challenges[i]);
    }
  }

  // A token presented again after the grace period takes its family with it:
  // from then on no token of the family is honoured, whatever happens between.
  lemma ReuseEndsFamily(r: Rows, a: Auth, raw: nat, beneficiary: bool, epoch: string, now: Time,
                        s: Rows, b: Auth, other: nat, otherRole: bool, otherEpoch: string, later: Time)
    requires AuthInv(a) && Rotate(r, a, raw, beneficiary, epoch, now).Reused?
    requires AuthGrows(Rotate(r, a, raw, beneficiary, epoch, now).auth, b)
    requires other < |b.tokens| && b.tokens[other].family == a.tokens[raw].family
    ensures Rotate(s, b, other, otherRole, otherEpoch, later) == Denied(Unauthorized)
  {
    hide AuthInv, PrincipalStands;
    var f := a.tokens[raw].family;
    var c := Rotate(r, a, raw, beneficiary, epoch, now).auth;
    assert c.families[f].revoked;
    assert FamilyGrows(c.families[f], b.families[f]);
  }
}
