// The system over whole runs.

module WorldRuns {
  import opened Wrappers
  import opened Tables
  import opened Beneficiaries
  import opened Requests
  import opened Release
  import opened Delivery
  import opened BoxInvariants
  import opened OutboxRuns
  import opened BoxLinks
  import opened Worlds
  import opened WorldInvariants
  import S = Sessions
  import RowInvariants

  ghost predicate WorldInv(w: World) {
    && RowInvariants.Inv(w.rows)
    && BoxGood(w.box) && Linked(w.rows, w.box)
    && S.AuthInv(w.auth) && SessionsOk(w.rows, w.auth)
  }

  lemma StartOk()
    ensures WorldInv(START)
  {
    RowInvariants.FreshValid();
    EmptyBoxOk();
    S.NoAuthOk();
    hide RowInvariants.Inv, BoxInv, S.AuthInv;
  }

  // ---------------------------------------------------------------------
  // Sessions, step by step
  // ---------------------------------------------------------------------

  // The change keeps chains and takes nothing back.
  predicate AuthMoves(a: Auth, b: Auth) {
    S.AuthGrows(a, b) && (S.AuthInv(a) ==> S.AuthInv(b))
  }

  lemma AuthStays(a: Auth)
    ensures AuthMoves(a, a)
  {
    hide S.AuthInv;
  }

  lemma AuthMovesOn(a: Auth, b: Auth, c: Auth)
    requires AuthMoves(a, b) && AuthMoves(b, c)
    ensures AuthMoves(a, c)
  {
    hide S.AuthInv, S.AuthGrows;
    S.AuthGrowsTransitive(a, b, c);
  }

  lemma IssueMoves(a: Auth, p: Principal, epoch: string, now: Time)
    ensures AuthMoves(a, S.Issue(a, p, epoch, now))
  {
    hide S.AuthInv;
    if S.AuthInv(a) {
      S.IssueKeeps(a, p, epoch, now);
    }
  }

  lemma RevokeMoves(a: Auth, id: int, now: Time)
    ensures AuthMoves(a, S.RevokeBeneficiary(a, id, now))
  {
    hide S.AuthInv;
    if S.AuthInv(a) {
      var b := S.RevokeBeneficiary(a, id, now);
      S.FamiliesKeep(a, b.families, b.challenges);
    }
  }

  lemma CookieMoves(a: Auth, raw: nat, beneficiary: bool)
    ensures AuthMoves(a, S.RevokeCookie(a, raw, beneficiary))
  {
    hide S.AuthInv;
    if S.AuthInv(a) {
      var b := S.RevokeCookie(a, raw, beneficiary);
      S.FamiliesKeep(a, b.families, b.challenges);
      assert b == a.(families := b.families, challenges := b.challenges);
    }
  }

  lemma RotateMoves(r: Rows, a: Auth, raw: nat, beneficiary: bool, epoch: string, now: Time)
    ensures AuthMoves(a, S.Rotate(r, a, raw, beneficiary, epoch, now).Or(a))
  {
    hide S.AuthInv, S.PrincipalStands;
    if S.AuthInv(a) {
      S.RotateKeeps(r, a, raw, beneficiary, epoch, now);
    }
  }

  lemma ChallengeMoves(r: Rows, a: Auth, id: int, epoch: string, now: Time)
    requires id in r.people
    ensures AuthMoves(a, S.AddChallenge(r, a, id, epoch, now))
  {
    hide S.AuthInv;
    if S.AuthInv(a) {
      ChallengesKeep(a, S.AddChallenge(r, a, id, epoch, now).challenges);
    }
  }

  lemma ChallengesKeep(a: Auth, challenges: seq<Challenge>)
    requires S.AuthInv(a)
    ensures S.AuthInv(a.(challenges := challenges))
  {
    hide S.AuthInv;
    S.FamiliesKeep(a, a.families, challenges);
    assert a.(families := a.families, challenges := challenges) == a.(challenges := challenges);
  }

  lemma RedeemMoves(a: Auth, c: nat, epoch: string, now: Time)
    requires c < |a.challenges| && a.challenges[c].consumedAt.None?
    ensures AuthMoves(a, S.Redeem(a, c, epoch, now))
  {
    hide S.AuthInv, S.Issue;
    var ch := a.challenges[c];
    var b := a.(challenges := a.challenges[c := ch.(consumedAt := Some(now))]);
    if S.AuthInv(a) {
      ChallengesKeep(a, b.challenges);
    }
    IssueMoves(b, BeneficiaryAt(ch.beneficiary, ch.contactRevision), epoch, now);
    assert AuthMoves(a, b);
    AuthMovesOn(a, b, S.Redeem(a, c, epoch, now));
  }

  lemma SignedMoves(r: Rows, s: Rows, a: Auth, q: Request, epoch: string, at: Time)
    ensures AuthMoves(a, Signed(r, s, a, q, epoch, at))
  {
    hide AuthMoves, S.RevokeBeneficiary, S.Issue, ChangesContact;
    AuthStays(a);
    match q
    case InvitePerson(id, token, now) => RevokeMoves(a, id, at);
    case UpdatePerson(id, change) => RevokeMoves(a, id, at);
    case DeletePerson(id) => RevokeMoves(a, id, at);
    case AcceptInvitation(id, token, now) =>
      if id in s.people {
        IssueMoves(a, BeneficiaryAt(id, s.people[id].contactRevision), epoch, now);
      }
    case _ =>
  }

  lemma LockSessions(r: Rows, a: Auth)
    requires SessionsOk(r, a)
    ensures SessionsOk(Lock(r), a)
  {
  }

  lemma RotateSessions(r: Rows, a: Auth, raw: nat, beneficiary: bool, epoch: string, now: Time)
    requires SessionsOk(r, a)
    ensures SessionsOk(r, S.Rotate(r, a, raw, beneficiary, epoch, now).Or(a))
  {
    hide S.PrincipalStands, S.Entitled, S.ValidFamily;
  }

  lemma CookieSessions(r: Rows, a: Auth, raw: nat, beneficiary: bool)
    requires SessionsOk(r, a)
    ensures SessionsOk(r, S.RevokeCookie(a, raw, beneficiary))
  {
    hide S.PrincipalStands, S.Entitled;
  }

  lemma ChallengeSessions(r: Rows, a: Auth, id: int, epoch: string, now: Time)
    requires SessionsOk(r, a) && id in r.people && r.people[id].invitation == Accepted
    ensures SessionsOk(r, S.AddChallenge(r, a, id, epoch, now))
  {
    hide S.PrincipalStands;
  }

  lemma RedeemSessions(r: Rows, a: Auth, c: nat, epoch: string, now: Time)
    requires SessionsOk(r, a) && S.Redeemable(r, a, c, epoch, now)
    ensures SessionsOk(r, S.Redeem(a, c, epoch, now))
  {
    hide S.Entitled, S.Issue;
    var ch := a.challenges[c];
    IssueSessions(r, a.(challenges := a.challenges[c := ch.(consumedAt := Some(now))]),
                  BeneficiaryAt(ch.beneficiary, ch.contactRevision), epoch, now);
  }

  // ---------------------------------------------------------------------
  // Locks taken by sign-ins
  // ---------------------------------------------------------------------

  lemma LockLinked(r: Rows, b: Outbox)
    requires Linked(r, b)
    ensures Linked(Lock(r), b)
  {
    hide Linked, Steady, ReleaseOk, EventsOk, GraceOk, KeysOk;
    LinkedParts(r, b);
    LockMoves(r);
    assert ContactOk(Lock(r), b);
    MoveLinked(r, Lock(r), b);
  }

  lemma LinkAskedOk(w: World, id: int, epoch: string, now: Time)
    requires WorldInv(w) && id in w.rows.people && w.rows.people[id].invitation == Accepted
    ensures WorldInv(LinkAsked(w, id, epoch, now))
    ensures Grows(w.box, LinkAsked(w, id, epoch, now).box) && AuthMoves(w.auth, LinkAsked(w, id, epoch, now).auth)
  {
    hide RowInvariants.Inv, Linked, BoxInv, OnceInv, S.AuthInv, SessionsOk, Announce, S.AddChallenge, Grows,
        S.AuthGrows;
    var l := Lock(w.rows);
    var e := Event(LoginEvent, l.status.version);
    RowInvariants.TouchKeeps(w.rows);
    LockLinked(w.rows, w.box);
    OneLinked(w.rows, l, w.box, LoginEvent, id, now, Some(now + S.LINK_LIFE));
    AnnounceGood(w.box, e, [Addressee(PersonOf(l, id), Email)], now, Some(now + S.LINK_LIFE));
    LockSessions(w.rows, w.auth);
    ChallengeSessions(l, w.auth, id, epoch, now);
    ChallengeMoves(l, w.auth, id, epoch, now);
  }

  // ---------------------------------------------------------------------
  // Every step
  // ---------------------------------------------------------------------

  ghost predicate Moves(w: World, v: World) {
    WorldInv(v) && Grows(w.box, v.box) && AuthMoves(w.auth, v.auth)
  }

  lemma Stays(w: World)
    requires WorldInv(w)
    ensures Moves(w, w)
  {
    hide WorldInv, Grows, AuthMoves;
    GrowsReflexive(w.box);
    AuthStays(w.auth);
  }

  lemma RouteMoves(w: World, q: Request, listing: seq<int>, sms: bool, epoch: string, at: Time)
    requires WorldInv(w)
    ensures Moves(w, Routed(w, q, listing, sms, epoch, at))
  {
    hide Linked, BoxInv, OnceInv, S.AuthInv, SessionsOk, Grows, S.AuthGrows, Announced, Signed, Apply, Lists,
        RowInvariants.Inv;
    Stays(w);
    if Apply(w.rows, q).Done? && (ReadsListing(q) ==> Lists(listing, Apply(w.rows, q).rows.people)) {
      RowInvariants.NextKeeps(w.rows, q);
      RouteLinked(w.rows, q, w.box, listing, sms);
      AnnouncedGood(w.rows, Next(w.rows, q), w.box, q, listing, sms);
      SignedKeeps(w.rows, q, w.auth, epoch, at);
      SignedMoves(w.rows, Next(w.rows, q), w.auth, q, epoch, at);
    }
  }

  lemma WorkMoves(w: World, work: Work)
    requires WorldInv(w)
    ensures Moves(w, w.(box := Worked(w.rows, w.box, work)))
  {
    hide Linked, BoxInv, OnceInv, S.AuthInv, SessionsOk, Grows, S.AuthGrows, RowInvariants.Inv, Worked, Onward;
    WorkKeeps(w.rows, w.box, work);
    OnceAfterWork(w.rows, w.box, work);
    WorkGrows(w.rows, w.box, work);
    WorkOnward(w.rows, w.box, work);
    OnwardLinked(w.rows, w.box, Worked(w.rows, w.box, work));
    AuthStays(w.auth);
  }

  lemma RefreshMoves(w: World, raw: nat, beneficiary: bool, epoch: string, now: Time)
    requires WorldInv(w)
    ensures Moves(w, Rotated(w, raw, beneficiary, epoch, now))
  {
    hide Linked, BoxInv, OnceInv, S.AuthInv, SessionsOk, Grows, S.AuthGrows, RowInvariants.Inv, S.Rotate;
    GrowsReflexive(w.box);
    RowInvariants.TouchKeeps(w.rows);
    LockLinked(w.rows, w.box);
    RotateMoves(w.rows, w.auth, raw, beneficiary, epoch, now);
    RotateSessions(w.rows, w.auth, raw, beneficiary, epoch, now);
    LockSessions(w.rows, S.Rotate(w.rows, w.auth, raw, beneficiary, epoch, now).Or(w.auth));
  }

  lemma EverywhereMoves(w: World, id: int, now: Time)
    requires WorldInv(w) && id in w.rows.people
    ensures Moves(w, World(Lock(w.rows), CancelRecipient(w.box, id), S.RevokeBeneficiary(w.auth, id, now)))
  {
    hide Linked, BoxInv, OnceInv, S.AuthInv, SessionsOk, Grows, S.AuthGrows, RowInvariants.Inv, CancelRecipient, Silent,
         S.RevokeBeneficiary, SignedOut, Onward;
    RowInvariants.TouchKeeps(w.rows);
    RecipientGood(w.box, id);
    CancelSilences(w.box, id);
    OnwardLinked(w.rows, w.box, CancelRecipient(w.box, id));
    LockLinked(w.rows, CancelRecipient(w.box, id));
    RevokeMoves(w.auth, id, now);
    RevokeSignsOut(w.rows, w.auth, id, now);
    LockSessions(w.rows, S.RevokeBeneficiary(w.auth, id, now));
  }

  lemma RedeemStep(w: World, c: nat, epoch: string, now: Time)
    requires WorldInv(w) && S.Redeemable(w.rows, w.auth, c, epoch, now)
    ensures Moves(w, w.(rows := Lock(w.rows), auth := S.Redeem(w.auth, c, epoch, now)))
  {
    hide Linked, BoxInv, OnceInv, S.AuthInv, SessionsOk, Grows, S.AuthGrows, RowInvariants.Inv, S.Redeem, S.Entitled;
    GrowsReflexive(w.box);
    RowInvariants.TouchKeeps(w.rows);
    LockLinked(w.rows, w.box);
    RedeemMoves(w.auth, c, epoch, now);
    RedeemSessions(w.rows, w.auth, c, epoch, now);
    LockSessions(w.rows, S.Redeem(w.auth, c, epoch, now));
  }

  lemma SignInMoves(w: World, user: int, epoch: string, now: Time)
    requires WorldInv(w)
    ensures Moves(w, w.(auth := S.Issue(w.auth, OwnerOf(user), epoch, now)))
  {
    hide Linked, BoxInv, OnceInv, S.AuthInv, SessionsOk, Grows, S.AuthGrows, RowInvariants.Inv, S.Issue;
    GrowsReflexive(w.box);
    IssueMoves(w.auth, OwnerOf(user), epoch, now);
    IssueSessions(w.rows, w.auth, OwnerOf(user), epoch, now);
  }

  lemma SignOutMoves(w: World, raw: nat, beneficiary: bool)
    requires WorldInv(w)
    ensures Moves(w, w.(auth := S.RevokeCookie(w.auth, raw, beneficiary)))
  {
    hide Linked, BoxInv, OnceInv, S.AuthInv, SessionsOk, Grows, S.AuthGrows, RowInvariants.Inv, S.RevokeCookie;
    GrowsReflexive(w.box);
    CookieMoves(w.auth, raw, beneficiary);
    CookieSessions(w.rows, w.auth, raw, beneficiary);
  }

  lemma LockStepMoves(w: World)
    requires WorldInv(w)
    ensures Moves(w, w.(rows := Lock(w.rows)))
  {
    hide Linked, BoxInv, OnceInv, S.AuthInv, SessionsOk, Grows, S.AuthGrows, RowInvariants.Inv;
    GrowsReflexive(w.box);
    AuthStays(w.auth);
    RowInvariants.TouchKeeps(w.rows);
    LockLinked(w.rows, w.box);
    LockSessions(w.rows, w.auth);
  }

  lemma StepMoves(w: World, step: Step)
    requires WorldInv(w)
    ensures Moves(w, NextWorld(w, step))
  {
    hide WorldInv, Moves, Routed, Rotated, LinkAsked, Worked, S.Issue, S.RevokeCookie, S.RevokeBeneficiary,
        CancelRecipient,
         S.Redeem, S.Redeemable, Lock;
    Stays(w);
    match step
    case Route(q, listing, sms, epoch, at) => RouteMoves(w, q, listing, sms, epoch, at);
    case Deliver(work) => WorkMoves(w, work);
    case SignIn(user, epoch, now) => SignInMoves(w, user, epoch, now);
    case RefreshSession(raw, beneficiary, epoch, now) => RefreshMoves(w, raw, beneficiary, epoch, now);
    case SignOut(raw, beneficiary) => SignOutMoves(w, raw, beneficiary);
    case SignOutEverywhere(id, now) =>
      if id in w.rows.people { EverywhereMoves(w, id, now); }
    case AskLink(id, email, only, found, epoch, now) =>
      LockStepMoves(w);
      if S.LinkSent(w.rows, w.auth, id, email, only, now) { AskMoves(w, id, email, only, epoch, now); }
    case RedeemLink(c, epoch, now) =>
      if S.Redeemable(w.rows, w.auth, c, epoch, now) { RedeemStep(w, c, epoch, now); }
  }

  lemma AskMoves(w: World, id: int, email: string, only: Option<int>, epoch: string, now: Time)
    requires WorldInv(w) && S.LinkSent(w.rows, w.auth, id, email, only, now)
    ensures Moves(w, LinkAsked(w, id, epoch, now))
  {
    hide WorldInv, LinkAsked, Grows, AuthMoves, S.RecentLink;
    LinkAskedOk(w, id, epoch, now);
  }

  // ---------------------------------------------------------------------
  // Every run
  // ---------------------------------------------------------------------

  lemma MovesOn(w: World, v: World, u: World)
    requires Moves(w, v) && Moves(v, u)
    ensures Moves(w, u)
  {
    hide WorldInv, Grows, AuthMoves;
    GrowsTransitive(w.box, v.box, u.box);
    AuthMovesOn(w.auth, v.auth, u.auth);
  }

  lemma MovesValid(w: World, v: World)
    requires Moves(w, v)
    ensures WorldInv(v)
  {
  }

  lemma {:induction false} RunMoves(w: World, steps: seq<Step>)
    requires WorldInv(w)
    ensures Moves(w, AfterWorld(w, steps))
    decreases |steps|
  {
    hide WorldInv, Moves, NextWorld;
    Stays(w);
    if steps != [] {
      var v := AfterWorld(w, steps[..|steps| - 1]);
      RunMoves(w, steps[..|steps| - 1]);
      MovesValid(w, v);
      StepMoves(v, steps[|steps| - 1]);
      MovesOn(w, v, NextWorld(v, steps[|steps| - 1]));
    }
  }

  predicate Runs(w: World, steps: seq<Step>, u: World) {
    AfterWorld(w, steps) == u
  }

  // Some run leads from w to u.
  ghost predicate Later(w: World, u: World) {
    exists steps :: Runs(w, steps, u)
  }

  ghost predicate Reachable(w: World) {
    Later(START, w)
  }

  lemma LaterMoves(w: World, u: World)
    requires WorldInv(w) && Later(w, u)
    ensures Moves(w, u)
  {
    hide WorldInv, AfterWorld, Moves;
    var steps :| Runs(w, steps, u);
    RunMoves(w, steps);
  }

  lemma LaterRows(w: World, u: World) returns (qs: seq<Request>)
    requires Later(w, u)
    ensures u.rows == After(w.rows, qs)
  {
    hide AfterWorld, After;
    var steps :| Runs(w, steps, u);
    qs := RowsRun(w, steps);
  }

  // Every reachable state satisfies every invariant.
  lemma ReachableWorld(w: World)
    requires Reachable(w)
    ensures WorldInv(w)
  {
    hide WorldInv, Later, Grows, AuthMoves;
    StartOk();
    LaterMoves(START, w);
  }
}
