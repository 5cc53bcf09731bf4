// The whole system around one vault: every committed transaction of the
// routes, the checker, the delivery worker and the sign-in endpoints.

module Worlds {
  import opened Wrappers
  import opened Tables
  import opened Beneficiaries
  import opened Requests
  import opened Release
  import opened BoxInvariants
  import Ceremonies
  import Readiness
  import Heartbeat
  import D = Delivery
  import S = Sessions

  const START: World := World(FRESH, EMPTY_BOX, S.NO_AUTH)

  // listing is the order in which the database returns the beneficiaries, at
  // the time a revocation is stamped with.
  datatype Step =
    | Route(request: Request, listing: seq<int>, sms: bool, epoch: string, at: Time)
    | Deliver(work: D.Work)
    | SignIn(user: int, epoch: string, now: Time)
    | RefreshSession(raw: nat, beneficiary: bool, epoch: string, now: Time)
    | SignOut(raw: nat, beneficiary: bool)
    | SignOutEverywhere(id: int, now: Time)
    | AskLink(id: int, email: string, only: Option<int>, found: bool, epoch: string, now: Time)
    | RedeemLink(challenge: nat, epoch: string, now: Time)

  // What the request, committed as s, does to sessions and sign-in links.
  function Signed(r: Rows, s: Rows, a: Auth, q: Request, epoch: string, at: Time): Auth {
    match q
    case InvitePerson(id, token, now) => S.RevokeBeneficiary(a, id, at)
    case UpdatePerson(id, change) =>
      if id in r.people && ChangesContact(r, id, change) then S.RevokeBeneficiary(a, id, at) else a
    case DeletePerson(id) => S.RevokeBeneficiary(a, id, at)
    case AcceptInvitation(id, token, now) =>
      if id in s.people && s.people[id].invitation == Accepted then
        S.Issue(a, BeneficiaryAt(id, s.people[id].contactRevision), epoch, now)
      else a
    case _ => a
  }

  predicate ReadsListing(q: Request) {
    q.Trigger? || q.Check?
  }

  function Routed(w: World, q: Request, listing: seq<int>, sms: bool, epoch: string, at: Time): World {
    match Apply(w.rows, q)
    case Refused(_) => w
    case Done(s) =>
      if ReadsListing(q) && !Lists(listing, s.people) then w  // no query returns such a listing
      else World(s, Announced(w.rows, s, w.box, q, listing, sms), Signed(w.rows, s, w.auth, q, epoch, at))
  }

  function Rotated(w: World, raw: nat, beneficiary: bool, epoch: string, now: Time): World {
    match S.Rotate(w.rows, w.auth, raw, beneficiary, epoch, now)
    case Denied(_) => w
    case Rotated(auth) => w.(auth := auth, rows := if beneficiary then Lock(w.rows) else w.rows)
    case Reused(auth) => w.(auth := auth, rows := if beneficiary then Lock(w.rows) else w.rows)
  }

  function LinkAsked(w: World, id: int, epoch: string, now: Time): World
    requires id in w.rows.people
  {
    var l := Lock(w.rows);
    World(l,
          D.Announce(w.box, Event(LoginEvent, l.status.version), [D.Addressee(PersonOf(l, id), Email)], now,
                     Some(now + S.LINK_LIFE)),
          S.AddChallenge(l, w.auth, id, epoch, now))
  }

  function NextWorld(w: World, step: Step): World {
    match step
    case Route(q, listing, sms, epoch, at) => Routed(w, q, listing, sms, epoch, at)
    case Deliver(work) => w.(box := D.Worked(w.rows, w.box, work))
    case SignIn(user, epoch, now) => w.(auth := S.Issue(w.auth, OwnerOf(user), epoch, now))
    case RefreshSession(raw, beneficiary, epoch, now) => Rotated(w, raw, beneficiary, epoch, now)
    case SignOut(raw, beneficiary) => w.(auth := S.RevokeCookie(w.auth, raw, beneficiary))
    case SignOutEverywhere(id, now) =>
      if id !in w.rows.people then w
      else World(Lock(w.rows), D.CancelRecipient(w.box, id), S.RevokeBeneficiary(w.auth, id, now))
    case AskLink(id, email, only, found, epoch, now) =>
      // found: the query without the lock, over all vaults, returned this one's beneficiary
      if !found then w
      else if S.LinkSent(w.rows, w.auth, id, email, only, now) then LinkAsked(w, id, epoch, now)
      else w.(rows := Lock(w.rows))
    case RedeemLink(c, epoch, now) =>
      if S.Redeemable(w.rows, w.auth, c, epoch, now) then
        w.(rows := Lock(w.rows), auth := S.Redeem(w.auth, c, epoch, now))
      else w
  }

  function AfterWorld(w: World, steps: seq<Step>): World
    decreases |steps|
  {
    if steps == [] then w else NextWorld(AfterWorld(w, steps[..|steps| - 1]), steps[|steps| - 1])
  }

  // ---------------------------------------------------------------------
  // The rows of a world run as a run of requests
  // ---------------------------------------------------------------------

  const NO_REQUEST: Request := RewrapKey(0, Bundle("", ""), false)

  // The request a step amounts to as far as the vault's rows are concerned.
  function RequestOf(w: World, step: Step): Request {
    match step
    case Route(q, listing, sms, epoch, at) => if Routed(w, q, listing, sms, epoch,
                                                        at).rows == w.rows then NO_REQUEST else q
    case _ => if NextWorld(w, step).rows == w.rows then NO_REQUEST else Touch
  }

  lemma RowsStep(w: World, step: Step)
    ensures NextWorld(w, step).rows == Next(w.rows, RequestOf(w, step))
  {
    hide Ceremonies.CreateDraft, Ceremonies.Finalize, Ceremonies.Cancel, Readiness.ReportDrill, Add, Invite, Update,
         AssignShare, Delete, Accept, Heartbeat.SaveHeartbeat, Heartbeat.CheckIn, Heartbeat.MoveToGrace,
         Heartbeat.TriggerVault, Heartbeat.CheckOne, Lists, Announced, Signed, D.Worked, S.Rotate, S.RevokeCookie,
         D.CancelRecipient, S.RevokeBeneficiary, D.Announce, S.Redeem, S.Redeemable, S.LinkSent, S.AddChallenge;
  }

  // What is proved of runs of requests holds of the rows of every world run.
  lemma {:induction false} RowsRun(w: World, steps: seq<Step>) returns (qs: seq<Request>)
    ensures |qs| == |steps| && AfterWorld(w, steps).rows == After(w.rows, qs)
    decreases |steps|
  {
    hide NextWorld, Next, RequestOf;
    if steps == [] {
      qs := [];
    } else {
      var n := |steps| - 1;
      var before := RowsRun(w, steps[..n]);
      var q := RequestOf(AfterWorld(w, steps[..n]), steps[n]);
      RowsStep(AfterWorld(w, steps[..n]), steps[n]);
      qs := before + [q];
      assert qs[..n] == before;
    }
  }
}
