// The guarantees are not about nothing: whatever the policy, some run makes a
// vault ready, and the owner or the clock then releases it.

module Rehearsal {
  import opened Wrappers
  import opened Tables
  import opened Ceremonies
  import opened Readiness
  import opened Beneficiaries
  import opened Heartbeat
  import opened Requests
  import opened Release
  import opened Delivery
  import opened Worlds
  import opened WorldRuns
  import opened Guarantees
  import opened RowInvariants
  import opened SwitchRules
  import ReleaseRuns

  function FirstGeneration(): Generation {
    seq(32, _ => '0')
  }

  const KEY: Bundle := Bundle("", "")

  function EmailOf(i: nat): string {
    seq(i + 1, _ => 'a')
  }

  function Holder(i: nat): Beneficiary {
    Beneficiary(EmailOf(i), None, Some(i + 1), 1, Some(FirstGeneration()), Accepted, None, Some(0))
  }

  function Holders(m: nat): map<int, Beneficiary> {
    map i: int | 0 <= i < m :: Holder(i)
  }

  // A k-of-n vault after one ceremony, with m people holding accepted shares.
  function Formed(k: int, n: int, version: nat, m: nat, drill: Option<Drill>): Rows {
    Rows(Vault(Some(KEY), 1, k, n, Some(FirstGeneration()), Ready), Status(Active, version, false, 0, None, None),
         None, [Ceremony(FirstGeneration(), k, n, Finalized, 0, None, drill)], Holders(m))
  }

  // ---------------------------------------------------------------------
  // The ceremony
  // ---------------------------------------------------------------------

  function Draft(k: int, n: int): Request {
    DraftCeremony(DraftRequest(0, FirstGeneration(), k, n, Some(InitialMaterial(KEY, 0, true))))
  }

  function Finalization(n: nat): Request {
    FinalizeCeremony(0, seq(n, i => i + 1))
  }

  function Drafted(k: int, n: int): Rows {
    Rows(FRESH.vault.(setup := Drafting), FRESH.status.(version := 2), None,
         [Ceremony(FirstGeneration(), k, n, CeremonyStatus.Draft, 0, Some(KEY), None)], map[])
  }

  lemma DraftTaken(k: int, n: nat)
    requires 1 <= k <= n <= 10
    ensures Next(FRESH, Draft(k, n)) == Drafted(k, n)
  {
    assert CancelDrafts([]) == [];
    assert Canonical(FirstGeneration());
    hide Canonical, FirstGeneration;
  }

  lemma Held(k: int, n: nat)
    requires 1 <= k <= n <= 10
    ensures Next(Next(FRESH, Draft(k, n)), Finalization(n)) == Formed(k, n, 3, 0, None)
  {
    hide FirstGeneration, Acknowledged, Draft;
    DraftTaken(k, n);
    FinalizationHolds(n);
    var row := Drafted(k, n).ceremonies[0];
    assert Supersede([row]) == [row];
    assert Unassign(map[]) == Holders(0);
    assert [row][0 := row.(status := Finalized, pending := None)] == Formed(k, n, 3, 0, None).ceremonies;
  }

  lemma FinalizationHolds(n: nat)
    ensures Acknowledged(Finalization(n).indexes, n)
  {
    forall i | 1 <= i <= n ensures i in Finalization(n).indexes {
      assert Finalization(n).indexes[i - 1] == i;
    }
  }

  // ---------------------------------------------------------------------
  // The people
  // ---------------------------------------------------------------------

  function Enrolment(m: nat): Request {
    AddPerson(m, NewPerson(EmailOf(m), None, Some(m + 1)), 20)
  }

  lemma {:induction false} HoldersSize(m: nat)
    ensures |Holders(m)| == m
    decreases m
  {
    if m > 0 {
      HoldersSize(m - 1);
      assert Holders(m) == Holders(m - 1)[m - 1 := Holder(m - 1)];
    }
  }

  function Joined(m: nat): Beneficiary {
    Holder(m).(invitation := Pending, sentAt := None)
  }

  lemma Joins(r: Rows, k: int, n: int, version: nat, m: nat)
    requires m < n <= 10 && r == Formed(k, n, version, m, None)
    ensures Next(r, Enrolment(m)) == Lock(r).(people := r.people[m := Joined(m)])
  {
    HoldersSize(m);
    forall b | b in r.people ensures r.people[b].email != EmailOf(m) {
      assert |r.people[b].email| == b + 1;
    }
    assert !EmailTaken(Lock(r), EmailOf(m), None) && !IndexTaken(Lock(r), m + 1, None);
  }

  lemma Accepts(r: Rows, m: nat)
    requires m in r.people && r.people[m] == Joined(m)
    ensures Next(Next(r, InvitePerson(m, 0, 0)), AcceptInvitation(m, 0, 0))
            == Lock(Lock(r)).(people := r.people[m := Holder(m)])
  {
    hide EmailOf, FirstGeneration;
    var invited := Joined(m).(invitation := Invitation.Sent, token := Some(0), sentAt := Some(0));
    assert Next(r, InvitePerson(m, 0, 0)) == Lock(r).(people := r.people[m := invited]);
    assert r.people[m := invited][m := Holder(m)] == r.people[m := Holder(m)];
  }

  lemma Enrolled(k: int, n: int, version: nat, m: nat)
    requires m < n <= 10
    ensures var r := Formed(k, n, version, m, None);
            Next(Next(Next(r, Enrolment(m)), InvitePerson(m, 0, 0)), AcceptInvitation(m, 0, 0))
            == Formed(k, n, version + 3, m + 1, None)
  {
    hide Next, Holder, Joined;
    var r := Formed(k, n, version, m, None);
    Joins(r, k, n, version, m);
    Accepts(Lock(r).(people := r.people[m := Joined(m)]), m);
    assert r.people[m := Joined(m)][m := Holder(m)] == Holders(m + 1);
  }

  function Run(k: int, n: nat, m: nat): seq<Request>
    decreases m
  {
    if m == 0 then [Draft(k, n), Finalization(n)]
    else Run(k, n, m - 1) + [Enrolment(m - 1), InvitePerson(m - 1, 0, 0), AcceptInvitation(m - 1, 0, 0)]
  }

  lemma AfterMore(r: Rows, qs: seq<Request>, q: Request)
    ensures After(r, qs + [q]) == Next(After(r, qs), q)
  {
    hide Next;
    assert (qs + [q])[..|qs|] == qs;
  }

  lemma {:induction false} RunForms(k: int, n: nat, m: nat)
    requires 1 <= k <= n <= 10 && m <= n
    ensures After(FRESH, Run(k, n, m)) == Formed(k, n, 3 + 3 * m, m, None)
    decreases m
  {
    hide Next, Formed, After;
    if m == 0 {
      Held(k, n);
      AfterMore(FRESH, [Draft(k, n)], Finalization(n));
      AfterMore(FRESH, [], Draft(k, n));
      assert [Draft(k, n)] + [Finalization(n)] == Run(k, n, 0) && [] + [Draft(k, n)] == [Draft(k, n)];
      AfterNone(FRESH);
    } else {
      var p, add, invite, accept :=
        Run(k, n, m - 1), Enrolment(m - 1), InvitePerson(m - 1, 0, 0), AcceptInvitation(m - 1, 0, 0);
      RunForms(k, n, m - 1);
      Enrolled(k, n, 3 + 3 * (m - 1), m - 1);
      AfterMore(FRESH, p, add);
      AfterMore(FRESH, p + [add], invite);
      AfterMore(FRESH, p + [add] + [invite], accept);
      assert p + [add] + [invite] + [accept] == Run(k, n, m);
    }
  }

  lemma AfterNone(r: Rows)
    ensures After(r, []) == r
  {
  }

  // ---------------------------------------------------------------------
  // The drill
  // ---------------------------------------------------------------------

  function Rehearsed(m: nat, k: int, n: int): Drill {
    Drill(1, BindingOf(Formed(k, n, 0, m, None)), FirstGeneration())
  }

  function UpTo(m: nat): (s: set<int>)
    ensures |s| == m && forall x :: x in s <==> 1 <= x <= m
  {
    if m == 0 then {} else UpTo(m - 1) + {m}
  }

  lemma EnoughHold(k: int, n: int, version: nat, m: nat, drill: Option<Drill>)
    ensures |Eligible(Formed(k, n, version, m, drill))| == m
  {
    var r := Formed(k, n, version, m, drill);
    forall x | x in UpTo(m) ensures x in Eligible(r) {
      assert Holds(r, x - 1) && r.people[x - 1].index.value == x;
    }
    assert Eligible(r) == UpTo(m);
  }

  lemma DrillReadies(k: int, n: int, version: nat, m: nat)
    requires 1 <= k <= n && k <= m
    ensures var s := Next(Formed(k, n, version, m, None), ReportRecovery(Rehearsed(m, k, n)));
            s == Formed(k, n, version + 1, m, Some(Rehearsed(m, k, n))) && ReleaseReady(s)
  {
    hide Eligible;
    var r, d := Formed(k, n, version, m, None), Rehearsed(m, k, n);
    var s := Formed(k, n, version + 1, m, Some(d));
    assert BindingOf(Lock(r)) == d.binding == BindingOf(s);
    assert FirstGeneration() != "";
    assert IsCurrent(Lock(r), 0) && IsCurrent(s, 0);
    EnoughHold(k, n, version + 1, m, Some(d));
  }

  // ---------------------------------------------------------------------
  // In the system
  // ---------------------------------------------------------------------

  function Served(q: Request): Step {
    Route(q, [], false, "", 0)
  }

  function AllServed(qs: seq<Request>): seq<Step> {
    seq(|qs|, i requires 0 <= i < |qs| => Served(qs[i]))
  }

  lemma ServedRows(w: World, q: Request)
    requires !ReadsListing(q)
    ensures NextWorld(w, Served(q)).rows == Next(w.rows, q)
  {
    hide Apply, Announced, Signed;
  }

  lemma {:induction false} RowsServed(qs: seq<Request>)
    requires forall i :: 0 <= i < |qs| ==> !ReadsListing(qs[i])
    ensures AfterWorld(START, AllServed(qs)).rows == After(FRESH, qs)
    decreases |qs|
  {
    hide NextWorld, Next;
    if qs != [] {
      var n := |qs| - 1;
      RowsServed(qs[..n]);
      assert AllServed(qs)[..n] == AllServed(qs[..n]);
      ServedRows(AfterWorld(START, AllServed(qs[..n])), qs[n]);
    }
  }

  lemma {:induction false} RunUnlisted(k: int, n: nat, m: nat)
    ensures forall i :: 0 <= i < |Run(k, n, m)| ==> !ReadsListing(Run(k, n, m)[i])
    decreases m
  {
    if m > 0 {
      RunUnlisted(k, n, m - 1);
    }
  }

  function Rehearsal(k: nat, n: nat): seq<Request> {
    Run(k, n, k) + [ReportRecovery(Rehearsed(k, k, n))]
  }

  // Every policy: k people are enrolled, invited and accept, and a drill is
  // reported; the vault is then ready.
  lemma ReadyReachable(k: nat, n: nat) returns (w: World)
    requires 1 <= k <= n <= 10
    ensures Reachable(w) && ReleaseReady(w.rows) && w.rows.vault.threshold == k && w.rows.vault.total == n
    ensures w.rows == Formed(k, n, 4 + 3 * k, k, Some(Rehearsed(k, k, n)))
  {
    hide Next, Run, After, AfterWorld, ReleaseReady, Rehearsed;
    w := AfterWorld(START, AllServed(Rehearsal(k, n)));
    assert Runs(START, AllServed(Rehearsal(k, n)), w);
    RunUnlisted(k, n, k);
    RowsServed(Rehearsal(k, n));
    AfterMore(FRESH, Run(k, n, k), ReportRecovery(Rehearsed(k, k, n)));
    RunForms(k, n, k);
    DrillReadies(k, n, 3 + 3 * k, k);
  }

  function Listing(m: nat): seq<int> {
    seq(m, i => i)
  }

  lemma ListingHolds(m: nat)
    ensures Lists(Listing(m), Holders(m))
  {
    forall b | b in Holders(m) ensures b in Listing(m) {
      assert Listing(m)[b] == b;
    }
  }

  lemma ReleaseServed(w: World, q: Request, listing: seq<int>, sms: bool)
    requires ReadsListing(q) && Apply(w.rows, q).Done? && Lists(listing, Apply(w.rows, q).rows.people)
    ensures NextWorld(w, Route(q, listing, sms, "", 0)).rows == Apply(w.rows, q).rows
  {
    hide Apply, Announced, Signed, Lists;
  }

  lemma TriggerReleases(r: Rows, now: Time)
    requires ReleaseReady(r) && r.status.state != Triggered
    ensures var reply := Apply(r, Trigger(Manual, now, false));
            reply.Done? && reply.rows.status.state == Triggered && reply.rows.people == r.people
  {
    ReadyLocked(r);
    hide ReleaseReady;
  }

  lemma ReadyLocked(r: Rows)
    ensures ReleaseReady(Lock(r)) <==> ReleaseReady(r)
  {
    hide ReleaseReady;
    ReleaseRuns.ReadyIgnoresSwitch(r, Lock(r));
  }

  // And its owner can release it.
  lemma OwnerCanRelease(k: nat, n: nat, now: Time, sms: bool) returns (w: World, step: Step)
    requires 1 <= k <= n <= 10
    ensures Reachable(w) && w.rows.vault.threshold == k && w.rows.vault.total == n
    ensures ReleasesNow(w, step) && step.request == Trigger(Manual, now, false)
  {
    hide ReleaseReady, NextWorld, Apply, Lists, Listing, Rehearsed, AfterWorld, Later;
    w := ReadyReachable(k, n);
    step := Route(Trigger(Manual, now, false), Listing(k), sms, "", 0);
    TriggerReleases(w.rows, now);
    ListingHolds(k);
    ReleaseServed(w, step.request, Listing(k), sms);
  }

  lemma CheckInArms(r: Rows, now: Time)
    requires ReleaseReady(r) && r.status == Status(Active, r.status.version, false, 0, None, None) && r.config.None?
    ensures var s := Next(r, RecordCheckIn(now));
            && s == r.(status := s.status, config := Some(Config(30, 7, Some(now)))) && ReleaseReady(s)
            && s.status.state == Active && s.status.armed
  {
    ReadyLocked(r);
    ReleaseRuns.ReadyIgnoresSwitch(r, Next(r, RecordCheckIn(now)));
    hide ReleaseReady;
  }

  lemma CheckReleases(r: Rows, now: Time, later: Time)
    requires ReleaseReady(r) && r.status.state == Active && r.status.armed
    requires r.config == Some(Config(30, 7, Some(now))) && later >= now + 37 * DAY
    ensures var reply := Apply(r, Check(later, false));
            reply.Done? && reply.rows.status.state == Triggered && reply.rows.people == r.people
  {
    ReadyLocked(r);
    hide ReleaseReady;
  }

  lemma MoreReachable(w: World, step: Step)
    requires Reachable(w)
    ensures Reachable(NextWorld(w, step))
  {
    hide NextWorld;
    var steps :| Runs(START, steps, w);
    assert (steps + [step])[..|steps|] == steps;
    assert Runs(START, steps + [step], NextWorld(w, step));
  }

  // Or the clock, a check-in and the default interval and grace period later.
  lemma ClockCanRelease(k: nat, n: nat, now: Time, later: Time, sms: bool) returns (w: World, step: Step)
    requires 1 <= k <= n <= 10 && later >= now + 37 * DAY
    ensures Reachable(w) && w.rows.vault.threshold == k && w.rows.vault.total == n
    ensures ReleasesNow(w, step) && step.request == Check(later, false)
  {
    hide ReleaseReady, NextWorld, Apply, Next, Lists, Listing, Rehearsed, AfterWorld, Later, Reachable;
    var v := ReadyReachable(k, n);
    CheckInArms(v.rows, now);
    w := NextWorld(v, Served(RecordCheckIn(now)));
    MoreReachable(v, Served(RecordCheckIn(now)));
    ServedRows(v, RecordCheckIn(now));
    step := Route(Check(later, false), Listing(k), sms, "", 0);
    CheckReleases(w.rows, now, later);
    ListingHolds(k);
    ReleaseServed(w, step.request, Listing(k), sms);
  }

  lemma ListedCheck(w: World, q: Request, listing: seq<int>, sms: bool)
    requires q.Check? && Apply(w.rows, q).Done? && Lists(listing, Apply(w.rows, q).rows.people)
    ensures NextWorld(w, Route(q, listing, sms, "", 0)).rows == Next(w.rows, q)
  {
    hide Apply, Announced, Signed, Lists;
  }

  lemma GraceThenOver(r: Rows, start: Time, deadline: Time, end: Time)
    requires Inv(r) && Running(r) && r.status.state == Active && r.config == Some(Config(30, 7, Some(start)))
    requires start + 30 * DAY <= deadline < start + 37 * DAY <= end
    ensures var s := Next(r, Check(deadline, false)); var t := Next(s, Check(end, false));
            && Apply(r, Check(deadline, false)).Done? && s.status.state == Grace && s.people == r.people
            && Apply(s, Check(end, false)).Done? && t.status.state == Triggered && t.people == r.people
  {
    hide Inv, Apply, Next, ReleaseReady;
    CheckExactly(r, deadline, false);
    NextKeeps(r, Check(deadline, false));
    var s := Next(r, Check(deadline, false));
    StillReady(r, s);
    CheckExactly(s, end, false);
  }

  lemma StillReady(r: Rows, s: Rows)
    requires Inv(r) && Inv(s) && s == r.(status := s.status)
    ensures ReleaseReady(s) <==> ReleaseReady(r)
  {
    hide ReleaseReady, Inv;
    ReleaseRuns.ReadyIgnoresSwitch(r, s);
  }

  // The switch's ordinary course: the check-in that is due is missed, a check
  // puts the vault in grace, and one at the end of grace releases it.
  lemma GraceLeadsToRelease(k: nat, n: nat, start: Time, deadline: Time, end: Time, sms: bool)
    returns (u: World, v: World, step: Step)
    requires 1 <= k <= n <= 10 && start + 30 * DAY <= deadline < start + 37 * DAY <= end
    ensures Reachable(u) && u.rows.status.state == Active && u.rows.config == Some(Config(30, 7, Some(start)))
    ensures v == NextWorld(u, Route(Check(deadline, false), Listing(k), sms, "", 0))
    ensures Reachable(v) && v.rows.status.state == Grace
    ensures step.Route? && step.request == Check(end, false) && ReleasesNow(v, step)
  {
    hide ReleaseReady, NextWorld, Apply, Next, Lists, Listing, Rehearsed, AfterWorld, Later, Reachable, Inv, WorldInv;
    var w := ReadyReachable(k, n);
    CheckInArms(w.rows, start);
    u := NextWorld(w, Served(RecordCheckIn(start)));
    MoreReachable(w, Served(RecordCheckIn(start)));
    ServedRows(w, RecordCheckIn(start));
    ReachableWorld(u);
    WorldRows(u);
    GraceThenOver(u.rows, start, deadline, end);
    ListingHolds(k);
    var first := Route(Check(deadline, false), Listing(k), sms, "", 0);
    v := NextWorld(u, first);
    MoreReachable(u, first);
    ApplyNext(u.rows, Check(deadline, false));
    ListedCheck(u, Check(deadline, false), Listing(k), sms);
    step := Route(Check(end, false), Listing(k), sms, "", 0);
    ApplyNext(v.rows, Check(end, false));
    ListedCheck(v, Check(end, false), Listing(k), sms);
  }

  lemma ApplyNext(r: Rows, q: Request)
    requires Apply(r, q).Done?
    ensures Apply(r, q).rows == Next(r, q)
  {
    hide Apply;
  }

  // ---------------------------------------------------------------------
  // Crashing workers
  // ---------------------------------------------------------------------

  // An invitation is the only message, n leases of it ran out one after the
  // other, and it is due again when the last one does.
  predicate LeasedOften(b: Outbox, n: nat) {
    && |b.jobs| == 1 && b.jobs[0].attempts == n
    && if n == 0 then b.jobs[0].state == ReadyJob && b.jobs[0].dueAt == 0
       else b.jobs[0].state == ClaimedJob && b.jobs[0].leaseUntil == Some(n * LEASE)
  }

  const NEWCOMER: NewPerson := NewPerson("a", None, None)

  function Joining(): Rows {
    Lock(FRESH).(people := map[0 := Beneficiary("a", None, None, 1, None, Pending, None, None)])
  }

  lemma JoiningServed()
    ensures NextWorld(START, Served(AddPerson(0, NEWCOMER, 20))) == START.(rows := Joining())
  {
    assert !EmailTaken(Lock(FRESH), "a", None);
    assert Apply(FRESH, AddPerson(0, NEWCOMER, 20)) == Done(Joining());
    hide Apply;
  }

  lemma InvitationQueued()
    ensures LeasedOften(NextWorld(START.(rows := Joining()), Served(InvitePerson(0, 0, 0))).box, 0)
  {
    var w := START.(rows := Joining());
    var s := Next(Joining(), InvitePerson(0, 0, 0));
    assert Apply(w.rows, InvitePerson(0, 0, 0)) == Done(s) && 0 in s.people;
    hide Apply, Next, Joining, Signed, CancelRecipient, PersonOf;
    NoneToCancel(0);
  }

  lemma NoneToCancel(id: int)
    ensures CancelRecipient(START.box, id).jobs == []
  {
  }

  function Reclaim(n: nat): Step {
    Deliver(Claim([0], n * LEASE, false, 1, {}))
  }

  lemma Reclaimed(w: World, n: nat)
    requires LeasedOften(w.box, n)
    ensures LeasedOften(NextWorld(w, Reclaim(n)).box, n + 1)
  {
    var b := w.box;
    assert Candidate(b, 0, n * LEASE, false, {});
    assert Batch(b, [0], n * LEASE, false, 1, {});
    assert ClaimAll(b, [], n * LEASE) == b && [0][..0] == [];
    assert ClaimAll(b, [0], n * LEASE) == ClaimJob(b, 0, n * LEASE);
    hide Batch, ClaimAll, Permitted;
  }

  // Whatever n, workers that crash drive some job to n attempts: nine as well.
  lemma {:induction false} AttemptsReachable(n: nat) returns (w: World)
    ensures Reachable(w) && |w.box.jobs| == 1 && w.box.jobs[0].attempts == n && LeasedOften(w.box, n)
    decreases n
  {
    hide NextWorld, Later;
    if n == 0 {
      StartReachable();
      JoiningServed();
      InvitationQueued();
      MoreReachable(START, Served(AddPerson(0, NEWCOMER, 20)));
      w := NextWorld(START.(rows := Joining()), Served(InvitePerson(0, 0, 0)));
      MoreReachable(START.(rows := Joining()), Served(InvitePerson(0, 0, 0)));
    } else {
      var v := AttemptsReachable(n - 1);
      Reclaimed(v, n - 1);
      MoreReachable(v, Reclaim(n - 1));
      w := NextWorld(v, Reclaim(n - 1));
    }
  }

  lemma StartReachable()
    ensures Reachable(START)
  {
    assert Runs(START, [], START);
  }
}
