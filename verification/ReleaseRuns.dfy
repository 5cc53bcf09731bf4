// When a vault may be released, and what a release fixes for good.

module ReleaseRuns {
  import opened Wrappers
  import opened Tables
  import opened Ceremonies
  import opened Readiness
  import opened Heartbeat
  import opened Requests
  import opened RowInvariants
  import opened Evidence
  import opened RecoveryRuns

  // The request releases the vault.
  predicate Releases(r: Rows, q: Request) {
    r.status.state != Triggered && Next(r, q).status.state == Triggered
  }

  predicate Automatic(q: Request) {
    q.Check? || (q.Trigger? && q.reason == Inactivity)
  }

  // ---------------------------------------------------------------------
  // What every release needs
  // ---------------------------------------------------------------------

  lemma ReadyIgnoresSwitch(r: Rows, s: Rows)
    requires SameMaterial(r, s)
    ensures ReleaseReady(r) <==> ReleaseReady(s)
  {
    CurrentSame(r, s, 0);
    assert Eligible(r) == Eligible(s);
    assert BindingOf(r) == BindingOf(s);
  }

  lemma {:induction false} CurrentSame(r: Rows, s: Rows, i: nat)
    requires i <= |r.ceremonies| && SameMaterial(r, s)
    ensures CurrentFrom(r, i) == CurrentFrom(s, i)
    decreases |r.ceremonies| - i
  {
    if i < |r.ceremonies| {
      CurrentSame(r, s, i + 1);
    }
  }

  // Only a trigger that no hold stops, or the checker, releases a vault; it
  // was ready, and its material and people stay as they were.
  lemma ReleaseNeeds(r: Rows, q: Request)
    requires Releases(r, q)
    ensures (q.Trigger? || q.Check?) && !q.hold
    ensures ReleaseReady(r)
    ensures SameMaterial(r, Next(r, q)) && Next(r, q).config == r.config
    ensures Next(r, q).status.triggeredAt == Some(q.now)
  {
    if !ForSwitch(q) {
      hide Next;
      SwitchUnchanged(r, q);
      assert false;
    } else {
      hide ReleaseReady, Deadline, ReleaseTime;
      ReadyIgnoresSwitch(r, Lock(r));
      if q.Check? {
        ReadyIgnoresSwitch(r, Next(r, q));
      }
    }
  }

  // ---------------------------------------------------------------------
  // Automatic release waits for the deadline
  // ---------------------------------------------------------------------

  // An automatic release comes no earlier than interval and grace after the
  // last check-in, and only while the vault is armed.
  lemma AutomaticReleaseTime(r: Rows, q: Request)
    requires Inv(r) && Releases(r, q) && Automatic(q)
    ensures r.status.armed && r.config.Some? && r.config.value.lastCheckIn.Some?
    ensures q.now >= ReleaseTime(r.config.value)
  {
    hide ReleaseReady, CeremoniesValid, VaultValid, PeopleValid;
  }

  // The automatic path goes through grace: it had entered it, or enters it in
  // the same transaction, under a new episode.
  lemma AutomaticReleaseFromGrace(r: Rows, q: Request)
    requires Inv(r) && Releases(r, q) && Automatic(q)
    ensures r.status.state == Grace ==> Next(r, q).status.episode == r.status.episode
    ensures r.status.state == Active ==> q.Check? && Next(r, q).status.episode == r.status.episode + 1
    ensures Next(r, q).status.graceStarted == Some(Deadline(r.config.value))
  {
    hide ReleaseReady, CeremoniesValid, VaultValid, PeopleValid;
  }

  // The time a request reads, if it reads the clock.
  function TimeOf(q: Request): Option<Time> {
    match q
    case InvitePerson(_, _, now) => Some(now)
    case AcceptInvitation(_, _, now) => Some(now)
    case SaveSettings(_, now) => Some(now)
    case RecordCheckIn(now) => Some(now)
    case StartGrace(now) => Some(now)
    case Trigger(_, now, _) => Some(now)
    case Check(now, _) => Some(now)
    case _ => None
  }

  // The clock does not go back.
  predicate Ordered(qs: seq<Request>) {
    forall i, j :: 0 <= i < j < |qs| && TimeOf(qs[i]).Some? && TimeOf(qs[j]).Some? ==>
                     TimeOf(qs[i]).value <= TimeOf(qs[j]).value
  }

  predicate CheckedInSince(r: Rows, t: Time) {
    r.config.Some? && r.config.value.lastCheckIn.Some? && r.config.value.lastCheckIn.value >= t
  }

  predicate ChecksIn(r: Rows, q: Request) {
    q.RecordCheckIn? && CheckIn(r, q.now).Done?
  }

  lemma CheckInRecorded(r: Rows, q: Request)
    requires ChecksIn(r, q)
    ensures CheckedInSince(Next(r, q), q.now)
  {
    hide ReleaseReady;
  }

  lemma CheckInKept(r: Rows, q: Request, t: Time)
    requires CheckedInSince(r, t) && (TimeOf(q).Some? ==> t <= TimeOf(q).value)
    ensures CheckedInSince(Next(r, q), t)
  {
    if !ForSwitch(q) {
      hide Next;
      SwitchUnchanged(r, q);
    } else {
      hide ReleaseReady, Deadline, ReleaseTime;
    }
  }

  lemma {:induction false} CheckInHistory(r: Rows, qs: seq<Request>, i: nat, n: nat)
    requires i < n <= |qs| && Ordered(qs) && ChecksIn(Before(r, qs, i), qs[i])
    ensures CheckedInSince(Before(r, qs, n), qs[i].now)
    decreases n
  {
    hide Before, Next, CheckedInSince;
    BeforeStep(r, qs, n - 1);
    if i == n - 1 {
      CheckInRecorded(Before(r, qs, i), qs[i]);
    } else {
      CheckInHistory(r, qs, i, n - 1);
      assert TimeOf(qs[i]) == Some(qs[i].now);
      CheckInKept(Before(r, qs, n - 1), qs[n - 1], qs[i].now);
    }
  }

  // In every run, an automatic release comes no earlier than interval and
  // grace, as then set, after every check-in before it.
  lemma NoReleaseBeforeDeadline(qs: seq<Request>, i: nat, j: nat)
    requires Ordered(qs) && i < j < |qs|
    requires ChecksIn(Before(FRESH, qs, i), qs[i])
    requires Releases(Before(FRESH, qs, j), qs[j]) && Automatic(qs[j])
    ensures Before(FRESH, qs, j).config.Some?
    ensures var c := Before(FRESH, qs, j).config.value;
            && c.interval >= 1 && c.grace >= 1
            && qs[j].now >= qs[i].now + (c.interval + c.grace) * DAY
  {
    hide Before, Next, CeremoniesValid, VaultValid, PeopleValid, Releases;
    FreshValid();
    BeforeValid(FRESH, qs, j);
    CheckInHistory(FRESH, qs, i, j);
    AutomaticReleaseTime(Before(FRESH, qs, j), qs[j]);
  }

  // ---------------------------------------------------------------------
  // After the release
  // ---------------------------------------------------------------------

  // Nothing the release rests on has changed since.
  predicate Fixed(r: Rows, s: Rows) {
    && s.vault == r.vault && s.config == r.config
    && s.status.state == r.status.state && s.status.armed == r.status.armed
    && s.status.episode == r.status.episode && s.status.graceStarted == r.status.graceStarted
    && s.status.triggeredAt == r.status.triggeredAt
  }

  lemma ReleasedFixed(r: Rows, q: Request)
    requires r.status.state == Triggered
    ensures Fixed(r, Next(r, q))
  {
    if ForMaterial(q) {
      hide Canonical, Used, BindingOf;
    } else if ForPeople(q) {
      hide Next;
      MaterialFrame(r, q);
      SwitchUnchanged(r, q);
    } else {
      hide ReleaseReady, Deadline, ReleaseTime;
    }
  }

  // State, wrapped material, revision, policy, generation and settings of a
  // released vault never change again.
  lemma {:induction false} ReleasedForever(r: Rows, qs: seq<Request>)
    requires r.status.state == Triggered
    ensures Fixed(r, After(r, qs))
    decreases |qs|
  {
    hide Next;
    if qs != [] {
      ReleasedForever(r, qs[..|qs| - 1]);
      ReleasedFixed(After(r, qs[..|qs| - 1]), qs[|qs| - 1]);
    }
  }

  // ---------------------------------------------------------------------
  // Episodes
  // ---------------------------------------------------------------------

  // Grace is entered under a new episode, and the episode changes no other way.
  lemma EpisodeStep(r: Rows, q: Request)
    ensures Next(r, q).status.episode == r.status.episode
            || Next(r, q).status.episode == r.status.episode + 1
    ensures r.status.state != Grace && Next(r, q).status.state == Grace ==>
              Next(r, q).status.episode == r.status.episode + 1
    ensures Next(r, q).status.episode > r.status.episode ==> r.status.state == Active
  {
    if !ForSwitch(q) {
      hide Next;
      SwitchUnchanged(r, q);
    } else {
      hide ReleaseReady, Deadline, ReleaseTime;
    }
  }

  // The life cycle the documentation draws: active to grace, grace back to
  // active or on to triggered, and nothing after that.
  predicate Drawn(s: State, t: State) {
    s == t || (s == Active && t == Grace) || (s == Grace && t != Grace)
  }

  // The owner's own trigger, with no hold in place.
  predicate ManualRelease(q: Request) {
    q.Trigger? && q.reason == Manual && !q.hold
  }

  // A check that comes so late that interval and grace have both passed.
  predicate LateCheck(r: Rows, q: Request) {
    q.Check? && !q.hold && Selected(r, q.now) && ReleaseTime(r.config.value) <= q.now
  }

  // The one edge the life cycle does not draw is from active to triggered. It
  // is taken by the owner's trigger of a ready vault that no hold protects, by
  // a check of such a vault that comes too late for grace, and not otherwise.
  lemma LifeCycle(r: Rows, q: Request)
    ensures Drawn(r.status.state, Next(r, q).status.state)
            <==> !(r.status.state == Active && ReleaseReady(r) && (ManualRelease(q) || LateCheck(r, q)))
  {
    if !ForSwitch(q) {
      hide Next;
      SwitchUnchanged(r, q);
    } else {
      hide ReleaseReady, Deadline;
      ReadyIgnoresSwitch(r, Lock(r));
      SplitDeadline(r, q);
    }
  }

  lemma SplitDeadline(r: Rows, q: Request)
    ensures r.config.Some? && r.config.value.lastCheckIn.Some? ==>
              ReleaseTime(r.config.value) == Deadline(r.config.value) + r.config.value.grace * DAY
  {
  }

  // The late check passes through grace on its way.
  lemma LateCheckEntersGrace(r: Rows, q: Request)
    requires r.status.state == Active && ReleaseReady(r) && LateCheck(r, q)
    ensures Next(r, q).status.state == Triggered && Next(r, q).status.episode == r.status.episode + 1
    ensures Next(r, q).status.graceStarted == Some(Deadline(r.config.value))
  {
    hide ReleaseReady, Deadline;
    ReadyIgnoresSwitch(r, Lock(r));
    SplitDeadline(r, q);
  }

  // ---------------------------------------------------------------------
  // Cancelling a ceremony
  // ---------------------------------------------------------------------

  // What the setup status of an unwrapped vault is for.
  predicate SetupTruthful(r: Rows) {
    r.vault.wrapped.None? ==>
      (r.vault.setup == Drafting <==> exists i :: 0 <= i < |r.ceremonies| && r.ceremonies[i].status == Draft)
  }

  // Cancel takes any ceremony that is not finalized, a cancelled one too; the
  // status then reads uninitialized whether or not a draft is left.
  lemma CancelTruthful(r: Rows, id: int)
    requires Inv(r) && Cancel(r, id).Done?
    ensures SetupTruthful(Cancel(r, id).rows)
            <==> (r.vault.wrapped.Some? || r.ceremonies[id].status == Draft
                  || forall i :: 0 <= i < |r.ceremonies| ==> r.ceremonies[i].status != Draft)
  {
    hide Canonical, WellFormed, Matches, PendingFits, DistinctGenerations, HasFinalized, PeopleValid, SwitchValid;
    var s := Cancel(r, id).rows;
    if r.vault.wrapped.None? && r.ceremonies[id].status != Draft {
      forall i | 0 <= i < |r.ceremonies| && r.ceremonies[i].status == Draft ensures s.ceremonies[i].status == Draft {}
    }
  }

  function DraftOf(g: Generation): Request {
    DraftCeremony(DraftRequest(0, g, 2, 3, Some(InitialMaterial(Bundle("", ""), 0, true))))
  }

  lemma AfterThree(r: Rows, a: Request, b: Request, c: Request)
    ensures After(r, [a, b, c]) == Next(Next(Next(r, a), b), c)
  {
    hide Next;
    assert [a][..0] == [] && After(r, [a]) == Next(r, a);
    assert [a, b][..1] == [a] && After(r, [a, b]) == Next(After(r, [a]), b);
    assert [a, b, c][..2] == [a, b];
  }

  lemma TwoDraftsCancel(g0: Generation, g1: Generation)
    requires Canonical(g0) && Canonical(g1) && g0 != g1
    ensures !SetupTruthful(Next(Next(Next(FRESH, DraftOf(g0)), DraftOf(g1)), CancelCeremony(0)))
  {
    hide Canonical;
    var r1 := Next(FRESH, DraftOf(g0));
    var r2 := Next(r1, DraftOf(g1));
    var r3 := Next(r2, CancelCeremony(0));
    assert |r1.ceremonies| == 1 && r1.ceremonies[0].generation == g0;
    assert |r2.ceremonies| == 2 && r2.ceremonies[1].status == Draft && r2.ceremonies[0].status == Cancelled;
    assert r3.ceremonies[1].status == Draft && r3.vault.setup == Uninitialized;
  }

  // Two drafts, then a late cancel of the first: the second draft is live, and
  // the vault's setup status denies it.
  lemma CancelMisreports(g0: Generation, g1: Generation)
    requires Canonical(g0) && Canonical(g1) && g0 != g1
    ensures !SetupTruthful(After(FRESH, [DraftOf(g0), DraftOf(g1), CancelCeremony(0)]))
  {
    hide *;
    TwoDraftsCancel(g0, g1);
    AfterThree(FRESH, DraftOf(g0), DraftOf(g1), CancelCeremony(0));
  }
}
