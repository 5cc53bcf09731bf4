// Where what is in force comes from: in every run, the last accepted request
// that says so.

module Provenance {
  import opened Wrappers
  import opened Tables
  import opened Beneficiaries
  import opened Requests
  import opened RowInvariants
  import opened SwitchRules
  import opened CeremonyRules
  import opened PeopleRules
  import Evidence

  predicate Granted(r: Rows, q: Request) {
    Apply(r, q).Done?
  }

  lemma NotGranted(r: Rows, q: Request)
    requires !Granted(r, q)
    ensures Next(r, q) == r
  {
    hide Apply;
  }

  // The request makes the draft final that it names.
  predicate Promotes(r: Rows, q: Request) {
    q.FinalizeCeremony? && Granted(r, q) && 0 <= q.ceremony < |r.ceremonies| && r.ceremonies[q.ceremony].status == Draft
  }

  // What a request asks somebody's index to be, if it asks at all.
  function Asks(q: Request, b: int): Option<Option<int>> {
    match q
    case AddPerson(id, person, _) => if id == b then Some(person.index) else None
    case AssignPerson(id, index) => if id == b then Some(Some(index)) else None
    case DeletePerson(id) => if id == b then Some(None) else None
    case UpdatePerson(id, change) =>
      if id != b || change.index.Keep? then None
      else if change.index.Assign? then Some(Some(change.index.index)) else Some(None)
    case _ => None
  }

  function ShareOf(r: Rows, b: int): Option<int> {
    if b in r.people then r.people[b].index else None
  }

  // ---------------------------------------------------------------------
  // What one request changes
  // ---------------------------------------------------------------------

  lemma SettingsStep(r: Rows, q: Request)
    requires Inv(r)
    ensures if q.SaveSettings? && Granted(r, q) then
              IntervalOf(Next(r, q)) == q.settings.interval && GraceOf(Next(r, q)) == q.settings.grace
            else IntervalOf(Next(r, q)) == IntervalOf(r) && GraceOf(Next(r, q)) == GraceOf(r)
  {
    hide Apply, Next, Inv;
    if !q.SaveSettings? && !q.RecordCheckIn? { SwitchStep(r, q); }
    if q.SaveSettings? { SettingsExactly(r, q.settings, q.now); }
    if q.RecordCheckIn? { CheckInExactly(r, q.now); }
    if !Granted(r, q) { NotGranted(r, q); }
  }

  function SeenAt(r: Rows): Option<Time> {
    if r.config.Some? then r.config.value.lastCheckIn else None
  }

  predicate FirstArms(r: Rows, q: Request) {
    q.SaveSettings? && Arms(q.settings) && SeenAt(r).None?
  }

  lemma SeenStep(r: Rows, q: Request)
    requires Inv(r)
    ensures SeenAt(Next(r, q))
         == if (q.RecordCheckIn? || FirstArms(r, q)) && Granted(r, q) then Some(q.now) else SeenAt(r)
  {
    hide Apply, Next, Inv;
    if !q.SaveSettings? && !q.RecordCheckIn? { SwitchStep(r, q); }
    if q.SaveSettings? { SettingsExactly(r, q.settings, q.now); }
    if q.RecordCheckIn? { CheckInExactly(r, q.now); }
    if !Granted(r, q) { NotGranted(r, q); }
  }

  lemma ArmedStep(r: Rows, q: Request)
    requires Inv(r)
    ensures Next(r, q).status.armed
         == if q.RecordCheckIn? && Granted(r, q) then true
            else if q.SaveSettings? && Granted(r, q) && q.settings.armed.Some? then q.settings.armed.value
            else r.status.armed
  {
    hide Apply, Next, Inv;
    if !q.SaveSettings? && !q.RecordCheckIn? { SwitchStep(r, q); }
    if q.SaveSettings? { SettingsExactly(r, q.settings, q.now); }
    if q.RecordCheckIn? { CheckInExactly(r, q.now); }
    if !Granted(r, q) { NotGranted(r, q); }
  }

  // Nothing but settings and check-ins touches the settings or the arming.
  lemma SwitchStep(r: Rows, q: Request)
    requires Inv(r) && !q.SaveSettings? && !q.RecordCheckIn?
    ensures Next(r, q).config == r.config && Next(r, q).status.armed == r.status.armed
  {
    hide Apply, Next, Inv, Running;
    match q
    case StartGrace(now) => GraceExactly(r, now);
    case Trigger(reason, now, hold) =>
      TriggerExactly(r, reason, now, hold);
      if !Granted(r, q) { NotGranted(r, q); }
    case Check(now, hold) =>
      CheckExactly(r, now, hold);
      OverIs(r);
      if !Granted(r, q) { NotGranted(r, q); }
    case _ => Evidence.SwitchUnchanged(r, q);
  }

  // The policy, the generation and the wrapped key a request puts in force.
  lemma MaterialStep(r: Rows, q: Request)
    requires Inv(r)
    ensures var v := Next(r, q).vault;
            if Promotes(r, q) then
              var c := r.ceremonies[q.ceremony];
              && v.threshold == c.threshold && v.total == c.total && v.generation == Some(c.generation)
              && v.wrapped == if r.vault.wrapped.Some? then r.vault.wrapped else c.pending
            else
              && v.threshold == r.vault.threshold && v.total == r.vault.total && v.generation == r.vault.generation
              && v.wrapped == if q.RewrapKey? && Granted(r, q) then Some(q.bundle) else r.vault.wrapped
  {
    hide Apply, Next, Inv;
    if !Granted(r, q) { NotGranted(r, q); }
    match q
    case DraftCeremony(draft) => DraftExactly(r, draft);
    case FinalizeCeremony(id, indexes) =>
      FinalizeExactly(r, id, indexes);
      if Promotes(r, q) { FinalizeEffect(r, id, indexes); }
    case CancelCeremony(id) => CancelExactly(r, id);
    case RewrapKey(expected, bundle, valid) => RewrapExactly(r, expected, bundle, valid);
    case ReportRecovery(drill) => DrillKeepsVault(r, drill);
    case _ => Evidence.MaterialFrame(r, q);
  }

  lemma DrillKeepsVault(r: Rows, d: Drill)
    ensures Next(r, ReportRecovery(d)).vault == r.vault && Next(r, ReportRecovery(d)).people == r.people
  {
  }

  lemma ShareStep(r: Rows, q: Request, b: int)
    requires Inv(r)
    ensures ShareOf(Next(r, q), b) == if Asks(q, b).Some? && Granted(r, q) then Asks(q, b).value else ShareOf(r, b)
  {
    hide Apply, Next, CeremoniesValid, VaultValid, SwitchValid, Free, SomeoneElseAt;
    if !Granted(r, q) { NotGranted(r, q); }
    match q
    case AddPerson(id, person, limit) => EnrolExactly(r, id, person, limit);
    case InvitePerson(id, token, now) => InviteExactly(r, id, token, now);
    case UpdatePerson(id, change) => UpdateExactly(r, id, change);
    case AssignPerson(id, index) => AssignExactly(r, id, index);
    case DeletePerson(id) => DeleteExactly(r, id);
    case AcceptInvitation(id, token, now) => AcceptExactly(r, id, token, now);
    case FinalizeCeremony(id, indexes) =>
      FinalizeExactly(r, id, indexes);
      if Promotes(r, q) { FinalizeEffect(r, id, indexes); }
    case _ => Evidence.PeopleUnchanged(r, q);
  }

  // ---------------------------------------------------------------------
  // Over runs
  // ---------------------------------------------------------------------

  // The settings of the last request that set them, if any did.
  function SettingsFrom(qs: seq<Request>): (nat, nat)
    decreases |qs|
  {
    if qs == [] then (30, 7)
    else
      var q := qs[|qs| - 1];
      if q.SaveSettings? && Granted(After(FRESH, qs[..|qs| - 1]), q) then (q.settings.interval, q.settings.grace)
      else SettingsFrom(qs[..|qs| - 1])
  }

  // The time of the last check-in, or of the arming before any.
  function SeenFrom(qs: seq<Request>): Option<Time>
    decreases |qs|
  {
    if qs == [] then None
    else
      var q := qs[|qs| - 1];
      var seen := SeenFrom(qs[..|qs| - 1]);
      if !Granted(After(FRESH, qs[..|qs| - 1]), q) then seen
      else if q.RecordCheckIn? || (q.SaveSettings? && Arms(q.settings) && seen.None?) then Some(q.now)
      else seen
  }

  function ArmedFrom(qs: seq<Request>): bool
    decreases |qs|
  {
    if qs == [] then false
    else
      var q := qs[|qs| - 1];
      if !Granted(After(FRESH, qs[..|qs| - 1]), q) then ArmedFrom(qs[..|qs| - 1])
      else if q.RecordCheckIn? then true
      else if q.SaveSettings? && q.settings.armed.Some? then q.settings.armed.value
      else ArmedFrom(qs[..|qs| - 1])
  }

  // The draft made final last.
  function PolicyFrom(qs: seq<Request>): Option<Ceremony>
    decreases |qs|
  {
    if qs == [] then None
    else
      var r, q := After(FRESH, qs[..|qs| - 1]), qs[|qs| - 1];
      if Promotes(r, q) then Some(r.ceremonies[q.ceremony]) else PolicyFrom(qs[..|qs| - 1])
  }

  // The bundle of the last new passphrase, or the one the first ceremony brought.
  function KeyFrom(qs: seq<Request>): Option<Bundle>
    decreases |qs|
  {
    if qs == [] then None
    else
      var r, q := After(FRESH, qs[..|qs| - 1]), qs[|qs| - 1];
      var key := KeyFrom(qs[..|qs| - 1]);
      if Promotes(r, q) && key.None? then r.ceremonies[q.ceremony].pending
      else if q.RewrapKey? && Granted(r, q) then Some(q.bundle)
      else key
  }

  // The index b was last given, if it was not taken away since.
  function ShareFrom(qs: seq<Request>, b: int): Option<int>
    decreases |qs|
  {
    if qs == [] then None
    else
      var q := qs[|qs| - 1];
      if Asks(q, b).Some? && Granted(After(FRESH, qs[..|qs| - 1]), q) then Asks(q, b).value
      else ShareFrom(qs[..|qs| - 1], b)
  }

  lemma AfterValid(qs: seq<Request>)
    ensures Inv(After(FRESH, qs))
  {
    hide Inv;
    FreshValid();
    RunKeeps(FRESH, qs);
  }

  // In every run, the switch goes by the last settings, check-in and arming.
  lemma {:induction false} SwitchInForce(qs: seq<Request>)
    ensures var r := After(FRESH, qs);
            && (IntervalOf(r), GraceOf(r)) == SettingsFrom(qs) && SeenAt(r) == SeenFrom(qs)
            && r.status.armed == ArmedFrom(qs)
    decreases |qs|
  {
    hide Next, Inv, Granted, Arms, SeenAt, IntervalOf, GraceOf;
    if qs == [] {
      FreshSwitch();
    } else {
      var r, q := After(FRESH, qs[..|qs| - 1]), qs[|qs| - 1];
      SwitchInForce(qs[..|qs| - 1]);
      AfterValid(qs[..|qs| - 1]);
      SettingsStep(r, q); SeenStep(r, q); ArmedStep(r, q);
    }
  }

  lemma FreshSwitch()
    ensures IntervalOf(FRESH) == 30 && GraceOf(FRESH) == 7 && SeenAt(FRESH) == None && !FRESH.status.armed
  {
  }

  predicate UnderPolicy(v: Vault, c: Option<Ceremony>) {
    if c.Some? then
      v.threshold == c.value.threshold && v.total == c.value.total && v.generation == Some(c.value.generation)
    else v.threshold == 2 && v.total == 3 && v.generation.None?
  }

  // In every run, the policy and generation are those of the draft made final
  // last, and the wrapped key is that of the last new passphrase.
  lemma {:induction false} MaterialInForce(qs: seq<Request>)
    ensures UnderPolicy(After(FRESH, qs).vault, PolicyFrom(qs)) && After(FRESH, qs).vault.wrapped == KeyFrom(qs)
    decreases |qs|
  {
    hide Next, Inv, Granted, Promotes;
    if qs != [] {
      var r, q := After(FRESH, qs[..|qs| - 1]), qs[|qs| - 1];
      MaterialInForce(qs[..|qs| - 1]);
      AfterValid(qs[..|qs| - 1]);
      MaterialStep(r, q);
      if Promotes(r, q) { PromotesDraft(r, q); }
    }
  }

  lemma PromotesDraft(r: Rows, q: Request)
    requires Promotes(r, q)
    ensures q.FinalizeCeremony? && 0 <= q.ceremony < |r.ceremonies|
  {
    hide Granted;
  }

  // In every run, the index somebody has is the one they were last given.
  lemma {:induction false} ShareInForce(qs: seq<Request>, b: int)
    ensures ShareOf(After(FRESH, qs), b) == ShareFrom(qs, b)
    decreases |qs|
  {
    hide Next, Inv, Granted, Asks;
    if qs != [] {
      ShareInForce(qs[..|qs| - 1], b);
      AfterValid(qs[..|qs| - 1]);
      ShareStep(After(FRESH, qs[..|qs| - 1]), qs[|qs| - 1], b);
    }
  }
}
