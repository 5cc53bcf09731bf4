// Every transaction that may change one vault's rows, and runs of them.

module Requests {
  import opened Tables
  import opened Ceremonies
  import opened Readiness
  import opened Beneficiaries
  import opened Heartbeat

  // A hold read once per transaction is a parameter, as are clocks and fresh keys.
  datatype Request =
    | DraftCeremony(draft: DraftRequest)
    | FinalizeCeremony(ceremony: int, indexes: seq<int>)
    | CancelCeremony(ceremony: int)
    | RewrapKey(expected: int, bundle: Bundle, valid: bool)
    | ReportRecovery(drill: Drill)
    | AddPerson(id: int, person: NewPerson, limit: int)
    | InvitePerson(id: int, token: nat, now: Time)
    | UpdatePerson(id: int, change: Change)
    | AssignPerson(id: int, index: int)
    | DeletePerson(id: int)
    | AcceptInvitation(id: int, token: nat, now: Time)
    | SaveSettings(settings: Settings, now: Time)
    | RecordCheckIn(now: Time)
    | StartGrace(now: Time)
    | Trigger(reason: Reason, now: Time, hold: bool)
    | Check(now: Time, hold: bool)
    | Touch  // any other transaction that only takes the lock

  // An idle check rolls back; any other commits.
  function CheckReply(c: Checked): Reply {
    match c
    case Idle => Refused(Conflict)
    case Warned(rows) => Done(rows)
    case Released(rows) => Done(rows)
  }

  function Apply(r: Rows, q: Request): Reply {
    match q
    case DraftCeremony(draft) => CreateDraft(r, draft)
    case FinalizeCeremony(id, indexes) => Finalize(r, id, indexes)
    case CancelCeremony(id) => Cancel(r, id)
    case RewrapKey(expected, bundle, valid) => Rewrap(r, expected, bundle, valid)
    case ReportRecovery(drill) => ReportDrill(r, drill)
    case AddPerson(id, person, limit) => if id in r.people then Refused(Conflict) else Add(r, id, person, limit)
    case InvitePerson(id, token, now) => Invite(r, id, token, now)
    case UpdatePerson(id, change) => Update(r, id, change)
    case AssignPerson(id, index) => AssignShare(r, id, index)
    case DeletePerson(id) => Delete(r, id)
    case AcceptInvitation(id, token, now) => Accept(r, id, token, now)
    case SaveSettings(settings, now) => SaveHeartbeat(r, settings, now)
    case RecordCheckIn(now) => CheckIn(r, now)
    case StartGrace(now) => MoveToGrace(r, now)
    case Trigger(reason, now, hold) => TriggerVault(r, reason, now, hold)
    case Check(now, hold) =>
      if hold then Refused(Conflict) else CheckReply(CheckOne(r, now))
    case Touch => Done(Lock(r))
  }

  function Next(r: Rows, q: Request): Rows {
    Apply(r, q).Or(r)
  }

  // The rows after a run of requests.
  function After(r: Rows, qs: seq<Request>): Rows
    decreases |qs|
  {
    if qs == [] then r else Next(After(r, qs[..|qs| - 1]), qs[|qs| - 1])
  }
}
