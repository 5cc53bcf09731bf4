// Routes that enrol, invite, change and remove beneficiaries. E-mail addresses
// are those the routes compare and store: stripped and in lower case.

module Beneficiaries {
  import opened Wrappers
  import opened Tables

  const INVITATION_LIFE: nat := 7 * DAY

  predicate InRange(r: Rows, index: int) {
    1 <= index <= r.vault.total
  }

  predicate IndexTaken(r: Rows, index: int, except: Option<int>) {
    exists b :: b in r.people && r.people[b].index == Some(index) && except != Some(b)
  }

  predicate EmailTaken(r: Rows, email: string, except: Option<int>) {
    exists b :: b in r.people && r.people[b].email == email && except != Some(b)
  }

  datatype NewPerson = NewPerson(email: string, phone: Option<string>, index: Option<int>)

  // id is the key the table hands out: one that no row has.
  function Add(r: Rows, id: int, q: NewPerson, limit: int): Reply
    requires id !in r.people
  {
    var l := Lock(r);
    if EmailTaken(l, q.email, None) then Refused(Conflict)
    else if |l.people| >= limit then Refused(Conflict)
    else if q.index.Some? && !InRange(l, q.index.value) then Refused(Invalid)
    else if q.index.Some? && IndexTaken(l, q.index.value, None) then Refused(Conflict)
    else
      var row := Beneficiary(q.email, q.phone, q.index, 1,
                             if q.index.Some? then l.vault.generation else None, Pending, None, None);
      Done(l.(people := l.people[id := row]))
  }

  function Invite(r: Rows, id: int, token: nat, now: Time): Reply {
    var l := Lock(r);
    if id !in l.people then Refused(NotFound)
    else if l.people[id].invitation == Accepted then Refused(Conflict)
    else Done(l.(people := l.people[id := l.people[id].(invitation := Sent, token := Some(token),
                                                        sentAt := Some(now))]))
  }

  datatype IndexChange = Keep | Clear | Assign(index: int)

  datatype Change = Change(email: Option<string>, phone: Option<Option<string>>, index: IndexChange)

  predicate ChangesContact(r: Rows, id: int, q: Change)
    requires id in r.people
  {
    q.email.Some? && q.email.value != r.people[id].email
  }

  function NewContact(p: Beneficiary, email: string): Beneficiary {
    p.(contactRevision := p.contactRevision + 1, email := email, invitation := Pending, token := None, sentAt := None)
  }

  function Update(r: Rows, id: int, q: Change): Reply {
    var l := Lock(r);
    if id !in l.people then Refused(NotFound)
    else
      var p1 := if ChangesContact(l, id, q) then NewContact(l.people[id], q.email.value) else l.people[id];
      var p2 := if q.phone.Some? then p1.(phone := q.phone.value) else p1;
      if q.index.Assign? && !InRange(l, q.index.index) then Refused(Invalid)
      else if q.index.Assign? && IndexTaken(l, q.index.index, Some(id)) then Refused(Conflict)
      else if EmailTaken(l, p2.email, Some(id)) then Refused(Conflict)  // the unique constraint
      else
        var p3 := match q.index
          case Keep => p2
          case Clear => p2.(index := None, generation := None)
          case Assign(i) => p2.(index := Some(i), generation := l.vault.generation);
        Done(l.(people := l.people[id := p3]))
  }

  function AssignShare(r: Rows, id: int, index: int): Reply {
    var l := Lock(r);
    if !InRange(l, index) then Refused(Invalid)
    else if id !in l.people then Refused(NotFound)
    else if IndexTaken(l, index, Some(id)) then Refused(Conflict)
    else Done(l.(people := l.people[id := l.people[id].(index := Some(index), generation := l.vault.generation)]))
  }

  function Delete(r: Rows, id: int): Reply {
    var l := Lock(r);
    if id !in l.people then Refused(NotFound)
    else Done(l.(people := l.people - {id}))
  }

  // Acceptance by the holder of the invitation token. An invitation older than
  // seven days is marked expired, which is committed although the request fails.
  function Accept(r: Rows, id: int, token: nat, now: Time): Reply {
    if id !in r.people || r.people[id].token != Some(token) then Refused(NotFound)
    else
      var l := Lock(r);
      var p := l.people[id];
      if p.invitation == Accepted then Refused(Conflict)
      else if p.invitation == Expired then Refused(Gone)
      else if p.sentAt.Some? && now > p.sentAt.value + INVITATION_LIFE then
        Done(l.(people := l.people[id := p.(invitation := Expired)]))
      else if p.invitation != Sent then Refused(NotFound)
      // the stored hash is replaced by that of a token nobody holds
      else Done(l.(people := l.people[id := p.(invitation := Accepted, token := None)]))
  }
}
