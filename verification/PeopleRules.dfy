// What each request about beneficiaries is granted for, and what it changes of
// whom.

module PeopleRules {
  import opened Wrappers
  import opened Tables
  import opened Beneficiaries
  import opened Requests
  import opened RowInvariants

  const SEVEN_DAYS: nat := 7 * 24 * 60 * 60

  // b's row is now p, and nothing else has changed.
  predicate OnlyPerson(r: Rows, s: Rows, b: int, p: Beneficiary) {
    && b in s.people && s.people[b] == p
    && (forall c :: c in s.people && c != b ==> c in r.people && s.people[c] == r.people[c])
    && (forall c :: c in r.people ==> c in s.people)
    && s == r.(people := s.people, status := r.status.(version := r.status.version + 1))
  }

  predicate SomeoneElseHas(r: Rows, b: int, index: int) {
    exists c :: c in r.people && c != b && r.people[c].index == Some(index)
  }

  predicate SomeoneElseAt(r: Rows, b: int, email: string) {
    exists c :: c in r.people && c != b && r.people[c].email == email
  }

  // An index somebody may be given: one of the set, that nobody else has.
  predicate Free(r: Rows, b: int, index: int) {
    1 <= index <= r.vault.total && !SomeoneElseHas(r, b, index)
  }

  // Whoever is new has an address and an index of their own, is bound to the
  // set in force if given an index, and is not invited yet.
  lemma EnrolExactly(r: Rows, b: int, p: NewPerson, limit: int)
    ensures Apply(r, AddPerson(b, p, limit)).Done?
            <==> && b !in r.people && !SomeoneElseAt(r, b, p.email) && |r.people| < limit
                 && (p.index.Some? ==> Free(r, b, p.index.value))
    ensures Apply(r, AddPerson(b, p, limit)).Done? ==>
              OnlyPerson(r, Next(r, AddPerson(b, p, limit)), b,
                         Beneficiary(p.email, p.phone, p.index, 1,
                                     if p.index.Some? then r.vault.generation else None, Pending, None, None))
  {
  }

  // Anybody who has not accepted can be invited, again too: the new token then
  // replaces the one before.
  lemma InviteExactly(r: Rows, b: int, token: nat, now: Time)
    ensures Apply(r, InvitePerson(b, token, now)).Done? <==> b in r.people && r.people[b].invitation != Accepted
    ensures Apply(r, InvitePerson(b, token, now)).Done? ==>
              OnlyPerson(r, Next(r, InvitePerson(b, token, now)), b,
                         r.people[b].(invitation := Sent, token := Some(token), sentAt := Some(now)))
  {
  }

  // An assignment gives exactly the index asked for, bound to the set in force,
  // if it is one of the set and nobody else has it.
  lemma AssignExactly(r: Rows, b: int, index: int)
    ensures Apply(r, AssignPerson(b, index)).Done? <==> b in r.people && Free(r, b, index)
    ensures Apply(r, AssignPerson(b, index)).Done? ==>
              OnlyPerson(r, Next(r, AssignPerson(b, index)), b,
                         r.people[b].(index := Some(index), generation := r.vault.generation))
  {
  }

  lemma DeleteExactly(r: Rows, b: int)
    ensures Apply(r, DeletePerson(b)).Done? <==> b in r.people
    ensures b in r.people ==>
              && var s := Next(r, DeletePerson(b));
              && (forall c :: c in s.people <==> c in r.people && c != b)
              && (forall c :: c in s.people ==> s.people[c] == r.people[c])
              && s == r.(people := s.people, status := r.status.(version := r.status.version + 1))
  {
  }

  predicate Moves(r: Rows, b: int, q: Change)
    requires b in r.people
  {
    q.email.Some? && q.email.value != r.people[b].email
  }

  // The address, the phone number and the index are changed as asked. A new
  // address takes the invitation and everything given to the old one back.
  predicate Changed(r: Rows, b: int, q: Change, p: Beneficiary)
    requires b in r.people
  {
    var was := r.people[b];
    && p.email == (if q.email.Some? then q.email.value else was.email)
    && p.phone == (if q.phone.Some? then q.phone.value else was.phone)
    && (match q.index
        case Keep => p.index == was.index && p.generation == was.generation
        case Clear => p.index == None && p.generation == None
        case Assign(i) => p.index == Some(i) && p.generation == r.vault.generation)
    && (if Moves(r, b, q) then
          p.contactRevision == was.contactRevision + 1 && p.invitation == Pending && p.token == None && p.sentAt == None
        else
          && p.contactRevision == was.contactRevision && p.invitation == was.invitation
          && p.token == was.token && p.sentAt == was.sentAt)
  }

  lemma UpdateExactly(r: Rows, b: int, q: Change)
    requires DistinctEmails(r.people)
    ensures Apply(r, UpdatePerson(b, q)).Done?
            <==> && b in r.people && (q.index.Assign? ==> Free(r, b, q.index.index))
                 && (q.email.Some? ==> !SomeoneElseAt(r, b, q.email.value))
    ensures Apply(r, UpdatePerson(b, q)).Done? ==>
              && var s := Next(r, UpdatePerson(b, q));
              && b in s.people && OnlyPerson(r, s, b, s.people[b]) && Changed(r, b, q, s.people[b])
  {
    if b in r.people && q.email.None? {
      assert !SomeoneElseAt(r, b, r.people[b].email);
    }
  }

  predicate Presented(r: Rows, b: int, token: nat) {
    b in r.people && r.people[b].token == Some(token)
  }

  predicate Late(p: Beneficiary, now: Time) {
    p.sentAt.Some? && now > p.sentAt.value + SEVEN_DAYS
  }

  // The holder of the token an invitation was last sent with may accept it for
  // seven days; after that trying to marks it expired. Any other attempt leaves
  // everything as it was.
  lemma AcceptExactly(r: Rows, b: int, token: nat, now: Time)
    requires Inv(r)
    ensures Apply(r, AcceptInvitation(b, token, now)).Done?
            <==> Presented(r, b, token) && (r.people[b].invitation == Sent || (r.people[b].invitation == Pending
                                                                              && Late(r.people[b], now)))
    ensures Apply(r, AcceptInvitation(b, token, now)).Done? ==>
              OnlyPerson(r, Next(r, AcceptInvitation(b, token, now)), b,
                         if Late(r.people[b], now) then r.people[b].(invitation := Expired)
                         else r.people[b].(invitation := Accepted, token := None))
  {
    hide CeremoniesValid, VaultValid, SwitchValid, DistinctIndexes, DistinctEmails;
    if b in r.people {
      assert PersonValid(r.vault, r.people[b]);
    }
  }
}
