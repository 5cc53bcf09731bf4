// How a route ends: it commits, leaves without committing, or raises, and
// without a commit everything it wrote is rolled back.

module Transactions {
  import opened Wrappers
  import opened Tables

  datatype Outcome = Commit | Discard | Raise(why: Refusal)

  // From rows r, a route that left rows s and ended so gave this reply.
  predicate Gives(r: Rows, s: Rows, outcome: Outcome, reply: Reply) {
    match outcome
    case Commit => reply == Done(s)
    case Discard => reply == Done(r)
    case Raise(why) => reply == Refused(why)
  }

  method Settle(db: Session, outcome: Outcome)
    modifies db
    ensures db.Clean()
    ensures db.committed == if outcome.Commit? then old(db.Now()) else old(db.committed)
  {
    if outcome.Commit? {
      db.Commit();
    } else {
      db.Rollback();
    }
  }

  // The vault's lock, refused once it is released or its material has changed.
  method TakeWritable(db: Session, expected: Option<int>) returns (outcome: Outcome)
    modifies db`status
    ensures Gives(old(db.RowsNow()), db.RowsNow(), outcome, Writable(old(db.RowsNow()), expected))
    ensures outcome != Discard && db.RowsNow() == Lock(old(db.RowsNow()))
  {
    db.LockStatus();
    if db.status.state == Triggered {
      return Raise(Conflict);
    }
    if expected.Some? && db.vault.revision != expected.value {
      return Raise(Conflict);
    }
    return Commit;
  }
}
