// The ceremony, rewrap and drill routes, working on the session's rows in
// place.

module CeremonyRoutes {
  import opened Wrappers
  import opened Tables
  import opened Transactions
  import opened Ceremonies
  import opened Readiness

  method CreateDraftRoute(db: Session, q: DraftRequest) returns (outcome: Outcome)
    modifies db`status, db`vault, db`ceremonies
    ensures Gives(old(db.RowsNow()), db.RowsNow(), outcome, CreateDraft(old(db.RowsNow()), q))
    ensures outcome != Discard
  {
    hide Canonical, Used, CancelDrafts;
    outcome := TakeWritable(db, Some(q.expectedRevision));
    if outcome.Raise? {
      return;
    }
    if !Canonical(q.generation) || !(1 <= q.threshold <= q.total <= 10) {
      return Raise(Invalid);
    }
    if db.vault.generation == Some(q.generation) {
      return Raise(Conflict);
    }
    if db.vault.wrapped.Some? {
      if q.initial.Some? {
        return Raise(Conflict);
      }
    } else if q.initial.None? || q.initial.value.expectedRevision != 0 || !q.initial.value.valid {
      return Raise(Invalid);
    }
    if Used(db.RowsNow(), q.generation) {
      return Raise(Conflict);
    }
    db.ceremonies := CancelDrafts(db.ceremonies);
    var row := Ceremony(q.generation, q.threshold, q.total, Draft, db.vault.revision,
                        if q.initial.Some? then Some(q.initial.value.bundle) else None, None);
    db.ceremonies := db.ceremonies + [row];
    if db.vault.wrapped.None? {
      db.vault := db.vault.(setup := Drafting);
    }
    return Commit;
  }

  method FinalizeRoute(db: Session, id: int, indexes: seq<int>) returns (outcome: Outcome)
    modifies db`status, db`vault, db`ceremonies, db`people
    ensures Gives(old(db.RowsNow()), db.RowsNow(), outcome, Finalize(old(db.RowsNow()), id, indexes))
  {
    hide Acknowledged, IndexAbove, Supersede, Unassign;
    if !(0 <= id < |db.ceremonies|) {
      return Raise(NotFound);
    }
    outcome := TakeWritable(db, None);
    if outcome.Raise? {
      return;
    }
    var row := db.ceremonies[id];
    if row.status == Finalized {
      return Discard;
    }
    if row.status != Draft || db.vault.revision != row.expectedRevision {
      return Raise(Conflict);
    }
    if !Acknowledged(indexes, row.total) {
      return Raise(Invalid);
    }
    if IndexAbove(db.RowsNow(), row.total) {
      return Raise(Conflict);
    }
    db.ceremonies := Supersede(db.ceremonies);
    if row.pending.Some? {
      db.vault := ApplyMaterial(db.vault, row.pending.value);
    } else {
      db.vault := db.vault.(revision := db.vault.revision + 1);
    }
    db.vault := db.vault.(threshold := row.threshold, total := row.total);
    db.vault := db.vault.(generation := Some(row.generation), setup := Ready);
    db.ceremonies := db.ceremonies[id := row.(status := Finalized, pending := None)];
    db.people := Unassign(db.people);
    return Commit;
  }

  method CancelRoute(db: Session, id: int) returns (outcome: Outcome)
    modifies db`status, db`vault, db`ceremonies
    ensures Gives(old(db.RowsNow()), db.RowsNow(), outcome, Cancel(old(db.RowsNow()), id))
    ensures outcome != Discard
  {
    if !(0 <= id < |db.ceremonies|) {
      return Raise(NotFound);
    }
    outcome := TakeWritable(db, None);
    if outcome.Raise? {
      return;
    }
    var row := db.ceremonies[id];
    if row.status == Finalized {
      return Raise(Conflict);
    }
    db.ceremonies := db.ceremonies[id := row.(status := Cancelled, pending := None)];
    if db.vault.wrapped.None? {
      db.vault := db.vault.(setup := Uninitialized);
    }
    return Commit;
  }

  method SaveCryptoMaterial(db: Session, expected: int, bundle: Bundle, valid: bool) returns (outcome: Outcome)
    modifies db`status, db`vault
    ensures Gives(old(db.RowsNow()), db.RowsNow(), outcome, Rewrap(old(db.RowsNow()), expected, bundle, valid))
    ensures outcome != Discard
  {
    if !valid {
      return Raise(Invalid);
    }
    outcome := TakeWritable(db, Some(expected));
    if outcome.Raise? {
      return;
    }
    if db.vault.wrapped.None? {
      return Raise(Conflict);
    }
    db.vault := ApplyMaterial(db.vault, bundle);
    return Commit;
  }

  method ReportDrillRoute(db: Session, d: Drill) returns (outcome: Outcome)
    modifies db`status, db`ceremonies
    ensures Gives(old(db.RowsNow()), db.RowsNow(), outcome, ReportDrill(old(db.RowsNow()), d))
    ensures outcome != Discard
  {
    hide BindingOf, CurrentFrom;
    db.LockStatus();
    var signature := BindingOf(db.RowsNow());
    if db.vault.revision != d.revision || db.vault.generation != Some(d.generation) || signature != d.binding {
      return Raise(Conflict);
    }
    var row := CurrentFrom(db.RowsNow(), 0);
    if row.None? {
      return Raise(Conflict);
    }
    db.ceremonies := db.ceremonies[row.value := db.ceremonies[row.value].(drill := Some(d))];
    return Commit;
  }
}
