// What each event does to the browser's key, and when an operation returns.

module KeyRules {
  import opened Wrappers
  import opened KeyLock

  const FIVE_MINUTES: Millis := 300000
  const FIFTEEN_MINUTES: Millis := 900000

  // The events at which the deadlines are looked at.
  predicate Looks(e: Event) {
    e.Look? || e.Activity? || e.Visibility? || e.EndVerify? || e.BeginUse? || e.EndUse?
  }

  predicate HeldTooLong(h: Holder, now: Millis) {
    && h.vmk.Some?
    && ((h.hiddenAt.Some? && now >= h.hiddenAt.value + FIVE_MINUTES)
        || (h.lastActivityAt.Some? && now >= h.lastActivityAt.value + FIFTEEN_MINUTES))
  }

  // The vault is locked on request, for another binding, and when a deadline is
  // found to have passed; never otherwise.
  lemma LocksExactly(b: Browser, e: Event)
    ensures Locks(b, e)
            <==> || e.LockNow?
                 || (e.BindTo? && b.holder.binding != Some(e.name))
                 || (Looks(e) && HeldTooLong(b.holder, e.now))
  {
  }

  // The key held: none after a lock, the new one after an adoption.
  lemma KeyExactly(b: Browser, e: Event)
    ensures Next(b, e).holder.vmk
         == if Locks(b, e) then None else if Adopts(b, e) then Some(e.key) else b.holder.vmk
    ensures Next(b, e).holder.epoch == b.holder.epoch + if Locks(b, e) then 1 else 0
  {
  }

  // What is on record for the deadlines.
  lemma RecordExactly(b: Browser, e: Event)
    ensures Next(b, e).holder.lastActivityAt
         == if Locks(b, e) then None
            else if Adopts(b, e) || (e.Activity? && !e.hidden && b.holder.vmk.Some?) then Some(e.now)
            else b.holder.lastActivityAt
    ensures Next(b, e).holder.hiddenAt
         == if Locks(b, e) then None
            else if Adopts(b, e) then (if e.hidden then Some(e.now) else None)
            else if e.Visibility? && b.holder.vmk.Some? then
              (if !e.hidden then None else if b.holder.hiddenAt.Some? then b.holder.hiddenAt else Some(e.now))
            else b.holder.hiddenAt
  {
  }

  // The identity and revision bound, which no lock forgets, and the generation
  // of the material, which every lock does.
  lemma BindingExactly(b: Browser, e: Event)
    ensures e.BindTo? ==> Next(b, e).holder.binding == Some(e.name) && Next(b, e).holder.revision == e.material
    ensures !e.BindTo? ==>
              Next(b, e).holder.binding == b.holder.binding && Next(b, e).holder.revision == b.holder.revision
    ensures Next(b, e).holder.generation
         == if Locks(b, e) then None
            else if Unlocks(b, e) && e.minted.Some? then e.minted
            else b.holder.generation
  {
  }

  // An operation is pending from its beginning to its end; one that uses the
  // key begins only if it is given one.
  lemma PendingExactly(b: Browser, e: Event, op: nat)
    ensures op in Next(b, e).pending
            <==> if op in b.pending then !((e.EndUnlock? || e.EndVerify? || e.EndUse?) && e.op == op)
                 else (e.BeginUnlock? && e.op == op)
                      || (e.BeginUse? && e.op == op && b.holder.vmk.Some? && !HeldTooLong(b.holder, e.now))
    ensures op !in b.pending && op in Next(b, e).pending ==>
              && Next(b, e).pending[op].epoch == b.holder.epoch
              && Next(b, e).pending[op].key == if e.BeginUse? then b.holder.vmk else None
  {
  }

  predicate Ends(e: Event) {
    e.EndUnlock? || e.EndVerify? || e.EndUse?
  }

  // The end that belongs to the way it began: an unlock was given no key, a use
  // was.
  predicate Matches(p: Pending, e: Event) {
    (e.EndUnlock? ==> p.key.None?) && (e.EndUse? ==> p.key.Some?)
  }

  lemma EndsExactly(b: Browser, e: Event)
    requires Ends(e)
    ensures Returns(b, e)
            <==> && e.op in b.pending && Matches(b.pending[e.op], e)
                 && b.pending[e.op].epoch == Next(b, e).holder.epoch
    ensures Adopts(b, e) <==> e.EndUnlock? && Returns(b, e)
  {
  }

  lemma {:induction false} EpochsCount(es: seq<Event>, i: nat, j: nat)
    requires i <= j <= |es|
    ensures At(es, i).holder.epoch == At(es, j).holder.epoch <==> forall k :: i <= k < j ==> !Locks(At(es, k), es[k])
    ensures At(es, i).holder.epoch <= At(es, j).holder.epoch
    decreases j
  {
    hide At, Next, Locks;
    if i < j {
      EpochsCount(es, i, j - 1);
      AtStep(es, j - 1);
      KeyExactly(At(es, j - 1), es[j - 1]);
    }
  }

  // In every run an operation that is pending returns its result, or adopts its
  // key, if and only if nothing has locked the vault since it began.
  lemma ReturnsExactly(es: seq<Event>, j: nat) returns (i: nat)
    requires j < |es| && Ends(es[j]) && es[j].op in At(es, j).pending
    requires Matches(At(es, j).pending[es[j].op], es[j])
    ensures i < j && Begins(es[i], es[j].op)
    ensures Returns(At(es, j), es[j]) <==> forall k :: i <= k <= j ==> !Locks(At(es, k), es[k])
  {
    hide At, Next, Locks, Returns, Matches, Adopts;
    i := PendingHistory(es, es[j].op, j);
    EndsExactly(At(es, j), es[j]);
    AtStep(es, j);
    EpochsCount(es, i, j + 1);
  }
}
