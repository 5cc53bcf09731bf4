// The browser's holder of the unwrapped vault key: deadlines that lock it,
// epochs that tell a lock has happened, and operations that wait in between.

module KeyLock {
  import opened Wrappers
  import Field

  type Millis = int

  type Key = seq<Field.Byte>

  const HIDDEN_LOCK: Millis := 5 * 60 * 1000
  const IDLE_LOCK: Millis := 15 * 60 * 1000

  datatype Holder = Holder(
    vmk: Option<Key>, epoch: nat, binding: Option<string>, revision: int,
    hiddenAt: Option<Millis>, lastActivityAt: Option<Millis>, generation: Option<string>)

  const LOCKED: Holder := Holder(None, 0, None, 0, None, None, None)

  function Lock(h: Holder): Holder {
    h.(vmk := None, epoch := h.epoch + 1, hiddenAt := None, lastActivityAt := None, generation := None)
  }

  predicate Overdue(h: Holder, now: Millis) {
    && h.vmk.Some?
    && ((h.hiddenAt.Some? && now - h.hiddenAt.value >= HIDDEN_LOCK)
        || (h.lastActivityAt.Some? && now - h.lastActivityAt.value >= IDLE_LOCK))
  }

  function Enforce(h: Holder, now: Millis): Holder {
    if Overdue(h, now) then Lock(h) else h
  }

  // name is the identity and the material revision written together.
  function Bind(h: Holder, name: string, material: int): Holder {
    (if h.binding != Some(name) then Lock(h) else h).(binding := Some(name), revision := material)
  }

  function NoteActivity(h: Holder, now: Millis, hidden: bool): Holder {
    var e := Enforce(h, now);
    if e.vmk.Some? && !hidden then e.(lastActivityAt := Some(now)) else e
  }

  function NoteVisibility(h: Holder, hidden: bool, now: Millis): Holder {
    var e := Enforce(h, now);
    if e.vmk.None? then e
    else e.(hiddenAt := if !hidden then None else if e.hiddenAt.Some? then e.hiddenAt else Some(now))
  }

  function Adopt(h: Holder, key: Key, now: Millis, hidden: bool): Holder {
    h.(vmk := Some(key), lastActivityAt := Some(now), hiddenAt := if hidden then Some(now) else None)
  }

  // ---------------------------------------------------------------------
  // Operations in flight
  // ---------------------------------------------------------------------

  // An operation remembers the epoch it began in; one that uses the key, the
  // key it was given.
  datatype Pending = Pending(epoch: nat, key: Option<Key>)

  datatype Browser = Browser(holder: Holder, pending: map<nat, Pending>)

  const OPENED: Browser := Browser(LOCKED, map[])

  // hidden is document.hidden at the moment of an adoption or activity. Op
  // numbers name operations.
  datatype Event =
    | LockNow
    | BindTo(name: string, material: int)
    | Look(now: Millis)                             // isUnlocked, millisecondsUntilVaultLock
    | Activity(now: Millis, hidden: bool)
    | Visibility(hidden: bool, now: Millis)
    | Recover(key: Key, now: Millis, hidden: bool)
    | BeginUnlock(op: nat)                          // setupVault, unlockVault, verifyRecovery
    | EndUnlock(op: nat, key: Key, now: Millis, hidden: bool, minted: Option<string>)
    | EndVerify(op: nat, now: Millis)
    | BeginUse(op: nat, now: Millis)                // encrypt, decrypt, rewrap, reshare
    | EndUse(op: nat, now: Millis)

  // An operation that ends is forgotten, whether it succeeds or throws.
  function Ended(b: Browser, op: nat): map<nat, Pending> {
    b.pending - {op}
  }

  function Next(b: Browser, e: Event): Browser {
    match e
    case LockNow => b.(holder := Lock(b.holder))
    case BindTo(name, material) => b.(holder := Bind(b.holder, name, material))
    case Look(now) => b.(holder := Enforce(b.holder, now))
    case Activity(now, hidden) => b.(holder := NoteActivity(b.holder, now, hidden))
    case Visibility(hidden, now) => b.(holder := NoteVisibility(b.holder, hidden, now))
    case Recover(key, now, hidden) => b.(holder := Adopt(b.holder, key, now, hidden))
    case BeginUnlock(op) => if op in b.pending then b else b.(pending := b.pending[op := Pending(b.holder.epoch, None)])
    case EndUnlock(op, key, now, hidden, minted) =>
      if Unlocks(b, e) then
        Browser(Adopt(if minted.Some? then b.holder.(generation := minted)
                      else b.holder, key, now, hidden), Ended(b, op))
      else b.(pending := Ended(b, op))
    case EndVerify(op, now) => Browser(Enforce(b.holder, now), Ended(b, op))
    case BeginUse(op, now) =>
      var h := Enforce(b.holder, now);
      if op in b.pending || h.vmk.None? then b.(holder := h)
      else Browser(h, b.pending[op := Pending(b.holder.epoch, h.vmk)])
    case EndUse(op, now) => Browser(Enforce(b.holder, now), Ended(b, op))
  }

  // The end of an unlock or setup adopts its key.
  predicate Unlocks(b: Browser, e: Event) {
    e.EndUnlock? && e.op in b.pending && b.pending[e.op].key.None? && b.pending[e.op].epoch == b.holder.epoch
  }

  // A key takes the place of whatever was held.
  predicate Adopts(b: Browser, e: Event) {
    e.Recover? || Unlocks(b, e)
  }

  // The end of an operation returns its result.
  predicate Returns(b: Browser, e: Event) {
    || Unlocks(b, e)
    || (e.EndVerify? && e.op in b.pending && b.pending[e.op].epoch == Enforce(b.holder, e.now).epoch)
    || (e.EndUse? && e.op in b.pending && b.pending[e.op].key.Some?
        && b.pending[e.op].epoch == Enforce(b.holder, e.now).epoch)
  }

  // The beginning of an operation is given the key.
  predicate GivesKey(b: Browser, e: Event) {
    e.BeginUse? && Enforce(b.holder, e.now).vmk.Some?
  }

  function After(es: seq<Event>): Browser
    decreases |es|
  {
    if es == [] then OPENED else Next(After(es[..|es| - 1]), es[|es| - 1])
  }

  function At(es: seq<Event>, i: nat): Browser
    requires i <= |es|
  {
    After(es[..i])
  }

  // The event locked the vault.
  predicate Locks(b: Browser, e: Event) {
    Next(b, e).holder.epoch != b.holder.epoch
  }

  predicate Begins(e: Event, op: nat) {
    (e.BeginUnlock? || e.BeginUse?) && e.op == op
  }

  lemma AtStep(es: seq<Event>, i: nat)
    requires i < |es|
    ensures At(es, i + 1) == Next(At(es, i), es[i])
  {
    hide Next;
    assert es[..i + 1][..i] == es[..i];
  }

  // ---------------------------------------------------------------------
  // Epochs
  // ---------------------------------------------------------------------

  // Every lock, and nothing else, starts a new epoch; a locked vault keeps no
  // key and no deadline.
  lemma EpochStep(b: Browser, e: Event)
    ensures Next(b, e).holder.epoch == b.holder.epoch || Next(b, e).holder.epoch == b.holder.epoch + 1
    ensures Locks(b, e) ==> Next(b, e).holder.vmk.None?
  {
  }

  lemma {:induction false} EpochHistory(es: seq<Event>, i: nat, j: nat)
    requires i <= j <= |es|
    ensures At(es, i).holder.epoch <= At(es, j).holder.epoch
    ensures At(es, i).holder.epoch == At(es, j).holder.epoch ==> forall k :: i <= k < j ==> !Locks(At(es, k), es[k])
    decreases j
  {
    hide At, Next;
    if i < j {
      EpochHistory(es, i, j - 1);
      AtStep(es, j - 1);
      EpochStep(At(es, j - 1), es[j - 1]);
    }
  }

  // A pending operation began at some event, in the epoch it remembers.
  lemma {:induction false} PendingHistory(es: seq<Event>, op: nat, j: nat) returns (i: nat)
    requires j <= |es| && op in At(es, j).pending
    ensures i < j && Begins(es[i], op) && At(es, i).holder.epoch == At(es, j).pending[op].epoch
    ensures At(es, i + 1).holder.epoch == At(es, i).holder.epoch
    decreases j
  {
    hide At, Next;
    AtZero(es);
    AtStep(es, j - 1);
    PendingStep(At(es, j - 1), es[j - 1], op);
    if op in At(es, j - 1).pending {
      i := PendingHistory(es, op, j - 1);
    } else {
      i := j - 1;
    }
  }

  lemma AtZero(es: seq<Event>)
    ensures At(es, 0) == OPENED
  {
    assert es[..0] == [];
  }

  lemma PendingStep(b: Browser, e: Event, op: nat)
    requires op in Next(b, e).pending
    ensures op in b.pending ==> Next(b, e).pending[op] == b.pending[op]
    ensures op !in b.pending ==>
              Begins(e, op) && Next(b, e).pending[op].epoch == b.holder.epoch
                  && Next(b, e).holder.epoch == b.holder.epoch
  {
  }

  // An operation returns its result, or adopts its key, only if no lock has
  // happened between its beginning and then: whatever locks, rebinds, hidden
  // tabs and idle hours came in between.
  lemma ReturnsUnlocked(es: seq<Event>, j: nat) returns (i: nat)
    requires j < |es| && Returns(At(es, j), es[j])
    ensures i < j && Begins(es[i], es[j].op)
    ensures forall k :: i <= k <= j ==> !Locks(At(es, k), es[k])
  {
    hide At;
    i := PendingHistory(es, es[j].op, j);
    EndStep(At(es, j), es[j]);
    AtStep(es, j);
    EpochHistory(es, i, j + 1);
  }

  lemma EndStep(b: Browser, e: Event)
    requires Returns(b, e)
    ensures e.op in b.pending && Next(b, e).holder.epoch == b.pending[e.op].epoch
  {
  }

  // ---------------------------------------------------------------------
  // Deadlines
  // ---------------------------------------------------------------------

  function TimeOf(e: Event): Option<Millis> {
    match e
    case LockNow => None
    case BindTo(_, _) => None
    case BeginUnlock(_) => None
    case Look(now) => Some(now)
    case Activity(now, _) => Some(now)
    case Visibility(_, now) => Some(now)
    case Recover(_, now, _) => Some(now)
    case EndUnlock(_, _, now, _, _) => Some(now)
    case EndVerify(_, now) => Some(now)
    case BeginUse(_, now) => Some(now)
    case EndUse(_, now) => Some(now)
  }

  // Somebody was there at e: the key was adopted, or activity noted on a
  // visible page.
  predicate Present(b: Browser, e: Event) {
    Adopts(b, e) || (e.Activity? && !e.hidden)
  }

  // While there is a key, the latest sign of presence is on record.
  lemma {:induction false} PresenceRecorded(es: seq<Event>, j: nat) returns (i: nat)
    requires j <= |es| && At(es, j).holder.vmk.Some?
    ensures i < j && Present(At(es, i), es[i])
    ensures forall k :: i < k < j ==> !Present(At(es, k), es[k])
    ensures TimeOf(es[i]).Some? && At(es, j).holder.lastActivityAt == TimeOf(es[i])
    decreases j
  {
    hide At, Next;
    AtZero(es);
    AtStep(es, j - 1);
    PresenceStep(At(es, j - 1), es[j - 1]);
    if Present(At(es, j - 1), es[j - 1]) {
      i := j - 1;
    } else {
      i := PresenceRecorded(es, j - 1);
    }
  }

  lemma PresenceStep(b: Browser, e: Event)
    requires Next(b, e).holder.vmk.Some?
    ensures Present(b, e) ==> TimeOf(e).Some? && Next(b, e).holder.lastActivityAt == TimeOf(e)
    ensures !Present(b, e) ==> b.holder.vmk.Some? && Next(b, e).holder.lastActivityAt == b.holder.lastActivityAt
  {
  }

  // The key is given out only within fifteen minutes of a sign of presence.
  lemma IdleDeadline(es: seq<Event>, j: nat) returns (i: nat)
    requires j < |es| && GivesKey(At(es, j), es[j])
    ensures i < j && Present(At(es, i), es[i])
    ensures TimeOf(es[i]).Some? && es[j].now - TimeOf(es[i]).value < IDLE_LOCK
  {
    hide At;
    i := PresenceRecorded(es, j);
  }

  // The page is shown again.
  predicate Shows(e: Event) {
    e.Visibility? && !e.hidden
  }

  // The page goes hidden, or a key is adopted while it is.
  predicate StartsHidden(b: Browser, e: Event) {
    (e.Visibility? && e.hidden) || (Adopts(b, e) && e.hidden)
  }

  predicate Ordered(es: seq<Event>) {
    forall i, j :: 0 <= i < j < |es| && TimeOf(es[i]).Some? && TimeOf(es[j]).Some? ==>
                     TimeOf(es[i]).value <= TimeOf(es[j]).value
  }

  // The recorded hiding time is that of an earlier event.
  predicate HiddenPast(h: Holder, t: Millis) {
    h.vmk.Some? && h.hiddenAt.Some? ==> h.hiddenAt.value <= t
  }

  lemma HiddenStep(b: Browser, e: Event, t: Millis)
    requires HiddenPast(b.holder, t) && (TimeOf(e).Some? ==> t <= TimeOf(e).value)
    ensures HiddenPast(Next(b, e).holder, if TimeOf(e).Some? then TimeOf(e).value else t)
  {
  }

  lemma {:induction false} HiddenHistory(es: seq<Event>, j: nat, t: Millis)
    requires j <= |es| && Ordered(es)
    requires forall k :: 0 <= k < j && TimeOf(es[k]).Some? ==> TimeOf(es[k]).value <= t
    ensures HiddenPast(At(es, j).holder, t)
    decreases j
  {
    hide At, Next;
    AtZero(es);
    if j > 0 {
      var u := if TimeOf(es[j - 1]).Some? then TimeOf(es[j - 1]).value else t;
      AtStep(es, j - 1);
      HiddenHistory(es, j - 1, u);
      HiddenStep(At(es, j - 1), es[j - 1], u);
    }
  }

  predicate HiddenSince(h: Holder, t: Millis) {
    h.vmk.Some? ==> h.hiddenAt.Some? && h.hiddenAt.value <= t
  }

  lemma HiddenSinceStep(b: Browser, e: Event, t: Millis)
    requires HiddenSince(b.holder, t) && !Shows(e) && !Adopts(b, e)
    ensures HiddenSince(Next(b, e).holder, t)
  {
  }

  lemma HidingStep(b: Browser, e: Event)
    requires StartsHidden(b, e) && HiddenPast(b.holder, e.now)
    ensures HiddenSince(Next(b, e).holder, e.now)
  {
  }

  lemma {:induction false} StillHidden(es: seq<Event>, i: nat, j: nat)
    requires i < j <= |es| && Ordered(es) && StartsHidden(At(es, i), es[i])
    requires forall k :: i < k < j ==> !Shows(es[k]) && !Adopts(At(es, k), es[k])
    ensures HiddenSince(At(es, j).holder, es[i].now)
    decreases j
  {
    hide At, Next, Shows, Adopts, Unlocks;
    AtStep(es, j - 1);
    HidingTime(At(es, i), es[i]);
    var t := TimeOf(es[i]).value;
    if j == i + 1 {
      HiddenHistory(es, i, t);
      HidingStep(At(es, i), es[i]);
    } else {
      StillHidden(es, i, j - 1);
      HiddenSinceStep(At(es, j - 1), es[j - 1], t);
    }
  }

  lemma HidingTime(b: Browser, e: Event)
    requires StartsHidden(b, e)
    ensures TimeOf(e) == Some(e.now)
  {
  }

  // From when the page is hidden, or a key is adopted while it is, and until
  // the page is shown or another key adopted, the key is given out for five
  // minutes and no longer.
  lemma HiddenDeadline(es: seq<Event>, i: nat, j: nat)
    requires i < j < |es| && Ordered(es) && StartsHidden(At(es, i), es[i])
    requires forall k :: i < k < j ==> !Shows(es[k]) && !Adopts(At(es, k), es[k])
    requires GivesKey(At(es, j), es[j])
    ensures es[j].now - es[i].now < HIDDEN_LOCK
  {
    hide At, Shows, Adopts, StartsHidden;
    StillHidden(es, i, j);
  }

  // Since when the page has counted as hidden, by the events alone.
  function HiddenFrom(es: seq<Event>, j: nat): Option<Millis>
    requires j <= |es|
    decreases j
  {
    if j == 0 then None
    else
      var b, e := At(es, j - 1), es[j - 1];
      if Adopts(b, e) then (if e.hidden then Some(e.now) else None)
      else if Shows(e) then None
      else if e.Visibility? && HiddenFrom(es, j - 1).None? then Some(e.now)
      else HiddenFrom(es, j - 1)
  }

  lemma HiddenFromStep(b: Browser, e: Event)
    requires Next(b, e).holder.vmk.Some? && b.holder.vmk.Some? && !Adopts(b, e)
    ensures Next(b, e).holder.hiddenAt
         == if Shows(e) then None
            else if e.Visibility? && b.holder.hiddenAt.None? then Some(e.now)
            else b.holder.hiddenAt
  {
  }

  lemma AdoptedHidden(b: Browser, e: Event)
    ensures Adopts(b, e) ==> Next(b, e).holder.hiddenAt == if e.hidden then Some(e.now) else None
    ensures !Adopts(b, e) && Next(b, e).holder.vmk.Some? ==> b.holder.vmk.Some?
  {
  }

  // While there is a key, what is on record is what the events say.
  lemma {:induction false} HiddenRecorded(es: seq<Event>, j: nat)
    requires j <= |es| && At(es, j).holder.vmk.Some?
    ensures At(es, j).holder.hiddenAt == HiddenFrom(es, j)
    decreases j
  {
    hide At, Next, Adopts, Shows;
    AtZero(es);
    AtStep(es, j - 1);
    var b, e := At(es, j - 1), es[j - 1];
    AdoptedHidden(b, e);
    if !Adopts(b, e) {
      HiddenRecorded(es, j - 1);
      HiddenFromStep(b, e);
    }
  }

  // In every run a held key is given out exactly within fifteen minutes of the
  // last sign of presence, event i, and, if the page counts as hidden, within
  // five minutes of when it began to.
  lemma KeyGivenExactly(es: seq<Event>, j: nat) returns (i: nat)
    requires j < |es| && es[j].BeginUse? && At(es, j).holder.vmk.Some?
    ensures i < j && Present(At(es, i), es[i]) && TimeOf(es[i]).Some?
    ensures forall k :: i < k < j ==> !Present(At(es, k), es[k])
    ensures GivesKey(At(es, j), es[j])
            <==> && es[j].now - TimeOf(es[i]).value < IDLE_LOCK
                 && (HiddenFrom(es, j).Some? ==> es[j].now - HiddenFrom(es, j).value < HIDDEN_LOCK)
  {
    hide At, HiddenFrom, Present;
    i := PresenceRecorded(es, j);
    HiddenRecorded(es, j);
  }

  // Each adoption on a hidden page counts anew: with a second one in between,
  // the key is given out eight minutes after the page was hidden.
  lemma AdoptionExtends(key: Key) returns (es: seq<Event>)
    ensures |es| == 4 && es[1] == Visibility(true, 0) && es[2] == Recover(key, 4 * 60 * 1000, true)
    ensures Ordered(es) && (forall k :: 1 <= k < 3 ==> !Shows(es[k]))
    ensures GivesKey(At(es, 3), es[3]) && es[3].now - es[1].now > HIDDEN_LOCK
  {
    es := [Recover(key, 0, false), Visibility(true, 0), Recover(key, 4 * 60 * 1000, true), BeginUse(0, 8 * 60 * 1000)];
    AtZero(es);
    AtStep(es, 0);
    AtStep(es, 1);
    AtStep(es, 2);
    hide At;
    assert At(es, 3).holder.hiddenAt == Some(4 * 60 * 1000);
    assert At(es, 3).holder.lastActivityAt == Some(4 * 60 * 1000);
  }

  // ---------------------------------------------------------------------
  // The key an operation was given and the key that is held
  // ---------------------------------------------------------------------

  // The key of the last adoption among events lo to hi - 1.
  function LastAdopted(es: seq<Event>, lo: nat, hi: nat): Option<Key>
    requires lo <= hi <= |es|
    decreases hi
  {
    if lo == hi then None
    else if Adopts(At(es, hi - 1), es[hi - 1]) then Some(es[hi - 1].key)
    else LastAdopted(es, lo, hi - 1)
  }

  // Without a lock, only an adoption changes the key that is held.
  lemma KeyStep(b: Browser, e: Event)
    requires !Locks(b, e)
    ensures Next(b, e).holder.vmk == if Adopts(b, e) then Some(e.key) else b.holder.vmk
  {
  }

  lemma {:induction false} KeyHistory(es: seq<Event>, lo: nat, hi: nat)
    requires lo <= hi <= |es| && forall k :: lo <= k < hi ==> !Locks(At(es, k), es[k])
    ensures At(es, hi).holder.vmk
         == if LastAdopted(es, lo, hi).Some? then LastAdopted(es, lo, hi) else At(es, lo).holder.vmk
    decreases hi
  {
    hide At, Next, Adopts, Locks;
    if lo < hi {
      assert !Locks(At(es, hi - 1), es[hi - 1]);
      AtStep(es, hi - 1);
      KeyStep(At(es, hi - 1), es[hi - 1]);
      KeyHistory(es, lo, hi - 1);
    }
  }

  lemma GivenStep(b: Browser, e: Event, op: nat)
    requires op in Next(b, e).pending && op !in b.pending && Next(b, e).pending[op].key.Some?
    ensures e.BeginUse? && e.op == op && Next(b, e).pending[op].key == Next(b, e).holder.vmk
  {
  }

  // The operation has been pending since event i gave it the key held then.
  lemma {:induction false} GivenHistory(es: seq<Event>, op: nat, j: nat) returns (i: nat)
    requires j <= |es| && op in At(es, j).pending && At(es, j).pending[op].key.Some?
    ensures i < j && es[i].BeginUse? && es[i].op == op
    ensures At(es, j).pending[op].key == At(es, i + 1).holder.vmk
    ensures At(es, j).pending[op].epoch == At(es, i).holder.epoch
    ensures forall k :: i < k <= j ==> op in At(es, k).pending
    decreases j
  {
    hide At, Next;
    AtZero(es);
    AtStep(es, j - 1);
    PendingStep(At(es, j - 1), es[j - 1], op);
    if op in At(es, j - 1).pending {
      i := GivenHistory(es, op, j - 1);
    } else {
      GivenStep(At(es, j - 1), es[j - 1], op);
      i := j - 1;
    }
  }

  // In every run, when an operation returns, the key held then is the key it
  // was given if and only if no key was adopted since it began, or the last
  // one that was is the same.
  lemma ReturnsUnderHeldKey(es: seq<Event>, j: nat) returns (i: nat)
    requires j < |es| && es[j].EndUse? && Returns(At(es, j), es[j])
    ensures i < j && es[i].BeginUse? && es[i].op == es[j].op
    ensures forall k :: i < k <= j ==> es[j].op in At(es, k).pending
    ensures var given := At(es, j).pending[es[j].op].key;
            && given.Some?
            && (At(es, j + 1).holder.vmk == given
                <==> LastAdopted(es, i + 1, j).None? || LastAdopted(es, i + 1, j) == given)
  {
    hide At, LastAdopted;
    i := GivenHistory(es, es[j].op, j);
    EndStep(At(es, j), es[j]);
    AtStep(es, j);
    EpochHistory(es, i, j + 1);
    KeyHistory(es, i + 1, j);
    assert !Locks(At(es, j), es[j]);
    KeyStep(At(es, j), es[j]);
  }

  // Adopting a key over another starts no epoch: an operation given the first
  // key returns its result although the second is held by then.
  lemma SwappedKey(first: Key, second: Key) returns (es: seq<Event>)
    ensures |es| == 4 && es[1] == BeginUse(0, 0) && es[3] == EndUse(0, 0)
    ensures Returns(At(es, 3), es[3]) && At(es, 3).pending[0].key == Some(first)
    ensures At(es, 3).holder.vmk == Some(second)
  {
    es := [Recover(first, 0, false), BeginUse(0, 0), Recover(second, 0, false), EndUse(0, 0)];
    AtZero(es);
    AtStep(es, 0);
    AtStep(es, 1);
    AtStep(es, 2);
    hide At;
    assert At(es, 1).holder.vmk == Some(first);
    assert At(es, 2).pending[0] == Pending(0, Some(first));
  }

  // ---------------------------------------------------------------------
  // The module's state, updated in place
  // ---------------------------------------------------------------------

  predicate Zeroed(a: seq<Field.Byte>) {
    forall i :: 0 <= i < |a| ==> a[i] == 0
  }

  method ZeroMemory(a: array<Field.Byte>)
    modifies a
    ensures Zeroed(a[..])
  {
    for i := 0 to a.Length
      invariant forall j :: 0 <= j < i ==> a[j] == 0
    {
      a[i] := 0;
    }
  }

  class KeySession {
    var vmk: array?<Field.Byte>
    var epoch: nat
    var binding: Option<string>
    var revision: int
    var hiddenAt: Option<Millis>
    var lastActivityAt: Option<Millis>
    var generation: Option<string>

    constructor ()
      ensures View() == LOCKED
    {
      vmk, epoch, binding, revision := null, 0, None, 0;
      hiddenAt, lastActivityAt, generation := None, None, None;
    }

    function View(): Holder
      reads this, vmk
    {
      Holder(if vmk == null then None
             else Some(vmk[..]), epoch, binding, revision, hiddenAt, lastActivityAt, generation)
    }

    // Forgets the key, and wipes the buffer it was in.
    method LockVault()
      modifies this, vmk
      ensures View() == Lock(old(View())) && vmk == null
      ensures old(vmk) != null ==> Zeroed(old(vmk)[..])
    {
      epoch := epoch + 1;
      generation := None;
      if vmk != null {
        ZeroMemory(vmk);
      }
      vmk := null;
      hiddenAt := None;
      lastActivityAt := None;
    }

    method EnforceLockDeadline(now: Millis)
      modifies this, vmk
      ensures View() == Enforce(old(View()), now)
      ensures vmk == old(vmk) || vmk == null
      ensures old(vmk) != null && vmk == null ==> Zeroed(old(vmk)[..])
    {
      if vmk != null && ((hiddenAt.Some? && now - hiddenAt.value >= HIDDEN_LOCK)
                         || (lastActivityAt.Some? && now - lastActivityAt.value >= IDLE_LOCK)) {
        LockVault();
      }
    }

    method BindVault(name: string, material: int)
      modifies this, vmk
      ensures View() == Bind(old(View()), name, material)
    {
      if binding != Some(name) {
        LockVault();
      }
      binding := Some(name);
      revision := material;
    }

    method NoteVaultActivity(now: Millis, hidden: bool)
      modifies this, vmk
      ensures View() == NoteActivity(old(View()), now, hidden)
    {
      EnforceLockDeadline(now);
      if vmk != null && !hidden {
        lastActivityAt := Some(now);
      }
    }

    method NoteVaultVisibility(hidden: bool, now: Millis)
      modifies this, vmk
      ensures View() == NoteVisibility(old(View()), hidden, now)
    {
      EnforceLockDeadline(now);
      if vmk != null {
        if !hidden {
          hiddenAt := None;
        } else if hiddenAt.None? {
          hiddenAt := Some(now);
        }
      }
    }

    // The key's own buffer, unless a deadline has passed.
    method RequireKey(now: Millis) returns (key: array?<Field.Byte>)
      modifies this, vmk
      ensures View() == Enforce(old(View()), now) && key == vmk
    {
      EnforceLockDeadline(now);
      key := vmk;
    }

    // Copies the key and wipes both the caller's buffer and the one before.
    method AdoptKey(raw: array<Field.Byte>, now: Millis, hidden: bool)
      requires raw != vmk
      modifies this, vmk, raw
      ensures View() == Adopt(old(View()), old(raw[..]), now, hidden)
      ensures fresh(vmk) && Zeroed(raw[..])
      ensures old(vmk) != null ==> Zeroed(old(vmk)[..])
    {
      if vmk != null {
        ZeroMemory(vmk);
      }
      var copy := new Field.Byte[raw.Length](i requires 0 <= i < raw.Length reads raw => raw[i]);
      assert copy[..] == raw[..];
      vmk := copy;
      ZeroMemory(raw);
      lastActivityAt := Some(now);
      hiddenAt := if hidden then Some(now) else None;
    }

    // The synchronous ends of operations: what they do once the wait is over.
    method EndUnlockOperation(before: nat, raw: array<Field.Byte>, minted: Option<string>, now: Millis, hidden: bool)
      returns (ok: bool)
      requires raw != vmk
      modifies this, vmk, raw
      ensures ok == (old(epoch) == before) && Zeroed(raw[..])
      ensures View() == if ok then Adopt(if minted.Some? then old(View()).(generation := minted) else old(View()),
                                         old(raw[..]), now, hidden)
                        else old(View())
    {
      if before != epoch {
        ZeroMemory(raw);
        return false;
      }
      if minted.Some? {
        generation := minted;
      }
      AdoptKey(raw, now, hidden);
      return true;
    }

    method AssertEpoch(value: nat, now: Millis) returns (ok: bool)
      modifies this, vmk
      ensures View() == Enforce(old(View()), now)
      ensures ok == (Enforce(old(View()), now).epoch == value)
    {
      EnforceLockDeadline(now);
      ok := epoch == value;
    }
  }
}
