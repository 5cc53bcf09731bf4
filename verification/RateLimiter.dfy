// The in-process sliding-window limiter: per key, the stamps of the requests
// admitted within the last minute and the last hour.

module RateLimiter {
  import opened Collections

  const MINUTE: real := 60.0
  const HOUR: real := 3600.0

  // One request: its bucket key with that key's limits, and the three readings
  // of the clock the code takes, for the stamp and for each of the cleanups.
  datatype Request = Request(key: string, perMinute: nat, perHour: nat, stamp: real, minuteNow: real, hourNow: real)

  datatype Verdict = Admitted | MinuteExceeded | HourExceeded

  // order lists the keys of minute in the order they were inserted.
  datatype Buckets = Buckets(order: seq<string>, minute: map<string, seq<real>>, hour: map<string, seq<real>>)

  const EMPTY: Buckets := Buckets([], map[], map[])

  // A dictionary read gives a missing key an empty list.
  function Get(m: map<string, seq<real>>, key: string): seq<real> {
    if key in m then m[key] else []
  }

  // Stamps are popped from the head while they are too old.
  function Expire(bucket: seq<real>, cutoff: real): seq<real>
    decreases |bucket|
  {
    if bucket != [] && bucket[0] < cutoff then Expire(bucket[1..], cutoff) else bucket
  }

  function Insert(b: Buckets, key: string): Buckets {
    if key in b.minute then b else b.(order := b.order + [key], minute := b.minute[key := []])
  }

  function Forget(m: map<string, seq<real>>, keys: seq<string>): map<string, seq<real>> {
    map k | k in m && k !in keys :: m[k]
  }

  // How many of the oldest keys have to go.
  function Excess(b: Buckets, maxKeys: nat): nat
  {
    if |b.order| > maxKeys then |b.order| - maxKeys else 0
  }

  function Evict(b: Buckets, maxKeys: nat): Buckets {
    var n := Excess(b, maxKeys);
    Buckets(b.order[n..], Forget(b.minute, b.order[..n]), Forget(b.hour, b.order[..n]))
  }

  // The key's two buckets, without what is too old.
  function Cleaned(b: Buckets, q: Request): Buckets {
    var c := Insert(b, q.key);
    c.(minute := c.minute[q.key := Expire(Get(c.minute, q.key), q.minuteNow - MINUTE)],
       hour := c.hour[q.key := Expire(Get(c.hour, q.key), q.hourNow - HOUR)])
  }

  // Reading the buckets after the eviction may insert the key again.
  function Prepared(b: Buckets, maxKeys: nat, q: Request): Buckets {
    Insert(Evict(Cleaned(b, q), maxKeys), q.key)
  }

  function VerdictOf(b: Buckets, q: Request): Verdict {
    if |Get(b.minute, q.key)| >= q.perMinute then MinuteExceeded
    else if |Get(b.hour, q.key)| >= q.perHour then HourExceeded
    else Admitted
  }

  function Handle(b: Buckets, maxKeys: nat, q: Request): Buckets {
    var c := Prepared(b, maxKeys, q);
    match VerdictOf(c, q)
    case MinuteExceeded => c
    case HourExceeded => c.(hour := c.hour[q.key := Get(c.hour, q.key)])
    case Admitted =>
      c.(minute := c.minute[q.key := Get(c.minute, q.key) + [q.stamp]],
         hour := c.hour[q.key := Get(c.hour, q.key) + [q.stamp]])
  }

  function AfterAll(maxKeys: nat, qs: seq<Request>): Buckets
    decreases |qs|
  {
    if qs == [] then EMPTY else Handle(AfterAll(maxKeys, qs[..|qs| - 1]), maxKeys, qs[|qs| - 1])
  }

  predicate AdmittedBy(b: Buckets, maxKeys: nat, q: Request) {
    VerdictOf(Prepared(b, maxKeys, q), q) == Admitted
  }

  // The stamps of the admitted requests under a key, in order.
  function Stamps(maxKeys: nat, qs: seq<Request>, key: string): seq<real>
    decreases |qs|
  {
    if qs == [] then []
    else
      var n := |qs| - 1;
      Stamps(maxKeys, qs[..n], key)
      + if qs[n].key == key && AdmittedBy(AfterAll(maxKeys, qs[..n]), maxKeys, qs[n]) then [qs[n].stamp] else []
  }

  // ---------------------------------------------------------------------
  // Stored keys
  // ---------------------------------------------------------------------

  predicate KeysOk(b: Buckets) {
    && Distinct(b.order)
    && (forall k :: k in b.order ==> k in b.minute)
    && (forall k :: k in b.minute ==> k in b.order)
    && (forall k :: k in b.hour ==> k in b.minute)
  }

  lemma InsertKeys(b: Buckets, key: string)
    requires KeysOk(b)
    ensures KeysOk(Insert(b, key)) && key in Insert(b, key).minute
    ensures |Insert(b, key).order| <= |b.order| + 1
    ensures key in b.minute ==> Insert(b, key) == b
  {
  }

  lemma DropOldest(order: seq<string>, n: nat)
    requires Distinct(order) && n <= |order|
    ensures Distinct(order[n..])
    ensures forall k :: k in order <==> k in order[..n] || k in order[n..]
    ensures forall k :: k in order[n..] ==> k !in order[..n]
  {
    assert order == order[..n] + order[n..];
    forall k | k in order[n..] ensures k !in order[..n] {
      var i :| 0 <= i < |order| - n && order[n..][i] == k;
      assert order[n + i] == k;
    }
  }

  lemma EvictKeys(b: Buckets, maxKeys: nat)
    requires KeysOk(b)
    ensures KeysOk(Evict(b, maxKeys)) && |Evict(b, maxKeys).order| <= maxKeys
    ensures |b.order| <= maxKeys ==> Evict(b, maxKeys).order == b.order
  {
    hide Distinct;
    DropOldest(b.order, Excess(b, maxKeys));
  }

  // Eviction forgets the keys stored first, as many as there are too many, and
  // leaves the buckets of the others as they were.
  lemma EvictsOldest(b: Buckets, maxKeys: nat, key: string)
    requires KeysOk(b)
    ensures var e := Evict(b, maxKeys);
            && e.order == b.order[if |b.order| > maxKeys then |b.order| - maxKeys else 0..]
            && (key in e.minute <==> key in e.order)
            && (key in e.minute ==> key in b.minute && e.minute[key] == b.minute[key])
            && (key in e.hour <==> key in b.hour && key in e.order)
            && (key in e.hour ==> e.hour[key] == b.hour[key])
  {
    hide Distinct;
    DropOldest(b.order, Excess(b, maxKeys));
  }

  lemma CleanedKeys(b: Buckets, q: Request)
    requires KeysOk(b)
    ensures KeysOk(Cleaned(b, q)) && Cleaned(b, q).order == Insert(b, q.key).order
    ensures q.key in Cleaned(b, q).minute
  {
    hide Expire, Distinct, Get;
    InsertKeys(b, q.key);
  }

  function Capacity(maxKeys: nat): nat {
    if maxKeys == 0 then 1 else maxKeys
  }

  // A key that is the newest is evicted only if none may stay.
  lemma NewestStays(b: Buckets, maxKeys: nat, key: string)
    requires KeysOk(b) && b.order != [] && b.order[|b.order| - 1] == key && maxKeys > 0
    ensures key in Evict(b, maxKeys).minute
  {
    hide Distinct, Forget;
    EvictKeys(b, maxKeys);
    var e := Evict(b, maxKeys);
    assert e.order[|e.order| - 1] == key;
    assert key in e.order;
  }

  lemma PreparedKeys(b: Buckets, maxKeys: nat, q: Request)
    requires KeysOk(b) && |b.order| <= Capacity(maxKeys)
    ensures KeysOk(Prepared(b, maxKeys, q)) && q.key in Prepared(b, maxKeys, q).minute
    ensures |Cleaned(b, q).order| <= Capacity(maxKeys) + 1
    ensures |Prepared(b, maxKeys, q).order| <= Capacity(maxKeys)
  {
    hide Evict, Cleaned, KeysOk;
    var d := Cleaned(b, q);
    CleanedKeys(b, q);
    InsertKeys(b, q.key);
    EvictKeys(d, maxKeys);
    InsertKeys(Evict(d, maxKeys), q.key);
    if maxKeys > 0 && q.key !in b.minute {
      NewestStays(d, maxKeys, q.key);
    }
    if maxKeys > 0 && q.key in b.minute {
      KeptWhole(d, maxKeys, q.key);
    }
  }

  lemma KeptWhole(b: Buckets, maxKeys: nat, key: string)
    requires KeysOk(b) && |b.order| <= maxKeys
    ensures Evict(b, maxKeys) == b
  {
    hide Distinct;
    assert b.order[0..] == b.order;
    assert Forget(b.minute, []) == b.minute && Forget(b.hour, []) == b.hour;
  }

  // At rest a limiter stores no more keys than its maximum, or one if that is
  // zero, in either dictionary; while it handles a request there is at most one
  // more.
  lemma {:induction false} StoredKeys(maxKeys: nat, qs: seq<Request>)
    ensures KeysOk(AfterAll(maxKeys, qs)) && |AfterAll(maxKeys, qs).order| <= Capacity(maxKeys)
    decreases |qs|
  {
    hide Cleaned, Prepared, VerdictOf, Capacity;
    if qs == [] {
      CapacityPositive(maxKeys);
    } else {
      var b, q := AfterAll(maxKeys, qs[..|qs| - 1]), qs[|qs| - 1];
      StoredKeys(maxKeys, qs[..|qs| - 1]);
      PreparedKeys(b, maxKeys, q);
      HandledKeys(Prepared(b, maxKeys, q), q);
    }
  }

  lemma CapacityPositive(maxKeys: nat)
    ensures Capacity(maxKeys) >= 1
  {
  }

  lemma HandledKeys(c: Buckets, q: Request)
    requires KeysOk(c) && q.key in c.minute
    ensures KeysOk(c.(minute := c.minute[q.key := Get(c.minute, q.key) + [q.stamp]],
                      hour := c.hour[q.key := Get(c.hour, q.key) + [q.stamp]]))
    ensures KeysOk(c.(hour := c.hour[q.key := Get(c.hour, q.key)]))
  {
    hide Distinct, Get;
  }

  // ---------------------------------------------------------------------
  // Buckets as suffixes of the admitted stamps
  // ---------------------------------------------------------------------

  predicate Sorted(h: seq<real>) {
    forall i, j :: 0 <= i < j < |h| ==> h[i] <= h[j]
  }

  // bucket is the end of h, and all of h before it is out of the window.
  predicate Tracks(h: seq<real>, bucket: seq<real>, clock: real, window: real) {
    && Sorted(h) && (forall i :: 0 <= i < |h| ==> h[i] <= clock)
    && |bucket| <= |h| && bucket == h[|h| - |bucket|..]
    && forall i :: 0 <= i < |h| - |bucket| ==> h[i] < clock - window
  }

  lemma TracksLater(h: seq<real>, bucket: seq<real>, clock: real, later: real, window: real)
    requires Tracks(h, bucket, clock, window) && clock <= later
    ensures Tracks(h, bucket, later, window)
  {
  }

  // On a sorted bucket, popping from the head is filtering.
  lemma {:induction false} ExpireFilters(bucket: seq<real>, cutoff: real)
    requires Sorted(bucket)
    ensures var e := Expire(bucket, cutoff);
            && |e| <= |bucket| && e == bucket[|bucket| - |e|..]
            && (forall i :: 0 <= i < |bucket| - |e| ==> bucket[i] < cutoff)
            && (forall i :: 0 <= i < |e| ==> e[i] >= cutoff)
    decreases |bucket|
  {
    if bucket != [] && bucket[0] < cutoff {
      ExpireFilters(bucket[1..], cutoff);
      var e := Expire(bucket[1..], cutoff);
      forall i | 0 <= i < |bucket| - |e| ensures bucket[i] < cutoff {
        if i > 0 {
          assert bucket[i] == bucket[1..][i - 1];
        }
      }
    }
  }

  lemma ExpireTracks(h: seq<real>, bucket: seq<real>, clock: real, now: real, window: real)
    requires Tracks(h, bucket, clock, window) && clock <= now
    ensures Tracks(h, Expire(bucket, now - window), now, window)
  {
    hide Expire;
    var d := |h| - |bucket|;
    assert Sorted(bucket) by {
      forall i, j | 0 <= i < j < |bucket| ensures bucket[i] <= bucket[j] {
        assert bucket[i] == h[d + i] && bucket[j] == h[d + j];
      }
    }
    ExpireFilters(bucket, now - window);
    var e := Expire(bucket, now - window);
    forall i | 0 <= i < |h| - |e| ensures h[i] < now - window {
      if i >= d {
        assert h[i] == bucket[i - d];
      }
    }
  }

  lemma AppendTracks(h: seq<real>, bucket: seq<real>, clock: real, window: real, stamp: real)
    requires Tracks(h, bucket, clock, window) && stamp <= clock && forall i :: 0 <= i < |h| ==> h[i] <= stamp
    ensures Tracks(h + [stamp], bucket + [stamp], clock, window)
  {
  }

  // Each stamp is more than gap after the one per places before it.
  predicate Spaced(h: seq<real>, per: nat, gap: real) {
    forall j :: per <= j < |h| ==> h[j] - h[j - per] > gap
  }

  lemma AppendSpaced(h: seq<real>, bucket: seq<real>, now: real, window: real, per: nat, drift: real, stamp: real)
    requires Tracks(h, bucket, now, window) && Spaced(h, per, window - drift)
    requires |bucket| < per && now <= stamp + drift
    ensures Spaced(h + [stamp], per, window - drift)
  {
    var g := h + [stamp];
    forall j | per <= j < |g| ensures g[j] - g[j - per] > window - drift {
      if j < |h| {
        assert g[j] == h[j] && g[j - per] == h[j - per];
      } else {
        assert g[j - per] == h[j - per];
      }
    }
  }

  // ---------------------------------------------------------------------
  // Runs
  // ---------------------------------------------------------------------

  // The clock is read in order and never goes back.
  predicate Clocked(qs: seq<Request>) {
    && (forall i :: 0 <= i < |qs| ==> 0.0 <= qs[i].stamp <= qs[i].minuteNow <= qs[i].hourNow)
    && (forall i, j :: 0 <= i < j < |qs| ==> qs[i].hourNow <= qs[j].stamp)
  }

  function Clock(qs: seq<Request>): real {
    if qs == [] then 0.0 else qs[|qs| - 1].hourNow
  }

  // The key's requests have these limits and take at most drift between the
  // first and the last reading of the clock.
  predicate Uniform(qs: seq<Request>, key: string, perMinute: nat, perHour: nat, drift: real) {
    forall i :: 0 <= i < |qs| && qs[i].key == key ==>
                  qs[i].perMinute == perMinute && qs[i].perHour == perHour && qs[i].hourNow <= qs[i].stamp + drift
  }

  predicate NotEvicted(b: Buckets, maxKeys: nat, q: Request, key: string) {
    key in Cleaned(b, q).minute ==> key in Evict(Cleaned(b, q), maxKeys).minute
  }

  predicate NeverEvicted(maxKeys: nat, qs: seq<Request>, key: string) {
    forall i :: 0 <= i < |qs| ==> NotEvicted(AfterAll(maxKeys, qs[..i]), maxKeys, qs[i], key)
  }

  // What is stored for a key, and how its admitted stamps are spaced.
  predicate KeyInv(b: Buckets, h: seq<real>, key: string, clock: real, perMinute: nat, perHour: nat, drift: real) {
    && Tracks(h, Get(b.minute, key), clock, MINUTE) && Tracks(h, Get(b.hour, key), clock, HOUR)
    && Spaced(h, perMinute, MINUTE - drift) && Spaced(h, perHour, HOUR - drift)
    && (key !in b.minute ==> h == [])
  }

  // Evicting others leaves a key's buckets alone.
  lemma EvictOther(b: Buckets, maxKeys: nat, key: string)
    requires KeysOk(b) && (key in b.minute ==> key in Evict(b, maxKeys).minute)
    ensures Get(Evict(b, maxKeys).minute, key) == Get(b.minute, key)
    ensures Get(Evict(b, maxKeys).hour, key) == Get(b.hour, key)
            || (key !in b.minute && Get(Evict(b, maxKeys).hour, key) == [])
    ensures key in Evict(b, maxKeys).minute <==> key in b.minute
  {
    hide Distinct;
    if key in b.minute {
      assert key !in b.order[..Excess(b, maxKeys)];
    }
  }

  lemma OtherKey(b: Buckets, maxKeys: nat, q: Request, key: string)
    requires KeysOk(b) && NotEvicted(b, maxKeys, q, key) && q.key != key
    ensures Get(Handle(b, maxKeys, q).minute, key) == Get(b.minute, key)
    ensures Get(Handle(b, maxKeys, q).hour, key) == Get(b.hour, key)
            || (key !in b.minute && Get(Handle(b, maxKeys, q).hour, key) == [])
    ensures key in Handle(b, maxKeys, q).minute <==> key in b.minute
  {
    hide Expire, KeysOk, Evict;
    CleanedKeys(b, q);
    EvictOther(Cleaned(b, q), maxKeys, key);
  }

  lemma OwnKey(b: Buckets, maxKeys: nat, q: Request)
    requires KeysOk(b) && NotEvicted(b, maxKeys, q, q.key)
    ensures var c := Prepared(b, maxKeys, q);
            && q.key in c.minute
            && c.minute[q.key] == Expire(Get(b.minute, q.key), q.minuteNow - MINUTE)
            && Get(c.hour, q.key) == Expire(Get(b.hour, q.key), q.hourNow - HOUR)
  {
    hide Expire, KeysOk, Evict, Distinct;
    InsertKeys(b, q.key);
    CleanedKeys(b, q);
    EvictOther(Cleaned(b, q), maxKeys, q.key);
  }

  lemma StepOther(b: Buckets, maxKeys: nat, q: Request, h: seq<real>, key: string, clock: real,
                  perMinute: nat, perHour: nat, drift: real)
    requires KeysOk(b) && NotEvicted(b, maxKeys, q, key) && q.key != key && clock <= q.hourNow
    requires KeyInv(b, h, key, clock, perMinute, perHour, drift)
    ensures KeyInv(Handle(b, maxKeys, q), h, key, q.hourNow, perMinute, perHour, drift)
  {
    hide KeysOk, NotEvicted, Handle, Tracks, Spaced, Get;
    OtherKey(b, maxKeys, q, key);
    TracksLater(h, Get(b.minute, key), clock, q.hourNow, MINUTE);
    TracksLater(h, Get(b.hour, key), clock, q.hourNow, HOUR);
    if h == [] {
      NothingTracked(h, Get(b.hour, key), q.hourNow, HOUR);
    }
  }

  lemma NothingTracked(h: seq<real>, bucket: seq<real>, clock: real, window: real)
    requires |h| == 0 && Tracks(h, bucket, clock, window)
    ensures |bucket| == 0
  {
  }

  lemma StampOrder(h: seq<real>, bucket: seq<real>, clock: real, window: real, stamp: real)
    requires Tracks(h, bucket, clock, window) && clock <= stamp
    ensures forall i :: 0 <= i < |h| ==> h[i] <= stamp
  {
  }

  // A request of the key itself: admitted, its stamp keeps the spacing.
  lemma StepOwn(b: Buckets, maxKeys: nat, q: Request, h: seq<real>, clock: real, drift: real)
    requires KeysOk(b) && NotEvicted(b, maxKeys, q, q.key)
    requires clock <= q.stamp <= q.minuteNow <= q.hourNow <= q.stamp + drift
    requires KeyInv(b, h, q.key, clock, q.perMinute, q.perHour, drift)
    ensures KeyInv(Handle(b, maxKeys, q), if AdmittedBy(b, maxKeys, q) then h + [q.stamp] else h, q.key, q.hourNow,
                   q.perMinute, q.perHour, drift)
  {
    hide KeysOk, NotEvicted, Prepared, Expire, Tracks, Spaced;
    OwnKey(b, maxKeys, q);
    var c := Prepared(b, maxKeys, q);
    var m, r := Get(c.minute, q.key), Get(c.hour, q.key);
    StampOrder(h, Get(b.minute, q.key), clock, MINUTE, q.stamp);
    ExpireTracks(h, Get(b.minute, q.key), clock, q.minuteNow, MINUTE);
    ExpireTracks(h, Get(b.hour, q.key), clock, q.hourNow, HOUR);
    if AdmittedBy(b, maxKeys, q) {
      AppendSpaced(h, m, q.minuteNow, MINUTE, q.perMinute, drift, q.stamp);
      AppendSpaced(h, r, q.hourNow, HOUR, q.perHour, drift, q.stamp);
      TracksLater(h, m, q.minuteNow, q.hourNow, MINUTE);
      AppendTracks(h, m, q.hourNow, MINUTE, q.stamp);
      AppendTracks(h, r, q.hourNow, HOUR, q.stamp);
    } else {
      TracksLater(h, m, q.minuteNow, q.hourNow, MINUTE);
    }
  }

  lemma PrefixFacts(maxKeys: nat, qs: seq<Request>, key: string, perMinute: nat, perHour: nat, drift: real)
    requires qs != [] && Clocked(qs) && Uniform(qs, key, perMinute, perHour, drift) && NeverEvicted(maxKeys, qs, key)
    ensures var n := |qs| - 1;
            && Clocked(qs[..n]) && Uniform(qs[..n], key, perMinute, perHour, drift)
                && NeverEvicted(maxKeys, qs[..n], key)
            && Clock(qs[..n]) <= qs[n].stamp <= qs[n].minuteNow <= qs[n].hourNow
            && (qs[n].key == key ==>
                  qs[n].perMinute == perMinute && qs[n].perHour == perHour && qs[n].hourNow <= qs[n].stamp + drift)
            && NotEvicted(AfterAll(maxKeys, qs[..n]), maxKeys, qs[n], key)
  {
    hide NotEvicted, AfterAll;
    var n := |qs| - 1;
    forall i | 0 <= i < n ensures NotEvicted(AfterAll(maxKeys, qs[..n][..i]), maxKeys, qs[..n][i], key) {
      assert qs[..n][..i] == qs[..i];
    }
  }

  lemma LastStep(maxKeys: nat, qs: seq<Request>, key: string)
    requires qs != []
    ensures var n := |qs| - 1;
            var b := AfterAll(maxKeys, qs[..n]);
            && AfterAll(maxKeys, qs) == Handle(b, maxKeys, qs[n])
            && Stamps(maxKeys, qs, key) == (if qs[n].key == key && AdmittedBy(b, maxKeys, qs[n])
                                            then Stamps(maxKeys, qs[..n], key) + [qs[n].stamp]
                                            else Stamps(maxKeys, qs[..n], key))
  {
    hide Handle, AdmittedBy;
  }

  lemma EmptyOk(maxKeys: nat, key: string, perMinute: nat, perHour: nat, drift: real)
    ensures AfterAll(maxKeys, []) == EMPTY && Stamps(maxKeys, [], key) == []
    ensures KeyInv(EMPTY, [], key, Clock([]), perMinute, perHour, drift)
  {
  }

  lemma {:induction false} RunKeeps(maxKeys: nat, qs: seq<Request>, key: string, perMinute: nat, perHour: nat,
                                    drift: real)
    requires Clocked(qs) && Uniform(qs, key, perMinute, perHour, drift) && NeverEvicted(maxKeys, qs, key)
    ensures KeyInv(AfterAll(maxKeys, qs), Stamps(maxKeys, qs, key), key, Clock(qs), perMinute, perHour, drift)
    decreases |qs|
  {
    hide Stamps, AfterAll, KeyInv, Handle, AdmittedBy, NotEvicted, NeverEvicted, KeysOk, Clocked, Uniform, Capacity;
    if qs == [] {
      EmptyOk(maxKeys, key, perMinute, perHour, drift);
    } else {
      var n := |qs| - 1;
      LastStep(maxKeys, qs, key);
      PrefixFacts(maxKeys, qs, key, perMinute, perHour, drift);
      RunKeeps(maxKeys, qs[..n], key, perMinute, perHour, drift);
      StoredKeys(maxKeys, qs[..n]);
      var b, q, h := AfterAll(maxKeys, qs[..n]), qs[n], Stamps(maxKeys, qs[..n], key);
      if q.key == key {
        StepOwn(b, maxKeys, q, h, Clock(qs[..n]), drift);
      } else {
        StepOther(b, maxKeys, q, h, key, Clock(qs[..n]), perMinute, perHour, drift);
      }
    }
  }

  // ---------------------------------------------------------------------
  // Windows
  // ---------------------------------------------------------------------

  // How many stamps fall in the closed window from lo to hi.
  function CountIn(h: seq<real>, lo: real, hi: real): nat
    decreases |h|
  {
    if h == [] then 0
    else CountIn(h[..|h| - 1], lo, hi) + if lo <= h[|h| - 1] <= hi then 1 else 0
  }

  lemma {:induction false} CountTail(h: seq<real>, lo: real, hi: real, m: nat)
    requires m <= |h| && forall i :: 0 <= i < m ==> h[i] < lo
    ensures CountIn(h, lo, hi) <= |h| - m
    decreases |h|
  {
    if h != [] {
      CountTail(h[..|h| - 1], lo, hi, if m < |h| then m else m - 1);
    }
  }

  lemma {:induction false} WindowBound(h: seq<real>, per: nat, gap: real, lo: real, hi: real)
    requires Sorted(h) && Spaced(h, per, gap) && hi - lo <= gap && (per == 0 ==> h == [])
    ensures CountIn(h, lo, hi) <= per
    decreases |h|
  {
    if h != [] {
      var n := |h| - 1;
      if lo <= h[n] <= hi {
        if per <= n {
          assert h[n] - h[n - per] > gap;
          CountTail(h, lo, hi, n - per + 1);
        } else {
          CountTail(h, lo, hi, 0);
        }
      } else {
        assert forall j :: 0 <= j < n ==> h[..n][j] == h[j];
        WindowBound(h[..n], per, gap, lo, hi);
      }
    }
  }

  lemma {:induction false} NoneAdmitted(maxKeys: nat, qs: seq<Request>, key: string, perMinute: nat, perHour: nat,
                                        drift: real)
    requires Uniform(qs, key, perMinute, perHour, drift) && (perMinute == 0 || perHour == 0)
    ensures Stamps(maxKeys, qs, key) == []
    decreases |qs|
  {
    if qs != [] {
      NoneAdmitted(maxKeys, qs[..|qs| - 1], key, perMinute, perHour, drift);
    }
  }

  // Over every run, for a key that is never evicted: no closed window shorter
  // than a minute (an hour) by the drift between clock readings admits more
  // requests than the limit. With one reading a request the drift is zero and
  // the windows are whole.
  lemma WindowLimit(maxKeys: nat, qs: seq<Request>, key: string, perMinute: nat, perHour: nat, drift: real,
                    lo: real, hi: real)
    requires Clocked(qs) && Uniform(qs, key, perMinute, perHour, drift) && NeverEvicted(maxKeys, qs, key)
    ensures hi - lo <= MINUTE - drift ==> CountIn(Stamps(maxKeys, qs, key), lo, hi) <= perMinute
    ensures hi - lo <= HOUR - drift ==> CountIn(Stamps(maxKeys, qs, key), lo, hi) <= perHour
  {
    hide Stamps, AfterAll, Clocked, Uniform, NeverEvicted, Spaced, CountIn;
    RunKeeps(maxKeys, qs, key, perMinute, perHour, drift);
    var h := Stamps(maxKeys, qs, key);
    if perMinute == 0 || perHour == 0 {
      NoneAdmitted(maxKeys, qs, key, perMinute, perHour, drift);
    }
    if hi - lo <= MINUTE - drift {
      WindowBound(h, perMinute, MINUTE - drift, lo, hi);
    }
    if hi - lo <= HOUR - drift {
      WindowBound(h, perHour, HOUR - drift, lo, hi);
    }
  }

  lemma SpacedMore(h: seq<real>, per: nat, gap: real, more: nat, wider: real, all: nat, widest: real)
    requires Spaced(h, per, gap) && Spaced(h, more, wider) && all == more + per && widest == wider + gap
    ensures Spaced(h, all, widest)
  {
    forall j | all <= j < |h| ensures h[j] - h[j - all] > widest {
      assert h[j] - h[j - per] > gap;
      assert h[j - per] - h[j - per - more] > wider;
    }
  }

  function Times(k: nat, x: real): real {
    k as real * x
  }

  lemma OneMore(k: nat, per: nat, x: real)
    requires k > 0
    ensures k * per == (k - 1) * per + per && Times(k, x) == Times(k - 1, x) + x
  {
    var u := (k - 1) as real;
    assert (u + 1.0) * x == u * x + x;
  }

  lemma {:induction false} SpacedTimes(h: seq<real>, per: nat, gap: real, k: nat)
    requires Spaced(h, per, gap) && k > 0
    ensures Spaced(h, k * per, Times(k, gap))
    decreases k
  {
    hide Spaced, Times;
    OneMore(k, per, gap);
    if k > 1 {
      SpacedTimes(h, per, gap, k - 1);
      SpacedMore(h, per, gap, (k - 1) * per, Times(k - 1, gap), k * per, Times(k, gap));
    } else {
      TimesOne(gap);
    }
  }

  lemma TimesOne(x: real)
    ensures Times(1, x) == x
  {
  }

  lemma WindowTimes(h: seq<real>, per: nat, gap: real, k: nat, lo: real, hi: real)
    requires Sorted(h) && Spaced(h, per, gap) && k > 0 && hi - lo <= Times(k, gap) && (per == 0 ==> h == [])
    ensures CountIn(h, lo, hi) <= k * per
  {
    hide Spaced, CountIn, Sorted, Times;
    SpacedTimes(h, per, gap, k);
    OneMore(k, per, gap);
    WindowBound(h, k * per, Times(k, gap), lo, hi);
  }

  lemma StampFacts(maxKeys: nat, qs: seq<Request>, key: string, perMinute: nat, perHour: nat, drift: real)
    requires Clocked(qs) && Uniform(qs, key, perMinute, perHour, drift) && NeverEvicted(maxKeys, qs, key)
    ensures var h := Stamps(maxKeys, qs, key);
            Sorted(h) && Spaced(h, perMinute, MINUTE - drift) && (perMinute == 0 ==> h == [])
  {
    hide Stamps, AfterAll, Clocked, Uniform, NeverEvicted, Spaced, Sorted;
    RunKeeps(maxKeys, qs, key, perMinute, perHour, drift);
    if perMinute == 0 {
      NoneAdmitted(maxKeys, qs, key, perMinute, perHour, drift);
    }
  }

  // Several minutes hold the minute's limit as often: where the limit an hour
  // is above sixty times that, it is the minute's that governs the hour.
  lemma MinutesLimit(maxKeys: nat, qs: seq<Request>, key: string, perMinute: nat, perHour: nat, drift: real, k: nat,
                     lo: real, hi: real)
    requires Clocked(qs) && Uniform(qs, key, perMinute, perHour, drift) && NeverEvicted(maxKeys, qs, key) && k > 0
    ensures hi - lo <= Times(k, MINUTE - drift) ==> CountIn(Stamps(maxKeys, qs, key), lo, hi) <= k * perMinute
  {
    hide *;
    StampFacts(maxKeys, qs, key, perMinute, perHour, drift);
    if hi - lo <= Times(k, MINUTE - drift) {
      WindowTimes(Stamps(maxKeys, qs, key), perMinute, MINUTE - drift, k, lo, hi);
    }
  }

  // ---------------------------------------------------------------------
  // Who is admitted
  // ---------------------------------------------------------------------

  // Of the stamps admitted so far fewer than per are inside the window.
  predicate Room(h: seq<real>, per: nat, cutoff: real) {
    per > 0 && (|h| >= per ==> h[|h| - per] < cutoff)
  }

  lemma RoomExact(h: seq<real>, bucket: seq<real>, clock: real, now: real, window: real, per: nat)
    requires Tracks(h, bucket, clock, window) && clock <= now
    ensures |Expire(bucket, now - window)| < per <==> Room(h, per, now - window)
  {
    hide Expire;
    ExpireTracks(h, bucket, clock, now, window);
    var d := |h| - |bucket|;
    assert Sorted(bucket) by {
      forall i, j | 0 <= i < j < |bucket| ensures bucket[i] <= bucket[j] {
        assert bucket[i] == h[d + i] && bucket[j] == h[d + j];
      }
    }
    ExpireFilters(bucket, now - window);
    var e := Expire(bucket, now - window);
    forall i | |h| - |e| <= i < |h| ensures h[i] >= now - window {
      assert e[i - (|h| - |e|)] == h[i];
    }
  }

  // Over every run: a request under a key that is never evicted is admitted if
  // and only if the perMinute-th last admitted stamp is more than a minute old
  // and the perHour-th last more than an hour, by the readings it is cleaned at.
  lemma AdmittedExactly(maxKeys: nat, qs: seq<Request>, q: Request, perMinute: nat, perHour: nat, drift: real)
    requires Clocked(qs) && Uniform(qs, q.key, perMinute, perHour, drift) && NeverEvicted(maxKeys, qs, q.key)
    requires Clock(qs) <= q.minuteNow && Clock(qs) <= q.hourNow
    requires NotEvicted(AfterAll(maxKeys, qs), maxKeys, q, q.key)
    ensures var h := Stamps(maxKeys, qs, q.key);
            AdmittedBy(AfterAll(maxKeys, qs), maxKeys, q)
            <==> Room(h, q.perMinute, q.minuteNow - 60.0) && Room(h, q.perHour, q.hourNow - 3600.0)
    ensures var h := Stamps(maxKeys, qs, q.key);
            VerdictOf(Prepared(AfterAll(maxKeys, qs), maxKeys, q), q) == MinuteExceeded
            <==> !Room(h, q.perMinute, q.minuteNow - 60.0)
  {
    hide Stamps, AfterAll, Clocked, Uniform, NeverEvicted, NotEvicted, Prepared, Expire, Room, Tracks, Spaced, KeysOk;
    RunKeeps(maxKeys, qs, q.key, perMinute, perHour, drift);
    StoredKeys(maxKeys, qs);
    var b, h := AfterAll(maxKeys, qs), Stamps(maxKeys, qs, q.key);
    OwnKey(b, maxKeys, q);
    RoomExact(h, Get(b.minute, q.key), Clock(qs), q.minuteNow, MINUTE, q.perMinute);
    RoomExact(h, Get(b.hour, q.key), Clock(qs), q.hourNow, HOUR, q.perHour);
  }

  // ---------------------------------------------------------------------
  // No longer window will do
  // ---------------------------------------------------------------------

  // A key on its own is never evicted.
  lemma {:induction false} AloneStays(maxKeys: nat, qs: seq<Request>, q: Request, key: string)
    requires maxKeys > 0 && q.key == key && forall i :: 0 <= i < |qs| ==> qs[i].key == key
    ensures Alone(AfterAll(maxKeys, qs), key)
    ensures NotEvicted(AfterAll(maxKeys, qs), maxKeys, q, key)
    decreases |qs|
  {
    hide Handle, KeysOk, NotEvicted;
    StoredKeys(maxKeys, qs);
    var b := AfterAll(maxKeys, qs);
    if qs != [] {
      var n := |qs| - 1;
      AloneStays(maxKeys, qs[..n], qs[n], key);
      StoredKeys(maxKeys, qs[..n]);
      AloneHandled(AfterAll(maxKeys, qs[..n]), maxKeys, qs[n]);
    }
    AloneHandled(b, maxKeys, q);
  }

  predicate Alone(b: Buckets, key: string) {
    forall k :: k in b.order ==> k == key
  }

  lemma AloneHandled(b: Buckets, maxKeys: nat, q: Request)
    requires maxKeys > 0 && KeysOk(b) && Alone(b, q.key)
    ensures Alone(Handle(b, maxKeys, q), q.key) && NotEvicted(b, maxKeys, q, q.key)
  {
    hide KeysOk, Cleaned, Evict, Alone, Expire;
    CleanedKeys(b, q);
    AloneInserted(b, q.key);
    KeptWhole(Cleaned(b, q), maxKeys, q.key);
    InsertKeys(Cleaned(b, q), q.key);
    SameOrder(Handle(b, maxKeys, q), Insert(b, q.key), q.key);
  }

  lemma SameOrder(b: Buckets, c: Buckets, key: string)
    requires b.order == c.order && Alone(c, key)
    ensures Alone(b, key)
  {
  }

  lemma AloneInserted(b: Buckets, key: string)
    requires KeysOk(b) && Alone(b, key)
    ensures Alone(Insert(b, key), key) && |Insert(b, key).order| <= 1
  {
    assert |b.order| > 1 ==> b.order[0] != b.order[1];
    forall i | 0 <= i < |b.order| ensures b.order[i] == key {
      assert b.order[i] in b.order;
    }
    if b.order != [] {
      assert b.order[0] in b.order && key in b.minute;
    }
  }

  function Timed(key: string, perMinute: nat, perHour: nat, stamp: real, drift: real): Request {
    Request(key, perMinute, perHour, stamp, stamp + drift, stamp + drift)
  }

  // One client alone: the i-th request is stamped ts[i] and cleaned ds[i] later.
  function Schedule(key: string, perMinute: nat, perHour: nat, ts: seq<real>, ds: seq<real>): seq<Request>
    requires |ts| == |ds|
  {
    seq(|ts|, i requires 0 <= i < |ts| => Timed(key, perMinute, perHour, ts[i], ds[i]))
  }

  // The requests come one after the other, and each finds room.
  predicate Feasible(perMinute: nat, perHour: nat, ts: seq<real>, ds: seq<real>, drift: real)
    requires |ts| == |ds|
  {
    && (forall i :: 0 <= i < |ts| ==> 0.0 <= ts[i] && 0.0 <= ds[i] <= drift)
    && (forall i, j :: 0 <= i < j < |ts| ==> ts[i] + ds[i] <= ts[j])
    && (forall i :: 0 <= i < |ts| ==> Room(ts[..i], perMinute, ts[i] + ds[i] - MINUTE))
    && (forall i :: 0 <= i < |ts| ==> Room(ts[..i], perHour, ts[i] + ds[i] - HOUR))
  }

  lemma ScheduleRuns(key: string, perMinute: nat, perHour: nat, ts: seq<real>, ds: seq<real>, drift: real)
    requires |ts| == |ds| && Feasible(perMinute, perHour, ts, ds, drift)
    ensures var qs := Schedule(key, perMinute, perHour, ts, ds);
            Clocked(qs) && Uniform(qs, key, perMinute, perHour, drift)
  {
    hide Room;
  }

  lemma FeasiblePrefix(perMinute: nat, perHour: nat, ts: seq<real>, ds: seq<real>, drift: real)
    requires |ts| == |ds| > 0 && Feasible(perMinute, perHour, ts, ds, drift)
    ensures Feasible(perMinute, perHour, ts[..|ts| - 1], ds[..|ts| - 1], drift)
  {
    hide Room;
    var n := |ts| - 1;
    forall i | 0 <= i < n
      ensures Room(ts[..n][..i], perMinute, ts[i] + ds[i] - MINUTE) && Room(ts[..n][..i], perHour, ts[i] + ds[i] - HOUR)
    {
      assert ts[..n][..i] == ts[..i];
    }
  }

  lemma {:induction false} ScheduleAdmitted(maxKeys: nat, key: string, perMinute: nat, perHour: nat, ts: seq<real>,
                                            ds: seq<real>, drift: real)
    requires maxKeys > 0 && |ts| == |ds| && Feasible(perMinute, perHour, ts, ds, drift)
    ensures var qs := Schedule(key, perMinute, perHour, ts, ds);
            NeverEvicted(maxKeys, qs, key) && Stamps(maxKeys, qs, key) == ts
    decreases |ts|
  {
    hide AfterAll, NotEvicted, AdmittedBy, Feasible, Clocked, Uniform, Stamps, Room;
    var qs := Schedule(key, perMinute, perHour, ts, ds);
    forall i | 0 <= i < |qs| ensures NotEvicted(AfterAll(maxKeys, qs[..i]), maxKeys, qs[i], key) {
      AloneStays(maxKeys, qs[..i], qs[i], key);
    }
    if ts == [] {
      EmptyOk(maxKeys, key, perMinute, perHour, drift);
    } else {
      var n := |ts| - 1;
      assert qs[..n] == Schedule(key, perMinute, perHour, ts[..n], ds[..n]);
      FeasiblePrefix(perMinute, perHour, ts, ds, drift);
      ScheduleAdmitted(maxKeys, key, perMinute, perHour, ts[..n], ds[..n], drift);
      ScheduleRuns(key, perMinute, perHour, ts[..n], ds[..n], drift);
      ScheduleNext(key, perMinute, perHour, ts, ds, drift);
      AdmittedExactly(maxKeys, qs[..n], qs[n], perMinute, perHour, drift);
      LastStep(maxKeys, qs, key);
    }
  }

  lemma ScheduleNext(key: string, perMinute: nat, perHour: nat, ts: seq<real>, ds: seq<real>, drift: real)
    requires |ts| == |ds| > 0 && Feasible(perMinute, perHour, ts, ds, drift)
    ensures var n := |ts| - 1;
            && Clock(Schedule(key, perMinute, perHour, ts[..n], ds[..n])) <= ts[n] + ds[n]
            && Room(ts[..n], perMinute, ts[n] + ds[n] - MINUTE) && Room(ts[..n], perHour, ts[n] + ds[n] - HOUR)
  {
    hide Room;
  }

  // The i-th request's batch, of size each, and its place in it.
  function BatchOf(size: nat, i: nat): nat
    requires size > 0
  {
    if i < size then 0 else BatchOf(size, i - size) + 1
  }

  function PlaceOf(size: nat, i: nat): (p: nat)
    requires size > 0
    ensures p < size
  {
    if i < size then i else PlaceOf(size, i - size)
  }

  lemma {:induction false} NextPlace(size: nat, i: nat)
    requires size > 0 && i > 0
    ensures if PlaceOf(size, i) == 0 then BatchOf(size, i) == BatchOf(size, i - 1) + 1
            else BatchOf(size, i) == BatchOf(size, i - 1) && PlaceOf(size, i - 1) == PlaceOf(size, i) - 1
    ensures PlaceOf(size, i) == 0 ==> PlaceOf(size, i - 1) == size - 1
    decreases i
  {
    if i > size {
      NextPlace(size, i - size);
    }
  }

  lemma {:induction false} BatchStart(size: nat, k: nat)
    requires size > 0
    ensures BatchOf(size, k * size) == k && PlaceOf(size, k * size) == 0
    decreases k
  {
    if k > 0 {
      assert k * size - size == (k - 1) * size && k * size >= size;
      BatchStart(size, k - 1);
    }
  }

  lemma {:induction false} BatchBelow(size: nat, i: nat, k: nat)
    requires size > 0 && i < k * size
    ensures BatchOf(size, i) < k
    decreases k
  {
    assert (k - 1) * size == k * size - size;
    if i >= size {
      BatchBelow(size, i - size, k - 1);
    }
  }

  // Batches every period, the requests of a batch one after the other.
  function Turn(size: nat, period: real, drift: real, i: nat): real
    requires size > 0
  {
    BatchOf(size, i) as real * period + PlaceOf(size, i) as real * drift
  }

  function Turns(size: nat, period: real, drift: real, n: nat): seq<real>
    requires size > 0
  {
    seq(n, i requires 0 <= i < n => Turn(size, period, drift, i))
  }

  lemma TurnNext(size: nat, period: real, drift: real, i: nat)
    requires size > 0 && drift >= 0.0 && size as real * drift <= period && i > 0
    ensures Turn(size, period, drift, i - 1) + drift <= Turn(size, period, drift, i)
  {
    NextPlace(size, i);
    var x := BatchOf(size, i - 1) as real;
    if PlaceOf(size, i) == 0 {
      assert (x + 1.0) * period == x * period + period;
      assert (size - 1) as real * drift == size as real * drift - drift;
    } else {
      var y := PlaceOf(size, i - 1) as real;
      assert (y + 1.0) * drift == y * drift + drift;
    }
  }

  lemma TurnBatch(size: nat, period: real, drift: real, i: nat)
    requires size > 0 && i >= size
    ensures Turn(size, period, drift, i) == Turn(size, period, drift, i - size) + period
  {
    var x := BatchOf(size, i - size) as real;
    assert (x + 1.0) * period == x * period + period;
  }

  lemma {:induction false} TurnsOrdered(size: nat, period: real, drift: real, i: nat, j: nat)
    requires size > 0 && drift >= 0.0 && size as real * drift <= period && i <= j
    ensures 0.0 <= Turn(size, period, drift, i) <= Turn(size, period, drift, j)
    ensures i < j ==> Turn(size, period, drift, i) + drift <= Turn(size, period, drift, j)
    decreases j
  {
    hide Turn;
    if j == 0 {
      TurnZero(size, period, drift);
    } else {
      TurnNext(size, period, drift, j);
      TurnsOrdered(size, period, drift, if i < j then i else i - 1, j - 1);
    }
  }

  lemma TurnZero(size: nat, period: real, drift: real)
    requires size > 0
    ensures Turn(size, period, drift, 0) == 0.0
  {
  }

  // The first n in batches, and one more at the time length.
  function Plan(size: nat, period: real, inner: real, n: nat, length: real): seq<real>
    requires size > 0
  {
    Turns(size, period, inner, n) + [length]
  }

  function Drifts(inner: real, n: nat, drift: real): seq<real> {
    seq(n, _ => inner) + [drift]
  }

  // Enough for the plan to be feasible: a batch finds the one before expired,
  // and so does the last request, which finds room in the hour as well.
  predicate Sound(perMinute: nat, perHour: nat, period: real, inner: real, n: nat, drift: real, length: real)
    requires perMinute > 0
  {
    && 0.0 <= inner <= drift && perMinute as real * inner <= period && period + inner > MINUTE
    && 0 < n <= perHour && Turn(perMinute, period, inner, n - 1) + inner <= length
    && (n >= perMinute ==> Turn(perMinute, period, inner, n - perMinute) < length + drift - MINUTE)
    && (n < perHour || length + drift > HOUR)
  }

  lemma PlanRoom(perMinute: nat, perHour: nat, period: real, inner: real, n: nat, drift: real, length: real, i: nat)
    requires perMinute > 0 && Sound(perMinute, perHour, period, inner, n, drift, length) && i <= n
    ensures var ts, ds := Plan(perMinute, period, inner, n, length), Drifts(inner, n, drift);
            Room(ts[..i], perMinute, ts[i] + ds[i] - MINUTE) && Room(ts[..i], perHour, ts[i] + ds[i] - HOUR)
  {
    hide Turn;
    TurnZero(perMinute, period, inner);
    if i >= perMinute {
      TurnBatch(perMinute, period, inner, i);
    }
  }

  lemma PlanFeasible(perMinute: nat, perHour: nat, period: real, inner: real, n: nat, drift: real, length: real)
    requires perMinute > 0 && Sound(perMinute, perHour, period, inner, n, drift, length)
    ensures Feasible(perMinute, perHour, Plan(perMinute, period, inner, n, length), Drifts(inner, n, drift), drift)
    ensures forall i :: 0 <= i < n ==> 0.0 <= Turn(perMinute, period, inner, i) <= length
  {
    hide Turn, Room;
    var ts, ds := Plan(perMinute, period, inner, n, length), Drifts(inner, n, drift);
    forall i | 0 <= i <= n
      ensures Room(ts[..i], perMinute, ts[i] + ds[i] - MINUTE) && Room(ts[..i], perHour, ts[i] + ds[i] - HOUR)
    {
      PlanRoom(perMinute, perHour, period, inner, n, drift, length, i);
    }
    forall i | 0 <= i < n
      ensures 0.0 <= Turn(perMinute, period, inner, i) && Turn(perMinute, period, inner, i) + inner <= length
    {
      TurnsOrdered(perMinute, period, inner, i, n - 1);
    }
    forall i, j | 0 <= i < j <= n ensures ts[i] + ds[i] <= ts[j] {
      if j < n {
        TurnsOrdered(perMinute, period, inner, i, j);
      }
    }
  }

  lemma {:induction false} CountAll(h: seq<real>, lo: real, hi: real)
    requires forall i :: 0 <= i < |h| ==> lo <= h[i] <= hi
    ensures CountIn(h, lo, hi) == |h|
    decreases |h|
  {
    if h != [] {
      CountAll(h[..|h| - 1], lo, hi);
    }
  }

  lemma PlanCounted(maxKeys: nat, key: string, perMinute: nat, perHour: nat, period: real, inner: real, n: nat,
                    drift: real, length: real) returns (qs: seq<Request>)
    requires maxKeys > 0 && perMinute > 0 && Sound(perMinute, perHour, period, inner, n, drift, length)
    ensures Clocked(qs) && Uniform(qs, key, perMinute, perHour, drift) && NeverEvicted(maxKeys, qs, key)
    ensures CountIn(Stamps(maxKeys, qs, key), 0.0, length) == n + 1
  {
    hide Clocked, Uniform, NeverEvicted, Stamps, CountIn, Feasible, Turn;
    var ts, ds := Plan(perMinute, period, inner, n, length), Drifts(inner, n, drift);
    PlanFeasible(perMinute, perHour, period, inner, n, drift, length);
    qs := Schedule(key, perMinute, perHour, ts, ds);
    ScheduleRuns(key, perMinute, perHour, ts, ds, drift);
    ScheduleAdmitted(maxKeys, key, perMinute, perHour, ts, ds, drift);
    assert length >= 0.0 by {
      assert Turn(perMinute, period, inner, n - 1) <= length;
    }
    CountAll(ts, 0.0, length);
  }

  // For every limit a minute, every closed window longer than a minute less the
  // drift can hold one admitted request more, if the limit an hour allows it.
  lemma MinuteTight(maxKeys: nat, key: string, perMinute: nat, perHour: nat, drift: real, length: real)
    returns (qs: seq<Request>)
    requires maxKeys > 0 && 0 < perMinute < perHour && drift >= 0.0 && length >= 0.0 && length > MINUTE - drift
    ensures Clocked(qs) && Uniform(qs, key, perMinute, perHour, drift) && NeverEvicted(maxKeys, qs, key)
    ensures CountIn(Stamps(maxKeys, qs, key), 0.0, length) == perMinute + 1
  {
    hide Clocked, Uniform, NeverEvicted, Stamps, CountIn;
    qs := PlanCounted(maxKeys, key, perMinute, perHour, 61.0, 0.0, perMinute, drift, length);
  }

  // The same for k minutes, as long as a batch of requests takes no longer than
  // it is apart from the next.
  lemma MinutesTight(maxKeys: nat, key: string, perMinute: nat, perHour: nat, drift: real, k: nat, length: real)
    returns (qs: seq<Request>)
    requires maxKeys > 0 && perMinute > 0 && 0 < k && k * perMinute < perHour
    requires drift >= 0.0 && (perMinute + 1) as real * drift <= MINUTE && length > Times(k, MINUTE - drift)
    ensures Clocked(qs) && Uniform(qs, key, perMinute, perHour, drift) && NeverEvicted(maxKeys, qs, key)
    ensures CountIn(Stamps(maxKeys, qs, key), 0.0, length) == k * perMinute + 1
  {
    hide Clocked, Uniform, NeverEvicted, Stamps, CountIn;
    var period := PeriodOf(length, k, MINUTE - drift);
    var n := k * perMinute;
    assert (perMinute + 1) as real * drift == perMinute as real * drift + drift;
    AtBatchStart(perMinute, period, drift, k, length);
    qs := PlanCounted(maxKeys, key, perMinute, perHour, period, drift, n, drift, length);
  }

  lemma PeriodOf(length: real, k: nat, gap: real) returns (period: real)
    requires k > 0 && length > Times(k, gap)
    ensures period * k as real == length && period > gap
  {
    var more := (length - k as real * gap) / k as real;
    period := gap + more;
    assert period * k as real == gap * k as real + more * k as real;
  }

  lemma AtBatchStart(size: nat, period: real, drift: real, k: nat, length: real)
    requires size > 0 && k > 0 && drift >= 0.0 && size as real * drift <= period && period * k as real == length
    ensures k * size >= size
    ensures Turn(size, period, drift, k * size) == length
    ensures Turn(size, period, drift, k * size - 1) + drift <= length
    ensures Turn(size, period, drift, k * size - size) == length - period
  {
    BatchStart(size, k);
    assert k * size >= size;
    TurnNext(size, period, drift, k * size);
    TurnBatch(size, period, drift, k * size);
  }

  // For every limit an hour of at most sixty times the limit a minute, every
  // closed window longer than an hour less the drift can hold one more, as long
  // as the drift leaves the requests time to be spread.
  lemma HourTight(maxKeys: nat, key: string, perMinute: nat, perHour: nat, drift: real, length: real)
    returns (qs: seq<Request>)
    requires maxKeys > 0 && perMinute > 0 && 0 < perHour && 0.0 <= drift <= MINUTE && length > HOUR - drift
    requires perHour <= 59 * perMinute || (perHour <= 60 * perMinute && perMinute as real * drift <= 59.0 * MINUTE)
    ensures Clocked(qs) && Uniform(qs, key, perMinute, perHour, drift) && NeverEvicted(maxKeys, qs, key)
    ensures CountIn(Stamps(maxKeys, qs, key), 0.0, length) == perHour + 1
  {
    hide Clocked, Uniform, NeverEvicted, Stamps, CountIn;
    if perHour <= 59 * perMinute {
      FitsFiftyNine(perMinute, perHour, drift, length);
      qs := PlanCounted(maxKeys, key, perMinute, perHour, 61.0, 0.0, perHour, drift, length);
    } else {
      FitsSixty(perMinute, perHour, drift, length);
      qs := PlanCounted(maxKeys, key, perMinute, perHour, length / 60.0, drift / 60.0, perHour, drift, length);
    }
  }

  lemma FitsFiftyNine(perMinute: nat, perHour: nat, drift: real, length: real)
    requires perMinute > 0 && 0 < perHour <= 59 * perMinute && 0.0 <= drift <= MINUTE && length > HOUR - drift
    ensures Sound(perMinute, perHour, 61.0, 0.0, perHour, drift, length)
  {
    BatchBelow(perMinute, perHour - 1, 59);
    if perHour >= perMinute {
      TurnsOrdered(perMinute, 61.0, 0.0, perHour - perMinute, perHour - 1);
    }
  }

  lemma FitsSixty(perMinute: nat, perHour: nat, drift: real, length: real)
    requires perMinute > 0 && 59 * perMinute < perHour <= 60 * perMinute && 0.0 <= drift <= MINUTE
    requires perMinute as real * drift <= 59.0 * MINUTE && length > HOUR - drift
    ensures Sound(perMinute, perHour, length / 60.0, drift / 60.0, perHour, drift, length)
  {
    var period, inner := length / 60.0, drift / 60.0;
    assert perMinute as real * inner == perMinute as real * drift / 60.0;
    TurnsOrdered(perMinute, period, inner, perHour, 60 * perMinute);
    BatchStart(perMinute, 60);
    TurnNext(perMinute, period, inner, perHour);
    TurnBatch(perMinute, period, inner, perHour);
  }

  // ---------------------------------------------------------------------
  // The middleware
  // ---------------------------------------------------------------------

  // Pops what is too old from the head of a bucket.
  method CleanUpOldEntries(bucket: seq<real>, window: real, now: real) returns (rest: seq<real>)
    ensures rest == Expire(bucket, now - window)
  {
    var cutoff := now - window;
    rest := bucket;
    while rest != [] && rest[0] < cutoff
      invariant Expire(rest, cutoff) == Expire(bucket, cutoff)
      decreases |rest|
    {
      rest := rest[1..];
    }
  }

  lemma ForgetSnoc(m: map<string, seq<real>>, keys: seq<string>, key: string)
    ensures Forget(m, keys + [key]) == Forget(m, keys) - {key}
  {
  }

  class Limiter {
    const maxKeys: nat
    var order: seq<string>
    var minute: map<string, seq<real>>
    var hour: map<string, seq<real>>

    constructor (maxKeys: nat)
      ensures View() == EMPTY && this.maxKeys == maxKeys
    {
      this.maxKeys := maxKeys;
      order, minute, hour := [], map[], map[];
    }

    function View(): Buckets
      reads this
    {
      Buckets(order, minute, hour)
    }

    // Reading a bucket of the default dictionary.
    method Touch(key: string)
      modifies this`order, this`minute
      ensures View() == Insert(old(View()), key)
    {
      if key !in minute {
        order := order + [key];
        minute := minute[key := []];
      }
    }

    // Drops the oldest keys when there are too many.
    method EvictIfNeeded()
      modifies this`order, this`minute, this`hour
      ensures View() == Evict(old(View()), maxKeys)
    {
      if |order| > maxKeys {
        var n := |order| - maxKeys;
        assert Forget(minute, []) == minute && Forget(hour, []) == hour;
        for i := 0 to n
          invariant order == old(order)
          invariant minute == Forget(old(minute), order[..i]) && hour == Forget(old(hour), order[..i])
        {
          assert order[..i + 1] == order[..i] + [order[i]];
          ForgetSnoc(old(minute), order[..i], order[i]);
          ForgetSnoc(old(hour), order[..i], order[i]);
          minute := minute - {order[i]};
          hour := hour - {order[i]};
        }
        order := order[n..];
      } else {
        assert Forget(minute, []) == minute && Forget(hour, []) == hour;
        assert order[0..] == order;
      }
    }

    method CleanUpBuckets(q: Request)
      modifies this`order, this`minute, this`hour
      ensures View() == Cleaned(old(View()), q)
    {
      hide Expire;
      Touch(q.key);
      var m := CleanUpOldEntries(Get(minute, q.key), MINUTE, q.minuteNow);
      minute := minute[q.key := m];
      var h := CleanUpOldEntries(Get(hour, q.key), HOUR, q.hourNow);
      hour := hour[q.key := h];
    }

    method Prepare(q: Request)
      modifies this`order, this`minute, this`hour
      ensures View() == Prepared(old(View()), maxKeys, q) && q.key in minute
    {
      hide Cleaned, Evict;
      CleanUpBuckets(q);
      EvictIfNeeded();
      Touch(q.key);
    }

    method Dispatch(q: Request) returns (verdict: Verdict)
      modifies this`order, this`minute, this`hour
      ensures View() == Handle(old(View()), maxKeys, q)
      ensures verdict == VerdictOf(Prepared(old(View()), maxKeys, q), q)
    {
      hide Prepared;
      Prepare(q);
      if |minute[q.key]| >= q.perMinute {
        return MinuteExceeded;
      }
      if q.key !in hour {
        hour := hour[q.key := []];
      }
      if |hour[q.key]| >= q.perHour {
        return HourExceeded;
      }
      minute := minute[q.key := minute[q.key] + [q.stamp]];
      hour := hour[q.key := hour[q.key] + [q.stamp]];
      return Admitted;
    }
  }
}
