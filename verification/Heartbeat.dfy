// The dead-man switch on one vault's rows: settings, check-ins, the move into
// grace, and release.

module Heartbeat {
  import opened Wrappers
  import opened Tables
  import opened Readiness

  const DEFAULT_CONFIG: Config := Config(30, 7, None)

  function ConfigOf(r: Rows): Config {
    if r.config.Some? then r.config.value else DEFAULT_CONFIG
  }

  function Deadline(c: Config): Time
    requires c.lastCheckIn.Some?
  {
    c.lastCheckIn.value + c.interval * DAY
  }

  function ReleaseTime(c: Config): Time
    requires c.lastCheckIn.Some?
  {
    c.lastCheckIn.value + (c.interval + c.grace) * DAY
  }

  datatype Settings = Settings(interval: nat, grace: nat, armed: Option<bool>)

  function SaveHeartbeat(r: Rows, q: Settings, now: Time): Reply {
    if !(1 <= q.interval <= 365 && 1 <= q.grace <= 90) || q.grace > q.interval then Refused(Invalid)
    else
      var l := Lock(r);
      if l.status.state == Triggered then Refused(Conflict)
      else if q.armed == Some(true) && !ReleaseReady(l) then Refused(Conflict)
      else
        var checkIn := ConfigOf(l).lastCheckIn;
        Done(l.(config := Some(Config(q.interval, q.grace,
                                      if q.armed == Some(true) && checkIn.None? then Some(now) else checkIn)),
                status := l.status.(state := Active, graceStarted := None,
                                    armed := if q.armed.Some? then q.armed.value else l.status.armed)))
  }

  // The reset to active is a conditional update at the locked version, which
  // cannot miss; it bumps the version once more.
  function CheckIn(r: Rows, now: Time): Reply {
    var l := Lock(r);
    if l.status.state == Triggered then Refused(Conflict)
    else if !ReleaseReady(l) then Refused(Conflict)
    else
      var s := l.status.(armed := true);
      var reset := if s.state != Active || s.graceStarted.Some?
                   then s.(state := Active, graceStarted := None, version := s.version + 1) else s;
      Done(l.(config := Some(ConfigOf(l).(lastCheckIn := Some(now))), status := reset))
  }

  function EnterGrace(r: Rows, deadline: Time): Rows {
    r.(status := r.status.(state := Grace, graceStarted := Some(deadline), episode := r.status.episode + 1))
  }

  function MoveToGrace(r: Rows, now: Time): Reply {
    var l := Lock(r);
    if l.status.state != Active || !l.status.armed || l.config.None? || l.config.value.lastCheckIn.None? then Done(l)
    else if !ReleaseReady(l) then Done(l)
    else if now < Deadline(l.config.value) then Done(l)
    else Done(EnterGrace(l, Deadline(l.config.value)))
  }

  // release_locked, for a vault whose lock is held.
  function ReleaseLocked(l: Rows, now: Time, hold: bool): Reply {
    if l.status.state == Triggered then Done(l)
    else if hold then Refused(Conflict)
    else if !ReleaseReady(l) then Refused(Conflict)
    else Done(l.(status := l.status.(state := Triggered, triggeredAt := Some(now))))
  }

  datatype Reason = Manual | Inactivity

  function TriggerVault(r: Rows, reason: Reason, now: Time, hold: bool): Reply {
    var l := Lock(r);
    if reason == Inactivity && (l.config.None? || l.config.value.lastCheckIn.None? || !l.status.armed
                                || l.status.state != Grace) then
      Done(l)
    else if reason == Inactivity && now < ReleaseTime(l.config.value) then Done(l)
    else ReleaseLocked(l, now, hold)
  }

  predicate CanAdvance(l: Rows, now: Time)
    requires l.config.Some? && l.config.value.lastCheckIn.Some?
  {
    l.status.armed && l.status.state != Triggered && now >= Deadline(l.config.value) && ReleaseReady(l)
  }

  // The vaults the checker's query selects.
  predicate Selected(r: Rows, now: Time) {
    && r.status.armed && r.status.state != Triggered
    && r.config.Some? && r.config.value.lastCheckIn.Some?
    && Deadline(r.config.value) <= now
  }

  datatype Checked = Idle | Warned(rows: Rows) | Released(rows: Rows)

  // One round of check_heartbeat, for one vault and with no hold in place.
  function CheckOne(r: Rows, now: Time): Checked {
    if !Selected(r, now) then Idle
    else
      var l := Lock(r);
      var c := l.config.value;
      if !CanAdvance(l, now) then Idle
      else
        var g := if l.status.state == Active then EnterGrace(l, Deadline(c)) else l;
        if now >= Deadline(c) + c.grace * DAY then
          Released(g.(status := g.status.(state := Triggered, triggeredAt := Some(now))))
        else Warned(g)
  }
}
