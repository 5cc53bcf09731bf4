// What each request about the switch is granted for and what it then does,
// said of the rows alone; and what the settings in force come from.

module SwitchRules {
  import opened Wrappers
  import opened Tables
  import opened Readiness
  import opened Heartbeat
  import opened Requests
  import opened RowInvariants
  import opened ReleaseRuns

  const A_DAY: nat := 24 * 60 * 60

  function LastSeen(r: Rows): Time {
    if r.config.Some? && r.config.value.lastCheckIn.Some? then r.config.value.lastCheckIn.value else 0
  }

  function IntervalOf(r: Rows): nat {
    if r.config.Some? then r.config.value.interval else 30
  }

  function GraceOf(r: Rows): nat {
    if r.config.Some? then r.config.value.grace else 7
  }

  // When the next check-in is due, and when the time to make up for it ends.
  function DueAt(r: Rows): Time {
    LastSeen(r) + IntervalOf(r) * A_DAY
  }

  function OverAt(r: Rows): Time {
    LastSeen(r) + (IntervalOf(r) + GraceOf(r)) * A_DAY
  }

  lemma OverIs(r: Rows)
    ensures OverAt(r) == DueAt(r) + GraceOf(r) * A_DAY
  {
  }

  // The vault can be advanced by the clock.
  predicate Running(r: Rows) {
    r.status.armed && r.status.state != Triggered && ReleaseReady(r)
  }

  // r, its switch now in this state.
  function Switched(r: Rows, state: State, episode: nat, graceStarted: Option<Time>, triggeredAt: Option<Time>): Rows {
    r.(status := Status(state, r.status.version + 1, r.status.armed, episode, graceStarted, triggeredAt))
  }

  function NextEpisode(r: Rows): nat {
    if r.status.state == Active then r.status.episode + 1 else r.status.episode
  }

  // ---------------------------------------------------------------------
  // The checker
  // ---------------------------------------------------------------------

  // A check does something exactly for a vault that runs and whose check-in is
  // due; it releases the vault once the grace period is over too, and else puts
  // or leaves it in grace.
  lemma CheckExactly(r: Rows, now: Time, hold: bool)
    requires Inv(r)
    ensures Apply(r, Check(now, hold)).Done? <==> !hold && Running(r) && DueAt(r) <= now
    ensures !hold && Running(r) && DueAt(r) <= now < OverAt(r) ==>
              Next(r, Check(now, hold)) == Switched(r, Grace, NextEpisode(r), Some(DueAt(r)), None)
    ensures !hold && Running(r) && OverAt(r) <= now ==>
              Next(r, Check(now, hold)) == Switched(r, Triggered, NextEpisode(r), Some(DueAt(r)), Some(now))
  {
    hide ReleaseReady, CeremoniesValid, VaultValid, PeopleValid;
    ReadyIgnoresSwitch(r, Lock(r));
    OverIs(r);
  }

  // Said of the states: when a check releases, and when the vault is in grace
  // after one.
  lemma CheckStates(r: Rows, now: Time, hold: bool)
    requires Inv(r)
    ensures var s := Next(r, Check(now, hold));
            && (r.status.state != Triggered && s.status.state == Triggered
                <==> !hold && Running(r) && OverAt(r) <= now)
            && (r.status.state == Active ==>
                  (s.status.state == Grace <==> !hold && Running(r) && DueAt(r) <= now < OverAt(r)))
            && (r.status.state == Grace ==>
                  (s.status.state == Grace <==> !(!hold && Running(r) && OverAt(r) <= now))
                  && s.status.episode == r.status.episode)
            && (s.status.state == Grace && r.status.state == Active ==> s.status.episode == r.status.episode + 1)
  {
    hide Inv, Apply, Running;
    OverIs(r);
    CheckExactly(r, now, hold);
    if Running(r) {
      RunningState(r);
    }
  }

  lemma RunningState(r: Rows)
    requires Running(r)
    ensures r.status.state != Triggered
  {
  }

  // ---------------------------------------------------------------------
  // Check-ins and settings
  // ---------------------------------------------------------------------

  // A check-in is taken exactly on a ready vault that is not released: it arms
  // the switch, ends grace, and restarts the interval now.
  lemma CheckInExactly(r: Rows, now: Time)
    requires Inv(r)
    ensures Apply(r, RecordCheckIn(now)).Done? <==> r.status.state != Triggered && ReleaseReady(r)
    ensures r.status.state != Triggered && ReleaseReady(r) ==>
              && var s := Next(r, RecordCheckIn(now));
              && s.config == Some(Config(IntervalOf(r), GraceOf(r), Some(now)))
              && s.status == r.status.(state := Active, armed := true, graceStarted := None,
                                       version := r.status.version + (if r.status.state == Active then 1 else 2))
              && s == r.(config := s.config, status := s.status)
  {
    hide ReleaseReady, CeremoniesValid, VaultValid, PeopleValid;
    ReadyIgnoresSwitch(r, Lock(r));
  }

  predicate InBounds(s: Settings) {
    1 <= s.interval <= 365 && 1 <= s.grace <= 90 && s.grace <= s.interval
  }

  predicate Arms(s: Settings) {
    s.armed == Some(true)
  }

  // Settings are stored as given, within bounds, until the release; only a
  // ready vault can be armed, and arming it counts as its first check-in.
  lemma SettingsExactly(r: Rows, q: Settings, now: Time)
    requires Inv(r)
    ensures Apply(r, SaveSettings(q, now)).Done?
            <==> InBounds(q) && r.status.state != Triggered && (Arms(q) ==> ReleaseReady(r))
    ensures Apply(r, SaveSettings(q, now)).Done? ==>
              && var s := Next(r, SaveSettings(q, now));
              && s.config.Some? && s.config.value.interval == q.interval && s.config.value.grace == q.grace
              && (r.config.Some? && r.config.value.lastCheckIn.Some? ==>
                    s.config.value.lastCheckIn == r.config.value.lastCheckIn)
              && (r.config.None? || r.config.value.lastCheckIn.None? ==>
                    s.config.value.lastCheckIn == if Arms(q) then Some(now) else None)
              && s.status == r.status.(state := Active, graceStarted := None, version := r.status.version + 1,
                                       armed := if q.armed.Some? then q.armed.value else r.status.armed)
              && s == r.(config := s.config, status := s.status)
  {
    hide ReleaseReady, CeremoniesValid, VaultValid, PeopleValid;
    ReadyIgnoresSwitch(r, Lock(r));
  }

  // ---------------------------------------------------------------------
  // Grace and release by request
  // ---------------------------------------------------------------------

  // Grace starts exactly on an active vault that runs and is due; the request
  // is otherwise granted without effect.
  lemma GraceExactly(r: Rows, now: Time)
    requires Inv(r)
    ensures Apply(r, StartGrace(now)).Done?
    ensures Next(r, StartGrace(now))
         == if Running(r) && r.status.state == Active && DueAt(r) <= now
            then Switched(r, Grace, r.status.episode + 1, Some(DueAt(r)), r.status.triggeredAt)
            else Switched(r, r.status.state, r.status.episode, r.status.graceStarted, r.status.triggeredAt)
  {
    hide ReleaseReady, CeremoniesValid, VaultValid, PeopleValid;
    ReadyIgnoresSwitch(r, Lock(r));
  }

  // The trigger has something to release: the owner's always, that of
  // inactivity once grace is over.
  predicate Calls(r: Rows, reason: Reason, now: Time) {
    reason == Manual || (r.status.state == Grace && r.status.armed && OverAt(r) <= now)
  }

  // A trigger releases exactly a ready vault that no hold protects; where it
  // has something to release and may not, it is refused.
  lemma TriggerExactly(r: Rows, reason: Reason, now: Time, hold: bool)
    requires Inv(r)
    ensures Apply(r, Trigger(reason, now, hold)).Done?
            <==> !Calls(r, reason, now) || r.status.state == Triggered || (!hold && ReleaseReady(r))
    ensures Apply(r, Trigger(reason, now, hold)).Done? ==>
              Next(r, Trigger(reason, now, hold))
              == if Calls(r, reason, now) && r.status.state != Triggered
                 then Switched(r, Triggered, r.status.episode, r.status.graceStarted, Some(now))
                 else Switched(r, r.status.state, r.status.episode, r.status.graceStarted, r.status.triggeredAt)
  {
    hide ReleaseReady, CeremoniesValid, VaultValid, PeopleValid;
    ReadyIgnoresSwitch(r, Lock(r));
    OverIs(r);
  }
}
