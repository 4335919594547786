/** Service deadlines and their escalation (src/manager.rs): terminate, abort,
    kill, and failure when nothing is left to signal. */
module Timeouts {
  import opened Basics
  import opened KillContext

  datatype Phase = Start | Stop | Abort

  /** `notifies`: the main process is registered with the notify server; `pidFile`: the
      PID file exists; `stopPostRuns`: how often the stop-post commands have run. */
  datatype Record = Record(
    service: bool, state: UnitState, result: string, stopRequested: bool,
    main: Option<int>, control: Option<int>, idleGate: Option<int>, dynamicUser: Option<string>, policy: KillPolicy,
    startMode: string, stopMode: string, stopTimeout: nat, abortTimeout: nat,
    watchdogTriggered: bool, watchdogLast: Option<I64>, watchdogInterval: Option<I64>,
    notifies: bool, pidFile: bool, stopPostRuns: nat)

  /** A fired timer, bound to the source that produced it. */
  datatype Event = Event(unit: string, phase: Phase, source: nat)

  /** A timer handed to the event loop. */
  datatype Timer = Timer(phase: Phase, timeout: nat, source: nat)

  /** What a deadline does to the unit. */
  datatype Move =
    | Ignored
    | Killed(record: Record, disarmed: bool)
    | Finalised(record: Record)
    | Armed(record: Record, timer: Timer)

  /** The number of processes that take the signal of an operation. */
  function Sent(r: Record, op: KillOperation, k: Kernel): nat {
    if !r.service then 0 else PrimarySent(r.policy, r.main, r.control, op, k) + GroupSent(r.policy, op, k)
  }

  /** The unit fails and its main process no longer notifies; a service also forgets
      its processes, runs its stop-post commands and gives up what it holds. */
  function FailedRecord(r: Record, result: string): Record {
    var notifies := r.notifies && r.main.None?;
    if r.service then
      r.(state := UnitFailed, result := result, stopRequested := false, main := None, control := None,
         idleGate := None, dynamicUser := None, notifies := notifies, pidFile := false, stopPostRuns := r.stopPostRuns + 1)
    else r.(state := UnitFailed, result := result, stopRequested := false, notifies := notifies)
  }

  function KillResult(r: Record): string {
    if r.result == "watchdog" then "watchdog" else "timeout"
  }

  /** `disarmed`: any stop deadline on record has been cancelled before. */
  function FinalKill(r: Record, disarmed: bool, k: Kernel): Move {
    if Sent(r, Kill, k) == 0 then Finalised(FailedRecord(r, KillResult(r))) else Killed(r, disarmed)
  }

  function SignalThenArm(r: Record, op: KillOperation, phase: Phase, timeout: nat, result: string, k: Kernel): Move {
    if Sent(r, op, k) == 0 then Finalised(FailedRecord(r, result))
    else if k.timer.None? then FinalKill(r, true, k)
    else Armed(r, Timer(phase, timeout, k.timer.value))
  }

  function TimedOut(r: Record): Record {
    r.(state := Deactivating, result := "timeout", stopRequested := false, watchdogLast := None)
  }

  function StartDeadline(r: Record, k: Kernel): Move {
    if !r.state.Activating? || !r.service then Ignored
    else if r.startMode == "kill" then FinalKill(TimedOut(r), false, k)
    else if r.startMode == "abort" then SignalThenArm(TimedOut(r), Watchdog, Abort, r.abortTimeout, "timeout", k)
    else SignalThenArm(TimedOut(r), Terminate, Stop, r.stopTimeout, "timeout", k)
  }

  function StopDeadline(r: Record, k: Kernel): Move {
    if !r.state.Deactivating? || !r.service then Ignored
    else if r.stopMode == "abort" then
      SignalThenArm(r.(result := "timeout"), Watchdog, Abort, r.abortTimeout, "timeout", k)
    else FinalKill(r.(result := "timeout"), false, k)
  }

  function AbortDeadline(r: Record, k: Kernel): Move {
    if !r.state.Deactivating? then Ignored else FinalKill(r, false, k)
  }

  function Deadline(phase: Phase, r: Record, k: Kernel): Move {
    match phase
    case Start => StartDeadline(r, k)
    case Stop => StopDeadline(r, k)
    case Abort => AbortDeadline(r, k)
  }

  function After(r: Record, move: Move): Record {
    if move.Ignored? then r else move.record
  }

  // ---- the manager ----

  type Sources = map<string, nat>

  /** The event comes from the timer on record for its unit. */
  predicate Honoured(e: Event, starts: Sources, stops: Sources) {
    if e.phase.Start? then e.unit in starts && starts[e.unit] == e.source
    else e.unit in stops && stops[e.unit] == e.source
  }

  /** What the move leaves of the stop deadline on record. */
  function StopsAfter(name: string, stops: Sources, move: Move): Sources {
    match move
    case Ignored => stops
    case Killed(_, disarmed) => if disarmed then stops - {name} else stops
    case Finalised(_) => stops - {name}
    case Armed(_, timer) => stops[name := timer.source]
  }

  function StartsAfter(name: string, starts: Sources, move: Move): Sources {
    if move.Finalised? then starts - {name} else starts
  }

  class Manager {
    var units: map<string, Record>
    var startTimeouts: Sources
    var stopTimeouts: Sources

    /** The manager's state is the old one after `move` of `name`. */
    twostate predicate Moved(name: string, move: Move)
      reads this
    {
      && old(units).Keys == units.Keys
      && name in units && units == old(units)[name := After(old(units[name]), move)]
      && stopTimeouts == StopsAfter(name, old(stopTimeouts), move)
      && startTimeouts == StartsAfter(name, old(startTimeouts), move)
    }

    method SignalTimeoutOperation(name: string, op: KillOperation, k: Kernel) returns (sent: nat)
      ensures sent == if name in units then Sent(units[name], op, k) else 0
    {
      if name !in units || !units[name].service {
        return 0;
      }
      var r := units[name];
      var signalled;
      sent, signalled := SignalPrimary(r.policy, r.main, r.control, op, k);
      sent := sent + GroupSent(r.policy, op, k);
    }

    method FinalizeWithoutExit(name: string, result: string)
      modifies this
      ensures stopTimeouts == old(stopTimeouts) - {name} && startTimeouts == old(startTimeouts) - {name}
      ensures units == if name in old(units) then old(units)[name := FailedRecord(old(units[name]), result)] else old(units)
    {
      startTimeouts := startTimeouts - {name};
      stopTimeouts := stopTimeouts - {name};
      if name in units {
        units := units[name := FailedRecord(units[name], result)];
      }
    }

    method ApplyFinalKill(name: string, k: Kernel) returns (move: Move)
      modifies this
      ensures name in old(units) ==>
                move == FinalKill(old(units[name]), false, k) && Moved(name, move) && !move.Ignored?
      ensures name !in old(units) ==>
                && move == Ignored && units == old(units)
                && stopTimeouts == old(stopTimeouts) - {name} && startTimeouts == old(startTimeouts) - {name}
    {
      var result := if name in units then KillResult(units[name]) else "timeout";
      var sent := SignalTimeoutOperation(name, Kill, k);
      if sent == 0 {
        FinalizeWithoutExit(name, result);
        return if name in units then Finalised(units[name]) else Ignored;
      }
      assert units == units[name := units[name]];
      return Killed(units[name], false);
    }

    /** Without a timer the service is killed at once. */
    method ArmServiceStopTimeout(name: string, timeout: nat, phase: Phase, k: Kernel) returns (move: Move)
      modifies this
      ensures name in old(units) ==>
                && move == (if k.timer.None? then FinalKill(old(units[name]), true, k)
                            else Armed(old(units[name]), Timer(phase, timeout, k.timer.value)))
                && Moved(name, move) && !move.Ignored?
      ensures name !in old(units) ==>
                && move == Ignored && units == old(units)
                && stopTimeouts == (if k.timer.Some? then old(stopTimeouts)[name := k.timer.value] else old(stopTimeouts) - {name})
                && startTimeouts == (if k.timer.Some? then old(startTimeouts) else old(startTimeouts) - {name})
    {
      hide Sent;
      stopTimeouts := stopTimeouts - {name};
      match k.timer {
        case Some(source) =>
          stopTimeouts := stopTimeouts[name := source];
          if name !in units {
            return Ignored;
          }
          assert units == units[name := units[name]];
          return Armed(units[name], Timer(phase, timeout, source));
        case None =>
          move := ApplyFinalKill(name, k);
          if move.Killed? {
            move := Killed(move.record, true);
          }
      }
    }

    method SignalOrFinalize(name: string, op: KillOperation, phase: Phase, timeout: nat, result: string, k: Kernel)
      returns (move: Move)
      requires name in units
      modifies this
      ensures move == SignalThenArm(old(units[name]), op, phase, timeout, result, k) && Moved(name, move) && !move.Ignored?
    {
      hide Sent;
      var sent := SignalTimeoutOperation(name, op, k);
      if sent == 0 {
        FinalizeWithoutExit(name, result);
        return Finalised(units[name]);
      }
      move := ArmServiceStopTimeout(name, timeout, phase, k);
    }

    method ApplyStartDeadline(name: string, k: Kernel) returns (move: Move)
      modifies this
      ensures move == if name in old(units) then StartDeadline(old(units[name]), k) else Ignored
      ensures if name in old(units) then Moved(name, move) else unchanged(this)
    {
      hide Sent, SignalThenArm, FinalKill;
      if name !in units || !units[name].state.Activating? || !units[name].service {
        assert name in units ==> units == units[name := units[name]];
        return Ignored;
      }
      var r := units[name];
      units := units[name := TimedOut(r)];
      if r.startMode == "kill" {
        move := ApplyFinalKill(name, k);
      } else if r.startMode == "abort" {
        move := SignalOrFinalize(name, Watchdog, Abort, r.abortTimeout, "timeout", k);
      } else {
        move := SignalOrFinalize(name, Terminate, Stop, r.stopTimeout, "timeout", k);
      }
    }

    method ApplyStopDeadline(name: string, k: Kernel) returns (move: Move)
      modifies this
      ensures move == if name in old(units) then StopDeadline(old(units[name]), k) else Ignored
      ensures if name in old(units) then Moved(name, move) else unchanged(this)
    {
      hide Sent, SignalThenArm, FinalKill;
      if name !in units || !units[name].service || !units[name].state.Deactivating? {
        assert name in units ==> units == units[name := units[name]];
        return Ignored;
      }
      var r := units[name];
      units := units[name := r.(result := "timeout")];
      if r.stopMode == "abort" {
        move := SignalOrFinalize(name, Watchdog, Abort, r.abortTimeout, "timeout", k);
      } else {
        move := ApplyFinalKill(name, k);
      }
    }

    method ApplyAbortDeadline(name: string, k: Kernel) returns (move: Move)
      modifies this
      ensures move == if name in old(units) then AbortDeadline(old(units[name]), k) else Ignored
      ensures if name in old(units) then Moved(name, move) else unchanged(this)
    {
      hide Sent, FinalKill;
      if name in units && units[name].state.Deactivating? {
        move := ApplyFinalKill(name, k);
      } else {
        assert name in units ==> units == units[name := units[name]];
        move := Ignored;
      }
    }

    /** Whatever the event, the deadline on record for its unit and kind is gone
        afterwards; only an event from that very timer has an effect. */
    method ApplyServiceTimeoutEvent(e: Event, k: Kernel) returns (move: Move)
      modifies this
      ensures move == if Honoured(e, old(startTimeouts), old(stopTimeouts)) && e.unit in old(units)
                      then Deadline(e.phase, old(units[e.unit]), k) else Ignored
      ensures units == if e.unit in old(units) then old(units)[e.unit := After(old(units[e.unit]), move)] else old(units)
      ensures startTimeouts ==
                StartsAfter(e.unit, if e.phase.Start? then old(startTimeouts) - {e.unit} else old(startTimeouts), move)
      ensures stopTimeouts ==
                StopsAfter(e.unit, if e.phase.Start? then old(stopTimeouts) else old(stopTimeouts) - {e.unit}, move)
    {
      hide StartDeadline, StopDeadline, AbortDeadline;
      var valid;
      if e.phase.Start? {
        valid := e.unit in startTimeouts && startTimeouts[e.unit] == e.source;
        startTimeouts := startTimeouts - {e.unit};
      } else {
        valid := e.unit in stopTimeouts && stopTimeouts[e.unit] == e.source;
        stopTimeouts := stopTimeouts - {e.unit};
      }
      if !valid {
        assert e.unit in units ==> units == units[e.unit := units[e.unit]];
        return Ignored;
      }
      match e.phase {
        case Start => move := ApplyStartDeadline(e.unit, k);
        case Stop => move := ApplyStopDeadline(e.unit, k);
        case Abort => move := ApplyAbortDeadline(e.unit, k);
      }
    }

    /** Let the deadline on record expire, and every one that it leads to. */
    method RunDeadlines(name: string, first: Phase, ks: nat -> Kernel) returns (last: Move, fired: nat)
      requires name in units && Due(first, units[name])
      requires if first.Start? then name in startTimeouts else name in stopTimeouts
      modifies this
      ensures Run(last, fired) == Escalate(first, old(units[name]), ks, 0)
      ensures !last.Ignored? && units == old(units)[name := last.record]
      ensures last.Finalised? ==> name !in startTimeouts && name !in stopTimeouts
    {
      hide Deadline, Due;
      var phase := first;
      var r := units[name];
      var source := if first.Start? then startTimeouts[name] else stopTimeouts[name];
      NextIsDue(phase, r, ks(0));
      last := ApplyServiceTimeoutEvent(Event(name, phase, source), ks(0));
      fired := 1;
      while last.Armed?
        invariant fired >= 1 && Due(phase, r) && last == Deadline(phase, r, ks(fired - 1)) && !last.Ignored?
        invariant units == old(units)[name := last.record]
        invariant last.Armed? ==> name in stopTimeouts && stopTimeouts[name] == last.timer.source
        invariant last.Finalised? ==> name !in startTimeouts && name !in stopTimeouts
        invariant
          var rest := Escalate(phase, r, ks, fired - 1);
          Escalate(first, old(units[name]), ks, 0) == Run(rest.last, rest.fired + fired - 1)
        decreases Rank(phase)
      {
        NextIsDue(phase, r, ks(fired - 1));
        phase, r := last.timer.phase, last.record;
        NextIsDue(phase, r, ks(fired));
        NeverStart(phase);
        last := ApplyServiceTimeoutEvent(Event(name, phase, last.timer.source), ks(fired));
        fired := fired + 1;
      }
    }

    /** First loop of `expire_watchdogs`: note and mark what has expired. */
    method MarkExpired(now: I64) returns (expired: set<string>)
      modifies this`units
      ensures units.Keys == old(units).Keys
      ensures forall n :: n in expired <==> n in old(units) && Expired(old(units)[n], now)
      ensures forall n :: n in units ==> units[n] == if n in expired then Barked(old(units)[n]) else old(units)[n]
    {
      hide Expired;
      expired := {};
      var names := units.Keys;
      while names != {}
        invariant names <= units.Keys == old(units).Keys && expired <= units.Keys
        invariant forall n :: n in units && n in names ==> units[n] == old(units)[n] && n !in expired
        invariant forall n :: n in units && n !in names ==>
                    && (n in expired <==> Expired(old(units)[n], now))
                    && units[n] == if n in expired then Barked(old(units)[n]) else old(units)[n]
        decreases names
      {
        var n :| n in names;
        if Expired(units[n], now) {
          units := units[n := Barked(units[n])];
          expired := expired + {n};
        }
        names := names - {n};
      }
    }

    /** One unit of the second loop, in terms of this unit's entries. */
    method AbortExpired(n: string, k: Kernel)
      requires n in units
      modifies this
      ensures units == old(units)[n := BarkedMove(old(units)[n], k).record]
      ensures forall u :: Entry(stopTimeouts, u) ==
                if u == n then StopEntry(Entry(old(stopTimeouts), u), BarkedMove(old(units)[n], k)) else Entry(old(stopTimeouts), u)
      ensures forall u :: Entry(startTimeouts, u) ==
                if u == n then StartEntry(Entry(old(startTimeouts), u), BarkedMove(old(units)[n], k)) else Entry(old(startTimeouts), u)
    {
      hide SignalThenArm;
      var move := SignalOrFinalize(n, Watchdog, Abort, units[n].abortTimeout, "watchdog", k);
    }

    /** Second loop of `expire_watchdogs`. */
    method AbortAll(expired: set<string>, ks: string -> Kernel)
      requires expired <= units.Keys
      modifies this
      ensures Aborted(expired, ks, old(units), old(stopTimeouts), old(startTimeouts), units, stopTimeouts, startTimeouts)
    {
      hide Aborted, Entry, BarkedMove, StopEntry, StartEntry;
      ghost var was, stops, starts := units, stopTimeouts, startTimeouts;
      NoneAborted(ks, was, stops, starts);
      var left := expired;
      assert expired - left == {};
      while left != {}
        invariant left <= expired <= was.Keys
        invariant Aborted(expired - left, ks, was, stops, starts, units, stopTimeouts, startTimeouts)
        decreases left
      {
        var n :| n in left;
        ghost var now, nowStops, nowStarts := units, stopTimeouts, startTimeouts;
        KnownUnits(expired - left, ks, was, stops, starts, now, nowStops, nowStarts);
        AbortExpired(n, ks(n));
        OneMoreAborted(expired - left, n, ks, was, stops, starts, now, nowStops, nowStarts,
                       units, stopTimeouts, startTimeouts);
        assert expired - left + {n} == expired - (left - {n});
        left := left - {n};
      }
      assert expired - {} == expired;
    }

    /** Every service whose watchdog has expired is deactivated and aborted, with
        its abort deadline armed, or without any deadline when it fails at once;
        nothing else is touched. */
    method ExpireWatchdogs(now: I64, ks: string -> Kernel)
      modifies this
      ensures units.Keys == old(units).Keys
      ensures forall n :: n in units ==> units[n] == AfterWatchdog(old(units)[n], now, ks(n))
      ensures forall n :: Entry(stopTimeouts, n) ==
                if n in old(units) && Expired(old(units)[n], now)
                then StopEntry(Entry(old(stopTimeouts), n), WatchdogMove(old(units)[n], ks(n))) else Entry(old(stopTimeouts), n)
      ensures forall n :: Entry(startTimeouts, n) ==
                if n in old(units) && Expired(old(units)[n], now)
                then StartEntry(Entry(old(startTimeouts), n), WatchdogMove(old(units)[n], ks(n))) else Entry(old(startTimeouts), n)
    {
      hide Expired, Entry, BarkedMove, StopEntry, StartEntry, Barked;
      var expired := MarkExpired(now);
      AbortAll(expired, ks);
    }
  }

  /** The units of `done` have been aborted and no others have changed. */
  ghost predicate Aborted(done: set<string>, ks: string -> Kernel, was: map<string, Record>, stops: Sources, starts: Sources,
                          now: map<string, Record>, stops': Sources, starts': Sources)
  {
    && now.Keys == was.Keys
    && (forall n :: n in was ==> now[n] == if n in done then BarkedMove(was[n], ks(n)).record else was[n])
    && (forall n :: Entry(stops', n) ==
          if n in done && n in was then StopEntry(Entry(stops, n), BarkedMove(was[n], ks(n))) else Entry(stops, n))
    && (forall n :: Entry(starts', n) ==
          if n in done && n in was then StartEntry(Entry(starts, n), BarkedMove(was[n], ks(n))) else Entry(starts, n))
  }

  lemma NoneAborted(ks: string -> Kernel, was: map<string, Record>, stops: Sources, starts: Sources)
    ensures Aborted({}, ks, was, stops, starts, was, stops, starts)
  {
  }

  lemma KnownUnits(done: set<string>, ks: string -> Kernel, was: map<string, Record>, stops: Sources, starts: Sources,
                   now: map<string, Record>, stops': Sources, starts': Sources)
    requires Aborted(done, ks, was, stops, starts, now, stops', starts')
    ensures now.Keys == was.Keys
  {
  }

  lemma OneMoreAborted(done: set<string>, n: string, ks: string -> Kernel,
                       was: map<string, Record>, stops: Sources, starts: Sources,
                       now: map<string, Record>, stops': Sources, starts': Sources,
                       later: map<string, Record>, stops'': Sources, starts'': Sources)
    requires Aborted(done, ks, was, stops, starts, now, stops', starts') && n in was && n !in done
    requires later == now[n := BarkedMove(now[n], ks(n)).record]
    requires forall u :: Entry(stops'', u) ==
               if u == n then StopEntry(Entry(stops', u), BarkedMove(now[n], ks(n))) else Entry(stops', u)
    requires forall u :: Entry(starts'', u) ==
               if u == n then StartEntry(Entry(starts', u), BarkedMove(now[n], ks(n))) else Entry(starts', u)
    ensures Aborted(done + {n}, ks, was, stops, starts, later, stops'', starts'')
  {
    hide Entry, BarkedMove, StopEntry, StartEntry;
    assert now[n] == was[n];
    var done' := done + {n};
    forall u | u in was
      ensures later[u] == if u in done' then BarkedMove(was[u], ks(u)).record else was[u]
    {
    }
    forall u
      ensures Entry(stops'', u) ==
              if u in done' && u in was then StopEntry(Entry(stops, u), BarkedMove(was[u], ks(u))) else Entry(stops, u)
      ensures Entry(starts'', u) ==
              if u in done' && u in was then StartEntry(Entry(starts, u), BarkedMove(was[u], ks(u))) else Entry(starts, u)
    {
    }
  }

  /** The deadline on record for a unit. */
  function Entry(sources: Sources, unit: string): Option<nat> {
    if unit in sources then Some(sources[unit]) else None
  }

  function StopEntry(entry: Option<nat>, move: Move): Option<nat> {
    match move
    case Ignored => entry
    case Killed(_, disarmed) => if disarmed then None else entry
    case Finalised(_) => None
    case Armed(_, timer) => Some(timer.source)
  }

  function StartEntry(entry: Option<nat>, move: Move): Option<nat> {
    if move.Finalised? then None else entry
  }

  predicate Expired(r: Record, now: I64) {
    && !r.watchdogTriggered && r.service
    && r.watchdogInterval.Some? && r.watchdogLast.Some? && r.main.Some?
    && SaturatingSub(now, r.watchdogLast.value) >= r.watchdogInterval.value
  }

  function Barked(r: Record): Record {
    r.(watchdogTriggered := true, result := "watchdog", stopRequested := false, state := Deactivating)
  }

  /** What an expired watchdog does to the marked unit. */
  function BarkedMove(r: Record, k: Kernel): (move: Move)
    ensures !move.Ignored?
  {
    SignalThenArm(r, Watchdog, Abort, r.abortTimeout, "watchdog", k)
  }

  function WatchdogMove(r: Record, k: Kernel): (move: Move)
    ensures !move.Ignored?
  {
    BarkedMove(Barked(r), k)
  }

  function AfterWatchdog(r: Record, now: I64, k: Kernel): Record {
    if Expired(r, now) then WatchdogMove(r, k).record else r
  }

  lemma NeverStart(phase: Phase)
    ensures Rank(phase) < 3 ==> !phase.Start?
  {
  }

  // ---- escalation ----

  function Rank(phase: Phase): nat {
    match phase
    case Start => 3
    case Stop => 2
    case Abort => 1
  }

  /** The phase of a deadline that is due for a unit in this state. */
  predicate Due(phase: Phase, r: Record) {
    r.service && if phase.Start? then r.state.Activating? else r.state.Deactivating?
  }

  function FinalResult(phase: Phase, r: Record): string {
    if phase.Abort? && r.result == "watchdog" then "watchdog" else "timeout"
  }

  /** The move escalates to a later phase, which is then due, or ends in a delivered
      kill or in failure. */
  ghost predicate Advances(phase: Phase, r: Record, k: Kernel, move: Move) {
    match move
    case Ignored => false
    case Armed(r', timer) =>
      && Rank(timer.phase) < Rank(phase) && Due(timer.phase, r')
      && FinalResult(timer.phase, r') == FinalResult(phase, r) == "timeout"
      && r'.policy == r.policy && r'.stopMode == r.stopMode
      && timer.timeout == (if timer.phase.Stop? then r.stopTimeout else r.abortTimeout)
      && r'.stopTimeout == r.stopTimeout && r'.abortTimeout == r.abortTimeout
    case Killed(r', _) => r'.state.Deactivating? && Sent(r', Kill, k) > 0 && r'.policy == r.policy
    case Finalised(r') => r'.state.UnitFailed? && r'.result == FinalResult(phase, r)
  }

  /** Every due deadline advances. */
  lemma DeadlineAdvances(phase: Phase, r: Record, k: Kernel)
    requires Due(phase, r)
    ensures Advances(phase, r, k, Deadline(phase, r, k))
  {
    hide StartDeadline, StopDeadline, AbortDeadline, Advances;
    match phase {
      case Start => StartAdvances(r, k);
      case Stop => StopAdvances(r, k);
      case Abort => AbortAdvances(r, k);
    }
  }

  lemma NextIsDue(phase: Phase, r: Record, k: Kernel)
    requires Due(phase, r)
    ensures
      var move := Deadline(phase, r, k);
      !move.Ignored? && (move.Armed? ==> Rank(move.timer.phase) < Rank(phase) && Due(move.timer.phase, move.record))
  {
    hide Deadline, Sent;
    DeadlineAdvances(phase, r, k);
  }

  lemma FailedIs(r: Record, result: string)
    ensures FailedRecord(r, result).state.UnitFailed? && FailedRecord(r, result).result == result
  {
  }

  lemma StartAdvances(r: Record, k: Kernel)
    requires Due(Start, r)
    ensures Advances(Start, r, k, StartDeadline(r, k))
  {
    hide Sent, FailedRecord;
    FailedIs(TimedOut(r), "timeout");
  }

  lemma StopAdvances(r: Record, k: Kernel)
    requires Due(Stop, r)
    ensures Advances(Stop, r, k, StopDeadline(r, k))
  {
    hide Sent, FailedRecord;
    FailedIs(r.(result := "timeout"), "timeout");
  }

  lemma AbortAdvances(r: Record, k: Kernel)
    requires Due(Abort, r)
    ensures Advances(Abort, r, k, AbortDeadline(r, k))
  {
    hide Sent, FailedRecord;
    FailedIs(r, KillResult(r));
  }

  /** The deadlines of one service, each answered by the kernel in turn. */
  datatype Run = Run(last: Move, fired: nat)

  function Escalate(phase: Phase, r: Record, ks: nat -> Kernel, i: nat): Run
    decreases Rank(phase), if Due(phase, r) then 0 else 1
  {
    var move := Deadline(phase, r, ks(i));
    if Due(phase, r) && move.Armed? then
      DeadlineAdvances(phase, r, ks(i));
      var rest := Escalate(move.timer.phase, move.record, ks, i + 1);
      Run(rest.last, rest.fired + 1)
    else Run(move, 1)
  }

  /** From any due deadline at most as many fire as phases are left, never more
      than three, and the last one delivers the final kill or finalises the unit
      as failed, for every kill mode, failure mode and behaviour of the kernel. */
  lemma {:induction false} EscalationEnds(phase: Phase, r: Record, ks: nat -> Kernel, i: nat)
    requires Due(phase, r)
    ensures
      var run := Escalate(phase, r, ks, i);
      && 1 <= run.fired <= Rank(phase) <= 3
      && (run.last.Killed? || run.last.Finalised?)
      && (run.last.Killed? ==>
            && run.last.record.state.Deactivating? && run.last.record.policy == r.policy
            && Sent(run.last.record, Kill, ks(i + run.fired - 1)) > 0)
      && (run.last.Finalised? ==> run.last.record.state.UnitFailed? && run.last.record.result == FinalResult(phase, r))
    decreases Rank(phase)
  {
    hide Deadline, Sent;
    DeadlineAdvances(phase, r, ks(i));
    var move := Deadline(phase, r, ks(i));
    if move.Armed? {
      EscalationEnds(move.timer.phase, move.record, ks, i + 1);
    }
  }

  /** A service that must not be killed is never left waiting for a kill. */
  lemma WithoutKillItFails(phase: Phase, r: Record, ks: nat -> Kernel, i: nat)
    requires Due(phase, r) && (r.policy.mode.NoKill? || !r.policy.sendSigkill)
    ensures Escalate(phase, r, ks, i).last.Finalised?
  {
    hide Escalate;
    EscalationEnds(phase, r, ks, i);
    var last := Escalate(phase, r, ks, i).last;
    assert last.Killed? ==> last.record.policy.Signal(Kill).None?;
  }

  /** All three deadlines fire exactly when the start deadline terminates, the stop
      deadline aborts, both signals reach someone and both timers can be armed. */
  lemma ThreeDeadlinesIff(r: Record, ks: nat -> Kernel)
    requires Due(Start, r)
    ensures
      var first := TimedOut(r);
      Escalate(Start, r, ks, 0).fired == 3 <==>
        && r.startMode != "kill" && r.startMode != "abort" && r.stopMode == "abort"
        && Sent(first, Terminate, ks(0)) > 0 && ks(0).timer.Some?
        && Sent(first, Watchdog, ks(1)) > 0 && ks(1).timer.Some?
  {
    hide Sent;
    var first := TimedOut(r);
    var move := Deadline(Start, r, ks(0));
    if move.Armed? {
      DeadlineAdvances(Start, r, ks(0));
      var second := Deadline(move.timer.phase, move.record, ks(1));
      assert first.(result := "timeout") == first;
      if second.Armed? {
        DeadlineAdvances(move.timer.phase, move.record, ks(1));
        assert Escalate(Abort, second.record, ks, 2).fired == 1;
      }
    }
  }

  /** An expired watchdog ends with the final kill, or in failure with the result
      "watchdog", after at most one more deadline. */
  lemma WatchdogEnds(r: Record, now: I64, k: Kernel, ks: nat -> Kernel)
    requires Expired(r, now)
    ensures
      var move := WatchdogMove(r, k);
      match move
      case Ignored => false
      case Killed(r', _) => r'.state.Deactivating? && Sent(r', Kill, k) > 0
      case Finalised(r') => r'.state.UnitFailed? && r'.result == "watchdog"
      case Armed(r', timer) =>
        var run := Escalate(timer.phase, r', ks, 0);
        && timer.phase.Abort? && timer.timeout == r.abortTimeout
        && run.fired == 1 && (run.last.Killed? || run.last.Finalised?)
        && (run.last.Finalised? ==> run.last.record.state.UnitFailed? && run.last.record.result == "watchdog")
  {
    hide Sent, Escalate;
    var move := WatchdogMove(r, k);
    if move.Armed? {
      EscalationEnds(Abort, move.record, ks, 0);
    }
  }
}
