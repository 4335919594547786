/** Whole runs of deadline events as the manager processes them (src/manager.rs),
    and what they do to the deadlines on record. */
module TimeoutRuns {
  import opened Basics
  import opened KillContext
  import opened Timeouts

  /** The manager's state, as far as deadlines go. */
  datatype World = World(units: map<string, Record>, starts: Sources, stops: Sources)

  /** What an event moves. */
  function MoveOf(w: World, e: Event, k: Kernel): Move {
    if Honoured(e, w.starts, w.stops) && e.unit in w.units then Deadline(e.phase, w.units[e.unit], k) else Ignored
  }

  function Process(w: World, e: Event, k: Kernel): World {
    var move := MoveOf(w, e, k);
    World(if e.unit in w.units then w.units[e.unit := After(w.units[e.unit], move)] else w.units,
          StartsAfter(e.unit, if e.phase.Start? then w.starts - {e.unit} else w.starts, move),
          StopsAfter(e.unit, if e.phase.Start? then w.stops else w.stops - {e.unit}, move))
  }

  /** Events in order, the i-th answered by the i-th kernel. */
  function ProcessAll(w: World, es: seq<Event>, ks: nat -> Kernel): World {
    if es == [] then w
    else Process(ProcessAll(w, es[..|es| - 1], ks), es[|es| - 1], ks(|es| - 1))
  }

  ghost function WorldOf(m: Manager): World
    reads m
  {
    World(m.units, m.startTimeouts, m.stopTimeouts)
  }

  /** `apply_service_timeout_events`: the manager follows the fold. */
  method ApplyServiceTimeoutEvents(m: Manager, es: seq<Event>, ks: nat -> Kernel)
    modifies m
    ensures WorldOf(m) == ProcessAll(old(WorldOf(m)), es, ks)
  {
    hide Deadline;
    var i := 0;
    while i < |es|
      invariant i <= |es| && WorldOf(m) == ProcessAll(old(WorldOf(m)), es[..i], ks)
    {
      assert es[..i + 1][..i] == es[..i];
      var move := m.ApplyServiceTimeoutEvent(es[i], ks(i));
      i := i + 1;
    }
    assert es[..|es|] == es;
  }

  // ---- deadlines on record ----

  predicate OnRecord(sources: Sources, unit: string, source: nat) {
    unit in sources && sources[unit] == source
  }

  predicate StopEvent(e: Event, unit: string) {
    e.unit == unit && !e.phase.Start?
  }

  predicate StartEvent(e: Event, unit: string) {
    e.unit == unit && e.phase.Start?
  }

  /** The move takes the stop deadline on record away or replaces it. */
  predicate Displaces(move: Move) {
    move.Armed? || move.Finalised? || (move.Killed? && move.disarmed)
  }

  /** The first start event for the unit. */
  predicate FirstStart(es: seq<Event>, unit: string, i: nat) {
    i < |es| && StartEvent(es[i], unit) && forall j :: 0 <= j < i ==> !StartEvent(es[j], unit)
  }

  /** The event loop does not hand out the source again. */
  predicate NotReused(es: seq<Event>, ks: nat -> Kernel, source: nat) {
    forall i: nat :: i < |es| ==> ks(i).timer != Some(source)
  }

  /** The start timer on record fires as the first start event and its deadline
      displaces the stop deadline. */
  ghost predicate Displaced(w: World, es: seq<Event>, ks: nat -> Kernel, unit: string) {
    exists i: nat :: FirstStart(es, unit, i) && OnRecord(w.starts, unit, es[i].source) && unit in w.units
                     && Displaces(StartDeadline(w.units[unit], ks(i)))
  }

  /** While no stop event for the unit and nothing that displaces its deadline has
      come, the unit is as it was until its first start event, and after that its
      start timer is gone. */
  ghost predicate Untouched(w: World, es: seq<Event>, ks: nat -> Kernel, unit: string, source: nat, now: World) {
    && OnRecord(now.stops, unit, source)
    && if exists i :: 0 <= i < |es| && StartEvent(es[i], unit) then unit !in now.starts
       else
         && (unit in now.units <==> unit in w.units) && (unit in w.units ==> now.units[unit] == w.units[unit])
         && (unit in now.starts <==> unit in w.starts) && (unit in w.starts ==> now.starts[unit] == w.starts[unit])
  }

  /** An event for another unit touches nothing of this one. */
  lemma OtherUnit(w: World, e: Event, k: Kernel, unit: string)
    requires e.unit != unit
    ensures
      var now := Process(w, e, k);
      && (unit in now.units <==> unit in w.units) && (unit in w.units ==> now.units[unit] == w.units[unit])
      && (unit in now.starts <==> unit in w.starts) && (unit in w.starts ==> now.starts[unit] == w.starts[unit])
      && (unit in now.stops <==> unit in w.stops) && (unit in w.stops ==> now.stops[unit] == w.stops[unit])
  {
    hide Deadline;
  }

  /** After a stop event the source is not on record, unless it was armed anew. */
  lemma StopEventTakes(w: World, e: Event, k: Kernel, unit: string, source: nat)
    requires StopEvent(e, unit) && k.timer != Some(source)
    ensures !OnRecord(Process(w, e, k).stops, unit, source)
  {
    ArmsTimer(w, e, k);
    hide Deadline;
  }

  /** A timer that a move arms is the one the kernel delivered. */
  lemma ArmsTimer(w: World, e: Event, k: Kernel)
    ensures MoveOf(w, e, k).Armed? ==> k.timer == Some(MoveOf(w, e, k).timer.source)
  {
    hide Sent;
  }

  /** A source that is gone stays gone. */
  lemma GoneStaysGone(w: World, e: Event, k: Kernel, unit: string, source: nat)
    requires !OnRecord(w.stops, unit, source) && k.timer != Some(source)
    ensures !OnRecord(Process(w, e, k).stops, unit, source)
  {
    ArmsTimer(w, e, k);
    hide Deadline;
  }

  lemma StartEventStep(w: World, e: Event, k: Kernel, unit: string, source: nat)
    requires StartEvent(e, unit) && OnRecord(w.stops, unit, source) && k.timer != Some(source)
    ensures
      var now := Process(w, e, k);
      && unit !in now.starts
      && (OnRecord(now.stops, unit, source) <==> !Displaces(MoveOf(w, e, k)))
  {
    ArmsTimer(w, e, k);
    hide Deadline;
  }

  // ---- stop deadlines ----

  predicate NoStopEvent(es: seq<Event>, unit: string) {
    forall i :: 0 <= i < |es| ==> !StopEvent(es[i], unit)
  }

  predicate NoStartEvent(es: seq<Event>, unit: string) {
    forall i :: 0 <= i < |es| ==> !StartEvent(es[i], unit)
  }

  /** One more event displaces the deadline if an earlier one does, or if it is the
      first start event and does. */
  lemma DisplacedMore(w: World, es: seq<Event>, e: Event, ks: nat -> Kernel, unit: string)
    ensures Displaced(w, es + [e], ks, unit) <==>
              (Displaced(w, es, ks, unit) ||
               (NoStartEvent(es, unit) && StartEvent(e, unit) && OnRecord(w.starts, unit, e.source) && unit in w.units
                && Displaces(StartDeadline(w.units[unit], ks(|es|)))))
  {
    hide StartDeadline, Displaces;
    var all := es + [e];
    assert all[|es|] == e;
    assert forall i :: 0 <= i < |es| ==> all[i] == es[i];
    forall i: nat
      ensures FirstStart(all, unit, i) <==>
                (FirstStart(es, unit, i) || (i == |es| && NoStartEvent(es, unit) && StartEvent(e, unit)))
    {
    }
  }

  lemma {:induction false} StopRun(w: World, es: seq<Event>, ks: nat -> Kernel, unit: string, source: nat)
    requires OnRecord(w.stops, unit, source) && NotReused(es, ks, source)
    ensures
      var now := ProcessAll(w, es, ks);
      if NoStopEvent(es, unit) && !Displaced(w, es, ks, unit) then Untouched(w, es, ks, unit, source, now)
      else !OnRecord(now.stops, unit, source)
  {
    if es != [] {
      var front, e := es[..|es| - 1], es[|es| - 1];
      assert es == front + [e];
      StopRun(w, front, ks, unit, source);
      DisplacedMore(w, front, e, ks, unit);
      StopStep(w, front, e, ks, unit, source, ProcessAll(w, front, ks));
    }
  }

  lemma StopStep(w: World, front: seq<Event>, e: Event, ks: nat -> Kernel, unit: string, source: nat, now: World)
    requires ks(|front|).timer != Some(source)
    requires if NoStopEvent(front, unit) && !Displaced(w, front, ks, unit) then Untouched(w, front, ks, unit, source, now)
             else !OnRecord(now.stops, unit, source)
    requires Displaced(w, front + [e], ks, unit) <==>
               (Displaced(w, front, ks, unit) ||
                (NoStartEvent(front, unit) && StartEvent(e, unit) && OnRecord(w.starts, unit, e.source) && unit in w.units
                 && Displaces(StartDeadline(w.units[unit], ks(|front|)))))
    ensures
      var then_ := Process(now, e, ks(|front|));
      if NoStopEvent(front + [e], unit) && !Displaced(w, front + [e], ks, unit)
      then Untouched(w, front + [e], ks, unit, source, then_)
      else !OnRecord(then_.stops, unit, source)
  {
    hide StartDeadline, StopDeadline, AbortDeadline, Displaces, Displaced, Process;
    var k, all := ks(|front|), front + [e];
    assert all[|front|] == e;
    assert forall i :: 0 <= i < |front| ==> all[i] == front[i];
    if !OnRecord(now.stops, unit, source) {
      GoneStaysGone(now, e, k, unit, source);
    } else if StopEvent(e, unit) {
      StopEventTakes(now, e, k, unit, source);
    } else if StartEvent(e, unit) {
      StartEventStep(now, e, k, unit, source);
      IgnoredStays();
    } else {
      OtherUnit(now, e, k, unit);
    }
  }

  lemma IgnoredStays()
    ensures !Displaces(Ignored)
  {
  }

  /** A stop deadline is still honoured after a run of events if and only if no
      stop or abort event for its unit was among them, and the start timer on
      record did not fire with a deadline that rearms, finalises or kills without
      a timer. */
  lemma StopHonouredIff(w: World, es: seq<Event>, ks: nat -> Kernel, unit: string, source: nat)
    requires OnRecord(w.stops, unit, source) && NotReused(es, ks, source)
    ensures OnRecord(ProcessAll(w, es, ks).stops, unit, source) <==>
              NoStopEvent(es, unit) && !Displaced(w, es, ks, unit)
  {
    hide Displaced, ProcessAll;
    StopRun(w, es, ks, unit, source);
  }

  // ---- start deadlines ----

  /** The move that the i-th event of the run makes. */
  function MoveAt(w: World, es: seq<Event>, ks: nat -> Kernel, i: nat): Move
    requires i < |es|
  {
    MoveOf(ProcessAll(w, es[..i], ks), es[i], ks(i))
  }

  /** Some stop or abort event of the run finalises the unit. */
  ghost predicate FinalisedIn(w: World, es: seq<Event>, ks: nat -> Kernel, unit: string) {
    exists i: nat :: i < |es| && StopEvent(es[i], unit) && MoveAt(w, es, ks, i).Finalised?
  }

  lemma FinalisedMore(w: World, es: seq<Event>, e: Event, ks: nat -> Kernel, unit: string)
    ensures FinalisedIn(w, es + [e], ks, unit) <==>
              (FinalisedIn(w, es, ks, unit) ||
               (StopEvent(e, unit) && MoveOf(ProcessAll(w, es, ks), e, ks(|es|)).Finalised?))
  {
    hide MoveOf, ProcessAll;
    var all := es + [e];
    assert all[|es|] == e && all[..|es|] == es;
    forall i: nat | i < |es|
      ensures all[i] == es[i] && MoveAt(w, all, ks, i) == MoveAt(w, es, ks, i)
    {
      assert all[..i] == es[..i];
    }
    if StopEvent(e, unit) && MoveOf(ProcessAll(w, es, ks), e, ks(|es|)).Finalised? {
      assert MoveAt(w, all, ks, |es|).Finalised?;
    }
  }

  lemma StartStep(w: World, e: Event, k: Kernel, unit: string, source: nat)
    ensures OnRecord(Process(w, e, k).starts, unit, source) <==>
              && OnRecord(w.starts, unit, source) && !StartEvent(e, unit)
              && !(StopEvent(e, unit) && MoveOf(w, e, k).Finalised?)
  {
    hide Deadline;
  }

  lemma NoStartMore(es: seq<Event>, e: Event, unit: string)
    ensures NoStartEvent(es + [e], unit) <==> NoStartEvent(es, unit) && !StartEvent(e, unit)
  {
    hide StartEvent;
    var all := es + [e];
    assert all[|es|] == e;
    assert forall i :: 0 <= i < |es| ==> all[i] == es[i];
  }

  /** A start deadline is still honoured after a run of events if and only if no
      start event for its unit was among them and no stop or abort event of the
      run finalised the unit. */
  lemma {:induction false} StartHonouredIff(w: World, es: seq<Event>, ks: nat -> Kernel, unit: string, source: nat)
    requires OnRecord(w.starts, unit, source)
    ensures OnRecord(ProcessAll(w, es, ks).starts, unit, source) <==>
              NoStartEvent(es, unit) && !FinalisedIn(w, es, ks, unit)
  {
    hide MoveAt;
    if es != [] {
      hide MoveOf, Process, FinalisedIn;
      var front, e := es[..|es| - 1], es[|es| - 1];
      assert es == front + [e];
      StartHonouredIff(w, front, ks, unit, source);
      FinalisedMore(w, front, e, ks, unit);
      StartStep(ProcessAll(w, front, ks), e, ks(|front|), unit, source);
      NoStartMore(front, e, unit);
    }
  }

  /** While a unit is being activated no stop deadline acts on it, so its start
      deadline is honoured if and only if no start event came first. */
  lemma ActivatingHonouredIff(w: World, es: seq<Event>, ks: nat -> Kernel, unit: string, source: nat)
    requires OnRecord(w.starts, unit, source) && (unit in w.units ==> w.units[unit].state.Activating?)
    ensures OnRecord(ProcessAll(w, es, ks).starts, unit, source) <==> NoStartEvent(es, unit)
  {
    hide ProcessAll, MoveOf;
    StartHonouredIff(w, es, ks, unit, source);
    if NoStartEvent(es, unit) && FinalisedIn(w, es, ks, unit) {
      var i: nat :| i < |es| && StopEvent(es[i], unit) && MoveAt(w, es, ks, i).Finalised?;
      assert forall j :: 0 <= j < i ==> es[..i][j] == es[j];
      StaysActivating(w, es[..i], ks, unit);
      ActivatingIgnores(ProcessAll(w, es[..i], ks), es[i], ks(i), unit);
    }
  }

  lemma ActivatingIgnores(w: World, e: Event, k: Kernel, unit: string)
    requires StopEvent(e, unit) && (unit in w.units ==> w.units[unit].state.Activating?)
    ensures MoveOf(w, e, k).Ignored?
  {
  }

  lemma {:induction false} StaysActivating(w: World, es: seq<Event>, ks: nat -> Kernel, unit: string)
    requires NoStartEvent(es, unit) && (unit in w.units ==> w.units[unit].state.Activating?)
    ensures
      var now := ProcessAll(w, es, ks);
      unit in now.units ==> now.units[unit].state.Activating?
  {
    if es != [] {
      hide MoveOf;
      var front, e := es[..|es| - 1], es[|es| - 1];
      StaysActivating(w, front, ks, unit);
      var before := ProcessAll(w, front, ks);
      if e.unit == unit {
        ActivatingIgnores(before, e, ks(|front|), unit);
      }
    }
  }

  // ---- a lost deadline ----

  /** A stale event takes the deadline that replaced its own: the event of the live
      timer is then ignored, and a unit that is being stopped keeps its state with
      no deadline on record. */
  lemma StaleEventStrands(w: World, unit: string, stale: Event, due: Event, ks: nat -> Kernel)
    requires StopEvent(stale, unit) && StopEvent(due, unit)
    requires OnRecord(w.stops, unit, due.source) && stale.source != due.source
    ensures ProcessAll(w, [stale, due], ks) == w.(stops := w.stops - {unit})
  {
    hide Deadline, ProcessAll;
    NothingProcessed(w, ks);
    FoldLast(w, [], stale, ks);
    FoldLast(w, [stale], due, ks);
    assert [] + [stale] == [stale] && [stale] + [due] == [stale, due];
    assert unit in w.units ==> w.units == w.units[unit := w.units[unit]];
    assert w.stops - {unit} - {unit} == w.stops - {unit};
  }

  lemma NothingProcessed(w: World, ks: nat -> Kernel)
    ensures ProcessAll(w, [], ks) == w
  {
  }

  lemma FoldLast(w: World, es: seq<Event>, e: Event, ks: nat -> Kernel)
    ensures ProcessAll(w, es + [e], ks) == Process(ProcessAll(w, es, ks), e, ks(|es|))
  {
    assert (es + [e])[..|es|] == es;
  }

  /** For example the deadline 2 of a unit that is being stopped, after a late event
      of the deadline 1 that it replaced. */
  lemma LostDeadline(r: Record, ks: nat -> Kernel)
    requires r.state.Deactivating?
    ensures
      var w := World(map["u" := r], map[], map["u" := 2]);
      var end := ProcessAll(w, [Event("u", Stop, 1), Event("u", Stop, 2)], ks);
      "u" in end.units && end.units["u"].state.Deactivating? && "u" !in end.starts && "u" !in end.stops
  {
    hide Process, ProcessAll;
    StaleEventStrands(World(map["u" := r], map[], map["u" := 2]), "u", Event("u", Stop, 1), Event("u", Stop, 2), ks);
  }
}
