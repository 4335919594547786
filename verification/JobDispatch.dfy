/** The manager's dispatch loop over the job queue (src/manager.rs): refresh the
    ordering, pop one ready job, run it, finish it. */
module JobDispatch {
  import opened Basics
  import opened JobOrdering
  import opened JobRegistry
  import opened JobQueue

  /** `before` holds exactly what `After=` demands of the live jobs. */
  ghost predicate Refreshed(live: Live, before: Edges, afters: Afters) {
    forall x: nat, y: nat :: Has(before, y, x) <==> OrdersBefore(live, afters, x, y)
  }

  ghost predicate Queued(pending: seq<Job>, id: nat) {
    exists job :: job in pending && job.id == id
  }

  /** No live job precedes the job and, if it is a start, every unit it comes after
      is settled. */
  ghost predicate Able(live: Live, states: States, afters: Afters, job: Job) {
    && (job.id == 0 || Unblocked(live, afters, job.id))
    && JobIsReady(job, states, afters)
  }

  /** The position of the first able job, or the length of the queue. */
  ghost function FirstAble(pending: seq<Job>, live: Live, states: States, afters: Afters): (pos: nat)
    ensures pos <= |pending|
    ensures pos < |pending| ==> Able(live, states, afters, pending[pos])
    ensures forall i :: 0 <= i < pos ==> !Able(live, states, afters, pending[i])
  {
    if pending == [] || Able(live, states, afters, pending[0]) then 0
    else 1 + FirstAble(pending[1..], live, states, afters)
  }

  /** Right after a refresh the ready jobs are the able ones. */
  lemma ReadyMeans(view: View, job: Job)
    requires Refreshed(view.live, view.before, view.afters) && Alive(view.live, job) && 0 !in view.live
    ensures Ready(view, job) <==> Able(view.live, view.states, view.afters, job)
  {
    hide JobIsReady, DependsOn;
    if job.id != 0 {
      assert forall x: nat :: OrdersBefore(view.live, view.afters, x, job.id) <==> Has(view.before, job.id, x);
      assert forall x: nat :: Has(view.before, job.id, x) ==> x in view.live;
      if NothingBefore(view.before, view.live, job.id) {
        assert forall x: nat :: !Has(view.before, job.id, x);
      } else {
        var x :| x in view.before[job.id] && x in view.live;
        assert Has(view.before, job.id, x);
      }
    }
  }

  ghost function Ables(pending: seq<Job>, live: Live, states: States, afters: Afters): set<nat> {
    set i: nat | i < |pending| && Able(live, states, afters, pending[i])
  }

  /** The scores that the pop goes by: none in a build without the scorer. */
  type Scores = Option<nat -> Score>

  /** The position of the job that a pop takes: the best able job by score, the first
      able one without scores, or the length of the queue if none is able. */
  ghost function Pick(pending: seq<Job>, live: Live, states: States, afters: Afters, scores: Scores): (pos: nat)
    ensures pos <= |pending|
    ensures pos < |pending| ==> Able(live, states, afters, pending[pos])
    ensures pos == |pending| <==> FirstAble(pending, live, states, afters) == |pending|
    ensures pos < |pending| && scores.Some? ==> Best(Ables(pending, live, states, afters), scores.value, pos)
  {
    var first := FirstAble(pending, live, states, afters);
    if scores.None? || first == |pending| then first
    else
      assert first in Ables(pending, live, states, afters);
      BestExists(Ables(pending, live, states, afters), scores.value);
      var pos :| Best(Ables(pending, live, states, afters), scores.value, pos);
      pos
  }

  /** Equal scores give the pop of a build without the scorer. */
  lemma EqualScoresPickFirst(pending: seq<Job>, live: Live, states: States, afters: Afters, score: nat -> Score)
    requires forall i: nat :: i < |pending| ==> score(i) == score(0)
    ensures Pick(pending, live, states, afters, Some(score)) == Pick(pending, live, states, afters, None)
  {
    hide Able;
    var first, pos := FirstAble(pending, live, states, afters), Pick(pending, live, states, afters, Some(score));
    if first < |pending| {
      assert first in Ables(pending, live, states, afters) && pos in Ables(pending, live, states, afters);
      assert score(first) == score(0) == score(pos);
    }
  }

  /** Right after a refresh both pops of the queue take the picked job. */
  lemma ReadyIsAble(view: View, kept: seq<Job>)
    requires Refreshed(view.live, view.before, view.afters) && 0 !in view.live
    requires forall job :: job in kept ==> Alive(view.live, job)
    ensures FirstReady(kept, view) == FirstAble(kept, view.live, view.states, view.afters)
    ensures Readies(kept, view) == Ables(kept, view.live, view.states, view.afters)
  {
    hide Refreshed, Ready, Able, FirstReady, FirstAble, Alive;
    forall i | 0 <= i < |kept|
      ensures Ready(view, kept[i]) <==> Able(view.live, view.states, view.afters, kept[i])
    {
      ReadyMeans(view, kept[i]);
    }
  }

  /** Nothing is left, or something is in flight: a live job has left the queue, or
      a queued start comes after a unit in transition. */
  ghost predicate DoneOrInFlight(live: Live, pending: seq<Job>, states: States, afters: Afters) {
    || (pending == [] && live.Keys == {})
    || (exists id :: id in live && !Queued(pending, id))
    || (exists job :: job in pending && !JobIsReady(job, states, afters))
  }

  /** Acyclic `After=` never blocks the queue by itself: if none of the living jobs
      in it is able, nothing is left or something is in flight. */
  lemma NeverStuck(live: Live, kept: seq<Job>, states: States, afters: Afters)
    requires Acyclic(afters) && forall job :: job in kept ==> Alive(live, job)
    requires FirstAble(kept, live, states, afters) == |kept|
    ensures DoneOrInFlight(live, kept, states, afters)
  {
    hide JobIsReady, Unblocked, Acyclic, FirstAble;
    if live.Keys != {} {
      var y := AcyclicUnblocks(live, afters);
      UnblockedIsLive(live, afters, y);
      if Queued(kept, y) {
        var job :| job in kept && job.id == y;
        var i :| 0 <= i < |kept| && kept[i] == job;
      }
    } else if kept != [] {
      assert kept[0] in kept;
    }
  }

  lemma UnblockedIsLive(live: Live, afters: Afters, y: nat)
    requires Unblocked(live, afters, y)
    ensures y in live
  {
  }

  // ---- safety of a pop, at any time after the refresh ----

  /** Whatever was allocated, run, finished or canceled since the last refresh:
      when a job can be popped, every job that had to precede it has finished. */
  lemma PoppedComesLast(history: seq<JobEvent>, nextId: nat, ordered: Edges, view: View, job: Job, x: nat)
    requires Logged(history, view.live, nextId) && Remaining(view.before, ordered, view.live, nextId)
    requires job.id != 0 && job.id in view.live && Ready(view, job)
    requires Has(ordered, job.id, x)
    ensures x !in view.live && GoneEvents(About(history, x))
  {
    hide About, GoneEvents, JobIsReady;
    assert 0 < x < nextId;
  }

  // ---- a whole run ----

  /** No job runs before one that it must follow, and none runs twice. */
  ghost predicate Ordered(order: seq<Job>, live: Live, afters: Afters) {
    forall i, j :: 0 <= i < j < |order| && order[i].id != 0 && order[j].id != 0 ==>
      order[i].id != order[j].id && !OrdersBefore(live, afters, order[j].id, order[i].id)
  }

  /** `now` is what is left of `live`, up to the jobs' states. */
  ghost predicate Shrunk(live: Live, now: Live) {
    forall id :: id in now ==> id in live && now[id].kind == live[id].kind && now[id].unit == live[id].unit
  }

  ghost predicate AllQueued(now: Live, pending: seq<Job>) {
    forall id :: id in now ==> Queued(pending, id)
  }

  ghost predicate Ran(order: seq<Job>, live: Live, now: Live) {
    forall i :: 0 <= i < |order| && order[i].id != 0 ==> order[i].id in live && order[i].id !in now
  }

  ghost predicate Covered(order: seq<Job>, live: Live, now: Live) {
    forall id :: id in live ==> id in now || Queued(order, id)
  }

  ghost predicate NotAhead(now: Live, live: Live, afters: Afters, y: nat) {
    forall x: nat :: x in now ==> !OrdersBefore(live, afters, x, y)
  }

  ghost predicate Past(order: seq<Job>, live: Live, now: Live, afters: Afters) {
    forall i :: 0 <= i < |order| && order[i].id != 0 ==> NotAhead(now, live, afters, order[i].id)
  }

  ghost predicate Dispatched(order: seq<Job>, live: Live, now: Live, afters: Afters) {
    && Ran(order, live, now)
    && Covered(order, live, now)
    && Past(order, live, now, afters)
    && Ordered(order, live, afters)
  }

  lemma ShrunkOrder(live: Live, now: Live, afters: Afters, x: nat, y: nat)
    requires Shrunk(live, now)
    ensures OrdersBefore(now, afters, x, y) <==> x in now && y in now && OrdersBefore(live, afters, x, y)
  {
  }

  lemma OrderedExtends(order: seq<Job>, live: Live, now: Live, afters: Afters, job: Job)
    requires Ordered(order, live, afters) && Past(order, live, now, afters) && Ran(order, live, now)
    requires job.id == 0 || job.id in now
    ensures Ordered(order + [job], live, afters)
  {
    hide OrdersBefore;
    var longer := order + [job];
    forall i, j | 0 <= i < j < |longer| && longer[i].id != 0 && longer[j].id != 0
      ensures longer[i].id != longer[j].id && !OrdersBefore(live, afters, longer[j].id, longer[i].id)
    {
      if j == |order| {
        assert NotAhead(now, live, afters, order[i].id);
      }
    }
  }

  lemma CoveredExtends(order: seq<Job>, live: Live, now: Live, job: Job)
    requires Covered(order, live, now)
    ensures Covered(order + [job], live, now - {job.id})
  {
    forall id | id in live
      ensures id in now - {job.id} || Queued(order + [job], id)
    {
      if id == job.id {
        assert job in order + [job];
      } else if id !in now {
        var earlier :| earlier in order && earlier.id == id;
        assert earlier in order + [job];
      }
    }
  }

  lemma PastExtends(order: seq<Job>, live: Live, now: Live, afters: Afters, job: Job)
    requires Past(order, live, now, afters) && Shrunk(live, now)
    requires job.id == 0 || Unblocked(now, afters, job.id)
    ensures Past(order + [job], live, now - {job.id}, afters)
  {
    hide OrdersBefore, Shrunk;
    forall x: nat | x in now && job.id != 0
      ensures !OrdersBefore(live, afters, x, job.id)
    {
      ShrunkOrder(live, now, afters, x, job.id);
    }
    assert job.id != 0 ==> NotAhead(now - {job.id}, live, afters, job.id);
    forall i | 0 <= i < |order| && order[i].id != 0
      ensures NotAhead(now - {job.id}, live, afters, order[i].id)
    {
      assert NotAhead(now, live, afters, order[i].id);
    }
  }

  /** Running an unblocked job extends the order. */
  lemma RunExtends(order: seq<Job>, live: Live, now: Live, afters: Afters, job: Job)
    requires Dispatched(order, live, now, afters) && Shrunk(live, now)
    requires job.id == 0 || Unblocked(now, afters, job.id)
    ensures Dispatched(order + [job], live, now - {job.id}, afters)
  {
    hide OrdersBefore, Covered, Past, Ordered;
    CoveredExtends(order, live, now, job);
    PastExtends(order, live, now, afters, job);
    OrderedExtends(order, live, now, afters, job);
  }

  /** Once a job is gone, the rest of the queue still stands for the jobs that
      remain. */
  lemma QueuedShrinks(now: Live, pending: seq<Job>, pos: nat)
    requires AllQueued(now, pending) && pos < |Retained(pending, now)|
    ensures AllQueued(now - {Retained(pending, now)[pos].id}, Remove(Retained(pending, now), pos))
  {
    hide Retained;
    RetainedAll(pending, now);
    var kept := Retained(pending, now);
    var rest := Remove(kept, pos);
    forall id | id in now - {kept[pos].id}
      ensures Queued(rest, id)
    {
      assert Queued(pending, id);
      var job :| job in pending && job.id == id;
      assert job in kept;
      var i :| 0 <= i < |kept| && kept[i] == job;
      assert rest[if i < pos then i else i - 1] == job;
    }
  }

  // ---- one pop ----

  lemma NoZero(registry: Registry)
    requires registry.Valid()
    ensures 0 !in registry.live
  {
  }

  /** The loop's first half, with any units in transition and any jobs running:
      refresh, then pop the picked job. With acyclic `After=`, `None` means that
      nothing is left or that something is in flight. */
  method PopNext(queue: Queue, afters: Afters, states: States, scores: Scores) returns (job: Option<Job>)
    requires queue.registry.Valid()
    modifies queue, queue.registry`before, queue.registry`after, queue.registry`ordered
    ensures queue.registry.Valid()
    ensures
      var kept := Retained(old(queue.pending), queue.registry.live);
      var pos := Pick(kept, queue.registry.live, states, afters, scores);
      if pos == |kept| then job == None && queue.pending == kept
      else job == Some(kept[pos]) && queue.pending == Remove(kept, pos)
    ensures job.None? && Acyclic(afters) ==> DoneOrInFlight(queue.registry.live, queue.pending, states, afters)
  {
    hide Acyclic, Retained, FirstReady, FirstAble, Pick, Ready, Able, Accounted, EdgesOk, Remaining, DoneOrInFlight, Alive,
         Best, Readies, Ables;
    queue.registry.RefreshOrdering(afters);
    ghost var view := queue.Here(states, afters);
    ghost var kept := Retained(queue.pending, view.live);
    NoZero(queue.registry);
    RetainedAll(queue.pending, view.live);
    ReadyIsAble(view, kept);
    if scores.None? {
      PlainPick(kept, view.live, states, afters);
      job := queue.PopReady(states, afters);
    } else {
      forall pos: nat | Chosen(kept, view, scores.value, pos) && FirstReady(kept, view) < |kept|
        ensures pos == Pick(kept, view.live, states, afters, scores)
      {
        BestIsUnique(Readies(kept, view), scores.value, pos, Pick(kept, view.live, states, afters, scores));
      }
      job := queue.PopReadyBy(states, afters, scores.value);
    }
    if job.None? && Acyclic(afters) {
      NeverStuck(view.live, kept, states, afters);
    }
  }

  lemma PlainPick(kept: seq<Job>, live: Live, states: States, afters: Afters)
    ensures Pick(kept, live, states, afters, None) == FirstAble(kept, live, states, afters)
  {
  }

  /** What running a job adds to the history. */
  function RunEvents(live: Live, id: nat, immediate: Option<JobResult>): seq<JobEvent> {
    if id !in live then []
    else
      var info := live[id].(state := Running);
      (if live[id].state == Waiting then [StateChanged(info)] else [])
      + (if immediate.Some? then [Removed(info, immediate.value)] else [])
  }

  /** What running a job makes of the live jobs: it runs, or is gone if it has a
      result at once. Internal jobs have no record. */
  function Started(live: Live, id: nat, immediate: Option<JobResult>): Live {
    if id !in live then live
    else if immediate.Some? then live - {id}
    else live[id := live[id].(state := Running)]
  }

  /** The loop's second half. */
  method RunOne(registry: Registry, id: nat, immediate: Option<JobResult>)
    requires registry.Valid()
    modifies registry
    ensures registry.Valid() && registry.nextId == old(registry.nextId)
    ensures registry.live == Started(old(registry.live), id, immediate)
    ensures registry.History() == old(registry.History()) + RunEvents(old(registry.live), id, immediate)
  {
    hide Accounted, EdgesOk, Remaining, Without;
    if id == 0 {
      NoZero(registry);
      return;
    }
    var marked := registry.MarkRunning(id);
    if immediate.Some? {
      var finished := registry.Finish(id, immediate.value);
      assert id in old(registry.live) ==> registry.live == old(registry.live) - {id};
    }
  }

  // ---- a run that settles at once ----

  /** With every live job queued and no unit in transition, an idle queue is an
      empty one. */
  lemma IdleMeansDone(now: Live, pending: seq<Job>, states: States, afters: Afters)
    requires AllQueued(now, pending) && DoneOrInFlight(now, Retained(pending, now), states, afters)
    requires forall u :: u in states ==> Settled(states[u])
    ensures Retained(pending, now) == [] && now.Keys == {}
  {
    hide Retained;
    RetainedAll(pending, now);
    forall id | id in now
      ensures Queued(Retained(pending, now), id)
    {
      assert Queued(pending, id);
      var job :| job in pending && job.id == id;
      assert job in Retained(pending, now);
    }
  }

  method PopSettled(queue: Queue, afters: Afters, states: States, scores: Scores) returns (job: Option<Job>)
    requires queue.registry.Valid() && Acyclic(afters)
    requires forall u :: u in states ==> Settled(states[u])
    requires AllQueued(queue.registry.live, queue.pending)
    modifies queue, queue.registry`before, queue.registry`after, queue.registry`ordered
    ensures queue.registry.Valid()
    ensures job.None? ==> queue.pending == [] && queue.registry.live.Keys == {}
    ensures job.Some? ==>
              && (job.value.id == 0 || Unblocked(queue.registry.live, afters, job.value.id))
              && AllQueued(queue.registry.live - {job.value.id}, queue.pending)
              && |queue.pending| < |old(queue.pending)|
  {
    hide Acyclic, Retained, Pick, JobIsReady, Unblocked, Accounted, EdgesOk, Remaining, DoneOrInFlight, AllQueued;
    job := PopNext(queue, afters, states, scores);
    RetainedAll(old(queue.pending), queue.registry.live);
    if job.None? {
      IdleMeansDone(queue.registry.live, old(queue.pending), states, afters);
    } else {
      QueuedShrinks(queue.registry.live, old(queue.pending),
                    Pick(Retained(old(queue.pending), queue.registry.live), queue.registry.live, states, afters, scores));
    }
  }

  /** What is left is as it was. */
  ghost predicate Left(live: Live, now: Live) {
    forall id :: id in now ==> id in live && now[id] == live[id]
  }

  /** What a run of jobs in this order adds to the history. */
  function OrderEvents(live: Live, order: seq<Job>, results: nat -> JobResult): seq<JobEvent> {
    if order == [] then []
    else
      var n := |order| - 1;
      OrderEvents(live, order[..n], results) + RunEvents(live, order[n].id, Some(results(n)))
  }

  /** Dispatch until nothing is left: with acyclic `After=` and units that settle
      between dispatches, every live job runs exactly once, and never before a
      job that it must follow; the history grows by the events of these jobs in this
      order. */
  method RunToCompletion(queue: Queue, afters: Afters, states: nat -> States, scores: nat -> Scores, results: nat -> JobResult)
    returns (order: seq<Job>)
    requires queue.registry.Valid() && Acyclic(afters)
    requires forall k: nat, u :: u in states(k) ==> Settled(states(k)[u])
    requires AllQueued(queue.registry.live, queue.pending)
    modifies queue, queue.registry
    ensures queue.registry.Valid() && queue.registry.live.Keys == {} && queue.pending == []
    ensures Ordered(order, old(queue.registry.live), afters)
    ensures forall id: nat :: id in old(queue.registry.live) <==> id != 0 && Queued(order, id)
    ensures queue.registry.History() == old(queue.registry.History()) + OrderEvents(old(queue.registry.live), order, results)
  {
    hide Acyclic, Ran, Ordered, Covered, Past, AllQueued, Unblocked, Accounted, EdgesOk, Remaining, OrdersBefore,
         OrderEvents, RunEvents, Left;
    order := [];
    ghost var live := queue.registry.live;
    StartsDispatched(live, afters, results);
    NoZero(queue.registry);
    var job := PopSettled(queue, afters, states(0), scores(0));
    while job.Some?
      invariant queue.registry.Valid() && 0 !in queue.registry.live
      invariant Left(live, queue.registry.live)
      invariant Dispatched(order, live, queue.registry.live, afters)
      invariant queue.registry.History() == old(queue.registry.History()) + OrderEvents(live, order, results)
      invariant job.None? ==> queue.pending == [] && queue.registry.live.Keys == {}
      invariant job.Some? ==>
                  && (job.value.id == 0 || Unblocked(queue.registry.live, afters, job.value.id))
                  && AllQueued(queue.registry.live - {job.value.id}, queue.pending)
      decreases |queue.pending|, job.Some?
    {
      ghost var now := queue.registry.live;
      LeftShrinks(live, now, afters, job.value.id);
      RunExtends(order, live, now, afters, job.value);
      RunOne(queue.registry, job.value.id, Some(results(|order|)));
      EventsExtend(live, now, order, job.value, results);
      order := order + [job.value];
      job := PopSettled(queue, afters, states(|order|), scores(|order|));
    }
    AllRan(order, live, queue.registry.live);
  }

  lemma StartsDispatched(live: Live, afters: Afters, results: nat -> JobResult)
    ensures Left(live, live) && Dispatched([], live, live, afters) && OrderEvents(live, [], results) == []
  {
  }

  lemma LeftShrinks(live: Live, now: Live, afters: Afters, id: nat)
    requires Left(live, now) && 0 !in now && (id == 0 || Unblocked(now, afters, id))
    ensures Shrunk(live, now) && Left(live, now - {id}) && (id == 0 || id in now)
    ensures forall result :: Started(now, id, Some(result)) == now - {id}
  {
    assert id == 0 ==> now - {0} == now;
  }

  lemma EventsExtend(live: Live, now: Live, order: seq<Job>, job: Job, results: nat -> JobResult)
    requires Left(live, now) && 0 !in live && (job.id == 0 || job.id in now)
    ensures OrderEvents(live, order + [job], results) ==
            OrderEvents(live, order, results) + RunEvents(now, job.id, Some(results(|order|)))
  {
    assert (order + [job])[..|order|] == order;
  }

  lemma AllRan(order: seq<Job>, live: Live, now: Live)
    requires Ran(order, live, now) && Covered(order, live, now) && now.Keys == {} && 0 !in live
    ensures forall id: nat :: id in live <==> id != 0 && Queued(order, id)
  {
  }

  function RemovedIds(events: seq<JobEvent>): seq<nat> {
    if events == [] then []
    else
      var e := events[|events| - 1];
      RemovedIds(events[..|events| - 1]) + if e.Removed? then [e.job.id] else []
  }

  /** The identifiers of the jobs that have one. */
  function Identifiers(order: seq<Job>): seq<nat> {
    if order == [] then []
    else
      var job := order[|order| - 1];
      Identifiers(order[..|order| - 1]) + if job.id != 0 then [job.id] else []
  }

  lemma {:induction false} RemovedIdsJoin(a: seq<JobEvent>, b: seq<JobEvent>)
    ensures RemovedIds(a + b) == RemovedIds(a) + RemovedIds(b)
  {
    if b == [] {
      assert a + b == a;
    } else {
      var n := |b| - 1;
      assert (a + b)[..|a + b| - 1] == a + b[..n];
      RemovedIdsJoin(a, b[..n]);
    }
  }

  /** The removals in that history are those of the order, one for each job and in
      the same order. */
  lemma {:induction false} RemovedInOrder(live: Live, order: seq<Job>, results: nat -> JobResult)
    requires forall id :: id in live ==> id != 0 && live[id].id == id
    requires forall job :: job in order && job.id != 0 ==> job.id in live
    ensures RemovedIds(OrderEvents(live, order, results)) == Identifiers(order)
  {
    if order != [] {
      var n := |order| - 1;
      var more := RunEvents(live, order[n].id, Some(results(n)));
      assert order == order[..n] + [order[n]];
      RemovedInOrder(live, order[..n], results);
      RemovedIdsJoin(OrderEvents(live, order[..n], results), more);
      OneRemoved(live, order[n].id, results(n));
    }
  }

  lemma OneRemoved(live: Live, id: nat, result: JobResult)
    requires id in live ==> live[id].id == id
    ensures RemovedIds(RunEvents(live, id, Some(result))) == if id in live then [id] else []
  {
    if id in live {
      var info := live[id].(state := Running);
      var changed := if live[id].state == Waiting then [StateChanged(info)] else [];
      RemovedIdsJoin(changed, [Removed(info, result)]);
      assert changed != [] ==> changed[..0] == [];
    }
  }
}
