/** Whole runs of operations on one registry and the queues that share it
    (src/job.rs): the manager's queue and the one that takes requests. */
module JobRuns {
  import opened Basics
  import opened JobOrdering
  import opened JobRegistry
  import opened JobQueue
  import opened JobDispatch

  datatype Operation =
    | Enqueue(queue: nat, kind: JobKind, unit: string, owner: Option<string>)
    | EnqueueInternal(queue: nat, kind: JobKind, unit: string)
    | PushExisting(queue: nat, job: Job)
    | PopFront(queue: nat)
    | PopReady(queue: nat, states: States, afters: Afters)
    | PopReadyBy(queue: nat, states: States, afters: Afters, score: nat -> Score)
    | Cancel(queue: nat, id: nat)
    | Refresh(afters: Afters)
    | MarkRunning(id: nat)
    | Finish(id: nat, result: JobResult)
    | Drain

  // ---- the effect of one operation ----

  /** All of the registry and the contents of the queues at one moment. */
  datatype System = System(
    nextId: nat, nFailed: nat, live: Live, owners: map<nat, set<string>>, before: Edges, after: Edges,
    ordered: Edges, drained: seq<JobEvent>, history: seq<JobEvent>, pending: map<Queue, seq<Job>>)

  ghost function SystemOf(registry: Registry, queues: seq<Queue>): System
    reads registry, queues
  {
    System(registry.nextId, registry.nFailed, registry.live, registry.owners, registry.before, registry.after,
           registry.ordered, registry.drained, registry.History(), map q | q in queues :: q.pending)
  }

  /** The registry's invariant at that moment. */
  ghost predicate Consistent(s: System) {
    && 1 <= s.nextId && Accounted(s.history, s.live, s.nextId, s.nextId - 1, s.nFailed)
    && EdgesOk(s.before, s.after, s.live)
    && Remaining(s.before, s.ordered, s.live, s.nextId)
    && s.owners.Keys <= s.live.Keys
  }

  function Pending(s: System, q: Queue): seq<Job> {
    if q in s.pending then s.pending[q] else []
  }

  function Put(s: System, q: Queue, jobs: seq<Job>): System {
    s.(pending := s.pending[q := jobs])
  }

  function Enqueued(s: System, q: Queue, kind: JobKind, unit: string, owner: Option<string>): System {
    if s.nextId == U32_MAX then s
    else
      var info := JobInfo(s.nextId, kind, unit, Waiting);
      s.(nextId := s.nextId + 1, live := s.live[s.nextId := info], history := s.history + [New(info)],
         owners := if owner.Some? && owner.value != "" then Insert(s.owners, s.nextId, owner.value) else s.owners,
         pending := s.pending[q := Pending(s, q) + [Job(s.nextId, kind, unit)]])
  }

  function Marked(s: System, id: nat): System {
    if id !in s.live then s
    else
      var info := s.live[id].(state := Running);
      s.(live := s.live[id := info],
         history := s.history + if s.live[id].state == Waiting then [StateChanged(info)] else [])
  }

  function Ended(s: System, id: nat, result: JobResult): System {
    if id !in s.live then s
    else
      s.(live := s.live - {id}, owners := s.owners - {id}, before := Without(s.before, id), after := Without(s.after, id),
         nFailed := if IncrementsFailedCounter(result) then SaturatingAdd(s.nFailed, 1) else s.nFailed,
         history := s.history + [Removed(s.live[id], result)])
  }

  ghost predicate Front(s: System, q: Queue, job: Option<Job>, s': System) {
    var kept := FromAlive(Pending(s, q), s.live);
    if kept == [] then job == None && s' == Put(s, q, []) else job == Some(kept[0]) && s' == Put(s, q, kept[1..])
  }

  ghost predicate First(s: System, q: Queue, states: States, afters: Afters, job: Option<Job>, s': System) {
    var kept := Retained(Pending(s, q), s.live);
    var pos := FirstReady(kept, View(s.live, s.before, states, afters));
    if pos == |kept| then job == None && s' == Put(s, q, kept) else job == Some(kept[pos]) && s' == Put(s, q, Remove(kept, pos))
  }

  ghost predicate Best(s: System, q: Queue, states: States, afters: Afters, score: nat -> Score, job: Option<Job>, s': System) {
    var kept := Retained(Pending(s, q), s.live);
    var view := View(s.live, s.before, states, afters);
    if FirstReady(kept, view) == |kept| then job == None && s' == Put(s, q, kept)
    else exists pos: nat :: Chosen(kept, view, score, pos) && job == Some(kept[pos]) && s' == Put(s, q, Remove(kept, pos))
  }

  ghost predicate Reordered(s: System, afters: Afters, s': System) {
    && s' == s.(before := s'.before, after := s'.after, ordered := s'.before)
    && Refreshed(s.live, s'.before, afters) && EdgesOk(s'.before, s'.after, s.live)
  }

  /** What an operation does to the whole system, and the job that comes out of it.
      A queue that does not exist does nothing. */
  ghost predicate Step(s: System, queues: seq<Queue>, op: Operation, job: Option<Job>, s': System) {
    match op
    case Enqueue(i, kind, unit, owner) =>
      job == None && s' == if i < |queues| then Enqueued(s, queues[i], kind, unit, owner) else s
    case EnqueueInternal(i, kind, unit) =>
      job == None && s' == if i < |queues| then Put(s, queues[i], Pending(s, queues[i]) + [Job(0, kind, unit)]) else s
    case PushExisting(i, existing) =>
      job == None && s' == if i < |queues| && Alive(s.live, existing)
                           then Put(s, queues[i], Pending(s, queues[i]) + [existing]) else s
    case PopFront(i) =>
      if i < |queues| then Front(s, queues[i], job, s') else job == None && s' == s
    case PopReady(i, states, afters) =>
      if i < |queues| then First(s, queues[i], states, afters, job, s') else job == None && s' == s
    case PopReadyBy(i, states, afters, score) =>
      if i < |queues| then Best(s, queues[i], states, afters, score, job, s') else job == None && s' == s
    case Cancel(i, id) =>
      job == None && s' == if i < |queues| && id != 0
                           then Ended(Put(s, queues[i], Dropping(Pending(s, queues[i]), id)), id, Canceled) else s
    case Refresh(afters) => job == None && Reordered(s, afters, s')
    case MarkRunning(id) => job == None && s' == Marked(s, id)
    case Finish(id, result) => job == None && s' == Ended(s, id, result)
    case Drain => job == None && s' == s.(drained := s.history)
  }

  method AddJob(registry: Registry, queues: seq<Queue>, i: nat, kind: JobKind, unit: string, owner: Option<string>)
    requires registry.Valid() && i < |queues| && queues[i].registry == registry
    modifies registry, queues
    ensures registry.Valid()
    ensures SystemOf(registry, queues) == Enqueued(old(SystemOf(registry, queues)), queues[i], kind, unit, owner)
  {
    hide Accounted, EdgesOk, Remaining, Insert;
    ghost var s := SystemOf(registry, queues);
    assert Pending(s, queues[i]) == queues[i].pending;
    var unused := queues[i].EnqueueOwned(kind, unit, owner);
    assert SystemOf(registry, queues).pending == s.pending[queues[i] := queues[i].pending];
    assert s.pending[queues[i] := Pending(s, queues[i])] == s.pending;
  }

  method DropJob(registry: Registry, queues: seq<Queue>, i: nat, id: nat)
    requires registry.Valid() && i < |queues| && queues[i].registry == registry
    modifies registry, queues
    ensures registry.Valid()
    ensures
      var s := old(SystemOf(registry, queues));
      SystemOf(registry, queues) ==
        if id != 0 then Ended(Put(s, queues[i], Dropping(Pending(s, queues[i]), id)), id, Canceled) else s
  {
    hide Accounted, EdgesOk, Remaining, Without, Dropping;
    if id == 0 {
      return;
    }
    ghost var s := SystemOf(registry, queues);
    assert Pending(s, queues[i]) == queues[i].pending;
    assert id !in registry.live ==> registry.owners - {id} == registry.owners && registry.live - {id} == registry.live;
    var unused := queues[i].Cancel(id);
    assert SystemOf(registry, queues).pending == s.pending[queues[i] := queues[i].pending];
  }

  method EndJob(registry: Registry, queues: seq<Queue>, id: nat, result: JobResult)
    requires registry.Valid()
    modifies registry
    ensures registry.Valid()
    ensures SystemOf(registry, queues) == Ended(old(SystemOf(registry, queues)), id, result)
  {
    hide Accounted, EdgesOk, Remaining, Without;
    assert id !in registry.live ==> registry.owners - {id} == registry.owners && registry.live - {id} == registry.live;
    var unused := registry.Finish(id, result);
  }

  method Reorder(registry: Registry, queues: seq<Queue>, afters: Afters)
    requires registry.Valid()
    modifies registry
    ensures registry.Valid()
    ensures Reordered(old(SystemOf(registry, queues)), afters, SystemOf(registry, queues))
  {
    hide Accounted, EdgesOk, Remaining, OrdersBefore;
    registry.RefreshOrdering(afters);
  }

  method Request(registry: Registry, queues: seq<Queue>, op: Operation)
    requires registry.Valid() && forall i :: 0 <= i < |queues| ==> queues[i].registry == registry
    requires op.Enqueue? || op.EnqueueInternal? || op.PushExisting? || op.Cancel?
    modifies registry, queues
    ensures registry.Valid()
    ensures Step(old(SystemOf(registry, queues)), queues, op, None, SystemOf(registry, queues))
  {
    hide Accounted, EdgesOk, Remaining, Alive, Enqueued, Ended;
    var i := op.queue;
    if i >= |queues| {
      return;
    }
    ghost var s := SystemOf(registry, queues);
    assert Pending(s, queues[i]) == queues[i].pending;
    if op.Enqueue? {
      AddJob(registry, queues, i, op.kind, op.unit, op.owner);
      return;
    } else if op.EnqueueInternal? {
      queues[i].EnqueueInternal(op.kind, op.unit);
    } else if op.PushExisting? {
      queues[i].PushExisting(op.job);
    } else {
      DropJob(registry, queues, i, op.id);
      return;
    }
    assert SystemOf(registry, queues).pending == s.pending[queues[i] := queues[i].pending];
  }

  method Pop(registry: Registry, queues: seq<Queue>, op: Operation) returns (job: Option<Job>)
    requires registry.Valid() && forall i :: 0 <= i < |queues| ==> queues[i].registry == registry
    requires op.PopFront? || op.PopReady? || op.PopReadyBy?
    modifies queues
    ensures registry.Valid()
    ensures Step(old(SystemOf(registry, queues)), queues, op, job, SystemOf(registry, queues))
  {
    hide Accounted, EdgesOk, Remaining, Retained, Ready, FirstReady, FromAlive, Chosen;
    job := None;
    var i := op.queue;
    if i >= |queues| {
      return;
    }
    ghost var s := SystemOf(registry, queues);
    assert Pending(s, queues[i]) == queues[i].pending;
    if op.PopFront? {
      job := queues[i].PopFront();
    } else if op.PopReady? {
      job := queues[i].PopReady(op.states, op.afters);
    } else {
      job := queues[i].PopReadyBy(op.states, op.afters, op.score);
    }
    assert SystemOf(registry, queues).pending == s.pending[queues[i] := queues[i].pending];
  }

  method Update(registry: Registry, queues: seq<Queue>, op: Operation)
    requires registry.Valid() && forall i :: 0 <= i < |queues| ==> queues[i].registry == registry
    requires op.Refresh? || op.MarkRunning? || op.Finish? || op.Drain?
    modifies registry
    ensures registry.Valid()
    ensures Step(old(SystemOf(registry, queues)), queues, op, None, SystemOf(registry, queues))
  {
    hide Accounted, EdgesOk, Remaining, Ended, Reordered;
    if op.Refresh? {
      Reorder(registry, queues, op.afters);
    } else if op.MarkRunning? {
      var unused := registry.MarkRunning(op.id);
    } else if op.Finish? {
      EndJob(registry, queues, op.id, op.result);
    } else {
      var unused := registry.DrainEvents();
    }
  }

  /** One operation does to registry and queues exactly what `Step` says. */
  method Perform(registry: Registry, queues: seq<Queue>, op: Operation) returns (job: Option<Job>)
    requires registry.Valid() && forall i :: 0 <= i < |queues| ==> queues[i].registry == registry
    modifies registry, queues
    ensures registry.Valid()
    ensures Step(old(SystemOf(registry, queues)), queues, op, job, SystemOf(registry, queues))
  {
    hide Accounted, EdgesOk, Remaining, Step;
    job := None;
    match op {
      case Enqueue(_, _, _, _) => Request(registry, queues, op);
      case EnqueueInternal(_, _, _) => Request(registry, queues, op);
      case PushExisting(_, _) => Request(registry, queues, op);
      case Cancel(_, _) => Request(registry, queues, op);
      case PopFront(_) => job := Pop(registry, queues, op);
      case PopReady(_, _, _) => job := Pop(registry, queues, op);
      case PopReadyBy(_, _, _, _) => job := Pop(registry, queues, op);
      case Refresh(_) => Update(registry, queues, op);
      case MarkRunning(_) => Update(registry, queues, op);
      case Finish(_, _) => Update(registry, queues, op);
      case Drain => Update(registry, queues, op);
    }
  }

  // ---- what a step keeps ----

  /** Identifiers are never handed out twice and never come back to life, and the
      history only grows. */
  ghost predicate Later(s: System, s': System) {
    && s.nextId <= s'.nextId && s.history <= s'.history
    && forall id :: id in s'.live ==> id in s.live || s.nextId <= id
  }

  /** The operation finishes or cancels the job. */
  predicate Ends(op: Operation, queues: nat, id: nat) {
    (op.Finish? && op.id == id) || (op.Cancel? && op.id == id && op.queue < queues)
  }

  /** The job has been announced and nothing has removed it. */
  ghost predicate Lives(history: seq<JobEvent>, id: nat) {
    && (exists i :: 0 <= i < |history| && history[i].job.id == id && history[i].New?)
    && (forall i :: 0 <= i < |history| && history[i].job.id == id ==> !history[i].Removed?)
  }

  /** All jobs that had to precede `id` at the last refresh have been removed. */
  ghost predicate Unhindered(ordered: Edges, history: seq<JobEvent>, id: nat) {
    forall x: nat :: Has(ordered, id, x) ==> GoneEvents(About(history, x))
  }

  /** A job that comes out is not finished or canceled, whenever that might have
      happened before, and a ready one has all its predecessors removed. */
  ghost predicate PopOk(s: System, op: Operation, job: Option<Job>) {
    job.Some? && job.value.id != 0 ==>
      && job.value.id in s.live && Lives(s.history, job.value.id)
      && (op.PopReady? || op.PopReadyBy? ==> Unhindered(s.ordered, s.history, job.value.id))
  }

  lemma {:induction false} AboutExact(events: seq<JobEvent>, id: nat, e: JobEvent)
    ensures e in About(events, id) <==> e in events && e.job.id == id
  {
    if events != [] {
      var front, last := events[..|events| - 1], events[|events| - 1];
      AboutExact(front, id, e);
      assert events == front + [last];
    }
  }

  /** What is live lives in the history. */
  lemma LiveLives(s: System, id: nat)
    requires Consistent(s) && id in s.live
    ensures Lives(s.history, id)
  {
    hide EdgesOk, Remaining, Removals, Failures;
    var job := s.live[id];
    assert About(s.history, id) == LiveEvents(job);
    hide About, Logged;
    var new_ := New(job.(state := Waiting));
    assert LiveEvents(job)[0] == new_;
    AboutExact(s.history, id, new_);
    forall i | 0 <= i < |s.history| && s.history[i].job.id == id
      ensures !s.history[i].Removed?
    {
      AboutExact(s.history, id, s.history[i]);
    }
  }

  lemma AliveIsPopOk(s: System, op: Operation, job: Job)
    requires Consistent(s) && Alive(s.live, job)
    requires job.id != 0 && (op.PopReady? || op.PopReadyBy?) ==> Ready(View(s.live, s.before, op.states, op.afters), job)
    ensures PopOk(s, op, Some(job))
  {
    hide Lives, Ready, GoneEvents, About;
    if job.id != 0 {
      LiveLives(s, job.id);
      hide Consistent, EdgesOk;
      if op.PopReady? || op.PopReadyBy? {
        forall x: nat | Has(s.ordered, job.id, x)
          ensures GoneEvents(About(s.history, x))
        {
          PoppedComesLast(s.history, s.nextId, s.ordered, View(s.live, s.before, op.states, op.afters), job, x);
        }
      }
    }
  }

  lemma PopsAreOk(s: System, queues: seq<Queue>, op: Operation, job: Option<Job>, s': System)
    requires Consistent(s) && Step(s, queues, op, job, s')
    ensures PopOk(s, op, job)
  {
    hide Consistent, PopOk, Retained, Ready, FirstReady, FromAlive, Alive;
    if job.None? {
      NothingPopped(s, op);
    } else {
      var pending := Pending(s, queues[op.queue]);
      RetainedAll(pending, s.live);
      FromAliveKeeps(pending, s.live);
      AliveIsPopOk(s, op, job.value);
    }
  }

  lemma NothingPopped(s: System, op: Operation)
    ensures PopOk(s, op, None)
  {
  }

  lemma StepIsLater(s: System, queues: seq<Queue>, op: Operation, job: Option<Job>, s': System)
    requires Step(s, queues, op, job, s')
    ensures Later(s, s')
  {
    hide Front, First, Best, Reordered, Dropping, Alive, Later, Enqueued, Marked, Ended;
    match op {
      case Enqueue(i, kind, unit, owner) =>
        if i < |queues| {
          EnqueuedLater(s, queues[i], kind, unit, owner);
        } else {
          SameIsLater(s, s');
        }
      case Cancel(i, id) =>
        SameIsLater(s, s);
        if i < |queues| && id != 0 {
          EndedLater(Put(s, queues[i], Dropping(Pending(s, queues[i]), id)), id, Canceled);
          PutLater(s, queues[i], Dropping(Pending(s, queues[i]), id), s');
        }
      case MarkRunning(id) => MarkedLater(s, id);
      case Finish(id, result) => EndedLater(s, id, result);
      case PopFront(_) => PopsOnlyQueue(s, queues, op, job, s');
      case PopReady(_, _, _) => PopsOnlyQueue(s, queues, op, job, s');
      case PopReadyBy(_, _, _, _) => PopsOnlyQueue(s, queues, op, job, s');
      case Refresh(afters) => ReorderedLater(s, afters, s');
      case _ => SameIsLater(s, s');
    }
  }

  /** A pop changes only its queue. */
  lemma PopsOnlyQueue(s: System, queues: seq<Queue>, op: Operation, job: Option<Job>, s': System)
    requires Step(s, queues, op, job, s') && (op.PopFront? || op.PopReady? || op.PopReadyBy?)
    ensures s' == s.(pending := s'.pending) && Later(s, s')
  {
    hide Retained, FirstReady, FromAlive, Chosen, Later;
    assert s' == s.(pending := s'.pending);
    SameIsLater(s, s');
  }

  lemma ReorderedLater(s: System, afters: Afters, s': System)
    requires Reordered(s, afters, s')
    ensures Later(s, s') && s'.live == s.live
  {
    hide Refreshed, EdgesOk;
  }

  lemma SameIsLater(s: System, s': System)
    requires s'.nextId == s.nextId && s'.history == s.history && s'.live == s.live
    ensures Later(s, s')
  {
  }

  lemma PutLater(s: System, q: Queue, jobs: seq<Job>, s': System)
    requires Later(Put(s, q, jobs), s')
    ensures Later(s, s')
  {
  }

  lemma EnqueuedLater(s: System, q: Queue, kind: JobKind, unit: string, owner: Option<string>)
    ensures Later(s, Enqueued(s, q, kind, unit, owner))
  {
    hide Insert;
  }

  lemma MarkedLater(s: System, id: nat)
    ensures Later(s, Marked(s, id))
  {
  }

  lemma EndedLater(s: System, id: nat, result: JobResult)
    ensures Later(s, Ended(s, id, result))
  {
    hide Without;
  }

  /** Exactly finishing and canceling end a job, and they say so in the history. */
  lemma EndedIff(s: System, queues: seq<Queue>, op: Operation, job: Option<Job>, s': System, id: nat)
    requires Consistent(s) && Step(s, queues, op, job, s') && id in s.live
    ensures id !in s'.live <==> Ends(op, |queues|, id)
    ensures Ends(op, |queues|, id) ==>
              s'.history == s.history + [Removed(s.live[id], if op.Finish? then op.result else Canceled)]
  {
    LiveIds(s, id);
    hide Consistent, Front, First, Best, Dropping, Alive, Reordered, Pending, Enqueued, Marked, Ended;
    match op {
      case Enqueue(i, kind, unit, owner) =>
        if i < |queues| {
          EnqueuedKeeps(s, queues[i], kind, unit, owner, id);
        }
      case Cancel(i, k) =>
        if i < |queues| && k != 0 {
          EndedKeeps(Put(s, queues[i], Dropping(Pending(s, queues[i]), k)), k, Canceled, id);
        }
      case MarkRunning(k) => MarkedKeeps(s, k, id);
      case Finish(k, result) => EndedKeeps(s, k, result, id);
      case Refresh(afters) => ReorderedLater(s, afters, s');
      case PopFront(_) => PopsOnlyQueue(s, queues, op, job, s');
      case PopReady(_, _, _) => PopsOnlyQueue(s, queues, op, job, s');
      case PopReadyBy(_, _, _, _) => PopsOnlyQueue(s, queues, op, job, s');
      case _ => assert s'.live == s.live;
    }
  }

  lemma EnqueuedKeeps(s: System, q: Queue, kind: JobKind, unit: string, owner: Option<string>, id: nat)
    requires id in s.live
    ensures id in Enqueued(s, q, kind, unit, owner).live
  {
    hide Insert;
  }

  lemma MarkedKeeps(s: System, k: nat, id: nat)
    requires id in s.live
    ensures id in Marked(s, k).live
  {
  }

  lemma EndedKeeps(s: System, k: nat, result: JobResult, id: nat)
    requires id in s.live
    ensures id !in Ended(s, k, result).live <==> k == id
    ensures k == id ==> Ended(s, k, result).history == s.history + [Removed(s.live[id], result)]
  {
    hide Without;
  }

  lemma LiveIds(s: System, id: nat)
    requires Consistent(s) && id in s.live
    ensures 0 < id < s.nextId
  {
  }

  // ---- runs ----

  /** Every operation of the run is a step from one state to the next. */
  ghost predicate Run(queues: seq<Queue>, states: seq<System>, ops: seq<Operation>, jobs: seq<Option<Job>>) {
    && |states| == |ops| + 1 && |jobs| == |ops|
    && (forall i :: 0 <= i < |states| ==> Consistent(states[i]))
    && (forall i :: 0 <= i < |ops| ==> Step(states[i], queues, ops[i], jobs[i], states[i + 1]))
  }

  lemma {:induction false} RunIsLater(queues: seq<Queue>, states: seq<System>, ops: seq<Operation>, jobs: seq<Option<Job>>, i: nat, j: nat)
    requires Run(queues, states, ops, jobs) && i <= j <= |ops|
    ensures Later(states[i], states[j])
    decreases j
  {
    hide Step, Consistent;
    if i < j {
      RunIsLater(queues, states, ops, jobs, i, j - 1);
      assert Step(states[j - 1], queues, ops[j - 1], jobs[j - 1], states[j - 1 + 1]);
      StepIsLater(states[j - 1], queues, ops[j - 1], jobs[j - 1], states[j]);
    }
  }

  /** Over any run: what comes out of a queue is live at that moment, and a ready
      job has all its predecessors removed. */
  lemma RunPopsAreOk(queues: seq<Queue>, states: seq<System>, ops: seq<Operation>, jobs: seq<Option<Job>>, i: nat)
    requires Run(queues, states, ops, jobs) && i < |ops|
    ensures PopOk(states[i], ops[i], jobs[i])
  {
    hide Step, Consistent, PopOk;
    PopsAreOk(states[i], queues, ops[i], jobs[i], states[i + 1]);
  }

  /** A job that the i-th operation finishes or cancels is removed in the history
      from then on, is never live again, and never comes out of any queue again. */
  lemma NeverAgain(queues: seq<Queue>, states: seq<System>, ops: seq<Operation>, jobs: seq<Option<Job>>, i: nat, j: nat, id: nat)
    requires Run(queues, states, ops, jobs) && i < j < |ops|
    requires id in states[i].live && Ends(ops[i], |queues|, id)
    ensures id !in states[j].live && (jobs[j].Some? ==> jobs[j].value.id != id)
    ensures exists k, result :: |states[i].history| <= k < |states[j].history| && states[j].history[k] == Removed(states[i].live[id], result)
  {
    hide Step, Lives, Unhindered, EdgesOk, Remaining, Logged;
    var k := |states[i].history|;
    EndedIff(states[i], queues, ops[i], jobs[i], states[i + 1], id);
    assert Consistent(states[i]);
    LiveIds(states[i], id);
    assert states[i + 1].history[k].Removed?;
    hide Consistent, Ends;
    StepIsLater(states[i], queues, ops[i], jobs[i], states[i + 1]);
    RunIsLater(queues, states, ops, jobs, i + 1, j);
    RunPopsAreOk(queues, states, ops, jobs, j);
    assert states[j].history[k] == states[i + 1].history[k];
  }

  /** Any run, from any reachable state, on any queues that share the registry. */
  method PerformAll(registry: Registry, queues: seq<Queue>, ops: seq<Operation>)
    returns (jobs: seq<Option<Job>>, ghost states: seq<System>)
    requires registry.Valid() && forall i :: 0 <= i < |queues| ==> queues[i].registry == registry
    modifies registry, queues
    ensures registry.Valid()
    ensures Run(queues, states, ops, jobs)
    ensures states[0] == old(SystemOf(registry, queues)) && states[|ops|] == SystemOf(registry, queues)
    ensures forall i :: 0 <= i < |ops| ==> PopOk(states[i], ops[i], jobs[i])
    ensures forall i, j, id: nat ::
              0 <= i < j < |ops| && id in states[i].live && Ends(ops[i], |queues|, id) && jobs[j].Some? ==>
                jobs[j].value.id != id
  {
    hide Accounted, EdgesOk, Remaining, Step, PopOk, Ends;
    jobs, states := [], [SystemOf(registry, queues)];
    registry.CountsAre();
    var i := 0;
    while i < |ops|
      invariant i <= |ops| && registry.Valid()
      invariant Run(queues, states, ops[..i], jobs)
      invariant states[0] == old(SystemOf(registry, queues)) && states[i] == SystemOf(registry, queues)
    {
      var job := Perform(registry, queues, ops[i]);
      registry.CountsAre();
      RunExtended(queues, states, ops, jobs, i, job, SystemOf(registry, queues));
      jobs, states := jobs + [job], states + [SystemOf(registry, queues)];
      i := i + 1;
    }
    assert ops[..i] == ops;
    RunIsSafe(queues, states, ops, jobs);
  }

  lemma RunExtended(queues: seq<Queue>, states: seq<System>, ops: seq<Operation>, jobs: seq<Option<Job>>, i: nat, job: Option<Job>, s': System)
    requires i < |ops| && Run(queues, states, ops[..i], jobs)
    requires Consistent(s') && Step(states[i], queues, ops[i], job, s')
    ensures Run(queues, states + [s'], ops[..i + 1], jobs + [job])
  {
    hide Step, Consistent;
  }

  lemma RunIsSafe(queues: seq<Queue>, states: seq<System>, ops: seq<Operation>, jobs: seq<Option<Job>>)
    requires Run(queues, states, ops, jobs)
    ensures forall i :: 0 <= i < |ops| ==> PopOk(states[i], ops[i], jobs[i])
    ensures forall i, j, id: nat ::
              0 <= i < j < |ops| && id in states[i].live && Ends(ops[i], |queues|, id) && jobs[j].Some? ==>
                jobs[j].value.id != id
  {
    hide Run, PopOk, Ends;
    assert |states| == |ops| + 1 && |jobs| == |ops| by {
      RunLengths(queues, states, ops, jobs);
    }
    forall i | 0 <= i < |ops|
      ensures PopOk(states[i], ops[i], jobs[i])
    {
      RunPopsAreOk(queues, states, ops, jobs, i);
    }
    forall i, j, id: nat | 0 <= i < j < |ops| && id in states[i].live && Ends(ops[i], |queues|, id)
      ensures jobs[j].Some? ==> jobs[j].value.id != id
    {
      NeverAgain(queues, states, ops, jobs, i, j, id);
    }
  }

  lemma RunLengths(queues: seq<Queue>, states: seq<System>, ops: seq<Operation>, jobs: seq<Option<Job>>)
    requires Run(queues, states, ops, jobs)
    ensures |states| == |ops| + 1 && |jobs| == |ops|
  {
  }
}
