/** Turns of the manager's loop as it runs (src/manager.rs): requests, cancellations
    and results come in whenever they do, and each turn dispatches at most one job. */
module JobTurns {
  import opened Basics
  import opened JobOrdering
  import opened JobRegistry
  import opened JobQueue
  import opened JobDispatch

  /** What happens between dispatches: a job is requested, in the queue that takes
      requests or in the manager's own; an internal step is queued; a job is
      canceled, or finishes. */
  datatype Event =
    | Requested(kind: JobKind, unit: string, owner: Option<string>, shared: bool)
    | Internal(kind: JobKind, unit: string, shared: bool)
    | Cancelled(id: nat)
    | Finished(id: nat, result: JobResult)

  /** What the outside brings to one turn: events before and after the requests are
      taken over, the units' `After=` and states, the scores, and the result of the
      dispatched job if it has one at once. */
  datatype Turn = Turn(
    early: seq<Event>, late: seq<Event>, afters: Afters, states: States, scores: Scores, immediate: Option<JobResult>)

  /** The live jobs, the two queues and the history at one moment. */
  datatype Board = Board(nextId: nat, live: Live, main: seq<Job>, shared: seq<Job>, history: seq<JobEvent>)

  ghost function BoardOf(main: Queue, shared: Queue): Board
    reads main, shared, main.registry
  {
    Board(main.registry.nextId, main.registry.live, main.pending, shared.pending, main.registry.History())
  }

  /** The two queues share a registry that is in order. */
  ghost predicate Paired(main: Queue, shared: Queue)
    reads main.registry
  {
    main != shared && main.registry == shared.registry && main.registry.Valid()
  }

  // ---- events ----

  function Announced(b: Board, kind: JobKind, unit: string): Board {
    var info := JobInfo(b.nextId, kind, unit, Waiting);
    b.(nextId := b.nextId + 1, live := b.live[b.nextId := info], history := b.history + [New(info)])
  }

  function Push(b: Board, shared: bool, job: Job): Board {
    if shared then b.(shared := b.shared + [job]) else b.(main := b.main + [job])
  }

  function Removal(b: Board, id: nat, result: JobResult): Board {
    if id in b.live then b.(live := b.live - {id}, history := b.history + [Removed(b.live[id], result)]) else b
  }

  function Happen(b: Board, e: Event): Board {
    match e
    case Requested(kind, unit, _, shared) =>
      if b.nextId == U32_MAX then b else Push(Announced(b, kind, unit), shared, Job(b.nextId, kind, unit))
    case Internal(kind, unit, shared) => Push(b, shared, Job(0, kind, unit))
    case Cancelled(id) => if id == 0 then b else Removal(b.(shared := Dropping(b.shared, id)), id, Canceled)
    case Finished(id, result) => Removal(b, id, result)
  }

  function HappenAll(b: Board, es: seq<Event>): Board {
    if es == [] then b else Happen(HappenAll(b, es[..|es| - 1]), es[|es| - 1])
  }

  /** The living requests move to the manager's queue. */
  function Drained(b: Board): Board {
    b.(main := b.main + Retained(b.shared, b.live), shared := [])
  }

  method Occur(main: Queue, shared: Queue, e: Event)
    requires Paired(main, shared)
    modifies main, shared, main.registry
    ensures Paired(main, shared) && BoardOf(main, shared) == Happen(old(BoardOf(main, shared)), e)
  {
    hide Accounted, EdgesOk, Remaining, Without, Dropping, Insert;
    NoZero(main.registry);
    match e {
      case Requested(kind, unit, owner, toShared) =>
        if toShared {
          var unused := shared.EnqueueOwned(kind, unit, owner);
        } else {
          var unused := main.EnqueueOwned(kind, unit, owner);
        }
      case Internal(kind, unit, toShared) =>
        if toShared {
          shared.EnqueueInternal(kind, unit);
        } else {
          main.EnqueueInternal(kind, unit);
        }
      case Cancelled(id) =>
        var unused := shared.Cancel(id);
        assert id !in old(main.registry.live) ==> main.registry.live == old(main.registry.live);
      case Finished(id, result) =>
        var unused := main.registry.Finish(id, result);
        assert id !in old(main.registry.live) ==> main.registry.live == old(main.registry.live);
    }
  }

  method OccurAll(main: Queue, shared: Queue, es: seq<Event>)
    requires Paired(main, shared)
    modifies main, shared, main.registry
    ensures Paired(main, shared) && BoardOf(main, shared) == HappenAll(old(BoardOf(main, shared)), es)
  {
    hide Accounted, EdgesOk, Remaining, Happen, HappenAll;
    var i := 0;
    NothingHappens(BoardOf(main, shared), es);
    while i < |es|
      invariant i <= |es| && Paired(main, shared)
      invariant BoardOf(main, shared) == HappenAll(old(BoardOf(main, shared)), es[..i])
    {
      OneMoreEvent(old(BoardOf(main, shared)), es, i);
      Occur(main, shared, es[i]);
      i := i + 1;
    }
    assert es[..i] == es;
  }

  lemma NothingHappens(b: Board, es: seq<Event>)
    ensures HappenAll(b, es[..0]) == b
  {
  }

  lemma OneMoreEvent(b: Board, es: seq<Event>, i: nat)
    requires i < |es|
    ensures HappenAll(b, es[..i + 1]) == Happen(HappenAll(b, es[..i]), es[i])
  {
    hide Happen;
    assert es[..i + 1][..i] == es[..i];
  }

  /** The loop that takes the requests over. */
  method TakeOver(main: Queue, shared: Queue)
    requires Paired(main, shared)
    modifies main, shared
    ensures Paired(main, shared) && BoardOf(main, shared) == Drained(old(BoardOf(main, shared)))
  {
    hide Accounted, EdgesOk, Remaining, Retained, FromAlive;
    ghost var live := main.registry.live;
    ghost var start := shared.pending;
    while true
      invariant Paired(main, shared)
      invariant main.registry.live == live
      invariant main.pending + Retained(shared.pending, live) == old(main.pending) + Retained(start, live)
      decreases |shared.pending|
    {
      ghost var rest := shared.pending;
      FromAliveKeeps(rest, live);
      FromAliveShorter(rest, live);
      var job := shared.PopFront();
      if job.None? {
        NoneRetained(live);
        break;
      }
      ghost var mine := main.pending;
      main.PushExisting(job.value);
      assert mine + Retained(rest, live) == mine + [job.value] + Retained(shared.pending, live);
    }
  }

  lemma {:induction false} FromAliveShorter(pending: seq<Job>, live: Live)
    ensures |FromAlive(pending, live)| <= |pending|
  {
    if pending != [] && !Alive(live, pending[0]) {
      FromAliveShorter(pending[1..], live);
    }
  }

  lemma NoneRetained(live: Live)
    ensures Retained([], live) == []
  {
  }

  // ---- one turn ----

  /** The board when the job is chosen, the job, and the board afterwards. */
  datatype Taken = Taken(before: Board, job: Option<Job>, after: Board)

  function Prepared(b: Board, turn: Turn): Board {
    HappenAll(Drained(HappenAll(b, turn.early)), turn.late)
  }

  ghost function Dispatch(now: Board, turn: Turn): Taken {
    var kept := Retained(now.main, now.live);
    var pos := Pick(kept, now.live, turn.states, turn.afters, turn.scores);
    if pos == |kept| then Taken(now, None, now.(main := kept))
    else
      var id := kept[pos].id;
      Taken(now, Some(kept[pos]),
            now.(main := Remove(kept, pos), live := Started(now.live, id, turn.immediate),
                 history := now.history + RunEvents(now.live, id, turn.immediate)))
  }

  ghost function TurnOf(b: Board, turn: Turn): Taken {
    Dispatch(Prepared(b, turn), turn)
  }

  /** Take in what happened, take over the requests, pop the picked job, start it. */
  method TakeTurn(main: Queue, shared: Queue, turn: Turn) returns (job: Option<Job>, ghost taken: Taken)
    requires Paired(main, shared)
    modifies main, shared, main.registry
    ensures Paired(main, shared)
    ensures taken == TurnOf(old(BoardOf(main, shared)), turn)
    ensures job == taken.job && BoardOf(main, shared) == taken.after
  {
    hide Retained, Pick, Accounted, EdgesOk, Remaining, DoneOrInFlight, Acyclic, Started, RunEvents, HappenAll, Drained;
    OccurAll(main, shared, turn.early);
    TakeOver(main, shared);
    OccurAll(main, shared, turn.late);
    ghost var now := BoardOf(main, shared);
    assert now == Prepared(old(BoardOf(main, shared)), turn);
    job := PopNext(main, turn.afters, turn.states, turn.scores);
    if job.Some? {
      RunOne(main.registry, job.value.id, turn.immediate);
    }
    taken := Taken(now, job, BoardOf(main, shared));
  }

  // ---- each identifier in at most one place ----

  /** No identifier is queued twice. */
  ghost predicate QueuedOnce(pending: seq<Job>) {
    forall i, j :: 0 <= i < j < |pending| && pending[i].id != 0 ==> pending[i].id != pending[j].id
  }

  lemma ConsOnce(head: Job, tail: seq<Job>)
    requires QueuedOnce(tail) && (head.id != 0 ==> !Queued(tail, head.id))
    ensures QueuedOnce([head] + tail)
  {
    var all := [head] + tail;
    forall i, j | 0 <= i < j < |all| && all[i].id != 0
      ensures all[i].id != all[j].id
    {
      assert all[j] == tail[j - 1];
      assert tail[j - 1] in tail;
    }
  }

  lemma TailOnce(pending: seq<Job>)
    requires QueuedOnce(pending) && pending != []
    ensures QueuedOnce(pending[1..]) && (pending[0].id != 0 ==> !Queued(pending[1..], pending[0].id))
  {
    var rest := pending[1..];
    assert forall i :: 0 <= i < |rest| ==> rest[i] == pending[i + 1];
  }

  lemma {:induction false} RetainedOnce(pending: seq<Job>, live: Live)
    requires QueuedOnce(pending)
    ensures QueuedOnce(Retained(pending, live))
  {
    hide Alive, QueuedOnce;
    if pending == [] {
      assert Retained(pending, live) == pending;
    } else {
      var rest := pending[1..];
      TailOnce(pending);
      RetainedOnce(rest, live);
      RetainedAll(rest, live);
      ConsOnce(pending[0], Retained(rest, live));
      assert Retained(pending, live) == (if Alive(live, pending[0]) then [pending[0]] else []) + Retained(rest, live);
      assert [] + Retained(rest, live) == Retained(rest, live);
    }
  }

  lemma RemoveOnce(pending: seq<Job>, pos: nat)
    requires QueuedOnce(pending) && pos < |pending|
    ensures QueuedOnce(Remove(pending, pos))
    ensures pending[pos].id != 0 ==> !Queued(Remove(pending, pos), pending[pos].id)
  {
    var rest := Remove(pending, pos);
    assert forall i :: 0 <= i < |rest| ==> rest[i] == pending[if i < pos then i else i + 1];
  }

  lemma OnceSplit(a: seq<Job>, c: seq<Job>)
    ensures QueuedOnce(a + c) <==>
              && QueuedOnce(a) && QueuedOnce(c)
              && (forall x, y :: x in a && y in c && x.id != 0 ==> x.id != y.id)
  {
    var all := a + c;
    assert forall i :: 0 <= i < |a| ==> all[i] == a[i];
    assert forall i :: 0 <= i < |c| ==> all[|a| + i] == c[i];
    if QueuedOnce(all) {
      forall x, y | x in a && y in c && x.id != 0
        ensures x.id != y.id
      {
        var i :| 0 <= i < |a| && a[i] == x;
        var j :| 0 <= j < |c| && c[j] == y;
        assert all[i] == x && all[|a| + j] == y;
      }
      OnceParts(a, c);
    }
  }

  lemma OnceParts(a: seq<Job>, c: seq<Job>)
    requires QueuedOnce(a + c)
    ensures QueuedOnce(a) && QueuedOnce(c)
  {
    var all := a + c;
    forall i, j | 0 <= i < j < |a| && a[i].id != 0
      ensures a[i].id != a[j].id
    {
      assert all[i] == a[i] && all[j] == a[j];
    }
    forall i, j | 0 <= i < j < |c| && c[i].id != 0
      ensures c[i].id != c[j].id
    {
      assert all[|a| + i] == c[i] && all[|a| + j] == c[j];
    }
  }

  lemma {:induction false} DroppingOnce(pending: seq<Job>, id: nat)
    requires QueuedOnce(pending)
    ensures QueuedOnce(Dropping(pending, id)) && |Dropping(pending, id)| <= |pending|
  {
    hide QueuedOnce;
    if pending == [] {
      assert Dropping(pending, id) == pending;
    } else {
      var rest := pending[1..];
      TailOnce(pending);
      DroppingOnce(rest, id);
      DroppingAll(rest, id);
      ConsOnce(pending[0], Dropping(rest, id));
      assert [] + Dropping(rest, id) == Dropping(rest, id);
    }
  }

  lemma {:induction false} DroppingShorter(pending: seq<Job>, id: nat)
    ensures |Dropping(pending, id)| <= |pending|
  {
    if pending != [] {
      DroppingShorter(pending[1..], id);
    }
  }

  // ---- what every event keeps ----

  function Entries(b: Board): seq<Job> {
    b.main + b.shared
  }

  /** No identifier is queued twice, and none that is still to come. */
  ghost predicate Neat(b: Board) {
    QueuedOnce(Entries(b)) && forall job :: job in Entries(b) ==> job.id == 0 || job.id < b.nextId
  }

  ghost predicate Sound(b: Board) {
    1 <= b.nextId && Identified(b.live, b.nextId)
  }

  /** An old job that has left the queues does not come back into one. */
  ghost predicate StaysOut(b: Board, b': Board) {
    forall id :: 0 < id < b.nextId && !Queued(Entries(b), id) ==> !Queued(Entries(b'), id)
  }

  predicate SameJob(x: JobInfo, y: JobInfo) {
    x.kind == y.kind && x.unit == y.unit
  }

  /** No job comes back or changes its kind or unit, and the history only grows. */
  ghost predicate Evolves(b: Board, b': Board) {
    && b.nextId <= b'.nextId && b.history <= b'.history
    && forall id :: id in b'.live && id < b.nextId ==> id in b.live && SameJob(b.live[id], b'.live[id])
  }

  /** Every live job is queued, or had left the queues before. */
  ghost predicate Carries(b: Board, b': Board) {
    forall id :: id in b'.live ==> Queued(Entries(b'), id) || (id in b.live && !Queued(Entries(b), id))
  }

  predicate Ends(e: Event, id: nat) {
    (e.Cancelled? || e.Finished?) && e.id == id
  }

  ghost predicate EndedBy(es: seq<Event>, id: nat) {
    exists e :: e in es && Ends(e, id)
  }

  /** Jobs that were live or were requested, and are no longer live, have been ended
      by an event. */
  ghost predicate Explains(b: Board, b': Board, es: seq<Event>) {
    forall id :: (id in b.live || b.nextId <= id < b'.nextId) && id !in b'.live ==> EndedBy(es, id)
  }

  function Arrivals(es: seq<Event>): nat {
    if es == [] then 0
    else
      var e := es[|es| - 1];
      Arrivals(es[..|es| - 1]) + if e.Requested? || e.Internal? then 1 else 0
  }

  /** What a sequence of events keeps and accounts for. */
  ghost predicate Follows(b: Board, b': Board, es: seq<Event>) {
    && Evolves(b, b') && Carries(b, b') && StaysOut(b, b') && Explains(b, b', es)
    && (Neat(b) ==> Neat(b')) && (Sound(b) ==> Sound(b'))
    && |Entries(b')| <= |Entries(b)| + Arrivals(es)
  }

  lemma FollowsItself(b: Board)
    ensures Follows(b, b, [])
  {
  }

  lemma {:induction false} ArrivalsJoin(es: seq<Event>, fs: seq<Event>)
    ensures Arrivals(es + fs) == Arrivals(es) + Arrivals(fs)
  {
    if fs == [] {
      assert es + fs == es;
    } else {
      var n := |fs| - 1;
      assert (es + fs)[..|es + fs| - 1] == es + fs[..n];
      ArrivalsJoin(es, fs[..n]);
    }
  }

  lemma FollowsOn(b: Board, b': Board, b'': Board, es: seq<Event>, fs: seq<Event>)
    requires Follows(b, b', es) && Follows(b', b'', fs)
    ensures Follows(b, b'', es + fs)
  {
    hide Neat, Entries, Arrivals;
    ArrivalsJoin(es, fs);
    EvolvesTwice(b, b', b'');
    hide Queued;
    ExplainsTwice(b, b', b'', es, fs);
  }

  lemma EvolvesTwice(b: Board, b': Board, b'': Board)
    requires Evolves(b, b') && Evolves(b', b'')
    ensures Evolves(b, b'')
  {
  }

  lemma ExplainsTwice(b: Board, b': Board, b'': Board, es: seq<Event>, fs: seq<Event>)
    requires Evolves(b, b') && Evolves(b', b'') && Explains(b, b', es) && Explains(b', b'', fs)
    ensures Explains(b, b'', es + fs)
  {
    hide Ends;
    forall id | (id in b.live || b.nextId <= id < b''.nextId) && id !in b''.live
      ensures EndedBy(es + fs, id)
    {
      if id in b'.live || b'.nextId <= id < b''.nextId {
        var e :| e in fs && Ends(e, id);
        assert e in es + fs;
      } else {
        var e :| e in es && Ends(e, id);
        assert e in es + fs;
      }
    }
  }

  lemma OneArrival(e: Event)
    ensures Arrivals([e]) == if e.Requested? || e.Internal? then 1 else 0
  {
    assert [e][..0] == [];
  }

  lemma PushEntries(b: Board, shared: bool, job: Job)
    ensures forall j :: j in Entries(Push(b, shared, job)) <==> j in Entries(b) || j == job
    ensures |Entries(Push(b, shared, job))| == |Entries(b)| + 1
    ensures QueuedOnce(Entries(b)) && (job.id != 0 ==> !Queued(Entries(b), job.id)) ==>
              QueuedOnce(Entries(Push(b, shared, job)))
  {
    hide QueuedOnce;
    OnceSplit(b.main, b.shared);
    OnceSplit(b.main + [job], b.shared);
    OnceSplit(b.main, b.shared + [job]);
    OnceSplit(b.main, [job]);
    OnceSplit(b.shared, [job]);
    SingleOnce(job);
  }

  lemma SingleOnce(job: Job)
    ensures QueuedOnce([job])
  {
  }

  lemma RequestFollows(b: Board, e: Event)
    requires e.Requested?
    ensures Follows(b, Happen(b, e), [e])
  {
    OneArrival(e);
    if b.nextId == U32_MAX {
      FollowsItself(b);
      hide Neat, Entries, Queued;
    } else {
      hide QueuedOnce, Push, Arrivals;
      var job, a := Job(b.nextId, e.kind, e.unit), Announced(b, e.kind, e.unit);
      PushEntries(a, e.shared, job);
      PushKeeps(a, e.shared, job);
      assert Entries(a) == Entries(b);
      hide Entries;
    }
  }

  lemma PushKeeps(b: Board, shared: bool, job: Job)
    ensures
      var b' := Push(b, shared, job);
      b'.nextId == b.nextId && b'.live == b.live && b'.history == b.history
  {
  }

  lemma InternalFollows(b: Board, e: Event)
    requires e.Internal?
    ensures Follows(b, Happen(b, e), [e])
  {
    OneArrival(e);
    hide QueuedOnce, Push, Arrivals;
    var job := Job(0, e.kind, e.unit);
    PushEntries(b, e.shared, job);
    PushKeeps(b, e.shared, job);
    hide Entries;
  }

  lemma FinishedFollows(b: Board, e: Event)
    requires e.Finished?
    ensures Follows(b, Happen(b, e), [e])
  {
    OneArrival(e);
    hide QueuedOnce, Arrivals;
    assert e in [e];
    assert Entries(Happen(b, e)) == Entries(b);
    hide Entries;
  }

  lemma DroppedEntries(b: Board, id: nat)
    ensures
      var b' := b.(shared := Dropping(b.shared, id));
      && (forall j :: j in Entries(b') ==> j in Entries(b)) && (forall j :: j in Entries(b) && j.id != id ==> j in Entries(b'))
      && |Entries(b')| <= |Entries(b)|
      && (QueuedOnce(Entries(b)) ==> QueuedOnce(Entries(b')))
  {
    hide QueuedOnce, Dropping;
    DroppingAll(b.shared, id);
    DroppingShorter(b.shared, id);
    OnceSplit(b.main, b.shared);
    OnceSplit(b.main, Dropping(b.shared, id));
    if QueuedOnce(b.shared) {
      DroppingOnce(b.shared, id);
    }
  }

  lemma CancelledFollows(b: Board, e: Event)
    requires e.Cancelled?
    ensures Follows(b, Happen(b, e), [e])
  {
    OneArrival(e);
    if e.id == 0 {
      FollowsItself(b);
      hide Neat, Entries, Queued;
    } else {
      hide QueuedOnce, Arrivals, Dropping;
      assert e in [e];
      DroppedEntries(b, e.id);
      assert Entries(Happen(b, e)) == Entries(b.(shared := Dropping(b.shared, e.id)));
      hide Entries;
    }
  }

  lemma HappenFollows(b: Board, e: Event)
    ensures Follows(b, Happen(b, e), [e])
  {
    hide Follows, Happen;
    match e {
      case Requested(_, _, _, _) => RequestFollows(b, e);
      case Internal(_, _, _) => InternalFollows(b, e);
      case Cancelled(_) => CancelledFollows(b, e);
      case Finished(_, _) => FinishedFollows(b, e);
    }
  }

  lemma {:induction false} HappenAllFollows(b: Board, es: seq<Event>)
    ensures Follows(b, HappenAll(b, es), es)
  {
    hide Follows, Happen;
    if es == [] {
      FollowsItself(b);
    } else {
      var n := |es| - 1;
      HappenAllFollows(b, es[..n]);
      HappenFollows(HappenAll(b, es[..n]), es[n]);
      FollowsOn(b, HappenAll(b, es[..n]), HappenAll(b, es), es[..n], [es[n]]);
      assert es[..n] + [es[n]] == es;
    }
  }

  lemma DrainedFollows(b: Board)
    ensures Follows(b, Drained(b), [])
  {
    hide QueuedOnce, Retained, Arrivals;
    var moved := Retained(b.shared, b.live);
    RetainedAll(b.shared, b.live);
    OnceSplit(b.main, b.shared);
    OnceSplit(b.main, moved);
    if QueuedOnce(b.shared) {
      RetainedOnce(b.shared, b.live);
    }
    assert Entries(Drained(b)) == b.main + moved;
  }

  lemma PreparedFollows(b: Board, turn: Turn)
    ensures Follows(b, Prepared(b, turn), turn.early + turn.late)
  {
    hide Follows, HappenAll, Drained;
    var early := HappenAll(b, turn.early);
    HappenAllFollows(b, turn.early);
    DrainedFollows(early);
    FollowsOn(b, early, Drained(early), turn.early, []);
    assert turn.early + [] == turn.early;
    HappenAllFollows(Drained(early), turn.late);
    FollowsOn(b, Drained(early), Prepared(b, turn), turn.early, turn.late);
  }

  // ---- what every dispatch keeps ----

  ghost predicate Dispatched(t: Taken, id: nat) {
    t.job.Some? && t.job.value.id == id
  }

  lemma DispatchEvolves(now: Board, turn: Turn)
    ensures
      var t := Dispatch(now, turn);
      && t.before == now && t.after.nextId == now.nextId && t.after.shared == now.shared && Evolves(now, t.after)
      && (Sound(now) ==> Sound(t.after))
      && (forall id :: id in now.live && id !in t.after.live ==> Dispatched(t, id))
  {
    hide Retained, Pick, RunEvents;
  }

  lemma DispatchUnblocked(now: Board, turn: Turn)
    ensures
      var t := Dispatch(now, turn);
      t.job.Some? && t.job.value.id != 0 ==> Unblocked(now.live, turn.afters, t.job.value.id)
  {
    hide Retained, Pick, Unblocked, JobIsReady;
  }

  /** A dispatch takes exactly its job off the queue, and only dead jobs with it. */
  lemma DispatchEntries(now: Board, turn: Turn)
    ensures
      var t := Dispatch(now, turn);
      && (forall job :: job in t.after.main ==> job in now.main)
      && (forall job :: job in now.main && Alive(now.live, job) ==> Dispatched(t, job.id) || job in t.after.main)
      && (t.job.Some? ==> t.job.value in now.main)
      && |t.after.main| + (if t.job.Some? then 1 else 0) <= |now.main|
  {
    hide Retained, Pick, Started, RunEvents, Alive;
    var t, kept := Dispatch(now, turn), Retained(now.main, now.live);
    RetainedAll(now.main, now.live);
    if t.job.Some? {
      var pos := Pick(kept, now.live, turn.states, turn.afters, turn.scores);
      assert kept[pos] in kept;
      forall job | job in kept
        ensures job == kept[pos] || job in Remove(kept, pos)
      {
        var i :| 0 <= i < |kept| && kept[i] == job;
        assert i != pos ==> Remove(kept, pos)[if i < pos then i else i - 1] == job;
      }
    }
  }

  lemma DispatchOnce(now: Board, turn: Turn)
    requires QueuedOnce(Entries(now))
    ensures
      var t := Dispatch(now, turn);
      && QueuedOnce(Entries(t.after))
      && (t.job.Some? && t.job.value.id != 0 ==> !Queued(Entries(t.after), t.job.value.id))
  {
    hide Retained, Pick, QueuedOnce, Started, RunEvents;
    var t, kept := Dispatch(now, turn), Retained(now.main, now.live);
    DispatchEntries(now, turn);
    OnceSplit(now.main, now.shared);
    OnceSplit(t.after.main, t.after.shared);
    RetainedOnce(now.main, now.live);
    if t.job.Some? {
      var pos := Pick(kept, now.live, turn.states, turn.afters, turn.scores);
      RemoveOnce(kept, pos);
    }
  }

  /** Every live job is queued, had left the queues before, or is dispatched now. */
  lemma DispatchCarries(now: Board, turn: Turn)
    ensures
      var t := Dispatch(now, turn);
      && StaysOut(now, t.after)
      && forall id :: id in t.after.live ==>
           Queued(Entries(t.after), id) || (id in now.live && !Queued(Entries(now), id)) || Dispatched(t, id)
  {
    hide Dispatch;
    DispatchEvolves(now, turn);
    DispatchEntries(now, turn);
    DispatchLive(now, turn);
    var t := Dispatch(now, turn);
    forall id | id in t.after.live && Queued(Entries(now), id) && !Dispatched(t, id)
      ensures Queued(Entries(t.after), id)
    {
      var job :| job in Entries(now) && job.id == id;
      assert job in now.main || job in now.shared;
      assert job in Entries(t.after);
    }
  }

  lemma DispatchLive(now: Board, turn: Turn)
    ensures forall id :: id in Dispatch(now, turn).after.live ==> id in now.live
  {
    hide Retained, Pick, RunEvents;
  }

  /** What one turn keeps and accounts for. */
  ghost predicate TurnOk(b: Board, turn: Turn, t: Taken) {
    && Follows(b, t.before, turn.early + turn.late)
    && Evolves(t.before, t.after) && t.after.nextId == t.before.nextId && StaysOut(t.before, t.after)
    && (Sound(t.before) ==> Sound(t.after))
    && (Neat(t.before) ==>
          Neat(t.after) && (t.job.Some? && t.job.value.id != 0 ==> !Queued(Entries(t.after), t.job.value.id)))
    && (forall id :: id in t.before.live && id !in t.after.live ==> Dispatched(t, id))
    && (forall id :: id in t.after.live ==>
          Queued(Entries(t.after), id) || (id in t.before.live && !Queued(Entries(t.before), id)) || Dispatched(t, id))
    && (t.job.Some? ==> t.job.value in t.before.main)
    && (t.job.Some? && t.job.value.id != 0 ==> Unblocked(t.before.live, turn.afters, t.job.value.id))
    && |Entries(t.after)| + (if t.job.Some? then 1 else 0) <= |Entries(t.before)|
  }

  lemma TurnIsOk(b: Board, turn: Turn)
    ensures TurnOk(b, turn, TurnOf(b, turn))
  {
    hide Follows, Dispatch, Prepared, QueuedOnce, Unblocked, Evolves, Sound, StaysOut, Queued;
    var now := Prepared(b, turn);
    PreparedFollows(b, turn);
    DispatchEvolves(now, turn);
    DispatchUnblocked(now, turn);
    DispatchEntries(now, turn);
    DispatchCarries(now, turn);
    if QueuedOnce(Entries(now)) {
      DispatchOnce(now, turn);
    }
  }

  // ---- any number of turns ----

  function BoardAfter(b: Board, trace: seq<Taken>): Board {
    if trace == [] then b else trace[|trace| - 1].after
  }

  /** Turn after turn, each from where the one before it ended. */
  ghost function TurnsOf(b: Board, turns: seq<Turn>): (trace: seq<Taken>)
    ensures |trace| == |turns|
  {
    if turns == [] then []
    else
      var front := TurnsOf(b, turns[..|turns| - 1]);
      front + [TurnOf(BoardAfter(b, front), turns[|turns| - 1])]
  }

  lemma OneMoreTurn(b: Board, turns: seq<Turn>, i: nat)
    requires i < |turns|
    ensures
      var trace := TurnsOf(b, turns[..i]);
      TurnsOf(b, turns[..i + 1]) == trace + [TurnOf(BoardAfter(b, trace), turns[i])]
  {
    hide TurnOf;
    assert turns[..i + 1][..i] == turns[..i];
  }

  /** The jobs that the turns dispatched, one entry for each turn. */
  ghost predicate Reports(jobs: seq<Option<Job>>, trace: seq<Taken>) {
    |jobs| == |trace| && forall i :: 0 <= i < |jobs| ==> jobs[i] == trace[i].job
  }

  /** The loop follows the fold of one turn, to the last entry of the history. */
  method TakeTurns(main: Queue, shared: Queue, turns: seq<Turn>) returns (jobs: seq<Option<Job>>)
    requires Paired(main, shared)
    modifies main, shared, main.registry
    ensures Paired(main, shared)
    ensures
      var trace := TurnsOf(old(BoardOf(main, shared)), turns);
      Reports(jobs, trace) && BoardOf(main, shared) == BoardAfter(old(BoardOf(main, shared)), trace)
  {
    hide TurnOf, TurnsOf, Accounted, EdgesOk, Remaining;
    jobs := [];
    var i := 0;
    ghost var b := BoardOf(main, shared);
    assert turns[..0] == [];
    NoTurns(b);
    while i < |turns|
      invariant i <= |turns| && Paired(main, shared)
      invariant Reports(jobs, TurnsOf(b, turns[..i]))
      invariant BoardOf(main, shared) == BoardAfter(b, TurnsOf(b, turns[..i]))
    {
      OneMoreTurn(b, turns, i);
      var job;
      ghost var taken;
      job, taken := TakeTurn(main, shared, turns[i]);
      jobs := jobs + [job];
      i := i + 1;
    }
    assert turns[..i] == turns;
  }

  lemma NoTurns(b: Board)
    ensures TurnsOf(b, []) == []
  {
  }

  lemma PairedIsSound(main: Queue, shared: Queue)
    requires Paired(main, shared)
    ensures Sound(BoardOf(main, shared))
  {
  }

  // ---- what every run obeys ----

  lemma {:induction false} TurnAt(b: Board, turns: seq<Turn>, i: nat)
    requires i < |turns|
    ensures
      var trace := TurnsOf(b, turns);
      && trace[..i] == TurnsOf(b, turns[..i])
      && trace[i] == TurnOf(BoardAfter(b, trace[..i]), turns[i])
      && TurnOk(BoardAfter(b, trace[..i]), turns[i], trace[i])
  {
    hide TurnOf, TurnsOf, TurnOk;
    var n := |turns| - 1;
    var trace, front := TurnsOf(b, turns), TurnsOf(b, turns[..n]);
    assert turns[..n + 1] == turns;
    OneMoreTurn(b, turns, n);
    assert trace[..n] == front;
    if i < n {
      TurnAt(b, turns[..n], i);
      assert turns[..n][..i] == turns[..i];
      assert trace[..i] == front[..i];
    } else {
      TurnIsOk(BoardAfter(b, front), turns[n]);
    }
  }

  lemma TurnEvolves(b: Board, turn: Turn, t: Taken)
    requires TurnOk(b, turn, t)
    ensures Evolves(b, t.before) && Evolves(t.before, t.after) && Evolves(b, t.after)
    ensures Sound(b) ==> Sound(t.before) && Sound(t.after)
    ensures Neat(b) ==> Neat(t.before) && Neat(t.after)
    ensures StaysOut(b, t.before) && StaysOut(t.before, t.after)
  {
    hide Evolves, Sound, Neat, StaysOut, Queued, Unblocked, Carries, Explains, Entries;
    EvolvesTwice(b, t.before, t.after);
  }

  /** Every board of a run is in order if the first one is. */
  lemma {:induction false} TraceSound(b: Board, turns: seq<Turn>, n: nat)
    requires n <= |turns|
    ensures
      var now := BoardAfter(b, TurnsOf(b, turns)[..n]);
      (Sound(b) ==> Sound(now)) && (Neat(b) ==> Neat(now))
  {
    hide TurnsOf, TurnOk, Sound, Neat;
    if n > 0 {
      var trace := TurnsOf(b, turns);
      TraceSound(b, turns, n - 1);
      TurnAt(b, turns, n - 1);
      TurnEvolves(BoardAfter(b, trace[..n - 1]), turns[n - 1], trace[n - 1]);
      assert trace[..n][n - 1] == trace[n - 1];
    }
  }

  lemma EvolvesItself(b: Board)
    ensures Evolves(b, b)
  {
  }

  /** No job comes back or changes between any two moments of a run. */
  lemma {:induction false} TraceEvolves(b: Board, turns: seq<Turn>, i: nat, j: nat)
    requires i <= j < |turns|
    ensures
      var trace := TurnsOf(b, turns);
      && Evolves(b, trace[j].before) && Evolves(trace[i].before, trace[j].before) && Evolves(trace[j].before, trace[j].after)
      && (i < j ==> Evolves(trace[i].after, trace[j].before))
    decreases j, i
  {
    hide TurnsOf, TurnOk, Evolves, Sound, Neat, StaysOut;
    var trace := TurnsOf(b, turns);
    TurnAt(b, turns, j);
    TurnEvolves(BoardAfter(b, trace[..j]), turns[j], trace[j]);
    if j > 0 {
      var p := trace[j - 1];
      assert BoardAfter(b, trace[..j]) == p.after;
      TraceEvolves(b, turns, if i < j then i else j - 1, j - 1);
      EvolvesTwice(b, p.before, p.after);
      EvolvesTwice(b, p.after, trace[j].before);
      if i < j {
        EvolvesTwice(trace[i].before, p.before, p.after);
        EvolvesTwice(trace[i].before, p.after, trace[j].before);
        if i < j - 1 {
          EvolvesTwice(trace[i].after, p.before, p.after);
          EvolvesTwice(trace[i].after, p.after, trace[j].before);
        }
      }
    }
    EvolvesItself(trace[j].before);
  }

  /** At its dispatch a job is live and no live job precedes it. */
  lemma DispatchedLast(b: Board, turns: seq<Turn>, i: nat)
    requires i < |turns|
    ensures
      var t := TurnsOf(b, turns)[i];
      t.job.Some? && t.job.value.id != 0 ==> Unblocked(t.before.live, turns[i].afters, t.job.value.id)
  {
    hide TurnsOf, Unblocked, Follows;
    TurnAt(b, turns, i);
  }

  /** What had to precede it at any earlier moment is gone by then. */
  lemma PrecedingIsGone(b: Board, turns: seq<Turn>, k: nat, i: nat, x: nat)
    requires k <= i < |turns| && Sound(b)
    requires
      var trace := TurnsOf(b, turns);
      && trace[i].job.Some? && trace[i].job.value.id != 0
      && OrdersBefore(trace[k].before.live, turns[i].afters, x, trace[i].job.value.id)
    ensures x !in TurnsOf(b, turns)[i].before.live
  {
    hide TurnsOf, TurnOk, OrdersBefore, Unblocked, Sound, Neat, StaysOut, Evolves;
    var trace := TurnsOf(b, turns);
    DispatchedLast(b, turns, i);
    TraceEvolves(b, turns, k, i);
    TraceSound(b, turns, k);
    TurnAt(b, turns, k);
    TurnEvolves(BoardAfter(b, trace[..k]), turns[k], trace[k]);
    OrderKept(trace[k].before, trace[i].before, turns[i].afters, x, trace[i].job.value.id);
  }

  lemma OrderKept(b: Board, b': Board, afters: Afters, x: nat, y: nat)
    requires Evolves(b, b') && Sound(b) && OrdersBefore(b.live, afters, x, y) && Unblocked(b'.live, afters, y)
    ensures x !in b'.live
  {
    assert 0 < x < b.nextId && 0 < y < b.nextId;
    assert !OrdersBefore(b'.live, afters, x, y);
  }

  /** No job is dispatched before one that it must follow by the `After=` of its
      dispatch, if that one had been requested by then. */
  lemma DispatchedInOrder(b: Board, turns: seq<Turn>, i: nat, j: nat)
    requires i < j < |turns|
    ensures
      var trace := TurnsOf(b, turns);
      trace[i].job.Some? && trace[j].job.Some? ==>
        var x, y := trace[j].job.value.id, trace[i].job.value.id;
        x != 0 && y != 0 && x < trace[i].before.nextId ==>
          && x in trace[j].before.live && y in trace[i].before.live
          && !OrdersBefore(map[x := trace[j].before.live[x], y := trace[i].before.live[y]], turns[i].afters, x, y)
  {
    hide TurnsOf, OrdersBefore, Unblocked, Evolves;
    var trace := TurnsOf(b, turns);
    DispatchedLast(b, turns, i);
    DispatchedLast(b, turns, j);
    TraceEvolves(b, turns, i, j);
    if trace[i].job.Some? && trace[j].job.Some? && trace[i].job.value.id != 0 && trace[j].job.value.id != 0 {
      UnblockedIsLive(trace[i].before.live, turns[i].afters, trace[i].job.value.id);
      UnblockedIsLive(trace[j].before.live, turns[j].afters, trace[j].job.value.id);
      if trace[j].job.value.id < trace[i].before.nextId {
        PairInOrder(trace[i].before, trace[j].before, turns[i].afters, trace[j].job.value.id, trace[i].job.value.id);
      }
    }
  }

  lemma PairInOrder(b: Board, b': Board, afters: Afters, x: nat, y: nat)
    requires Evolves(b, b') && x in b'.live && x < b.nextId && Unblocked(b.live, afters, y)
    ensures !OrdersBefore(map[x := b'.live[x], y := b.live[y]], afters, x, y)
  {
    assert !OrdersBefore(b.live, afters, x, y);
  }

  /** A turn that dispatches nothing leaves nothing, or something in flight. */
  lemma IdleTurn(b: Board, turns: seq<Turn>, i: nat)
    requires i < |turns| && Acyclic(turns[i].afters)
    ensures
      var t := TurnsOf(b, turns)[i];
      t.job.None? ==>
        && DoneOrInFlight(t.after.live, t.after.main, turns[i].states, turns[i].afters)
        && Retained(t.after.main, t.after.live) == t.after.main
  {
    hide TurnsOf, TurnOk, Retained, Pick, Acyclic, DoneOrInFlight, Alive, Prepared;
    var t := TurnsOf(b, turns)[i];
    TurnAt(b, turns, i);
    RetainedAll(t.before.main, t.before.live);
    if t.job.None? {
      NeverStuck(t.before.live, t.after.main, turns[i].states, turns[i].afters);
      RetainedIdempotent(t.after.main, t.after.live);
    }
  }

  // ---- each job at most once ----

  lemma NewlyDispatched(b: Board, turn: Turn, t: Taken)
    requires TurnOk(b, turn, t) && Neat(b)
    ensures t.job.Some? && t.job.value.id != 0 ==>
              t.job.value.id < t.after.nextId && !Queued(Entries(t.after), t.job.value.id)
  {
    hide Queued, Evolves, Carries, Explains, StaysOut, Sound, Unblocked, QueuedOnce, Arrivals;
    if t.job.Some? {
      assert t.job.value in Entries(t.before);
    }
  }

  lemma StillDispatched(b: Board, turn: Turn, t: Taken, id: nat)
    requires TurnOk(b, turn, t) && 0 < id < b.nextId && !Queued(Entries(b), id)
    ensures id < t.after.nextId && !Queued(Entries(t.after), id)
  {
    hide Queued, Carries, Explains, Sound, Neat, Unblocked, Arrivals, Entries;
  }

  lemma {:induction false} StaysDispatched(b: Board, turns: seq<Turn>, i: nat, n: nat)
    requires i < n <= |turns| && Neat(b)
    ensures
      var trace := TurnsOf(b, turns);
      trace[i].job.Some? && trace[i].job.value.id != 0 ==>
        && trace[i].job.value.id < BoardAfter(b, trace[..n]).nextId
        && !Queued(Entries(BoardAfter(b, trace[..n])), trace[i].job.value.id)
    decreases n
  {
    hide TurnsOf, TurnOk, Sound, Neat, Queued, Entries;
    var trace, m := TurnsOf(b, turns), n - 1;
    TurnAt(b, turns, m);
    TraceSound(b, turns, m);
    assert BoardAfter(b, trace[..n]) == trace[m].after;
    if i == m {
      NewlyDispatched(BoardAfter(b, trace[..m]), turns[m], trace[m]);
    } else {
      StaysDispatched(b, turns, i, m);
      if trace[i].job.Some? && trace[i].job.value.id != 0 {
        StillDispatched(BoardAfter(b, trace[..m]), turns[m], trace[m], trace[i].job.value.id);
      }
    }
  }

  /** If no identifier is queued twice at the start, no job is dispatched twice. */
  lemma DispatchedOnce(b: Board, turns: seq<Turn>, i: nat, j: nat)
    requires Neat(b) && i < j < |turns|
    ensures
      var trace := TurnsOf(b, turns);
      trace[i].job.Some? && trace[j].job.Some? && trace[i].job.value.id != 0 ==>
        trace[i].job.value.id != trace[j].job.value.id
  {
    hide TurnsOf, Neat, Sound, Evolves, Unblocked;
    var trace := TurnsOf(b, turns);
    StaysDispatched(b, turns, i, j);
    TurnAt(b, turns, j);
    TurnEvolves(BoardAfter(b, trace[..j]), turns[j], trace[j]);
    assert trace[j].job.Some? ==> trace[j].job.value in Entries(trace[j].before);
  }

  // ---- no job is lost ----

  function EventsOf(turns: seq<Turn>): seq<Event> {
    if turns == [] then []
    else
      var last := turns[|turns| - 1];
      EventsOf(turns[..|turns| - 1]) + (last.early + last.late)
  }

  function Dispatches(trace: seq<Taken>): nat {
    if trace == [] then 0
    else Dispatches(trace[..|trace| - 1]) + if trace[|trace| - 1].job.Some? then 1 else 0
  }

  ghost predicate DispatchedIn(trace: seq<Taken>, id: nat) {
    exists t :: t in trace && Dispatched(t, id)
  }

  /** Dispatched and queued jobs together are no more than were queued and came. */
  lemma {:induction false} DispatchesBounded(b: Board, turns: seq<Turn>)
    ensures
      var trace := TurnsOf(b, turns);
      Dispatches(trace) + |Entries(BoardAfter(b, trace))| <= |Entries(b)| + Arrivals(EventsOf(turns))
  {
    hide TurnsOf, Arrivals, Entries, Evolves, Sound, Neat, StaysOut, Carries, Explains, Queued, Unblocked;
    if turns == [] {
      NoTurns(b);
    } else {
      var n, trace := |turns| - 1, TurnsOf(b, turns);
      DispatchesBounded(b, turns[..n]);
      TurnAt(b, turns, n);
      ArrivalsJoin(EventsOf(turns[..n]), turns[n].early + turns[n].late);
    }
  }

  lemma DispatchedLater(trace: seq<Taken>, t: Taken, id: nat)
    ensures DispatchedIn(trace + [t], id) <==> DispatchedIn(trace, id) || Dispatched(t, id)
  {
    hide Dispatched;
    if DispatchedIn(trace, id) {
      var u :| u in trace && Dispatched(u, id);
      assert u in trace + [t];
    }
    if Dispatched(t, id) {
      assert t in trace + [t];
    }
  }

  lemma EndedLater(es: seq<Event>, fs: seq<Event>, id: nat)
    ensures EndedBy(es + fs, id) <==> EndedBy(es, id) || EndedBy(fs, id)
  {
    hide Ends;
    if EndedBy(es, id) {
      var e :| e in es && Ends(e, id);
      assert e in es + fs;
    }
    if EndedBy(fs, id) {
      var e :| e in fs && Ends(e, id);
      assert e in es + fs;
    }
  }

  /** Every live job is queued or has been dispatched. */
  lemma {:induction false} NothingLost(b: Board, turns: seq<Turn>, id: nat)
    requires AllQueued(b.live, Entries(b))
    ensures
      var trace := TurnsOf(b, turns);
      var now := BoardAfter(b, trace);
      id in now.live ==> Queued(Entries(now), id) || DispatchedIn(trace, id)
  {
    hide TurnsOf, Queued, Entries, DispatchedIn, Dispatched, Evolves, Sound, Neat, StaysOut, Explains, Unblocked;
    if turns == [] {
      NoTurns(b);
    } else {
      var n, trace := |turns| - 1, TurnsOf(b, turns);
      NothingLost(b, turns[..n], id);
      TurnAt(b, turns, n);
      DispatchedLater(trace[..n], trace[n], id);
      assert trace[..n] + [trace[n]] == trace;
    }
  }

  /** Every job that was live or was requested, and is not live, has been dispatched,
      or an event has ended it. */
  lemma {:induction false} EveryEndExplained(b: Board, turns: seq<Turn>, id: nat)
    ensures
      var trace := TurnsOf(b, turns);
      var now := BoardAfter(b, trace);
      (id in b.live || b.nextId <= id < now.nextId) && id !in now.live ==>
        DispatchedIn(trace, id) || EndedBy(EventsOf(turns), id)
  {
    hide TurnsOf, Queued, Entries, DispatchedIn, Dispatched, EndedBy, Sound, Neat, StaysOut, Carries, Unblocked;
    if turns == [] {
      NoTurns(b);
    } else {
      var n, trace := |turns| - 1, TurnsOf(b, turns);
      EveryEndExplained(b, turns[..n], id);
      TurnAt(b, turns, n);
      DispatchedLater(trace[..n], trace[n], id);
      EndedLater(EventsOf(turns[..n]), turns[n].early + turns[n].late, id);
      assert trace[..n] + [trace[n]] == trace;
    }
  }

  /** When nothing can be dispatched, no request waits, all units are settled and all
      dispatched jobs have finished, then nothing is left: every job that was live or
      was requested has been dispatched, or an event has ended it. */
  lemma RunCompletes(b: Board, turns: seq<Turn>)
    requires turns != [] && AllQueued(b.live, Entries(b))
    requires
      var trace, last := TurnsOf(b, turns), turns[|turns| - 1];
      var t := trace[|turns| - 1];
      && t.job.None? && t.after.shared == [] && Acyclic(last.afters)
      && (forall u :: u in last.states ==> Settled(last.states[u]))
      && (forall id :: id in t.after.live ==> !DispatchedIn(trace, id))
    ensures
      var trace := TurnsOf(b, turns);
      var now := BoardAfter(b, trace);
      && now.live.Keys == {} && now.main == []
      && forall id :: id in b.live || b.nextId <= id < now.nextId ==>
           DispatchedIn(trace, id) || EndedBy(EventsOf(turns), id)
  {
    hide TurnsOf, DispatchedIn, EndedBy, Queued, Acyclic, DoneOrInFlight, Retained;
    var n, trace, last := |turns|, TurnsOf(b, turns), turns[|turns| - 1];
    var now := BoardAfter(b, trace);
    forall id | id in now.live
      ensures Queued(now.main, id)
    {
      NothingLost(b, turns, id);
      assert now.main + [] == now.main;
    }
    IdleTurn(b, turns, n - 1);
    IdleMeansDone(now.live, now.main, last.states, last.afters);
    forall id | id in b.live || b.nextId <= id < now.nextId
      ensures DispatchedIn(trace, id) || EndedBy(EventsOf(turns), id)
    {
      EveryEndExplained(b, turns, id);
    }
  }
}
