/** The registry of live jobs (src/job.rs). */
module JobRegistry {
  import opened Basics
  import opened JobOrdering

  datatype JobEvent = New(job: JobInfo) | StateChanged(job: JobInfo) | Removed(job: JobInfo, result: JobResult)

  predicate IncrementsFailedCounter(result: JobResult) {
    result.Failed? || result.Invalid? || result.Frozen? || result.Concurrency?
  }

  function SaturatingAdd(x: nat, y: nat): nat {
    if x + y > U32_MAX then U32_MAX else x + y
  }

  // ---- the event log ----

  /** The events about one job, in order. */
  function About(events: seq<JobEvent>, id: nat): seq<JobEvent> {
    if events == [] then []
    else
      var e := events[|events| - 1];
      About(events[..|events| - 1], id) + if e.job.id == id then [e] else []
  }

  function Removals(events: seq<JobEvent>): nat {
    if events == [] then 0
    else Removals(events[..|events| - 1]) + if events[|events| - 1].Removed? then 1 else 0
  }

  predicate CountedFailure(e: JobEvent) {
    e.Removed? && IncrementsFailedCounter(e.result)
  }

  function Failures(events: seq<JobEvent>): (n: nat)
    ensures n <= Removals(events)
  {
    if events == [] then 0
    else Failures(events[..|events| - 1]) + if CountedFailure(events[|events| - 1]) then 1 else 0
  }

  lemma OneMore(events: seq<JobEvent>, e: JobEvent, id: nat)
    ensures About(events + [e], id) == About(events, id) + if e.job.id == id then [e] else []
    ensures Removals(events + [e]) == Removals(events) + if e.Removed? then 1 else 0
    ensures Failures(events + [e]) == Failures(events) + if CountedFailure(e) then 1 else 0
  {
    assert (events + [e])[..|events + [e]| - 1] == events;
  }

  /** The events of a job that is still live: announced, and marked running if
      it runs. */
  function LiveEvents(job: JobInfo): seq<JobEvent> {
    [New(job.(state := Waiting))] + if job.state == Running then [StateChanged(job)] else []
  }

  /** The events of a job that is gone end with its one removal. */
  ghost predicate GoneEvents(events: seq<JobEvent>) {
    |events| > 0 && events[|events| - 1].Removed? && events[..|events| - 1] == LiveEvents(events[|events| - 1].job)
  }

  /** Every job that was ever allocated has its life in the log: New, then at
      most one StateChanged, then at most one Removed. */
  ghost predicate Logged(events: seq<JobEvent>, live: Live, nextId: nat) {
    forall id: nat {:trigger About(events, id)} ::
      if id == 0 || id >= nextId then About(events, id) == []
      else if id in live then About(events, id) == LiveEvents(live[id])
      else GoneEvents(About(events, id))
  }

  ghost predicate Identified(live: Live, nextId: nat) {
    forall id :: id in live ==> 0 < id < nextId && live[id].id == id
  }

  // ---- ordering edges ----

  type Edges = map<nat, set<nat>>

  predicate Has(edges: Edges, k: nat, v: nat) {
    k in edges && v in edges[k]
  }

  /** `before` and `after` are inverse to each other, irreflexive, mention live
      jobs only and hold no empty set. */
  ghost predicate EdgesOk(before: Edges, after: Edges, live: Live) {
    && (forall k :: k in before ==> before[k] != {})
    && (forall k :: k in after ==> after[k] != {})
    && (forall x, y :: Has(before, y, x) <==> Has(after, x, y))
    && (forall x, y :: Has(before, y, x) ==> x in live && y in live && x != y)
  }

  function Insert<V>(edges: map<nat, set<V>>, k: nat, v: V): map<nat, set<V>> {
    edges[k := (if k in edges then edges[k] else {}) + {v}]
  }

  /** What `finish` leaves of the edges: the job is gone on both sides. */
  function Without(edges: Edges, id: nat): Edges {
    map k | k in edges && k != id && edges[k] - {id} != {} :: edges[k] - {id}
  }

  lemma WithoutHas(edges: Edges, id: nat, k: nat, v: nat)
    ensures Has(Without(edges, id), k, v) <==> Has(edges, k, v) && k != id && v != id
  {
    if Has(edges, k, v) && k != id && v != id {
      assert v in edges[k] - {id};
    }
  }

  lemma FinishKeepsEdges(before: Edges, after: Edges, live: Live, id: nat)
    requires EdgesOk(before, after, live)
    ensures EdgesOk(Without(before, id), Without(after, id), live - {id})
  {
    forall x, y
      ensures Has(Without(before, id), y, x) <==> Has(before, y, x) && x != id && y != id
      ensures Has(Without(after, id), x, y) <==> Has(after, x, y) && x != id && y != id
    {
      WithoutHas(before, id, y, x);
      WithoutHas(after, id, x, y);
    }
  }

  // ---- the steps on the log ----

  lemma AllocateKeepsLog(events: seq<JobEvent>, live: Live, nextId: nat, job: JobInfo)
    requires Logged(events, live, nextId) && Identified(live, nextId)
    requires 0 < nextId == job.id && job.state == Waiting
    ensures Logged(events + [New(job)], live[nextId := job], nextId + 1)
  {
    forall id: nat
      ensures About(events + [New(job)], id) == About(events, id) + if job.id == id then [New(job)] else []
    {
      OneMore(events, New(job), id);
    }
  }

  lemma RunningKeepsLog(events: seq<JobEvent>, live: Live, nextId: nat, id: nat)
    requires Logged(events, live, nextId) && Identified(live, nextId)
    requires id in live && live[id].state == Waiting
    ensures
      var job := live[id].(state := Running);
      Logged(events + [StateChanged(job)], live[id := job], nextId)
  {
    var job := live[id].(state := Running);
    forall k: nat
      ensures About(events + [StateChanged(job)], k) == About(events, k) + if job.id == k then [StateChanged(job)] else []
    {
      OneMore(events, StateChanged(job), k);
    }
    assert live[id].(state := Waiting) == job.(state := Waiting);
    assert About(events, id) == [New(job.(state := Waiting))];
  }

  lemma FinishKeepsLog(events: seq<JobEvent>, live: Live, nextId: nat, id: nat, result: JobResult)
    requires Logged(events, live, nextId) && Identified(live, nextId) && id in live
    ensures Logged(events + [Removed(live[id], result)], live - {id}, nextId)
  {
    var e := Removed(live[id], result);
    forall k: nat
      ensures About(events + [e], k) == About(events, k) + if id == k then [e] else []
    {
      OneMore(events, e, k);
    }
    var mine := About(events, id) + [e];
    assert mine[..|mine| - 1] == About(events, id);
  }

  /** The edge that one pair of jobs contributes: `job` comes after the unit of
      `other`. */
  function EdgeOf(job: JobInfo, other: JobInfo): (nat, nat) {
    if OrdersAsStop(job.kind) then (job.id, other.id) else (other.id, job.id)
  }

  /** The pair that `job` contributes for its dependency on the unit `dependency`
      and the job `other`. */
  predicate Contributes(job: JobInfo, dependency: string, other: JobInfo, e: (nat, nat)) {
    other.unit == dependency && job.id != other.id && e == EdgeOf(job, other)
  }

  /** `before` and `after` hold exactly the pairs of `pairs`, first before second. */
  ghost predicate Represents(before: Edges, after: Edges, pairs: set<(nat, nat)>) {
    && (forall k :: k in before ==> before[k] != {})
    && (forall k :: k in after ==> after[k] != {})
    && (forall x: nat, y: nat :: Has(before, y, x) <==> (x, y) in pairs)
    && (forall x: nat, y: nat :: Has(after, x, y) <==> (x, y) in pairs)
  }

  lemma InsertRepresents(before: Edges, after: Edges, pairs: set<(nat, nat)>, e: (nat, nat))
    requires Represents(before, after, pairs)
    ensures Represents(Insert(before, e.1, e.0), Insert(after, e.0, e.1), pairs + {e})
  {
  }

  lemma EmptyRepresents()
    ensures Represents(map[], map[], {})
  {
  }

  /** The live jobs below `n`, in ascending order of identifier. */
  function Listed(live: Live, n: nat): seq<JobInfo> {
    if n == 0 then [] else Listed(live, n - 1) + if n - 1 in live then [live[n - 1]] else []
  }

  lemma {:induction false} ListedExact(live: Live, n: nat)
    requires forall id :: id in live ==> live[id].id == id
    ensures forall job :: job in Listed(live, n) <==> job.id in live && job.id < n && live[job.id] == job
    ensures forall i, j :: 0 <= i < j < |Listed(live, n)| ==> Listed(live, n)[i].id < Listed(live, n)[j].id
  {
    if n > 0 {
      ListedExact(live, n - 1);
    }
  }

  // What each of the three nested loops contributes.

  ghost predicate FromJobs(jobs: seq<JobInfo>, job: JobInfo, dependency: string, e: (nat, nat)) {
    exists other :: other in jobs && Contributes(job, dependency, other, e)
  }

  ghost predicate FromDependencies(jobs: seq<JobInfo>, job: JobInfo, dependencies: seq<string>, e: (nat, nat)) {
    exists dependency :: dependency in dependencies && FromJobs(jobs, job, dependency, e)
  }

  ghost predicate FromAll(jobs: seq<JobInfo>, done: seq<JobInfo>, afters: Afters, e: (nat, nat)) {
    exists job :: job in done && job.unit in afters && FromDependencies(jobs, job, afters[job.unit], e)
  }

  lemma NoPairs(jobs: seq<JobInfo>, job: JobInfo, dependency: string)
    ensures forall e :: !FromJobs(jobs[..0], job, dependency, e)
  {
  }

  lemma NoDependencies(jobs: seq<JobInfo>, job: JobInfo, dependencies: seq<string>)
    ensures forall e :: !FromDependencies(jobs, job, dependencies[..0], e)
  {
  }

  lemma NoJobs(jobs: seq<JobInfo>, afters: Afters)
    ensures forall e :: !FromAll(jobs, jobs[..0], afters, e)
  {
  }

  lemma FromJobsStep(jobs: seq<JobInfo>, i: nat, job: JobInfo, dependency: string)
    requires i < |jobs|
    ensures forall e :: FromJobs(jobs[..i + 1], job, dependency, e) <==>
                        FromJobs(jobs[..i], job, dependency, e) || Contributes(job, dependency, jobs[i], e)
  {
    assert jobs[..i + 1] == jobs[..i] + [jobs[i]];
  }

  lemma FromDependenciesStep(jobs: seq<JobInfo>, job: JobInfo, dependencies: seq<string>, i: nat)
    requires i < |dependencies|
    ensures forall e :: FromDependencies(jobs, job, dependencies[..i + 1], e) <==>
                        FromDependencies(jobs, job, dependencies[..i], e) || FromJobs(jobs, job, dependencies[i], e)
  {
    hide FromJobs;
    assert dependencies[..i + 1] == dependencies[..i] + [dependencies[i]];
  }

  lemma FromAllStep(jobs: seq<JobInfo>, i: nat, afters: Afters)
    requires i < |jobs|
    ensures forall e :: FromAll(jobs, jobs[..i + 1], afters, e) <==>
                        (FromAll(jobs, jobs[..i], afters, e) ||
                         (jobs[i].unit in afters && FromDependencies(jobs, jobs[i], afters[jobs[i].unit], e)))
  {
    hide FromDependencies;
    assert jobs[..i + 1] == jobs[..i] + [jobs[i]];
  }

  /** The three loops together contribute exactly the ordering pairs. */
  lemma PairsAreOrder(live: Live, nextId: nat, afters: Afters)
    requires Identified(live, nextId)
    ensures
      var jobs := Listed(live, nextId);
      forall x: nat, y: nat :: FromAll(jobs, jobs, afters, (x, y)) <==> OrdersBefore(live, afters, x, y)
  {
    var jobs := Listed(live, nextId);
    ListedExact(live, nextId);
    hide Listed;
    forall x: nat, y: nat | OrdersBefore(live, afters, x, y)
      ensures FromAll(jobs, jobs, afters, (x, y))
    {
      var (job, other) := if !OrdersAsStop(live[y].kind) && DependsOn(afters, live[y].unit, live[x].unit)
                          then (live[y], live[x]) else (live[x], live[y]);
      assert Contributes(job, other.unit, other, (x, y));
      assert FromJobs(jobs, job, other.unit, (x, y));
      assert FromDependencies(jobs, job, afters[job.unit], (x, y));
    }
  }

  lemma RefreshKeepsEdges(live: Live, nextId: nat, afters: Afters, before: Edges, after: Edges, pairs: set<(nat, nat)>)
    requires Identified(live, nextId) && Represents(before, after, pairs)
    requires forall x: nat, y: nat :: (x, y) in pairs <==> OrdersBefore(live, afters, x, y)
    ensures EdgesOk(before, after, live) && Remaining(before, before, live, nextId)
    ensures forall x: nat, y: nat :: Has(before, y, x) <==> OrdersBefore(live, afters, x, y)
  {
  }

  // ---- the invariant of the registry ----

  /** The counters agree with the log: every identifier ever handed out is
      either live or has been removed exactly once. */
  ghost predicate Accounted(history: seq<JobEvent>, live: Live, nextId: nat, nInstalled: nat, nFailed: nat) {
    && 1 <= nextId <= U32_MAX
    && Identified(live, nextId)
    && Logged(history, live, nextId)
    && nInstalled == nextId - 1
    && Removals(history) + |live| == nInstalled
    && nFailed == Failures(history)
  }

  /** `before` is what is left of the edges `ordered` that the last refresh built. */
  ghost predicate Remaining(before: Edges, ordered: Edges, live: Live, nextId: nat) {
    && (forall x: nat, y: nat :: Has(before, y, x) <==> Has(ordered, y, x) && x in live && y in live)
    && (forall x: nat, y: nat :: Has(ordered, y, x) ==> 0 < x < nextId && 0 < y < nextId)
  }

  lemma AllocateAccounted(history: seq<JobEvent>, live: Live, nextId: nat, nFailed: nat, job: JobInfo)
    requires 1 <= nextId && Accounted(history, live, nextId, nextId - 1, nFailed)
    requires nextId < U32_MAX && job.id == nextId && job.state == Waiting
    ensures Accounted(history + [New(job)], live[nextId := job], nextId + 1, nextId, nFailed)
  {
    AllocateKeepsLog(history, live, nextId, job);
    OneMore(history, New(job), 0);
    hide Logged, About, Removals, Failures;
  }

  lemma AllocateKeepsEdges(before: Edges, after: Edges, ordered: Edges, live: Live, nextId: nat, job: JobInfo)
    requires EdgesOk(before, after, live) && Remaining(before, ordered, live, nextId) && Identified(live, nextId)
    ensures EdgesOk(before, after, live[nextId := job])
    ensures Remaining(before, ordered, live[nextId := job], nextId + 1)
  {
    assert nextId !in live;
  }

  lemma RunningAccounted(history: seq<JobEvent>, live: Live, nextId: nat, nFailed: nat, id: nat)
    requires 1 <= nextId && Accounted(history, live, nextId, nextId - 1, nFailed)
    requires id in live && live[id].state == Waiting
    ensures
      var job := live[id].(state := Running);
      Accounted(history + [StateChanged(job)], live[id := job], nextId, nextId - 1, nFailed)
  {
    var job := live[id].(state := Running);
    RunningKeepsLog(history, live, nextId, id);
    OneMore(history, StateChanged(job), 0);
    hide Logged, About, Removals, Failures;
    assert live[id := job].Keys == live.Keys;
    assert |live[id := job].Keys| == |live[id := job]| && |live.Keys| == |live|;
  }

  lemma RunningKeepsEdges(before: Edges, after: Edges, ordered: Edges, live: Live, nextId: nat, id: nat, job: JobInfo)
    requires EdgesOk(before, after, live) && Remaining(before, ordered, live, nextId) && id in live
    ensures EdgesOk(before, after, live[id := job])
    ensures Remaining(before, ordered, live[id := job], nextId)
  {
  }

  lemma FinishAccounted(history: seq<JobEvent>, live: Live, nextId: nat, nFailed: nat, id: nat, result: JobResult)
    requires 1 <= nextId && Accounted(history, live, nextId, nextId - 1, nFailed) && id in live
    ensures
      var failed := if IncrementsFailedCounter(result) then SaturatingAdd(nFailed, 1) else nFailed;
      Accounted(history + [Removed(live[id], result)], live - {id}, nextId, nextId - 1, failed)
  {
    FinishKeepsLog(history, live, nextId, id, result);
    OneMore(history, Removed(live[id], result), 0);
    hide Logged, About, Removals, Failures;
    assert (live - {id}).Keys == live.Keys - {id};
    assert |(live - {id}).Keys| == |live - {id}| && |live.Keys| == |live|;
  }

  lemma FinishKeepsRemaining(before: Edges, ordered: Edges, live: Live, nextId: nat, id: nat)
    requires Remaining(before, ordered, live, nextId)
    ensures Remaining(Without(before, id), ordered, live - {id}, nextId)
  {
    forall x: nat, y: nat
      ensures Has(Without(before, id), y, x) <==> Has(before, y, x) && x != id && y != id
    {
      WithoutHas(before, id, y, x);
    }
    hide Without;
  }

  class Registry {
    var nextId: nat
    var nInstalled: nat
    var nFailed: nat
    var live: Live
    var owners: map<nat, set<string>>
    var before: Edges
    var after: Edges
    var events: seq<JobEvent>
    ghost var drained: seq<JobEvent>
    ghost var ordered: Edges

    /** Every event since the start, drained or not. */
    ghost function History(): seq<JobEvent>
      reads this
    {
      drained + events
    }

    ghost predicate Valid()
      reads this
    {
      && Accounted(History(), live, nextId, nInstalled, nFailed)
      && EdgesOk(before, after, live)
      && Remaining(before, ordered, live, nextId)
      && owners.Keys <= live.Keys
    }

    constructor ()
      ensures Valid() && live == map[] && History() == []
    {
      nextId, nInstalled, nFailed := 1, 0, 0;
      live, owners, before, after := map[], map[], map[], map[];
      events, drained, ordered := [], [], map[];
    }

    /** None: the identifier space is exhausted and nothing has changed. */
    method Allocate(kind: JobKind, unit: string, owner: Option<string>) returns (job: Option<Job>)
      requires Valid()
      modifies this
      ensures Valid() && ordered == old(ordered) && before == old(before) && after == old(after)
      ensures drained == old(drained)
      ensures job.None? <==> old(nextId) == U32_MAX
      ensures job.None? ==> live == old(live) && History() == old(History()) && owners == old(owners)
      ensures job.Some? ==>
                var info := JobInfo(old(nextId), kind, unit, Waiting);
                && job.value == Job(old(nextId), kind, unit) && old(nextId) !in old(live)
                && live == old(live)[old(nextId) := info]
                && History() == old(History()) + [New(info)]
                && owners == if owner.Some? && owner.value != "" then Insert(old(owners), old(nextId), owner.value)
                             else old(owners)
      ensures nextId == old(nextId) + (if job.Some? then 1 else 0) && nFailed == old(nFailed)
    {
      hide Accounted, Remaining, EdgesOk;
      CountsAre();
      var id := nextId;
      if nextId == U32_MAX {
        return None;
      }
      var info := JobInfo(id, kind, unit, Waiting);
      AllocateAccounted(History(), live, nextId, nFailed, info);
      AllocateKeepsEdges(before, after, ordered, live, nextId, info);
      nextId := nextId + 1;
      live := live[id := info];
      nInstalled := SaturatingAdd(nInstalled, 1);
      if owner.Some? && owner.value != "" {
        owners := Insert(owners, id, owner.value);
      }
      events := events + [New(info)];
      assert History() == old(History()) + [New(info)];
      return Some(Job(id, kind, unit));
    }

    method MarkRunning(id: nat) returns (r: bool)
      requires Valid()
      modifies this`live, this`events
      ensures Valid()
      ensures r == (id in old(live))
      ensures live == if r then old(live)[id := old(live)[id].(state := Running)] else old(live)
      ensures History() == old(History()) +
                if r && old(live)[id].state == Waiting then [StateChanged(live[id])] else []
      ensures drained == old(drained)
    {
      hide Accounted, Remaining, EdgesOk;
      if id !in live {
        return false;
      }
      var job := live[id];
      if job.state == Running {
        assert live == live[id := job];
        return true;
      }
      CountsAre();
      RunningAccounted(History(), live, nextId, nFailed, id);
      job := job.(state := Running);
      RunningKeepsEdges(before, after, ordered, live, nextId, id, job);
      live := live[id := job];
      events := events + [StateChanged(job)];
      assert History() == old(History()) + [StateChanged(job)];
      return true;
    }

    lemma CountsAre()
      requires Valid()
      ensures 1 <= nextId <= U32_MAX && nInstalled == nextId - 1 && nextId !in live
      ensures Identified(live, nextId)
    {
    }

    method Finish(id: nat, result: JobResult) returns (r: Option<JobInfo>)
      requires Valid()
      modifies this
      ensures Valid() && nextId == old(nextId) && ordered == old(ordered) && drained == old(drained)
      ensures r == if id in old(live) then Some(old(live)[id]) else None
      ensures live == old(live) - {id}
      ensures before == (if r.Some? then Without(old(before), id) else old(before))
      ensures after == (if r.Some? then Without(old(after), id) else old(after))
      ensures History() == old(History()) + if r.Some? then [Removed(r.value, result)] else []
      ensures owners == old(owners) - {id}
      ensures nFailed == if r.Some? && IncrementsFailedCounter(result) then SaturatingAdd(old(nFailed), 1) else old(nFailed)
    {
      hide Accounted, Remaining, EdgesOk, Without;
      if id !in live {
        assert live == live - {id};
        assert owners == owners - {id};
        return None;
      }
      var job := live[id];
      CountsAre();
      FinishAccounted(History(), live, nextId, nFailed, id, result);
      FinishKeepsEdges(before, after, live, id);
      FinishKeepsRemaining(before, ordered, live, nextId, id);
      live := live - {id};
      if IncrementsFailedCounter(result) {
        nFailed := SaturatingAdd(nFailed, 1);
      }
      owners := owners - {id};
      before := Without(before, id);
      after := Without(after, id);
      events := events + [Removed(job, result)];
      assert History() == old(History()) + [Removed(job, result)];
      return Some(job);
    }

    method DrainEvents() returns (out: seq<JobEvent>)
      requires Valid()
      modifies this`events, this`drained
      ensures Valid() && History() == old(History())
      ensures out == old(events) && events == [] && drained == old(drained) + out
    {
      hide Accounted, Remaining, EdgesOk;
      out := events;
      drained := drained + events;
      events := [];
      assert History() == old(History());
    }

    // ---- refresh ----

    /** One job, one of its dependencies, every other job. */
    method OrderAgainst(jobs: seq<JobInfo>, job: JobInfo, dependency: string, ghost pairs: set<(nat, nat)>)
      returns (ghost more: set<(nat, nat)>)
      requires Represents(before, after, pairs)
      modifies this`before, this`after
      ensures Represents(before, after, more)
      ensures forall e :: e in more <==> e in pairs || FromJobs(jobs, job, dependency, e)
    {
      hide Represents, FromJobs;
      more := pairs;
      var i := 0;
      NoPairs(jobs, job, dependency);
      while i < |jobs|
        invariant i <= |jobs|
        invariant Represents(before, after, more)
        invariant forall e :: e in more <==> e in pairs || FromJobs(jobs[..i], job, dependency, e)
      {
        var other := jobs[i];
        FromJobsStep(jobs, i, job, dependency);
        if other.unit == dependency && job.id != other.id {
          ghost var e := EdgeOf(job, other);
          InsertRepresents(before, after, more, e);
          if OrdersAsStop(job.kind) {
            before := Insert(before, other.id, job.id);
            after := Insert(after, job.id, other.id);
          } else {
            before := Insert(before, job.id, other.id);
            after := Insert(after, other.id, job.id);
          }
          more := more + {e};
        }
        i := i + 1;
      }
      assert jobs[..|jobs|] == jobs;
    }

    /** One job, all of its dependencies. */
    method OrderJob(jobs: seq<JobInfo>, job: JobInfo, dependencies: seq<string>, ghost pairs: set<(nat, nat)>)
      returns (ghost more: set<(nat, nat)>)
      requires Represents(before, after, pairs)
      modifies this`before, this`after
      ensures Represents(before, after, more)
      ensures forall e :: e in more <==> e in pairs || FromDependencies(jobs, job, dependencies, e)
    {
      hide Represents, FromJobs, FromDependencies;
      more := pairs;
      var i := 0;
      NoDependencies(jobs, job, dependencies);
      while i < |dependencies|
        invariant i <= |dependencies|
        invariant Represents(before, after, more)
        invariant forall e :: e in more <==> e in pairs || FromDependencies(jobs, job, dependencies[..i], e)
      {
        more := OrderAgainst(jobs, job, dependencies[i], more);
        FromDependenciesStep(jobs, job, dependencies, i);
        i := i + 1;
      }
      assert dependencies[..|dependencies|] == dependencies;
    }

    /** After a refresh the edges are exactly what `After=` demands of the live
        jobs, and nothing else has changed. */
    method RefreshOrdering(afters: Afters)
      requires Valid()
      modifies this`before, this`after, this`ordered
      ensures Valid() && ordered == before
      ensures forall x: nat, y: nat :: Has(before, y, x) <==> OrdersBefore(live, afters, x, y)
    {
      hide Represents, FromJobs, FromDependencies, FromAll, Listed, Accounted, EdgesOk, Remaining;
      CountsAre();
      before, after := map[], map[];
      ghost var pairs: set<(nat, nat)> := {};
      EmptyRepresents();
      var jobs := Listed(live, nextId);
      var i := 0;
      NoJobs(jobs, afters);
      while i < |jobs|
        invariant i <= |jobs|
        invariant Represents(before, after, pairs)
        invariant forall e :: e in pairs <==> FromAll(jobs, jobs[..i], afters, e)
      {
        var job := jobs[i];
        if job.unit in afters {
          pairs := OrderJob(jobs, job, afters[job.unit], pairs);
        }
        FromAllStep(jobs, i, afters);
        i := i + 1;
      }
      assert jobs[..|jobs|] == jobs;
      PairsAreOrder(live, nextId, afters);
      RefreshKeepsEdges(live, nextId, afters, before, after, pairs);
      ordered := before;
    }
  }
}
