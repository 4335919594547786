/** The queue of pending jobs (src/job.rs). */
module JobQueue {
  import opened Basics
  import opened JobOrdering
  import opened JobRegistry

  type States = map<string, UnitState>

  /** What a readiness test looks at. */
  datatype View = View(live: Live, before: Edges, states: States, afters: Afters)

  /** A scheduling score: an IEEE double is either finite or ignored. */
  datatype Score = Finite(value: real) | NotFinite

  /** Internal steps have identifier zero and are never canceled. */
  predicate Alive(live: Live, job: Job) {
    job.id == 0 || job.id in live
  }

  predicate Settled(state: UnitState) {
    !state.Activating? && !state.Deactivating?
  }

  /** A start job waits until no unit it comes after is in transition. */
  predicate JobIsReady(job: Job, states: States, afters: Afters) {
    job.kind.Start? && job.unit in afters ==>
      forall i :: 0 <= i < |afters[job.unit]| ==>
        afters[job.unit][i] in states ==> Settled(states[afters[job.unit][i]])
  }

  predicate NothingBefore(before: Edges, live: Live, id: nat) {
    id in before ==> forall x :: x in before[id] ==> x !in live
  }

  predicate Ready(view: View, job: Job) {
    && (job.id == 0 || NothingBefore(view.before, view.live, job.id))
    && JobIsReady(job, view.states, view.afters)
  }

  // ---- filters ----

  function Retained(pending: seq<Job>, live: Live): seq<Job> {
    if pending == [] then []
    else (if Alive(live, pending[0]) then [pending[0]] else []) + Retained(pending[1..], live)
  }

  /** The queue from its first living job on. */
  function FromAlive(pending: seq<Job>, live: Live): seq<Job> {
    if pending == [] || Alive(live, pending[0]) then pending else FromAlive(pending[1..], live)
  }

  /** Only dead jobs are skipped, so the first living job is the oldest. */
  lemma {:induction false} FromAliveKeeps(pending: seq<Job>, live: Live)
    ensures
      var rest := FromAlive(pending, live);
      && Retained(rest, live) == Retained(pending, live)
      && (rest != [] ==> Retained(pending, live) != [] && rest[0] == Retained(pending, live)[0] && Alive(live, rest[0]))
      && (rest != [] ==> Retained(rest[1..], live) == Retained(pending, live)[1..])
  {
    if pending != [] && !Alive(live, pending[0]) {
      FromAliveKeeps(pending[1..], live);
    }
  }

  function Dropping(pending: seq<Job>, id: nat): seq<Job> {
    if pending == [] then []
    else (if pending[0].id != id then [pending[0]] else []) + Dropping(pending[1..], id)
  }

  function Selected(pending: seq<Job>, view: View): seq<Job> {
    if pending == [] then []
    else (if Ready(view, pending[0]) then [pending[0]] else []) + Selected(pending[1..], view)
  }

  function Rejected(pending: seq<Job>, view: View): seq<Job> {
    if pending == [] then []
    else (if Ready(view, pending[0]) then [] else [pending[0]]) + Rejected(pending[1..], view)
  }

  /** The position of the first ready job, or the length of the queue. */
  function FirstReady(pending: seq<Job>, view: View): (pos: nat)
    ensures pos <= |pending|
    ensures pos < |pending| ==> Ready(view, pending[pos])
    ensures forall i :: 0 <= i < pos ==> !Ready(view, pending[i])
  {
    if pending == [] || Ready(view, pending[0]) then 0 else 1 + FirstReady(pending[1..], view)
  }

  function Remove(pending: seq<Job>, pos: nat): seq<Job>
    requires pos < |pending|
  {
    pending[..pos] + pending[pos + 1..]
  }

  lemma {:induction false} RetainedExact(pending: seq<Job>, live: Live, job: Job)
    ensures job in Retained(pending, live) <==> job in pending && Alive(live, job)
    ensures |Retained(pending, live)| <= |pending|
  {
    if pending != [] {
      RetainedExact(pending[1..], live, job);
      assert pending == [pending[0]] + pending[1..];
    }
  }

  lemma {:induction false} RetainedIdempotent(pending: seq<Job>, live: Live)
    requires forall job :: job in pending ==> Alive(live, job)
    ensures Retained(pending, live) == pending
  {
    if pending != [] {
      RetainedIdempotent(pending[1..], live);
    }
  }

  lemma {:induction false} DroppingExact(pending: seq<Job>, id: nat, job: Job)
    ensures job in Dropping(pending, id) <==> job in pending && job.id != id
  {
    if pending != [] {
      DroppingExact(pending[1..], id, job);
      assert pending == [pending[0]] + pending[1..];
    }
  }

  lemma DroppingAll(pending: seq<Job>, id: nat)
    ensures forall job :: job in Dropping(pending, id) <==> job in pending && job.id != id
  {
    forall job
      ensures job in Dropping(pending, id) <==> job in pending && job.id != id
    {
      DroppingExact(pending, id, job);
    }
  }

  lemma RetainedAll(pending: seq<Job>, live: Live)
    ensures forall job :: job in Retained(pending, live) <==> job in pending && Alive(live, job)
    ensures |Retained(pending, live)| <= |pending|
  {
    RetainedExact(pending, live, Job(0, Nop, ""));
    forall job
      ensures job in Retained(pending, live) <==> job in pending && Alive(live, job)
    {
      RetainedExact(pending, live, job);
    }
  }

  /** Popping the first ready job takes the head off the ready jobs and leaves
      the others alone. */
  lemma {:induction false} PopSplits(pending: seq<Job>, view: View)
    ensures
      var pos := FirstReady(pending, view);
      if pos == |pending| then Selected(pending, view) == [] && Rejected(pending, view) == pending
      else
        && Selected(pending, view) == [pending[pos]] + Selected(Remove(pending, pos), view)
        && Rejected(pending, view) == Rejected(Remove(pending, pos), view)
  {
    hide Ready;
    if pending != [] {
      hide FirstReady, Selected, Rejected;
      var head, rest := pending[0], pending[1..];
      assert pending == [head] + rest;
      FirstReadyNext(head, rest, view);
      if Ready(view, head) {
        assert Remove(pending, 0) == rest;
        ReadyHead(head, rest, view);
      } else {
        PopSplits(rest, view);
        UnreadyHead(head, rest, view);
        var pos := FirstReady(rest, view);
        if pos < |rest| {
          assert Remove(pending, pos + 1) == [head] + Remove(rest, pos);
          UnreadyHead(head, Remove(rest, pos), view);
        }
      }
    }
  }

  lemma FirstReadyNext(head: Job, rest: seq<Job>, view: View)
    ensures FirstReady([head] + rest, view) == if Ready(view, head) then 0 else 1 + FirstReady(rest, view)
  {
    hide Ready;
    assert ([head] + rest)[1..] == rest;
  }

  lemma ReadyHead(head: Job, rest: seq<Job>, view: View)
    requires Ready(view, head)
    ensures Selected([head] + rest, view) == [head] + Selected(rest, view)
    ensures Rejected([head] + rest, view) == Rejected(rest, view)
  {
    hide Ready;
    assert ([head] + rest)[1..] == rest;
  }

  lemma UnreadyHead(head: Job, rest: seq<Job>, view: View)
    requires !Ready(view, head)
    ensures Selected([head] + rest, view) == Selected(rest, view)
    ensures Rejected([head] + rest, view) == [head] + Rejected(rest, view)
  {
    hide Ready;
    assert ([head] + rest)[1..] == rest;
  }

  function Below(live: Live, n: nat): set<nat> {
    set id | id in live && id < n
  }

  function Ids(jobs: seq<JobInfo>): set<nat> {
    set job | job in jobs :: job.id
  }

  lemma IdsNext(jobs: seq<JobInfo>, i: nat)
    requires i < |jobs| && forall k, j :: 0 <= k < j < |jobs| ==> jobs[k].id < jobs[j].id
    ensures Ids(jobs[..i + 1]) == Ids(jobs[..i]) + {jobs[i].id} && jobs[i].id !in Ids(jobs[..i])
  {
    assert jobs[..i + 1] == jobs[..i] + [jobs[i]];
  }

  lemma ListedIds(live: Live, n: nat)
    requires forall id :: id in live ==> live[id].id == id && id < n
    ensures Ids(Listed(live, n)) == live.Keys && |Listed(live, n)| == |live|
    ensures forall job :: job in Listed(live, n) ==> job.id in live
    ensures forall i, j :: 0 <= i < j < |Listed(live, n)| ==> Listed(live, n)[i].id < Listed(live, n)[j].id
  {
    hide Listed;
    ListedExact(live, n);
    ListedCount(live, n);
    assert Below(live, n) == live.Keys;
    assert |live.Keys| == |live|;
    forall id | id in live
      ensures id in Ids(Listed(live, n))
    {
      assert live[id] in Listed(live, n);
    }
  }

  lemma {:induction false} ListedCount(live: Live, n: nat)
    ensures |Listed(live, n)| == |Below(live, n)|
    decreases n
  {
    if n > 0 {
      ListedCount(live, n - 1);
      if n - 1 in live {
        assert Below(live, n) == Below(live, n - 1) + {n - 1};
      } else {
        assert Below(live, n) == Below(live, n - 1);
      }
    }
  }

  // ---- the choice by score ----

  /** The earliest candidate of the highest finite score, or the first candidate when
      none has a finite score. */
  ghost predicate Best(candidates: set<nat>, score: nat -> Score, pos: nat) {
    && pos in candidates
    && if score(pos).Finite? then
         forall i :: i in candidates && score(i).Finite? ==>
           score(i).value <= score(pos).value && (i < pos ==> score(i).value < score(pos).value)
       else
         forall i :: i in candidates ==> pos <= i && score(i).NotFinite?
  }

  lemma BestIsUnique(candidates: set<nat>, score: nat -> Score, p: nat, q: nat)
    requires Best(candidates, score, p) && Best(candidates, score, q)
    ensures p == q
  {
  }

  lemma {:induction false} BestExists(candidates: set<nat>, score: nat -> Score)
    requires candidates != {}
    ensures exists pos: nat :: Best(candidates, score, pos)
    decreases |candidates|
  {
    var x :| x in candidates;
    var others := candidates - {x};
    if others == {} {
      assert candidates == {x};
      assert Best(candidates, score, x);
    } else {
      BestExists(others, score);
      var p: nat :| Best(others, score, p);
      assert forall i :: i in candidates <==> i == x || i in others;
      var first := if x < p then x else p;
      var better :=
        if score(x).Finite? && score(p).Finite? then
          if score(x).value > score(p).value then x else if score(x).value < score(p).value then p else first
        else if score(x).Finite? then x
        else if score(p).Finite? then p
        else first;
      assert Best(candidates, score, better);
    }
  }

  ghost function Readies(pending: seq<Job>, view: View): set<nat> {
    set i: nat | i < |pending| && Ready(view, pending[i])
  }

  /** The best of the ready jobs. */
  ghost predicate Chosen(pending: seq<Job>, view: View, score: nat -> Score, pos: nat) {
    Best(Readies(pending, view), score, pos)
  }

  lemma ChosenIsUnique(pending: seq<Job>, view: View, score: nat -> Score, p: nat, q: nat)
    requires Chosen(pending, view, score, p) && Chosen(pending, view, score, q)
    ensures p == q
  {
    hide Ready;
    BestIsUnique(Readies(pending, view), score, p, q);
  }

  /** With equal scores, finite or not, the choice is the first ready job. */
  lemma EqualScoresChooseFirst(pending: seq<Job>, view: View, score: nat -> Score, pos: nat)
    requires Chosen(pending, view, score, pos)
    requires forall i: nat :: i < |pending| ==> score(i) == score(0)
    ensures pos == FirstReady(pending, view)
  {
    hide Ready;
    var first := FirstReady(pending, view);
    if first < |pending| {
      assert score(first) == score(0) == score(pos);
    }
  }

  class Queue {
    const registry: Registry
    var pending: seq<Job>

    constructor (registry: Registry)
      ensures this.registry == registry && pending == []
    {
      this.registry := registry;
      pending := [];
    }

    ghost function Here(states: States, afters: Afters): View
      reads registry
    {
      View(registry.live, registry.before, states, afters)
    }

    method EnqueueOwned(kind: JobKind, unit: string, owner: Option<string>) returns (job: Option<Job>)
      requires registry.Valid()
      modifies this, registry
      ensures registry.Valid() && registry.ordered == old(registry.ordered)
      ensures registry.before == old(registry.before) && registry.after == old(registry.after)
      ensures registry.drained == old(registry.drained) && registry.nFailed == old(registry.nFailed)
      ensures job.None? <==> old(registry.nextId) == U32_MAX
      ensures job.None? ==>
                && pending == old(pending) && registry.live == old(registry.live) && registry.nextId == old(registry.nextId)
                && registry.History() == old(registry.History()) && registry.owners == old(registry.owners)
      ensures job.Some? ==>
                var info := JobInfo(old(registry.nextId), kind, unit, Waiting);
                && job.value == Job(info.id, kind, unit) && info.id !in old(registry.live)
                && registry.nextId == info.id + 1 && pending == old(pending) + [job.value]
                && registry.live == old(registry.live)[info.id := info]
                && registry.History() == old(registry.History()) + [New(info)]
                && registry.owners == if owner.Some? && owner.value != ""
                                      then Insert(old(registry.owners), info.id, owner.value) else old(registry.owners)
    {
      hide Accounted, Remaining, EdgesOk;
      job := registry.Allocate(kind, unit, owner);
      if job.Some? {
        pending := pending + [job.value];
      }
    }

    method EnqueueInternal(kind: JobKind, unit: string)
      modifies this
      ensures pending == old(pending) + [Job(0, kind, unit)]
    {
      pending := pending + [Job(0, kind, unit)];
    }

    method PushExisting(job: Job)
      modifies this
      ensures pending == if Alive(registry.live, job) then old(pending) + [job] else old(pending)
    {
      if job.id == 0 || job.id in registry.live {
        pending := pending + [job];
      }
    }

    /** The oldest job that is still alive; the dead ones before it are dropped. */
    method PopFront() returns (job: Option<Job>)
      modifies this
      ensures
        var kept := FromAlive(old(pending), registry.live);
        if kept == [] then job == None && pending == [] else job == Some(kept[0]) && pending == kept[1..]
    {
      while pending != []
        invariant FromAlive(pending, registry.live) == FromAlive(old(pending), registry.live)
        decreases |pending|
      {
        var head := pending[0];
        pending := pending[1..];
        if head.id == 0 || head.id in registry.live {
          return Some(head);
        }
      }
      return None;
    }

    method PopReady(states: States, afters: Afters) returns (job: Option<Job>)
      modifies this
      ensures
        var kept := Retained(old(pending), registry.live);
        var pos := FirstReady(kept, Here(states, afters));
        if pos == |kept| then job == None && pending == kept
        else job == Some(kept[pos]) && pending == Remove(kept, pos)
    {
      hide Ready, Retained;
      pending := Retained(pending, registry.live);
      var pos := FirstReady(pending, View(registry.live, registry.before, states, afters));
      if pos == |pending| {
        return None;
      }
      job := Some(pending[pos]);
      pending := Remove(pending, pos);
    }

    method PopReadyBy(states: States, afters: Afters, score: nat -> Score) returns (job: Option<Job>)
      modifies this
      ensures
        var kept := Retained(old(pending), registry.live);
        if FirstReady(kept, Here(states, afters)) == |kept| then job == None && pending == kept
        else exists pos: nat ::
          && Chosen(kept, Here(states, afters), score, pos)
          && job == Some(kept[pos]) && pending == Remove(kept, pos)
    {
      hide Ready, Retained;
      pending := Retained(pending, registry.live);
      var view := View(registry.live, registry.before, states, afters);
      var best: Option<nat> := None;
      var index := 0;
      while index < |pending|
        invariant index <= |pending|
        invariant best.Some? ==> best.value < index && Ready(view, pending[best.value]) && score(best.value).Finite?
        invariant best.Some? ==> forall i :: 0 <= i < index && Ready(view, pending[i]) && score(i).Finite? ==>
                    score(i).value <= score(best.value).value && (i < best.value ==> score(i).value < score(best.value).value)
        invariant best.None? ==> forall i :: 0 <= i < index && Ready(view, pending[i]) ==> score(i).NotFinite?
      {
        if Ready(view, pending[index]) {
          var candidate := score(index);
          if candidate.Finite? && (best.None? || candidate.value > score(best.value).value) {
            best := Some(index);
          }
        }
        index := index + 1;
      }
      var pos := if best.Some? then best.value else FirstReady(pending, view);
      if pos == |pending| {
        return None;
      }
      assert Chosen(pending, view, score, pos);
      job := Some(pending[pos]);
      pending := Remove(pending, pos);
    }

    /** The ready jobs in queue order; the others stay in queue order. */
    method DrainReady(states: States, afters: Afters) returns (out: seq<Job>)
      modifies this
      ensures
        var kept := Retained(old(pending), registry.live);
        out == Selected(kept, Here(states, afters)) && pending == Rejected(kept, Here(states, afters))
    {
      hide Ready, Retained, Selected, Rejected, FirstReady;
      out := [];
      ghost var view := Here(states, afters);
      ghost var kept := Retained(pending, registry.live);
      ghost var before := kept;
      RetainedAll(pending, registry.live);
      var job := PopReady(states, afters);
      while job.Some?
        invariant job.None? ==> pending == before && FirstReady(before, view) == |before|
        invariant job.Some? ==>
                    var pos := FirstReady(before, view);
                    pos < |before| && job.value == before[pos] && pending == Remove(before, pos)
        invariant forall j :: j in before ==> Alive(registry.live, j)
        invariant out + Selected(before, view) == Selected(kept, view)
        invariant Rejected(before, view) == Rejected(kept, view)
        decreases |pending|, job.Some?
      {
        PopSplits(before, view);
        out := out + [job.value];
        before := pending;
        RetainedIdempotent(pending, registry.live);
        job := PopReady(states, afters);
      }
      PopSplits(before, view);
    }

    /** Internal steps cannot be canceled; any other job leaves the queue, and the
        registry too if it was live. */
    method Cancel(id: nat) returns (r: bool)
      requires registry.Valid()
      modifies this, registry
      ensures registry.Valid() && registry.ordered == old(registry.ordered) && registry.nextId == old(registry.nextId)
      ensures r == (id != 0 && id in old(registry.live))
      ensures pending == if id == 0 then old(pending) else Dropping(old(pending), id)
      ensures registry.live == old(registry.live) - {id}
      ensures registry.nFailed == old(registry.nFailed) && registry.drained == old(registry.drained)
      ensures registry.owners == old(registry.owners) - {id}
      ensures registry.before == (if r then Without(old(registry.before), id) else old(registry.before))
      ensures registry.after == (if r then Without(old(registry.after), id) else old(registry.after))
      ensures registry.History() == old(registry.History()) + if r then [Removed(old(registry.live)[id], Canceled)] else []
    {
      hide Accounted, Remaining, EdgesOk, Dropping, Without;
      registry.CountsAre();
      if id == 0 {
        assert registry.live == registry.live - {0} && registry.owners == registry.owners - {0};
        return false;
      }
      pending := Dropping(pending, id);
      var job := registry.Finish(id, Canceled);
      return job.Some?;
    }

    method CancelListed(jobs: seq<JobInfo>) returns (n: nat)
      requires registry.Valid()
      requires forall job :: job in jobs ==> job.id in registry.live
      requires forall i, j :: 0 <= i < j < |jobs| ==> jobs[i].id < jobs[j].id
      modifies this, registry
      ensures registry.Valid() && n == |jobs| && registry.nFailed == old(registry.nFailed)
      ensures registry.live == old(registry.live) - Ids(jobs)
      ensures forall job :: job in pending <==> job in old(pending) && job.id !in Ids(jobs)
    {
      hide Accounted, Remaining, EdgesOk, Dropping, Without;
      n := 0;
      var i := 0;
      while i < |jobs|
        invariant i <= |jobs| && n == i
        invariant registry.Valid() && registry.nFailed == old(registry.nFailed)
        invariant registry.live == old(registry.live) - Ids(jobs[..i])
        invariant forall job :: job in pending <==> job in old(pending) && job.id !in Ids(jobs[..i])
      {
        DroppingAll(pending, jobs[i].id);
        IdsNext(jobs, i);
        registry.CountsAre();
        assert jobs[i] in jobs;
        var canceled := Cancel(jobs[i].id);
        if canceled {
          n := n + 1;
        }
        i := i + 1;
      }
      assert jobs[..i] == jobs;
    }

    /** Every live job is canceled and counted; only internal steps remain. */
    method CancelAll() returns (n: nat)
      requires registry.Valid()
      modifies this, registry
      ensures registry.Valid() && registry.live == map[] && n == |old(registry.live)|
      ensures registry.nFailed == old(registry.nFailed)
      ensures forall job :: job in pending <==> job in old(pending) && job.id !in old(registry.live)
    {
      hide Accounted, Remaining, EdgesOk, Dropping, Without, Listed;
      registry.CountsAre();
      ghost var all := registry.live;
      var jobs := Listed(registry.live, registry.nextId);
      ListedIds(all, registry.nextId);
      n := CancelListed(jobs);
      assert registry.live.Keys == {};
    }
  }
}
