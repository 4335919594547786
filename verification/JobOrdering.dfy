/** Jobs, the ordering that `After=` imposes on live jobs (src/job.rs), and why
    it cannot deadlock. */
module JobOrdering {

  datatype JobKind = Nop | Start | Stop | Reload | Restart | Isolate

  datatype JobState = Waiting | Running

  datatype JobResult = Completed | Canceled | Timeout | Failed | Dependency | Skipped | Invalid | Frozen | Concurrency

  datatype Job = Job(id: nat, kind: JobKind, unit: string)

  datatype JobInfo = JobInfo(id: nat, kind: JobKind, unit: string, state: JobState)

  type Live = map<nat, JobInfo>

  /** The `After=` list of each unit. */
  type Afters = map<string, seq<string>>

  predicate OrdersAsStop(kind: JobKind) {
    kind.Stop? || kind.Restart?
  }

  predicate DependsOn(afters: Afters, unit: string, dependency: string) {
    unit in afters && dependency in afters[unit]
  }

  /** The live job `x` must finish before the live job `y` may run: start-like
      jobs wait for the units they come after, and stop-like jobs go ahead of
      the units they come after. */
  predicate OrdersBefore(live: Live, afters: Afters, x: nat, y: nat) {
    && x in live && y in live && x != y
    && ((!OrdersAsStop(live[y].kind) && DependsOn(afters, live[y].unit, live[x].unit)) ||
        (OrdersAsStop(live[x].kind) && DependsOn(afters, live[x].unit, live[y].unit)))
  }

  // ---- acyclic After= ----

  predicate IsChain(afters: Afters, path: seq<string>) {
    |path| >= 2 && forall i :: 0 <= i < |path| - 1 ==> DependsOn(afters, path[i], path[i + 1])
  }

  ghost predicate Acyclic(afters: Afters) {
    forall path :: IsChain(afters, path) ==> path[0] != path[|path| - 1]
  }

  ghost predicate Reaches(afters: Afters, u: string, v: string) {
    exists path :: IsChain(afters, path) && path[0] == u && path[|path| - 1] == v
  }

  function Mentioned(afters: Afters): set<string> {
    set u, v | u in afters && v in afters[u] :: v
  }

  /** The units that `u` comes after, directly or not. */
  ghost function Reached(afters: Afters, u: string): set<string> {
    set v | v in Mentioned(afters) && Reaches(afters, u, v)
  }

  lemma ReachStep(afters: Afters, u: string, v: string, w: string)
    requires DependsOn(afters, u, v)
    ensures Reaches(afters, u, v)
    ensures Reaches(afters, v, w) ==> Reaches(afters, u, w)
  {
    assert IsChain(afters, [u, v]);
    if Reaches(afters, v, w) {
      var path :| IsChain(afters, path) && path[0] == v && path[|path| - 1] == w;
      var longer := [u] + path;
      assert forall i :: 0 <= i < |path| ==> longer[i + 1] == path[i];
      forall i | 0 <= i < |longer| - 1
        ensures DependsOn(afters, longer[i], longer[i + 1])
      {
        if i > 0 {
          assert DependsOn(afters, path[i - 1], path[i - 1 + 1]);
        }
      }
      assert IsChain(afters, longer);
    }
  }

  ghost function Rank(afters: Afters, u: string): nat {
    |Reached(afters, u)|
  }

  lemma SmallerSet(a: set<string>, b: set<string>, x: string)
    requires a <= b && x in b && x !in a
    ensures |a| < |b|
  {
    assert |b| == |a| + |b - a|;
    assert x in b - a;
  }

  lemma RankDrops(afters: Afters, u: string, v: string)
    requires Acyclic(afters) && DependsOn(afters, u, v)
    ensures Rank(afters, v) < Rank(afters, u)
  {
    forall w | w in Reached(afters, v)
      ensures w in Reached(afters, u)
    {
      ReachStep(afters, u, v, w);
    }
    ReachStep(afters, u, v, v);
    assert v !in Reached(afters, v);
    SmallerSet(Reached(afters, v), Reached(afters, u), v);
  }

  // ---- the order that respects all edges ----

  /** Stop-like jobs first, by descending rank; then all others, ascending. */
  ghost function Position(afters: Afters, job: JobInfo): int {
    if OrdersAsStop(job.kind) then -1 - Rank(afters, job.unit) else Rank(afters, job.unit)
  }

  /** Every edge goes forward in that order, for every mix of job kinds. */
  lemma EdgesGoForward(live: Live, afters: Afters, x: nat, y: nat)
    requires Acyclic(afters) && OrdersBefore(live, afters, x, y)
    ensures Position(afters, live[x]) < Position(afters, live[y])
  {
    if !OrdersAsStop(live[y].kind) && DependsOn(afters, live[y].unit, live[x].unit) {
      RankDrops(afters, live[y].unit, live[x].unit);
    } else {
      RankDrops(afters, live[x].unit, live[y].unit);
    }
  }

  lemma {:induction false} FirstOf(live: Live, afters: Afters, ids: set<nat>) returns (m: nat)
    requires ids != {} && ids <= live.Keys
    ensures m in ids && forall x :: x in ids ==> Position(afters, live[m]) <= Position(afters, live[x])
  {
    hide Position;
    m :| m in ids;
    if ids != {m} {
      var rest := FirstOf(live, afters, ids - {m});
      if Position(afters, live[rest]) < Position(afters, live[m]) {
        m := rest;
      }
    }
  }

  /** The live job `y` waits for no other live job. */
  ghost predicate Unblocked(live: Live, afters: Afters, y: nat) {
    y in live && forall x :: !OrdersBefore(live, afters, x, y)
  }

  ghost predicate SomeUnblocked(live: Live, afters: Afters) {
    exists y :: Unblocked(live, afters, y)
  }

  lemma AcyclicUnblocks(live: Live, afters: Afters) returns (y: nat)
    requires Acyclic(afters) && live.Keys != {}
    ensures Unblocked(live, afters, y)
  {
    y := FirstOf(live, afters, live.Keys);
    forall x | OrdersBefore(live, afters, x, y)
      ensures false
    {
      EdgesGoForward(live, afters, x, y);
    }
  }

  // ---- a cycle does deadlock ----

  function CycleUnit(path: seq<string>, i: nat): string
    requires |path| >= 2 && 1 <= i <= 2 * (|path| - 1)
  {
    if i <= |path| - 1 then path[i - 1] else path[i - |path|]
  }

  /** Two start jobs for each unit of the cycle `path`. */
  function CycleJobs(path: seq<string>): Live
    requires |path| >= 2
  {
    map i: nat | 1 <= i <= 2 * (|path| - 1) :: JobInfo(i, Start, CycleUnit(path, i), Waiting)
  }

  lemma CycleBlocks(afters: Afters, path: seq<string>, y: nat)
    requires IsChain(afters, path) && path[0] == path[|path| - 1]
    ensures !Unblocked(CycleJobs(path), afters, y)
  {
    var live := CycleJobs(path);
    var n := |path| - 1;
    if y in live {
      var x := if y < 2 * n then y + 1 else 1;
      var at := if y <= n then y - 1 else y - 1 - n;
      assert DependsOn(afters, path[at], path[at + 1]);
      assert live[y].unit == path[at];
      assert live[x].unit == path[at + 1];
      assert OrdersBefore(live, afters, x, y);
    }
  }

  /** Ordering can never deadlock, whatever the mix of live jobs, exactly when
      `After=` is acyclic. */
  lemma NoDeadlockIffAcyclic(afters: Afters)
    ensures Acyclic(afters) <==> forall live: Live :: live.Keys != {} ==> SomeUnblocked(live, afters)
  {
    if Acyclic(afters) {
      forall live: Live | live.Keys != {}
        ensures SomeUnblocked(live, afters)
      {
        var y := AcyclicUnblocks(live, afters);
      }
    } else {
      var path :| IsChain(afters, path) && path[0] == path[|path| - 1];
      var live := CycleJobs(path);
      assert 1 in live;
      forall y: nat
        ensures !Unblocked(live, afters, y)
      {
        CycleBlocks(afters, path, y);
      }
    }
  }
}
