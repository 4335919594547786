/** The start-order resolver (src/deps.rs): a depth-first search that loads units
    on demand and breaks cycles. */
module Resolver {
  import opened Basics
  import opened ResolverGraph

  /** `Missing`: the named required dependency could not be loaded. */
  datatype Outcome = Resolved | Missing(name: string)

  function Mentions(units: map<string, Unit>): set<string> {
    set u, v | u in units && v in units[u].needs + units[u].wants :: v
  }

  /** Every name that the search can come across. */
  function Names(g: Graph, target: string): set<string> {
    {target} + Mentions(g.known) + Mentions(g.loader)
  }

  lemma PulledIsNamed(g: Graph, target: string, u: string, v: string)
    requires v in UnitOf(g, u).needs + UnitOf(g, u).wants
    ensures v in Names(g, target)
  {
  }

  /** The first `i` dependencies are finished or their edges are broken. */
  ghost predicate Dealt(g: Graph, order: seq<string>, broken: set<Edge>, name: string, deps: seq<string>, i: nat)
    requires i <= |deps|
  {
    forall k :: 0 <= k < i && Available(g, deps[k]) ==> deps[k] in order || (name, deps[k]) in broken
  }

  lemma DealtStays(g: Graph, order: seq<string>, order': seq<string>, broken: set<Edge>, broken': set<Edge>,
                   name: string, deps: seq<string>, i: nat)
    requires i <= |deps| && Dealt(g, order, broken, name, deps, i) && order <= order' && broken <= broken'
    ensures Dealt(g, order', broken', name, deps, i)
  {
    forall k | 0 <= k < i && Available(g, deps[k])
      ensures deps[k] in order' || (name, deps[k]) in broken'
    {
      if deps[k] in order {
        var j :| 0 <= j < |order| && order[j] == deps[k];
        assert order'[j] == deps[k];
      }
    }
  }

  lemma DealtIsHandled(g: Graph, order: seq<string>, broken: set<Edge>, name: string)
    requires
      var u := UnitOf(g, name);
      && Dealt(g, order, broken, name, u.needs, |u.needs|) && Dealt(g, order, broken, name, u.wants, |u.wants|)
      && forall k :: 0 <= k < |u.needs| ==> Available(g, u.needs[k])
    ensures Handled(g, order, broken, name)
  {
  }

  /** The sets agree with the stack and the result, and what was loaded is what
      the loader delivers. */
  ghost predicate Synced(g: Graph, known: map<string, Unit>, extra: map<string, Unit>, visited: set<string>,
                         onStack: set<string>, order: seq<string>, path: seq<string>) {
    && (forall n :: n in visited <==> n in order)
    && (forall n :: n in onStack <==> n in path)
    && (forall n :: n in extra ==> n in g.loader && extra[n] == g.loader[n])
    && known == g.known
  }

  lemma PushSynced(g: Graph, known: map<string, Unit>, extra: map<string, Unit>, visited: set<string>,
                   onStack: set<string>, order: seq<string>, path: seq<string>, name: string)
    requires Synced(g, known, extra, visited, onStack, order, path)
    ensures Synced(g, known, extra, visited, onStack + {name}, order, path + [name])
  {
  }

  lemma PopSynced(g: Graph, known: map<string, Unit>, extra: map<string, Unit>, visited: set<string>,
                  onStack: set<string>, order: seq<string>, path: seq<string>, name: string)
    requires Synced(g, known, extra, visited, onStack, order, path + [name]) && name !in path
    ensures Synced(g, known, extra, visited + {name}, onStack - {name}, order + [name], path)
  {
    assert (path + [name])[|path|] == name;
    assert forall n :: n in path + [name] <==> n in path || n == name;
  }

  class Search {
    const known: map<string, Unit>
    const loader: map<string, Unit>
    var extra: map<string, Unit>
    var visited: set<string>
    var onStack: set<string>
    var broken: set<Edge>
    var order: seq<string>
    ghost const g: Graph
    ghost const target: string

    constructor (known: map<string, Unit>, loader: map<string, Unit>, ghost g: Graph, ghost target: string)
      ensures this.known == known && this.loader == loader && this.g == g && this.target == target
      ensures extra == map[] && visited == {} && onStack == {} && broken == {} && order == []
    {
      this.known, this.loader, this.g, this.target := known, loader, g, target;
      extra, visited, onStack, broken, order := map[], {}, {}, {}, [];
    }

    ghost predicate Valid(path: seq<string>)
      reads this
    {
      Synced(g, known, extra, visited, onStack, order, path) && Inv(g, target, path, order, broken)
    }

    predicate IsLoaded(name: string)
      reads this
    {
      name in known || name in extra
    }

    function DepsFor(name: string): Unit
      reads this
    {
      if name in known then known[name] else if name in extra then extra[name] else Unit([], [])
    }

    method EnsureLoaded(name: string, required: bool) returns (r: Outcome)
      requires known == g.known && loader == g.loader
      requires forall n :: n in extra ==> n in g.loader && extra[n] == g.loader[n]
      modifies this`extra
      ensures forall n :: n in extra ==> n in g.loader && extra[n] == g.loader[n]
      ensures old(extra).Keys <= extra.Keys
      ensures IsLoaded(name) <==> Available(g, name)
      ensures r == if required && !Available(g, name) then Missing(name) else Resolved
    {
      r := Resolved;
      if IsLoaded(name) {
        return;
      }
      if name in loader {
        extra := extra[name := loader[name]];
      } else if required {
        r := Missing(name);
      }
    }

    method ReportCycle(name: string, from: Option<string>)
      modifies this`broken
      ensures broken == old(broken) + {(if from.Some? then from.value else name, name)}
    {
      broken := broken + {(if from.Some? then from.value else name, name)};
    }

    /** With `path` the units being resolved, `name` ends up finished, or the edge
        to it is dropped because it is one of them. */
    method Resolve(name: string, from: Option<string>, ghost path: seq<string>) returns (r: Outcome)
      requires Valid(path)
      requires if path == [] then name == target else from == Some(path[|path| - 1]) && Pulls(g, path[|path| - 1], name)
      requires if IsLoaded(name) then g.loader == loader else name !in g.loader
      modifies this
      ensures old(extra).Keys <= extra.Keys
      ensures r.Resolved? ==>
                && Valid(path) && old(order) <= order && old(broken) <= broken
                && old(visited) <= visited && onStack == old(onStack)
                && (name in order || (path != [] && (path[|path| - 1], name) in broken))
                && (name !in old(visited) && name !in old(onStack) ==> order != [] && order[|order| - 1] == name)
      ensures r.Missing? ==> exists u :: Unloadable(g, target, u, r.name)
      decreases Names(g, target) - visited - onStack, 0
    {
      hide Inv, Pulls, Unloadable, Handled, Names, Dealt, Available, Synced, UnitOf;
      LookupHere(path, name);
      if name in visited {
        return Resolved;
      }
      if name in onStack {
        BreakKeepsInv(g, target, path, order, broken, name);
        ReportCycle(name, from);
        return Resolved;
      }
      var unit := DepsFor(name);
      ghost var stack := path + [name];
      assert stack[|path|] == name;
      PushKeepsInv(g, target, path, order, broken, name);
      NamedHere(path, name);
      PushSynced(g, known, extra, visited, onStack, order, path, name);
      onStack := onStack + {name};

      r := ResolveNeeds(name, unit.needs, stack);
      if r.Missing? {
        return;
      }
      ghost var before, was := order, broken;
      r := ResolveWants(name, unit.wants, stack);
      if r.Missing? {
        return;
      }
      DealtStays(g, before, order, was, broken, name, unit.needs, |unit.needs|);
      DealtIsHandled(g, order, broken, name);
      StackOff(path, name);
      PopKeepsInv(g, target, path, order, broken, name);
      PopSynced(g, known, extra, visited, onStack, order, path, name);
      onStack := onStack - {name};
      visited := visited + {name};
      order := order + [name];
      return Resolved;
    }

    /** `Requires=`: a dependency that cannot be loaded is an error. */
    method ResolveNeeds(name: string, deps: seq<string>, ghost stack: seq<string>) returns (r: Outcome)
      requires Valid(stack) && stack != [] && stack[|stack| - 1] == name && deps == UnitOf(g, name).needs
      requires deps != [] ==> g.loader == loader
      modifies this
      ensures old(extra).Keys <= extra.Keys
      ensures r.Resolved? ==>
                && Valid(stack) && old(order) <= order && old(broken) <= broken
                && old(visited) <= visited && onStack == old(onStack)
                && (forall k :: 0 <= k < |deps| ==> Available(g, deps[k]))
                && Dealt(g, order, broken, name, deps, |deps|)
      ensures r.Missing? ==> exists u :: Unloadable(g, target, u, r.name)
      decreases Names(g, target) - visited - onStack, 1
    {
      hide Inv, Pulls, Unloadable, Handled, Names, Dealt, Available, UnitOf;
      NothingDealt(g, order, broken, name, deps);
      r := Resolved;
      var i := 0;
      while i < |deps|
        invariant i <= |deps| && Valid(stack)
        invariant old(order) <= order && old(broken) <= broken && old(visited) <= visited
        invariant onStack == old(onStack) && old(extra).Keys <= extra.Keys
        invariant forall k :: 0 <= k < i ==> Available(g, deps[k])
        invariant Dealt(g, order, broken, name, deps, i)
      {
        var dep := deps[i];
        r := EnsureLoaded(dep, true);
        if r.Missing? {
          MissingHere(stack, dep);
          return;
        }
        PullsHere(name, dep);
        ghost var before, was := order, broken;
        Fewer(old(visited), visited, onStack);
        r := Resolve(dep, Some(name), stack);
        if r.Missing? {
          return;
        }
        DealtStays(g, before, order, was, broken, name, deps, i);
        DealtOne(g, order, broken, name, deps, i);
        i := i + 1;
      }
      r := Resolved;
    }

    /** `Wants=`: a dependency that cannot be loaded is skipped. */
    method ResolveWants(name: string, deps: seq<string>, ghost stack: seq<string>) returns (r: Outcome)
      requires Valid(stack) && stack != [] && stack[|stack| - 1] == name && deps == UnitOf(g, name).wants
      requires deps != [] ==> g.loader == loader
      modifies this
      ensures old(extra).Keys <= extra.Keys
      ensures r.Resolved? ==>
                && Valid(stack) && old(order) <= order && old(broken) <= broken
                && old(visited) <= visited && onStack == old(onStack)
                && Dealt(g, order, broken, name, deps, |deps|)
      ensures r.Missing? ==> exists u :: Unloadable(g, target, u, r.name)
      decreases Names(g, target) - visited - onStack, 1
    {
      hide Inv, Pulls, Unloadable, Handled, Names, Dealt, Available, UnitOf;
      NothingDealt(g, order, broken, name, deps);
      var i := 0;
      while i < |deps|
        invariant i <= |deps| && Valid(stack)
        invariant old(order) <= order && old(broken) <= broken && old(visited) <= visited
        invariant onStack == old(onStack) && old(extra).Keys <= extra.Keys
        invariant Dealt(g, order, broken, name, deps, i)
      {
        var dep := deps[i];
        var ignored := EnsureLoaded(dep, false);
        ghost var before, was := order, broken;
        if IsLoaded(dep) {
          PullsHere(name, dep);
          Fewer(old(visited), visited, onStack);
          r := Resolve(dep, Some(name), stack);
          if r.Missing? {
            return;
          }
        }
        DealtStays(g, before, order, was, broken, name, deps, i);
        DealtOne(g, order, broken, name, deps, i);
        i := i + 1;
      }
      return Resolved;
    }

    lemma Fewer(old_: set<string>, new_: set<string>, stack: set<string>)
      requires old_ <= new_
      ensures
        var (a, b) := (Names(g, target) - new_ - stack, Names(g, target) - old_ - stack);
        a < b || a == b
    {
    }

    lemma NamedHere(path: seq<string>, name: string)
      requires if path == [] then name == target else Pulls(g, path[|path| - 1], name)
      ensures name in Names(g, target)
    {
      if path != [] {
        PulledIsNamed(g, target, path[|path| - 1], name);
      }
    }

    lemma LookupHere(path: seq<string>, name: string)
      requires Valid(path) && (IsLoaded(name) || name !in g.loader)
      ensures name in visited <==> name in order
      ensures name in onStack <==> name in path
      ensures DepsFor(name) == UnitOf(g, name)
      ensures IsLoaded(name) || DepsFor(name) == Unit([], [])
    {
    }

    lemma PullsHere(name: string, dep: string)
      requires dep in UnitOf(g, name).needs || dep in UnitOf(g, name).wants
      requires Available(g, dep)
      ensures Pulls(g, name, dep)
    {
    }

    lemma MissingHere(stack: seq<string>, dep: string)
      requires Valid(stack) && stack != [] && dep in UnitOf(g, stack[|stack| - 1]).needs && !Available(g, dep)
      ensures Unloadable(g, target, stack[|stack| - 1], dep)
    {
      assert stack[|stack| - 1] in stack;
    }

    lemma StackOff(path: seq<string>, name: string)
      requires Valid(path + [name])
      ensures name !in path && name !in order
    {
      var stack := path + [name];
      assert stack[|path|] == name;
      assert forall i :: 0 <= i < |path| ==> stack[i] == path[i];
    }
  }

  lemma NothingDealt(g: Graph, order: seq<string>, broken: set<Edge>, name: string, deps: seq<string>)
    ensures Dealt(g, order, broken, name, deps, 0)
  {
  }

  lemma DealtOne(g: Graph, order: seq<string>, broken: set<Edge>, name: string, deps: seq<string>, i: nat)
    requires i < |deps| && Dealt(g, order, broken, name, deps, i)
    requires Available(g, deps[i]) ==> deps[i] in order || (name, deps[i]) in broken
    ensures Dealt(g, order, broken, name, deps, i + 1)
  {
  }

  // ---- the start order ----

  datatype Result = Ok(order: seq<string>) | Err(missing: string)

  /** What the search sees: a target that the registry does not hold is not
      loaded, so nothing it names is looked at. */
  function Seen(target: string, known: map<string, Unit>, loader: map<string, Unit>): Graph {
    Graph(known, if target in known then loader else map[])
  }

  ghost predicate Precedes(order: seq<string>, v: string, u: string) {
    exists i, j :: 0 <= i < j < |order| && order[i] == v && order[j] == u
  }

  /** Exactly the units that the target reaches, each once, the target last, and
      each after all that it pulls in except along exactly the broken edges, which
      all lie on cycles. */
  ghost predicate StartOrder(g: Graph, target: string, order: seq<string>, broken: set<Edge>) {
    && Distinct(order)
    && order != [] && order[|order| - 1] == target
    && (forall n :: n in order <==> Reaches(g, target, n))
    && (forall u, v :: u in order && Pulls(g, u, v) ==> (Precedes(order, v, u) <==> (u, v) !in broken))
    && (forall e :: e in broken ==> OnCycle(g, e) && e.0 in order)
  }

  lemma PrecedesAt(g: Graph, order: seq<string>, broken: set<Edge>, u: string, v: string)
    requires OrderOk(g, order, broken) && u in order && Pulls(g, u, v)
    ensures Precedes(order, v, u) <==> (u, v) !in broken
    ensures (u, v) !in broken ==> v in order
  {
    hide Pulls;
    var k: nat :| k < |order| && order[k] == u;
    assert Before(g, order, broken, k);
    if v in order[..k] {
      var i :| 0 <= i < |order[..k]| && order[..k][i] == v;
      assert order[i] == v;
    }
    if Precedes(order, v, u) {
      var i, j :| 0 <= i < j < |order| && order[i] == v && order[j] == u;
      assert j == k;
      assert order[..k][i] == v;
    }
  }

  lemma InvGivesStartOrder(g: Graph, target: string, order: seq<string>, broken: set<Edge>)
    requires Inv(g, target, [], order, broken) && order != [] && order[|order| - 1] == target
    ensures StartOrder(g, target, order, broken)
    ensures forall u, v :: !Unloadable(g, target, u, v)
  {
    hide Pulls, OrderOk;
    forall u, v | u in order && Pulls(g, u, v)
      ensures v in order && (Precedes(order, v, u) <==> (u, v) !in broken)
    {
      PrecedesAt(g, order, broken, u, v);
    }
    forall n | Reaches(g, target, n)
      ensures n in order
    {
      var p :| IsPath(g, p) && p[0] == target && p[|p| - 1] == n;
      ClosedHolds(g, order, p);
    }
    assert OrderOk(g, order, broken) ==> Distinct(order) by {
      OrderIsDistinct(g, order, broken);
    }
  }

  lemma OrderIsDistinct(g: Graph, order: seq<string>, broken: set<Edge>)
    ensures OrderOk(g, order, broken) ==> Distinct(order)
  {
  }

  /** The order exists exactly when every `Requires=` on the way can be loaded;
      the error names one that cannot. */
  method ResolveStartOrder(target: string, known: map<string, Unit>, loader: map<string, Unit>)
    returns (r: Result, ghost broken: set<Edge>)
    ensures r.Ok? ==> StartOrder(Seen(target, known, loader), target, r.order, broken)
    ensures r.Err? ==> exists u :: Unloadable(Seen(target, known, loader), target, u, r.missing)
    ensures r.Ok? <==> forall u, v :: !Unloadable(Seen(target, known, loader), target, u, v)
    ensures target !in known ==> r == Ok([target]) && broken == {}
  {
    hide StartOrder, Unloadable, Inv;
    ghost var g := Seen(target, known, loader);
    var search := new Search(known, loader, g, target);
    EmptyInv(g, target);
    var outcome := search.Resolve(target, None, []);
    broken := search.broken;
    if outcome.Missing? {
      if target !in known {
        UnknownNeedsNothing(target, known, loader, outcome.name);
      }
      return Err(outcome.name), broken;
    }
    InvGivesStartOrder(g, target, search.order, search.broken);
    if target !in known {
      UnknownIsAlone(target, known, loader, search.order, search.broken);
    }
    return Ok(search.order), broken;
  }

  /** Nothing that an unknown target reaches is missing. */
  lemma UnknownNeedsNothing(target: string, known: map<string, Unit>, loader: map<string, Unit>, name: string)
    requires target !in known
    ensures forall u :: !Unloadable(Seen(target, known, loader), target, u, name)
  {
    var g := Seen(target, known, loader);
    assert forall v :: !Pulls(g, target, v);
    forall u | Unloadable(g, target, u, name)
      ensures false
    {
      ReachesOnlyItself(g, target, u);
    }
  }

  lemma EmptyInv(g: Graph, target: string)
    ensures Inv(g, target, [], [], {})
  {
  }

  /** With nothing broken, a path never goes forward in the order. */
  lemma {:induction false} PathDescends(g: Graph, target: string, order: seq<string>, p: seq<string>)
    returns (i: nat, j: nat)
    requires StartOrder(g, target, order, {}) && IsPath(g, p) && p[0] in order
    ensures i <= j < |order| && order[i] == p[|p| - 1] && order[j] == p[0]
    decreases |p|
  {
    hide Pulls, OnCycle, Reaches;
    if |p| == 1 {
      i :| 0 <= i < |order| && order[i] == p[0];
      j := i;
    } else {
      assert Pulls(g, p[0], p[0 + 1]);
      assert Precedes(order, p[1], p[0]);
      var i1, j0 :| 0 <= i1 < j0 < |order| && order[i1] == p[1] && order[j0] == p[0];
      var rest := p[1..];
      forall k | 0 <= k < |rest| - 1
        ensures Pulls(g, rest[k], rest[k + 1])
      {
        assert Pulls(g, p[k + 1], p[k + 1 + 1]);
      }
      i, j := PathDescends(g, target, order, rest);
      assert j == i1;
      j := j0;
    }
  }

  /** Nothing is broken exactly when the target reaches no cycle; then the order is
      topological. */
  lemma BrokenIffCycle(g: Graph, target: string, order: seq<string>, broken: set<Edge>)
    requires StartOrder(g, target, order, broken)
    ensures broken == {} <==> forall e: Edge :: Reaches(g, target, e.0) ==> !OnCycle(g, e)
    ensures broken == {} ==> forall u, v :: u in order && Pulls(g, u, v) ==> Precedes(order, v, u)
  {
    hide Pulls, Reaches;
    if broken == {} {
      forall e: Edge | Reaches(g, target, e.0) && OnCycle(g, e)
        ensures false
      {
        CycleIsBroken(g, target, order, e);
      }
    } else {
      var e :| e in broken;
      assert OnCycle(g, e) && Reaches(g, target, e.0);
    }
  }

  lemma CycleIsBroken(g: Graph, target: string, order: seq<string>, e: Edge)
    requires StartOrder(g, target, order, {}) && Reaches(g, target, e.0)
    ensures !OnCycle(g, e)
  {
    hide Pulls;
    if OnCycle(g, e) {
      assert Precedes(order, e.1, e.0);
      var a, b :| 0 <= a < b < |order| && order[a] == e.1 && order[b] == e.0;
      var p :| IsPath(g, p) && p[0] == e.1 && p[|p| - 1] == e.0;
      var i, j := PathDescends(g, target, order, p);
    }
  }

  // ---- a target that the registry does not hold ----

  /** The search sees all that the registry and the loader offer: the target is in
      the registry, or cannot be loaded, or would pull in nothing. */
  predicate SeesAll(target: string, known: map<string, Unit>, loader: map<string, Unit>) {
    || target in known || target !in loader
    || (loader[target].needs == [] && forall v :: v in loader[target].wants ==> v !in known && v !in loader)
  }

  /** A unit that pulls in nothing reaches only itself. */
  lemma ReachesOnlyItself(g: Graph, u: string, n: string)
    requires (forall v :: !Pulls(g, u, v)) && Reaches(g, u, n)
    ensures n == u
  {
    hide Pulls;
    var p :| IsPath(g, p) && p[0] == u && p[|p| - 1] == n;
    ClosedHolds(g, [u], p);
  }

  /** An unknown target resolves to itself alone. */
  lemma UnknownIsAlone(target: string, known: map<string, Unit>, loader: map<string, Unit>, order: seq<string>,
                       broken: set<Edge>)
    requires target !in known && StartOrder(Seen(target, known, loader), target, order, broken)
    ensures order == [target] && broken == {}
  {
    var g := Seen(target, known, loader);
    assert forall v :: !Pulls(g, target, v);
    hide Pulls, Reaches, Precedes;
    forall n | n in order
      ensures n == target
    {
      ReachesOnlyItself(g, target, n);
    }
    forall i | 0 <= i < |order|
      ensures order[i] == target
    {
      assert order[i] in order;
    }
    assert |order| == 1 by {
      Singleton(order, target);
    }
    assert forall e :: e in broken ==> e.0 == target;
  }

  lemma Singleton(order: seq<string>, u: string)
    requires order != [] && Distinct(order) && forall i :: 0 <= i < |order| ==> order[i] == u
    ensures |order| == 1
  {
    if |order| > 1 {
      TwoDiffer(order);
    }
  }

  lemma TwoDiffer(order: seq<string>)
    requires |order| > 1 && Distinct(order)
    ensures exists i :: 0 <= i < |order| && order[i] != order[0]
  {
    assert order[1] != order[0];
  }

  lemma AloneIsOrder(g: Graph, target: string)
    ensures StartOrder(g, target, [target], {}) <==> forall v :: !Pulls(g, target, v)
  {
    hide Pulls;
    if forall v :: !Pulls(g, target, v) {
      forall n | Reaches(g, target, n)
        ensures n == target
      {
        ReachesOnlyItself(g, target, n);
      }
      ReachesSelf(g, target);
    } else {
      var v :| Pulls(g, target, v);
      ReachesSelf(g, target);
      ReachesStep(g, target, target, v);
      assert target in [target] && !Precedes([target], v, target);
    }
  }

  /** What the search returns is a start order of everything that the registry and
      the loader offer if and only if it sees all of that. */
  lemma WholeOrderIff(target: string, known: map<string, Unit>, loader: map<string, Unit>, order: seq<string>,
                      broken: set<Edge>)
    requires StartOrder(Seen(target, known, loader), target, order, broken)
    ensures StartOrder(Graph(known, loader), target, order, broken) <==> SeesAll(target, known, loader)
  {
    if target !in known {
      var g := Graph(known, loader);
      UnknownIsAlone(target, known, loader, order, broken);
      AloneIsOrder(g, target);
      hide StartOrder;
      if target in loader {
        PullsNothing(g, target);
      }
    }
  }

  lemma PullsNothing(g: Graph, u: string)
    ensures (forall v :: !Pulls(g, u, v)) <==>
              UnitOf(g, u).needs == [] && forall v :: v in UnitOf(g, u).wants ==> !Available(g, v)
  {
    if UnitOf(g, u).needs != [] {
      assert Pulls(g, u, UnitOf(g, u).needs[0]);
    }
    forall v | v in UnitOf(g, u).wants && Available(g, v)
      ensures Pulls(g, u, v)
    {
    }
  }

  /** For example `t`, which only the loader holds and which requires `d`: the order
      leaves `d` out although `t` reaches it. */
  lemma RequirementLeftOut(order: seq<string>, broken: set<Edge>)
    requires StartOrder(Seen("t", map[], map["t" := Unit([], ["d"]), "d" := Unit([], [])]), "t", order, broken)
    ensures
      var g := Graph(map[], map["t" := Unit([], ["d"]), "d" := Unit([], [])]);
      Reaches(g, "t", "d") && Available(g, "d") && "d" !in order
  {
    var loader := map["t" := Unit([], ["d"]), "d" := Unit([], [])];
    var g := Graph(map[], loader);
    UnknownIsAlone("t", map[], loader, order, broken);
    assert "d" in UnitOf(g, "t").needs;
    ReachesSelf(g, "t");
    ReachesStep(g, "t", "t", "d");
  }
}
