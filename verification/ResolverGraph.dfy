/** The dependency graph that the start-order resolver walks, and the invariant
    of its depth-first search (src/deps.rs). */
module ResolverGraph {

  datatype Unit = Unit(wants: seq<string>, needs: seq<string>)

  /** The units in the registry and those that the loader would deliver. */
  datatype Graph = Graph(known: map<string, Unit>, loader: map<string, Unit>)

  type Edge = (string, string)

  predicate Available(g: Graph, n: string) {
    n in g.known || n in g.loader
  }

  function UnitOf(g: Graph, n: string): Unit {
    if n in g.known then g.known[n] else if n in g.loader then g.loader[n] else Unit([], [])
  }

  /** `u` pulls in `v`: by `Requires=`, or by `Wants=` when `v` can be loaded. */
  predicate Pulls(g: Graph, u: string, v: string) {
    v in UnitOf(g, u).needs || (v in UnitOf(g, u).wants && Available(g, v))
  }

  predicate IsPath(g: Graph, p: seq<string>) {
    |p| > 0 && forall i :: 0 <= i < |p| - 1 ==> Pulls(g, p[i], p[i + 1])
  }

  ghost predicate Reaches(g: Graph, u: string, v: string) {
    exists p :: IsPath(g, p) && p[0] == u && p[|p| - 1] == v
  }

  /** Some unit on the way has a `Requires=` that cannot be loaded. */
  ghost predicate Unloadable(g: Graph, target: string, u: string, v: string) {
    Reaches(g, target, u) && v in UnitOf(g, u).needs && !Available(g, v)
  }

  /** The edge lies on a cycle. */
  ghost predicate OnCycle(g: Graph, e: Edge) {
    Pulls(g, e.0, e.1) && Reaches(g, e.1, e.0)
  }

  lemma ReachesSelf(g: Graph, u: string)
    ensures Reaches(g, u, u)
  {
    assert IsPath(g, [u]);
  }

  lemma ReachesStep(g: Graph, u: string, v: string, w: string)
    requires Reaches(g, u, v) && Pulls(g, v, w)
    ensures Reaches(g, u, w)
  {
    var p :| IsPath(g, p) && p[0] == u && p[|p| - 1] == v;
    assert IsPath(g, p + [w]);
    assert (p + [w])[|p|] == w;
  }

  /** A set that holds `u` and is closed under the edges holds all `u` reaches. */
  lemma {:induction false} ClosedHolds(g: Graph, s: seq<string>, p: seq<string>)
    requires IsPath(g, p) && p[0] in s
    requires forall u, v :: u in s && Pulls(g, u, v) ==> v in s
    ensures p[|p| - 1] in s
    decreases |p|
  {
    if |p| > 1 {
      assert Pulls(g, p[0], p[0 + 1]);
      forall i | 0 <= i < |p[1..]| - 1
        ensures Pulls(g, p[1..][i], p[1..][i + 1])
      {
        assert Pulls(g, p[i + 1], p[i + 1 + 1]);
      }
      ClosedHolds(g, s, p[1..]);
    }
  }

  // ---- the invariant of the search ----
  // `path` is the stack of units being resolved, `order` the finished units.

  predicate Distinct(s: seq<string>) {
    forall i, j :: 0 <= i < j < |s| ==> s[i] != s[j]
  }

  /** What the unit at position `k` pulls in comes earlier, except exactly the
      broken edges. */
  ghost predicate Before(g: Graph, order: seq<string>, broken: set<Edge>, k: nat)
    requires k < |order|
  {
    forall v :: Pulls(g, order[k], v) ==> (v in order[..k] <==> (order[k], v) !in broken)
  }

  ghost predicate OrderOk(g: Graph, order: seq<string>, broken: set<Edge>) {
    && Distinct(order)
    && (forall k: nat :: k < |order| ==> Before(g, order, broken, k))
  }

  ghost predicate NeedsMet(g: Graph, order: seq<string>) {
    forall u, v :: u in order && v in UnitOf(g, u).needs ==> Available(g, v)
  }

  ghost predicate PathOk(g: Graph, path: seq<string>, order: seq<string>) {
    && Distinct(path)
    && (path != [] ==> IsPath(g, path))
    && (forall u :: u in path ==> u !in order)
  }

  /** `v` is `u` or was on the stack before `u`. */
  ghost predicate Above(path: seq<string>, v: string, u: string) {
    exists i, j :: 0 <= i <= j < |path| && path[i] == v && path[j] == u
  }

  ghost predicate BrokenOk(g: Graph, path: seq<string>, order: seq<string>, broken: set<Edge>) {
    forall e :: e in broken ==>
      && OnCycle(g, e)
      && (e.0 in order || Above(path, e.1, e.0))
      && (e.1 in order || e.1 in path)
  }

  ghost predicate Reached(g: Graph, target: string, names: seq<string>) {
    forall n :: n in names ==> Reaches(g, target, n)
  }

  ghost predicate Inv(g: Graph, target: string, path: seq<string>, order: seq<string>, broken: set<Edge>) {
    && OrderOk(g, order, broken)
    && NeedsMet(g, order)
    && PathOk(g, path, order)
    && BrokenOk(g, path, order, broken)
    && Reached(g, target, path)
    && Reached(g, target, order)
  }

  /** Entering a unit. */
  lemma PushKeepsInv(g: Graph, target: string, path: seq<string>, order: seq<string>, broken: set<Edge>, name: string)
    requires Inv(g, target, path, order, broken) && name !in path && name !in order
    requires if path == [] then name == target else Pulls(g, path[|path| - 1], name)
    ensures Inv(g, target, path + [name], order, broken)
  {
    var longer := path + [name];
    PushReached(g, target, path, name);
    PushBroken(g, path, order, broken, name);
    hide OrderOk, NeedsMet, BrokenOk, Reached;
    assert IsPath(g, longer);
  }

  lemma PushReached(g: Graph, target: string, path: seq<string>, name: string)
    requires Reached(g, target, path)
    requires if path == [] then name == target else Pulls(g, path[|path| - 1], name)
    ensures Reached(g, target, path + [name])
  {
    hide Reaches;
    if path == [] {
      ReachesSelf(g, target);
    } else {
      assert path[|path| - 1] in path;
      ReachesStep(g, target, path[|path| - 1], name);
    }
  }

  lemma PushBroken(g: Graph, path: seq<string>, order: seq<string>, broken: set<Edge>, name: string)
    requires BrokenOk(g, path, order, broken)
    ensures BrokenOk(g, path + [name], order, broken)
  {
    hide OnCycle;
    forall e | e in broken && Above(path, e.1, e.0)
      ensures Above(path + [name], e.1, e.0)
    {
      var i, j :| 0 <= i <= j < |path| && path[i] == e.1 && path[j] == e.0;
      assert (path + [name])[i] == e.1 && (path + [name])[j] == e.0;
    }
  }

  /** Dropping the edge that closes a cycle. */
  lemma BreakKeepsInv(g: Graph, target: string, path: seq<string>, order: seq<string>, broken: set<Edge>, name: string)
    requires Inv(g, target, path, order, broken) && name in path && Pulls(g, path[|path| - 1], name)
    ensures Inv(g, target, path, order, broken + {(path[|path| - 1], name)})
  {
    var from := path[|path| - 1];
    var i :| 0 <= i < |path| && path[i] == name;
    CycleOnStack(g, path, i);
    assert Above(path, name, from);
    assert from in path;
    BreakKeepsOrder(g, order, broken, from, name);
    hide OrderOk, NeedsMet, PathOk, Reached, OnCycle, Above;
  }

  lemma CycleOnStack(g: Graph, path: seq<string>, i: nat)
    requires i < |path| && IsPath(g, path) && Pulls(g, path[|path| - 1], path[i])
    ensures OnCycle(g, (path[|path| - 1], path[i]))
  {
    var p := path[i..];
    forall k | 0 <= k < |p| - 1
      ensures Pulls(g, p[k], p[k + 1])
    {
      assert Pulls(g, path[i + k], path[i + k + 1]);
    }
    assert IsPath(g, p);
  }

  lemma BreakKeepsOrder(g: Graph, order: seq<string>, broken: set<Edge>, from: string, name: string)
    requires OrderOk(g, order, broken) && from !in order
    ensures OrderOk(g, order, broken + {(from, name)})
  {
    forall k: nat | k < |order|
      ensures Before(g, order, broken + {(from, name)}, k)
    {
      assert Before(g, order, broken, k);
    }
  }

  /** What the unit `name` on top of the stack pulls in has been dealt with. */
  ghost predicate Handled(g: Graph, order: seq<string>, broken: set<Edge>, name: string) {
    forall v :: Pulls(g, name, v) ==> Available(g, v) && (v in order || (name, v) in broken)
  }

  /** Leaving a unit. */
  lemma PopKeepsInv(g: Graph, target: string, path: seq<string>, order: seq<string>, broken: set<Edge>, name: string)
    requires Inv(g, target, path + [name], order, broken) && Handled(g, order, broken, name)
    ensures Inv(g, target, path, order + [name], broken)
  {
    PopOrder(g, path, order, broken, name);
    PopBroken(g, path, order, broken, name);
    PopRest(g, target, path, order, name);
    hide OrderOk, PathOk, BrokenOk, Reached, Handled;
    assert NeedsMet(g, order + [name]) by {
      PopNeeds(g, order, broken, name);
    }
  }

  lemma PopNeeds(g: Graph, order: seq<string>, broken: set<Edge>, name: string)
    requires NeedsMet(g, order) && Handled(g, order, broken, name)
    ensures NeedsMet(g, order + [name])
  {
    forall v | v in UnitOf(g, name).needs
      ensures Available(g, v)
    {
      assert Pulls(g, name, v);
    }
  }

  lemma PopOrder(g: Graph, path: seq<string>, order: seq<string>, broken: set<Edge>, name: string)
    requires OrderOk(g, order, broken) && PathOk(g, path + [name], order) && BrokenOk(g, path + [name], order, broken)
    requires Handled(g, order, broken, name)
    ensures OrderOk(g, order + [name], broken)
  {
    hide OnCycle;
    var stack := path + [name];
    assert stack[|path|] == name;
    assert name in stack;
    var longer := order + [name];
    assert Distinct(longer);
    assert longer[..|order|] == order;
    forall v | Pulls(g, name, v)
      ensures v in order <==> (name, v) !in broken
    {
      if (name, v) in broken {
        assert Above(stack, v, name);
        var i, j :| 0 <= i <= j < |stack| && stack[i] == v && stack[j] == name;
        assert v in stack;
      }
    }
    forall k: nat | k < |longer|
      ensures Before(g, longer, broken, k)
    {
      if k < |order| {
        assert Before(g, order, broken, k);
        assert longer[..k] == order[..k];
      }
    }
  }

  lemma PopBroken(g: Graph, path: seq<string>, order: seq<string>, broken: set<Edge>, name: string)
    requires BrokenOk(g, path + [name], order, broken) && Distinct(path + [name])
    ensures BrokenOk(g, path, order + [name], broken)
  {
    hide OnCycle;
    var stack := path + [name];
    forall e | e in broken && e.0 !in order + [name]
      ensures Above(path, e.1, e.0)
    {
      assert Above(stack, e.1, e.0);
      var i, j :| 0 <= i <= j < |stack| && stack[i] == e.1 && stack[j] == e.0;
      assert path[i] == e.1 && path[j] == e.0;
    }
  }

  lemma PopRest(g: Graph, target: string, path: seq<string>, order: seq<string>, name: string)
    requires PathOk(g, path + [name], order)
    requires Reached(g, target, path + [name]) && Reached(g, target, order)
    ensures PathOk(g, path, order + [name])
    ensures Reached(g, target, path) && Reached(g, target, order + [name])
  {
    hide Reaches, Pulls;
    var stack := path + [name];
    assert stack[|path|] == name;
    forall u | u in path
      ensures u in stack
    {
      var i :| 0 <= i < |path| && path[i] == u;
      assert stack[i] == u;
    }
    forall i, j | 0 <= i < j < |path|
      ensures path[i] != path[j]
    {
      assert stack[i] != stack[j];
    }
    forall i | 0 <= i < |path| - 1
      ensures Pulls(g, path[i], path[i + 1])
    {
      assert Pulls(g, stack[i], stack[i + 1]);
    }
    forall u | u in path
      ensures u != name
    {
      var i :| 0 <= i < |path| && path[i] == u;
      assert stack[i] != stack[|path|];
    }
  }
}
