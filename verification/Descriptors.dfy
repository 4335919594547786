/** Descriptor tables and the plan that moves descriptors into a spawned helper
    (ffi/spawn.c). */
module Descriptors {
  import opened Basics
  import opened Errno

  type File = nat

  datatype Slot = Slot(file: File, cloexec: bool)

  type Table = map<nat, Slot>

  const REQUEST_FD: nat := 3
  const ERROR_FD: nat := 4
  const IDLE_FD: nat := 5
  const LISTEN_FD_BASE: nat := 6
  const LISTEN_FDS_START: nat := 3
  const SCRATCH_CAPACITY: nat := 264

  function OpenFrom(t: Table, min: nat): set<nat> {
    set x | x in t && x >= min
  }

  /** The lowest free number from `min` on, as F_DUPFD picks it. */
  function LowestFree(t: Table, min: nat): (fd: nat)
    ensures fd >= min && fd !in t
    ensures forall x :: min <= x < fd ==> x in t
    decreases OpenFrom(t, min)
  {
    if min in t then
      assert min in OpenFrom(t, min) && min !in OpenFrom(t, min + 1);
      LowestFree(t, min + 1)
    else min
  }

  /** Exec keeps what is not marked close-on-exec. */
  function Exec(t: Table): Table {
    map x | x in t && !t[x].cloexec :: t[x]
  }

  // ---- what is asked for ----

  datatype Mapping = Mapping(source: nat, target: nat)

  /** Descriptors of the manager; negative means absent. */
  datatype Params = Params(stdin: int, stdout: int, stderr: int, idle: int, listen: seq<nat>, request: nat, error: nat)

  function Minimum(p: Params): nat {
    LISTEN_FD_BASE + |p.listen|
  }

  function Optional(fd: int, target: nat): seq<Mapping> {
    if fd >= 0 then [Mapping(fd, target)] else []
  }

  function Listens(listen: seq<nat>): (ms: seq<Mapping>)
    ensures |ms| == |listen|
    ensures forall i :: 0 <= i < |listen| ==> ms[i] == Mapping(listen[i], LISTEN_FD_BASE + i)
  {
    seq(|listen|, i requires 0 <= i < |listen| => Mapping(listen[i], LISTEN_FD_BASE + i))
  }

  function Fixed(p: Params): (ms: seq<Mapping>)
    ensures |ms| <= 6
  {
    Optional(p.stdin, 0) + Optional(p.stdout, 1) + Optional(p.stderr, 2)
    + [Mapping(p.request, REQUEST_FD), Mapping(p.error, ERROR_FD)] + Optional(p.idle, IDLE_FD)
  }

  function Mappings(p: Params): seq<Mapping> {
    Fixed(p) + Listens(p.listen)
  }

  predicate Ascending(ms: seq<Mapping>) {
    forall i, j :: 0 <= i < j < |ms| ==> ms[i].target < ms[j].target
  }

  predicate Below(ms: seq<Mapping>, min: nat) {
    forall i :: 0 <= i < |ms| ==> ms[i].target < min
  }

  predicate AtLeast(ms: seq<Mapping>, k: nat) {
    forall i :: 0 <= i < |ms| ==> ms[i].target >= k
  }

  lemma ConcatAscends(a: seq<Mapping>, b: seq<Mapping>, k: nat, min: nat)
    requires Ascending(a) && Below(a, k) && Ascending(b) && AtLeast(b, k) && Below(b, min) && k <= min
    ensures Ascending(a + b) && Below(a + b, min)
  {
  }

  lemma OptionalAscends(fd: int, target: nat)
    ensures
      var ms := Optional(fd, target);
      Ascending(ms) && Below(ms, target + 1) && AtLeast(ms, target)
  {
  }

  lemma ControlAscends(p: Params)
    ensures
      var ms := [Mapping(p.request, REQUEST_FD), Mapping(p.error, ERROR_FD)];
      Ascending(ms) && Below(ms, 5) && AtLeast(ms, 3)
  {
  }

  lemma FixedAscends(p: Params)
    ensures Ascending(Fixed(p)) && Below(Fixed(p), 6)
  {
    hide Ascending, Below, AtLeast, Optional;
    var control := [Mapping(p.request, REQUEST_FD), Mapping(p.error, ERROR_FD)];
    OptionalAscends(p.stdin, 0);
    OptionalAscends(p.stdout, 1);
    OptionalAscends(p.stderr, 2);
    OptionalAscends(p.idle, IDLE_FD);
    ControlAscends(p);
    var a := Optional(p.stdin, 0) + Optional(p.stdout, 1);
    ConcatAscends(Optional(p.stdin, 0), Optional(p.stdout, 1), 1, 2);
    ConcatAscends(a, Optional(p.stderr, 2), 2, 3);
    ConcatAscends(a + Optional(p.stderr, 2), control, 3, 5);
    ConcatAscends(a + Optional(p.stderr, 2) + control, Optional(p.idle, IDLE_FD), 5, 6);
  }

  lemma MappingsAscend(p: Params)
    ensures Ascending(Mappings(p)) && Below(Mappings(p), Minimum(p)) && |Mappings(p)| <= 6 + |p.listen|
  {
    hide Fixed;
    FixedAscends(p);
    ConcatAscends(Fixed(p), Listens(p.listen), 6, Minimum(p));
  }

  // ---- lifting sources out of the way ----

  /** The manager's table, the scratch descriptors made so far, the recorded dup2
      actions and the first error. */
  datatype Plan = Plan(table: Table, scratch: seq<nat>, actions: seq<Mapping>, status: int)

  function AddMapping(plan: Plan, m: Mapping, min: nat): Plan {
    if plan.status != 0 then plan
    else if m.source >= min then plan.(actions := plan.actions + [m])
    else if |plan.scratch| >= SCRATCH_CAPACITY then plan.(status := -EMFILE)
    else if m.source !in plan.table then plan.(status := -EBADF)
    else
      var fd := LowestFree(plan.table, min);
      Plan(plan.table[fd := Slot(plan.table[m.source].file, true)], plan.scratch + [fd],
           plan.actions + [Mapping(fd, m.target)], 0)
  }

  function AddAll(t: Table, ms: seq<Mapping>, min: nat): Plan {
    if ms == [] then Plan(t, [], [], 0)
    else AddMapping(AddAll(t, ms[..|ms| - 1], min), ms[|ms| - 1], min)
  }

  predicate Extends(t: Table, scratch: seq<nat>, table: Table, min: nat) {
    && (forall x :: x in t ==> x in table && table[x] == t[x])
    && (forall x :: x in table ==> x in t || x in scratch)
    && (forall i :: 0 <= i < |scratch| ==> scratch[i] >= min && scratch[i] !in t)
    && (forall i :: 0 <= i < |scratch| ==> scratch[i] in table && table[scratch[i]].cloexec)
  }

  /** The action moves the file of the mapping's source from above `min`. */
  predicate Carries(t: Table, table: Table, m: Mapping, a: Mapping, min: nat) {
    && a.target == m.target && a.source >= min
    && (m.source >= min ==> a.source == m.source)
    && (m.source in t ==> a.source in table && table[a.source].file == t[m.source].file)
  }

  predicate AllCarried(t: Table, table: Table, ms: seq<Mapping>, actions: seq<Mapping>, min: nat) {
    |actions| == |ms| && forall i :: 0 <= i < |ms| ==> Carries(t, table, ms[i], actions[i], min)
  }

  predicate Open(t: Table, ms: seq<Mapping>) {
    forall i :: 0 <= i < |ms| ==> ms[i].source in t
  }

  /** Every source below `min` is open: the others need no lifting. */
  predicate LowOpen(t: Table, ms: seq<Mapping>, min: nat) {
    forall i :: 0 <= i < |ms| && ms[i].source < min ==> ms[i].source in t
  }

  lemma {:induction false} PlanWorks(t: Table, ms: seq<Mapping>, min: nat)
    requires |ms| <= SCRATCH_CAPACITY
    ensures
      var plan := AddAll(t, ms, min);
      && Extends(t, plan.scratch, plan.table, min)
      && |plan.scratch| <= |ms|
      && plan.status == (if LowOpen(t, ms, min) then 0 else -EBADF)
      && (plan.status == 0 ==> AllCarried(t, plan.table, ms, plan.actions, min))
  {
    if ms != [] {
      var front, m := ms[..|ms| - 1], ms[|ms| - 1];
      PlanWorks(t, front, min);
      var plan := AddAll(t, front, min);
      assert ms == front + [m];
      hide AddAll;
      assert LowOpen(t, ms, min) <==> LowOpen(t, front, min) && (m.source < min ==> m.source in t);
      if plan.status == 0 {
        OneMapping(t, front, plan, m, min);
        assert AddAll(t, ms, min) == AddMapping(plan, m, min) by {
          LastMapping(t, ms, min);
        }
      } else {
        LastMapping(t, ms, min);
      }
    } else {
      assert LowOpen(t, ms, min);
    }
  }

  lemma LastMapping(t: Table, ms: seq<Mapping>, min: nat)
    requires ms != []
    ensures AddAll(t, ms, min) == AddMapping(AddAll(t, ms[..|ms| - 1], min), ms[|ms| - 1], min)
  {
  }

  lemma OneMapping(t: Table, ms: seq<Mapping>, plan: Plan, m: Mapping, min: nat)
    requires plan.status == 0 && |plan.scratch| < SCRATCH_CAPACITY
    requires Extends(t, plan.scratch, plan.table, min) && AllCarried(t, plan.table, ms, plan.actions, min)
    ensures
      var next := AddMapping(plan, m, min);
      && Extends(t, next.scratch, next.table, min)
      && |next.scratch| <= |plan.scratch| + 1
      && next.status == (if m.source < min && m.source !in t then -EBADF else 0)
      && (next.status == 0 ==> AllCarried(t, next.table, ms + [m], next.actions, min))
  {
    var next := AddMapping(plan, m, min);
    if m.source < min {
      assert m.source !in plan.scratch;
      assert m.source in plan.table <==> m.source in t;
      if m.source in t {
        var fd := LowestFree(plan.table, min);
        assert next.table == plan.table[fd := Slot(t[m.source].file, true)];
        assert forall i :: 0 <= i < |ms| ==> Carries(t, next.table, ms[i], plan.actions[i], min);
        assert Carries(t, next.table, m, Mapping(fd, m.target), min);
      }
    } else {
      assert Carries(t, next.table, m, m, min);
    }
  }

  // ---- which numbers the scratch descriptors take ----

  /** How many numbers from `min` up to but not including `x` are free. */
  function FreeBelow(t: Table, min: nat, x: nat): nat
    decreases x
  {
    if x <= min then 0 else FreeBelow(t, min, x - 1) + if x - 1 in t then 0 else 1
  }

  /** How many sources must be lifted. */
  function LowCount(ms: seq<Mapping>, min: nat): nat {
    if ms == [] then 0
    else LowCount(ms[..|ms| - 1], min) + if ms[|ms| - 1].source < min then 1 else 0
  }

  lemma {:induction false} FreeBelowGrows(t: Table, min: nat, x: nat, y: nat)
    requires min <= x <= y
    ensures FreeBelow(t, min, x) <= FreeBelow(t, min, y)
    ensures x < y && x !in t ==> FreeBelow(t, min, x) < FreeBelow(t, min, y)
    decreases y
  {
    if x < y {
      FreeBelowGrows(t, min, x, y - 1);
    }
  }

  /** `table` is `t` with the `k` lowest free numbers from `min` on taken. */
  ghost predicate TakesLowest(t: Table, min: nat, k: nat, table: Table) {
    forall x: nat :: x >= min ==> (x in table <==> x in t || FreeBelow(t, min, x) < k)
  }

  /** When everything from `min` to `fd` is taken, at most `k` of it was free. */
  lemma {:induction false} FilledUp(t: Table, min: nat, k: nat, table: Table, fd: nat)
    requires TakesLowest(t, min, k, table) && min <= fd && forall x :: min <= x < fd ==> x in table
    ensures FreeBelow(t, min, fd) <= k
    decreases fd
  {
    if fd > min {
      FilledUp(t, min, k, table, fd - 1);
      assert fd - 1 in table;
    }
  }

  lemma TakesNext(t: Table, min: nat, k: nat, table: Table, slot: Slot)
    requires TakesLowest(t, min, k, table)
    ensures TakesLowest(t, min, k + 1, table[LowestFree(table, min) := slot])
  {
    var fd := LowestFree(table, min);
    FilledUp(t, min, k, table, fd);
    assert FreeBelow(t, min, fd) == k && fd !in t;
    forall x: nat | x >= min
      ensures x in table[fd := slot] <==> x in t || FreeBelow(t, min, x) < k + 1
    {
      if x < fd {
        FreeBelowGrows(t, min, x, fd);
      } else if x > fd {
        FreeBelowGrows(t, min, fd, x);
      }
    }
  }

  /** The scratch descriptors are the lowest free numbers, as many as there are
      sources to lift. */
  lemma {:induction false} ScratchIsLowest(t: Table, ms: seq<Mapping>, min: nat)
    requires |ms| <= SCRATCH_CAPACITY && LowOpen(t, ms, min)
    ensures TakesLowest(t, min, LowCount(ms, min), AddAll(t, ms, min).table)
  {
    if ms != [] {
      var front, m := ms[..|ms| - 1], ms[|ms| - 1];
      assert forall i :: 0 <= i < |front| ==> front[i] == ms[i];
      ScratchIsLowest(t, front, min);
      PlanWorks(t, front, min);
      var plan := AddAll(t, front, min);
      LastMapping(t, ms, min);
      hide AddAll, TakesLowest;
      if m.source < min {
        assert m.source in t;
        TakesNext(t, min, LowCount(front, min), plan.table, Slot(plan.table[m.source].file, true));
      }
    } else {
      assert AddAll(t, ms, min).table == t;
    }
  }

  /** Releasing the scratch descriptors restores the manager's table. */
  lemma ReleaseRestores(t: Table, scratch: seq<nat>, table: Table, min: nat)
    requires Extends(t, scratch, table, min)
    ensures table - (set x | x in scratch) == t
  {
  }

  // ---- the actions in the child ----

  function Dup2(t: Table, source: nat, target: nat): Option<Table> {
    if source !in t then None else Some(t[target := Slot(t[source].file, false)])
  }

  function RunActions(t: Table, actions: seq<Mapping>): Option<Table> {
    if actions == [] then Some(t)
    else
      var before := RunActions(t, actions[..|actions| - 1]);
      if before.None? then None
      else Dup2(before.value, actions[|actions| - 1].source, actions[|actions| - 1].target)
  }

  /** `r` holds the actions' files at their targets and `t` elsewhere. */
  predicate Placed(t: Table, actions: seq<Mapping>, r: Table) {
    && (forall i :: 0 <= i < |actions| ==>
          && actions[i].source in t && actions[i].target in r
          && r[actions[i].target] == Slot(t[actions[i].source].file, false))
    && (forall x :: x in t ==> x in r)
    && (forall x :: x in r && (forall i :: 0 <= i < |actions| ==> actions[i].target != x) ==> x in t && r[x] == t[x])
  }

  lemma OneAction(t: Table, front: seq<Mapping>, a: Mapping, before: Table, min: nat)
    requires Placed(t, front, before) && a.source >= min
    requires forall i :: 0 <= i < |front| ==> front[i].target < min && front[i].target != a.target && front[i].source >= min
    ensures a.source in before <==> a.source in t
    ensures a.source in t ==> Placed(t, front + [a], before[a.target := Slot(t[a.source].file, false)])
    ensures a.source in t ==> before[a.source].file == t[a.source].file
  {
    if a.source in t {
      var after := before[a.target := Slot(t[a.source].file, false)];
      var all := front + [a];
      assert all[|front|] == a;
      assert forall i :: 0 <= i < |front| ==> all[i] == front[i];
      forall x | x in after && forall i :: 0 <= i < |all| ==> all[i].target != x
        ensures x in t && after[x] == t[x]
      {
        assert forall i :: 0 <= i < |front| ==> front[i].target == all[i].target;
      }
    }
  }

  /** Sources lie above all targets, so the moves do not disturb each other. */
  lemma {:induction false} ActionsPlace(t: Table, actions: seq<Mapping>, min: nat)
    requires Ascending(actions) && Below(actions, min)
    requires forall i :: 0 <= i < |actions| ==> actions[i].source >= min
    ensures RunActions(t, actions).Some? <==> Open(t, actions)
    ensures RunActions(t, actions).Some? ==> Placed(t, actions, RunActions(t, actions).value)
  {
    if actions != [] {
      var front, a := actions[..|actions| - 1], actions[|actions| - 1];
      assert actions == front + [a];
      ActionsPlace(t, front, min);
      OpenMore(t, front, a);
      var before := RunActions(t, front);
      if before.Some? {
        assert forall i :: 0 <= i < |front| ==> front[i] == actions[i];
        OneAction(t, front, a, before.value, min);
      }
      hide Placed, Open;
    } else {
      assert Open(t, actions);
    }
  }

  lemma OpenMore(t: Table, ms: seq<Mapping>, m: Mapping)
    ensures Open(t, ms + [m]) <==> Open(t, ms) && m.source in t
  {
    assert (ms + [m])[|ms|] == m;
    assert forall i :: 0 <= i < |ms| ==> (ms + [m])[i] == ms[i];
  }
}
