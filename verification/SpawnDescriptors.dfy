/** The descriptor hand-off from the manager through the spawn helper to the
    service (ffi/spawn.c, ffi/spawn_helper.c). */
module SpawnDescriptors {
  import opened Basics
  import opened Errno
  import opened Descriptors

  /** A process, as far as its open descriptors go. */
  class Process {
    var table: Table

    constructor (table: Table)
      ensures this.table == table
    {
      this.table := table;
    }

    /** fcntl(F_DUPFD_CLOEXEC). */
    method DupAbove(fd: nat, min: nat) returns (r: int)
      modifies this
      ensures fd in old(table) ==> r == LowestFree(old(table), min) && table == old(table)[r := Slot(old(table)[fd].file, true)]
      ensures fd !in old(table) ==> r == -EBADF && table == old(table)
    {
      if fd !in table {
        return -EBADF;
      }
      r := LowestFree(table, min);
      table := table[r := Slot(table[fd].file, true)];
    }

    /** A new file gets the lowest free number and is marked close-on-exec. */
    method Install(file: File) returns (fd: nat)
      modifies this
      ensures fd == LowestFree(old(table), 0) && table == old(table)[fd := Slot(file, true)]
    {
      fd := LowestFree(table, 0);
      table := table[fd := Slot(file, true)];
    }

    method Close(fd: nat)
      modifies this
      ensures table == old(table) - {fd}
    {
      table := table - {fd};
    }

    method DupTo(source: nat, target: nat) returns (r: int)
      modifies this
      ensures if source in old(table) then r == target && table == old(table)[target := Slot(old(table)[source].file, false)]
              else r == -EBADF && table == old(table)
    {
      if source !in table {
        return -EBADF;
      }
      table := table[target := Slot(table[source].file, false)];
      return target;
    }

    /** close_range(2) to the end. */
    method CloseFrom(first: nat)
      modifies this
      ensures table == map x | x in old(table) && x < first :: old(table)[x]
    {
      table := map x | x in table && x < first :: table[x];
    }
  }

  // ---- the manager's side ----

  class Spawner {
    const manager: Process
    const min: nat
    var scratch: seq<nat>
    var actions: seq<Mapping>
    var status: int

    constructor (manager: Process, min: nat)
      ensures this.manager == manager && this.min == min && scratch == [] && actions == [] && status == 0
    {
      this.manager, this.min := manager, min;
      scratch, actions, status := [], [], 0;
    }

    ghost function AsPlan(): Plan
      reads this, manager
    {
      Plan(manager.table, scratch, actions, status)
    }

    /** A source that could be overwritten is first copied out of the way. */
    method ScratchLift(fd: nat) returns (r: int, lifted: nat)
      modifies this`scratch, manager
      ensures r == if fd >= min || (|old(scratch)| < SCRATCH_CAPACITY && fd in old(manager.table)) then 0
                   else if |old(scratch)| >= SCRATCH_CAPACITY then -EMFILE else -EBADF
      ensures if r == 0 && fd < min then
                && lifted == LowestFree(old(manager.table), min) && scratch == old(scratch) + [lifted]
                && manager.table == old(manager.table)[lifted := Slot(old(manager.table)[fd].file, true)]
              else scratch == old(scratch) && manager.table == old(manager.table) && (r == 0 ==> lifted == fd)
    {
      if fd >= min {
        return 0, fd;
      }
      if |scratch| >= SCRATCH_CAPACITY {
        return -EMFILE, 0;
      }
      var moved := manager.DupAbove(fd, min);
      if moved < 0 {
        return moved, 0;
      }
      scratch := scratch + [moved];
      return 0, moved;
    }

    method Add(source: int, target: nat)
      modifies this, manager
      ensures AsPlan() == if source < 0 then old(AsPlan()) else AddMapping(old(AsPlan()), Mapping(source, target), min)
    {
      if status != 0 || source < 0 {
        return;
      }
      var r, lifted := ScratchLift(source);
      status := r;
      if r == 0 {
        actions := actions + [Mapping(lifted, target)];
      }
    }

    method ScratchRelease()
      modifies this`scratch, manager
      ensures manager.table == old(manager.table) - (set x | x in old(scratch)) && scratch == []
    {
      var i := 0;
      while i < |scratch|
        invariant i <= |scratch| && scratch == old(scratch)
        invariant manager.table == old(manager.table) - (set x | x in scratch[..i])
      {
        manager.Close(scratch[i]);
        assert scratch[..i + 1] == scratch[..i] + [scratch[i]];
        i := i + 1;
      }
      assert scratch[..|scratch|] == scratch;
      scratch := [];
    }
  }

  lemma {:induction false} AddOptional(t: Table, ms: seq<Mapping>, fd: int, target: nat, min: nat)
    ensures AddAll(t, ms + Optional(fd, target), min) ==
            if fd < 0 then AddAll(t, ms, min) else AddMapping(AddAll(t, ms, min), Mapping(fd, target), min)
  {
    if fd < 0 {
      assert ms + Optional(fd, target) == ms;
    } else {
      AddLast(t, ms, Mapping(fd, target), min);
    }
  }

  lemma AddLast(t: Table, ms: seq<Mapping>, m: Mapping, min: nat)
    ensures AddAll(t, ms + [m], min) == AddMapping(AddAll(t, ms, min), m, min)
  {
    assert (ms + [m])[..|ms|] == ms;
  }

  /** Standard input falls back to /dev/null. */
  function WithNull(t: Table, p: Params, devNull: File): Table {
    if p.stdin < 0 then t[0 := Slot(devNull, false)] else t
  }

  /** What the helper image starts with, if every action succeeds. */
  function Spawned(t: Table, p: Params, devNull: File): Option<Table> {
    var plan := AddAll(t, Mappings(p), Minimum(p));
    if plan.status != 0 then None
    else
      var r := RunActions(WithNull(plan.table, p, devNull), plan.actions);
      if r.None? then None else Some(Exec(r.value))
  }

  /** The manager's part: plan the moves, spawn, release the scratch descriptors.
      Its own table comes back unchanged, whatever happens. */
  method SpawnHelperImage(manager: Process, p: Params, devNull: File) returns (r: int, child: Option<Process>)
    requires |p.listen| <= MAX_LISTEN_FDS
    modifies manager
    ensures manager.table == old(manager.table)
    ensures r == 0 <==> child.Some?
    ensures child.Some? ==> fresh(child.value) && Spawned(old(manager.table), p, devNull) == Some(child.value.table)
    ensures child.None? ==> r == -EBADF && Spawned(old(manager.table), p, devNull) == None
  {
    hide AddMapping, AddAll, RunActions, Optional, Exec, Extends;
    var min := Minimum(p);
    ghost var t := manager.table;
    var spawner := new Spawner(manager, min);
    Steps(t, p, min);
    spawner.Add(p.stdin, 0);
    spawner.Add(p.stdout, 1);
    spawner.Add(p.stderr, 2);
    spawner.Add(p.request, REQUEST_FD);
    spawner.Add(p.error, ERROR_FD);
    spawner.Add(p.idle, IDLE_FD);
    assert spawner.AsPlan() == AddAll(t, Fixed(p), min);
    AddListens(spawner, t, p);
    MappingsAscend(p);
    PlanWorks(t, Mappings(p), min);
    r := spawner.status;
    child := None;
    if r == 0 {
      var moved := RunActions(WithNull(manager.table, p, devNull), spawner.actions);
      if moved.Some? {
        var process := new Process(Exec(moved.value));
        child := Some(process);
      } else {
        r := -EBADF;
      }
    }
    ReleaseRestores(t, spawner.scratch, manager.table, min);
    spawner.ScratchRelease();
  }

  lemma Steps(t: Table, p: Params, min: nat)
    ensures
      var plan0 := AddAll(t, [], min);
      var plan1 := if p.stdin < 0 then plan0 else AddMapping(plan0, Mapping(p.stdin, 0), min);
      var plan2 := if p.stdout < 0 then plan1 else AddMapping(plan1, Mapping(p.stdout, 1), min);
      var plan3 := if p.stderr < 0 then plan2 else AddMapping(plan2, Mapping(p.stderr, 2), min);
      var plan4 := AddMapping(plan3, Mapping(p.request, REQUEST_FD), min);
      var plan5 := AddMapping(plan4, Mapping(p.error, ERROR_FD), min);
      var plan6 := if p.idle < 0 then plan5 else AddMapping(plan5, Mapping(p.idle, IDLE_FD), min);
      plan0 == Plan(t, [], [], 0) && plan6 == AddAll(t, Fixed(p), min)
  {
    assert AddAll(t, [], min) == Plan(t, [], [], 0);
    hide AddMapping, AddAll, Optional;
    var ms1 := [] + Optional(p.stdin, 0);
    assert ms1 == Optional(p.stdin, 0);
    var ms3 := ms1 + Optional(p.stdout, 1) + Optional(p.stderr, 2);
    AddOptional(t, [], p.stdin, 0, min);
    AddOptional(t, ms1, p.stdout, 1, min);
    AddOptional(t, ms1 + Optional(p.stdout, 1), p.stderr, 2, min);
    var request, error := Mapping(p.request, REQUEST_FD), Mapping(p.error, ERROR_FD);
    AddLast(t, ms3, request, min);
    AddLast(t, ms3 + [request], error, min);
    assert ms3 + [request] + [error] == ms3 + [request, error];
    AddOptional(t, ms3 + [request, error], p.idle, IDLE_FD, min);
  }

  method AddListens(spawner: Spawner, ghost t: Table, p: Params)
    requires spawner.min == Minimum(p) && spawner.AsPlan() == AddAll(t, Fixed(p), Minimum(p))
    modifies spawner, spawner.manager
    ensures spawner.AsPlan() == AddAll(t, Mappings(p), Minimum(p))
  {
    hide AddMapping, AddAll, Fixed;
    var i := 0;
    ghost var ms := Listens(p.listen);
    assert Fixed(p) + ms[..0] == Fixed(p);
    while i < |p.listen|
      invariant i <= |p.listen|
      invariant spawner.AsPlan() == AddAll(t, Fixed(p) + ms[..i], Minimum(p))
    {
      AddLast(t, Fixed(p) + ms[..i], ms[i], Minimum(p));
      assert Fixed(p) + ms[..i] + [ms[i]] == Fixed(p) + ms[..i + 1];
      spawner.Add(p.listen[i], LISTEN_FD_BASE + i);
      i := i + 1;
    }
    assert ms[..|ms|] == ms;
  }

  // ---- what the helper starts with ----

  predicate Inherits(t: Table, x: nat) {
    x in t && !t[x].cloexec
  }

  ghost predicate IsTarget(p: Params, x: nat) {
    (p.stdin < 0 && x == 0) || exists m :: m in Mappings(p) && m.target == x
  }

  /** Every mapped file at its target, /dev/null for a missing standard input, and
      below `Minimum` nothing else but what exec inherits. */
  ghost predicate Delivered(t: Table, p: Params, devNull: File, h: Table) {
    && (forall m :: m in Mappings(p) ==> m.source in t && m.target in h && h[m.target] == Slot(t[m.source].file, false))
    && (p.stdin < 0 ==> 0 in h && h[0] == Slot(devNull, false))
    && (forall x: nat :: x < Minimum(p) && !IsTarget(p, x) ==> (x in h <==> Inherits(t, x)))
    && (forall x: nat :: x < Minimum(p) && !IsTarget(p, x) && x in h ==> h[x] == t[x])
  }

  /** A closed source from the minimum on whose number a scratch copy will take:
      fewer free numbers lie below it than there are sources to lift. */
  predicate FilledByScratch(t: Table, p: Params, x: nat) {
    x >= Minimum(p) && FreeBelow(t, Minimum(p), x) < LowCount(Mappings(p), Minimum(p))
  }

  /** A spawn succeeds exactly when every source is open or will be filled by a
      scratch copy. */
  lemma SpawnedIff(t: Table, p: Params, devNull: File)
    requires |p.listen| <= MAX_LISTEN_FDS
    ensures
      var ms := Mappings(p);
      Spawned(t, p, devNull).Some? <==>
        forall i :: 0 <= i < |ms| ==> ms[i].source in t || FilledByScratch(t, p, ms[i].source)
  {
    hide Mappings, AddAll, Exec, RunActions, Placed, Extends, AllCarried, Ascending, Below, Open, TakesLowest;
    var ms, min := Mappings(p), Minimum(p);
    MappingsAscend(p);
    PlanWorks(t, ms, min);
    var plan := AddAll(t, ms, min);
    if plan.status == 0 {
      ActionsAscend(t, plan.table, ms, plan.actions, min);
      ActionsPlace(WithNull(plan.table, p, devNull), plan.actions, min);
      ActionsOpenIff(t, p, plan, devNull);
      ScratchIsLowest(t, ms, min);
      SourcesFilled(t, p, plan.table);
    }
  }

  lemma SourcesFilled(t: Table, p: Params, table: Table)
    requires TakesLowest(t, Minimum(p), LowCount(Mappings(p), Minimum(p)), table)
    requires LowOpen(t, Mappings(p), Minimum(p))
    ensures
      var ms, min := Mappings(p), Minimum(p);
      (forall i :: 0 <= i < |ms| && ms[i].source >= min ==> ms[i].source in table) <==>
        forall i :: 0 <= i < |ms| ==> ms[i].source in t || FilledByScratch(t, p, ms[i].source)
  {
    hide Mappings, LowCount, FreeBelow;
  }

  lemma ActionsOpenIff(t: Table, p: Params, plan: Plan, devNull: File)
    requires AllCarried(t, plan.table, Mappings(p), plan.actions, Minimum(p)) && LowOpen(t, Mappings(p), Minimum(p))
    ensures
      var ms, min := Mappings(p), Minimum(p);
      Open(WithNull(plan.table, p, devNull), plan.actions) <==>
        forall i :: 0 <= i < |ms| && ms[i].source >= min ==> ms[i].source in plan.table
  {
    hide Mappings;
    var ms, min := Mappings(p), Minimum(p);
    assert forall i :: 0 <= i < |ms| ==> Carries(t, plan.table, ms[i], plan.actions[i], min);
  }

  lemma ActionsAscend(t: Table, table: Table, ms: seq<Mapping>, actions: seq<Mapping>, min: nat)
    requires AllCarried(t, table, ms, actions, min) && Ascending(ms) && Below(ms, min)
    ensures Ascending(actions) && Below(actions, min)
    ensures forall i :: 0 <= i < |actions| ==> actions[i].source >= min
  {
    assert forall i :: 0 <= i < |ms| ==> Carries(t, table, ms[i], actions[i], min);
  }

  /** If all sources are open, whatever their numbers, the helper gets exactly what
      was asked for. */
  lemma SpawnDelivers(t: Table, p: Params, devNull: File)
    requires |p.listen| <= MAX_LISTEN_FDS && Open(t, Mappings(p))
    ensures Spawned(t, p, devNull).Some? && Delivered(t, p, devNull, Spawned(t, p, devNull).value)
  {
    hide Mappings, AddAll, RunActions, Placed, Extends, AllCarried, Ascending, Below, Delivered, Exec;
    var ms, min := Mappings(p), Minimum(p);
    MappingsAscend(p);
    PlanWorks(t, ms, min);
    var plan := AddAll(t, ms, min);
    var start := WithNull(plan.table, p, devNull);
    assert LowOpen(t, ms, min);
    ActionsAscend(t, plan.table, ms, plan.actions, min);
    ActionsPlace(start, plan.actions, min);
    SourcesOpen(t, p, plan, devNull);
    var r := RunActions(start, plan.actions).value;
    DeliveredAt(t, p, devNull, plan, r);
  }

  lemma SourcesOpen(t: Table, p: Params, plan: Plan, devNull: File)
    requires AllCarried(t, plan.table, Mappings(p), plan.actions, Minimum(p)) && Open(t, Mappings(p))
    ensures Open(WithNull(plan.table, p, devNull), plan.actions)
  {
    hide Mappings;
    assert forall i :: 0 <= i < |plan.actions| ==> Carries(t, plan.table, Mappings(p)[i], plan.actions[i], Minimum(p));
  }

  lemma TargetsHold(t: Table, p: Params, plan: Plan, start: Table, r: Table, m: Mapping)
    requires AllCarried(t, plan.table, Mappings(p), plan.actions, Minimum(p)) && m in Mappings(p) && m.source in t
    requires Placed(start, plan.actions, r)
    requires forall x :: x in plan.table && x >= Minimum(p) ==> x in start && start[x] == plan.table[x]
    ensures m.target in r && r[m.target] == Slot(t[m.source].file, false)
  {
    var ms := Mappings(p);
    hide Mappings;
    var i :| 0 <= i < |ms| && ms[i] == m;
    assert Carries(t, plan.table, ms[i], plan.actions[i], Minimum(p));
  }

  lemma OthersStay(t: Table, p: Params, plan: Plan, start: Table, r: Table, x: nat)
    requires AllCarried(t, plan.table, Mappings(p), plan.actions, Minimum(p)) && Placed(start, plan.actions, r)
    requires forall m :: m in Mappings(p) ==> m.target != x
    ensures x in r <==> x in start
    ensures x in r ==> r[x] == start[x]
  {
    var ms := Mappings(p);
    hide Mappings;
    forall i | 0 <= i < |plan.actions|
      ensures plan.actions[i].target != x
    {
      assert Carries(t, plan.table, ms[i], plan.actions[i], Minimum(p));
      assert ms[i] in ms;
    }
  }

  lemma StartBelow(t: Table, p: Params, devNull: File, plan: Plan, x: nat)
    requires Extends(t, plan.scratch, plan.table, Minimum(p)) && x < Minimum(p) && !(p.stdin < 0 && x == 0)
    ensures
      var start := WithNull(plan.table, p, devNull);
      (x in start <==> x in t) && (x in start ==> start[x] == t[x])
  {
  }

  lemma DeliveredAt(t: Table, p: Params, devNull: File, plan: Plan, r: Table)
    requires AllCarried(t, plan.table, Mappings(p), plan.actions, Minimum(p)) && Open(t, Mappings(p))
    requires Extends(t, plan.scratch, plan.table, Minimum(p))
    requires Placed(WithNull(plan.table, p, devNull), plan.actions, r)
    ensures Delivered(t, p, devNull, Exec(r))
  {
    hide Mappings, Placed, AllCarried, Extends;
    var ms, start := Mappings(p), WithNull(plan.table, p, devNull);
    forall m | m in ms
      ensures m.source in t && m.target in r && r[m.target] == Slot(t[m.source].file, false)
    {
      TargetsHold(t, p, plan, start, r, m);
    }
    if p.stdin < 0 {
      NullIsFree(p);
      OthersStay(t, p, plan, start, r, 0);
    }
    forall x: nat | x < Minimum(p) && !IsTarget(p, x)
      ensures (x in r <==> x in t) && (x in r ==> r[x] == t[x])
    {
      OthersStay(t, p, plan, start, r, x);
      StartBelow(t, p, devNull, plan, x);
    }
  }

  lemma NullIsFree(p: Params)
    requires p.stdin < 0
    ensures forall m :: m in Mappings(p) ==> m.target != 0
  {
  }

  /** 0 to 3 are open, the request is at 4, the error socket pair at 5 and 6. */
  function CrowdedTable(): Table {
    map[0 := Slot(0, false), 1 := Slot(1, false), 2 := Slot(2, false), 3 := Slot(3, true), 4 := Slot(4, true),
        5 := Slot(5, true), 6 := Slot(6, true)]
  }

  /** A closed source can slip through: its number may be the one that a later
      source is lifted to. Here standard input is asked for from the closed number
      7. The request is lifted to 7, and the helper finds it at 0. */
  lemma ClosedSourceAccepted(devNull: File)
    ensures
      var t := CrowdedTable();
      var p := Params(7, -1, -1, -1, [], 4, 6);
      var h := Spawned(t, p, devNull);
      7 !in t && h.Some? && 0 in h.value && h.value[0] == Slot(t[p.request].file, false) && ERROR_FD in h.value
  {
    hide Spawned, RunActions, Exec;
    var t := CrowdedTable();
    var p := Params(7, -1, -1, -1, [], 4, 6);
    var ms := [Mapping(7, 0), Mapping(4, REQUEST_FD), Mapping(6, ERROR_FD)];
    assert Mappings(p) == ms;
    AddLast(t, [], ms[0], 6);
    AddLast(t, [] + [ms[0]], ms[1], 6);
    AddLast(t, [] + [ms[0]] + [ms[1]], ms[2], 6);
    assert [] + [ms[0]] + [ms[1]] + [ms[2]] == ms;
    assert LowestFree(t, 6) == 7;
    var plan := AddAll(t, ms, 6);
    var one := AddMapping(Plan(t, [], [ms[0]], 0), ms[1], 6);
    assert plan == AddMapping(one, ms[2], 6);
    assert one.table[7] == Slot(4, true) && plan.table[7] == Slot(4, true);
    assert plan.actions[0] == Mapping(7, 0) && plan.actions[2] == Mapping(6, ERROR_FD) && plan.status == 0;
    CrowdedIsFilled(p, ms);
    hide AddMapping, AddAll;
    SpawnedIff(t, p, devNull);
    ActionAt(t, p, devNull, plan, 0);
    ActionAt(t, p, devNull, plan, 2);
  }

  lemma CrowdedIsFilled(p: Params, ms: seq<Mapping>)
    requires p == Params(7, -1, -1, -1, [], 4, 6) && Mappings(p) == ms
    requires ms == [Mapping(7, 0), Mapping(4, REQUEST_FD), Mapping(6, ERROR_FD)]
    ensures FilledByScratch(CrowdedTable(), p, 7)
    ensures forall i :: 0 <= i < |ms| ==> ms[i].source in CrowdedTable() || FilledByScratch(CrowdedTable(), p, ms[i].source)
  {
    hide Mappings;
    assert FreeBelow(CrowdedTable(), 6, 7) == 0;
    LowCountLast([], ms[0], 6);
    LowCountLast([] + [ms[0]], ms[1], 6);
    LowCountLast([] + [ms[0]] + [ms[1]], ms[2], 6);
    assert [] + [ms[0]] + [ms[1]] + [ms[2]] == ms;
  }

  lemma LowCountLast(ms: seq<Mapping>, m: Mapping, min: nat)
    ensures LowCount(ms + [m], min) == LowCount(ms, min) + if m.source < min then 1 else 0
  {
    assert (ms + [m])[..|ms|] == ms;
  }

  lemma ActionAt(t: Table, p: Params, devNull: File, plan: Plan, i: nat)
    requires plan == AddAll(t, Mappings(p), Minimum(p)) && plan.status == 0 && |p.listen| <= MAX_LISTEN_FDS
    requires Spawned(t, p, devNull).Some? && p.stdin >= 0 && i < |plan.actions|
    ensures
      var h, a := Spawned(t, p, devNull).value, plan.actions[i];
      a.source in plan.table && a.target in h && h[a.target] == Slot(plan.table[a.source].file, false)
  {
    hide Mappings, AddAll, RunActions, Extends;
    MappingsAscend(p);
    PlanWorks(t, Mappings(p), Minimum(p));
    ActionsAscend(t, plan.table, Mappings(p), plan.actions, Minimum(p));
    ActionsPlace(plan.table, plan.actions, Minimum(p));
  }
}
