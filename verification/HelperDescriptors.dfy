/** The helper's part of the descriptor hand-off (ffi/spawn_helper.c) and the whole
    way from the manager to the service. */
module HelperDescriptors {
  import opened Basics
  import opened Errno
  import opened Descriptors
  import opened SpawnDescriptors

  method LiftControlDescriptor(process: Process, fd: nat, min: nat) returns (r: int)
    modifies process
    ensures if fd in old(process.table) then
              && r == LowestFree(old(process.table), min)
              && process.table == old(process.table)[r := Slot(old(process.table)[fd].file, true)] - {fd}
            else r == -EBADF && process.table == old(process.table)
  {
    r := process.DupAbove(fd, min);
    if r < 0 {
      return;
    }
    process.Close(fd);
  }

  /** Where the helper finds the listener that goes to the number `x`. */
  function Origin(x: nat): nat
    requires x >= LISTEN_FDS_START
  {
    x - LISTEN_FDS_START + LISTEN_FD_BASE
  }

  predicate ListenersOpen(t: Table, n: nat) {
    forall x: nat :: LISTEN_FD_BASE <= x < LISTEN_FD_BASE + n ==> x in t
  }

  predicate Final(x: nat, n: nat) {
    LISTEN_FDS_START <= x < LISTEN_FDS_START + n
  }

  /** The first `n` listeners sit at their final numbers. */
  ghost predicate Published(t: Table, n: nat, r: Table) {
    && ListenersOpen(t, n)
    && (forall x: nat :: Final(x, n) ==> x in r && r[x] == Slot(t[Origin(x)].file, false))
    && (forall x: nat :: !Final(x, n) ==> (x in r <==> x in t) && (x in r ==> r[x] == t[x]))
  }

  lemma PublishOne(t: Table, n: nat, r: Table)
    requires Published(t, n, r)
    ensures LISTEN_FD_BASE + n in r <==> LISTEN_FD_BASE + n in t
    ensures LISTEN_FD_BASE + n in t ==>
              Published(t, n + 1, r[LISTEN_FDS_START + n := Slot(r[LISTEN_FD_BASE + n].file, false)])
  {
    assert !Final(LISTEN_FD_BASE + n, n);
    if LISTEN_FD_BASE + n in t {
      var r' := r[LISTEN_FDS_START + n := Slot(r[LISTEN_FD_BASE + n].file, false)];
      assert Origin(LISTEN_FDS_START + n) == LISTEN_FD_BASE + n;
      forall x: nat
        ensures Final(x, n + 1) <==> Final(x, n) || x == LISTEN_FDS_START + n
      {
      }
    }
  }

  /** The listeners moved down, the gap above them closed, the rest untouched. */
  ghost predicate MovedDown(t: Table, n: nat, r: Table) {
    && ListenersOpen(t, n)
    && (forall x: nat :: Final(x, n) ==> x in r && r[x] == Slot(t[Origin(x)].file, false))
    && (forall x: nat :: !Final(x, n) ==> (x in r <==> x in t && !(LISTEN_FDS_START <= x < LISTEN_FD_BASE + n)))
    && (forall x: nat :: !Final(x, n) && x in r ==> r[x] == t[x])
  }

  /** Moving down in ascending order never overwrites a listener that is still to
      be moved, although the two ranges overlap. */
  method PublishListenDescriptors(process: Process, n: nat) returns (ok: bool)
    modifies process
    ensures ok <==> ListenersOpen(old(process.table), n)
    ensures ok ==> MovedDown(old(process.table), n, process.table)
  {
    ghost var t := process.table;
    var i := 0;
    while i < n
      invariant i <= n && Published(t, i, process.table)
    {
      PublishOne(t, i, process.table);
      var r := process.DupTo(LISTEN_FD_BASE + i, LISTEN_FDS_START + i);
      if r < 0 {
        return false;
      }
      i := i + 1;
    }
    ghost var moved := process.table;
    var fd := LISTEN_FDS_START + n;
    while fd < LISTEN_FD_BASE + n
      invariant LISTEN_FDS_START + n <= fd <= LISTEN_FD_BASE + n
      invariant forall x: nat :: x in process.table <==> x in moved && !(LISTEN_FDS_START + n <= x < fd)
      invariant forall x: nat :: x in process.table ==> process.table[x] == moved[x]
    {
      process.Close(fd);
      fd := fd + 1;
    }
    return true;
  }

  /** What the helper needs to find. */
  predicate Equipped(h: Table, n: nat, idle: bool) {
    ERROR_FD in h && (idle ==> IDLE_FD in h) && ListenersOpen(h, n)
  }

  /** Standard descriptors as they were, then the listeners, and nothing else. */
  ghost predicate Served(h: Table, n: nat, s: Table) {
    && ListenersOpen(h, n)
    && (forall x: nat :: x in s <==> (x < 3 && Inherits(h, x)) || Final(x, n))
    && (forall x: nat :: x in s && x < 3 ==> s[x] == h[x])
    && (forall x: nat :: Final(x, n) ==> x in s && s[x] == Slot(h[Origin(x)].file, false))
  }

  predicate Wanted(x: nat, n: nat) {
    x < 3 || LISTEN_FD_BASE <= x < LISTEN_FD_BASE + n
  }

  /** After the closes and lifts: 0-2 and the listeners, and above them only the
      control descriptors, which exec drops. */
  ghost predicate Prepared(h: Table, n: nat, t: Table) {
    && (forall x: nat :: Wanted(x, n) ==> (x in t <==> x in h) && (x in t ==> t[x] == h[x]))
    && (forall x: nat :: x in t && !Wanted(x, n) ==> x >= LISTEN_FD_BASE + n && t[x].cloexec)
  }

  /** The table once everything but the control descriptors is closed. */
  ghost predicate Cleared(h: Table, n: nat, idle: bool, t: Table) {
    && (forall x: nat :: x in t <==> x in h && (Wanted(x, n) || x == ERROR_FD || (idle && x == IDLE_FD)))
    && (forall x: nat :: x in t ==> t[x] == h[x])
  }

  lemma LiftsPrepare(h: Table, n: nat, idle: bool, t: Table, e: nat, i: nat)
    requires Cleared(h, n, idle, t) && ERROR_FD in t && LISTEN_FD_BASE + n <= e
    requires idle ==> IDLE_FD in t && LISTEN_FD_BASE + n <= i
    ensures
      var lifted := t[e := Slot(t[ERROR_FD].file, true)] - {ERROR_FD};
      && (!idle ==> Prepared(h, n, lifted))
      && (idle ==> IDLE_FD in lifted && Prepared(h, n, lifted[i := Slot(t[IDLE_FD].file, true)] - {IDLE_FD}))
  {
  }

  /** The helper's closes and lifts, before the service environment is set up. */
  method PrepareDescriptors(process: Process, n: nat, idle: bool) returns (ok: bool, idleFd: nat)
    modifies process
    ensures ok <==> ERROR_FD in old(process.table) && (idle ==> IDLE_FD in old(process.table))
    ensures ok ==> Prepared(old(process.table), n, process.table)
    ensures ok && idle ==> idleFd >= LISTEN_FD_BASE + n
  {
    var min := LISTEN_FD_BASE + n;
    idleFd := 0;
    process.Close(REQUEST_FD);
    if !idle {
      process.Close(IDLE_FD);
    }
    process.CloseFrom(min);
    ghost var t := process.table;
    assert Cleared(old(process.table), n, idle, t);
    hide Prepared, Cleared;
    ClearedKeeps(old(process.table), n, idle, t);
    var error := LiftControlDescriptor(process, ERROR_FD, min);
    if error < 0 {
      return false, 0;
    }
    if idle {
      var lifted := LiftControlDescriptor(process, IDLE_FD, min);
      if lifted < 0 {
        return false, 0;
      }
      idleFd := lifted;
    }
    LiftsPrepare(old(process.table), n, idle, t, error, idleFd);
    ok := true;
  }

  lemma ClearedKeeps(h: Table, n: nat, idle: bool, t: Table)
    requires Cleared(h, n, idle, t)
    ensures ERROR_FD in t <==> ERROR_FD in h
    ensures idle ==> (IDLE_FD in t <==> IDLE_FD in h)
  {
  }

  lemma ServedAfter(h: Table, n: nat, prepared: Table, published: Table, closed: set<nat>)
    requires Prepared(h, n, prepared) && MovedDown(prepared, n, published)
    requires forall x :: x in closed ==> x >= LISTEN_FD_BASE + n
    ensures Served(h, n, Exec(published - closed))
  {
    SameListeners(h, n, prepared);
    var s := Exec(published - closed);
    forall x: nat | Final(x, n)
      ensures x in s && s[x] == Slot(h[Origin(x)].file, false)
    {
      assert Wanted(Origin(x), n);
    }
    forall x: nat | !Final(x, n)
      ensures x in s <==> x < 3 && Inherits(h, x)
      ensures x in s ==> s[x] == h[x]
    {
      assert x < 3 ==> Wanted(x, n);
    }
  }

  method HelperMain(process: Process, n: nat, idle: bool) returns (ok: bool)
    modifies process
    ensures ok <==> Equipped(old(process.table), n, idle)
    ensures ok ==> Served(old(process.table), n, process.table)
  {
    hide Served, Prepared, MovedDown, ListenersOpen, Exec;
    var idleFd;
    ok, idleFd := PrepareDescriptors(process, n, idle);
    if !ok {
      return;
    }
    ghost var prepared := process.table;
    SameListeners(old(process.table), n, prepared);
    ok := PublishListenDescriptors(process, n);
    if !ok {
      return;
    }
    ghost var published := process.table;
    ghost var closed := if idle then {idleFd} else {};
    if idle {
      process.Close(idleFd);
    }
    assert process.table == published - closed;
    ServedAfter(old(process.table), n, prepared, published, closed);
    process.table := Exec(process.table);
  }

  lemma SameListeners(h: Table, n: nat, t: Table)
    requires Prepared(h, n, t)
    ensures ListenersOpen(t, n) <==> ListenersOpen(h, n)
  {
    assert forall x: nat :: LISTEN_FD_BASE <= x < LISTEN_FD_BASE + n ==> Wanted(x, n);
  }

  // ---- the whole way ----

  /** The file that the service finds at one of 0-2, if any. */
  function Standard(t: Table, p: Params, devNull: File, x: nat): Option<File>
    requires x < 3
  {
    var fd := if x == 0 then p.stdin else if x == 1 then p.stdout else p.stderr;
    if fd >= 0 && fd in t then Some(t[fd].file)
    else if x == 0 then Some(devNull)
    else if Inherits(t, x) then Some(t[x].file)
    else None
  }

  /** The service's table: 0-2, then exactly the listeners in order from 3 on. */
  ghost predicate HandedOver(t: Table, p: Params, devNull: File, s: Table) {
    var n := |p.listen|;
    && (forall x: nat :: x in s <==> (x < 3 && Standard(t, p, devNull, x).Some?) || Final(x, n))
    && (forall x: nat :: x in s && x < 3 ==> s[x] == Slot(Standard(t, p, devNull, x).value, false))
    && (forall i :: 0 <= i < n ==> p.listen[i] in t)
    && (forall x: nat :: Final(x, n) ==> x in s && s[x] == Slot(t[p.listen[x - LISTEN_FDS_START]].file, false))
  }

  /** For every choice of source descriptors, including ones that collide with
      target numbers: if all of them are open, the service starts with exactly the
      table that was asked for, and the manager keeps its own. */
  method SpawnService(manager: Process, p: Params, devNull: File) returns (r: int, service: Option<Process>)
    requires |p.listen| <= MAX_LISTEN_FDS
    modifies manager
    ensures manager.table == old(manager.table)
    ensures Open(old(manager.table), Mappings(p)) ==>
              r == 0 && service.Some? && HandedOver(old(manager.table), p, devNull, service.value.table)
    ensures r != 0 ==> r == -EBADF && !Open(old(manager.table), Mappings(p))
  {
    hide HandedOver, Delivered, Spawned, Mappings, Served, Equipped;
    ghost var t := manager.table;
    if Open(t, Mappings(p)) {
      SpawnDelivers(t, p, devNull);
    }
    r, service := SpawnHelperImage(manager, p, devNull);
    if r != 0 {
      return;
    }
    ghost var h := service.value.table;
    var ok := HelperMain(service.value, |p.listen|, p.idle >= 0);
    if Open(t, Mappings(p)) {
      DeliveredIsEquipped(t, p, devNull, h);
      ServedIsHandedOver(t, p, devNull, h, service.value.table);
    }
    if !ok {
      service := None;
    }
  }

  lemma MappingsHold(p: Params)
    ensures Mapping(p.request, REQUEST_FD) in Mappings(p) && Mapping(p.error, ERROR_FD) in Mappings(p)
    ensures p.stdin >= 0 ==> Mapping(p.stdin, 0) in Mappings(p)
    ensures p.stdout >= 0 ==> Mapping(p.stdout, 1) in Mappings(p)
    ensures p.stderr >= 0 ==> Mapping(p.stderr, 2) in Mappings(p)
    ensures p.idle >= 0 ==> Mapping(p.idle, IDLE_FD) in Mappings(p)
    ensures forall i :: 0 <= i < |p.listen| ==> Mapping(p.listen[i], LISTEN_FD_BASE + i) in Mappings(p)
  {
    forall i | 0 <= i < |p.listen|
      ensures Mapping(p.listen[i], LISTEN_FD_BASE + i) in Mappings(p)
    {
      assert Listens(p.listen)[i] in Listens(p.listen);
    }
  }

  lemma DeliveredIsEquipped(t: Table, p: Params, devNull: File, h: Table)
    requires Delivered(t, p, devNull, h)
    ensures Equipped(h, |p.listen|, p.idle >= 0)
  {
    hide Mappings;
    MappingsHold(p);
    forall x: nat | LISTEN_FD_BASE <= x < LISTEN_FD_BASE + |p.listen|
      ensures x in h
    {
      var i := x - LISTEN_FD_BASE;
      assert Mapping(p.listen[i], LISTEN_FD_BASE + i) in Mappings(p);
    }
  }

  lemma ServedIsHandedOver(t: Table, p: Params, devNull: File, h: Table, s: Table)
    requires Delivered(t, p, devNull, h) && Served(h, |p.listen|, s)
    ensures HandedOver(t, p, devNull, s)
  {
    hide Delivered, Standard, Inherits;
    forall i: nat | i < |p.listen|
      ensures p.listen[i] in t && LISTEN_FDS_START + i in s
      ensures s[LISTEN_FDS_START + i] == Slot(t[p.listen[i]].file, false)
    {
      ListenerServed(t, p, devNull, h, s, i);
    }
    forall x: nat | Final(x, |p.listen|)
      ensures x in s && s[x] == Slot(t[p.listen[x - LISTEN_FDS_START]].file, false)
    {
      assert x == LISTEN_FDS_START + (x - LISTEN_FDS_START);
    }
    forall x: nat | x < 3
      ensures x in s <==> Standard(t, p, devNull, x).Some?
      ensures x in s ==> s[x] == Slot(Standard(t, p, devNull, x).value, false)
    {
      StandardAt(t, p, devNull, h, x);
    }
  }

  lemma ListenerServed(t: Table, p: Params, devNull: File, h: Table, s: Table, i: nat)
    requires Delivered(t, p, devNull, h) && Served(h, |p.listen|, s) && i < |p.listen|
    ensures p.listen[i] in t && LISTEN_FDS_START + i in s
    ensures s[LISTEN_FDS_START + i] == Slot(t[p.listen[i]].file, false)
  {
    hide Delivered;
    ListenerDelivered(t, p, devNull, h, i);
    assert Final(LISTEN_FDS_START + i, |p.listen|);
  }

  lemma ListenerDelivered(t: Table, p: Params, devNull: File, h: Table, i: nat)
    requires Delivered(t, p, devNull, h) && i < |p.listen|
    ensures p.listen[i] in t && LISTEN_FD_BASE + i in h && h[LISTEN_FD_BASE + i].file == t[p.listen[i]].file
  {
    hide Mappings, Inherits;
    MappingsHold(p);
    assert Mapping(p.listen[i], LISTEN_FD_BASE + i) in Mappings(p);
  }

  lemma StandardAt(t: Table, p: Params, devNull: File, h: Table, x: nat)
    requires Delivered(t, p, devNull, h) && x < 3
    ensures Inherits(h, x) <==> Standard(t, p, devNull, x).Some?
    ensures Inherits(h, x) ==> h[x] == Slot(Standard(t, p, devNull, x).value, false)
  {
    MappingsHold(p);
    StandardTargets(p, x);
  }

  lemma StandardTargets(p: Params, x: nat)
    requires x < 3
    ensures IsTarget(p, x) <==>
              (if x == 0 then true else if x == 1 then p.stdout >= 0 else p.stderr >= 0)
  {
    MappingsHold(p);
  }

  /** The closed standard input 7 goes all the way: the helper finds what it needs,
      and the service has the request file at 0. */
  lemma ClosedSourceServed(devNull: File, s: Table)
    ensures
      var t, p := CrowdedTable(), Params(7, -1, -1, -1, [], 4, 6);
      var h := Spawned(t, p, devNull);
      && 7 !in t && h.Some? && Equipped(h.value, |p.listen|, p.idle >= 0)
      && (Served(h.value, |p.listen|, s) ==> 0 in s && s[0] == Slot(t[p.request].file, false))
  {
    hide Spawned;
    ClosedSourceAccepted(devNull);
  }
}
