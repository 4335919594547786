/** A whole spawn (ffi/spawn.c, ffi/spawn_helper.c): the request travels in a file
    that the helper finds at a fixed descriptor, and what the helper reads there
    decides what it does with its descriptors. */
module Spawning {
  import opened Basics
  import opened Descriptors
  import opened SpawnDescriptors
  import opened HelperDescriptors
  import Header = WireHeader
  import Reader = WireReader
  import Sender = WireSpawn
  import Wire = WireRequest

  /** The contents of the files that can be read. */
  type Files = map<File, Bytes>

  // ---- the manager's control descriptors ----

  /** The request file and the two ends of the error socket, at the lowest free
      numbers. */
  datatype Control = Control(table: Table, request: nat, near: nat, error: nat)

  function Controlled(t: Table, memfd: File, near: File, far: File): Control {
    var request := LowestFree(t, 0);
    var t1 := t[request := Slot(memfd, true)];
    var x := LowestFree(t1, 0);
    var t2 := t1[x := Slot(near, true)];
    var y := LowestFree(t2, 0);
    Control(t2[y := Slot(far, true)], request, x, y)
  }

  lemma ControlIsNew(t: Table, memfd: File, near: File, far: File)
    ensures
      var c := Controlled(t, memfd, near, far);
      && c.table - {c.request} - {c.near} - {c.error} == t
      && c.request !in t && c.near !in t && c.error !in t
      && c.request in c.table && c.table[c.request].file == memfd && c.error in c.table
      && (forall x :: x in t ==> x in c.table && c.table[x] == t[x])
      && (forall x :: Inherits(c.table, x) <==> Inherits(t, x))
  {
    var c := Controlled(t, memfd, near, far);
    assert c.table - {c.request} - {c.near} - {c.error} == t;
  }

  // ---- what is asked for ----

  function Numbers(fds: seq<Int32>): (r: seq<nat>)
    requires forall i :: 0 <= i < |fds| ==> fds[i] >= 0
    ensures |r| == |fds| && forall i :: 0 <= i < |r| ==> r[i] == fds[i]
  {
    seq(|fds|, i requires 0 <= i < |fds| => fds[i])
  }

  /** The descriptors that the parameters and the control descriptors name. */
  function Asked(p: Wire.Params, request: nat, error: nat): Params
    requires !Wire.BadDescriptor(p)
  {
    Params(p.stdin, p.stdout, p.stderr, p.idleRead, Numbers(Contents(p.listen)), request, error)
  }

  predicate SourceOpen(t: Table, fd: int) {
    fd >= 0 ==> fd in t
  }

  /** Every descriptor that the caller names is open. */
  predicate SourcesOpen(t: Table, p: Wire.Params) {
    && SourceOpen(t, p.stdin) && SourceOpen(t, p.stdout) && SourceOpen(t, p.stderr) && SourceOpen(t, p.idleRead)
    && forall i :: 0 <= i < |Contents(p.listen)| ==> SourceOpen(t, Contents(p.listen)[i])
  }

  lemma OpenSources(t: Table, p: Wire.Params, c: Control)
    requires !Wire.BadDescriptor(p) && SourcesOpen(t, p) && c.request in c.table && c.error in c.table
    requires forall x :: x in t ==> x in c.table
    ensures Open(c.table, Mappings(Asked(p, c.request, c.error)))
  {
    var a := Asked(p, c.request, c.error);
    var ls := Listens(a.listen);
    forall i | 0 <= i < |ls|
      ensures ls[i].source in c.table
    {
      assert SourceOpen(t, Contents(p.listen)[i]);
    }
  }

  /** The control descriptors do not show: the service gets what it would get if
      the manager had only its own. */
  lemma ControlStaysOut(t: Table, p: Wire.Params, c: Control, devNull: File, s: Table)
    requires !Wire.BadDescriptor(p) && SourcesOpen(t, p)
    requires forall x :: x in t ==> x in c.table && c.table[x] == t[x]
    requires forall x :: Inherits(c.table, x) <==> Inherits(t, x)
    requires HandedOver(c.table, Asked(p, c.request, c.error), devNull, s)
    ensures HandedOver(t, Asked(p, c.request, c.error), devNull, s)
  {
    hide Inherits;
    var a := Asked(p, c.request, c.error);
    forall x: nat | x < 3
      ensures Standard(t, a, devNull, x) == Standard(c.table, a, devNull, x)
    {
      InheritsIsIn(t, x);
      InheritsIsIn(c.table, x);
    }
    forall i | 0 <= i < |a.listen|
      ensures a.listen[i] in t
    {
      assert SourceOpen(t, Contents(p.listen)[i]);
    }
  }

  lemma InheritsIsIn(t: Table, x: nat)
    ensures Inherits(t, x) ==> x in t
  {
  }

  /** A closed standard input whose number is the lowest free one names the request
      file, which takes that number: it is accepted, and the service finds the
      request file at 0. */
  lemma ClosedInputIsRequest(t: Table, p: Wire.Params, memfd: File, near: File, far: File, devNull: File)
    requires !Wire.BadDescriptor(p) && p.stdin == LowestFree(t, 0) && SourcesOpen(t, p.(stdin := -1))
    ensures
      var c := Controlled(t, memfd, near, far);
      var a := Asked(p, c.request, c.error);
      && p.stdin !in t && Open(c.table, Mappings(a))
      && Standard(c.table, a, devNull, 0) == Some(memfd)
  {
    var c := Controlled(t, memfd, near, far);
    ControlIsNew(t, memfd, near, far);
    OpenSources(c.table, p, c);
  }

  // ---- the helper ----

  /** Read the request, then act on the listener count and the idle flag in it. */
  method RunHelper(process: Process, files: Files) returns (ok: bool, request: Option<Wire.Request>)
    modifies process
    ensures
      var h := old(process.table);
      && (request.Some? <==> REQUEST_FD in h && h[REQUEST_FD].file in files && Wire.Decode(files[h[REQUEST_FD].file]).Ok?)
      && (request.Some? ==> request.value == Wire.Decode(files[h[REQUEST_FD].file]).request)
      && (ok <==> request.Some? && Equipped(h, request.value.header.nListenFds,
                                            Header.Bit(request.value.header.flags, Header.HAS_IDLE_GATE)))
      && (ok ==> Served(h, request.value.header.nListenFds, process.table))
  {
    hide Served, Equipped, Wire.Decode;
    ok, request := false, None;
    if REQUEST_FD !in process.table || process.table[REQUEST_FD].file !in files {
      return;
    }
    var decoded := Reader.DecodeRequest(files[process.table[REQUEST_FD].file]);
    if decoded.Error? {
      return;
    }
    request := Some(decoded.request);
    ok := HelperMain(process, decoded.request.header.nListenFds,
                     Header.Bit(decoded.request.header.flags, Header.HAS_IDLE_GATE));
  }

  lemma RequestArrives(p: Wire.Params, notify: Option<Bytes>, c: Control, devNull: File, memfd: File, h: Table)
    requires Wire.Sendable(p, notify) && c.request in c.table && c.table[c.request].file == memfd
    requires Delivered(c.table, Asked(p, c.request, c.error), devNull, h)
    ensures REQUEST_FD in h && h[REQUEST_FD].file == memfd
    ensures
      var d := Wire.Decode(Wire.Blob(p, notify));
      && d.Ok? && Wire.Means(d.request, p, notify)
      && d.request.header.nListenFds == |Contents(p.listen)|
      && (Header.Bit(d.request.header.flags, Header.HAS_IDLE_GATE) <==> p.idleRead >= 0)
  {
    hide Wire.Blob, Wire.Decode, Wire.PayloadStorable, Wire.PayloadOf, Wire.PayloadBytes, Mappings;
    MappingsHold(Asked(p, c.request, c.error));
    Wire.RoundTrip(p, notify);
    assert Wire.FlagBits(p, notify)[Header.HAS_IDLE_GATE] == (p.idleRead >= 0);
  }

  // ---- the whole way ----

  /** Zero exactly when the request can be sent and every source is open, or filled
      by a scratch copy, once the control descriptors are there. If they are open,
      the helper reads back what was asked for and the service starts with exactly
      the asked descriptors; the control descriptors do not show if the sources were
      open before. The manager's table comes back unchanged. */
  method SpawnProcess(manager: Process, p: Wire.Params, notify: Option<Bytes>, files: Files,
                      memfd: File, near: File, far: File, devNull: File)
    returns (r: int, service: Option<Process>, request: Option<Wire.Request>)
    requires Wire.CStrings(p) && Wire.OptionCString(notify)
    modifies manager
    ensures manager.table == old(manager.table)
    ensures
      var c := Controlled(old(manager.table), memfd, near, far);
      r == 0 <==>
        && Wire.Sendable(p, notify)
        && var a := Asked(p, c.request, c.error);
           forall i :: 0 <= i < |Mappings(a)| ==>
             Mappings(a)[i].source in c.table || FilledByScratch(c.table, a, Mappings(a)[i].source)
    ensures r != 0 ==> service.None? && request.None?
    ensures Wire.Sendable(p, notify) ==>
              var c := Controlled(old(manager.table), memfd, near, far);
              var a := Asked(p, c.request, c.error);
              Open(c.table, Mappings(a)) ==>
                && r == 0 && service.Some? && request.Some? && Wire.Means(request.value, p, notify)
                && HandedOver(c.table, a, devNull, service.value.table)
                && (SourcesOpen(old(manager.table), p) ==>
                      HandedOver(old(manager.table), a, devNull, service.value.table))
    ensures Wire.Sendable(p, notify) && SourcesOpen(old(manager.table), p) ==> r == 0 && service.Some?
  {
    hide Wire.Sendable, Wire.BadDescriptor, Wire.Blob, Wire.Decode, Wire.Means, Wire.CStrings, Mappings, Spawned,
         Delivered, HandedOver, Served, Equipped, FilledByScratch, SourcesOpen, Inherits, LowestFree, Numbers, Open;
    service, request := None, None;
    var blob;
    r, blob := Sender.BuildRequest(p, notify);
    if r != 0 {
      return;
    }
    SendableIs(p, notify);
    ghost var t, c := manager.table, Controlled(manager.table, memfd, near, far);
    ControlIsNew(t, memfd, near, far);
    var requestFd := manager.Install(memfd);
    var nearFd := manager.Install(near);
    var errorFd := manager.Install(far);
    var a := Asked(p, requestFd, errorFd);
    r, service := SpawnHelperImage(manager, a, devNull);
    manager.Close(requestFd);
    manager.Close(nearFd);
    manager.Close(errorFd);
    SpawnedIff(c.table, a, devNull);
    if SourcesOpen(t, p) {
      OpenSources(t, p, c);
    }
    if Open(c.table, Mappings(a)) {
      SpawnDelivers(c.table, a, devNull);
    }
    if r != 0 {
      return;
    }
    ghost var h := service.value.table;
    var ok;
    ok, request := RunHelper(service.value, files[memfd := blob[..]]);
    if Open(c.table, Mappings(a)) {
      RequestArrives(p, notify, c, devNull, memfd, h);
      DeliveredIsEquipped(c.table, a, devNull, h);
      ServedIsHandedOver(c.table, a, devNull, h, service.value.table);
      if SourcesOpen(t, p) {
        ControlStaysOut(t, p, c, devNull, service.value.table);
      }
    }
    if !ok {
      service := None;
    }
  }

  lemma SendableIs(p: Wire.Params, notify: Option<Bytes>)
    requires Wire.Sendable(p, notify)
    ensures !Wire.BadDescriptor(p) && |Contents(p.listen)| <= MAX_LISTEN_FDS
  {
    hide Wire.PayloadStorable, Wire.PayloadOf, Wire.PayloadBytes, Wire.CStrings, Wire.Malformed, Wire.BadDescriptor;
  }
}
