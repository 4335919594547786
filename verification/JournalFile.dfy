/** The journal writer as it works on an open file (ffi/journal.c): the header
    is read into a local copy, objects are written in place, and the header is
    written back only when the whole append succeeded. */
module JournalFile {
  import opened Basics
  import opened JournalFormat
  import opened JournalHashIndex
  import opened JournalChains
  import opened JournalState
  import opened JournalSteps
  import opened JournalSpec
  import opened JournalProof
  import opened JournalLog

  /** The keys a walk still has ahead of it. */
  ghost function Ahead(keys: set<nat>, p: nat): set<nat> {
    if p == 0 then {} else From(keys, p)
  }

  // ---- the first fields of the file header ----

  const MAGIC: Bytes := [0x4c, 0x50, 0x4b, 0x53, 0x48, 0x48, 0x52, 0x48]
  const TAIL_ENTRY_BOOT_ID: bv32 := 2

  datatype Prefix = Prefix(signature: Bytes, compatible: bv32, incompatible: bv32, headerSize: nat, machineId: Bytes)

  /** `header_read` */
  method ReadPrefix(f: Prefix) returns (r: Status)
    ensures r.Done? <==> Supported(f)
    ensures r.Fail? ==> r.error == if f.signature != MAGIC then EBADMSG else EPROTONOSUPPORT
  {
    if f.signature != MAGIC {
      return Fail(EBADMSG);
    }
    if f.headerSize < HEADER_SIZE {
      return Fail(EPROTONOSUPPORT);
    }
    if f.incompatible != 0 {
      return Fail(EPROTONOSUPPORT);
    }
    if f.compatible & !TAIL_ENTRY_BOOT_ID != 0 {
      return Fail(EPROTONOSUPPORT);
    }
    return Done;
  }

  /** The writer's own layout, or a longer header with no other feature. */
  predicate Supported(f: Prefix) {
    && f.signature == MAGIC && HEADER_SIZE <= f.headerSize && f.incompatible == 0
    && f.compatible in {0, TAIL_ENTRY_BOOT_ID}
  }

  /** An unknown machine identity excludes no file. */
  predicate OfMachine(f: Prefix, machine: Option<Bytes>) {
    machine.None? || machine.value == f.machineId
  }

  class File {
    const hash: HashFn
    var header: Header
    var arena: Arena

    ghost predicate Intact()
      reads this
    {
      Valid(hash, header, arena)
    }

    ghost function Log(): seq<LogEntry>
      reads this
    {
      if ReadLog(header, arena).Some? then ReadLog(header, arena).value else []
    }

    method AppendZeroObject(h: Header, o: ObjectHeader) returns (r: Status, h': Header, p: nat)
      modifies this`arena
      ensures Step(r, h', arena, p) == AppendZero(h, old(arena), o)
    {
      h', p := h, 0;
      var at: nat := h.tailObject;
      if at == 0 {
        at := HEADER_SIZE;
      } else {
        if at !in arena.heads || at < HEADER_SIZE {
          return Fail(EBADMSG), h, 0;
        }
        at := at + Align(arena.heads[at].size);
      }
      var space := Align(o.size);
      if at + space > I64_MAX {
        return Fail(EFBIG), h, 0;
      }
      arena := arena.(heads := arena.heads[at := o]);
      h' := h.(tailObject := at, nObjects := h.nObjects + 1, arenaSize := at + space - HEADER_SIZE);
      r, p := Done, at;
    }

    method FindFieldObject(h: Header, name: Bytes, hashValue: nat) returns (r: Search)
      ensures r == SearchField(h, arena, hashValue, name)
    {
      var item := HashItemFor(h.fieldTable, h.fieldTableSize, arena.fieldTable, hashValue);
      if item.NoItem? {
        return NoTable(item.error);
      }
      var b := item.bucket;
      var p := arena.fieldTable[b].head;
      while p != 0
        invariant Walk(FieldNodes(arena.fields), p, hashValue, name) ==
                  Walk(FieldNodes(arena.fields), arena.fieldTable[b].head, hashValue, name)
        decreases Ahead(arena.fields.Keys, p)
      {
        if p !in arena.fields {
          return Searched(b, Corrupt);
        }
        var o := arena.fields[p];
        if o.hash == hashValue && o.name == name {
          return Searched(b, Found(p));
        }
        var next := o.nextHash;
        if next != 0 && next <= p {
          return Searched(b, Corrupt);
        }
        assert p in Ahead(arena.fields.Keys, p);
        p := next;
      }
      r := Searched(b, Absent);
    }

    method FindDataObject(h: Header, payload: Bytes, hashValue: nat) returns (r: Search)
      ensures r == SearchData(h, arena, hashValue, payload)
    {
      var item := HashItemFor(h.dataTable, h.dataTableSize, arena.dataTable, hashValue);
      if item.NoItem? {
        return NoTable(item.error);
      }
      var b := item.bucket;
      var p := arena.dataTable[b].head;
      while p != 0
        invariant Walk(DataNodes(arena.datas), p, hashValue, payload) ==
                  Walk(DataNodes(arena.datas), arena.dataTable[b].head, hashValue, payload)
        decreases Ahead(arena.datas.Keys, p)
      {
        if p !in arena.datas {
          return Searched(b, Corrupt);
        }
        var o := arena.datas[p];
        if o.hash == hashValue && o.payload == payload {
          return Searched(b, Found(p));
        }
        var next := o.nextHash;
        if next != 0 && next <= p {
          return Searched(b, Corrupt);
        }
        assert p in Ahead(arena.datas.Keys, p);
        p := next;
      }
      r := Searched(b, Absent);
    }

    /** `link_hash_object` on the FIELD table. */
    method LinkFieldObject(h: Header, hashValue: nat, p: nat) returns (r: Status)
      modifies this`arena
      ensures
        match HashItemFor(h.fieldTable, h.fieldTableSize, old(arena).fieldTable, hashValue)
        case NoItem(e) => r == Fail(e) && arena == old(arena)
        case ItemAt(b) =>
          var tail := old(arena).fieldTable[b].tail;
          && r == Done
          && arena == old(arena).(
            fields := if tail != 0 && tail in old(arena.fields) then old(arena.fields[tail := arena.fields[tail].(nextHash := p)])
                      else old(arena.fields),
            fieldTable := old(arena).fieldTable[b := LinkItem(old(arena).fieldTable[b], p)])
    {
      var found := HashItemFor(h.fieldTable, h.fieldTableSize, arena.fieldTable, hashValue);
      if found.NoItem? {
        return Fail(found.error);
      }
      var item := arena.fieldTable[found.bucket];
      if item.tail == 0 {
        item := item.(head := p);
      } else if item.tail in arena.fields {
        arena := arena.(fields := arena.fields[item.tail := arena.fields[item.tail].(nextHash := p)]);
      }
      item := item.(tail := p);
      arena := arena.(fieldTable := arena.fieldTable[found.bucket := item]);
      return Done;
    }

    /** `link_hash_object` on the DATA table. */
    method LinkDataObject(h: Header, hashValue: nat, p: nat) returns (r: Status)
      modifies this`arena
      ensures
        match HashItemFor(h.dataTable, h.dataTableSize, old(arena).dataTable, hashValue)
        case NoItem(e) => r == Fail(e) && arena == old(arena)
        case ItemAt(b) =>
          var tail := old(arena).dataTable[b].tail;
          && r == Done
          && arena == old(arena).(
            datas := if tail != 0 && tail in old(arena.datas) then old(arena.datas[tail := arena.datas[tail].(nextHash := p)])
                     else old(arena.datas),
            dataTable := old(arena).dataTable[b := LinkItem(old(arena).dataTable[b], p)])
    {
      var found := HashItemFor(h.dataTable, h.dataTableSize, arena.dataTable, hashValue);
      if found.NoItem? {
        return Fail(found.error);
      }
      var item := arena.dataTable[found.bucket];
      if item.tail == 0 {
        item := item.(head := p);
      } else if item.tail in arena.datas {
        arena := arena.(datas := arena.datas[item.tail := arena.datas[item.tail].(nextHash := p)]);
      }
      item := item.(tail := p);
      arena := arena.(dataTable := arena.dataTable[found.bucket := item]);
      return Done;
    }

    method AppendFieldObject(h: Header, name: Bytes) returns (r: Status, h': Header, f: nat)
      modifies this`arena
      ensures Step(r, h', arena, f) == AppendField(hash, h, old(arena), name)
    {
      hide Walk, FieldNameValid, Align, FieldSize, KeyOf, AppendZero;
      h', f := h, 0;
      if !FieldNameValid(name) {
        return Fail(EBADMSG), h, 0;
      }
      var hashValue := hash(name);
      var found := FindFieldObject(h, name, hashValue);
      match found {
        case NoTable(e) => return Fail(e), h, 0;
        case Searched(_, Corrupt) => return Fail(EBADMSG), h, 0;
        case Searched(_, Found(p)) => return Done, h, p;
        case Searched(_, Absent) =>
      }
      AppendZeroTables(h, arena, ObjectHeader(FIELD, FieldSize(name)));
      r, h', f := AppendZeroObject(h, ObjectHeader(FIELD, FieldSize(name)));
      if r.Fail? {
        return;
      }
      ghost var z := Step(r, h', arena, f);
      arena := arena.(fields := arena.fields[f := FieldObject(hashValue, 0, 0, name)]);
      r := LinkFieldObject(h', hashValue, f);
      assert r.Done?;
      h' := h'.(nFields := h'.nFields + 1);
      assert arena.fields == LinkFields(z.a.fields, z.a.fieldTable[found.bucket].tail, f, FieldObject(hashValue, 0, 0, name));
    }

    method AppendDataObject(h: Header, field: JournalField) returns (r: Status, h': Header, d: nat, hashValue: nat)
      modifies this`arena
      ensures Step(r, h', arena, d) == AppendData(hash, h, old(arena), field)
      ensures hashValue == hash(Payload(field))
    {
      hide Walk, FieldNameValid, Align, FieldSize, DataSize, LinkFields, KeyOf, AppendZero;
      var payload := field.key + [EQUALS] + field.value;
      hashValue := hash(payload);
      h', d := h, 0;
      if !FieldNameValid(field.key) {
        return Fail(EBADMSG), h, 0, hashValue;
      }
      if |field.key| + 1 + |field.value| >= UINT64_MODULUS {
        return Fail(E2BIG), h, 0, hashValue;
      }
      var found := FindDataObject(h, payload, hashValue);
      match found {
        case NoTable(e) => return Fail(e), h, 0, hashValue;
        case Searched(_, Corrupt) => return Fail(EBADMSG), h, 0, hashValue;
        case Searched(_, Found(p)) => return Done, h, p, hashValue;
        case Searched(_, Absent) =>
      }
      AppendZeroBodies(h, arena, field.key, ObjectHeader(DATA, DataSize(payload)));
      hide AppendField;
      var f;
      r, h', f := AppendFieldObject(h, field.key);
      if r.Fail? {
        return r, h', f, hashValue;
      }
      if f !in arena.fields {
        return Fail(EBADMSG), h', 0, hashValue;
      }
      var fieldObject := arena.fields[f];
      r, h', d := AppendZeroObject(h', ObjectHeader(DATA, DataSize(payload)));
      if r.Fail? {
        return;
      }
      ghost var z := Step(r, h', arena, d);
      var body := DataObject(hashValue, 0, fieldObject.headData, 0, 0, 0, payload);
      arena := arena.(datas := arena.datas[d := body]);
      r := LinkDataObject(h', hashValue, d);
      assert r.Done?;
      arena := arena.(fields := arena.fields[f := fieldObject.(headData := d)]);
      h' := h'.(nData := h'.nData + 1);
      assert arena == WithData(z.a, found.bucket, d, f, body);
    }

    /** Neither step moves the tables. */
    lemma AppendZeroBodies(h: Header, a: Arena, name: Bytes, o: ObjectHeader)
      ensures
        var f := AppendField(hash, h, a, name);
        var z := AppendZero(f.h, f.a, o);
        && z.a == f.a.(heads := z.a.heads) && z.a.dataTable == a.dataTable
        && z.h.dataTable == h.dataTable && z.h.dataTableSize == h.dataTableSize
    {
      hide Walk, AppendZero, SearchField, FieldSize;
      var f := AppendField(hash, h, a, name);
      AppendZeroTables(f.h, f.a, o);
      AppendZeroTables(h, a, ObjectHeader(FIELD, FieldSize(name)));
    }

    static lemma AppendZeroTables(h: Header, a: Arena, o: ObjectHeader)
      ensures
        var z := AppendZero(h, a, o);
        && z.a == a.(heads := z.a.heads)
        && z.h.dataTable == h.dataTable && z.h.dataTableSize == h.dataTableSize
        && z.h.fieldTable == h.fieldTable && z.h.fieldTableSize == h.fieldTableSize
    {
    }

    method AppendEntryArray(h: Header, entry: nat) returns (r: Status, h': Header, p: nat)
      modifies this`arena
      ensures Step(r, h', arena, p) == AppendArray(h, old(arena), entry)
    {
      r, h', p := AppendZeroObject(h, ObjectHeader(ENTRY_ARRAY, ARRAY_SIZE));
      if r.Fail? {
        return;
      }
      arena := arena.(arrays := arena.arrays[p := ArrayObject(0, entry)]);
      h' := h'.(nEntryArrays := h'.nEntryArrays + 1);
    }

    method AppendDataEntryReference(h: Header, d: nat, entry: nat) returns (r: Status, h': Header)
      modifies this`arena
      ensures Step(r, h', arena, AppendDataRef(h, old(arena), d, entry).offset) == AppendDataRef(h, old(arena), d, entry)
    {
      hide AppendZero;
      h' := h;
      if d !in arena.datas {
        return Fail(EBADMSG), h;
      }
      var data := arena.datas[d];
      var n := data.nEntries;
      if n == 0 {
        arena := arena.(datas := arena.datas[d := data.(entryOffset := entry, nEntries := 1)]);
        return Done, h;
      }
      var newArray;
      r, h', newArray := AppendEntryArray(h, entry);
      ArrayBodies(h, old(arena), entry);
      if r.Fail? {
        return;
      }
      var first := data.entryArray;
      if first == 0 {
        data := data.(entryArray := newArray);
      } else {
        var p := first;
        while true
          invariant arena == AppendArray(h, old(arena), entry).a
          invariant LastArray(arena.arrays, p) == LastArray(arena.arrays, first)
          decreases From(arena.arrays.Keys, p)
        {
          if p !in arena.arrays {
            return Fail(EBADMSG), h';
          }
          var next := arena.arrays[p].next;
          if next == 0 {
            break;
          }
          if next <= p {
            return Fail(EBADMSG), h';
          }
          FromShrinks(arena.arrays.Keys, p, next);
          p := next;
        }
        arena := arena.(arrays := arena.arrays[p := arena.arrays[p].(next := newArray)]);
      }
      arena := arena.(datas := arena.datas[d := data.(nEntries := n + 1)]);
      r := Done;
    }

    static lemma ArrayBodies(h: Header, a: Arena, entry: nat)
      ensures
        var z := AppendArray(h, a, entry);
        z.a == a.(heads := z.a.heads, arrays := z.a.arrays)
    {
    }

    method AppendGlobalEntryReference(h: Header, entry: nat) returns (r: Status, h': Header)
      modifies this`arena
      ensures Step(r, h', arena, AppendGlobalRef(h, old(arena), entry).offset) == AppendGlobalRef(h, old(arena), entry)
    {
      hide AppendZero;
      var newArray;
      r, h', newArray := AppendEntryArray(h, entry);
      if r.Fail? {
        return;
      }
      if newArray > U32_MAX {
        return Fail(EFBIG), h';
      }
      ArrayHeader(h, old(arena), entry);
      if h'.entryArray == 0 {
        h' := h'.(entryArray := newArray);
      } else {
        if h'.tailEntryArray == 0 {
          return Fail(EBADMSG), h';
        }
        if h'.tailEntryArray in arena.arrays {
          arena := arena.(arrays := arena.arrays[h'.tailEntryArray := arena.arrays[h'.tailEntryArray].(next := newArray)]);
        }
      }
      h' := h'.(tailEntryArray := newArray, tailEntryArrayEntries := 1);
    }

    static lemma ArrayHeader(h: Header, a: Arena, entry: nat)
      ensures
        var z := AppendArray(h, a, entry);
        z.h.entryArray == h.entryArray && z.h.tailEntryArray == h.tailEntryArray
    {
    }

    /** `rustd_journal_file_open` for a path that does not exist yet. */
    constructor Open(hash: HashFn, bootId: Bytes)
      ensures this.hash == hash && header == FreshHeader(bootId) && arena == FreshArena()
      ensures Intact() && header.online && Log() == []
    {
      this.hash := hash;
      header := Header(true, 0, 0, 0, 0, 0, 0, 0, 0, 0, 0, 0, 0, 0, 0, bootId, 0, 0, 0, 0, 0, 0);
      arena := Arena(map[], [], [], map[], map[], map[], map[]);
      new;
      var h := header;
      var r, p;
      r, h, p := AppendZeroObject(h, ObjectHeader(DATA_HASH_TABLE, OBJECT_HEADER_SIZE + HASH_ITEM_SIZE * DATA_BUCKETS));
      arena := arena.(dataTable := seq(DATA_BUCKETS, _ => HashItem(0, 0)));
      h := h.(dataTable := p + OBJECT_HEADER_SIZE, dataTableSize := HASH_ITEM_SIZE * DATA_BUCKETS);
      r, h, p := AppendZeroObject(h, ObjectHeader(FIELD_HASH_TABLE, OBJECT_HEADER_SIZE + HASH_ITEM_SIZE * FIELD_BUCKETS));
      arena := arena.(fieldTable := seq(FIELD_BUCKETS, _ => HashItem(0, 0)));
      h := h.(fieldTable := p + OBJECT_HEADER_SIZE, fieldTableSize := HASH_ITEM_SIZE * FIELD_BUCKETS);
      header := h;
      assert arena == FreshArena() && header == FreshHeader(bootId);
      hide Valid, ReadLog, FreshArena, FreshHeader;
      FreshIsValid(hash, bootId);
    }

    /** The loop over the fields of `rustd_journal_file_append`. */
    method AppendDataObjects(h: Header, fields: seq<JournalField>)
      returns (r: Status, h': Header, items: seq<EntryItem>, xorHash: nat, ghost spec: Refs)
      modifies this`arena
      ensures spec == AppendDatas(hash, h, old(arena), fields)
      ensures r == spec.step.status && h' == spec.step.h && arena == spec.step.a
      ensures r.Done? ==> items == spec.items && xorHash == spec.xorHash
    {
      hide AppendData, Payload, Xor;
      r, h', items, xorHash, spec := Done, h, [], 0, Refs(Step(Done, h, arena, 0), [], 0);
      for i := 0 to |fields|
        invariant spec == AppendDatas(hash, h, old(arena), fields[..i])
        invariant r == spec.step.status == Done && h' == spec.step.h && arena == spec.step.a
        invariant items == spec.items && xorHash == spec.xorHash
      {
        assert fields[..i + 1][..i] == fields[..i];
        var offset, hashValue;
        ghost var before := spec;
        r, h', offset, hashValue := AppendDataObject(h', fields[i]);
        spec := AppendDatas(hash, h, old(arena), fields[..i + 1]);
        if r.Fail? {
          FailureStays(h, old(arena), fields, i + 1);
          spec := AppendDatas(hash, h, old(arena), fields);
          return;
        }
        xorHash := Xor(xorHash, hashValue);
        items := items + [EntryItem(offset, hashValue)];
      }
      assert fields[..|fields|] == fields;
    }

    /** A failed field ends the loop. */
    lemma {:induction false} FailureStays(h: Header, a: Arena, fields: seq<JournalField>, i: nat)
      requires i <= |fields| && AppendDatas(hash, h, a, fields[..i]).step.status.Fail?
      ensures AppendDatas(hash, h, a, fields) == AppendDatas(hash, h, a, fields[..i])
      decreases |fields| - i
    {
      hide AppendData;
      if i < |fields| {
        assert fields[..i + 1][..i] == fields[..i];
        FailureStays(h, a, fields, i + 1);
      } else {
        assert fields[..i] == fields;
      }
    }

    /** The loop over the references of `rustd_journal_file_append`. */
    method AppendDataEntryReferences(h: Header, items: seq<EntryItem>, entry: nat) returns (r: Status, h': Header)
      modifies this`arena
      ensures
        var spec := AppendDataRefs(h, old(arena), items, entry);
        r == spec.status && h' == spec.h && arena == spec.a
    {
      hide AppendDataRef;
      r, h' := Done, h;
      for i := 0 to |items|
        invariant
          var spec := AppendDataRefs(h, old(arena), items[..i], entry);
          r == spec.status == Done && h' == spec.h && arena == spec.a
      {
        assert items[..i + 1][..i] == items[..i];
        r, h' := AppendDataEntryReference(h', items[i].offset, entry);
        if r.Fail? {
          RefFailureStays(h, old(arena), items, entry, i + 1);
          return;
        }
      }
      assert items[..|items|] == items;
    }

    static lemma {:induction false} RefFailureStays(h: Header, a: Arena, items: seq<EntryItem>, entry: nat, i: nat)
      requires i <= |items| && AppendDataRefs(h, a, items[..i], entry).status.Fail?
      ensures AppendDataRefs(h, a, items, entry) == AppendDataRefs(h, a, items[..i], entry)
      decreases |items| - i
    {
      hide AppendDataRef;
      if i < |items| {
        assert items[..i + 1][..i] == items[..i];
        RefFailureStays(h, a, items, entry, i + 1);
      } else {
        assert items[..i] == items;
      }
    }

    /** Everything `rustd_journal_file_append` does between reading and writing
        the file header. */
    method WriteEntryObjects(h: Header, q: Request) returns (r: Status, h': Header)
      modifies this`arena
      ensures
        var spec := AppendEntry(hash, h, old(arena), q);
        r == spec.status && h' == spec.h && arena == spec.a
    {
      hide AppendDatas, AppendZero, AppendDataRefs, AppendGlobalRef, EntrySize;
      var items, xorHash;
      ghost var refs;
      r, h', items, xorHash, refs := AppendDataObjects(h, q.fields);
      if r.Fail? {
        return;
      }
      var previous := h'.tailSeqnum;
      var actual := q.seqnum;
      if actual == 0 || actual <= previous {
        actual := (previous + 1) % UINT64_MODULUS;
      }
      if |q.fields| > (UINT64_MODULUS - 1 - 64) / 16 {
        return Fail(E2BIG), h';
      }
      var e := EntryObject(actual, q.realtime, q.monotonic, q.bootId, xorHash, items);
      assert e == NewEntry(refs.step.h, refs, q);
      var entry;
      r, h', entry := AppendZeroObject(h', ObjectHeader(ENTRY, EntrySize(|q.fields|)));
      if r.Fail? {
        return;
      }
      arena := arena.(entries := arena.entries[entry := e]);
      r, h' := AppendDataEntryReferences(h', items, entry);
      if r.Fail? {
        return;
      }
      r, h' := AppendGlobalEntryReference(h', entry);
      if r.Fail? {
        return;
      }
      var count := h'.nEntries + 1;
      h' := h'.(nEntries := count, tailSeqnum := actual, tailRealtime := q.realtime, tailMonotonic := q.monotonic,
                tailEntry := entry, tailBootId := q.bootId);
      if count == 1 {
        h' := h'.(headSeqnum := actual, headRealtime := q.realtime);
      }
    }

    /** `rustd_journal_file_append` */
    method Append(q: Request) returns (r: Status)
      modifies this
      ensures old(!header.online) ==> r == Fail(EBUSY) && header == old(header) && arena == old(arena)
      ensures r.Fail? ==> header == old(header)
      ensures old(Intact() && header.online) ==>
                if r.Done? then
                  && Intact() && header.online && Keeps(old(arena), arena)
                  && Log() == old(Log()) + [NewLogEntry(old(header), q)]
                  && header.tailSeqnum == NextSeqnum(q.seqnum, old(header.tailSeqnum))
                else AppendFailure(old(header), q.fields, r.error)
    {
      hide AppendEntry, Valid, ReadLog, Keeps, AppendFailure;
      if !header.online {
        return Fail(EBUSY);
      }
      ghost var valid := Valid(hash, header, arena);
      if valid {
        AppendExtendsLog(hash, header, arena, q);
      }
      var h;
      r, h := WriteEntryObjects(header, q);
      if r.Done? {
        header := h;
      }
    }

    /** `rustd_journal_file_open` for an existing file, which another process may
        hold and whose first fields are as found on disk. A file in use, one with
        another layout and one of another machine are refused, in that order; any
        other is marked online and keeps its log. */
    method Reopen(held: bool, found: Prefix, machine: Option<Bytes>) returns (r: Status)
      modifies this`header
      ensures r.Done? <==> !held && Supported(found) && OfMachine(found, machine)
      ensures held ==> r == Fail(EBUSY)
      ensures !held && !Supported(found) ==> r == Fail(if found.signature != MAGIC then EBADMSG else EPROTONOSUPPORT)
      ensures !held && Supported(found) && !OfMachine(found, machine) ==> r == Fail(ESTALE)
      ensures header == old(header).(online := r.Done? || old(header.online))
      ensures Intact() <==> old(Intact())
      ensures Log() == old(Log())
    {
      hide Valid;
      if held {
        return Fail(EBUSY);
      }
      r := ReadPrefix(found);
      if r.Fail? {
        return;
      }
      if machine.Some? && machine.value != found.machineId {
        return Fail(ESTALE);
      }
      StateDoesNotMatter(hash, header, arena, true);
      header := header.(online := true);
      return Done;
    }

    /** `rustd_journal_file_close` */
    method Close()
      modifies this`header
      ensures header == old(header).(online := false)
      ensures Intact() <==> old(Intact())
      ensures Log() == old(Log())
    {
      hide Valid;
      StateDoesNotMatter(hash, header, arena, false);
      if header.online {
        header := header.(online := false);
      }
    }

    /** Any run of appends: as long as each one succeeds, the file holds the old
        log followed by one entry per request, in order. */
    method AppendAll(run: seq<Request>) returns (r: Status, n: nat)
      requires Intact() && header.online
      modifies this
      ensures n <= |run| && (r.Done? <==> n == |run|)
      ensures r.Done? ==> Intact() && Keeps(old(arena), arena)
      ensures r.Done? ==> Log() == old(Log()) + Recorded(old(header.tailSeqnum), run)
      ensures r.Fail? ==> AppendFailure(header, run[n].fields, r.error)
    {
      hide Keeps, AppendFailure, Valid, ReadLog, NextSeqnum;
      r, n := Done, 0;
      KeepsItself(arena);
      while n < |run|
        invariant n <= |run| && r.Done? && Intact() && header.online && Keeps(old(arena), arena)
        invariant Log() == old(Log()) + Recorded(old(header.tailSeqnum), run[..n])
        invariant header.tailSeqnum == LastSeqnum(old(header.tailSeqnum), run[..n])
      {
        ghost var before, h := arena, header;
        r := Append(run[n]);
        if r.Fail? {
          return;
        }
        KeepsTransitive(old(arena), before, arena);
        RecordedOneMore(old(header.tailSeqnum), run[..n], run[n]);
        assert run[..n + 1] == run[..n] + [run[n]];
        n := n + 1;
      }
      assert run[..n] == run;
    }
  }

  /** Being online or not is no part of validity. */
  lemma StateDoesNotMatter(hash: HashFn, h: Header, a: Arena, online: bool)
    ensures Valid(hash, h, a) <==> Valid(hash, h.(online := online), a)
  {
    if Valid(hash, h, a) {
      StateKept(hash, h, a, online);
    }
    if Valid(hash, h.(online := online), a) {
      StateKept(hash, h.(online := online), a, h.online);
      assert h.(online := online).(online := h.online) == h;
    }
  }

  lemma StateKept(hash: HashFn, h: Header, a: Arena, online: bool)
    requires Valid(hash, h, a)
    ensures Valid(hash, h.(online := online), a)
  {
    hide HashIndex, KeyIndex, RefIndex, Named, Headed, Tiled, Complete, Indexed, EntriesOk, ReadEntries;
    var s :| Settled(hash, h, a, s);
    assert Settled(hash, h.(online := online), a, s);
  }
}
