/** What each operation of the journal writer computes, as a function of the
    header it works on and of the objects in the file. Every error path leaves
    behind whatever had been written before it. */
module JournalSpec {
  import opened Basics
  import opened JournalFormat
  import opened JournalHashIndex
  import opened JournalChains
  import opened JournalState
  import opened JournalSteps

  /** The status of a call, the header and objects it leaves, and its offset. */
  datatype Step = Step(status: Status, h: Header, a: Arena, offset: nat)

  /** `append_zero_object` */
  function AppendZero(h: Header, a: Arena, o: ObjectHeader): Step {
    if h.tailObject != 0 && (h.tailObject !in a.heads || h.tailObject < HEADER_SIZE) then
      Step(Fail(EBADMSG), h, a, 0)
    else
      var p := if h.tailObject == 0 then HEADER_SIZE else End(a.heads, h.tailObject);
      if p + Align(o.size) > I64_MAX then Step(Fail(EFBIG), h, a, 0)
      else Step(Done, AfterZeroObject(h, p, o.size), a.(heads := a.heads[p := o]), p)
  }

  /** The keys from `p` on; a walk to higher offsets makes them fewer. */
  ghost function From(keys: set<nat>, p: nat): set<nat> {
    set q | q in keys && p <= q
  }

  lemma FromShrinks(keys: set<nat>, p: nat, q: nat)
    requires p in keys && p < q
    ensures From(keys, q) < From(keys, p)
  {
    assert p in From(keys, p) && p !in From(keys, q);
  }

  datatype Find = Absent | Found(offset: nat) | Corrupt

  /** `find_field_object` and `find_data_object`: the walk along one bucket. */
  function Walk(nodes: Nodes, p: nat, hash: nat, content: Bytes): Find
    decreases From(nodes.Keys, p)
  {
    if p == 0 then Absent
    else if p !in nodes then Corrupt
    else if nodes[p].hash == hash && nodes[p].content == content then Found(p)
    else if nodes[p].next == 0 then Absent
    else if nodes[p].next <= p then Corrupt
    else
      FromShrinks(nodes.Keys, p, nodes[p].next);
      Walk(nodes, nodes[p].next, hash, content)
  }

  /** The bucket of a hash in the table that the header names, or why there is none. */
  datatype Item = NoItem(error: Error) | ItemAt(bucket: nat)

  /** `hash_item_for`: `table` is what the file holds at the table's offset. A
      bucket behind the end of the file cannot be read. */
  function HashItemFor(offset: nat, size: nat, table: seq<HashItem>, hash: nat): (r: Item)
    ensures r.ItemAt? ==> r.bucket < |table|
  {
    if offset == 0 || size / HASH_ITEM_SIZE == 0 then NoItem(EBADMSG)
    else
      var b := Bucket(hash, size / HASH_ITEM_SIZE);
      if b < |table| then ItemAt(b) else NoItem(EIO)
  }

  /** A search: no bucket to look in, or what the walk along the bucket finds. */
  datatype Search = NoTable(error: Error) | Searched(bucket: nat, find: Find)

  /** `find_field_object` */
  function SearchField(h: Header, a: Arena, hash: nat, name: Bytes): (r: Search)
    ensures r.Searched? ==> r.bucket < |a.fieldTable|
  {
    match HashItemFor(h.fieldTable, h.fieldTableSize, a.fieldTable, hash)
    case NoItem(e) => NoTable(e)
    case ItemAt(b) => Searched(b, Walk(FieldNodes(a.fields), a.fieldTable[b].head, hash, name))
  }

  /** `find_data_object` */
  function SearchData(h: Header, a: Arena, hash: nat, payload: Bytes): (r: Search)
    ensures r.Searched? ==> r.bucket < |a.dataTable|
  {
    match HashItemFor(h.dataTable, h.dataTableSize, a.dataTable, hash)
    case NoItem(e) => NoTable(e)
    case ItemAt(b) => Searched(b, Walk(DataNodes(a.datas), a.dataTable[b].head, hash, payload))
  }

  /** Writes and links the FIELD object allocated by `z`. */
  function AddField(hash: HashFn, z: Step, b: nat, name: Bytes): Step
    requires b < |z.a.fieldTable|
  {
    Step(Done, z.h.(nFields := z.h.nFields + 1),
         WithField(z.a, b, z.offset, FieldObject(hash(name), 0, 0, name)), z.offset)
  }

  /** Writes and links the DATA object allocated by `z` for the FIELD `f`. */
  function AddData(hash: HashFn, z: Step, b: nat, f: nat, payload: Bytes): Step
    requires b < |z.a.dataTable| && f in z.a.fields
  {
    Step(Done, z.h.(nData := z.h.nData + 1),
         WithData(z.a, b, z.offset, f, NewData(z.a, f, hash(payload), payload)), z.offset)
  }

  /** `append_field_object` */
  function AppendField(hash: HashFn, h: Header, a: Arena, name: Bytes): (r: Step)
    ensures r.a.dataTable == a.dataTable
  {
    if !FieldNameValid(name) then Step(Fail(EBADMSG), h, a, 0)
    else
      match SearchField(h, a, hash(name), name)
      case NoTable(e) => Step(Fail(e), h, a, 0)
      case Searched(_, Corrupt) => Step(Fail(EBADMSG), h, a, 0)
      case Searched(_, Found(f)) => Step(Done, h, a, f)
      case Searched(b, Absent) =>
        var z := AppendZero(h, a, ObjectHeader(FIELD, FieldSize(name)));
        if z.status.Fail? then z else AddField(hash, z, b, name)
  }

  /** `append_data_object` */
  function AppendData(hash: HashFn, h: Header, a: Arena, field: JournalField): Step {
    if !FieldNameValid(field.key) then Step(Fail(EBADMSG), h, a, 0)
    else if |field.key| + 1 + |field.value| >= UINT64_MODULUS then Step(Fail(E2BIG), h, a, 0)
    else
      var payload := Payload(field);
      match SearchData(h, a, hash(payload), payload)
      case NoTable(e) => Step(Fail(e), h, a, 0)
      case Searched(_, Corrupt) => Step(Fail(EBADMSG), h, a, 0)
      case Searched(_, Found(d)) => Step(Done, h, a, d)
      case Searched(b, Absent) =>
        var f := AppendField(hash, h, a, field.key);
        if f.status.Fail? then f
        else if f.offset !in f.a.fields then Step(Fail(EBADMSG), f.h, f.a, 0)
        else
          var z := AppendZero(f.h, f.a, ObjectHeader(DATA, DataSize(payload)));
          if z.status.Fail? then z else AddData(hash, z, b, f.offset, payload)
  }

  /** `append_entry_array` */
  function AppendArray(h: Header, a: Arena, entry: nat): Step {
    var z := AppendZero(h, a, ObjectHeader(ENTRY_ARRAY, ARRAY_SIZE));
    if z.status.Fail? then z
    else Step(Done, z.h.(nEntryArrays := z.h.nEntryArrays + 1),
              z.a.(arrays := z.a.arrays[z.offset := ArrayObject(0, entry)]), z.offset)
  }

  /** The walk to the last array of a chain in `append_data_entry_reference`. */
  function LastArray(arrays: ArrayObjects, p: nat): Find
    decreases From(arrays.Keys, p)
  {
    if p !in arrays then Corrupt
    else if arrays[p].next == 0 then Found(p)
    else if arrays[p].next <= p then Corrupt
    else
      FromShrinks(arrays.Keys, p, arrays[p].next);
      LastArray(arrays, arrays[p].next)
  }

  function SetNext(arrays: ArrayObjects, p: nat, next: nat): ArrayObjects {
    if p in arrays then arrays[p := arrays[p].(next := next)] else arrays
  }

  /** `append_data_entry_reference` */
  function AppendDataRef(h: Header, a: Arena, d: nat, entry: nat): Step {
    if d !in a.datas then Step(Fail(EBADMSG), h, a, 0)
    else if a.datas[d].nEntries == 0 then
      Step(Done, h, a.(datas := SetRefs(a.datas, d, RefHead(entry, a.datas[d].entryArray, 1))), 0)
    else
      var z := AppendArray(h, a, entry);
      if z.status.Fail? then z
      else if a.datas[d].entryArray == 0 then
        Step(Done, z.h, z.a.(datas := SetRefs(a.datas, d, NextHead(a.datas[d], z.offset))), 0)
      else
        match LastArray(z.a.arrays, a.datas[d].entryArray)
        case Found(tail) =>
          Step(Done, z.h, z.a.(arrays := SetNext(z.a.arrays, tail, z.offset),
                               datas := SetRefs(a.datas, d, NextHead(a.datas[d], z.offset))), 0)
        case _ => Step(Fail(EBADMSG), z.h, z.a, 0)
  }

  /** `append_global_entry_reference` */
  function AppendGlobalRef(h: Header, a: Arena, entry: nat): Step {
    var z := AppendArray(h, a, entry);
    if z.status.Fail? then z
    else if z.offset > U32_MAX then Step(Fail(EFBIG), z.h, z.a, 0)
    else if h.entryArray == 0 then
      Step(Done, z.h.(entryArray := z.offset, tailEntryArray := z.offset, tailEntryArrayEntries := 1), z.a, 0)
    else if h.tailEntryArray == 0 then Step(Fail(EBADMSG), z.h, z.a, 0)
    else
      Step(Done, z.h.(tailEntryArray := z.offset, tailEntryArrayEntries := 1),
           z.a.(arrays := SetNext(z.a.arrays, h.tailEntryArray, z.offset)), 0)
  }

  // ---- the loops of rustd_journal_file_append ----

  /** Exclusive or of two hashes, bit by bit. */
  function Xor(x: nat, y: nat): nat {
    if x == 0 && y == 0 then 0 else 2 * Xor(x / 2, y / 2) + (x % 2 + y % 2) % 2
  }

  datatype Refs = Refs(step: Step, items: seq<EntryItem>, xorHash: nat)

  /** One DATA object for each of `fields`, in order. */
  function AppendDatas(hash: HashFn, h: Header, a: Arena, fields: seq<JournalField>): Refs {
    if fields == [] then Refs(Step(Done, h, a, 0), [], 0)
    else
      var front := fields[..|fields| - 1];
      var field := fields[|fields| - 1];
      var r := AppendDatas(hash, h, a, front);
      if r.step.status.Fail? then r
      else
        var d := AppendData(hash, r.step.h, r.step.a, field);
        if d.status.Fail? then Refs(d, [], 0)
        else
          var x := hash(Payload(field));
          Refs(d, r.items + [EntryItem(d.offset, x)], Xor(r.xorHash, x))
  }

  /** A reference to `entry` from the DATA object of each of `items`, in order. */
  function AppendDataRefs(h: Header, a: Arena, items: seq<EntryItem>, entry: nat): Step {
    if items == [] then Step(Done, h, a, 0)
    else
      var r := AppendDataRefs(h, a, items[..|items| - 1], entry);
      if r.status.Fail? then r
      else AppendDataRef(r.h, r.a, items[|items| - 1].offset, entry)
  }

  /** What the caller and the clocks supply for one entry. */
  datatype Request = Request(fields: seq<JournalField>, realtime: nat, seqnum: nat, monotonic: nat, bootId: Bytes)

  /** The sequence number an entry gets: the requested one when it advances,
      otherwise the successor of the last one, in 64-bit arithmetic. */
  function NextSeqnum(requested: nat, previous: nat): nat {
    if requested == 0 || requested <= previous then (previous + 1) % UINT64_MODULUS else requested
  }

  function NewEntry(h: Header, r: Refs, q: Request): EntryObject {
    EntryObject(NextSeqnum(q.seqnum, h.tailSeqnum), q.realtime, q.monotonic, q.bootId, r.xorHash, r.items)
  }

  function AfterEntry(h: Header, entry: nat, e: EntryObject): Header {
    var first := h.nEntries == 0;
    h.(nEntries := h.nEntries + 1, tailSeqnum := e.seqnum, tailRealtime := e.realtime, tailMonotonic := e.monotonic,
       tailEntry := entry, tailBootId := e.bootId,
       headSeqnum := if first then e.seqnum else h.headSeqnum,
       headRealtime := if first then e.realtime else h.headRealtime)
  }

  /** The part of `rustd_journal_file_append` between reading and writing the
      file header. */
  function AppendEntry(hash: HashFn, h: Header, a: Arena, q: Request): Step {
    var r := AppendDatas(hash, h, a, q.fields);
    if r.step.status.Fail? then r.step
    else if |q.fields| > (UINT64_MODULUS - 1 - 64) / 16 then Step(Fail(E2BIG), r.step.h, r.step.a, 0)
    else
      var e := NewEntry(r.step.h, r, q);
      var z := AppendZero(r.step.h, r.step.a, ObjectHeader(ENTRY, EntrySize(|q.fields|)));
      if z.status.Fail? then z
      else
        var d := AppendDataRefs(z.h, z.a.(entries := z.a.entries[z.offset := e]), r.items, z.offset);
        if d.status.Fail? then d
        else
          var g := AppendGlobalRef(d.h, d.a, z.offset);
          if g.status.Fail? then g
          else Step(Done, AfterEntry(g.h, z.offset, e), g.a, z.offset)
  }
}
