/** The invariant of a journal file while it is being written: the objects tile
    the arena, the counters count them, and all chains are in order. `Shadow`
    names the offsets on each chain; it is proof bookkeeping only. */
module JournalState {
  import opened Basics
  import opened JournalFormat
  import opened JournalHashIndex
  import opened JournalChains

  // ---- layout ----

  predicate Aligned(n: nat) {
    n % 8 == 0
  }

  lemma AlignedSum(m: nat, n: nat)
    requires Aligned(m) && Aligned(n)
    ensures Aligned(m + n)
  {
  }

  /** Where the object at `p` ends. */
  function End(heads: map<nat, ObjectHeader>, p: nat): nat
    requires p in heads
  {
    p + Align(heads[p].size)
  }

  predicate Below(p: nat, q: nat) {
    p < q
  }

  /** Objects lie one after the other, 8-aligned, from the end of the header to
      `tail`. */
  ghost predicate Tiled(heads: map<nat, ObjectHeader>, tail: nat) {
    && HEADER_SIZE in heads && tail in heads
    && (forall p :: p in heads ==> HEADER_SIZE <= p <= tail && Aligned(p) && 0 < heads[p].size)
    && (forall p {:trigger End(heads, p)} :: p in heads && p != tail ==> End(heads, p) in heads)
    && (forall p, q {:trigger Below(p, q)} :: p in heads && q in heads && Below(p, q) ==> End(heads, p) <= q)
  }

  lemma AppendKeepsTiled(heads: map<nat, ObjectHeader>, tail: nat, o: ObjectHeader)
    requires Tiled(heads, tail) && 0 < o.size
    ensures forall q :: q in heads ==> q < End(heads, tail)
    ensures Tiled(heads[End(heads, tail) := o], End(heads, tail))
  {
    var p := End(heads, tail);
    var heads' := heads[p := o];
    AlignedSum(tail, Align(heads[tail].size));
    hide Aligned;
    forall q, r | q in heads' && r in heads' && Below(q, r)
      ensures End(heads', q) <= r
    {
      assert Below(q, tail) || q == tail;
    }
    forall q | q in heads' && q != p
      ensures End(heads', q) in heads'
    {
      assert q != tail ==> End(heads, q) in heads;
    }
  }

  /** Every byte of the arena belongs to exactly one object. */
  lemma TilesCover(heads: map<nat, ObjectHeader>, tail: nat, x: nat)
    requires Tiled(heads, tail) && HEADER_SIZE <= x < End(heads, tail)
    ensures exists p :: p in heads && p <= x < End(heads, p)
    ensures forall p, q :: p in heads && q in heads && p <= x < End(heads, p) && q <= x < End(heads, q) ==> p == q
  {
    hide Aligned;
    var p: nat := HEADER_SIZE;
    while x >= End(heads, p)
      invariant p in heads && p <= x
      decreases x - p
    {
      p := End(heads, p);
    }
    assert p in heads && p <= x < End(heads, p);
    assert forall q, r :: q in heads && r in heads && q <= x < End(heads, q) && r <= x < End(heads, r) ==>
      !Below(q, r) && !Below(r, q);
  }

  ghost predicate LayoutOk(h: Header, heads: map<nat, ObjectHeader>) {
    && h.tailObject in heads
    && Tiled(heads, h.tailObject)
    && HEADER_SIZE + h.arenaSize == End(heads, h.tailObject) <= I64_MAX
    && h.nObjects == |heads|
  }

  const DATA_TABLE: nat := HEADER_SIZE
  const FIELD_TABLE: nat := HEADER_SIZE + OBJECT_HEADER_SIZE + HASH_ITEM_SIZE * DATA_BUCKETS

  ghost predicate TablesOk(h: Header, a: Arena) {
    && |a.dataTable| == DATA_BUCKETS
    && |a.fieldTable| == FIELD_BUCKETS
    && h.dataTable == DATA_TABLE + OBJECT_HEADER_SIZE && h.dataTableSize == HASH_ITEM_SIZE * DATA_BUCKETS
    && h.fieldTable == FIELD_TABLE + OBJECT_HEADER_SIZE && h.fieldTableSize == HASH_ITEM_SIZE * FIELD_BUCKETS
  }

  // Every body agrees with its object header.

  ghost predicate FieldsHeaded(heads: map<nat, ObjectHeader>, fields: map<nat, FieldObject>) {
    forall p :: p in fields ==> p in heads && heads[p] == ObjectHeader(FIELD, FieldSize(fields[p].name))
  }

  ghost predicate DatasHeaded(heads: map<nat, ObjectHeader>, datas: map<nat, DataObject>) {
    forall p :: p in datas ==> p in heads && heads[p] == ObjectHeader(DATA, DataSize(datas[p].payload))
  }

  ghost predicate EntriesHeaded(heads: map<nat, ObjectHeader>, entries: map<nat, EntryObject>) {
    forall p :: p in entries ==> p in heads && heads[p] == ObjectHeader(ENTRY, EntrySize(|entries[p].items|))
  }

  ghost predicate ArraysHeaded(heads: map<nat, ObjectHeader>, arrays: map<nat, ArrayObject>) {
    forall p :: p in arrays ==> p in heads && heads[p] == ObjectHeader(ENTRY_ARRAY, ARRAY_SIZE)
  }

  ghost predicate TablesHeaded(heads: map<nat, ObjectHeader>) {
    && DATA_TABLE in heads
    && heads[DATA_TABLE] == ObjectHeader(DATA_HASH_TABLE, OBJECT_HEADER_SIZE + HASH_ITEM_SIZE * DATA_BUCKETS)
    && FIELD_TABLE in heads
    && heads[FIELD_TABLE] == ObjectHeader(FIELD_HASH_TABLE, OBJECT_HEADER_SIZE + HASH_ITEM_SIZE * FIELD_BUCKETS)
  }

  ghost predicate Headed(a: Arena) {
    && TablesHeaded(a.heads)
    && FieldsHeaded(a.heads, a.fields)
    && DatasHeaded(a.heads, a.datas)
    && EntriesHeaded(a.heads, a.entries)
    && ArraysHeaded(a.heads, a.arrays)
  }

  ghost predicate Counters(h: Header, a: Arena) {
    && h.nData == |a.datas|
    && h.nFields == |a.fields|
    && h.nEntryArrays == |a.arrays|
  }

  // ---- the whole invariant ----

  datatype Shadow = Shadow(
    dataChains: seq<seq<nat>>, fieldChains: seq<seq<nat>>,
    keyChains: map<nat, seq<nat>>, keyOwner: map<nat, nat>,
    refChains: map<nat, seq<nat>>, refItems: map<nat, seq<nat>>, refOwner: map<nat, nat>)

  /** Each DATA object is on the chain of the FIELD object with its name. */
  ghost predicate Named(fields: map<nat, FieldObject>, datas: map<nat, DataObject>, owner: map<nat, nat>) {
    forall p :: p in datas ==>
      p in owner && owner[p] in fields && fields[owner[p]].name == KeyOf(datas[p].payload)
  }

  ghost predicate Inv(hash: HashFn, h: Header, a: Arena, s: Shadow) {
    && LayoutOk(h, a.heads)
    && TablesOk(h, a)
    && Headed(a)
    && Counters(h, a)
    && |s.dataChains| == DATA_BUCKETS && |s.fieldChains| == FIELD_BUCKETS
    && HashIndex(hash, DataNodes(a.datas), a.dataTable, s.dataChains)
    && HashIndex(hash, FieldNodes(a.fields), a.fieldTable, s.fieldChains)
    && KeyIndex(FieldHeads(a.fields), FieldNexts(a.datas), s.keyChains, s.keyOwner)
    && Named(a.fields, a.datas, s.keyOwner)
    && RefIndex(RefHeads(a.datas), h.entryArray, a.arrays, s.refChains, s.refItems, s.refOwner)
    && h.tailEntryArray == Last(s.refChains[0])
  }

  /** The entries listed by the DATA object `p`, in order. */
  ghost function EntryList(a: Arena, s: Shadow, p: nat): seq<nat> {
    if p in a.datas && p in s.refItems then
      Listed(RefHead(a.datas[p].entryOffset, a.datas[p].entryArray, a.datas[p].nEntries), s.refItems[p])
    else []
  }

  /** The entries of the file, in order. */
  ghost function FileList(s: Shadow): seq<nat> {
    if 0 in s.refItems then s.refItems[0] else []
  }

  ghost predicate SameLists(a: Arena, s: Shadow, b: Arena, s': Shadow) {
    && FileList(s') == FileList(s)
    && forall p :: EntryList(b, s', p) == EntryList(a, s, p)
  }

  /** Every object header has its body. */
  ghost predicate HasBody(a: Arena, p: nat)
    requires p in a.heads
  {
    match a.heads[p].type_
    case DATA => p in a.datas
    case FIELD => p in a.fields
    case ENTRY => p in a.entries
    case ENTRY_ARRAY => p in a.arrays
    case DATA_HASH_TABLE => p == DATA_TABLE
    case FIELD_HASH_TABLE => p == FIELD_TABLE
  }

  ghost predicate Complete(a: Arena) {
    forall p :: p in a.heads ==> HasBody(a, p)
  }

  /** `b` still holds every object of `a`, with the same content; only pointers
      and counts may have changed. */
  ghost predicate Keeps(a: Arena, b: Arena) {
    && (forall p :: p in a.heads ==> p in b.heads && b.heads[p] == a.heads[p])
    && (forall p :: p in a.fields ==> p in b.fields && b.fields[p].name == a.fields[p].name)
    && (forall p :: p in a.datas ==> p in b.datas && b.datas[p].payload == a.datas[p].payload)
    && (forall p :: p in a.entries ==> p in b.entries && b.entries[p] == a.entries[p])
    && (forall p :: p in a.arrays ==> p in b.arrays && b.arrays[p].item == a.arrays[p].item)
  }

  lemma KeepsTransitive(a: Arena, b: Arena, c: Arena)
    requires Keeps(a, b) && Keeps(b, c)
    ensures Keeps(a, c)
  {
  }

  // ---- a blank object ----

  function AfterZeroObject(h: Header, p: nat, size: nat): Header
    requires HEADER_SIZE <= p
  {
    h.(tailObject := p, nObjects := h.nObjects + 1, arenaSize := p + Align(size) - HEADER_SIZE)
  }

  /** The object that was allocated last and has no body yet. */
  ghost predicate Blank(a: Arena, p: nat, o: ObjectHeader) {
    && p in a.heads && a.heads[p] == o
    && p !in a.fields && p !in a.datas && p !in a.entries && p !in a.arrays
    && (forall q :: q in a.heads ==> q <= p)
  }

  lemma BlankShape(a: Arena, p: nat, o: ObjectHeader)
    requires Headed(a) && forall q :: q in a.heads ==> q < p
    ensures
      var a' := a.(heads := a.heads[p := o]);
      Headed(a') && Blank(a', p, o)
  {
    hide FieldSize, DataSize, EntrySize;
  }

  /** A blank object behind the tail belongs to no chain. */
  lemma BlankKeepsInv(hash: HashFn, h: Header, a: Arena, s: Shadow, o: ObjectHeader)
    requires Inv(hash, h, a, s) && 0 < o.size
    requires End(a.heads, h.tailObject) + Align(o.size) <= I64_MAX
    ensures
      var p := End(a.heads, h.tailObject);
      var a' := a.(heads := a.heads[p := o]);
      && p !in a.heads
      && Inv(hash, AfterZeroObject(h, p, o.size), a', s)
      && Blank(a', p, o)
  {
    hide HashIndex, KeyIndex, RefIndex, Named, Tiled, Align, DataNodes, FieldNodes, FieldHeads, FieldNexts, RefHeads;
    hide Headed, Blank;
    AppendKeepsTiled(a.heads, h.tailObject, o);
    BlankShape(a, End(a.heads, h.tailObject), o);
  }
}
