/** Why each in-place update of the writer keeps the invariant. */
module JournalSteps {
  import opened Basics
  import opened JournalFormat
  import opened JournalHashIndex
  import opened JournalChains
  import opened JournalState

  /** Every body lies between the file header and the newest object, so 0 can
      mark the end of a chain and a new object is the last of its chains. */
  lemma OffsetsInside(h: Header, a: Arena, p: nat)
    requires LayoutOk(h, a.heads) && Headed(a) && forall q :: q in a.heads ==> q <= p
    ensures 0 < p
    ensures forall q :: q in a.fields ==> 0 < q <= p
    ensures forall q :: q in a.datas ==> 0 < q <= p
    ensures forall q :: q in a.entries ==> 0 < q <= p
    ensures forall q :: q in a.arrays ==> 0 < q <= p
  {
    hide FieldSize, DataSize, EntrySize, Aligned, End;
  }

  // ---- a new FIELD object ----

  /** The FIELD objects after one was written at `p` and linked behind `tail`. */
  function LinkFields(fields: map<nat, FieldObject>, tail: nat, p: nat, f: FieldObject): map<nat, FieldObject> {
    var added := fields[p := f];
    if tail != 0 && tail in added then added[tail := added[tail].(nextHash := p)] else added
  }

  lemma LinkFieldsKeys(fields: map<nat, FieldObject>, tail: nat, p: nat, f: FieldObject)
    requires p !in fields
    ensures
      var fields' := LinkFields(fields, tail, p, f);
      && fields'.Keys == fields.Keys + {p}
      && |fields'| == |fields| + 1
      && fields'[p].name == f.name
      && (forall q :: q in fields ==> fields'[q].name == fields[q].name)
  {
    var fields' := LinkFields(fields, tail, p, f);
    assert fields'.Keys == fields.Keys + {p};
    OneMore(fields, fields', p);
  }

  lemma LinkFieldsNames(fields: map<nat, FieldObject>, tail: nat, p: nat, f: FieldObject)
    requires p !in fields
    ensures forall q :: q in fields ==> q in LinkFields(fields, tail, p, f) && LinkFields(fields, tail, p, f)[q].name == fields[q].name
  {
  }

  lemma LinkFieldsNodes(fields: map<nat, FieldObject>, tail: nat, p: nat, f: FieldObject)
    requires p !in fields
    ensures FieldNodes(LinkFields(fields, tail, p, f)) ==
            LinkNodes(FieldNodes(fields), tail, p, Node(f.hash, f.nextHash, f.name))
  {
  }

  lemma LinkFieldsHeads(fields: map<nat, FieldObject>, tail: nat, p: nat, f: FieldObject)
    requires p !in fields
    ensures FieldHeads(LinkFields(fields, tail, p, f)) == FieldHeads(fields)[p := f.headData]
  {
  }

  function WithField(a: Arena, b: nat, p: nat, f: FieldObject): Arena
    requires b < |a.fieldTable|
  {
    a.(fields := LinkFields(a.fields, a.fieldTable[b].tail, p, f),
       fieldTable := a.fieldTable[b := LinkItem(a.fieldTable[b], p)])
  }

  lemma LinkFieldsHeaded(heads: map<nat, ObjectHeader>, fields: map<nat, FieldObject>, tail: nat, p: nat, f: FieldObject)
    requires FieldsHeaded(heads, fields) && p !in fields
    requires p in heads && heads[p] == ObjectHeader(FIELD, FieldSize(f.name))
    ensures FieldsHeaded(heads, LinkFields(fields, tail, p, f))
  {
    hide FieldSize;
    LinkFieldsKeys(fields, tail, p, f);
    hide LinkFields;
  }

  function FieldShadow(s: Shadow, b: nat, p: nat): Shadow
    requires b < |s.fieldChains|
  {
    s.(fieldChains := s.fieldChains[b := s.fieldChains[b] + [p]], keyChains := s.keyChains[p := []])
  }

  lemma FieldKeepsHash(hash: HashFn, fields: map<nat, FieldObject>, table: seq<HashItem>, chains: seq<seq<nat>>, p: nat, name: Bytes)
    requires HashIndex(hash, FieldNodes(fields), table, chains)
    requires p > 0 && forall q :: q in fields ==> 0 < q < p && fields[q].name != name
    ensures
      var b := Bucket(hash(name), |chains|);
      HashIndex(hash, FieldNodes(LinkFields(fields, table[b].tail, p, FieldObject(hash(name), 0, 0, name))),
                table[b := LinkItem(table[b], p)], chains[b := chains[b] + [p]])
  {
    var b := Bucket(hash(name), |chains|);
    LinkKeepsIndex(hash, FieldNodes(fields), table, chains, p, name);
    LinkFieldsNodes(fields, table[b].tail, p, FieldObject(hash(name), 0, 0, name));
    hide HashIndex, LinkFields, LinkNodes;
  }

  lemma FieldKeepsNames(fields: map<nat, FieldObject>, datas: map<nat, DataObject>, owner: map<nat, nat>, tail: nat, p: nat, f: FieldObject)
    requires Named(fields, datas, owner) && p !in fields
    ensures Named(LinkFields(fields, tail, p, f), datas, owner)
  {
    LinkFieldsKeys(fields, tail, p, f);
    hide LinkFields, KeyOf;
  }

  lemma FieldKeepsInv(hash: HashFn, h: Header, a: Arena, s: Shadow, p: nat, name: Bytes)
    requires Inv(hash, h, a, s) && Blank(a, p, ObjectHeader(FIELD, FieldSize(name)))
    requires forall q :: q in a.fields ==> a.fields[q].name != name
    ensures
      var b := Bucket(hash(name), FIELD_BUCKETS);
      Inv(hash, h.(nFields := h.nFields + 1), WithField(a, b, p, FieldObject(hash(name), 0, 0, name)), FieldShadow(s, b, p))
  {
    hide HashIndex, KeyIndex, RefIndex, Named, Tiled, End, LinkFields;
    hide FieldsHeaded, DatasHeaded, EntriesHeaded, ArraysHeaded, TablesHeaded;
    hide DataNodes, FieldNodes, FieldNexts, RefHeads;
    var f := FieldObject(hash(name), 0, 0, name);
    var b := Bucket(hash(name), FIELD_BUCKETS);
    var tail := a.fieldTable[b].tail;
    OffsetsInside(h, a, p);
    LinkFieldsHeaded(a.heads, a.fields, tail, p, f);
    FieldKeepsHash(hash, a.fields, a.fieldTable, s.fieldChains, p, name);
    FieldKeepsNames(a.fields, a.datas, s.keyOwner, tail, p, f);
    LinkFieldsKeys(a.fields, tail, p, f);
    LinkFieldsHeads(a.fields, tail, p, f);
    AddFieldKeepsKeys(FieldHeads(a.fields), FieldNexts(a.datas), s.keyChains, s.keyOwner, p);
  }

  // ---- a new DATA object ----

  function LinkDatas(datas: map<nat, DataObject>, tail: nat, p: nat, d: DataObject): map<nat, DataObject> {
    var added := datas[p := d];
    if tail != 0 && tail in added then added[tail := added[tail].(nextHash := p)] else added
  }

  lemma LinkDatasKeys(datas: map<nat, DataObject>, tail: nat, p: nat, d: DataObject)
    requires p !in datas
    ensures
      var datas' := LinkDatas(datas, tail, p, d);
      && datas'.Keys == datas.Keys + {p}
      && |datas'| == |datas| + 1
      && datas'[p] == d.(nextHash := datas'[p].nextHash)
      && (forall q :: q in datas ==> datas'[q] == datas[q].(nextHash := datas'[q].nextHash))
  {
    var datas' := LinkDatas(datas, tail, p, d);
    assert datas'.Keys == datas.Keys + {p};
    OneMore(datas, datas', p);
  }

  lemma OneMore<V>(m: map<nat, V>, m': map<nat, V>, p: nat)
    requires p !in m && m'.Keys == m.Keys + {p}
    ensures |m'| == |m| + 1
  {
    assert |m'| == |m'.Keys| && |m| == |m.Keys|;
  }

  lemma LinkDatasPayloads(datas: map<nat, DataObject>, tail: nat, p: nat, d: DataObject)
    requires p !in datas
    ensures forall q :: q in datas ==> q in LinkDatas(datas, tail, p, d) && LinkDatas(datas, tail, p, d)[q].payload == datas[q].payload
  {
  }

  lemma LinkDatasNodes(datas: map<nat, DataObject>, tail: nat, p: nat, d: DataObject)
    requires p !in datas
    ensures DataNodes(LinkDatas(datas, tail, p, d)) ==
            LinkNodes(DataNodes(datas), tail, p, Node(d.hash, d.nextHash, d.payload))
  {
  }

  lemma LinkDatasNexts(datas: map<nat, DataObject>, tail: nat, p: nat, d: DataObject)
    requires p !in datas
    ensures FieldNexts(LinkDatas(datas, tail, p, d)) == FieldNexts(datas)[p := d.nextField]
  {
  }

  lemma LinkDatasRefs(datas: map<nat, DataObject>, tail: nat, p: nat, d: DataObject)
    requires p !in datas
    ensures RefHeads(LinkDatas(datas, tail, p, d)) ==
            RefHeads(datas)[p := RefHead(d.entryOffset, d.entryArray, d.nEntries)]
  {
  }

  function HeadFields(fields: map<nat, FieldObject>, f: nat, p: nat): map<nat, FieldObject>
    requires f in fields
  {
    fields[f := fields[f].(headData := p)]
  }

  lemma HeadFieldsNames(fields: map<nat, FieldObject>, f: nat, p: nat)
    requires f in fields
    ensures forall q :: q in fields ==> q in HeadFields(fields, f, p) && HeadFields(fields, f, p)[q].name == fields[q].name
  {
  }

  lemma HeadFieldsViews(fields: map<nat, FieldObject>, f: nat, p: nat)
    requires f in fields
    ensures HeadFields(fields, f, p).Keys == fields.Keys
    ensures |HeadFields(fields, f, p)| == |fields|
    ensures FieldNodes(HeadFields(fields, f, p)) == FieldNodes(fields)
    ensures FieldHeads(HeadFields(fields, f, p)) == FieldHeads(fields)[f := p]
    ensures forall q :: q in fields ==> HeadFields(fields, f, p)[q].name == fields[q].name
  {
    assert HeadFields(fields, f, p).Keys == fields.Keys;
  }

  function NewData(a: Arena, f: nat, hash: nat, payload: Bytes): DataObject
    requires f in a.fields
  {
    DataObject(hash, 0, a.fields[f].headData, 0, 0, 0, payload)
  }

  function WithData(a: Arena, b: nat, p: nat, f: nat, d: DataObject): Arena
    requires b < |a.dataTable| && f in a.fields
  {
    a.(datas := LinkDatas(a.datas, a.dataTable[b].tail, p, d),
       dataTable := a.dataTable[b := LinkItem(a.dataTable[b], p)],
       fields := HeadFields(a.fields, f, p))
  }

  function DataShadow(s: Shadow, b: nat, p: nat, f: nat): Shadow
    requires b < |s.dataChains| && f in s.keyChains
  {
    s.(dataChains := s.dataChains[b := s.dataChains[b] + [p]],
       keyChains := s.keyChains[f := s.keyChains[f] + [p]], keyOwner := s.keyOwner[p := f],
       refChains := s.refChains[p := []], refItems := s.refItems[p := []])
  }

  lemma LinkDatasHeaded(heads: map<nat, ObjectHeader>, datas: map<nat, DataObject>, tail: nat, p: nat, d: DataObject)
    requires DatasHeaded(heads, datas) && p !in datas
    requires p in heads && heads[p] == ObjectHeader(DATA, DataSize(d.payload))
    ensures DatasHeaded(heads, LinkDatas(datas, tail, p, d))
  {
    hide DataSize;
    LinkDatasKeys(datas, tail, p, d);
    hide LinkDatas;
  }

  lemma HeadFieldsHeaded(heads: map<nat, ObjectHeader>, fields: map<nat, FieldObject>, f: nat, p: nat)
    requires FieldsHeaded(heads, fields) && f in fields
    ensures FieldsHeaded(heads, HeadFields(fields, f, p))
  {
    hide FieldSize;
  }

  lemma DataKeepsHash(hash: HashFn, datas: map<nat, DataObject>, table: seq<HashItem>, chains: seq<seq<nat>>, p: nat, d: DataObject)
    requires HashIndex(hash, DataNodes(datas), table, chains)
    requires d.hash == hash(d.payload) && d.nextHash == 0
    requires p > 0 && forall q :: q in datas ==> 0 < q < p && datas[q].payload != d.payload
    ensures
      var b := Bucket(hash(d.payload), |chains|);
      HashIndex(hash, DataNodes(LinkDatas(datas, table[b].tail, p, d)),
                table[b := LinkItem(table[b], p)], chains[b := chains[b] + [p]])
  {
    var b := Bucket(hash(d.payload), |chains|);
    LinkKeepsIndex(hash, DataNodes(datas), table, chains, p, d.payload);
    LinkDatasNodes(datas, table[b].tail, p, d);
    hide HashIndex, LinkDatas, LinkNodes;
  }

  lemma DataKeepsNames(fields: map<nat, FieldObject>, datas: map<nat, DataObject>, owner: map<nat, nat>, tail: nat, p: nat, f: nat, d: DataObject)
    requires Named(fields, datas, owner) && p !in datas
    requires f in fields && fields[f].name == KeyOf(d.payload)
    ensures Named(HeadFields(fields, f, p), LinkDatas(datas, tail, p, d), owner[p := f])
  {
    hide KeyOf, FieldNodes, FieldHeads;
    var fields' := HeadFields(fields, f, p);
    var datas' := LinkDatas(datas, tail, p, d);
    LinkDatasKeys(datas, tail, p, d);
    assert forall g :: g in fields ==> g in fields' && fields'[g].name == fields[g].name;
    hide LinkDatas, HeadFields;
    forall q | q in datas'
      ensures q in owner[p := f] && owner[p := f][q] in fields'
      ensures fields'[owner[p := f][q]].name == KeyOf(datas'[q].payload)
    {
      if q != p {
        assert q in datas && datas'[q].payload == datas[q].payload;
      }
    }
  }

  lemma DataKeepsKeys(fields: map<nat, FieldObject>, datas: map<nat, DataObject>, s: Shadow, tail: nat, p: nat, f: nat, d: DataObject)
    requires KeyIndex(FieldHeads(fields), FieldNexts(datas), s.keyChains, s.keyOwner)
    requires f in fields && d.nextField == fields[f].headData
    requires p > 0 && forall q :: q in datas ==> q < p
    ensures f in s.keyChains
    ensures KeyIndex(FieldHeads(HeadFields(fields, f, p)), FieldNexts(LinkDatas(datas, tail, p, d)),
                     s.keyChains[f := s.keyChains[f] + [p]], s.keyOwner[p := f])
  {
    AddDataKeepsKeys(FieldHeads(fields), FieldNexts(datas), s.keyChains, s.keyOwner, f, p);
    HeadFieldsViews(fields, f, p);
    LinkDatasNexts(datas, tail, p, d);
    hide LinkDatas, HeadFields;
  }

  lemma DataKeepsRefs(datas: map<nat, DataObject>, global: nat, arrays: ArrayObjects, s: Shadow, tail: nat, p: nat, d: DataObject)
    requires RefIndex(RefHeads(datas), global, arrays, s.refChains, s.refItems, s.refOwner)
    requires p > 0 && p !in datas && d.entryOffset == 0 && d.entryArray == 0 && d.nEntries == 0
    ensures RefIndex(RefHeads(LinkDatas(datas, tail, p, d)), global, arrays, s.refChains[p := []], s.refItems[p := []], s.refOwner)
    ensures Last(s.refChains[p := []][0]) == Last(s.refChains[0])
  {
    AddDataKeepsRefs(RefHeads(datas), global, arrays, s.refChains, s.refItems, s.refOwner, p);
    LinkDatasRefs(datas, tail, p, d);
    hide LinkDatas, Lists, Chained, Owned;
  }

  lemma DataKeepsInv(hash: HashFn, h: Header, a: Arena, s: Shadow, p: nat, f: nat, payload: Bytes)
    requires Inv(hash, h, a, s) && Blank(a, p, ObjectHeader(DATA, DataSize(payload)))
    requires f in a.fields && a.fields[f].name == KeyOf(payload)
    requires forall q :: q in a.datas ==> a.datas[q].payload != payload
    ensures
      var b := Bucket(hash(payload), DATA_BUCKETS);
      && f in s.keyChains
      && Inv(hash, h.(nData := h.nData + 1), WithData(a, b, p, f, NewData(a, f, hash(payload), payload)), DataShadow(s, b, p, f))
  {
    hide HashIndex, KeyIndex, RefIndex, Named, Tiled, End, LinkDatas, HeadFields, KeyOf;
    hide FieldsHeaded, DatasHeaded, EntriesHeaded, ArraysHeaded, TablesHeaded;
    hide DataNodes, FieldNodes, FieldNexts, FieldHeads, RefHeads;
    var d := NewData(a, f, hash(payload), payload);
    var b := Bucket(hash(payload), DATA_BUCKETS);
    var tail := a.dataTable[b].tail;
    OffsetsInside(h, a, p);
    LinkDatasHeaded(a.heads, a.datas, tail, p, d);
    HeadFieldsHeaded(a.heads, a.fields, f, p);
    DataKeepsHash(hash, a.datas, a.dataTable, s.dataChains, p, d);
    DataKeepsNames(a.fields, a.datas, s.keyOwner, tail, p, f, d);
    DataKeepsKeys(a.fields, a.datas, s, tail, p, f, d);
    DataKeepsRefs(a.datas, h.entryArray, a.arrays, s, tail, p, d);
    LinkDatasKeys(a.datas, tail, p, d);
    HeadFieldsViews(a.fields, f, p);
  }

  // ---- a new ENTRY object ----

  lemma EntryKeepsInv(hash: HashFn, h: Header, a: Arena, s: Shadow, p: nat, e: EntryObject)
    requires Inv(hash, h, a, s) && Blank(a, p, ObjectHeader(ENTRY, EntrySize(|e.items|)))
    ensures Inv(hash, h, a.(entries := a.entries[p := e]), s)
  {
    hide HashIndex, KeyIndex, RefIndex, Named, Tiled, End, EntrySize;
    hide FieldsHeaded, DatasHeaded, ArraysHeaded, TablesHeaded;
    hide DataNodes, FieldNodes, FieldNexts, FieldHeads, RefHeads;
  }

  // ---- references from DATA objects and from the file to an entry ----

  /** Rewrites the entry list head of the DATA object `p`. */
  function SetRefs(datas: map<nat, DataObject>, p: nat, r: RefHead): map<nat, DataObject>
    requires p in datas
  {
    datas[p := datas[p].(entryOffset := r.first, entryArray := r.chain, nEntries := r.count)]
  }

  lemma SetRefsViews(datas: map<nat, DataObject>, p: nat, r: RefHead)
    requires p in datas
    ensures
      var datas' := SetRefs(datas, p, r);
      && datas'.Keys == datas.Keys && |datas'| == |datas|
      && DataNodes(datas') == DataNodes(datas)
      && FieldNexts(datas') == FieldNexts(datas)
      && RefHeads(datas') == RefHeads(datas)[p := r]
  {
    assert SetRefs(datas, p, r).Keys == datas.Keys;
  }

  lemma SetRefsHeaded(heads: map<nat, ObjectHeader>, datas: map<nat, DataObject>, p: nat, r: RefHead)
    requires p in datas && DatasHeaded(heads, datas)
    ensures DatasHeaded(heads, SetRefs(datas, p, r))
  {
    hide DataSize;
  }

  lemma SetRefsNamed(fields: map<nat, FieldObject>, datas: map<nat, DataObject>, owner: map<nat, nat>, p: nat, r: RefHead)
    requires p in datas && Named(fields, datas, owner)
    ensures Named(fields, SetRefs(datas, p, r), owner)
  {
    hide KeyOf;
    forall q | q in SetRefs(datas, p, r)
      ensures q in owner && owner[q] in fields && fields[owner[q]].name == KeyOf(SetRefs(datas, p, r)[q].payload)
    {
      assert q in datas && SetRefs(datas, p, r)[q].payload == datas[q].payload;
    }
  }

  /** Rewriting an entry list head touches nothing but the entry lists. */
  lemma SetRefsKeepsInv(hash: HashFn, h: Header, a: Arena, s: Shadow, p: nat, r: RefHead,
                        h': Header, arrays: ArrayObjects, s': Shadow)
    requires Inv(hash, h, a, s) && p in a.datas
    requires h' == h.(nEntryArrays := |arrays|) && ArraysHeaded(a.heads, arrays)
    requires s' == s.(refChains := s'.refChains, refItems := s'.refItems, refOwner := s'.refOwner)
    requires RefIndex(RefHeads(a.datas)[p := r], h.entryArray, arrays, s'.refChains, s'.refItems, s'.refOwner)
    requires Last(s'.refChains[0]) == h.tailEntryArray
    ensures Inv(hash, h', a.(arrays := arrays, datas := SetRefs(a.datas, p, r)), s')
  {
    hide HashIndex, KeyIndex, Named, Tiled, End, KeyOf, RefIndex, SetRefs;
    hide FieldsHeaded, DatasHeaded, EntriesHeaded, ArraysHeaded, TablesHeaded;
    hide DataNodes, FieldNodes, FieldNexts, FieldHeads, RefHeads;
    SetRefsViews(a.datas, p, r);
    SetRefsHeaded(a.heads, a.datas, p, r);
    SetRefsNamed(a.fields, a.datas, s.keyOwner, p, r);
  }

  lemma RefHeadOf(datas: map<nat, DataObject>, p: nat)
    requires p in datas
    ensures p in RefHeads(datas)
    ensures RefHeads(datas)[p] == RefHead(datas[p].entryOffset, datas[p].entryArray, datas[p].nEntries)
  {
  }

  lemma RefIndexKeys(heads: map<nat, RefHead>, global: nat, arrays: ArrayObjects,
                     chains: map<nat, seq<nat>>, items: map<nat, seq<nat>>, owner: map<nat, nat>)
    requires RefIndex(heads, global, arrays, chains, items, owner)
    ensures chains.Keys == items.Keys == heads.Keys + {0} && 0 !in heads
  {
  }

  lemma FirstRefKeepsInv(hash: HashFn, h: Header, a: Arena, s: Shadow, p: nat, entry: nat)
    requires Inv(hash, h, a, s) && p in a.datas && a.datas[p].nEntries == 0
    ensures Inv(hash, h, a.(datas := SetRefs(a.datas, p, RefHead(entry, a.datas[p].entryArray, 1))), s)
  {
    hide HashIndex, KeyIndex, Named, Tiled, End, KeyOf, RefIndex, RefHeads, SetRefs, Headed;
    hide DataNodes, FieldNodes, FieldNexts, FieldHeads;
    RefHeadOf(a.datas, p);
    RefIndexKeys(RefHeads(a.datas), h.entryArray, a.arrays, s.refChains, s.refItems, s.refOwner);
    FirstRefKeepsRefs(RefHeads(a.datas), h.entryArray, a.arrays, s.refChains, s.refItems, s.refOwner, p, entry);
    assert ArraysHeaded(a.heads, a.arrays) by {
      HeadedParts(a);
    }
    SetRefsKeepsInv(hash, h, a, s, p, RefHead(entry, a.datas[p].entryArray, 1), h, a.arrays, s);
  }

  lemma HeadedParts(a: Arena)
    requires Headed(a)
    ensures ArraysHeaded(a.heads, a.arrays)
  {
  }

  lemma LinkArrayKeys(heads: map<nat, ObjectHeader>, arrays: ArrayObjects, tail: nat, p: nat, entry: nat)
    requires ArraysHeaded(heads, arrays) && p !in arrays
    requires p in heads && heads[p] == ObjectHeader(ENTRY_ARRAY, ARRAY_SIZE)
    ensures ArraysHeaded(heads, LinkArray(arrays, tail, p, entry))
    ensures |LinkArray(arrays, tail, p, entry)| == |arrays| + 1
  {
  }

  function NextHead(d: DataObject, p: nat): RefHead {
    RefHead(d.entryOffset, if d.entryArray == 0 then p else d.entryArray, d.nEntries + 1)
  }

  function RefShadow(s: Shadow, k: nat, p: nat, entry: nat): Shadow
    requires k in s.refChains && k in s.refItems
  {
    s.(refChains := s.refChains[k := s.refChains[k] + [p]],
       refItems := s.refItems[k := s.refItems[k] + [entry]],
       refOwner := s.refOwner[p := k])
  }

  lemma NextRefKeepsInv(hash: HashFn, h: Header, a: Arena, s: Shadow, k: nat, p: nat, entry: nat)
    requires Inv(hash, h, a, s) && Blank(a, p, ObjectHeader(ENTRY_ARRAY, ARRAY_SIZE))
    requires k in a.datas && a.datas[k].nEntries > 0
    ensures k in s.refChains && k in s.refItems
    ensures Inv(hash, h.(nEntryArrays := h.nEntryArrays + 1),
                a.(arrays := LinkArray(a.arrays, Last(s.refChains[k]), p, entry),
                   datas := SetRefs(a.datas, k, NextHead(a.datas[k], p))),
                RefShadow(s, k, p, entry))
  {
    hide HashIndex, KeyIndex, Named, Tiled, End, KeyOf, RefIndex, RefHeads, SetRefs, LinkArray, Headed;
    hide DataNodes, FieldNodes, FieldNexts, FieldHeads;
    RefHeadOf(a.datas, k);
    RefIndexKeys(RefHeads(a.datas), h.entryArray, a.arrays, s.refChains, s.refItems, s.refOwner);
    OffsetsInside(h, a, p);
    HeadedParts(a);
    LinkArrayKeys(a.heads, a.arrays, Last(s.refChains[k]), p, entry);
    ExtendData(RefHeads(a.datas), h.entryArray, a.arrays, s.refChains, s.refItems, s.refOwner, k, p, entry);
    SetRefsKeepsInv(hash, h, a, s, k, NextHead(a.datas[k], p), h.(nEntryArrays := h.nEntryArrays + 1),
                    LinkArray(a.arrays, Last(s.refChains[k]), p, entry), RefShadow(s, k, p, entry));
  }

  lemma GlobalRefKeepsInv(hash: HashFn, h: Header, a: Arena, s: Shadow, p: nat, entry: nat)
    requires Inv(hash, h, a, s) && Blank(a, p, ObjectHeader(ENTRY_ARRAY, ARRAY_SIZE))
    ensures 0 in s.refChains && 0 in s.refItems
    ensures
      Inv(hash, h.(nEntryArrays := h.nEntryArrays + 1, entryArray := if h.entryArray == 0 then p else h.entryArray,
                   tailEntryArray := p),
          a.(arrays := LinkArray(a.arrays, h.tailEntryArray, p, entry)), RefShadow(s, 0, p, entry))
  {
    hide HashIndex, KeyIndex, RefIndex, Named, Tiled, End, KeyOf, LinkArray, Last;
    hide FieldsHeaded, DatasHeaded, EntriesHeaded, ArraysHeaded, TablesHeaded;
    hide DataNodes, FieldNodes, FieldNexts, FieldHeads, RefHeads;
    OffsetsInside(h, a, p);
    GlobalIsThere(RefHeads(a.datas), h.entryArray, a.arrays, s);
    LinkArrayKeys(a.heads, a.arrays, Last(s.refChains[0]), p, entry);
    ExtendGlobal(RefHeads(a.datas), h.entryArray, a.arrays, s.refChains, s.refItems, s.refOwner, p, entry);
    LastOfLonger(s.refChains[0], p);
  }

  lemma GlobalIsThere(heads: map<nat, RefHead>, global: nat, arrays: ArrayObjects, s: Shadow)
    requires RefIndex(heads, global, arrays, s.refChains, s.refItems, s.refOwner)
    ensures 0 in s.refChains && 0 in s.refItems
  {
    hide Chained, Lists, Owned;
  }

  lemma LastOfLonger(c: seq<nat>, p: nat)
    ensures Last(c + [p]) == p
  {
  }
}
