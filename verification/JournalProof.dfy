/** Every operation of the writer, started on a file that satisfies the
    invariant, keeps it; the corruption checks of the source never fire. */
module JournalProof {
  import opened Basics
  import opened JournalFormat
  import opened JournalHashIndex
  import opened JournalChains
  import opened JournalState
  import opened JournalSteps
  import opened JournalSpec

  // ---- walks along chains ----

  /** From position `i` of a chain, the walk finds the first match, if any. */
  lemma {:induction false} WalkFrom(nodes: Nodes, c: seq<nat>, item: HashItem, i: nat, hash: nat, content: Bytes)
    requires Linked(nodes, c, item) && i <= |c|
    requires forall j :: 0 <= j < |c| && nodes[c[j]].content == content ==> nodes[c[j]].hash == hash
    ensures
      match Walk(nodes, At(c, i), hash, content)
      case Corrupt => false
      case Found(p) => p in nodes && nodes[p].content == content
      case Absent => forall j :: i <= j < |c| ==> nodes[c[j]].content != content
    decreases |c| - i
  {
    if i < |c| {
      var p := c[i];
      assert nodes[p].next == At(c, i + 1);
      if !(nodes[p].hash == hash && nodes[p].content == content) && i + 1 < |c| {
        assert c[i] < c[i + 1];
        WalkFrom(nodes, c, item, i + 1, hash, content);
      }
    }
  }

  /** `find_*_object` succeeds exactly when the content is stored, and never
      reports a corrupt chain. */
  lemma WalkFinds(hash: HashFn, nodes: Nodes, table: seq<HashItem>, chains: seq<seq<nat>>, content: Bytes)
    requires HashIndex(hash, nodes, table, chains)
    ensures
      match Walk(nodes, table[Bucket(hash(content), |chains|)].head, hash(content), content)
      case Corrupt => false
      case Found(p) => p in nodes && nodes[p].content == content
      case Absent => forall p :: p in nodes ==> nodes[p].content != content
  {
    hide Walk, Linked, Bucket;
    var b := Bucket(hash(content), |chains|);
    var c := chains[b];
    assert Linked(nodes, c, table[b]);
    HeadIsFirst(nodes, c, table[b]);
    forall i | 0 <= i < |c|
      ensures c[i] in nodes && nodes[c[i]].hash == hash(nodes[c[i]].content)
    {
      assert c[i] in nodes;
    }
    WalkFrom(nodes, c, table[b], 0, hash(content), content);
    if forall j :: 0 <= j < |c| ==> nodes[c[j]].content != content {
      AbsentEverywhere(hash, nodes, table, chains, content);
    }
  }

  lemma HeadIsFirst(nodes: Nodes, c: seq<nat>, item: HashItem)
    requires Linked(nodes, c, item)
    ensures item.head == At(c, 0)
  {
  }

  /** What is not in its bucket is nowhere. */
  lemma AbsentEverywhere(hash: HashFn, nodes: Nodes, table: seq<HashItem>, chains: seq<seq<nat>>, content: Bytes)
    requires HashIndex(hash, nodes, table, chains)
    requires
      var c := chains[Bucket(hash(content), |chains|)];
      forall j :: 0 <= j < |c| ==> c[j] in nodes && nodes[c[j]].content != content
    ensures forall p :: p in nodes ==> nodes[p].content != content
  {
    hide Linked, Bucket;
    forall p | p in nodes
      ensures nodes[p].content != content
    {
      assert p in chains[Bucket(nodes[p].hash, |chains|)];
    }
  }

  lemma {:induction false} LastArrayFrom(arrays: ArrayObjects, c: seq<nat>, items: seq<nat>, head: nat, i: nat)
    requires Chained(arrays, c, items, head) && i < |c|
    ensures LastArray(arrays, c[i]) == Found(Last(c))
    decreases |c| - i
  {
    assert arrays[c[i]].next == At(c, i + 1);
    if i + 1 < |c| {
      assert c[i] < c[i + 1];
      LastArrayFrom(arrays, c, items, head, i + 1);
    }
  }

  // ---- one object at a time ----

  ghost predicate TooBig(h: Header, size: nat) {
    HEADER_SIZE + h.arenaSize + Align(size) > I64_MAX
  }

  /** `append_zero_object` fails only when the file would pass 2^63 bytes. */
  lemma AppendZeroOk(hash: HashFn, h: Header, a: Arena, s: Shadow, o: ObjectHeader)
    requires Inv(hash, h, a, s) && 0 < o.size
    ensures
      var z := AppendZero(h, a, o);
      if TooBig(h, o.size) then z == Step(Fail(EFBIG), h, a, 0)
      else
        && z.status.Done? && HEADER_SIZE <= z.offset && z.offset !in a.heads
        && z.h == AfterZeroObject(h, z.offset, o.size)
        && z.h.arenaSize == h.arenaSize + Align(o.size)
        && z.a == a.(heads := a.heads[z.offset := o])
        && Inv(hash, z.h, z.a, s) && Blank(z.a, z.offset, o)
        && z.offset !in a.fields && z.offset !in a.datas && z.offset !in a.entries && z.offset !in a.arrays
        && (forall q :: q in a.heads ==> q < z.offset)
  {
    hide HashIndex, KeyIndex, RefIndex, Named, Headed, Counters, DataNodes, FieldNodes, FieldHeads, FieldNexts, RefHeads;
    hide Align, Aligned;
    assert HEADER_SIZE <= h.tailObject;
    hide Tiled;
    if !TooBig(h, o.size) {
      BlankKeepsInv(hash, h, a, s, o);
    }
  }

  /** The header fields that describe the entries are untouched. */
  ghost predicate SameLog(h: Header, h': Header) {
    h' == h.(tailObject := h'.tailObject, nObjects := h'.nObjects, arenaSize := h'.arenaSize,
             nData := h'.nData, nFields := h'.nFields, nEntryArrays := h'.nEntryArrays)
  }

  lemma NewFieldComplete(a: Arena, z: Arena, b: nat, p: nat, f: FieldObject)
    requires Complete(a) && p !in a.fields && b < |a.fieldTable|
    requires z == a.(heads := a.heads[p := ObjectHeader(FIELD, FieldSize(f.name))])
    ensures Complete(WithField(z, b, p, f))
  {
    LinkFieldsKeys(a.fields, a.fieldTable[b].tail, p, f);
    hide LinkFields, FieldSize;
    var a' := WithField(z, b, p, f);
    forall q | q in a'.heads
      ensures HasBody(a', q)
    {
      if q != p {
        assert HasBody(a, q);
      }
    }
  }

  lemma NewFieldKeeps(a: Arena, z: Arena, b: nat, p: nat, f: FieldObject)
    requires p !in a.heads && p !in a.fields && b < |a.fieldTable|
    requires z == a.(heads := a.heads[p := ObjectHeader(FIELD, FieldSize(f.name))])
    ensures Keeps(a, WithField(z, b, p, f))
  {
    hide LinkFields, FieldSize, LinkItem;
    LinkFieldsNames(a.fields, a.fieldTable[b].tail, p, f);
  }

  lemma SizesPositive()
    ensures forall name :: 0 < FieldSize(name)
    ensures forall payload :: 0 < DataSize(payload)
    ensures forall n :: 0 < EntrySize(n)
  {
  }

  /** The outcome of a step that may add FIELD objects. */
  ghost predicate FieldStep(hash: HashFn, h: Header, a: Arena, s: Shadow, name: Bytes, r: Step, s': Shadow) {
    && r.status.Done? && Inv(hash, r.h, r.a, s') && Complete(r.a) && Keeps(a, r.a)
    && r.offset in r.a.fields && r.a.fields[r.offset].name == name
    && r.a == a.(heads := r.a.heads, fields := r.a.fields, fieldTable := r.a.fieldTable)
    && s' == s.(fieldChains := s'.fieldChains, keyChains := s'.keyChains)
    && h.arenaSize <= r.h.arenaSize <= h.arenaSize + Align(FieldSize(name)) && SameLog(h, r.h)
  }

  lemma NewField(hash: HashFn, h: Header, a: Arena, s: Shadow, z: Step, name: Bytes)
    requires Inv(hash, h, a, s) && Complete(a)
    requires z == AppendZero(h, a, ObjectHeader(FIELD, FieldSize(name))) && z.status.Done?
    requires forall q :: q in a.fields ==> a.fields[q].name != name
    ensures |z.a.fieldTable| == FIELD_BUCKETS
    ensures
      var b := Bucket(hash(name), FIELD_BUCKETS);
      FieldStep(hash, h, a, s, name, AddField(hash, z, b, name), FieldShadow(s, b, z.offset))
  {
    SizesPositive();
    hide AppendZero, Align, FieldSize, Named, KeyIndex, RefIndex, LinkFields, Complete, Keeps, LayoutOk, Headed, HashIndex, TooBig;
    hide DataNodes, FieldHeads, FieldNexts, RefHeads, FieldNodes, Blank, Counters;
    var b := Bucket(hash(name), FIELD_BUCKETS);
    var f := FieldObject(hash(name), 0, 0, name);
    AppendZeroOk(hash, h, a, s, ObjectHeader(FIELD, FieldSize(name)));
    FieldKeepsInv(hash, z.h, z.a, s, z.offset, name);
    NewFieldComplete(a, z.a, b, z.offset, f);
    NewFieldKeeps(a, z.a, b, z.offset, f);
    LinkFieldsKeys(a.fields, a.fieldTable[b].tail, z.offset, f);
  }

  /** With the tables of this writer every search has its bucket. */
  lemma SearchesBucket(h: Header, a: Arena, v: nat, content: Bytes)
    requires TablesOk(h, a)
    ensures SearchField(h, a, v, content) ==
            Searched(Bucket(v, FIELD_BUCKETS), Walk(FieldNodes(a.fields), a.fieldTable[Bucket(v, FIELD_BUCKETS)].head, v, content))
    ensures SearchData(h, a, v, content) ==
            Searched(Bucket(v, DATA_BUCKETS), Walk(DataNodes(a.datas), a.dataTable[Bucket(v, DATA_BUCKETS)].head, v, content))
  {
    hide Walk, DataNodes, FieldNodes;
  }

  lemma FieldWalk(hash: HashFn, fields: map<nat, FieldObject>, table: seq<HashItem>, chains: seq<seq<nat>>, name: Bytes)
    requires HashIndex(hash, FieldNodes(fields), table, chains)
    ensures
      match Walk(FieldNodes(fields), table[Bucket(hash(name), |chains|)].head, hash(name), name)
      case Corrupt => false
      case Found(f) => f in fields && fields[f].name == name
      case Absent => forall f :: f in fields ==> fields[f].name != name
  {
    WalkFinds(hash, FieldNodes(fields), table, chains, name);
    hide HashIndex, Walk;
    assert forall f :: f in fields ==> f in FieldNodes(fields) && fields[f].name == FieldNodes(fields)[f].content;
  }

  /** `append_field_object` returns the one FIELD object with this name. */
  lemma AppendFieldOk(hash: HashFn, h: Header, a: Arena, s: Shadow, name: Bytes) returns (s': Shadow)
    requires Inv(hash, h, a, s) && Complete(a)
    ensures
      var r := AppendField(hash, h, a, name);
      match r.status
      case Fail(e) => (e == EBADMSG && !FieldNameValid(name)) || (e == EFBIG && TooBig(h, FieldSize(name)))
      case Done => FieldNameValid(name) && FieldStep(hash, h, a, s, name, r, s')
  {
    hide Walk, Align, FieldSize, FieldNameValid, Named, KeyIndex, RefIndex, Complete, Keeps, LayoutOk, Headed, HashIndex;
    hide DataNodes, FieldNodes, FieldHeads, FieldNexts, RefHeads, WithField, AppendZero, TooBig, SearchField, SearchData;
    s' := s;
    SizesPositive();
    KeepsItself(a);
    SearchesBucket(h, a, hash(name), name);
    FieldWalk(hash, a.fields, a.fieldTable, s.fieldChains, name);
    AppendZeroOk(hash, h, a, s, ObjectHeader(FIELD, FieldSize(name)));
    var z := AppendZero(h, a, ObjectHeader(FIELD, FieldSize(name)));
    var b := Bucket(hash(name), FIELD_BUCKETS);
    if FieldNameValid(name) && z.status.Done?
       && Walk(FieldNodes(a.fields), a.fieldTable[b].head, hash(name), name).Absent?
    {
      NewField(hash, h, a, s, z, name);
      s' := FieldShadow(s, b, z.offset);
    }
  }

  lemma KeepsItself(a: Arena)
    ensures Keeps(a, a)
  {
  }

  // ---- DATA objects ----

  lemma DataWalk(hash: HashFn, datas: map<nat, DataObject>, table: seq<HashItem>, chains: seq<seq<nat>>, payload: Bytes)
    requires HashIndex(hash, DataNodes(datas), table, chains)
    ensures
      match Walk(DataNodes(datas), table[Bucket(hash(payload), |chains|)].head, hash(payload), payload)
      case Corrupt => false
      case Found(d) => d in datas && datas[d].payload == payload
      case Absent => forall d :: d in datas ==> datas[d].payload != payload
  {
    WalkFinds(hash, DataNodes(datas), table, chains, payload);
    hide HashIndex, Walk;
    assert forall d :: d in datas ==> d in DataNodes(datas) && datas[d].payload == DataNodes(datas)[d].content;
  }

  lemma NewDataComplete(a: Arena, z: Arena, b: nat, p: nat, f: nat, d: DataObject)
    requires Complete(a) && p !in a.datas && b < |a.dataTable| && f in a.fields
    requires z == a.(heads := a.heads[p := ObjectHeader(DATA, DataSize(d.payload))])
    ensures Complete(WithData(z, b, p, f, d))
  {
    LinkDatasKeys(a.datas, a.dataTable[b].tail, p, d);
    HeadFieldsViews(a.fields, f, p);
    hide LinkDatas, HeadFields, DataSize, FieldNodes, FieldHeads;
    var a' := WithData(z, b, p, f, d);
    forall q | q in a'.heads
      ensures HasBody(a', q)
    {
      if q != p {
        assert HasBody(a, q);
      }
    }
  }

  lemma NewDataKeeps(a: Arena, z: Arena, b: nat, p: nat, f: nat, d: DataObject)
    requires p !in a.heads && p !in a.datas && b < |a.dataTable| && f in a.fields
    requires z == a.(heads := a.heads[p := ObjectHeader(DATA, DataSize(d.payload))])
    ensures Keeps(a, WithData(z, b, p, f, d))
  {
    hide LinkDatas, HeadFields, DataSize, LinkItem;
    LinkDatasPayloads(a.datas, a.dataTable[b].tail, p, d);
    HeadFieldsNames(a.fields, f, p);
  }

  lemma NewDataLists(a: Arena, s: Shadow, b: nat, p: nat, f: nat, d: DataObject)
    requires p !in a.datas && p != 0 && b < |a.dataTable| && f in a.fields && d.nEntries == 0
    requires b < |s.dataChains| && f in s.keyChains
    ensures SameLists(a, s, WithData(a, b, p, f, d), DataShadow(s, b, p, f))
  {
    hide LinkDatas, HeadFields, LinkItem, EntryList;
    var b', s' := WithData(a, b, p, f, d), DataShadow(s, b, p, f);
    forall q
      ensures EntryList(b', s', q) == EntryList(a, s, q)
    {
      SameListAt(a, s, b', s', a.dataTable[b].tail, p, d, q);
    }
  }

  lemma SameListAt(a: Arena, s: Shadow, b: Arena, s': Shadow, tail: nat, p: nat, d: DataObject, q: nat)
    requires p !in a.datas && d.nEntries == 0
    requires b.datas == LinkDatas(a.datas, tail, p, d) && s'.refItems == s.refItems[p := []]
    ensures EntryList(b, s', q) == EntryList(a, s, q)
  {
    hide LinkDatas;
    LinkDatasKeys(a.datas, tail, p, d);
    if q in a.datas {
      assert b.datas[q] == a.datas[q].(nextHash := b.datas[q].nextHash);
    }
  }

  /** The outcome of a step that adds at most one DATA object. */
  ghost predicate DataStep(hash: HashFn, h: Header, a: Arena, s: Shadow, payload: Bytes, r: Step, s': Shadow) {
    && r.status.Done? && Inv(hash, r.h, r.a, s') && Complete(r.a) && Keeps(a, r.a) && SameLists(a, s, r.a, s')
    && r.offset in r.a.datas && r.a.datas[r.offset].payload == payload
    && r.a.entries == a.entries && r.a.arrays == a.arrays
    && h.arenaSize <= r.h.arenaSize && SameLog(h, r.h)
  }

  lemma NewDataOk(hash: HashFn, h: Header, a: Arena, s: Shadow, z: Step, f: nat, payload: Bytes)
    requires Inv(hash, h, a, s) && Complete(a)
    requires z == AppendZero(h, a, ObjectHeader(DATA, DataSize(payload))) && z.status.Done?
    requires f in a.fields && a.fields[f].name == KeyOf(payload)
    requires forall q :: q in a.datas ==> a.datas[q].payload != payload
    ensures |z.a.dataTable| == DATA_BUCKETS && f in z.a.fields && f in s.keyChains
    ensures
      var b := Bucket(hash(payload), DATA_BUCKETS);
      DataStep(hash, h, a, s, payload, AddData(hash, z, b, f, payload), DataShadow(s, b, z.offset, f))
    ensures |s.dataChains| == DATA_BUCKETS && z.h.arenaSize == h.arenaSize + Align(DataSize(payload))
  {
    SizesPositive();
    hide AppendZero, Align, DataSize, Named, KeyIndex, RefIndex, LinkDatas, HeadFields, Complete, Keeps, LayoutOk, Headed, HashIndex, TooBig;
    hide DataNodes, FieldHeads, FieldNexts, RefHeads, FieldNodes, Blank, Counters, KeyOf;
    var b := Bucket(hash(payload), DATA_BUCKETS);
    AppendZeroOk(hash, h, a, s, ObjectHeader(DATA, DataSize(payload)));
    var d := NewData(z.a, f, hash(payload), payload);
    DataKeepsInv(hash, z.h, z.a, s, z.offset, f, payload);
    NewDataComplete(a, z.a, b, z.offset, f, d);
    NewDataKeeps(a, z.a, b, z.offset, f, d);
    NewDataLists(z.a, s, b, z.offset, f, d);
    LinkDatasKeys(a.datas, a.dataTable[b].tail, z.offset, d);
    hide WithData, DataShadow;
  }

  /** The space one field can take in the file, at most. */
  function DataCost(field: JournalField): nat {
    Align(FieldSize(field.key)) + Align(DataSize(Payload(field)))
  }

  ghost predicate NoRoom(h: Header, cost: nat) {
    HEADER_SIZE + h.arenaSize + cost > I64_MAX
  }

  /** The only reasons for which one field can be refused. */
  ghost predicate DataFailure(h: Header, field: JournalField, e: Error) {
    match e
    case EBADMSG => !FieldNameValid(field.key)
    case E2BIG => |field.key| + 1 + |field.value| >= UINT64_MODULUS
    case EFBIG => NoRoom(h, DataCost(field))
    case _ => false
  }

  lemma FieldStepThenData(hash: HashFn, h: Header, a: Arena, s: Shadow, name: Bytes, f: Step, s1: Shadow, payload: Bytes, d: Step, s2: Shadow)
    requires FieldStep(hash, h, a, s, name, f, s1)
    requires DataStep(hash, f.h, f.a, s1, payload, d, s2)
    ensures DataStep(hash, h, a, s, payload, d, s2)
  {
    hide Inv, Complete, Keeps, Align, Listed;
    KeepsTransitive(a, f.a, d.a);
    assert SameLists(a, s, d.a, s2) by {
      assert forall p :: EntryList(f.a, s1, p) == EntryList(a, s, p);
    }
  }

  lemma AppendNewData(hash: HashFn, h: Header, a: Arena, s: Shadow, field: JournalField, f: Step, s1: Shadow) returns (s': Shadow)
    requires Inv(hash, h, a, s) && Complete(a) && FieldNameValid(field.key)
    requires FieldStep(hash, h, a, s, field.key, f, s1)
    requires forall q :: q in a.datas ==> a.datas[q].payload != Payload(field)
    ensures
      var z := AppendZero(f.h, f.a, ObjectHeader(DATA, DataSize(Payload(field))));
      match z.status
      case Fail(e) => e == EFBIG && NoRoom(h, DataCost(field))
      case Done =>
        && |z.a.dataTable| == DATA_BUCKETS && f.offset in z.a.fields
        && var r := AddData(hash, z, Bucket(hash(Payload(field)), DATA_BUCKETS), f.offset, Payload(field));
           DataStep(hash, h, a, s, Payload(field), r, s') && r.h.arenaSize <= h.arenaSize + DataCost(field)
  {
    hide AppendZero, Align, FieldSize, DataSize, FieldNameValid, Inv, Complete, Keeps, SameLists, KeyOf, Payload, SplitPayload, WithData, Blank;
    SizesPositive();
    SplitAfterPayload(field);
    var payload := Payload(field);
    var o := ObjectHeader(DATA, DataSize(payload));
    var z := AppendZero(f.h, f.a, o);
    s' := s1;
    AppendZeroOk(hash, f.h, f.a, s1, o);
    if z.status.Done? {
      NewDataOk(hash, f.h, f.a, s1, z, f.offset, payload);
      var b := Bucket(hash(payload), DATA_BUCKETS);
      s' := DataShadow(s1, b, z.offset, f.offset);
      FieldStepThenData(hash, h, a, s, field.key, f, s1, payload, AddData(hash, z, b, f.offset, payload), s');
    }
  }

  /** `append_data_object` returns the one DATA object with this payload. */
  lemma AppendDataOk(hash: HashFn, h: Header, a: Arena, s: Shadow, field: JournalField) returns (s': Shadow)
    requires Inv(hash, h, a, s) && Complete(a)
    ensures
      var r := AppendData(hash, h, a, field);
      match r.status
      case Fail(e) => DataFailure(h, field, e)
      case Done =>
        && FieldNameValid(field.key) && DataStep(hash, h, a, s, Payload(field), r, s')
        && r.h.arenaSize <= h.arenaSize + DataCost(field)
  {
    hide Walk, Align, FieldSize, DataSize, FieldNameValid, Complete, Keeps, KeyOf, Payload, AppendField, AppendZero, AddData;
    hide DataNodes, FieldNodes, FieldHeads, FieldNexts, RefHeads, Named, KeyIndex, RefIndex, LayoutOk, Headed, HashIndex, Counters;
    hide SearchField, SearchData;
    s' := s;
    KeepsItself(a);
    var payload := Payload(field);
    var b := Bucket(hash(payload), DATA_BUCKETS);
    SearchesBucket(h, a, hash(payload), payload);
    DataWalk(hash, a.datas, a.dataTable, s.dataChains, payload);
    if FieldNameValid(field.key) && Walk(DataNodes(a.datas), a.dataTable[b].head, hash(payload), payload).Absent? {
      s' := AppendFieldOk(hash, h, a, s, field.key);
      var f := AppendField(hash, h, a, field.key);
      if f.status.Done? {
        s' := AppendNewData(hash, h, a, s, field, f, s');
      }
    }
  }

  // ---- the field loop ----

  function Cost(fields: seq<JournalField>): nat {
    if fields == [] then 0 else Cost(fields[..|fields| - 1]) + DataCost(fields[|fields| - 1])
  }

  function XorAll(hash: HashFn, fields: seq<JournalField>): nat {
    if fields == [] then 0 else Xor(XorAll(hash, fields[..|fields| - 1]), hash(Payload(fields[|fields| - 1])))
  }

  /** `items` names, in order, the stored DATA object of each field. */
  ghost predicate Matches(hash: HashFn, datas: map<nat, DataObject>, items: seq<EntryItem>, fields: seq<JournalField>) {
    && |items| == |fields|
    && (forall i :: 0 <= i < |items| ==>
          && FieldNameValid(fields[i].key)
          && items[i].hash == hash(Payload(fields[i]))
          && items[i].offset in datas && datas[items[i].offset].payload == Payload(fields[i]))
  }

  ghost predicate DatasStep(hash: HashFn, h: Header, a: Arena, s: Shadow, r: Step, s': Shadow) {
    && r.status.Done? && Inv(hash, r.h, r.a, s') && Complete(r.a) && Keeps(a, r.a) && SameLists(a, s, r.a, s')
    && r.a.entries == a.entries && r.a.arrays == a.arrays && SameLog(h, r.h)
  }

  lemma MatchesOneMore(hash: HashFn, a: Arena, items: seq<EntryItem>, fields: seq<JournalField>, field: JournalField, r: Step)
    requires Matches(hash, a.datas, items, fields) && Keeps(a, r.a) && FieldNameValid(field.key)
    requires r.offset in r.a.datas && r.a.datas[r.offset].payload == Payload(field)
    ensures Matches(hash, r.a.datas, items + [EntryItem(r.offset, hash(Payload(field)))], fields + [field])
  {
    hide FieldNameValid, Payload;
    assert forall p :: p in a.datas ==> p in r.a.datas && r.a.datas[p].payload == a.datas[p].payload;
    hide Keeps;
  }

  lemma DatasStepThenData(hash: HashFn, h: Header, a: Arena, s: Shadow, r: Step, s1: Shadow, payload: Bytes, d: Step, s2: Shadow)
    requires DatasStep(hash, h, a, s, r, s1) && DataStep(hash, r.h, r.a, s1, payload, d, s2)
    ensures DatasStep(hash, h, a, s, d, s2)
  {
    hide Inv, Complete, Keeps, EntryList, FileList;
    KeepsTransitive(a, r.a, d.a);
  }

  ghost predicate DatasFailure(h: Header, fields: seq<JournalField>, e: Error) {
    match e
    case EBADMSG => exists i :: 0 <= i < |fields| && !FieldNameValid(fields[i].key)
    case E2BIG => exists i :: 0 <= i < |fields| && |fields[i].key| + 1 + |fields[i].value| >= UINT64_MODULUS
    case EFBIG => NoRoom(h, Cost(fields))
    case _ => false
  }

  lemma {:induction false} AppendDatasOk(hash: HashFn, h: Header, a: Arena, s: Shadow, fields: seq<JournalField>) returns (s': Shadow)
    requires Inv(hash, h, a, s) && Complete(a)
    ensures
      var r := AppendDatas(hash, h, a, fields);
      match r.step.status
      case Fail(e) => DatasFailure(h, fields, e)
      case Done =>
        && DatasStep(hash, h, a, s, r.step, s') && Matches(hash, r.step.a.datas, r.items, fields)
        && r.xorHash == XorAll(hash, fields) && r.step.h.arenaSize <= h.arenaSize + Cost(fields)
  {
    hide Inv, Complete, FieldNameValid, Payload, AppendData, DataCost, Xor, Keeps, SameLists, Matches, DataStep;
    s' := s;
    KeepsItself(a);
    if fields == [] {
      SameListsItself(a, s);
      MatchesNothing(hash, a.datas);
    } else {
      var front := fields[..|fields| - 1];
      var field := fields[|fields| - 1];
      assert front + [field] == fields;
      s' := AppendDatasOk(hash, h, a, s, front);
      var r := AppendDatas(hash, h, a, front);
      if r.step.status.Done? {
        var s1 := s';
        s' := AppendDataOk(hash, r.step.h, r.step.a, s1, field);
        var d := AppendData(hash, r.step.h, r.step.a, field);
        if d.status.Done? {
          DatasStepThenData(hash, h, a, s, r.step, s1, Payload(field), d, s');
          DataStepParts(hash, r.step.h, r.step.a, s1, Payload(field), d, s');
          MatchesOneMore(hash, r.step.a, r.items, front, field, d);
        }
      }
    }
  }

  lemma SameListsItself(a: Arena, s: Shadow)
    ensures SameLists(a, s, a, s)
  {
  }

  lemma MatchesNothing(hash: HashFn, datas: map<nat, DataObject>)
    ensures Matches(hash, datas, [], [])
  {
  }

  lemma DataStepParts(hash: HashFn, h: Header, a: Arena, s: Shadow, payload: Bytes, r: Step, s': Shadow)
    requires DataStep(hash, h, a, s, payload, r, s')
    ensures Keeps(a, r.a) && r.offset in r.a.datas && r.a.datas[r.offset].payload == payload
  {
  }
}
