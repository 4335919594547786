/** What holds of every valid journal file, hence of every file that a run of
    successful appends can produce. */
module JournalTheorems {
  import opened Basics
  import opened JournalFormat
  import opened JournalHashIndex
  import opened JournalChains
  import opened JournalState
  import opened JournalSpec
  import opened JournalProof
  import opened JournalReferences
  import opened JournalLog

  lemma DataEntriesOf(hash: HashFn, h: Header, a: Arena, s: Shadow, d: nat)
    requires Inv(hash, h, a, s) && d in a.datas
    ensures ReadDataEntries(a, d) == Some(EntryList(a, s, d))
    ensures a.datas[d].nEntries == |EntryList(a, s, d)|
  {
    hide Inv, Chained;
    if a.datas[d].nEntries == 0 {
      EmptyList(hash, h, a, s, d);
    } else {
      ArrayChainOf(hash, h, a, s, d);
      ReadFileChain(a.arrays, s.refChains[d], s.refItems[d], a.datas[d].entryArray);
    }
  }

  /** The inverted index agrees with the log: through each DATA object a reader
      finds exactly the entries that name it, in log order and with
      multiplicity, and `n_entries` is their number. */
  lemma InvertedIndexExact(hash: HashFn, h: Header, a: Arena, d: nat)
    requires Valid(hash, h, a) && d in a.datas
    ensures ReadChain(a.arrays, h.entryArray).Some?
    ensures
      var listed := Occurrences(a.entries, ReadChain(a.arrays, h.entryArray).value, d);
      ReadDataEntries(a, d) == Some(listed) && a.datas[d].nEntries == |listed|
  {
    hide Inv, Complete, EntriesOk, HeaderOk, ReadEntries, Chained, EntryList, Occurrences, ReadDataEntries;
    var s :| Settled(hash, h, a, s);
    TailArray(hash, h, a, s);
    ReadFileChain(a.arrays, s.refChains[0], s.refItems[0], h.entryArray);
    DataEntriesOf(hash, h, a, s, d);
  }

  /** A field's DATA chain as the invariant names it. */
  lemma FieldChainOf(hash: HashFn, h: Header, a: Arena, s: Shadow, f: nat)
    requires Inv(hash, h, a, s) && f in a.fields
    ensures f in s.keyChains && BackLinked(FieldNexts(a.datas), s.keyChains[f])
    ensures a.fields[f].headData == Last(s.keyChains[f])
    ensures forall d :: d in a.datas ==> (d in s.keyChains[f] <==> d in s.keyOwner && s.keyOwner[d] == f)
    ensures forall d :: d in s.keyChains[f] ==> d in a.datas
  {
    hide HashIndex, RefIndex, Named, LayoutOk, Headed, Counters, TablesOk, Increasing;
    assert FieldHeads(a.fields)[f] == a.fields[f].headData;
    assert FieldNexts(a.datas).Keys == a.datas.Keys;
  }

  lemma OwnerByName(hash: HashFn, h: Header, a: Arena, s: Shadow, f: nat, d: nat)
    requires Inv(hash, h, a, s) && f in a.fields && d in a.datas
    ensures d in s.keyOwner && (s.keyOwner[d] == f <==> KeyOf(a.datas[d].payload) == a.fields[f].name)
  {
    hide KeyIndex, RefIndex, LayoutOk, Headed, Counters, TablesOk, KeyOf, Linked, FieldHeads, FieldNexts, RefHeads, DataNodes;
    var g := s.keyOwner[d];
    assert FieldNodes(a.fields)[f].content == a.fields[f].name && FieldNodes(a.fields)[g].content == a.fields[g].name;
  }

  /** Each FIELD object leads to exactly the DATA objects with its name, newest
      first. */
  lemma FieldChainExact(hash: HashFn, h: Header, a: Arena, f: nat) returns (c: seq<nat>)
    requires Valid(hash, h, a) && f in a.fields
    ensures ReadFieldDatas(FieldNexts(a.datas), a.fields[f].headData) == Some(Reversed(c))
    ensures Increasing(c)
    ensures forall d :: d in c <==> d in a.datas && KeyOf(a.datas[d].payload) == a.fields[f].name
  {
    hide Inv, Complete, EntriesOk, HeaderOk, ReadEntries, Indexed, KeyOf;
    var s :| Settled(hash, h, a, s);
    FieldChainOf(hash, h, a, s, f);
    c := s.keyChains[f];
    ReadFieldDatasFrom(FieldNexts(a.datas), c, |c|);
    assert c[..|c|] == c;
    forall d | d in a.datas
      ensures d in c <==> KeyOf(a.datas[d].payload) == a.fields[f].name
    {
      OwnerByName(hash, h, a, s, f, d);
    }
  }

  /** `find_data_object` succeeds exactly when the payload is stored, never
      reports corruption, and no payload is stored twice. */
  lemma FindDataExact(hash: HashFn, h: Header, a: Arena, payload: Bytes)
    requires Valid(hash, h, a)
    ensures
      var r := SearchData(h, a, hash(payload), payload);
      && r.Searched? && !r.find.Corrupt?
      && (forall p :: r.find == Found(p) <==> p in a.datas && a.datas[p].payload == payload)
  {
    hide Complete, EntriesOk, HeaderOk, ReadEntries, Indexed, Walk, HashIndex, KeyIndex, RefIndex, LayoutOk, Headed, Named;
    hide FieldNodes, FieldHeads, FieldNexts, RefHeads, SearchData, SearchField;
    var s :| Settled(hash, h, a, s);
    SearchesBucket(h, a, hash(payload), payload);
    DataWalk(hash, a.datas, a.dataTable, s.dataChains, payload);
    UniqueDatas(hash, a.datas, a.dataTable, s.dataChains);
  }

  lemma UniqueDatas(hash: HashFn, datas: map<nat, DataObject>, table: seq<HashItem>, chains: seq<seq<nat>>)
    requires HashIndex(hash, DataNodes(datas), table, chains)
    ensures forall p, q :: p in datas && q in datas && datas[p].payload == datas[q].payload ==> p == q
  {
    hide Linked;
    forall p, q | p in datas && q in datas && datas[p].payload == datas[q].payload
      ensures p == q
    {
      assert DataNodes(datas)[p].content == DataNodes(datas)[q].content;
    }
  }

  lemma FindFieldExact(hash: HashFn, h: Header, a: Arena, name: Bytes)
    requires Valid(hash, h, a)
    ensures
      var r := SearchField(h, a, hash(name), name);
      && r.Searched? && !r.find.Corrupt?
      && (forall p :: r.find == Found(p) <==> p in a.fields && a.fields[p].name == name)
  {
    hide Complete, EntriesOk, HeaderOk, ReadEntries, Indexed, Walk, HashIndex, KeyIndex, RefIndex, LayoutOk, Headed, Named;
    hide DataNodes, FieldHeads, FieldNexts, RefHeads, SearchData, SearchField;
    var s :| Settled(hash, h, a, s);
    SearchesBucket(h, a, hash(name), name);
    FieldWalk(hash, a.fields, a.fieldTable, s.fieldChains, name);
    UniqueFields(hash, a.fields, a.fieldTable, s.fieldChains);
  }

  lemma UniqueFields(hash: HashFn, fields: map<nat, FieldObject>, table: seq<HashItem>, chains: seq<seq<nat>>)
    requires HashIndex(hash, FieldNodes(fields), table, chains)
    ensures forall p, q :: p in fields && q in fields && fields[p].name == fields[q].name ==> p == q
  {
    hide Linked;
    forall p, q | p in fields && q in fields && fields[p].name == fields[q].name
      ensures p == q
    {
      assert FieldNodes(fields)[p].content == FieldNodes(fields)[q].content;
    }
  }

  // ---- layout ----

  lemma HeadKeys(a: Arena)
    requires Headed(a) && Complete(a)
    ensures a.heads.Keys == {DATA_TABLE, FIELD_TABLE} + a.fields.Keys + a.datas.Keys + a.entries.Keys + a.arrays.Keys
    ensures {DATA_TABLE, FIELD_TABLE} !! a.fields.Keys !! a.datas.Keys !! a.entries.Keys !! a.arrays.Keys
  {
    hide FieldSize, DataSize, EntrySize;
  }

  lemma UnionCount(x: set<nat>, y: set<nat>, z: set<nat>, u: set<nat>, v: set<nat>)
    requires x !! y !! z !! u !! v
    ensures |x + y + z + u + v| == |x| + |y| + |z| + |u| + |v|
  {
    assert |x + y| == |x| + |y|;
    assert |x + y + z| == |x + y| + |z|;
    assert |x + y + z + u| == |x + y + z| + |u|;
  }

  lemma HeadCount(a: Arena)
    requires Headed(a) && Complete(a)
    ensures |a.heads| == 2 + |a.fields| + |a.datas| + |a.entries| + |a.arrays|
  {
    hide Headed, Complete;
    HeadKeys(a);
    UnionCount({DATA_TABLE, FIELD_TABLE}, a.fields.Keys, a.datas.Keys, a.entries.Keys, a.arrays.Keys);
    assert |{DATA_TABLE, FIELD_TABLE}| == 2;
    CountKeys(a);
  }

  lemma CountKeys(a: Arena)
    ensures |a.heads| == |a.heads.Keys| && |a.fields| == |a.fields.Keys| && |a.datas| == |a.datas.Keys|
    ensures |a.entries| == |a.entries.Keys| && |a.arrays| == |a.arrays.Keys|
  {
  }

  lemma {:induction false} DistinctCount(c: seq<nat>, keys: set<nat>)
    requires Increasing(c) && forall p :: p in keys <==> p in c
    ensures |keys| == |c|
  {
    if c == [] {
      assert keys == {};
    } else {
      var n := |c| - 1;
      forall p | p in keys - {c[n]}
        ensures p in c[..n]
      {
        var i :| 0 <= i < |c| && c[i] == p;
        assert c[..n][i] == p;
      }
      DistinctCount(c[..n], keys - {c[n]});
      assert c[n] in keys;
    }
  }

  /** The objects tile the arena, 8-aligned, from the end of the header; every
      offset fits 32 bits; and the header counts what is there. */
  lemma LayoutExact(hash: HashFn, h: Header, a: Arena)
    requires Valid(hash, h, a)
    ensures h.tailObject in a.heads && Tiled(a.heads, h.tailObject)
    ensures HEADER_SIZE + h.arenaSize == End(a.heads, h.tailObject)
    ensures forall p :: p in a.heads ==> HEADER_SIZE <= p <= U32_MAX && p % 8 == 0
    ensures h.nObjects == |a.heads| && h.nData == |a.datas| && h.nFields == |a.fields|
    ensures h.nEntries == |a.entries| && h.nEntryArrays == |a.arrays|
    ensures h.nObjects == 2 + h.nFields + h.nData + h.nEntries + h.nEntryArrays
  {
    hide Complete, HeaderOk, ReadEntries, Indexed, HashIndex, KeyIndex, RefIndex, Headed, Named, Align, ItemsOk;
    var s :| Settled(hash, h, a, s);
    HeadCount(a);
    DistinctCount(FileList(s), a.entries.Keys);
    assert h.nEntries == |FileList(s)| by { HeaderCount(h, a.entries, FileList(s)); }
  }

  lemma HeaderCount(h: Header, entries: map<nat, EntryObject>, offsets: seq<nat>)
    requires HeaderOk(h, entries, offsets)
    ensures h.nEntries == |offsets|
  {
  }

  /** The hash of every entry is the xor, over its items in order, of the hashes of
      the payloads that the items name. */
  lemma XorHashExact(hash: HashFn, h: Header, a: Arena, e: nat)
    requires Valid(hash, h, a) && e in a.entries
    ensures
      var entry := a.entries[e];
      && entry.xorHash == XorItems(entry.items)
      && forall i :: 0 <= i < |entry.items| ==>
           && entry.items[i].offset in a.datas
           && entry.items[i].hash == hash(a.datas[entry.items[i].offset].payload)
  {
    hide Inv, Complete, HeaderOk, ReadEntries, Indexed, XorItems;
    var s :| Settled(hash, h, a, s);
  }
}
