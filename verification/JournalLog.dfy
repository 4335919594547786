/** Reading a journal file back, and the main theorem about one append: it
    extends the log by exactly one entry and keeps the inverted index exact. */
module JournalLog {
  import opened Basics
  import opened JournalFormat
  import opened JournalHashIndex
  import opened JournalChains
  import opened JournalState
  import opened JournalSteps
  import opened JournalSpec
  import opened JournalProof
  import opened JournalReferences

  datatype LogEntry = LogEntry(seqnum: nat, realtime: nat, monotonic: nat, bootId: Bytes, fields: seq<JournalField>)

  // ---- a reader ----

  /** The entries listed by the chain of arrays that starts at `p`. */
  function ReadChain(arrays: ArrayObjects, p: nat): Option<seq<nat>>
    decreases From(arrays.Keys, p)
  {
    if p == 0 then Some([])
    else if p !in arrays then None
    else if arrays[p].next == 0 then Some([arrays[p].item])
    else if arrays[p].next <= p then None
    else
      FromShrinks(arrays.Keys, p, arrays[p].next);
      match ReadChain(arrays, arrays[p].next)
      case None => None
      case Some(rest) => Some([arrays[p].item] + rest)
  }

  function ReadFields(datas: map<nat, DataObject>, items: seq<EntryItem>): Option<seq<JournalField>> {
    if items == [] then Some([])
    else
      var last := items[|items| - 1].offset;
      match ReadFields(datas, items[..|items| - 1])
      case None => None
      case Some(fields) => if last in datas then Some(fields + [SplitPayload(datas[last].payload)]) else None
  }

  function ReadEntry(a: Arena, p: nat): Option<LogEntry> {
    if p !in a.entries then None
    else
      var e := a.entries[p];
      match ReadFields(a.datas, e.items)
      case None => None
      case Some(fields) => Some(LogEntry(e.seqnum, e.realtime, e.monotonic, e.bootId, fields))
  }

  function ReadEntries(a: Arena, offsets: seq<nat>): Option<seq<LogEntry>> {
    if offsets == [] then Some([])
    else
      match (ReadEntries(a, offsets[..|offsets| - 1]), ReadEntry(a, offsets[|offsets| - 1]))
      case (Some(log), Some(e)) => Some(log + [e])
      case _ => None
  }

  /** The log stored in a file: its entry-array chain, and for each entry the
      payloads its items point to. */
  function ReadLog(h: Header, a: Arena): Option<seq<LogEntry>> {
    match ReadChain(a.arrays, h.entryArray)
    case None => None
    case Some(offsets) => ReadEntries(a, offsets)
  }

  /** The entries a reader finds through the DATA object `d`. */
  function ReadDataEntries(a: Arena, d: nat): Option<seq<nat>>
    requires d in a.datas
  {
    if a.datas[d].nEntries == 0 then Some([])
    else
      match ReadChain(a.arrays, a.datas[d].entryArray)
      case None => None
      case Some(rest) => Some([a.datas[d].entryOffset] + rest)
  }

  /** The DATA objects a reader finds through a FIELD object, newest first. */
  function ReadFieldDatas(nexts: map<nat, nat>, p: nat): Option<seq<nat>> {
    if p == 0 then Some([])
    else if p !in nexts || p <= nexts[p] then None
    else
      match ReadFieldDatas(nexts, nexts[p])
      case None => None
      case Some(rest) => Some([p] + rest)
  }

  // ---- reading along intact chains ----

  lemma {:induction false} ReadChainFrom(arrays: ArrayObjects, c: seq<nat>, items: seq<nat>, head: nat, i: nat)
    requires Chained(arrays, c, items, head) && i <= |c|
    ensures ReadChain(arrays, At(c, i)) == Some(items[i..])
    decreases |c| - i
  {
    if i < |c| {
      assert arrays[c[i]].next == At(c, i + 1);
      assert items[i..] == [items[i]] + items[i + 1..];
      if i + 1 < |c| {
        assert c[i] < c[i + 1];
        ReadChainFrom(arrays, c, items, head, i + 1);
      } else {
        assert items[i..] == [items[i]];
      }
    } else {
      assert items[i..] == [];
    }
  }

  function Reversed(c: seq<nat>): seq<nat> {
    if c == [] then [] else [c[|c| - 1]] + Reversed(c[..|c| - 1])
  }

  lemma {:induction false} ReadFieldDatasFrom(nexts: map<nat, nat>, c: seq<nat>, n: nat)
    requires BackLinked(nexts, c) && n <= |c|
    ensures ReadFieldDatas(nexts, Last(c[..n])) == Some(Reversed(c[..n]))
  {
    if n == 0 {
      assert c[..n] == [];
    } else {
      hide BackLinked, Last, Reversed;
      BackStep(nexts, c, n);
      ReadFieldDatasFrom(nexts, c, n - 1);
      ReversedNext(c, n);
    }
  }

  lemma BackStep(nexts: map<nat, nat>, c: seq<nat>, n: nat)
    requires BackLinked(nexts, c) && 0 < n <= |c|
    ensures
      var p := c[n - 1];
      Last(c[..n]) == p && p in nexts && nexts[p] == Last(c[..n - 1]) && nexts[p] < p
  {
    assert nexts[c[n - 1]] == if n == 1 then 0 else c[n - 2];
  }

  lemma ReversedNext(c: seq<nat>, n: nat)
    requires 0 < n <= |c|
    ensures Reversed(c[..n]) == [c[n - 1]] + Reversed(c[..n - 1])
  {
    assert c[..n][..n - 1] == c[..n - 1];
  }

  lemma {:induction false} ReadFieldsMatch(hash: HashFn, datas: map<nat, DataObject>, items: seq<EntryItem>, fields: seq<JournalField>)
    requires Matches(hash, datas, items, fields)
    ensures ReadFields(datas, items) == Some(fields)
  {
    if items != [] {
      var n := |items| - 1;
      assert Matches(hash, datas, items[..n], fields[..n]);
      ReadFieldsMatch(hash, datas, items[..n], fields[..n]);
      SplitAfterPayload(fields[n]);
      assert fields == fields[..n] + [fields[n]];
    }
  }

  /** Later appends do not change what is read. */
  lemma {:induction false} ReadFieldsKeeps(a: Arena, b: Arena, items: seq<EntryItem>)
    requires Keeps(a, b) && ReadFields(a.datas, items).Some?
    ensures ReadFields(b.datas, items) == ReadFields(a.datas, items)
  {
    hide SplitPayload;
    if items != [] {
      ReadFieldsKeeps(a, b, items[..|items| - 1]);
    }
  }

  lemma {:induction false} ReadEntriesKeeps(a: Arena, b: Arena, offsets: seq<nat>)
    requires Keeps(a, b) && ReadEntries(a, offsets).Some?
    ensures ReadEntries(b, offsets) == ReadEntries(a, offsets)
  {
    if offsets != [] {
      var p := offsets[|offsets| - 1];
      ReadEntriesKeeps(a, b, offsets[..|offsets| - 1]);
      ReadFieldsKeeps(a, b, a.entries[p].items);
      hide Keeps;
    }
  }

  // ---- the state between two appends ----

  /** The entries among `offsets` that name `d`, in order and with multiplicity. */
  function Occurrences(entries: map<nat, EntryObject>, offsets: seq<nat>, d: nat): seq<nat> {
    if offsets == [] then []
    else
      var last := offsets[|offsets| - 1];
      Occurrences(entries, offsets[..|offsets| - 1], d) +
      (if last in entries then Repeat(last, Times(entries[last].items, d)) else [])
  }

  /** Each DATA object lists exactly the entries that name it. */
  ghost predicate Indexed(a: Arena, s: Shadow) {
    forall d :: d in a.datas ==> EntryList(a, s, d) == Occurrences(a.entries, FileList(s), d)
  }

  /** Every entry names stored DATA objects by their offset and hash. */
  ghost predicate ItemsOk(hash: HashFn, datas: map<nat, DataObject>, items: seq<EntryItem>) {
    forall i :: 0 <= i < |items| ==>
      items[i].offset in datas && items[i].hash == hash(datas[items[i].offset].payload)
  }

  ghost predicate EntriesOk(hash: HashFn, a: Arena, offsets: seq<nat>) {
    && Increasing(offsets)
    && (forall i :: 0 <= i < |offsets| ==> offsets[i] in a.entries)
    && (forall e :: e in a.entries ==> e in offsets)
    && (forall e :: e in a.entries ==> ItemsOk(hash, a.datas, a.entries[e].items))
    && XorsOk(a.entries)
  }

  function XorItems(items: seq<EntryItem>): nat {
    if items == [] then 0 else Xor(XorItems(items[..|items| - 1]), items[|items| - 1].hash)
  }

  /** The hash of every entry is that of its items. */
  ghost predicate XorsOk(entries: map<nat, EntryObject>) {
    forall e :: e in entries ==> entries[e].xorHash == XorItems(entries[e].items)
  }

  lemma {:induction false} XorMatches(hash: HashFn, datas: map<nat, DataObject>, items: seq<EntryItem>, fields: seq<JournalField>)
    requires Matches(hash, datas, items, fields)
    ensures XorItems(items) == XorAll(hash, fields)
  {
    hide Xor, Payload, FieldNameValid;
    if items != [] {
      var n := |items| - 1;
      assert Matches(hash, datas, items[..n], fields[..n]);
      XorMatches(hash, datas, items[..n], fields[..n]);
    }
  }

  ghost predicate HeaderOk(h: Header, entries: map<nat, EntryObject>, offsets: seq<nat>) {
    && h.nEntries == |offsets|
    && h.tailEntry == Last(offsets)
    && if offsets == [] then h.tailSeqnum == 0
       else
         && offsets[0] in entries && h.tailEntry in entries
         && h.headSeqnum == entries[offsets[0]].seqnum && h.headRealtime == entries[offsets[0]].realtime
         && h.tailSeqnum == entries[h.tailEntry].seqnum && h.tailRealtime == entries[h.tailEntry].realtime
         && h.tailMonotonic == entries[h.tailEntry].monotonic && h.tailBootId == entries[h.tailEntry].bootId
  }

  /** The invariant of a file between two appends. */
  ghost predicate Settled(hash: HashFn, h: Header, a: Arena, s: Shadow) {
    && Inv(hash, h, a, s) && Complete(a)
    && Indexed(a, s) && EntriesOk(hash, a, FileList(s)) && HeaderOk(h, a.entries, FileList(s))
    && ReadEntries(a, FileList(s)).Some?
    && h.tailObject <= U32_MAX
  }

  /** The file satisfies the invariant for some choice of chains. */
  ghost predicate Valid(hash: HashFn, h: Header, a: Arena) {
    exists s :: Settled(hash, h, a, s)
  }

  lemma ReadLogOf(hash: HashFn, h: Header, a: Arena, s: Shadow)
    requires Inv(hash, h, a, s)
    ensures ReadLog(h, a) == ReadEntries(a, FileList(s))
  {
    hide Inv, ReadEntries, Chained;
    TailArray(hash, h, a, s);
    ReadFileChain(a.arrays, s.refChains[0], s.refItems[0], h.entryArray);
  }

  lemma ReadFileChain(arrays: ArrayObjects, c: seq<nat>, items: seq<nat>, head: nat)
    requires Chained(arrays, c, items, head)
    ensures ReadChain(arrays, head) == Some(items)
  {
    ReadChainFrom(arrays, c, items, head, 0);
    assert items[0..] == items;
  }

  // ---- one append ----

  /** The space one append can take, at most. */
  function AppendCost(fields: seq<JournalField>): nat {
    Cost(fields) + Align(EntrySize(|fields|)) + ARRAY_SIZE * |fields| + ARRAY_SIZE
  }

  /** The only reasons for which an append can fail on a valid, open file. */
  ghost predicate AppendFailure(h: Header, fields: seq<JournalField>, e: Error) {
    match e
    case EBADMSG => exists i :: 0 <= i < |fields| && !FieldNameValid(fields[i].key)
    case E2BIG => |fields| > (UINT64_MODULUS - 1 - 64) / 16 ||
                  exists i :: 0 <= i < |fields| && |fields[i].key| + 1 + |fields[i].value| >= UINT64_MODULUS
    case EFBIG => HEADER_SIZE + h.arenaSize + AppendCost(fields) > U32_MAX
    case _ => false
  }

  lemma NewEntryStep(hash: HashFn, h: Header, a: Arena, s: Shadow, z: Step, e: EntryObject)
    requires Inv(hash, h, a, s) && Complete(a)
    requires z == AppendZero(h, a, ObjectHeader(ENTRY, EntrySize(|e.items|))) && z.status.Done?
    ensures
      var b := z.a.(entries := z.a.entries[z.offset := e]);
      && Inv(hash, z.h, b, s) && Complete(b) && Keeps(a, b) && SameLists(a, s, b, s)
      && z.offset !in a.entries && (forall p :: p in a.entries ==> p < z.offset)
      && SameLog(h, z.h) && z.h.arenaSize == h.arenaSize + Align(EntrySize(|e.items|))
  {
    hide AppendZero, TooBig, Align, EntrySize, Inv;
    SizesPositive();
    AppendZeroOk(hash, h, a, s, ObjectHeader(ENTRY, EntrySize(|e.items|)));
    EntryKeepsInv(hash, z.h, z.a, s, z.offset, e);
    EntriesInHeads(hash, h, a, s);
    hide Blank;
    var b := z.a.(entries := z.a.entries[z.offset := e]);
    forall q | q in b.heads
      ensures HasBody(b, q)
    {
      if q != z.offset {
        assert HasBody(a, q);
      }
    }
  }

  lemma EntriesInHeads(hash: HashFn, h: Header, a: Arena, s: Shadow)
    requires Inv(hash, h, a, s)
    ensures forall p :: p in a.entries ==> p in a.heads && 0 < p
    ensures 0 !in a.datas
  {
    hide HashIndex, KeyIndex, Named, Counters, TablesOk, RefIndex, Align, Aligned, FieldSize, DataSize, EntrySize;
  }

  /** Entries that do not name `d` are not listed for it. */
  lemma {:induction false} NotNamed(items: seq<EntryItem>, d: nat)
    requires forall i :: 0 <= i < |items| ==> items[i].offset != d
    ensures Times(items, d) == 0
  {
    if items != [] {
      NotNamed(items[..|items| - 1], d);
    }
  }

  lemma {:induction false} NoOccurrences(hash: HashFn, a: Arena, offsets: seq<nat>, d: nat)
    requires d !in a.datas && forall e :: e in a.entries ==> ItemsOk(hash, a.datas, a.entries[e].items)
    ensures Occurrences(a.entries, offsets, d) == []
  {
    if offsets != [] {
      var last := offsets[|offsets| - 1];
      NoOccurrences(hash, a, offsets[..|offsets| - 1], d);
      if last in a.entries {
        assert ItemsOk(hash, a.datas, a.entries[last].items);
        NotNamed(a.entries[last].items, d);
      }
    }
  }

  lemma {:induction false} OccurrencesKeep(entries: map<nat, EntryObject>, p: nat, e: EntryObject, offsets: seq<nat>, d: nat)
    requires p !in offsets
    ensures Occurrences(entries[p := e], offsets, d) == Occurrences(entries, offsets, d)
  {
    if offsets != [] {
      OccurrencesKeep(entries, p, e, offsets[..|offsets| - 1], d);
    }
  }

  lemma OccurrencesOneMore(entries: map<nat, EntryObject>, p: nat, e: EntryObject, offsets: seq<nat>, d: nat)
    requires p !in offsets
    ensures Occurrences(entries[p := e], offsets + [p], d) == Occurrences(entries, offsets, d) + Repeat(p, Times(e.items, d))
  {
    OccurrencesKeep(entries, p, e, offsets, d);
    assert (offsets + [p])[..|offsets + [p]| - 1] == offsets;
  }

  /** The inverted index stays exact: every DATA object lists precisely the
      entries that name it. */
  lemma IndexedAfter(hash: HashFn, a: Arena, s: Shadow, b: Arena, s': Shadow, p: nat, e: EntryObject)
    requires Indexed(a, s) && EntriesOk(hash, a, FileList(s)) && p !in a.entries && 0 !in b.datas
    requires b.entries == a.entries[p := e] && FileList(s') == FileList(s) + [p]
    requires forall d :: d != 0 ==> EntryList(b, s', d) == EntryList(a, s, d) + Repeat(p, Times(e.items, d))
    ensures Indexed(b, s')
  {
    hide FileList, ItemsOk;
    forall d | d in b.datas
      ensures EntryList(b, s', d) == Occurrences(b.entries, FileList(s'), d)
    {
      assert EntryList(a, s, d) == Occurrences(a.entries, FileList(s), d) by {
        if d !in a.datas {
          NoOccurrences(hash, a, FileList(s), d);
        }
      }
      hide EntryList;
      OccurrencesOneMore(a.entries, p, e, FileList(s), d);
    }
  }

  lemma MatchesItems(hash: HashFn, a: Arena, b: Arena, items: seq<EntryItem>, fields: seq<JournalField>)
    requires Matches(hash, a.datas, items, fields) && Keeps(a, b)
    ensures ItemsOk(hash, b.datas, items) && Matches(hash, b.datas, items, fields)
  {
    hide FieldNameValid, Payload;
  }

  lemma ItemsKeep(hash: HashFn, a: Arena, b: Arena, items: seq<EntryItem>)
    requires ItemsOk(hash, a.datas, items) && Keeps(a, b)
    ensures ItemsOk(hash, b.datas, items)
  {
  }

  lemma EntriesAfter(hash: HashFn, a: Arena, b: Arena, offsets: seq<nat>, p: nat, e: EntryObject)
    requires EntriesOk(hash, a, offsets) && Keeps(a, b) && b.entries == a.entries[p := e]
    requires p > 0 && p !in a.entries && forall q :: q in a.entries ==> q < p
    requires ItemsOk(hash, b.datas, e.items) && e.xorHash == XorItems(e.items)
    ensures EntriesOk(hash, b, offsets + [p])
  {
    hide XorItems;
    forall q | q in b.entries
      ensures q in offsets + [p]
      ensures ItemsOk(hash, b.datas, b.entries[q].items)
    {
      if q == p {
        assert (offsets + [p])[|offsets|] == p;
      } else {
        assert q in offsets;
        ItemsKeep(hash, a, b, a.entries[q].items);
      }
    }
    hide ItemsOk, Keeps;
  }

  lemma HeaderAfter(h: Header, g: Header, entries: map<nat, EntryObject>, offsets: seq<nat>, p: nat, e: EntryObject)
    requires HeaderOk(h, entries, offsets) && p !in entries
    requires g.nEntries == h.nEntries && g.headSeqnum == h.headSeqnum && g.headRealtime == h.headRealtime
    ensures HeaderOk(AfterEntry(g, p, e), entries[p := e], offsets + [p])
  {
  }

  lemma ReadAfter(hash: HashFn, a: Arena, b: Arena, offsets: seq<nat>, p: nat, e: EntryObject, fields: seq<JournalField>)
    requires ReadEntries(a, offsets).Some? && Keeps(a, b) && p in b.entries && b.entries[p] == e
    requires Matches(hash, b.datas, e.items, fields)
    ensures ReadEntries(b, offsets + [p]) ==
            Some(ReadEntries(a, offsets).value + [LogEntry(e.seqnum, e.realtime, e.monotonic, e.bootId, fields)])
  {
    ReadEntriesKeeps(a, b, offsets);
    ReadFieldsMatch(hash, b.datas, e.items, fields);
    assert (offsets + [p])[..|offsets + [p]| - 1] == offsets;
    hide Keeps, Matches;
  }

  function NewLogEntry(h: Header, q: Request): LogEntry {
    LogEntry(NextSeqnum(q.seqnum, h.tailSeqnum), q.realtime, q.monotonic, q.bootId, q.fields)
  }

  /** The state after the entry object `e` was written at `p`, all DATA objects
      of the entry exist, and nothing refers to the entry yet. */
  ghost predicate EntryWritten(hash: HashFn, h: Header, a: Arena, s: Shadow, q: Request,
                               g: Header, b: Arena, s1: Shadow, p: nat, e: EntryObject)
  {
    && Inv(hash, g, b, s1) && Complete(b) && Keeps(a, b) && SameLists(a, s, b, s1)
    && b.entries == a.entries[p := e] && p !in a.entries && 0 < p && (forall k :: k in a.entries ==> k < p)
    && Matches(hash, b.datas, e.items, q.fields)
    && e.xorHash == XorAll(hash, q.fields)
    && NewLogEntry(h, q) == LogEntry(e.seqnum, e.realtime, e.monotonic, e.bootId, q.fields)
    && SameLog(h, g) && g.arenaSize <= h.arenaSize + Cost(q.fields) + Align(EntrySize(|q.fields|))
  }

  lemma WriteEntry(hash: HashFn, h: Header, a: Arena, s: Shadow, q: Request, r: Refs, s1: Shadow, z: Step)
    requires DatasStep(hash, h, a, s, r.step, s1) && Matches(hash, r.step.a.datas, r.items, q.fields)
    requires r.xorHash == XorAll(hash, q.fields) && r.step.h.arenaSize <= h.arenaSize + Cost(q.fields)
    requires z == AppendZero(r.step.h, r.step.a, ObjectHeader(ENTRY, EntrySize(|q.fields|))) && z.status.Done?
    ensures
      var e := NewEntry(r.step.h, r, q);
      EntryWritten(hash, h, a, s, q, z.h, z.a.(entries := z.a.entries[z.offset := e]), s1, z.offset, e)
  {
    hide AppendZero, Inv, Complete, Keeps, EntrySize, Align, XorAll, Cost, Matches, EntryList, FileList;
    var e := NewEntry(r.step.h, r, q);
    var b := z.a.(entries := z.a.entries[z.offset := e]);
    assert |e.items| == |q.fields| by { MatchesLength(hash, r.step.a.datas, r.items, q.fields); }
    NewEntryStep(hash, r.step.h, r.step.a, s1, z, e);
    KeepsTransitive(a, r.step.a, b);
    MatchesItems(hash, r.step.a, b, e.items, q.fields);
    EntriesInHeads(hash, z.h, b, s1);
    assert z.a.entries == r.step.a.entries by { AppendZeroEntries(r.step.h, r.step.a, ObjectHeader(ENTRY, EntrySize(|q.fields|))); }
  }

  lemma AppendZeroEntries(h: Header, a: Arena, o: ObjectHeader)
    ensures AppendZero(h, a, o).a.entries == a.entries
  {
  }

  lemma MatchesLength(hash: HashFn, datas: map<nat, DataObject>, items: seq<EntryItem>, fields: seq<JournalField>)
    requires Matches(hash, datas, items, fields)
    ensures |items| == |fields|
    ensures forall i :: 0 <= i < |items| ==> items[i].offset in datas
  {
  }

  /** After both references were added, the entry is the last one of the file
      and the file is settled again. */
  lemma ReferEntry(hash: HashFn, h: Header, a: Arena, s: Shadow, q: Request, z: Header, b: Arena, s1: Shadow, p: nat, e: EntryObject,
                   d: Step, s2: Shadow, g: Step, s3: Shadow)
    requires Settled(hash, h, a, s) && EntryWritten(hash, h, a, s, q, z, b, s1, p, e)
    requires RefStep(hash, z, b, d, s2) && Adds(b, s1, d.a, s2, e.items, p) && SameLog(z, d.h)
    requires RefStep(hash, d.h, d.a, g, s3) && AddsToFile(d.a, s2, g.a, s3, p) && g.h.tailObject <= U32_MAX
    requires SameLog(d.h.(entryArray := g.h.entryArray, tailEntryArray := g.h.tailEntryArray, tailEntryArrayEntries := 1), g.h)
    ensures Settled(hash, AfterEntry(g.h, p, e), g.a, s3) && Keeps(a, g.a)
    ensures ReadEntries(g.a, FileList(s3)) == Some(ReadEntries(a, FileList(s)).value + [NewLogEntry(h, q)])
    ensures AfterEntry(g.h, p, e).online == h.online
    ensures AfterEntry(g.h, p, e).tailSeqnum == NextSeqnum(q.seqnum, h.tailSeqnum)
  {
    hide Inv, Complete, Keeps, EntriesOk, Indexed, HeaderOk, Matches, XorAll, XorItems, Cost, Align, EntrySize, ReadEntries, EntryList, FileList,
         ItemsOk;
    KeepsTransitive(b, d.a, g.a);
    KeepsTransitive(a, b, g.a);
    EntriesInHeads(hash, g.h, g.a, s3);
    IndexedAfter(hash, a, s, g.a, s3, p, e);
    MatchesItems(hash, b, g.a, e.items, q.fields);
    XorMatches(hash, g.a.datas, e.items, q.fields);
    EntriesAfter(hash, a, g.a, FileList(s), p, e);
    HeaderAfter(h, g.h, a.entries, FileList(s), p, e);
    ReadAfter(hash, a, g.a, FileList(s), p, e, q.fields);
    InvHeader(hash, g.h, AfterEntry(g.h, p, e), g.a, s3);
  }

  lemma AppendSettled(hash: HashFn, h: Header, a: Arena, s: Shadow, q: Request) returns (s': Shadow)
    requires Settled(hash, h, a, s)
    ensures
      var r := AppendEntry(hash, h, a, q);
      match r.status
      case Fail(e) => AppendFailure(h, q.fields, e)
      case Done =>
        && Settled(hash, r.h, r.a, s') && Keeps(a, r.a)
        && ReadEntries(r.a, FileList(s')) == Some(ReadEntries(a, FileList(s)).value + [NewLogEntry(h, q)])
        && r.h.online == h.online && r.h.tailSeqnum == NextSeqnum(q.seqnum, h.tailSeqnum)
  {
    hide Inv, Complete, Keeps, EntriesOk, Indexed, HeaderOk, Matches, XorAll, Cost, EntrySize, ReadEntries, EntryList, FileList;
    hide AppendDatas, AppendZero, AppendDataRefs, AppendGlobalRef, Align, FieldNameValid;
    s' := s;
    var s1 := AppendDatasOk(hash, h, a, s, q.fields);
    var r := AppendDatas(hash, h, a, q.fields);
    if r.step.status.Done? && |q.fields| <= (UINT64_MODULUS - 1 - 64) / 16 {
      MatchesLength(hash, r.step.a.datas, r.items, q.fields);
      SizesPositive();
      AppendZeroOk(hash, r.step.h, r.step.a, s1, ObjectHeader(ENTRY, EntrySize(|q.fields|)));
      var z := AppendZero(r.step.h, r.step.a, ObjectHeader(ENTRY, EntrySize(|q.fields|)));
      if z.status.Done? {
        WriteEntry(hash, h, a, s, q, r, s1, z);
        var e := NewEntry(r.step.h, r, q);
        var b := z.a.(entries := z.a.entries[z.offset := e]);
        MatchesLength(hash, b.datas, r.items, q.fields);
        var s2 := AppendDataRefsOk(hash, z.h, b, s1, r.items, z.offset);
        var d := AppendDataRefs(z.h, b, r.items, z.offset);
        if d.status.Done? {
          s' := AppendGlobalRefOk(hash, d.h, d.a, s2, z.offset);
          var g := AppendGlobalRef(d.h, d.a, z.offset);
          if g.status.Done? {
            ReferEntry(hash, h, a, s, q, z.h, b, s1, z.offset, e, d, s2, g, s');
          }
        }
      }
    }
  }

  /** One append on a valid file: it fails only for a stated reason; when it
      succeeds the file is valid again, every earlier object keeps its content,
      and reading the file back yields the old log followed by the new entry. */
  lemma AppendExtendsLog(hash: HashFn, h: Header, a: Arena, q: Request)
    requires Valid(hash, h, a)
    ensures ReadLog(h, a).Some?
    ensures
      var r := AppendEntry(hash, h, a, q);
      match r.status
      case Fail(e) => AppendFailure(h, q.fields, e)
      case Done =>
        && Valid(hash, r.h, r.a) && Keeps(a, r.a)
        && ReadLog(r.h, r.a) == Some(ReadLog(h, a).value + [NewLogEntry(h, q)])
        && r.h.online == h.online && r.h.tailSeqnum == NextSeqnum(q.seqnum, h.tailSeqnum)
  {
    hide Inv, Complete, Keeps, EntriesOk, Indexed, HeaderOk, ReadEntries, ReadLog, FileList, AppendEntry, AppendFailure;
    var s :| Settled(hash, h, a, s);
    var s' := AppendSettled(hash, h, a, s, q);
    ReadLogOf(hash, h, a, s);
    var r := AppendEntry(hash, h, a, q);
    if r.status.Done? {
      ReadLogOf(hash, r.h, r.a, s');
    }
  }

  // ---- a new file ----

  const FIRST_FREE: nat := FIELD_TABLE + OBJECT_HEADER_SIZE + HASH_ITEM_SIZE * FIELD_BUCKETS

  /** The objects of a new file: the two hash tables, all buckets empty. */
  function FreshArena(): Arena {
    Arena(map[DATA_TABLE := ObjectHeader(DATA_HASH_TABLE, OBJECT_HEADER_SIZE + HASH_ITEM_SIZE * DATA_BUCKETS),
              FIELD_TABLE := ObjectHeader(FIELD_HASH_TABLE, OBJECT_HEADER_SIZE + HASH_ITEM_SIZE * FIELD_BUCKETS)],
          seq(DATA_BUCKETS, _ => HashItem(0, 0)), seq(FIELD_BUCKETS, _ => HashItem(0, 0)), map[], map[], map[], map[])
  }

  function FreshHeader(bootId: Bytes): Header {
    Header(true, FIRST_FREE - HEADER_SIZE,
           DATA_TABLE + OBJECT_HEADER_SIZE, HASH_ITEM_SIZE * DATA_BUCKETS,
           FIELD_TABLE + OBJECT_HEADER_SIZE, HASH_ITEM_SIZE * FIELD_BUCKETS,
           FIELD_TABLE, 2, 0, 0, 0, 0, 0, 0, 0, bootId, 0, 0, 0, 0, 0, 0)
  }

  function EmptyChains(n: nat): seq<seq<nat>> {
    seq(n, _ => [])
  }

  lemma EmptyTables(hash: HashFn)
    ensures HashIndex(hash, DataNodes(FreshArena().datas), FreshArena().dataTable, EmptyChains(DATA_BUCKETS))
    ensures HashIndex(hash, FieldNodes(FreshArena().fields), FreshArena().fieldTable, EmptyChains(FIELD_BUCKETS))
  {
  }

  lemma TwoTiles(heads: map<nat, ObjectHeader>, p: nat, q: nat)
    requires heads.Keys == {p, q} && p == HEADER_SIZE && Aligned(q) && End(heads, p) == q
    requires 0 < heads[p].size && 0 < heads[q].size
    ensures Tiled(heads, q)
  {
    hide Align;
  }

  lemma FreshTiled(bootId: Bytes)
    ensures LayoutOk(FreshHeader(bootId), FreshArena().heads)
  {
    hide Tiled;
    var heads := FreshArena().heads;
    assert heads.Keys == {DATA_TABLE, FIELD_TABLE};
    assert |heads.Keys| == 2;
    TwoTiles(heads, DATA_TABLE, FIELD_TABLE);
  }

  lemma EmptyKeys()
    ensures KeyIndex(FieldHeads(FreshArena().fields), FieldNexts(FreshArena().datas), map[], map[])
  {
  }

  lemma EmptyRefs()
    ensures RefIndex(RefHeads(FreshArena().datas), 0, FreshArena().arrays, map[0 := []], map[0 := []], map[])
  {
  }

  lemma FreshBodies()
    ensures Headed(FreshArena()) && Complete(FreshArena())
  {
  }

  /** A new file is valid and holds the empty log. */
  lemma FreshIsValid(hash: HashFn, bootId: Bytes)
    ensures Valid(hash, FreshHeader(bootId), FreshArena())
    ensures ReadLog(FreshHeader(bootId), FreshArena()) == Some([])
  {
    hide LayoutOk, HashIndex, DataNodes, FieldNodes, KeyIndex, RefIndex, FieldHeads, FieldNexts, RefHeads, Headed, Complete;
    var s := Shadow(EmptyChains(DATA_BUCKETS), EmptyChains(FIELD_BUCKETS), map[], map[], map[0 := []], map[0 := []], map[]);
    EmptyTables(hash);
    FreshTiled(bootId);
    EmptyKeys();
    EmptyRefs();
    FreshBodies();
    assert Settled(hash, FreshHeader(bootId), FreshArena(), s);
  }

  // ---- whole runs ----

  /** The log entries that a run of appends adds after sequence number `previous`. */
  function Recorded(previous: nat, run: seq<Request>): seq<LogEntry>
    decreases |run|
  {
    if run == [] then []
    else
      var q := run[0];
      var seqnum := NextSeqnum(q.seqnum, previous);
      [LogEntry(seqnum, q.realtime, q.monotonic, q.bootId, q.fields)] + Recorded(seqnum, run[1..])
  }

  function LastSeqnum(previous: nat, run: seq<Request>): nat
    decreases |run|
  {
    if run == [] then previous else LastSeqnum(NextSeqnum(run[0].seqnum, previous), run[1..])
  }

  lemma {:induction false} RecordedOneMore(previous: nat, run: seq<Request>, q: Request)
    ensures
      var last := LastSeqnum(previous, run);
      && Recorded(previous, run + [q]) == Recorded(previous, run) +
           [LogEntry(NextSeqnum(q.seqnum, last), q.realtime, q.monotonic, q.bootId, q.fields)]
      && LastSeqnum(previous, run + [q]) == NextSeqnum(q.seqnum, last)
    decreases |run|
  {
    hide NextSeqnum;
    if run == [] {
      assert run + [q] == [q];
    } else {
      assert (run + [q])[1..] == run[1..] + [q];
      RecordedOneMore(NextSeqnum(run[0].seqnum, previous), run[1..], q);
    }
  }

  /** A sequence number advances exactly when the previous one is not the last
      64-bit value; there it wraps to 0. */
  lemma SeqnumAdvances(requested: nat, previous: nat)
    requires requested < UINT64_MODULUS && previous < UINT64_MODULUS
    ensures NextSeqnum(requested, previous) < UINT64_MODULUS
    ensures NextSeqnum(requested, previous) > previous <==> previous != UINT64_MODULUS - 1
    ensures previous == UINT64_MODULUS - 1 ==> NextSeqnum(requested, previous) == 0
  {
  }

  ghost predicate SeqnumsIncrease(previous: nat, log: seq<LogEntry>) {
    && (forall i :: 0 <= i < |log| ==> previous < log[i].seqnum)
    && (forall i, j :: 0 <= i < j < |log| ==> log[i].seqnum < log[j].seqnum)
  }

  /** Over a whole run the sequence numbers strictly increase if and only if the
      counter stays below its last value before each append. */
  lemma RunSeqnums(previous: nat, run: seq<Request>)
    requires previous < UINT64_MODULUS && Requestable(run)
    ensures SeqnumsIncrease(previous, Recorded(previous, run)) <==> StaysBelow(previous, run)
  {
    hide SeqnumsIncrease, StaysBelow, NoWrap, Recorded;
    IncreaseIff(previous, run);
    NoWrapIff(previous, run);
  }

  predicate Requestable(run: seq<Request>) {
    forall i :: 0 <= i < |run| ==> run[i].seqnum < UINT64_MODULUS
  }

  /** Counting up from the number before the run, or from any number requested in
      it, does not reach the last 64-bit value before the last append. */
  predicate StaysBelow(previous: nat, run: seq<Request>) {
    && (run != [] ==> previous + |run| - 1 < UINT64_MODULUS - 1)
    && (forall j :: 0 <= j < |run| - 1 ==> run[j].seqnum + (|run| - 2 - j) < UINT64_MODULUS - 1)
  }

  /** No append of the run finds the counter at its last value. */
  predicate NoWrap(previous: nat, run: seq<Request>)
    decreases |run|
  {
    run == [] || (previous != UINT64_MODULUS - 1 && NoWrap(NextSeqnum(run[0].seqnum, previous), run[1..]))
  }

  lemma {:induction false} NoWrapIff(previous: nat, run: seq<Request>)
    requires previous < UINT64_MODULUS && Requestable(run)
    ensures NoWrap(previous, run) <==> StaysBelow(previous, run)
    decreases |run|
  {
    if run != [] {
      var next, rest := NextSeqnum(run[0].seqnum, previous), run[1..];
      SeqnumAdvances(run[0].seqnum, previous);
      NoWrapIff(next, rest);
      assert forall j :: 0 <= j < |rest| ==> rest[j] == run[j + 1];
      if previous < UINT64_MODULUS - 1 {
        BelowStep(previous, next, run, rest);
      }
    }
  }

  lemma BelowStep(previous: nat, next: nat, run: seq<Request>, rest: seq<Request>)
    requires run != [] && rest == run[1..] && previous < UINT64_MODULUS - 1
    requires next == if run[0].seqnum > previous then run[0].seqnum else previous + 1
    ensures StaysBelow(previous, run) <==> StaysBelow(next, rest)
  {
    assert forall j :: 0 <= j < |rest| ==> rest[j] == run[j + 1];
    if StaysBelow(previous, run) {
      forall j | 0 <= j < |rest| - 1
        ensures rest[j].seqnum + (|rest| - 2 - j) < UINT64_MODULUS - 1
      {
        assert run[j + 1].seqnum + (|run| - 2 - (j + 1)) < UINT64_MODULUS - 1;
      }
    }
    if StaysBelow(next, rest) {
      forall j | 0 <= j < |run| - 1
        ensures run[j].seqnum + (|run| - 2 - j) < UINT64_MODULUS - 1
      {
        if j > 0 {
          assert rest[j - 1].seqnum + (|rest| - 2 - (j - 1)) < UINT64_MODULUS - 1;
        }
      }
    }
  }

  lemma {:induction false} IncreaseIff(previous: nat, run: seq<Request>)
    requires previous < UINT64_MODULUS && Requestable(run)
    ensures SeqnumsIncrease(previous, Recorded(previous, run)) <==> NoWrap(previous, run)
    decreases |run|
  {
    if run != [] {
      var next := NextSeqnum(run[0].seqnum, previous);
      SeqnumAdvances(run[0].seqnum, previous);
      IncreaseIff(next, run[1..]);
      var log, rest := Recorded(previous, run), Recorded(next, run[1..]);
      assert log[0].seqnum == next && log[1..] == rest;
      hide NextSeqnum, Recorded;
      IncreaseStep(previous, next, log, rest);
    }
  }

  lemma IncreaseStep(previous: nat, next: nat, log: seq<LogEntry>, rest: seq<LogEntry>)
    requires log != [] && log[0].seqnum == next && log[1..] == rest
    ensures SeqnumsIncrease(previous, log) <==> previous < next && SeqnumsIncrease(next, rest)
  {
    assert forall i :: 0 <= i < |rest| ==> rest[i] == log[i + 1];
    if previous < next && SeqnumsIncrease(next, rest) {
      forall j | 0 <= j < |log|
        ensures previous < log[j].seqnum && (j > 0 ==> next < log[j].seqnum)
      {
        assert j > 0 ==> log[j] == rest[j - 1];
      }
      forall i, j | 0 <= i < j < |log|
        ensures log[i].seqnum < log[j].seqnum
      {
        assert i > 0 ==> log[i] == rest[i - 1] && log[j] == rest[j - 1];
      }
    }
    if SeqnumsIncrease(previous, log) {
      forall i | 0 <= i < |rest|
        ensures next < rest[i].seqnum
      {
        assert log[0].seqnum < log[i + 1].seqnum;
      }
      forall i, j | 0 <= i < j < |rest|
        ensures rest[i].seqnum < rest[j].seqnum
      {
        assert log[i + 1].seqnum < log[j + 1].seqnum;
      }
    }
  }

  /** For example a request for the last number in a fresh file: the next entry gets
      the number 0. */
  lemma SeqnumsWrap(first: Request, second: Request)
    requires first.seqnum == UINT64_MODULUS - 1 && second.seqnum < UINT64_MODULUS
    ensures
      var log := Recorded(0, [first, second]);
      |log| == 2 && log[0].seqnum == UINT64_MODULUS - 1 && log[1].seqnum == 0
  {
    var run := [first, second];
    assert run[1..] == [second] && [second][1..] == [];
    assert Recorded(UINT64_MODULUS - 1, [second])[0].seqnum == 0;
  }
}
