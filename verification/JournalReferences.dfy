/** The references from DATA objects and from the file to a new entry. */
module JournalReferences {
  import opened Basics
  import opened JournalFormat
  import opened JournalHashIndex
  import opened JournalChains
  import opened JournalState
  import opened JournalSteps
  import opened JournalSpec
  import opened JournalProof

  function Repeat(entry: nat, n: nat): seq<nat> {
    seq(n, _ => entry)
  }

  /** How often `items` names the object `p`. */
  function Times(items: seq<EntryItem>, p: nat): nat {
    if items == [] then 0
    else Times(items[..|items| - 1], p) + if items[|items| - 1].offset == p then 1 else 0
  }

  /** What a reference step keeps. */
  ghost predicate RefStep(hash: HashFn, h: Header, a: Arena, r: Step, s': Shadow) {
    && r.status.Done? && Inv(hash, r.h, r.a, s') && Complete(r.a) && Keeps(a, r.a)
    && r.a.entries == a.entries && r.a.datas.Keys == a.datas.Keys
    && h.arenaSize <= r.h.arenaSize
  }

  /** `p` lists `n` more occurrences of `entry`; nothing else changes. */
  ghost predicate Adds(a: Arena, s: Shadow, b: Arena, s': Shadow, items: seq<EntryItem>, entry: nat) {
    && FileList(s') == FileList(s)
    && forall p :: EntryList(b, s', p) == EntryList(a, s, p) + Repeat(entry, Times(items, p))
  }

  // ---- one reference from a DATA object ----

  lemma SetRefsKeepsBodies(a: Arena, z: Arena, p: nat, r: RefHead, arrays: ArrayObjects)
    requires Complete(a) && p in a.datas
    requires z == a.(heads := z.heads)
    requires forall q :: q in a.heads ==> q in z.heads && z.heads[q] == a.heads[q]
    requires forall q :: q in z.heads && q !in a.heads ==> z.heads[q].type_ == ENTRY_ARRAY && q in arrays
    requires forall q :: q in a.arrays ==> q in arrays && arrays[q].item == a.arrays[q].item
    ensures
      var b := z.(arrays := arrays, datas := SetRefs(a.datas, p, r));
      Complete(b) && Keeps(a, b) && b.datas.Keys == a.datas.Keys
  {
    var b := z.(arrays := arrays, datas := SetRefs(a.datas, p, r));
    forall q | q in b.heads
      ensures HasBody(b, q)
    {
      if q in a.heads {
        assert HasBody(a, q);
      }
    }
  }

  /** The new list of `d` and the unchanged lists of all others. */
  ghost predicate AddsOne(a: Arena, s: Shadow, b: Arena, s': Shadow, d: nat, entry: nat) {
    && FileList(s') == FileList(s)
    && EntryList(b, s', d) == EntryList(a, s, d) + [entry]
    && forall p :: p != d ==> EntryList(b, s', p) == EntryList(a, s, p)
  }

  lemma FirstRefOk(hash: HashFn, h: Header, a: Arena, s: Shadow, d: nat, entry: nat)
    requires Inv(hash, h, a, s) && Complete(a) && d in a.datas && a.datas[d].nEntries == 0
    ensures
      var a' := a.(datas := SetRefs(a.datas, d, RefHead(entry, a.datas[d].entryArray, 1)));
      RefStep(hash, h, a, Step(Done, h, a', 0), s) && AddsOne(a, s, a', s, d, entry)
  {
    hide Inv, Complete, Keeps;
    EmptyList(hash, h, a, s, d);
    FirstRefKeepsInv(hash, h, a, s, d, entry);
    SetRefsKeepsBodies(a, a, d, RefHead(entry, a.datas[d].entryArray, 1), a.arrays);
  }

  lemma EmptyList(hash: HashFn, h: Header, a: Arena, s: Shadow, d: nat)
    requires Inv(hash, h, a, s) && d in a.datas && a.datas[d].nEntries == 0
    ensures d in s.refItems && s.refItems[d] == []
  {
    hide HashIndex, KeyIndex, Named, LayoutOk, Headed, Counters, TablesOk, Chained, Owned;
    RefHeadOf(a.datas, d);
    hide RefHeads;
    assert Lists(a.arrays, RefHeads(a.datas)[d], s.refChains[d], s.refItems[d]);
  }

  lemma ArrayChainOf(hash: HashFn, h: Header, a: Arena, s: Shadow, d: nat)
    requires Inv(hash, h, a, s) && d in a.datas && a.datas[d].nEntries > 0
    ensures d != 0 && d in s.refChains && d in s.refItems
    ensures Chained(a.arrays, s.refChains[d], s.refItems[d], a.datas[d].entryArray)
    ensures a.datas[d].nEntries == 1 + |s.refItems[d]|
  {
    hide HashIndex, KeyIndex, Named, LayoutOk, Headed, Counters, TablesOk, Chained, Owned;
    RefHeadOf(a.datas, d);
    hide RefHeads;
    assert Lists(a.arrays, RefHeads(a.datas)[d], s.refChains[d], s.refItems[d]);
  }

  lemma LastArrayOf(arrays: ArrayObjects, c: seq<nat>, items: seq<nat>, head: nat, p: nat, entry: nat)
    requires Chained(arrays, c, items, head) && 0 !in arrays && p !in arrays
    ensures
      var added := arrays[p := ArrayObject(0, entry)];
      if head == 0 then added == LinkArray(arrays, Last(c), p, entry)
      else
        && LastArray(added, head) == Found(Last(c))
        && SetNext(added, Last(c), p) == LinkArray(arrays, Last(c), p, entry)
  {
    var added := arrays[p := ArrayObject(0, entry)];
    assert c != [] ==> c[0] in arrays && c[|c| - 1] in arrays;
    assert 0 !in c;
    ExtendOtherChain(arrays, c, items, head, 0, p, entry);
    if c != [] {
      LastArrayFrom(added, c, items, head, 0);
    }
  }

  lemma NextRefOk(hash: HashFn, h: Header, a: Arena, s: Shadow, z: Step, d: nat, entry: nat)
    requires Inv(hash, h, a, s) && Complete(a) && d in a.datas && a.datas[d].nEntries > 0
    requires z == AppendZero(h, a, ObjectHeader(ENTRY_ARRAY, ARRAY_SIZE)) && z.status.Done?
    ensures d in s.refChains && d in s.refItems
    ensures
      var a' := z.a.(arrays := LinkArray(a.arrays, Last(s.refChains[d]), z.offset, entry),
                     datas := SetRefs(a.datas, d, NextHead(a.datas[d], z.offset)));
      var s' := RefShadow(s, d, z.offset, entry);
      && RefStep(hash, h, a, Step(Done, z.h.(nEntryArrays := z.h.nEntryArrays + 1), a', 0), s')
      && AddsOne(a, s, a', s', d, entry)
  {
    hide Inv, Complete, Keeps, AppendZero, TooBig, Align, Chained;
    AppendZeroOk(hash, h, a, s, ObjectHeader(ENTRY_ARRAY, ARRAY_SIZE));
    ArrayChainOf(hash, h, a, s, d);
    NextRefKeepsInv(hash, z.h, z.a, s, d, z.offset, entry);
    SetRefsKeepsBodies(a, z.a, d, NextHead(a.datas[d], z.offset), LinkArray(a.arrays, Last(s.refChains[d]), z.offset, entry));
  }

  /** `append_data_entry_reference` adds the entry to the list of `d` only; its
      walk always finds the last array. */
  lemma AppendDataRefOk(hash: HashFn, h: Header, a: Arena, s: Shadow, d: nat, entry: nat) returns (s': Shadow)
    requires Inv(hash, h, a, s) && Complete(a) && d in a.datas
    ensures
      var r := AppendDataRef(h, a, d, entry);
      match r.status
      case Fail(e) => e == EFBIG && NoRoom(h, ARRAY_SIZE)
      case Done =>
        && RefStep(hash, h, a, r, s') && AddsOne(a, s, r.a, s', d, entry)
        && SameLog(h, r.h) && r.h.arenaSize <= h.arenaSize + ARRAY_SIZE
  {
    hide Inv, Complete, Keeps, AppendZero, Chained, LinkArray, SetNext, LastArray, RefStep, AddsOne, SetRefs;
    s' := s;
    if a.datas[d].nEntries == 0 {
      FirstRefOk(hash, h, a, s, d, entry);
    } else {
      var o := ObjectHeader(ENTRY_ARRAY, ARRAY_SIZE);
      AppendZeroOk(hash, h, a, s, o);
      assert Align(ARRAY_SIZE) == ARRAY_SIZE;
      hide Align;
      var z := AppendZero(h, a, o);
      if z.status.Done? {
        NoArrayAtZero(hash, h, a, s);
        ArrayChainOf(hash, h, a, s, d);
        LastArrayOf(a.arrays, s.refChains[d], s.refItems[d], a.datas[d].entryArray, z.offset, entry);
        NextRefOk(hash, h, a, s, z, d, entry);
        s' := RefShadow(s, d, z.offset, entry);
      }
    }
  }

  lemma NoArrayAtZero(hash: HashFn, h: Header, a: Arena, s: Shadow)
    requires Inv(hash, h, a, s)
    ensures 0 !in a.arrays
  {
    hide HashIndex, KeyIndex, Named, Counters, TablesOk, RefIndex, Align, Aligned;
  }

  lemma AddsNothing(a: Arena, s: Shadow, entry: nat)
    ensures Adds(a, s, a, s, [], entry)
  {
  }

  lemma AddsThenOne(a: Arena, s: Shadow, b: Arena, s1: Shadow, c: Arena, s2: Shadow, items: seq<EntryItem>, item: EntryItem, entry: nat)
    requires Adds(a, s, b, s1, items, entry) && AddsOne(b, s1, c, s2, item.offset, entry)
    ensures Adds(a, s, c, s2, items + [item], entry)
  {
    hide EntryList, FileList;
    assert (items + [item])[..|items + [item]| - 1] == items;
    forall p
      ensures EntryList(c, s2, p) == EntryList(a, s, p) + Repeat(entry, Times(items + [item], p))
    {
      assert Repeat(entry, Times(items, p)) + [entry] == Repeat(entry, Times(items, p) + 1);
      assert EntryList(a, s, p) + Repeat(entry, Times(items, p)) + [entry] == EntryList(a, s, p) + (Repeat(entry, Times(items, p)) + [entry]);
    }
  }

  lemma RefStepsCompose(hash: HashFn, h: Header, a: Arena, r: Step, s1: Shadow, d: Step, s2: Shadow)
    requires RefStep(hash, h, a, r, s1) && RefStep(hash, r.h, r.a, d, s2)
    ensures RefStep(hash, h, a, d, s2)
  {
    hide Inv, Complete, Keeps;
    KeepsTransitive(a, r.a, d.a);
  }

  lemma {:induction false} AppendDataRefsOk(hash: HashFn, h: Header, a: Arena, s: Shadow, items: seq<EntryItem>, entry: nat) returns (s': Shadow)
    requires Inv(hash, h, a, s) && Complete(a)
    requires forall i :: 0 <= i < |items| ==> items[i].offset in a.datas
    ensures
      var r := AppendDataRefs(h, a, items, entry);
      match r.status
      case Fail(e) => e == EFBIG && NoRoom(h, ARRAY_SIZE * |items|)
      case Done =>
        && RefStep(hash, h, a, r, s') && Adds(a, s, r.a, s', items, entry)
        && SameLog(h, r.h) && r.h.arenaSize <= h.arenaSize + ARRAY_SIZE * |items|
  {
    hide Inv, Complete, Keeps, AddsOne, Adds, AppendDataRef;
    s' := s;
    if items == [] {
      KeepsItself(a);
      AddsNothing(a, s, entry);
    } else {
      var front := items[..|items| - 1];
      var item := items[|items| - 1];
      assert front + [item] == items;
      s' := AppendDataRefsOk(hash, h, a, s, front, entry);
      var r := AppendDataRefs(h, a, front, entry);
      if r.status.Done? {
        var s1 := s';
        s' := AppendDataRefOk(hash, r.h, r.a, s1, item.offset, entry);
        var d := AppendDataRef(r.h, r.a, item.offset, entry);
        if d.status.Done? {
          AddsThenOne(a, s, r.a, s1, d.a, s', front, item, entry);
          RefStepsCompose(hash, h, a, r, s1, d, s');
        }
      }
    }
  }

  // ---- the reference from the file ----

  lemma TailArray(hash: HashFn, h: Header, a: Arena, s: Shadow)
    requires Inv(hash, h, a, s)
    ensures 0 in s.refChains && 0 in s.refItems && FileList(s) == s.refItems[0]
    ensures Chained(a.arrays, s.refChains[0], s.refItems[0], h.entryArray)
    ensures h.tailEntryArray == Last(s.refChains[0])
  {
    hide HashIndex, KeyIndex, Named, Counters, TablesOk, LayoutOk, Headed, Lists, Owned;
  }

  lemma GlobalArrays(arrays: ArrayObjects, c: seq<nat>, items: seq<nat>, head: nat, p: nat, entry: nat)
    requires Chained(arrays, c, items, head) && 0 !in arrays && p !in arrays
    ensures head == 0 <==> Last(c) == 0
    ensures
      var added := arrays[p := ArrayObject(0, entry)];
      (if head == 0 then added else SetNext(added, Last(c), p)) == LinkArray(arrays, Last(c), p, entry)
  {
    assert c != [] ==> c[|c| - 1] in arrays && c[0] in arrays;
  }

  lemma GlobalKeepsBodies(a: Arena, z: Arena, p: nat, tail: nat, entry: nat)
    requires Complete(a) && p !in a.heads && p !in a.arrays
    requires z == a.(heads := a.heads[p := ObjectHeader(ENTRY_ARRAY, ARRAY_SIZE)])
    ensures
      var b := z.(arrays := LinkArray(a.arrays, tail, p, entry));
      Complete(b) && Keeps(a, b)
  {
    var b := z.(arrays := LinkArray(a.arrays, tail, p, entry));
    forall q | q in b.heads
      ensures HasBody(b, q)
    {
      if q != p {
        assert HasBody(a, q);
      }
    }
  }

  /** The invariant depends only on these header fields. */
  lemma InvHeader(hash: HashFn, h: Header, h': Header, a: Arena, s: Shadow)
    requires Inv(hash, h, a, s)
    requires h' == h.(nEntries := h'.nEntries, tailSeqnum := h'.tailSeqnum, headSeqnum := h'.headSeqnum,
                      headRealtime := h'.headRealtime, tailRealtime := h'.tailRealtime, tailMonotonic := h'.tailMonotonic,
                      tailBootId := h'.tailBootId, tailEntryArrayEntries := h'.tailEntryArrayEntries, tailEntry := h'.tailEntry,
                      online := h'.online)
    ensures Inv(hash, h', a, s)
  {
    hide HashIndex, KeyIndex, Named, RefIndex, Tiled, Headed, DataNodes, FieldNodes, FieldHeads, FieldNexts, RefHeads;
  }

  /** The entry is now the last one of the file; no DATA object changed. */
  ghost predicate AddsToFile(a: Arena, s: Shadow, b: Arena, s': Shadow, entry: nat) {
    && FileList(s') == FileList(s) + [entry]
    && forall p :: p != 0 ==> EntryList(b, s', p) == EntryList(a, s, p)
  }

  /** `append_global_entry_reference` fails only when the array would lie beyond
      32 bits. */
  lemma AppendGlobalRefOk(hash: HashFn, h: Header, a: Arena, s: Shadow, entry: nat) returns (s': Shadow)
    requires Inv(hash, h, a, s) && Complete(a)
    ensures
      var r := AppendGlobalRef(h, a, entry);
      match r.status
      case Fail(e) => e == EFBIG && HEADER_SIZE + h.arenaSize + ARRAY_SIZE > U32_MAX
      case Done =>
        && RefStep(hash, h, a, r, s') && AddsToFile(a, s, r.a, s', entry)
        && r.h.tailObject <= U32_MAX && r.h.tailEntryArray == r.h.tailObject
        && SameLog(h.(entryArray := r.h.entryArray, tailEntryArray := r.h.tailEntryArray, tailEntryArrayEntries := 1), r.h)
  {
    hide Inv, Complete, Keeps, AppendZero, Chained, LinkArray, SetNext, Listed;
    s' := s;
    var o := ObjectHeader(ENTRY_ARRAY, ARRAY_SIZE);
    AppendZeroOk(hash, h, a, s, o);
    assert Align(ARRAY_SIZE) == ARRAY_SIZE;
    hide Align;
    var z := AppendZero(h, a, o);
    if z.status.Done? {
      NoArrayAtZero(hash, h, a, s);
      TailArray(hash, h, a, s);
      GlobalArrays(a.arrays, s.refChains[0], s.refItems[0], h.entryArray, z.offset, entry);
      GlobalRefKeepsInv(hash, z.h, z.a, s, z.offset, entry);
      GlobalKeepsBodies(a, z.a, z.offset, h.tailEntryArray, entry);
      s' := RefShadow(s, 0, z.offset, entry);
      var g := z.h.(nEntryArrays := z.h.nEntryArrays + 1, entryArray := if h.entryArray == 0 then z.offset else h.entryArray,
                    tailEntryArray := z.offset);
      InvHeader(hash, g, g.(tailEntryArrayEntries := 1), z.a.(arrays := LinkArray(a.arrays, h.tailEntryArray, z.offset, entry)), s');
    }
  }
}
