/** The remaining chains of a journal file: the DATA objects of each FIELD,
    newest first (`head_data_offset`, `next_field_offset`), and the entry arrays
    that list, in order, the entries of one DATA object or of the whole file. */
module JournalChains {
  import opened JournalFormat
  import opened JournalHashIndex

  /** A family of disjoint chains: `owner` says which chain an offset is on. */
  ghost predicate Owned(chains: map<nat, seq<nat>>, owner: map<nat, nat>) {
    && (forall k, i :: k in chains && 0 <= i < |chains[k]| ==> chains[k][i] in owner && owner[chains[k][i]] == k)
    && (forall a {:trigger owner[a]} :: a in owner ==> owner[a] in chains && a in chains[owner[a]])
  }

  lemma ExtendKeepsOwned(chains: map<nat, seq<nat>>, owner: map<nat, nat>, k: nat, a: nat)
    requires Owned(chains, owner) && k in chains && a !in owner
    ensures Owned(chains[k := chains[k] + [a]], owner[a := k])
  {
    var chains' := chains[k := chains[k] + [a]];
    assert chains'[k][|chains[k]|] == a;
    var owner' := owner[a := k];
    forall b | b in owner'
      ensures owner'[b] in chains' && b in chains'[owner'[b]]
    {
      if b != a {
        assert b in chains[owner[b]];
      }
    }
  }

  lemma EmptyChainKeepsOwned(chains: map<nat, seq<nat>>, owner: map<nat, nat>, k: nat)
    requires Owned(chains, owner) && k !in chains
    ensures Owned(chains[k := []], owner)
  {
    forall a | a in owner
      ensures owner[a] in chains[k := []] && a in chains[k := []][owner[a]]
    {
      assert owner[a] in chains;
    }
  }

  lemma LastIsOwned(chains: map<nat, seq<nat>>, owner: map<nat, nat>, k: nat, j: nat)
    requires Owned(chains, owner) && k in chains && j in chains && j != k && 0 !in owner
    ensures Last(chains[k]) !in chains[j]
  {
    if chains[k] != [] {
      assert owner[chains[k][|chains[k]| - 1]] == k;
    }
  }

  // ---- DATA objects per field ----

  function FieldHeads(fields: map<nat, FieldObject>): map<nat, nat> {
    map p | p in fields :: fields[p].headData
  }

  function FieldNexts(datas: map<nat, DataObject>): map<nat, nat> {
    map p | p in datas :: datas[p].nextField
  }

  /** `c` lists DATA objects oldest first; `nexts` leads back from each one. */
  ghost predicate BackLinked(nexts: map<nat, nat>, c: seq<nat>) {
    && Increasing(c)
    && (forall i :: 0 <= i < |c| ==> c[i] in nexts)
    && (forall i {:trigger nexts[c[i]]} :: 0 <= i < |c| ==> nexts[c[i]] == if i == 0 then 0 else c[i - 1])
  }

  /** `chains[f]` is the DATA chain of field `f`; every DATA object is on the
      chain of its field `owner`. */
  ghost predicate KeyIndex(heads: map<nat, nat>, nexts: map<nat, nat>,
                           chains: map<nat, seq<nat>>, owner: map<nat, nat>)
  {
    && chains.Keys == heads.Keys
    && owner.Keys == nexts.Keys
    && Owned(chains, owner)
    && (forall f :: f in heads ==> heads[f] == Last(chains[f]))
    && (forall f :: f in chains ==> BackLinked(nexts, chains[f]))
  }

  lemma AddFieldKeepsKeys(heads: map<nat, nat>, nexts: map<nat, nat>,
                          chains: map<nat, seq<nat>>, owner: map<nat, nat>, f: nat)
    requires KeyIndex(heads, nexts, chains, owner) && f !in heads
    ensures KeyIndex(heads[f := 0], nexts, chains[f := []], owner)
  {
    hide Owned;
    EmptyChainKeepsOwned(chains, owner, f);
  }

  lemma BackLinkOne(nexts: map<nat, nat>, c: seq<nat>, p: nat)
    requires BackLinked(nexts, c)
    requires p > 0 && forall q :: q in nexts ==> q < p
    ensures BackLinked(nexts[p := Last(c)], c + [p])
  {
    var nexts' := nexts[p := Last(c)];
    var c' := c + [p];
    forall i | 0 <= i < |c'|
      ensures c'[i] in nexts' && nexts'[c'[i]] == if i == 0 then 0 else c'[i - 1]
    {
      if i < |c| {
        assert c'[i] == c[i] && nexts'[c[i]] == nexts[c[i]];
        assert i > 0 ==> c'[i - 1] == c[i - 1];
      } else {
        assert c'[i] == p && (i > 0 ==> c'[i - 1] == c[i - 1]);
      }
    }
    IncreasingNext(c, p);
  }

  lemma IncreasingNext(c: seq<nat>, p: nat)
    requires Increasing(c) && p > 0 && forall i :: 0 <= i < |c| ==> c[i] < p
    ensures Increasing(c + [p])
  {
  }

  lemma BackLinkOther(nexts: map<nat, nat>, c: seq<nat>, p: nat, next: nat)
    requires BackLinked(nexts, c) && p !in nexts
    ensures BackLinked(nexts[p := next], c)
  {
    assert forall i :: 0 <= i < |c| ==> nexts[p := next][c[i]] == nexts[c[i]];
  }

  lemma AddDataKeepsKeys(heads: map<nat, nat>, nexts: map<nat, nat>,
                         chains: map<nat, seq<nat>>, owner: map<nat, nat>, f: nat, p: nat)
    requires KeyIndex(heads, nexts, chains, owner)
    requires f in heads
    requires p > 0 && forall q :: q in nexts ==> q < p
    ensures KeyIndex(heads[f := p], nexts[p := heads[f]], chains[f := chains[f] + [p]], owner[p := f])
  {
    hide BackLinked, Owned;
    var chains' := chains[f := chains[f] + [p]];
    ExtendKeepsOwned(chains, owner, f, p);
    forall g | g in chains'
      ensures BackLinked(nexts[p := heads[f]], chains'[g])
    {
      if g == f {
        BackLinkOne(nexts, chains[f], p);
      } else {
        BackLinkOther(nexts, chains[g], p, heads[f]);
      }
    }
  }

  // ---- entry arrays ----

  /** The part of a DATA object that lists its entries. */
  datatype RefHead = RefHead(first: nat, chain: nat, count: nat)

  function RefHeads(datas: map<nat, DataObject>): map<nat, RefHead> {
    map p | p in datas :: RefHead(datas[p].entryOffset, datas[p].entryArray, datas[p].nEntries)
  }

  type ArrayObjects = map<nat, ArrayObject>

  /** The arrays `c`, threaded from `head`, hold the entries `items`. */
  ghost predicate Chained(arrays: ArrayObjects, c: seq<nat>, items: seq<nat>, head: nat) {
    && |c| == |items|
    && Increasing(c)
    && head == At(c, 0)
    && (forall i :: 0 <= i < |c| ==> c[i] in arrays)
    && (forall i {:trigger arrays[c[i]]} :: 0 <= i < |c| ==> arrays[c[i]] == ArrayObject(At(c, i + 1), items[i]))
  }

  /** The entries listed by a DATA object whose array chain holds `items`. */
  function Listed(r: RefHead, items: seq<nat>): seq<nat> {
    if r.count == 0 then [] else [r.first] + items
  }

  ghost predicate Counted(r: RefHead, items: seq<nat>) {
    && r.count == |Listed(r, items)|
    && (r.count == 0 ==> r.first == 0 && items == [])
  }

  /** The entry list of one DATA object. */
  ghost predicate Lists(arrays: ArrayObjects, r: RefHead, c: seq<nat>, items: seq<nat>) {
    && Chained(arrays, c, items, r.chain)
    && Counted(r, items)
  }

  /** Key 0 is the chain of the file; every other key is a DATA object. */
  ghost predicate RefIndex(heads: map<nat, RefHead>, global: nat, arrays: ArrayObjects,
                           chains: map<nat, seq<nat>>, items: map<nat, seq<nat>>, owner: map<nat, nat>)
  {
    && 0 !in heads
    && chains.Keys == heads.Keys + {0}
    && items.Keys == chains.Keys
    && owner.Keys == arrays.Keys
    && Owned(chains, owner)
    && Chained(arrays, chains[0], items[0], global)
    && (forall p :: p in heads ==> Lists(arrays, heads[p], chains[p], items[p]))
  }

  function LinkArray(arrays: ArrayObjects, tail: nat, a: nat, entry: nat): ArrayObjects {
    var added := arrays[a := ArrayObject(0, entry)];
    if tail in arrays then added[tail := arrays[tail].(next := a)] else added
  }

  lemma ExtendOwnChain(arrays: ArrayObjects, c: seq<nat>, items: seq<nat>, head: nat, a: nat, entry: nat)
    requires Chained(arrays, c, items, head) && 0 !in arrays
    requires a > 0 && forall q :: q in arrays ==> q < a
    ensures Chained(LinkArray(arrays, Last(c), a, entry), c + [a], items + [entry], if head == 0 then a else head)
  {
    var arrays' := LinkArray(arrays, Last(c), a, entry);
    assert |c| > 0 ==> c[|c| - 1] in arrays;
    forall i | 0 <= i < |c + [a]|
      ensures (c + [a])[i] in arrays'
      ensures arrays'[(c + [a])[i]] == ArrayObject(At(c + [a], i + 1), (items + [entry])[i])
    {
      if i < |c| {
        assert c[i] in arrays;
        if i + 1 < |c| {
          assert c[i] < c[|c| - 1];
        }
      }
    }
  }

  lemma ExtendOtherChain(arrays: ArrayObjects, c: seq<nat>, items: seq<nat>, head: nat, tail: nat, a: nat, entry: nat)
    requires Chained(arrays, c, items, head)
    requires tail !in c && a !in arrays
    ensures Chained(LinkArray(arrays, tail, a, entry), c, items, head)
  {
    forall i | 0 <= i < |c|
      ensures c[i] in LinkArray(arrays, tail, a, entry)
      ensures LinkArray(arrays, tail, a, entry)[c[i]] == arrays[c[i]]
    {
      assert c[i] in c;
    }
  }

  /** Extending the chain of `k` leaves every other chain as it was. */
  lemma ExtendChains(arrays: ArrayObjects, chains: map<nat, seq<nat>>, owner: map<nat, nat>,
                     items: seq<nat>, k: nat, a: nat, entry: nat, j: nat, head: nat)
    requires Owned(chains, owner) && k in chains && j in chains && 0 !in arrays && owner.Keys == arrays.Keys
    requires a > 0 && forall q :: q in arrays ==> q < a
    requires Chained(arrays, chains[j], items, head)
    ensures Chained(LinkArray(arrays, Last(chains[k]), a, entry),
                    chains[k := chains[k] + [a]][j],
                    if j == k then items + [entry] else items,
                    if j == k && head == 0 then a else head)
  {
    if j == k {
      ExtendOwnChain(arrays, chains[j], items, head, a, entry);
    } else {
      LastIsOwned(chains, owner, k, j);
      ExtendOtherChain(arrays, chains[j], items, head, Last(chains[k]), a, entry);
    }
  }

  lemma AddDataKeepsRefs(heads: map<nat, RefHead>, global: nat, arrays: ArrayObjects,
                         chains: map<nat, seq<nat>>, items: map<nat, seq<nat>>, owner: map<nat, nat>, p: nat)
    requires RefIndex(heads, global, arrays, chains, items, owner)
    requires p > 0 && p !in heads
    ensures RefIndex(heads[p := RefHead(0, 0, 0)], global, arrays, chains[p := []], items[p := []], owner)
  {
    hide Owned;
    EmptyChainKeepsOwned(chains, owner, p);
    var heads' := heads[p := RefHead(0, 0, 0)];
    assert chains[p := []].Keys == heads'.Keys + {0};
    assert items[p := []].Keys == chains[p := []].Keys;
    forall q | q in heads'
      ensures Lists(arrays, heads'[q], chains[p := []][q], items[p := []][q])
    {
      if q != p {
        assert Lists(arrays, heads[q], chains[q], items[q]);
      }
    }
  }

  /** The first entry of a DATA object is stored inline. */
  function FirstRef(heads: map<nat, RefHead>, p: nat, entry: nat): map<nat, RefHead>
    requires p in heads
  {
    heads[p := RefHead(entry, heads[p].chain, 1)]
  }

  lemma FirstRefKeepsRefs(heads: map<nat, RefHead>, global: nat, arrays: ArrayObjects,
                          chains: map<nat, seq<nat>>, items: map<nat, seq<nat>>, owner: map<nat, nat>, p: nat, entry: nat)
    requires RefIndex(heads, global, arrays, chains, items, owner)
    requires p in heads && heads[p].count == 0
    ensures RefIndex(FirstRef(heads, p, entry), global, arrays, chains, items, owner)
    ensures Listed(FirstRef(heads, p, entry)[p], items[p]) == Listed(heads[p], items[p]) + [entry]
  {
  }

  /** A new array at the end of the file's own chain. */
  lemma ExtendGlobal(heads: map<nat, RefHead>, global: nat, arrays: ArrayObjects,
                     chains: map<nat, seq<nat>>, items: map<nat, seq<nat>>, owner: map<nat, nat>, a: nat, entry: nat)
    requires RefIndex(heads, global, arrays, chains, items, owner) && 0 !in arrays
    requires a > 0 && forall q :: q in arrays ==> q < a
    ensures RefIndex(heads, if global == 0 then a else global, LinkArray(arrays, Last(chains[0]), a, entry),
                     chains[0 := chains[0] + [a]], items[0 := items[0] + [entry]], owner[a := 0])
  {
    hide Chained, Owned, Counted;
    var chains' := chains[0 := chains[0] + [a]];
    ExtendKeepsOwned(chains, owner, 0, a);
    ExtendChains(arrays, chains, owner, items[0], 0, a, entry, 0, global);
    forall p | p in heads
      ensures Lists(LinkArray(arrays, Last(chains[0]), a, entry), heads[p], chains'[p], items[p])
    {
      ExtendChains(arrays, chains, owner, items[p], 0, a, entry, p, heads[p].chain);
    }
    assert chains'.Keys == heads.Keys + {0};
  }

  /** Every later entry of a DATA object is stored through a new array. */
  function NextRef(heads: map<nat, RefHead>, p: nat, a: nat): map<nat, RefHead>
    requires p in heads
  {
    heads[p := RefHead(heads[p].first, if heads[p].chain == 0 then a else heads[p].chain, heads[p].count + 1)]
  }

  lemma ExtendOwnList(arrays: ArrayObjects, r: RefHead, c: seq<nat>, items: seq<nat>, a: nat, entry: nat)
    requires Lists(arrays, r, c, items) && r.count > 0 && 0 !in arrays
    requires a > 0 && forall q :: q in arrays ==> q < a
    ensures
      var r' := RefHead(r.first, if r.chain == 0 then a else r.chain, r.count + 1);
      && Lists(LinkArray(arrays, Last(c), a, entry), r', c + [a], items + [entry])
      && Listed(r', items + [entry]) == Listed(r, items) + [entry]
  {
    ExtendOwnChain(arrays, c, items, r.chain, a, entry);
    assert [r.first] + (items + [entry]) == [r.first] + items + [entry];
  }

  lemma ExtendData(heads: map<nat, RefHead>, global: nat, arrays: ArrayObjects,
                   chains: map<nat, seq<nat>>, items: map<nat, seq<nat>>, owner: map<nat, nat>, k: nat, a: nat, entry: nat)
    requires RefIndex(heads, global, arrays, chains, items, owner) && 0 !in arrays
    requires a > 0 && forall q :: q in arrays ==> q < a
    requires k in heads && heads[k].count > 0
    ensures RefIndex(NextRef(heads, k, a), global, LinkArray(arrays, Last(chains[k]), a, entry),
                     chains[k := chains[k] + [a]], items[k := items[k] + [entry]], owner[a := k])
  {
    hide Chained, Owned, Counted;
    var heads' := NextRef(heads, k, a);
    var chains' := chains[k := chains[k] + [a]];
    var items' := items[k := items[k] + [entry]];
    ExtendKeepsOwned(chains, owner, k, a);
    ExtendChains(arrays, chains, owner, items[0], k, a, entry, 0, global);
    ExtendOwnList(arrays, heads[k], chains[k], items[k], a, entry);
    forall p | p in heads'
      ensures Lists(LinkArray(arrays, Last(chains[k]), a, entry), heads'[p], chains'[p], items'[p])
    {
      if p != k {
        assert Lists(arrays, heads[p], chains[p], items[p]);
        ExtendChains(arrays, chains, owner, items[p], k, a, entry, p, heads[p].chain);
      }
    }
    assert heads'.Keys == heads.Keys && chains'.Keys == chains.Keys && items'.Keys == items.Keys;
  }
}
