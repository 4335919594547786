/** The two chained hash tables of a journal file. DATA and FIELD objects are
    both seen as nodes with a hash, a `next_hash_offset` and a content, so one
    theory covers `find_*_object` and `link_hash_object` for both tables. */
module JournalHashIndex {
  import opened Basics
  import opened JournalFormat

  type HashFn = Bytes -> nat

  datatype Node = Node(hash: nat, next: nat, content: Bytes)

  type Nodes = map<nat, Node>

  function FieldNodes(fields: map<nat, FieldObject>): Nodes {
    map p | p in fields :: Node(fields[p].hash, fields[p].nextHash, fields[p].name)
  }

  function DataNodes(datas: map<nat, DataObject>): Nodes {
    map p | p in datas :: Node(datas[p].hash, datas[p].nextHash, datas[p].payload)
  }

  function Bucket(h: nat, n: nat): (b: nat)
    requires n > 0
    ensures b < n
  {
    h % n
  }

  /** Strictly increasing, nonzero offsets. */
  ghost predicate Increasing(c: seq<nat>) {
    && (forall i :: 0 <= i < |c| ==> 0 < c[i])
    && (forall i, j :: 0 <= i < j < |c| ==> c[i] < c[j])
  }

  function At(c: seq<nat>, i: nat): nat {
    if i < |c| then c[i] else 0
  }

  function Last(c: seq<nat>): nat {
    if c == [] then 0 else c[|c| - 1]
  }

  /** `c` is the chain that starts at `item.head`, ends at `item.tail` and is
      threaded through `next`. */
  ghost predicate Linked(nodes: Nodes, c: seq<nat>, item: HashItem) {
    && Increasing(c)
    && item == HashItem(At(c, 0), Last(c))
    && (forall i :: 0 <= i < |c| ==> c[i] in nodes)
    && (forall i {:trigger nodes[c[i]]} :: 0 <= i < |c| ==> nodes[c[i]].next == At(c, i + 1))
  }

  /** Every object is in the chain of its bucket, chains hold nothing else, and no
      content is stored twice. */
  ghost predicate Placed(hash: HashFn, nodes: Nodes, chains: seq<seq<nat>>) {
    && 0 < |chains|
    && (forall b, i :: 0 <= b < |chains| && 0 <= i < |chains[b]| ==> chains[b][i] in nodes)
    && (forall b, i {:trigger nodes[chains[b][i]]} :: 0 <= b < |chains| && 0 <= i < |chains[b]| ==>
          Bucket(nodes[chains[b][i]].hash, |chains|) == b)
    && (forall p {:trigger nodes[p]} :: p in nodes ==> nodes[p].hash == hash(nodes[p].content))
    && (forall p {:trigger nodes[p]} :: p in nodes ==> p in chains[Bucket(nodes[p].hash, |chains|)])
    && (forall p, q {:trigger nodes[p], nodes[q]} :: p in nodes && q in nodes && nodes[p].content == nodes[q].content ==> p == q)
  }

  /** A complete, duplicate-free and correctly threaded hash table. */
  ghost predicate HashIndex(hash: HashFn, nodes: Nodes, table: seq<HashItem>, chains: seq<seq<nat>>) {
    && |table| == |chains|
    && Placed(hash, nodes, chains)
    && (forall b :: 0 <= b < |chains| ==> Linked(nodes, chains[b], table[b]))
  }

  /** What `link_hash_object` does to the nodes and to one bucket. */
  function LinkNodes(nodes: Nodes, tail: nat, p: nat, node: Node): Nodes {
    var added := nodes[p := node];
    if tail != 0 && tail in added then added[tail := added[tail].(next := p)] else added
  }

  function LinkItem(item: HashItem, p: nat): HashItem {
    HashItem(if item.tail == 0 then p else item.head, p)
  }

  lemma LinkOwnChain(nodes: Nodes, c: seq<nat>, item: HashItem, p: nat, node: Node)
    requires Linked(nodes, c, item) && 0 !in nodes
    requires p > 0 && node.next == 0 && forall q :: q in nodes ==> q < p
    ensures Linked(LinkNodes(nodes, item.tail, p, node), c + [p], LinkItem(item, p))
  {
    var nodes' := LinkNodes(nodes, item.tail, p, node);
    var c' := c + [p];
    forall i | 0 <= i < |c'|
      ensures c'[i] in nodes' && nodes'[c'[i]].next == At(c', i + 1)
    {
      if i < |c| {
        assert c[i] in nodes;
        if i + 1 < |c| {
          assert c[i] < c[|c| - 1];
        }
      }
    }
  }

  lemma LinkOtherChain(nodes: Nodes, c: seq<nat>, item: HashItem, tail: nat, p: nat, node: Node)
    requires Linked(nodes, c, item)
    requires tail !in c && p !in nodes
    ensures Linked(LinkNodes(nodes, tail, p, node), c, item)
  {
    forall i | 0 <= i < |c|
      ensures c[i] in LinkNodes(nodes, tail, p, node) && LinkNodes(nodes, tail, p, node)[c[i]] == nodes[c[i]]
    {
      assert c[i] in c;
    }
  }

  lemma LinkKeepsPlaced(hash: HashFn, nodes: Nodes, chains: seq<seq<nat>>, tail: nat, p: nat, content: Bytes)
    requires Placed(hash, nodes, chains)
    requires p !in nodes && forall q :: q in nodes ==> nodes[q].content != content
    ensures
      var b := Bucket(hash(content), |chains|);
      Placed(hash, LinkNodes(nodes, tail, p, Node(hash(content), 0, content)), chains[b := chains[b] + [p]])
  {
    var n := |chains|;
    var b := Bucket(hash(content), n);
    var nodes' := LinkNodes(nodes, tail, p, Node(hash(content), 0, content));
    var chains' := chains[b := chains[b] + [p]];
    assert forall q :: q in nodes' ==>
      if q == p then nodes'[q].hash == hash(content) && nodes'[q].content == content
      else q in nodes && nodes'[q].hash == nodes[q].hash && nodes'[q].content == nodes[q].content;
    forall k, i | 0 <= k < n && 0 <= i < |chains'[k]|
      ensures chains'[k][i] in nodes' && Bucket(nodes'[chains'[k][i]].hash, n) == k
    {
      if !(k == b && i == |chains[b]|) {
        assert chains'[k][i] == chains[k][i];
      }
    }
    forall q | q in nodes'
      ensures q in chains'[Bucket(nodes'[q].hash, n)]
    {
      if q != p {
        assert q in chains[Bucket(nodes[q].hash, n)];
      } else {
        assert chains'[b][|chains[b]|] == p;
      }
    }
  }

  /** Linking a new object with fresh content at the end of its bucket keeps the
      index complete and duplicate-free. */
  lemma LinkKeepsIndex(hash: HashFn, nodes: Nodes, table: seq<HashItem>, chains: seq<seq<nat>>, p: nat, content: Bytes)
    requires HashIndex(hash, nodes, table, chains) && 0 !in nodes
    requires p > 0 && forall q :: q in nodes ==> q < p && nodes[q].content != content
    ensures
      var b := Bucket(hash(content), |chains|);
      HashIndex(hash,
                LinkNodes(nodes, table[b].tail, p, Node(hash(content), 0, content)),
                table[b := LinkItem(table[b], p)],
                chains[b := chains[b] + [p]])
  {
    var node := Node(hash(content), 0, content);
    var b := Bucket(hash(content), |chains|);
    var tail := table[b].tail;
    var nodes' := LinkNodes(nodes, tail, p, node);
    var chains' := chains[b := chains[b] + [p]];
    hide Placed, Linked, LinkNodes, LinkItem, Bucket;
    LinkKeepsPlaced(hash, nodes, chains, tail, p, content);
    forall k | 0 <= k < |chains'|
      ensures Linked(nodes', chains'[k], table[b := LinkItem(table[b], p)][k])
    {
      assert Linked(nodes, chains[k], table[k]);
      if k == b {
        LinkOwnChain(nodes, chains[b], table[b], p, node);
      } else {
        TailIsElsewhere(hash, nodes, table, chains, b, k);
        LinkOtherChain(nodes, chains[k], table[k], tail, p, node);
      }
    }
  }

  lemma TailIsElsewhere(hash: HashFn, nodes: Nodes, table: seq<HashItem>, chains: seq<seq<nat>>, b: nat, k: nat)
    requires HashIndex(hash, nodes, table, chains) && b < |chains| && k < |chains| && b != k
    ensures table[b].tail !in chains[k]
  {
    hide Bucket;
    assert Linked(nodes, chains[b], table[b]) && Linked(nodes, chains[k], table[k]);
    forall i | 0 <= i < |chains[k]|
      ensures chains[k][i] != table[b].tail
    {
      assert Bucket(nodes[chains[k][i]].hash, |chains|) == k;
    }
  }

  /** A bucket holds exactly the nodes that hash to it. */
  lemma ChainIsBucket(hash: HashFn, nodes: Nodes, table: seq<HashItem>, chains: seq<seq<nat>>, b: nat, p: nat)
    requires HashIndex(hash, nodes, table, chains) && b < |chains|
    ensures p in chains[b] <==> p in nodes && Bucket(nodes[p].hash, |chains|) == b
  {
    if p in chains[b] {
      var i :| 0 <= i < |chains[b]| && chains[b][i] == p;
      assert Linked(nodes, chains[b], table[b]);
    }
  }
}
