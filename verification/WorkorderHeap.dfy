/** The workorder as linked objects: cloning a group, rewriting the clone in place, and swapping
    the bytes of one that has arrived (src/workorder.c, the first half of tx_group_t in
    src/handshake.c).  A group node `Represents` a group value when following its links gives the
    lists of that value; every method says which value the nodes stand for afterwards. */
module WorkorderHeap {
  import opened ByteOrder
  import opened Workorder
  import opened WorkorderWire

  class FlowopNode {
    var f: Flowop
    var next: FlowopNode?

    /** A zeroed object that is then filled. */
    constructor (f: Flowop)
      ensures this.f == f && next == null
    {
      this.f, next := f, null;
    }

    /** memcpy: the copy's link leads where the original's does. */
    constructor Copy(o: FlowopNode)
      ensures f == o.f && next == o.next
    {
      f, next := o.f, o.next;
    }
  }

  class TxnNode {
    var hdr: TxnHdr
    var next: TxnNode?
    var flist: FlowopNode?
    ghost var flowops: seq<FlowopNode>     // the nodes reachable from flist, in order

    constructor (hdr: TxnHdr)
      ensures this.hdr == hdr && next == null && flist == null && flowops == []
    {
      this.hdr, next, flist, flowops := hdr, null, null, [];
    }

    constructor Copy(o: TxnNode)
      ensures hdr == o.hdr && next == o.next && flist == o.flist && flowops == o.flowops
    {
      hdr, next, flist, flowops := o.hdr, o.next, o.flist, o.flowops;
    }
  }

  function FlowopAt(ns: seq<FlowopNode>, k: nat): FlowopNode? { if k < |ns| then ns[k] else null }

  function TxnAt(ts: seq<TxnNode>, k: nat): TxnNode? { if k < |ts| then ts[k] else null }

  /** From `head` the links lead through exactly these nodes, none of them twice, and end. */
  ghost predicate FlowopChain(ns: seq<FlowopNode>, head: FlowopNode?)
    reads ns`next
  {
    && head == FlowopAt(ns, 0)
    && (forall j :: 0 <= j < |ns| ==> ns[j].next == FlowopAt(ns, j + 1))
    && (forall j, k :: 0 <= j < k < |ns| ==> ns[j] != ns[k])
  }

  ghost predicate TxnChain(ts: seq<TxnNode>, head: TxnNode?)
    reads ts`next
  {
    && head == TxnAt(ts, 0)
    && (forall i :: 0 <= i < |ts| ==> ts[i].next == TxnAt(ts, i + 1))
  }

  ghost predicate Holds(ns: seq<FlowopNode>, fs: seq<Flowop>)
    reads ns`f
  {
    |ns| == |fs| && forall j :: 0 <= j < |ns| ==> ns[j].f == fs[j]
  }

  ghost predicate IsTxn(t: TxnNode, v: Txn)
    reads t`hdr, t`flist, t`flowops, t.flowops
  {
    t.hdr == v.hdr && FlowopChain(t.flowops, t.flist) && Holds(t.flowops, v.flist)
  }

  ghost predicate Apart(t: TxnNode, u: TxnNode)
    reads t`flowops, u`flowops
  {
    t != u && forall f :: f in t.flowops ==> f !in u.flowops
  }

  /** The nodes `ts` hold the contents `vs` in the flowop nodes `fnodes`, and no node belongs to two
      transactions. */
  ghost predicate TxnNodes(ts: seq<TxnNode>, vs: seq<Txn>, fnodes: set<FlowopNode>)
    reads ts`hdr, ts`flist, ts`flowops, fnodes
  {
    && |ts| == |vs|
    && (forall i :: 0 <= i < |ts| ==> (forall f :: f in ts[i].flowops ==> f in fnodes) && IsTxn(ts[i], vs[i]))
    && (forall i, k :: 0 <= i < k < |ts| ==> Apart(ts[i], ts[k]))
  }

  class GroupNode {
    var hdr: GroupHdr
    var tlist: TxnNode?
    ghost var txns: seq<TxnNode>          // the nodes reachable from tlist, in order
    ghost var flowops: set<FlowopNode>    // the flowop nodes of all of them

    ghost predicate Represents(g: Group)
      reads this, txns, flowops
    {
      hdr == g.hdr && TxnNodes(txns, g.tlist, flowops) && TxnChain(txns, tlist)
    }

    constructor (hdr: GroupHdr)
      ensures this.hdr == hdr && tlist == null && txns == [] && flowops == {}
    {
      this.hdr, tlist, txns, flowops := hdr, null, [], {};
    }

    constructor Copy(o: GroupNode)
      ensures hdr == o.hdr && tlist == o.tlist && txns == o.txns && flowops == o.flowops
    {
      hdr, tlist, txns, flowops := o.hdr, o.tlist, o.txns, o.flowops;
    }
  }

  /** From now on the group's lists are `ts`, which its links lead through already. */
  ghost method Adopt(g: GroupNode, ts: seq<TxnNode>, fnodes: set<FlowopNode>, v: Group)
    requires g.hdr == v.hdr && TxnNodes(ts, v.tlist, fnodes) && TxnChain(ts, g.tlist)
    modifies g`txns, g`flowops
    ensures g.Represents(v) && g.txns == ts && g.flowops == fnodes
  {
    g.txns, g.flowops := ts, fnodes;
  }

  /** No link of a group leads out of its own nodes. */
  lemma LinksStayInside(g: GroupNode, v: Group)
    requires g.Represents(v)
    ensures g.tlist == null || g.tlist in g.txns
    ensures forall t :: t in g.txns ==>
              (t.next == null || t.next in g.txns) && (t.flist == null || t.flist in g.flowops)
    ensures forall t, f :: t in g.txns && f in t.flowops ==> f.next == null || f.next in g.flowops
  {
    forall t | t in g.txns
      ensures (t.next == null || t.next in g.txns) && (t.flist == null || t.flist in g.flowops)
      ensures forall f :: f in t.flowops ==> f.next == null || f.next in g.flowops
    {
      var i :| 0 <= i < |g.txns| && g.txns[i] == t;
      assert IsTxn(g.txns[i], v.tlist[i]) && g.txns[i].next == TxnAt(g.txns, i + 1);
    }
  }

  // ---- Building lists ----

  /** The nodes built so far: all but the last lead to their successor, which the next one becomes. */
  ghost predicate Partial(ns: seq<FlowopNode>, last: FlowopNode?, head: FlowopNode?)
    reads ns`next
  {
    && last == (if ns == [] then null else ns[|ns| - 1])
    && (ns != [] ==> head == ns[0])
    && (forall j :: 0 <= j < |ns| - 1 ==> ns[j].next == ns[j + 1])
    && (forall j, k :: 0 <= j < k < |ns| ==> ns[j] != ns[k])
  }

  /** A new node becomes the successor of the last one, or the head. */
  method AppendFlowop(t: TxnNode, last: FlowopNode?, n: FlowopNode, ghost ns: seq<FlowopNode>, ghost fs: seq<Flowop>)
    requires Partial(ns, last, t.flist) && n !in ns && Holds(ns, fs)
    modifies t`flist, (if last == null then {} else {last})`next
    ensures Partial(ns + [n], n, t.flist) && n.next == old(n.next) && Holds(ns + [n], fs + [n.f])
  {
    if last == null {
      t.flist := n;
    } else {
      last.next := n;
    }
  }

  method CloneFlowop(t2: TxnNode, last: FlowopNode?, f1: FlowopNode, ghost ns: seq<FlowopNode>, ghost fs: seq<Flowop>)
    returns (f2: FlowopNode)
    requires Partial(ns, last, t2.flist) && Holds(ns, fs)
    modifies t2`flist, (if last == null then {} else {last})`next
    ensures fresh(f2) && Partial(ns + [f2], f2, t2.flist) && Holds(ns + [f2], fs + [f1.f])
    ensures f1 !in ns ==> f2.next == f1.next
  {
    f2 := new FlowopNode.Copy(f1);
    AppendFlowop(t2, last, f2, ns, fs);
  }

  lemma OneMore<T>(s: seq<T>, k: nat)
    requires k < |s|
    ensures s[..k] + [s[k]] == s[..k + 1]
  {
  }

  /** Where the inner loop of group_clone is: `ns` have been cloned, `f1` is next. */
  ghost predicate Copying(f1: FlowopNode?, us: seq<FlowopNode>, fs: seq<Flowop>, head: FlowopNode?, last: FlowopNode?,
                          ns: seq<FlowopNode>)
    reads ns
  {
    && |ns| <= |fs| == |us| && f1 == FlowopAt(us, |ns|)
    && Partial(ns, last, head) && Holds(ns, fs[..|ns|])
    && (if last == null then head == f1 else last.next == f1)
  }

  method CopyNext(t2: TxnNode, last: FlowopNode?, f1: FlowopNode, ghost us: seq<FlowopNode>, ghost fs: seq<Flowop>,
                  ghost ns: seq<FlowopNode>)
    returns (f2: FlowopNode)
    requires Copying(f1, us, fs, t2.flist, last, ns) && f1.f == fs[|ns|]
    requires f1.next == FlowopAt(us, |ns| + 1) && f1 !in ns
    modifies t2`flist, ns`next
    ensures fresh(f2) && f1.next == old(f1.next)
    ensures Copying(f1.next, us, fs, t2.flist, f2, ns + [f2])
  {
    OneMore(fs, |ns|);
    f2 := CloneFlowop(t2, last, f1, ns, fs[..|ns|]);
  }

  /** The inner loop of group_clone.  Before it, `t2` is a copy whose list is still the original's. */
  method CloneFlowops(t1: TxnNode, t2: TxnNode, ghost v: Txn)
    requires IsTxn(t1, v) && t1 != t2
    requires t2.hdr == t1.hdr && t2.flist == t1.flist
    modifies t2`flist, t2`flowops
    ensures IsTxn(t2, v) && fresh(t2.flowops)
  {
    var last: FlowopNode? := null;
    var f1 := t1.flist;
    ghost var ns: seq<FlowopNode> := [];
    while f1 != null
      invariant fresh(ns) && Copying(f1, t1.flowops, v.flist, t2.flist, last, ns)
      decreases |v.flist| - |ns|
    {
      var f2 := CopyNext(t2, last, f1, t1.flowops, v.flist, ns);
      ns := ns + [f2];
      f1, last := f1.next, f2;
    }
    assert v.flist[..|ns|] == v.flist;
    t2.flowops := ns;
  }

  method CopyTxn(t1: TxnNode, ghost v: Txn) returns (t2: TxnNode)
    requires IsTxn(t1, v)
    ensures fresh(t2) && fresh(t2.flowops) && IsTxn(t2, v) && t2.next == t1.next
  {
    t2 := new TxnNode.Copy(t1);
    CloneFlowops(t1, t2, v);
  }

  ghost predicate PartialTxns(ts: seq<TxnNode>, last: TxnNode?, head: TxnNode?)
    reads ts`next
  {
    && last == (if ts == [] then null else ts[|ts| - 1])
    && (ts != [] ==> head == ts[0])
    && (forall i :: 0 <= i < |ts| - 1 ==> ts[i].next == ts[i + 1])
  }

  lemma TxnNodesSnoc(ts: seq<TxnNode>, vs: seq<Txn>, fnodes: set<FlowopNode>, t: TxnNode, v: Txn)
    requires TxnNodes(ts, vs, fnodes) && IsTxn(t, v) && t !in ts && forall f :: f in t.flowops ==> f !in fnodes
    ensures TxnNodes(ts + [t], vs + [v], fnodes + SetOf(t.flowops))
  {
  }

  ghost function SetOf(ns: seq<FlowopNode>): set<FlowopNode> { set n | n in ns }

  /** A transaction becomes the successor of the last one, or the head. */
  method AppendTxn(g: GroupNode, last: TxnNode?, t: TxnNode, ghost ts: seq<TxnNode>, ghost vs: seq<Txn>,
                   ghost fnodes: set<FlowopNode>)
    requires PartialTxns(ts, last, g.tlist) && TxnNodes(ts, vs, fnodes) && t !in ts
    modifies g`tlist, ts`next
    ensures PartialTxns(ts + [t], t, g.tlist) && t.next == old(t.next)
  {
    if last == null {
      g.tlist := t;
    } else {
      assert forall i, k :: 0 <= i < k < |ts| ==> Apart(ts[i], ts[k]);
      last.next := t;
    }
  }

  /** The same with its contents, which no other transaction shares. */
  method AddTxn(g: GroupNode, last: TxnNode?, t: TxnNode, ghost v: Txn, ghost ts: seq<TxnNode>, ghost vs: seq<Txn>,
                ghost fnodes: set<FlowopNode>)
    requires PartialTxns(ts, last, g.tlist) && TxnNodes(ts, vs, fnodes) && IsTxn(t, v)
    requires t !in ts && forall f :: f in t.flowops ==> f !in fnodes
    modifies g`tlist, ts`next
    ensures PartialTxns(ts + [t], t, g.tlist) && t.next == old(t.next)
    ensures TxnNodes(ts + [t], vs + [v], fnodes + SetOf(t.flowops))
  {
    AppendTxn(g, last, t, ts, vs, fnodes);
    TxnNodesSnoc(ts, vs, fnodes, t, v);
  }

  method CloneTxn(g2: GroupNode, last: TxnNode?, t1: TxnNode, ghost v: Txn,
                  ghost ts: seq<TxnNode>, ghost vs: seq<Txn>, ghost fnodes: set<FlowopNode>)
    returns (t2: TxnNode)
    requires IsTxn(t1, v) && PartialTxns(ts, last, g2.tlist) && TxnNodes(ts, vs, fnodes)
    modifies g2`tlist, ts`next
    ensures fresh(t2) && fresh(t2.flowops) && (t1 !in ts ==> t2.next == t1.next)
    ensures PartialTxns(ts + [t2], t2, g2.tlist)
    ensures TxnNodes(ts + [t2], vs + [v], fnodes + SetOf(t2.flowops))
  {
    t2 := CopyTxn(t1, v);
    AddTxn(g2, last, t2, v, ts, vs, fnodes);
  }

  /** Where the outer loop of group_clone is: `ts` have been cloned, `t1` is next. */
  ghost predicate Cloning(t1: TxnNode?, us: seq<TxnNode>, vs: seq<Txn>, head: TxnNode?, last: TxnNode?,
                          ts: seq<TxnNode>, fnodes: set<FlowopNode>)
    reads ts`hdr, ts`next, ts`flist, ts`flowops, fnodes
  {
    && |ts| <= |vs| == |us| && t1 == TxnAt(us, |ts|)
    && PartialTxns(ts, last, head) && TxnNodes(ts, vs[..|ts|], fnodes)
    && (if last == null then head == t1 else last.next == t1)
  }

  lemma Cloned(us: seq<TxnNode>, vs: seq<Txn>, head: TxnNode?, last: TxnNode?, ts: seq<TxnNode>,
               fnodes: set<FlowopNode>)
    requires Cloning(null, us, vs, head, last, ts, fnodes)
    ensures TxnNodes(ts, vs, fnodes) && TxnChain(ts, head)
  {
    assert vs[..|ts|] == vs;
  }

  method CloneNext(g2: GroupNode, last: TxnNode?, t1: TxnNode, ghost us: seq<TxnNode>, ghost vs: seq<Txn>,
                   ghost ts: seq<TxnNode>, ghost fnodes: set<FlowopNode>)
    returns (t2: TxnNode)
    requires Cloning(t1, us, vs, g2.tlist, last, ts, fnodes) && IsTxn(t1, vs[|ts|])
    requires t1.next == TxnAt(us, |ts| + 1) && t1 !in ts
    modifies g2`tlist, ts`next
    ensures fresh(t2) && fresh(SetOf(t2.flowops)) && t1.next == old(t1.next)
    ensures Cloning(t1.next, us, vs, g2.tlist, t2, ts + [t2], fnodes + SetOf(t2.flowops))
  {
    OneMore(vs, |ts|);
    t2 := CloneTxn(g2, last, t1, vs[|ts|], ts, vs[..|ts|], fnodes);
  }

  /** What the loop needs of the group it copies. */
  ghost predicate Original(us: seq<TxnNode>, vs: seq<Txn>, unodes: set<FlowopNode>)
    reads us, unodes
  {
    && |us| == |vs|
    && forall i :: 0 <= i < |us| ==>
         (forall f :: f in us[i].flowops ==> f in unodes) && IsTxn(us[i], vs[i]) && us[i].next == TxnAt(us, i + 1)
  }

  /** The outer loop of group_clone, on a copy that still leads to the original's transactions. */
  method CloneTxns(g2: GroupNode, ghost us: seq<TxnNode>, ghost vs: seq<Txn>, ghost unodes: set<FlowopNode>)
    returns (ghost ts: seq<TxnNode>, ghost fnodes: set<FlowopNode>)
    requires TxnNodes(us, vs, unodes) && TxnChain(us, g2.tlist)
    modifies g2`tlist
    ensures fresh(ts) && fresh(fnodes) && TxnNodes(ts, vs, fnodes) && TxnChain(ts, g2.tlist)
  {
    assert Original(us, vs, unodes);
    var last: TxnNode? := null;
    var t1 := g2.tlist;
    ts, fnodes := [], {};
    while t1 != null
      invariant fresh(ts) && fresh(fnodes)
      invariant Original(us, vs, unodes)
      invariant Cloning(t1, us, vs, g2.tlist, last, ts, fnodes)
      decreases |vs| - |ts|
    {
      var t2 := CloneNext(g2, last, t1, us, vs, ts, fnodes);
      ts, fnodes := ts + [t2], fnodes + SetOf(t2.flowops);
      t1, last := t1.next, t2;
    }
    Cloned(us, vs, g2.tlist, last, ts, fnodes);
  }

  /** group_clone: equal contents, and not one node shared with the original, to which all links of
      the copied objects lead at first. */
  method CloneGroup(g1: GroupNode, ghost v: Group) returns (g2: GroupNode)
    requires g1.Represents(v)
    ensures fresh(g2) && fresh(g2.txns) && fresh(g2.flowops)
    ensures g2.Represents(v)
  {
    g2 := new GroupNode.Copy(g1);
    ghost var ts, fnodes := CloneTxns(g2, g1.txns, v.tlist, g1.flowops);
    Adopt(g2, ts, fnodes, v);
  }

  // ---- Rewriting in place ----

  /** The loops below have dealt with the first `j` nodes. */
  ghost predicate Rewritten(ns: seq<FlowopNode>, fs: seq<Flowop>, h: Flowop -> Flowop, j: nat)
    reads ns`f
  {
    |ns| == |fs| && forall k :: 0 <= k < |fs| ==> ns[k].f == if k < j then h(fs[k]) else fs[k]
  }

  function ResizedOf(v: Txn): Txn { Txn(v.hdr, MapFlowops(v.flist, Resize)) }

  function TurnedOf(v: Txn): Txn { Txn(v.hdr, MapFlowops(v.flist, OppositeFlowop)) }

  /** Recursive, so that whoever only passes it on need not look into every flowop. */
  function Opposites(fs: seq<Flowop>): seq<Flowop> {
    if fs == [] then [] else Opposites(fs[..|fs| - 1]) + [Resize(OppositeFlowop(fs[|fs| - 1]))]
  }

  lemma {:induction false} OppositesAre(fs: seq<Flowop>)
    ensures |Opposites(fs)| == |fs|
    ensures forall j :: 0 <= j < |fs| ==> Opposites(fs)[j] == Resize(OppositeFlowop(fs[j]))
  {
    if fs != [] {
      OppositesAre(fs[..|fs| - 1]);
    }
  }

  function OppositeOf(v: Txn): Txn { Txn(v.hdr, Opposites(v.flist)) }

  function NoppedOf(v: Txn, host: seq<byte>): Txn { Txn(v.hdr, MapFlowops(v.flist, f => NopFor(host, f))) }

  lemma SmallQuotient(a: nat, b: nat)
    requires a < b
    ensures a / b == 0
  {
  }

  /** The body of its loop; `was` is the value of `optimized` before, the result the one after. */
  method OptimizeNode(node: FlowopNode, was: nat) returns (optimized: nat)
    modifies node`f
    ensures node.f == Resize(old(node.f))
    ensures optimized == if old(node.f).Resized() && old(node.f).io.count <= 1 then 0 else was
  {
    optimized := was;
    var f := node.f;
    if f.io.rsize > f.io.size {
      if f.io.count > 1 {
        node.f := f.(io := f.io.(count := f.io.size * f.io.count % TWO_64 / f.io.rsize, size := f.io.rsize));
      } else {
        SmallQuotient(f.io.size, f.io.rsize);
        optimized := f.io.size / f.io.rsize;
        node.f := f.(io := f.io.(size := f.io.rsize));
      }
    }
  }

  /** optimize_txn_for_slave in place.  A resized flowop has a read size above its size, so the
      quotient kept in `optimized` is always 0 and the loop count is never divided. */
  method OptimizeTxn(t: TxnNode, ghost v: Txn)
    requires IsTxn(t, v)
    modifies t.flowops`f
    ensures IsTxn(t, ResizedOf(v))
  {
    var optimized, timed := 0, t.hdr.duration > 0;
    var node := t.flist;
    ghost var j := 0;
    while node != null
      invariant j <= |v.flist| && node == FlowopAt(t.flowops, j) && optimized == 0
      invariant Rewritten(t.flowops, v.flist, Resize, j)
      decreases |v.flist| - j
    {
      optimized := OptimizeNode(node, optimized);
      node, j := node.next, j + 1;
    }
    if optimized == 0 || timed {
      return;
    }
    assert false;   // txn->iter would be divided by `optimized` here
  }

  /** One flowop becomes its opposite, field by field. */
  method OppositeNode(node: FlowopNode)
    modifies node`f
    ensures node.f == OppositeFlowop(old(node.f))
  {
    if node.f.kind == FLOWOP_SENDFILEV || node.f.kind == FLOWOP_SENDFILE {
      node.f := node.f.(io := node.f.io.(size := UPERF_SLAVE_READ_SIZE));
    }
    var opposite := FlowopOpposite(node.f.kind);
    node.f := node.f.(kind := opposite);
    var streams := node.f.sctp.inStreams;
    node.f := node.f.(sctp := node.f.sctp.(inStreams := node.f.sctp.outStreams));
    node.f := node.f.(sctp := node.f.sctp.(outStreams := streams));
  }

  /** The inner loop of group_opposite. */
  method TurnTxn(t: TxnNode, ghost v: Txn)
    requires IsTxn(t, v)
    modifies t.flowops`f
    ensures IsTxn(t, TurnedOf(v))
  {
    var node := t.flist;
    ghost var j := 0;
    while node != null
      invariant j <= |v.flist| && node == FlowopAt(t.flowops, j)
      invariant Rewritten(t.flowops, v.flist, OppositeFlowop, j)
      decreases |v.flist| - j
    {
      OppositeNode(node);
      node, j := node.next, j + 1;
    }
  }

  method OppositeTxn(t: TxnNode, ghost v: Txn)
    requires IsTxn(t, v)
    modifies t.flowops`f
    ensures IsTxn(t, OppositeOf(v))
  {
    TurnTxn(t, v);
    OptimizeTxn(t, TurnedOf(v));
    OppositesAre(v.flist);
    assert ResizedOf(TurnedOf(v)).flist == Opposites(v.flist);
  }

  method NopNode(node: FlowopNode, host: seq<byte>)
    modifies node`f
    ensures node.f == NopFor(host, old(node.f))
  {
    if node.f.text.remotehost == [] {
      return;
    }
    if host != node.f.text.remotehost {
      node.f := node.f.(kind := FLOWOP_NOP);
    }
  }

  method NopTxn(t: TxnNode, ghost v: Txn, host: seq<byte>)
    requires IsTxn(t, v)
    modifies t.flowops`f
    ensures IsTxn(t, NoppedOf(v, host))
  {
    var node := t.flist;
    ghost var j := 0;
    while node != null
      invariant j <= |v.flist| && node == FlowopAt(t.flowops, j)
      invariant Rewritten(t.flowops, v.flist, f => NopFor(host, f), j)
      decreases |v.flist| - j
    {
      NopNode(node, host);
      node, j := node.next, j + 1;
    }
  }

  /** The contents of every flowop node. */
  ghost function Memory(fnodes: set<FlowopNode>): map<FlowopNode, Flowop>
    reads fnodes`f
  {
    map n | n in fnodes :: n.f
  }

  /** `vs` is what the lists of `ts` hold when the nodes hold `mem`. */
  ghost predicate Remembers(mem: map<FlowopNode, Flowop>, ts: seq<TxnNode>, vs: seq<Txn>)
    reads ts`hdr, ts`flist, ts`flowops, mem.Keys`next
  {
    && |ts| == |vs|
    && (forall i :: 0 <= i < |ts| ==> (forall f :: f in ts[i].flowops ==> f in mem) && ListRemembers(mem, ts[i], vs[i]))
    && (forall i, k :: 0 <= i < k < |ts| ==> Apart(ts[i], ts[k]))
  }

  ghost predicate ListRemembers(mem: map<FlowopNode, Flowop>, t: TxnNode, v: Txn)
    requires forall f :: f in t.flowops ==> f in mem
    reads t`hdr, t`flist, t`flowops, t.flowops`next
  {
    && t.hdr == v.hdr && FlowopChain(t.flowops, t.flist) && |t.flowops| == |v.flist|
    && forall j :: 0 <= j < |t.flowops| ==> mem[t.flowops[j]] == v.flist[j]
  }

  lemma Remembered(ts: seq<TxnNode>, vs: seq<Txn>, fnodes: set<FlowopNode>)
    requires TxnNodes(ts, vs, fnodes)
    ensures Remembers(Memory(fnodes), ts, vs)
  {
    forall i | 0 <= i < |ts|
      ensures ListRemembers(Memory(fnodes), ts[i], vs[i])
    {
      assert IsTxn(ts[i], vs[i]);
    }
  }

  /** When only the nodes of one transaction have changed, only its contents have. */
  lemma OneRewritten(mem: map<FlowopNode, Flowop>, ts: seq<TxnNode>, vs: seq<Txn>, i: nat, w: Txn)
    requires Remembers(mem, ts, vs) && i < |ts| && IsTxn(ts[i], w)
    requires forall f :: f in mem && f !in ts[i].flowops ==> f.f == mem[f]
    ensures TxnNodes(ts, vs[i := w], mem.Keys)
  {
    forall k | 0 <= k < |ts| && k != i
      ensures IsTxn(ts[k], vs[k])
    {
      assert ListRemembers(mem, ts[k], vs[k]) && if k < i then Apart(ts[k], ts[i]) else Apart(ts[i], ts[k]);
      assert forall j :: 0 <= j < |ts[k].flowops| ==> ts[k].flowops[j] !in ts[i].flowops;
    }
  }

  /** What the loops over a group have done: the first `i` transactions are rewritten. */
  ghost predicate Progress(vs: seq<Txn>, us: seq<Txn>, h: Txn -> Txn, i: nat) {
    |vs| == |us| && forall k :: 0 <= k < |us| ==> vs[k] == if k < i then h(us[k]) else us[k]
  }

  /** Rewriting one transaction of a group leaves the others as they were. */
  method OppositeAt(t: TxnNode, ghost ts: seq<TxnNode>, ghost i: nat, ghost vs: seq<Txn>, ghost fnodes: set<FlowopNode>)
    requires TxnNodes(ts, vs, fnodes) && i < |ts| && t == ts[i]
    modifies t.flowops`f
    ensures TxnNodes(ts, vs[i := OppositeOf(vs[i])], fnodes)
  {
    ghost var mem := Memory(fnodes);
    Remembered(ts, vs, fnodes);
    OppositeTxn(t, vs[i]);
    OneRewritten(mem, ts, vs, i, OppositeOf(vs[i]));
  }

  method NopAt(t: TxnNode, host: seq<byte>, ghost ts: seq<TxnNode>, ghost i: nat, ghost vs: seq<Txn>,
               ghost fnodes: set<FlowopNode>)
    requires TxnNodes(ts, vs, fnodes) && i < |ts| && t == ts[i]
    modifies t.flowops`f
    ensures TxnNodes(ts, vs[i := NoppedOf(vs[i], host)], fnodes)
  {
    ghost var mem := Memory(fnodes);
    Remembered(ts, vs, fnodes);
    NopTxn(t, vs[i], host);
    OneRewritten(mem, ts, vs, i, NoppedOf(vs[i], host));
  }

  lemma AllOpposite(vs: seq<Txn>, v: Group)
    requires Progress(vs, v.tlist, OppositeOf, |v.tlist|)
    ensures Group(v.hdr, vs) == OppositeGroup(v)
  {
    forall i | 0 <= i < |vs|
      ensures vs[i] == OppositeGroup(v).tlist[i]
    {
      OppositesAre(v.tlist[i].flist);
    }
  }

  /** group_opposite in place. */
  method GroupOpposite(g: GroupNode, ghost v: Group)
    requires g.Represents(v)
    modifies g.flowops`f
    ensures g.Represents(OppositeGroup(v))
  {
    ghost var vs := OppositeTxns(g, v);
    AllOpposite(vs, v);
  }

  method OppositeTxns(g: GroupNode, ghost v: Group) returns (ghost vs: seq<Txn>)
    requires g.Represents(v)
    modifies g.flowops`f
    ensures g.Represents(Group(v.hdr, vs)) && Progress(vs, v.tlist, OppositeOf, |v.tlist|)
  {
    var txn := g.tlist;
    vs := v.tlist;
    ghost var i := 0;
    while txn != null
      invariant i <= |vs| && txn == TxnAt(g.txns, i)
      invariant TxnNodes(g.txns, vs, g.flowops) && Progress(vs, v.tlist, OppositeOf, i)
      decreases |vs| - i
    {
      OppositeAt(txn, g.txns, i, vs, g.flowops);
      vs := vs[i := OppositeOf(vs[i])];
      txn, i := txn.next, i + 1;
    }
  }

  /** The last loop of the rewriting: no-ops for what other slaves do. */
  method GroupNop(g: GroupNode, ghost v: Group, host: seq<byte>)
    requires g.Represents(v)
    modifies g.flowops`f
    ensures g.Represents(MapGroup(v, f => NopFor(host, f)))
  {
    var txn := g.tlist;
    ghost var vs, i := v.tlist, 0;
    while txn != null
      invariant i <= |vs| && txn == TxnAt(g.txns, i)
      invariant TxnNodes(g.txns, vs, g.flowops) && Progress(vs, v.tlist, t => NoppedOf(t, host), i)
      decreases |vs| - i
    {
      NopAt(txn, host, g.txns, i, vs, g.flowops);
      vs := vs[i := NoppedOf(vs[i], host)];
      txn, i := txn.next, i + 1;
    }
    assert vs == MapGroup(v, f => NopFor(host, f)).tlist;
  }

  /** The rewriting at the start of tx_group_t: the slave's work is prepared on a clone, so the
      group the master itself executes is left as it was. */
  method PrepareForSlave(g: GroupNode, ghost v: Group, host: seq<byte>) returns (copy: GroupNode)
    requires g.Represents(v)
    ensures fresh(copy) && fresh(copy.txns) && fresh(copy.flowops)
    ensures copy.Represents(ForSlave(v, host))
    ensures g.Represents(v)
  {
    copy := CloneFor(g, v, host);
  }

  method CloneFor(g: GroupNode, ghost v: Group, host: seq<byte>) returns (copy: GroupNode)
    requires g.Represents(v)
    ensures fresh(copy) && fresh(copy.txns) && fresh(copy.flowops)
    ensures copy.Represents(ForSlave(v, host))
  {
    copy := CloneGroup(g, v);
    Rewrite(copy, v, host);
  }

  method Rewrite(g: GroupNode, ghost v: Group, host: seq<byte>)
    requires g.Represents(v)
    modifies g.flowops`f
    ensures g.Represents(ForSlave(v, host))
  {
    GroupOpposite(g, v);
    GroupNop(g, OppositeGroup(v), host);
  }

  // ---- Swapping bytes in place ----

  /** What swapping headers and flowops makes of a transaction, whatever swapping is. */
  function Swapped(v: Txn, hdr: TxnHdr -> TxnHdr, h: Flowop -> Flowop): Txn { Txn(hdr(v.hdr), MapFlowops(v.flist, h)) }

  method SwapFlowops(t: TxnNode, h: Flowop -> Flowop, ghost v: Txn)
    requires IsTxn(t, v)
    modifies t.flowops`f
    ensures IsTxn(t, Txn(v.hdr, MapFlowops(v.flist, h)))
  {
    var node := t.flist;
    ghost var j := 0;
    while node != null
      invariant j <= |v.flist| && node == FlowopAt(t.flowops, j)
      invariant Rewritten(t.flowops, v.flist, h, j)
      decreases |v.flist| - j
    {
      node.f := h(node.f);
      node, j := node.next, j + 1;
    }
  }

  lemma HdrRewritten(mem: map<FlowopNode, Flowop>, ts: seq<TxnNode>, vs: seq<Txn>, i: nat, hdr: TxnHdr)
    requires i < |ts| == |vs| && ts[i].hdr == hdr
    requires forall k :: 0 <= k < |ts| ==>
               (forall f :: f in ts[k].flowops ==> f in mem) && IsTxn(ts[k], vs[k].(hdr := ts[k].hdr))
    requires forall k :: 0 <= k < |ts| && k != i ==> ts[k].hdr == vs[k].hdr
    requires forall j, k :: 0 <= j < k < |ts| ==> Apart(ts[j], ts[k])
    ensures TxnNodes(ts, vs[i := vs[i].(hdr := hdr)], mem.Keys)
  {
  }

  method SwapHdr(t: TxnNode, hdr: TxnHdr -> TxnHdr, ghost ts: seq<TxnNode>, ghost i: nat, ghost vs: seq<Txn>,
                 ghost fnodes: set<FlowopNode>)
    requires TxnNodes(ts, vs, fnodes) && i < |ts| && t == ts[i]
    modifies t`hdr
    ensures TxnNodes(ts, vs[i := vs[i].(hdr := hdr(vs[i].hdr))], fnodes)
  {
    assert forall k :: 0 <= k < |ts| && k != i ==> (if k < i then Apart(ts[k], ts[i]) else Apart(ts[i], ts[k]));
    t.hdr := hdr(t.hdr);
    HdrRewritten(Memory(fnodes), ts, vs, i, hdr(vs[i].hdr));
  }

  /** The body of the outer loop of group_bitswap. */
  method SwapAt(t: TxnNode, hdr: TxnHdr -> TxnHdr, h: Flowop -> Flowop, ghost ts: seq<TxnNode>, ghost i: nat,
                ghost vs: seq<Txn>, ghost fnodes: set<FlowopNode>)
    requires TxnNodes(ts, vs, fnodes) && i < |ts| && t == ts[i]
    modifies t`hdr, t.flowops`f
    ensures TxnNodes(ts, vs[i := Swapped(vs[i], hdr, h)], fnodes)
  {
    ghost var v := vs[i].(hdr := hdr(vs[i].hdr));
    SwapHdr(t, hdr, ts, i, vs, fnodes);
    ghost var mem := Memory(fnodes);
    Remembered(ts, vs[i := v], fnodes);
    SwapFlowops(t, h, v);
    OneRewritten(mem, ts, vs[i := v], i, Swapped(vs[i], hdr, h));
    assert vs[i := v][i := Swapped(vs[i], hdr, h)] == vs[i := Swapped(vs[i], hdr, h)];
  }

  method SwapTxns(g: GroupNode, hdr: TxnHdr -> TxnHdr, h: Flowop -> Flowop, ghost v: Group) returns (ghost vs: seq<Txn>)
    requires g.Represents(v)
    modifies g.txns`hdr, g.flowops`f
    ensures g.Represents(Group(v.hdr, vs)) && Progress(vs, v.tlist, t => Swapped(t, hdr, h), |v.tlist|)
  {
    var txn := g.tlist;
    vs := v.tlist;
    ghost var i := 0;
    while txn != null
      invariant i <= |vs| && txn == TxnAt(g.txns, i)
      invariant TxnNodes(g.txns, vs, g.flowops) && Progress(vs, v.tlist, t => Swapped(t, hdr, h), i)
      decreases |vs| - i
    {
      SwapAt(txn, hdr, h, g.txns, i, vs, g.flowops);
      vs := vs[i := Swapped(vs[i], hdr, h)];
      txn, i := txn.next, i + 1;
    }
  }

  lemma AllSwapped(vs: seq<Txn>, v: Group, hdr: TxnHdr -> TxnHdr, h: Flowop -> Flowop)
    requires Progress(vs, v.tlist, t => Swapped(t, hdr, h), |v.tlist|)
    requires forall x :: hdr(x) == BitswapTxnHdr(false, x)
    requires forall f :: h(f) == BitswapFlowop(false, f)
    ensures Group(BitswapHdr(false, v.hdr), vs) == Bitswap(false, v)
  {
    forall i | 0 <= i < |vs|
      ensures vs[i] == Bitswap(false, v).tlist[i]
    {
      assert vs[i] == Swapped(v.tlist[i], hdr, h);
      assert vs[i].flist == MapFlowops(v.tlist[i].flist, f => BitswapFlowop(false, f));
    }
  }

  method SwapGroupHdr(g: GroupNode, ghost v: Group) returns (ghost w: Group)
    requires g.Represents(v)
    modifies g`hdr
    ensures g.Represents(w) && w == Group(BitswapHdr(false, v.hdr), v.tlist)
  {
    g.hdr := BitswapHdr(false, g.hdr);
    w := Group(g.hdr, v.tlist);
  }

  /** group_bitswap in place. */
  method GroupBitswap(g: GroupNode, ghost v: Group) returns (ghost w: Group)
    requires g.Represents(v)
    modifies g`hdr, g.txns`hdr, g.flowops`f
    ensures g.Represents(w) && w == Bitswap(false, v)
  {
    var hdr, h := x => BitswapTxnHdr(false, x), f => BitswapFlowop(false, f);
    w := SwapGroupHdr(g, v);
    ghost var vs := SwapTxns(g, hdr, h, w);
    AllSwapped(vs, v, hdr, h);
    w := Group(w.hdr, vs);
  }
}
