/** Moving the workorder over a byte stream that delivers and accepts data in arbitrary pieces
    (ensure_read and ensure_write in src/common.c, tx_group_t and rx_group_t in src/handshake.c). */
module Transfer {
  import opened ByteOrder
  import opened Workorder
  import opened WorkorderWire
  import opened WorkorderHeap

  /** One end of a control connection.  `inbox` is what will still arrive, `outbox` what was
      written so far; on a healthy connection the kernel always makes some progress. */
  class Socket {
    var inbox: seq<byte>
    var outbox: seq<byte>
    const healthy: bool

    constructor (inbox: seq<byte>, healthy: bool)
      ensures this.inbox == inbox && this.outbox == [] && this.healthy == healthy
    {
      this.inbox, this.outbox, this.healthy := inbox, [], healthy;
    }

    /** read(2): some of the bytes asked for, 0 at the end of the stream, -1 on an error. */
    method Read(want: nat) returns (n: int, got: seq<byte>)
      modifies this`inbox
      ensures n <= 0 ==> inbox == old(inbox)
      ensures n > 0 ==> n <= want && n <= |old(inbox)| && got == old(inbox)[..n] && inbox == old(inbox)[n..]
      ensures healthy && want > 0 && old(inbox) != [] ==> n > 0
    {
      n, got := 0, [];
      if want > 0 && inbox != [] {
        var k :| (if healthy then 1 else -1) <= k <= want && k <= |inbox|;
        n := k;
        if n > 0 {
          got, inbox := inbox[..n], inbox[n..];
        }
      }
    }

    /** write(2): accepts some of the bytes offered, or fails. */
    method Write(data: seq<byte>) returns (n: int)
      modifies this`outbox
      ensures n <= 0 ==> outbox == old(outbox)
      ensures n > 0 ==> n <= |data| && outbox == old(outbox) + data[..n]
      ensures healthy && data != [] ==> n > 0
    {
      n := 0;
      if data != [] {
        var k :| (if healthy then 1 else -1) <= k <= |data|;
        n := k;
        if n > 0 {
          outbox := outbox + data[..n];
        }
      }
    }
  }

  /** Either the whole buffer in order, or failure; asking for nothing counts as failure. */
  method EnsureRead(p: Socket, size: nat) returns (n: int, buffer: seq<byte>)
    modifies p`inbox
    ensures n > 0 ==> n == size <= |old(p.inbox)|
    ensures n > 0 ==> buffer == old(p.inbox)[..size] && p.inbox == old(p.inbox)[size..]
    ensures p.healthy && 0 < size <= |old(p.inbox)| ==> n > 0
  {
    buffer := [];
    while |buffer| < size
      invariant |buffer| <= size && |buffer| <= |old(p.inbox)|
      invariant buffer == old(p.inbox)[..|buffer|] && p.inbox == old(p.inbox)[|buffer|..]
    {
      var got;
      n, got := p.Read(size - |buffer|);
      if n <= 0 {
        return;
      }
      buffer := buffer + got;
    }
    n := |buffer|;
  }

  method EnsureWrite(p: Socket, data: seq<byte>) returns (n: int)
    modifies p`outbox
    ensures n > 0 ==> n == |data| && p.outbox == old(p.outbox) + data
    ensures p.healthy && data != [] ==> n > 0
  {
    var sz := 0;
    while sz < |data|
      invariant 0 <= sz <= |data| && p.outbox == old(p.outbox) + data[..sz]
    {
      n := p.Write(data[sz..]);
      if n <= 0 {
        return;
      }
      assert data[..sz] + data[sz..][..n] == data[..sz + n];
      sz := sz + n;
    }
    assert data[..sz] == data;
    n := sz;
  }

  lemma {:induction false} EncListSnoc<T>(enc: T -> seq<byte>, xs: seq<T>, i: nat)
    requires i < |xs|
    ensures EncList(enc, xs[..i + 1]) == EncList(enc, xs[..i]) + enc(xs[i])
  {
    if i == 0 {
      assert xs[..1][1..] == [];
    } else {
      assert xs[..i + 1][1..] == xs[1..][..i] && xs[..i][1..] == xs[1..][..i - 1];
      EncListSnoc(enc, xs[1..], i - 1);
    }
  }

  lemma Append(a: seq<byte>, b: seq<byte>, c: seq<byte>)
    ensures (a + b) + c == a + (b + c)
  {
  }

  lemma FlowopNotEmpty(e: Endian, f: Flowop)
    ensures EncFlowop(e, f) != []
  {
    EncFieldsWidth(e, FlowopFields(f));
    FlowopShape(f);
    RecordSizes();
  }

  lemma TxnHdrNotEmpty(e: Endian, h: TxnHdr)
    ensures EncFields(e, TxnFields(h)) != []
  {
    EncFieldsWidth(e, TxnFields(h));
    TxnShape(h);
    RecordSizes();
  }

  lemma GroupHdrNotEmpty(e: Endian, h: GroupHdr)
    ensures EncFields(e, GroupFields(h)) != []
  {
    EncFieldsWidth(e, GroupFields(h));
    GroupShape(h);
    RecordSizes();
  }

  method TxNextFlowop(p: Socket, enc: Flowop -> seq<byte>, node: FlowopNode, ghost fs: seq<Flowop>, ghost j: nat,
                      ghost before: seq<byte>)
    returns (ok: bool)
    requires j < |fs| && node.f == fs[j] && p.outbox == before + EncList(enc, fs[..j]) && enc(node.f) != []
    modifies p`outbox
    ensures ok ==> p.outbox == before + EncList(enc, fs[..j + 1])
    ensures p.healthy ==> ok
  {
    EncListSnoc(enc, fs, j);
    var n := EnsureWrite(p, enc(node.f));
    ok := n > 0;
  }

  method TxFlowops(p: Socket, enc: Flowop -> seq<byte>, t: TxnNode, ghost v: Txn) returns (ok: bool)
    requires IsTxn(t, v)
    requires forall f :: enc(f) != []
    modifies p`outbox
    ensures ok ==> p.outbox == old(p.outbox) + EncList(enc, v.flist)
    ensures p.healthy ==> ok
  {
    ok := true;
    var node := t.flist;
    ghost var j := 0;
    while node != null && ok
      invariant j <= |v.flist| && (ok ==> node == FlowopAt(t.flowops, j)) && (p.healthy ==> ok)
      invariant ok ==> p.outbox == old(p.outbox) + EncList(enc, v.flist[..j])
      decreases |v.flist| - j
    {
      ok := TxNextFlowop(p, enc, node, v.flist, j, old(p.outbox));
      node, j := node.next, j + 1;
    }
    assert ok ==> v.flist[..j] == v.flist;
  }

  function EncWith(e: Endian): Flowop -> seq<byte> { f => EncFlowop(e, f) }

  lemma EncWithNotEmpty(e: Endian)
    ensures forall f :: EncWith(e)(f) != []
  {
    forall f
      ensures EncWith(e)(f) != []
    {
      FlowopNotEmpty(e, f);
    }
  }

  lemma EncTxnParts(e: Endian, v: Txn)
    ensures EncTxn(e, v) == EncFields(e, TxnFields(v.hdr)) + EncList(EncWith(e), v.flist)
  {
  }

  /** The transaction header and then its flowops, node by node. */
  method TxTxn(p: Socket, e: Endian, t: TxnNode, ghost v: Txn) returns (ok: bool)
    requires IsTxn(t, v)
    modifies p`outbox
    ensures ok ==> p.outbox == old(p.outbox) + EncTxn(e, v)
    ensures p.healthy ==> ok
  {
    TxnHdrNotEmpty(e, t.hdr);
    var hdr := EncFields(e, TxnFields(t.hdr));
    var n := EnsureWrite(p, hdr);
    if n <= 0 {
      return false;
    }
    EncWithNotEmpty(e);
    ok := TxFlowops(p, EncWith(e), t, v);
    EncTxnParts(e, v);
    Append(old(p.outbox), hdr, EncList(EncWith(e), v.flist));
  }

  method TxTxns(p: Socket, e: Endian, g: GroupNode, ghost w: Group) returns (ok: bool)
    requires g.Represents(w)
    modifies p`outbox
    ensures ok ==> p.outbox == old(p.outbox) + EncList(t => EncTxn(e, t), w.tlist)
    ensures p.healthy ==> ok
  {
    ghost var enc := t => EncTxn(e, t);
    var txn := g.tlist;
    ghost var i := 0;
    while txn != null
      invariant i <= |w.tlist| && txn == TxnAt(g.txns, i)
      invariant p.outbox == old(p.outbox) + EncList(enc, w.tlist[..i])
      decreases |w.tlist| - i
    {
      ok := TxTxn(p, e, txn, w.tlist[i]);
      if !ok {
        return;
      }
      EncListSnoc(enc, w.tlist, i);
      Append(old(p.outbox), EncList(enc, w.tlist[..i]), EncTxn(e, w.tlist[i]));
      txn, i := txn.next, i + 1;
    }
    assert w.tlist[..i] == w.tlist;
    ok := true;
  }

  method TxPrepared(p: Socket, e: Endian, copy: GroupNode, ghost w: Group) returns (ok: bool)
    requires copy.Represents(w)
    modifies p`outbox
    ensures ok ==> p.outbox == old(p.outbox) + EncGroup(e, w)
    ensures p.healthy ==> ok
  {
    GroupHdrNotEmpty(e, copy.hdr);
    var n := EnsureWrite(p, EncFields(e, GroupFields(copy.hdr)));
    if n <= 0 {
      return false;
    }
    ok := TxTxns(p, e, copy, w);
    Append(old(p.outbox), EncFields(e, GroupFields(w.hdr)), EncList(t => EncTxn(e, t), w.tlist));
  }

  /** tx_group_t: clone, rewrite for the slave on `host`, write group, transactions, flowops.
      Only the socket changes, so the master's own group still represents `v`. */
  method TxGroup(p: Socket, e: Endian, g: GroupNode, ghost v: Group, host: seq<byte>) returns (ok: bool)
    requires g.Represents(v)
    modifies p`outbox
    ensures ok ==> p.outbox == old(p.outbox) + EncGroup(e, ForSlave(v, host))
    ensures p.healthy ==> ok
    ensures g.Represents(v)
  {
    ok := TxClone(p, e, g, v, host);
  }

  method TxClone(p: Socket, e: Endian, g: GroupNode, ghost v: Group, host: seq<byte>) returns (ok: bool)
    requires g.Represents(v)
    modifies p`outbox
    ensures ok ==> p.outbox == old(p.outbox) + EncGroup(e, ForSlave(v, host))
    ensures p.healthy ==> ok
  {
    var copy := PrepareForSlave(g, v, host);
    ok := TxPrepared(p, e, copy, ForSlave(v, host));
  }

  /** One flowop: read, then its host names and its type corrected in place. */
  method RxFlowop(p: Socket, e: Endian, same: bool, peer: seq<byte>) returns (node: FlowopNode?)
    modifies p`inbox
    ensures node != null ==> fresh(node) && node.next == null
    ensures node != null ==> ReadFlowop(e, same, peer, old(p.inbox)) == Parsed(node.f, p.inbox)
    ensures p.healthy && ReadFlowop(e, same, peer, old(p.inbox)).Parsed? ==> node != null
  {
    node := null;
    var ok, fields := RxFlowopFields(p, e);
    if ok {
      node := new FlowopNode(ToFlowop(fields));
      node.f := TurnHosts(peer, node.f);
      node.f := node.f.(kind := Seen(same, 4, node.f.kind));
    }
  }

  method RxFlowopFields(p: Socket, e: Endian) returns (ok: bool, fields: seq<Field>)
    modifies p`inbox
    ensures |fields| == |FLOWOP_SHAPE|
    ensures ok ==> ReadRecord(e, FLOWOP_SHAPE, SIZEOF_FLOWOP_T, old(p.inbox)) == Parsed(fields, p.inbox)
    ensures p.healthy && ReadRecord(e, FLOWOP_SHAPE, SIZEOF_FLOWOP_T, old(p.inbox)).Parsed? ==> ok
  {
    RecordSizes();
    var r, buffer := EnsureRead(p, SIZEOF_FLOWOP_T);
    ok, fields := r > 0, DecFields(e, FLOWOP_SHAPE, buffer);
  }

  /** The flowops linked so far, the last of which has no successor yet. */
  ghost predicate Linked(ns: seq<FlowopNode>, last: FlowopNode?, head: FlowopNode?, fs: seq<Flowop>)
    reads ns
  {
    Partial(ns, last, head) && Holds(ns, fs) && if last == null then head == null else last.next == null
  }

  method LinkFlowop(t: TxnNode, last: FlowopNode?, n: FlowopNode, ghost ns: seq<FlowopNode>, ghost fs: seq<Flowop>)
    requires Linked(ns, last, t.flist, fs) && n !in ns && n.next == null
    modifies t`flist, ns`next
    ensures Linked(ns + [n], n, t.flist, fs + [n.f])
  {
    AppendFlowop(t, last, n, ns, fs);
  }

  lemma LinkedIsList(ns: seq<FlowopNode>, last: FlowopNode?, head: FlowopNode?, fs: seq<Flowop>)
    requires Linked(ns, last, head, fs)
    ensures FlowopChain(ns, head) && Holds(ns, fs)
  {
  }

  /** One element more has been read. */
  lemma ReadOneMore<T>(read: seq<byte> -> Parsed<T>, n: nat, d: seq<byte>, acc: seq<T>)
    requires n > 0
    ensures match read(d)
            case Short => ParseList(read, n, d, acc) == Short
            case Parsed(x, more) => ParseList(read, n, d, acc) == ParseList(read, n - 1, more, acc + [x])
  {
  }

  /** `read` reads flowops; to be used only where one has been read. */
  ghost predicate ReadsFlowops(read: seq<byte> -> Parsed<Flowop>, e: Endian, same: bool, peer: seq<byte>) {
    forall d {:trigger ReadFlowop(e, same, peer, d)} :: read(d) == ReadFlowop(e, same, peer, d)
  }

  /** The next of the `m` flowops still to come. */
  method RxNextFlowop(p: Socket, e: Endian, same: bool, peer: seq<byte>, ghost read: seq<byte> -> Parsed<Flowop>,
                      ghost m: nat,
                      t: TxnNode, last: FlowopNode?, ghost ns: seq<FlowopNode>, ghost fs: seq<Flowop>)
    returns (f: FlowopNode?)
    requires m > 0 && Linked(ns, last, t.flist, fs) && ReadsFlowops(read, e, same, peer)
    modifies p`inbox, t`flist, ns`next
    ensures f == null ==> p.healthy ==> ParseList(read, m, old(p.inbox), fs) == Short
    ensures f != null ==> fresh(f) && Linked(ns + [f], f, t.flist, fs + [f.f])
    ensures f != null ==> ParseList(read, m, old(p.inbox), fs) == ParseList(read, m - 1, p.inbox, fs + [f.f])
  {
    ReadOneMore(read, m, p.inbox, fs);
    f := RxFlowop(p, e, same, peer);
    if f != null {
      LinkFlowop(t, last, f, ns, fs);
    }
  }

  /** The flowops of one transaction, one ensure_read each, linked behind each other. */
  method RxFlowops(p: Socket, e: Endian, same: bool, peer: seq<byte>, ghost read: seq<byte> -> Parsed<Flowop>,
                   n: nat, t: TxnNode)
    returns (ok: bool, ghost ns: seq<FlowopNode>, ghost fs: seq<Flowop>)
    requires t.flist == null && ReadsFlowops(read, e, same, peer)
    modifies p`inbox, t`flist
    ensures ok ==> ParseList(read, n, old(p.inbox), []) == Parsed(fs, p.inbox)
    ensures ok ==> FlowopChain(ns, t.flist) && Holds(ns, fs) && fresh(ns)
    ensures p.healthy && ParseList(read, n, old(p.inbox), []).Parsed? ==> ok
  {
    var last: FlowopNode? := null;
    ok, ns, fs := true, [], [];
    for j := 0 to n
      invariant ok && ParseList(read, n - j, p.inbox, fs) == ParseList(read, n, old(p.inbox), [])
      invariant fresh(ns) && Linked(ns, last, t.flist, fs)
    {
      var f := RxNextFlowop(p, e, same, peer, read, n - j, t, last, ns, fs);
      if f == null {
        ok := false;
        return;
      }
      var linked: FlowopNode := f;
      last, ns, fs := linked, ns + [linked], fs + [linked.f];
    }
    LinkedIsList(ns, last, t.flist, fs);
  }

  method RxTxnHdr(p: Socket, e: Endian) returns (ok: bool, hdr: TxnHdr)
    modifies p`inbox
    ensures ok ==> ReadTxnHdr(e, old(p.inbox)) == Parsed(hdr, p.inbox)
    ensures p.healthy && ReadTxnHdr(e, old(p.inbox)).Parsed? ==> ok
  {
    RecordSizes();
    var r, buffer := EnsureRead(p, SIZEOF_TXN_T);
    if r <= 0 {
      return false, TxnHdr(0, 0, 0, 0, 0, 0, 0, 0, []);
    }
    hdr := ToTxnHdr(DecFields(e, TXN_SHAPE, buffer));
    ok := true;
  }

  /** A new transaction with the header, and the flowops it announces. */
  method RxTxnNode(p: Socket, e: Endian, same: bool, peer: seq<byte>, ghost read: seq<byte> -> Parsed<Flowop>,
                   hdr: TxnHdr)
    returns (t: TxnNode?, ghost v: Txn)
    requires ReadsFlowops(read, e, same, peer)
    modifies p`inbox
    ensures t != null ==> fresh(t) && fresh(t.flowops) && t.next == null && IsTxn(t, v)
    ensures t != null ==> v.hdr == hdr && ParseList(read, hdr.nflowop, old(p.inbox), []) == Parsed(v.flist, p.inbox)
    ensures p.healthy && ParseList(read, hdr.nflowop, old(p.inbox), []).Parsed? ==> t != null
  {
    var txn := new TxnNode(hdr);
    var ok;
    ghost var ns, fs;
    ok, ns, fs := RxFlowops(p, e, same, peer, read, hdr.nflowop, txn);
    txn.flowops := ns;
    t, v := if ok then txn else null, Txn(hdr, fs);
  }

  method RxTxn(p: Socket, e: Endian, same: bool, peer: seq<byte>) returns (t: TxnNode?, ghost v: Txn)
    modifies p`inbox
    ensures t != null ==> fresh(t) && fresh(t.flowops) && t.next == null && IsTxn(t, v)
    ensures t != null ==> ReadTxn(e, same, peer, old(p.inbox)) == Parsed(v, p.inbox)
    ensures p.healthy && ReadTxn(e, same, peer, old(p.inbox)).Parsed? ==> t != null
  {
    var ok, hdr := RxTxnHdr(p, e);
    hdr := FixNflowop(same, hdr);
    t, v := null, Txn(hdr, []);
    if ok {
      t, v := RxTxnNode(p, e, same, peer, d => ReadFlowop(e, same, peer, d), hdr);
    }
  }

  ghost predicate LinkedTxns(ts: seq<TxnNode>, last: TxnNode?, head: TxnNode?, vs: seq<Txn>, fnodes: set<FlowopNode>)
    reads ts, fnodes
  {
    && PartialTxns(ts, last, head) && TxnNodes(ts, vs, fnodes)
    && if last == null then head == null else last.next == null
  }

  method LinkTxn(g: GroupNode, last: TxnNode?, t: TxnNode, ghost v: Txn, ghost ts: seq<TxnNode>, ghost vs: seq<Txn>,
                 ghost fnodes: set<FlowopNode>)
    requires LinkedTxns(ts, last, g.tlist, vs, fnodes) && IsTxn(t, v) && t.next == null
    requires t !in ts && forall f :: f in t.flowops ==> f !in fnodes
    modifies g`tlist, ts`next
    ensures LinkedTxns(ts + [t], t, g.tlist, vs + [v], fnodes + SetOf(t.flowops))
  {
    AddTxn(g, last, t, v, ts, vs, fnodes);
  }

  ghost predicate ReadsTxns(read: seq<byte> -> Parsed<Txn>, e: Endian, same: bool, peer: seq<byte>) {
    forall d {:trigger ReadTxn(e, same, peer, d)} :: read(d) == ReadTxn(e, same, peer, d)
  }

  /** The next of the `m` transactions still to come. */
  method RxNextTxn(p: Socket, e: Endian, same: bool, peer: seq<byte>, ghost read: seq<byte> -> Parsed<Txn>,
                   ghost m: nat,
                   g: GroupNode, last: TxnNode?, ghost ts: seq<TxnNode>, ghost vs: seq<Txn>,
                   ghost fnodes: set<FlowopNode>)
    returns (t: TxnNode?, ghost v: Txn)
    requires m > 0 && LinkedTxns(ts, last, g.tlist, vs, fnodes) && ReadsTxns(read, e, same, peer)
    modifies p`inbox, g`tlist, ts`next
    ensures t == null ==> p.healthy ==> ParseList(read, m, old(p.inbox), vs) == Short
    ensures t != null ==> fresh(t) && fresh(SetOf(t.flowops))
    ensures t != null ==> LinkedTxns(ts + [t], t, g.tlist, vs + [v], fnodes + SetOf(t.flowops))
    ensures t != null ==> ParseList(read, m, old(p.inbox), vs) == ParseList(read, m - 1, p.inbox, vs + [v])
  {
    ReadOneMore(read, m, p.inbox, vs);
    t, v := RxTxn(p, e, same, peer);
    if t != null {
      LinkTxn(g, last, t, v, ts, vs, fnodes);
    }
  }

  lemma LinkedIsChain(ts: seq<TxnNode>, last: TxnNode?, head: TxnNode?, vs: seq<Txn>, fnodes: set<FlowopNode>)
    requires LinkedTxns(ts, last, head, vs, fnodes)
    ensures TxnNodes(ts, vs, fnodes) && TxnChain(ts, head)
  {
  }

  /** The transactions of the group, linked behind each other. */
  method RxTxns(p: Socket, e: Endian, same: bool, peer: seq<byte>, ghost read: seq<byte> -> Parsed<Txn>, n: nat,
                g: GroupNode)
    returns (ok: bool, ghost ts: seq<TxnNode>, ghost vs: seq<Txn>, ghost fnodes: set<FlowopNode>)
    requires g.tlist == null && ReadsTxns(read, e, same, peer)
    modifies p`inbox, g`tlist
    ensures ok ==> ParseList(read, n, old(p.inbox), []) == Parsed(vs, p.inbox)
    ensures ok ==> TxnNodes(ts, vs, fnodes) && TxnChain(ts, g.tlist) && fresh(ts) && fresh(fnodes)
    ensures p.healthy && ParseList(read, n, old(p.inbox), []).Parsed? ==> ok
  {
    var last: TxnNode? := null;
    ghost var whole := ParseList(read, n, p.inbox, []);
    ok, ts, vs, fnodes := true, [], [], {};
    for i := 0 to n
      invariant ok && ParseList(read, n - i, p.inbox, vs) == whole
      invariant fresh(ts) && fresh(fnodes) && LinkedTxns(ts, last, g.tlist, vs, fnodes)
    {
      var t;
      ghost var v;
      t, v := RxNextTxn(p, e, same, peer, read, n - i, g, last, ts, vs, fnodes);
      if t == null {
        ok := false;
        return;
      }
      var linked: TxnNode := t;
      last, ts, vs, fnodes := linked, ts + [linked], vs + [v], fnodes + SetOf(linked.flowops);
    }
    LinkedIsChain(ts, last, g.tlist, vs, fnodes);
  }

  method RxGroupHdr(p: Socket, e: Endian) returns (ok: bool, hdr: GroupHdr)
    modifies p`inbox
    ensures ok ==> ReadGroupHdr(e, old(p.inbox)) == Parsed(hdr, p.inbox)
    ensures p.healthy && ReadGroupHdr(e, old(p.inbox)).Parsed? ==> ok
  {
    var r, buffer := EnsureRead(p, SIZEOF_GROUP_T);
    if r <= 0 {
      return false, GroupHdr(0, 0, 0, 0, 0, 0);
    }
    hdr := ToGroupHdr(DecFields(e, GROUP_SHAPE, buffer));
    ok := true;
  }

  /** A new group with the header, and the transactions it announces. */
  method RxGroupNode(p: Socket, e: Endian, same: bool, peer: seq<byte>, ghost read: seq<byte> -> Parsed<Txn>,
                     hdr: GroupHdr)
    returns (g: GroupNode?, ghost v: Group)
    requires ReadsTxns(read, e, same, peer)
    modifies p`inbox
    ensures g != null ==> fresh(g) && fresh(g.txns) && fresh(g.flowops) && g.Represents(v)
    ensures g != null ==> v.hdr == hdr && ParseList(read, hdr.ntxn, old(p.inbox), []) == Parsed(v.tlist, p.inbox)
    ensures p.healthy && ParseList(read, hdr.ntxn, old(p.inbox), []).Parsed? ==> g != null
  {
    var worklist := new GroupNode(hdr);
    var ok;
    ghost var ts, vs, fnodes;
    ok, ts, vs, fnodes := RxTxns(p, e, same, peer, read, hdr.ntxn, worklist);
    g, v := null, Group(hdr, vs);
    if ok {
      Adopt(worklist, ts, fnodes, v);
      g := worklist;
    }
  }

  /** rx_group_t reads exactly what ParseGroup says, whatever the pieces, and links it up in new
      objects; on a healthy connection it succeeds whenever the group has arrived in full. */
  method RxGroup(p: Socket, e: Endian, peer: seq<byte>) returns (g: GroupNode?, ghost v: Group)
    modifies p`inbox
    ensures g != null ==> fresh(g) && fresh(g.txns) && fresh(g.flowops) && g.Represents(v)
    ensures g != null ==> ParseGroup(e, peer, old(p.inbox)) == Parsed(v, p.inbox)
    ensures p.healthy && ParseGroup(e, peer, old(p.inbox)).Parsed? ==> g != null
  {
    var ok, hdr := RxGroupHdr(p, e);
    var same := hdr.endian == UPERF_ENDIAN_VALUE;
    hdr := FixNtxn(same, hdr);
    g, v := null, Group(hdr, []);
    if ok {
      g, v := RxGroupNode(p, e, same, peer, d => ReadTxn(e, same, peer, d), hdr);
    }
  }

  lemma SameIsAsSent(v: Group)
    ensures Bitswap(true, v) == v
  {
    forall i, j | 0 <= i < |v.tlist| && 0 <= j < |v.tlist[i].flist|
      ensures BitswapFlowop(true, v.tlist[i].flist[j]) == v.tlist[i].flist[j]
    {
      BitswapSame(v.tlist[i].flist[j]);
    }
    forall i | 0 <= i < |v.tlist|
      ensures Bitswap(true, v).tlist[i] == v.tlist[i]
    {
      assert Bitswap(true, v).tlist[i].flist == v.tlist[i].flist;
    }
  }

  /** In place, which leaves the connection alone. */
  method SwapIfNeeded(g: GroupNode, ghost raw: Group, ghost p: Socket) returns (ghost v: Group)
    requires g.Represents(raw)
    modifies g`hdr, g.txns`hdr, g.flowops`f
    ensures p.inbox == old(p.inbox)
    ensures g.Represents(v) && v == Bitswap(raw.hdr.endian == UPERF_ENDIAN_VALUE, raw)
  {
    v := raw;
    if g.hdr.endian != UPERF_ENDIAN_VALUE {
      v := GroupBitswap(g, raw);
    } else {
      SameIsAsSent(raw);
    }
  }

  /** What the bytes mean, in new objects. */
  method ReceiveRaw(p: Socket, e: Endian, peer: seq<byte>, ghost raw: Group, ghost rest: seq<byte>)
    returns (g: GroupNode?)
    requires ParseGroup(e, peer, p.inbox) == Parsed(raw, rest)
    modifies p`inbox
    ensures g != null ==> fresh(g) && fresh(g.txns) && fresh(g.flowops) && g.Represents(raw) && p.inbox == rest
    ensures p.healthy ==> g != null
  {
    ghost var v;
    g, v := RxGroup(p, e, peer);
  }

  /** The same, with the bytes of its numbers swapped if the sender's order was another. */
  method ReceiveGroup(p: Socket, e: Endian, peer: seq<byte>, ghost raw: Group, ghost rest: seq<byte>)
    returns (g: GroupNode?, ghost v: Group)
    requires ParseGroup(e, peer, p.inbox) == Parsed(raw, rest)
    modifies p`inbox
    ensures g != null ==> p.inbox == rest && g.Represents(v) && v == Bitswap(raw.hdr.endian == UPERF_ENDIAN_VALUE, raw)
    ensures p.healthy ==> g != null
  {
    g := ReceiveRaw(p, e, peer, raw, rest);
    v := raw;
    if g != null {
      v := SwapIfNeeded(g, raw, p);
    }
  }

  lemma Arrives(from: Endian, to: Endian, peer: seq<byte>, v: Group, rest: seq<byte>)
    requires GroupFits(v)
    ensures var p := ParseGroup(to, peer, EncGroup(from, v) + rest);
            && p.Parsed? && p.rest == rest
            && Bitswap(p.value.hdr.endian == UPERF_ENDIAN_VALUE, p.value) == ArrivedGroup(from == to, peer, v)
  {
    TransferRoundTrip(from, to, peer, v, rest);
    MarkerSurvives(from, to, peer, v, rest);
  }

  /** The slave's side of the transfer: read, and swap if the byte orders differ. */
  method ReceiveWork(p: Socket, e: Endian, peer: seq<byte>, ghost from: Endian, ghost v: Group, ghost rest: seq<byte>)
    returns (g: GroupNode?, ghost arrived: Group)
    requires GroupFits(v) && p.inbox == EncGroup(from, v) + rest
    modifies p`inbox
    ensures g != null ==> g.Represents(arrived) && arrived == ArrivedGroup(from == e, peer, v) && p.inbox == rest
    ensures p.healthy ==> g != null
  {
    Arrives(from, e, peer, v, rest);
    g, arrived := ReceiveGroup(p, e, peer, ParseGroup(e, peer, p.inbox).value, rest);
  }

  lemma MarkerSurvives(from: Endian, to: Endian, peer: seq<byte>, v: Group, rest: seq<byte>)
    requires GroupFits(v)
    ensures var p := ParseGroup(to, peer, EncGroup(from, v) + rest);
            p.Parsed? && (p.value.hdr.endian == UPERF_ENDIAN_VALUE <==> from == to)
  {
    ParseGroupOfEnc(from, to, peer, v, rest);
    EndianMarkerTells(from == to);
  }
}
