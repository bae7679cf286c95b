/** The workorder as values, and the rewriting that turns the master's group into the work of
    one slave (src/workorder.c, src/flowops.c, the first half of tx_group_t). */
module Workorder {
  import opened ByteOrder

  const FLOWOP_ERROR := 0
  const FLOWOP_READ := 1
  const FLOWOP_WRITE := 2
  const FLOWOP_CONNECT := 3
  const FLOWOP_DISCONNECT := 4
  const FLOWOP_ACCEPT := 5
  const FLOWOP_NOP := 6
  const FLOWOP_THINK := 7
  const FLOWOP_SEND := 8
  const FLOWOP_RECV := 9
  const FLOWOP_SENDFILEV := 10
  const FLOWOP_SENDFILE := 11

  const UPERF_SLAVE_READ_SIZE: nat := 64 * 1024
  const TWO_64: nat := 0x1_0000_0000_0000_0000
  const O_CANFAIL: nat := 4
  const O_SIZE_RAND: nat := 64

  datatype IoOptions = IoOptions(
    size: nat, randSzMin: nat, randSzMax: nat, rsize: nat, protocol: nat, port: nat, flag: nat, nfiles: nat,
    duration: nat, wndsz: nat, count: nat, repeat: nat, batchSize: nat, pollTimeout: nat)

  datatype SctpOptions = SctpOptions(
    encapsPort: nat, bblog: nat, rtoMin: nat, rtoMax: nat, rtoInitial: nat, sackDelay: nat, sackFrequency: nat,
    maxBurstSize: nat, maxFragmentSize: nat, hbInterval: nat, pathMtu: nat,
    outStreams: nat, inStreams: nat, streamId: nat, padding: nat, prValue: nat)

  datatype TextOptions = TextOptions(
    prPolicy: seq<byte>, cc: seq<byte>, stack: seq<byte>, dir: seq<byte>, remotehost: seq<byte>,
    localhost: seq<byte>, engine: seq<byte>, cipher: seq<byte>, sslMethod: seq<byte>, padding: seq<byte>)

  datatype Flowop = Flowop(io: IoOptions, sctp: SctpOptions, text: TextOptions,
                           kind: nat, pId: nat, statid: nat, errors: nat) {
    predicate CanFail() { io.flag / O_CANFAIL % 2 == 1 }
    predicate RandomSize() { io.flag / O_SIZE_RAND % 2 == 1 }
    predicate Sendfile() { kind == FLOWOP_SENDFILE || kind == FLOWOP_SENDFILEV }
    predicate Resized() { io.rsize > io.size }
  }

  datatype TxnHdr = TxnHdr(nflowop: nat, txnid: nat, statid: nat, unused: nat, rateCount: nat, dummy: nat,
                           iter: nat, duration: nat, rateStr: seq<byte>)
  datatype Txn = Txn(hdr: TxnHdr, flist: seq<Flowop>)

  datatype GroupHdr = GroupHdr(endian: nat, strandFlag: nat, nthreads: nat, ntxn: nat, maxAsync: nat, groupid: nat)
  datatype Group = Group(hdr: GroupHdr, tlist: seq<Txn>)

  ghost predicate Every(g: Group, p: Flowop -> bool) {
    forall i, j :: 0 <= i < |g.tlist| && 0 <= j < |g.tlist[i].flist| ==> p(g.tlist[i].flist[j])
  }

  // ---- The opposite of a flowop ----

  function Opposite(kind: nat): nat {
    match kind
    case 1 => FLOWOP_WRITE
    case 2 => FLOWOP_READ
    case 8 => FLOWOP_RECV
    case 9 => FLOWOP_SEND
    case 5 => FLOWOP_CONNECT
    case 3 => FLOWOP_ACCEPT
    case 11 => FLOWOP_READ
    case 10 => FLOWOP_READ
    case _ => kind
  }

  const OPPOSITES: seq<(nat, nat)> := [
    (FLOWOP_READ, FLOWOP_WRITE), (FLOWOP_SEND, FLOWOP_RECV), (FLOWOP_ACCEPT, FLOWOP_CONNECT),
    (FLOWOP_SENDFILE, FLOWOP_READ), (FLOWOP_SENDFILEV, FLOWOP_READ)]

  /** The table scan of flowop_opposite: the first row that mentions the type decides. */
  method FlowopOpposite(kind: nat) returns (r: nat)
    ensures r == Opposite(kind)
  {
    var i := 0;
    while i < |OPPOSITES|
      invariant 0 <= i <= |OPPOSITES|
      invariant forall k :: 0 <= k < i ==> kind != OPPOSITES[k].0 && kind != OPPOSITES[k].1
    {
      assert i > 0 ==> kind != OPPOSITES[0].0;
      if kind == OPPOSITES[i].0 {
        return OPPOSITES[i].1;
      } else if kind == OPPOSITES[i].1 {
        return OPPOSITES[i].0;
      }
      i := i + 1;
    }
    assert kind != OPPOSITES[0].0 && kind != OPPOSITES[1].0 && kind != OPPOSITES[2].0
        && kind != OPPOSITES[3].0 && kind != OPPOSITES[4].0;
    return kind;
  }

  function OppositeFlowop(f: Flowop): Flowop {
    f.(io := if f.Sendfile() then f.io.(size := UPERF_SLAVE_READ_SIZE) else f.io,
       kind := Opposite(f.kind),
       sctp := f.sctp.(inStreams := f.sctp.outStreams, outStreams := f.sctp.inStreams))
  }

  /** optimize_txn_for_slave on one flowop; the product is computed in 64 bits. */
  function Resize(f: Flowop): Flowop {
    if !f.Resized() then f
    else f.(io := f.io.(count := if f.io.count > 1 then f.io.size * f.io.count % TWO_64 / f.io.rsize else f.io.count,
                        size := f.io.rsize))
  }

  function MapFlowops(fs: seq<Flowop>, h: Flowop -> Flowop): (r: seq<Flowop>)
    ensures |r| == |fs|
    ensures forall j :: 0 <= j < |fs| ==> r[j] == h(fs[j])
  {
    seq(|fs|, j requires 0 <= j < |fs| => h(fs[j]))
  }

  function MapGroup(g: Group, h: Flowop -> Flowop): (r: Group)
    ensures r.hdr == g.hdr && |r.tlist| == |g.tlist|
    ensures forall i :: 0 <= i < |g.tlist| ==> r.tlist[i] == Txn(g.tlist[i].hdr, MapFlowops(g.tlist[i].flist, h))
  {
    Group(g.hdr, seq(|g.tlist|, i requires 0 <= i < |g.tlist| => Txn(g.tlist[i].hdr, MapFlowops(g.tlist[i].flist, h))))
  }

  function OppositeGroup(g: Group): Group {
    MapGroup(g, f => Resize(OppositeFlowop(f)))
  }

  /** Work meant for another host becomes a no-op. */
  function NopFor(host: seq<byte>, f: Flowop): Flowop {
    if f.text.remotehost == [] || f.text.remotehost == host then f else f.(kind := FLOWOP_NOP)
  }

  /** What tx_group_t writes to the slave on `host`. */
  function ForSlave(g: Group, host: seq<byte>): Group {
    MapGroup(OppositeGroup(g), f => NopFor(host, f))
  }

  // ---- What a slave is given, field by field ----

  /** Who does what: reads and writes, sends and receives, accepts and connects answer each other, a file
      sent is read, and everything else is done on both sides. */
  predicate Answers(kind: nat, reply: nat) {
    match kind
    case 1 => reply == 2    // read, write
    case 2 => reply == 1
    case 3 => reply == 5    // connect, accept
    case 5 => reply == 3
    case 8 => reply == 9    // send, recv
    case 9 => reply == 8
    case 10 => reply == 1   // sendfilev, sendfile
    case 11 => reply == 1
    case _ => reply == kind
  }

  /** `s` answers `f`: a file is read in pieces of 64 kB, a read size above the size is the size and
      divides the count, the stream counts are exchanged, and all else is the same. */
  ghost predicate Reply(f: Flowop, s: Flowop) {
    var size := if f.kind == FLOWOP_SENDFILE || f.kind == FLOWOP_SENDFILEV then 65536 else f.io.size;
    && Answers(f.kind, s.kind)
    && s.io.size == (if f.io.rsize > size then f.io.rsize else size)
    && s.io.count == (if f.io.rsize > size && f.io.count > 1 then (size * f.io.count) % TWO_64 / f.io.rsize
                      else f.io.count)
    && s.io == f.io.(size := s.io.size, count := s.io.count)
    && s.sctp.inStreams == f.sctp.outStreams && s.sctp.outStreams == f.sctp.inStreams
    && s.sctp == f.sctp.(inStreams := s.sctp.inStreams, outStreams := s.sctp.outStreams)
    && s.text == f.text && s.pId == f.pId && s.statid == f.statid && s.errors == f.errors
  }

  lemma OppositeReplies(f: Flowop)
    ensures Reply(f, Resize(OppositeFlowop(f)))
  {
  }

  /** In the opposite of a group every flowop is the reply to the one in its place, and nothing else
      changes. */
  lemma GroupReplies(g: Group)
    ensures var s := OppositeGroup(g);
            && s.hdr == g.hdr && |s.tlist| == |g.tlist|
            && forall i :: 0 <= i < |g.tlist| ==>
                 s.tlist[i].hdr == g.tlist[i].hdr && |s.tlist[i].flist| == |g.tlist[i].flist|
    ensures forall i, j :: 0 <= i < |g.tlist| && 0 <= j < |g.tlist[i].flist| ==>
              Reply(g.tlist[i].flist[j], OppositeGroup(g).tlist[i].flist[j])
  {
    forall i, j | 0 <= i < |g.tlist| && 0 <= j < |g.tlist[i].flist|
      ensures Reply(g.tlist[i].flist[j], OppositeGroup(g).tlist[i].flist[j])
    {
      OppositeReplies(g.tlist[i].flist[j]);
    }
  }

  /** The slave on `host` gets the reply to each flowop that names it or nobody, and of the others a
      no-op with the fields of the reply. */
  lemma SlaveIsGivenReplies(g: Group, host: seq<byte>)
    ensures var s := ForSlave(g, host);
            && s.hdr == g.hdr && |s.tlist| == |g.tlist|
            && forall i :: 0 <= i < |g.tlist| ==>
                 s.tlist[i].hdr == g.tlist[i].hdr && |s.tlist[i].flist| == |g.tlist[i].flist|
    ensures forall i, j :: 0 <= i < |g.tlist| && 0 <= j < |g.tlist[i].flist| ==>
              Given(g.tlist[i].flist[j], host, ForSlave(g, host).tlist[i].flist[j])
  {
    GroupReplies(g);
    forall i, j | 0 <= i < |g.tlist| && 0 <= j < |g.tlist[i].flist|
      ensures Given(g.tlist[i].flist[j], host, ForSlave(g, host).tlist[i].flist[j])
    {
      var f := OppositeGroup(g).tlist[i].flist[j];
      assert Reply(g.tlist[i].flist[j], f) && ForSlave(g, host).tlist[i].flist[j] == NopFor(host, f);
      assert f == NopFor(host, f).(kind := f.kind);
    }
  }

  ghost predicate Given(f: Flowop, host: seq<byte>, s: Flowop) {
    if f.text.remotehost == [] || f.text.remotehost == host then Reply(f, s)
    else s.kind == 6 && exists kind :: Reply(f, s.(kind := kind))
  }

  // ---- Taking the opposite twice ----

  lemma OppositeTwice(kind: nat)
    ensures Opposite(Opposite(kind)) == kind <==> kind != FLOWOP_SENDFILE && kind != FLOWOP_SENDFILEV
  {
  }

  lemma FlowopTwice(f: Flowop)
    ensures Resize(OppositeFlowop(Resize(OppositeFlowop(f)))) == f <==> !f.Sendfile() && !f.Resized()
  {
  }

  ghost predicate Plain(f: Flowop) { !f.Sendfile() && !f.Resized() }

  /** Taking the opposite twice is the identity exactly on groups without sendfile or sendfilev
      and without a read size above the size. */
  lemma GroupTwice(g: Group)
    ensures OppositeGroup(OppositeGroup(g)) == g <==> Every(g, f => Plain(f))
  {
    var gg := OppositeGroup(OppositeGroup(g));
    forall i, j | 0 <= i < |g.tlist| && 0 <= j < |g.tlist[i].flist|
      ensures gg.tlist[i].flist[j] == g.tlist[i].flist[j] <==> Plain(g.tlist[i].flist[j])
    {
      FlowopTwice(g.tlist[i].flist[j]);
    }
    if Every(g, f => Plain(f)) {
      assert forall i :: 0 <= i < |g.tlist| ==> gg.tlist[i].flist == g.tlist[i].flist;
      assert gg.tlist == g.tlist;
    } else {
      var i, j :| 0 <= i < |g.tlist| && 0 <= j < |g.tlist[i].flist| && !Plain(g.tlist[i].flist[j]);
      assert gg.tlist[i].flist[j] != g.tlist[i].flist[j];
    }
  }

  // ---- Resizing for the slave ----

  /** A repeated flowop with a larger read size moves, on the slave, the largest multiple of the
      read size that fits the master's total; the two agree exactly when the read size divides
      it.  `p` is the master's total, `w` what is left of it in 64 bits. */
  lemma ResizeBound(f: Flowop)
    requires f.Resized() && f.io.count > 1
    ensures var p, w := f.io.size * f.io.count, f.io.size * f.io.count % TWO_64;
            var total := Resize(f).io.size * Resize(f).io.count;
            && total <= w < total + f.io.rsize && total <= p
            && (total == w <==> w % f.io.rsize == 0)
            && (p < TWO_64 ==> w == p)
            && (total == p <==> p < TWO_64 && p % f.io.rsize == 0)
  {
    var p, w := f.io.size * f.io.count, f.io.size * f.io.count % TWO_64;
    assert p >= 0;
    WrapShrinks(p);
    assert w == f.io.rsize * (w / f.io.rsize) + w % f.io.rsize;
  }

  lemma WrapShrinks(p: nat)
    ensures p % TWO_64 <= p
    ensures p % TWO_64 == p <==> p < TWO_64
  {
  }
}
