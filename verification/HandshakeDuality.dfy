/** The handshake as a session: position by position, what one side sends from its own data is
    what the other has decided to read, and each side's control goes where the other expects
    (src/handshake.c, src/slave.c). */
module HandshakeDuality {
  import opened ByteOrder
  import opened Workorder
  import opened WorkorderWire
  import opened HandshakeWire
  import opened Handshake

  // ---- Properties of the arrived group that the slave's control depends on ----

  lemma ArrivedAccepts(same: bool, peer: seq<byte>, g: Group)
    ensures HasAccept(ArrivedGroup(same, peer, g)) <==> HasAccept(g)
    ensures ArrivedGroup(same, peer, g).hdr.nthreads == g.hdr.nthreads
  {
    var a := ArrivedGroup(same, peer, g);
    forall i, j | 0 <= i < |g.tlist| && 0 <= j < |g.tlist[i].flist|
      ensures a.tlist[i].flist[j].kind == g.tlist[i].flist[j].kind
    {
      assert a.tlist[i] == ArrivedTxn(same, peer, g.tlist[i]);
    }
    assert forall i :: 0 <= i < |g.tlist| ==> |a.tlist[i].flist| == |g.tlist[i].flist|;
    if HasAccept(g) {
      var i, j :| 0 <= i < |g.tlist| && 0 <= j < |g.tlist[i].flist| && g.tlist[i].flist[j].kind == FLOWOP_ACCEPT;
      assert a.tlist[i].flist[j].kind == FLOWOP_ACCEPT;
    }
  }

  // ---- Duality: at every position one side sends exactly what the other is about to read ----

  lemma NumberFits(g: Group)
    requires GroupFits(g)
    ensures g.hdr.nthreads < Pow256(4) && g.hdr.ntxn < Pow256(4)
  {
    assert FieldFits(GroupFields(g.hdr)[2]) && FieldFits(GroupFields(g.hdr)[3]);
  }

  lemma WorkAckFits(same: bool, from: Endian, to: Endian, ack: Ack, no: nat)
    requires AckFits(ack) && no < Pow256(4) && same == (from == to)
    ensures |EncWorkAck(to, WorkAck(ack, Seen(same, 4, no)))| == SIZEOF_WORK_ACK
    ensures DecWorkAck(from, EncWorkAck(to, WorkAck(ack, Seen(same, 4, no)))) == WorkAck(ack, no)
  {
    SwapTwice(4, no);
    WorkAckReads(to, from, WorkAck(ack, Seen(same, 4, no)));
  }

  lemma SeenInfoTwice(same: bool, i: Info)
    requires InfoFits(i)
    ensures InfoFits(SeenInfo(same, i)) && SeenInfo(same, SeenInfo(same, i)) == i
  {
    forall k | 0 <= k < NUM_PROTOCOLS
      ensures Seen(same, 4, i.ports[k]) < Pow256(4) && Seen(same, 4, Seen(same, 4, i.ports[k])) == i.ports[k]
    {
      assert FieldFits(InfoFields(i)[1 + k]);
      SwapTwice(4, i.ports[k]);
    }
    assert FieldFits(InfoFields(i)[0]);
    assert SeenAll(same, SeenAll(same, i.ports)) == i.ports;
  }

  lemma SeenTableTwice(same: bool, t: seq<Info>)
    requires forall i :: 0 <= i < |t| ==> InfoFits(t[i])
    ensures forall i :: 0 <= i < |t| ==> InfoFits(SeenTable(same, t)[i])
    ensures SeenTable(same, SeenTable(same, t)) == t
  {
    forall i | 0 <= i < |t|
      ensures InfoFits(SeenInfo(same, t[i])) && SeenInfo(same, SeenInfo(same, t[i])) == t[i]
    {
      SeenInfoTwice(same, t[i]);
    }
  }

  /** A table swapped by its sender, or by its receiver, arrives as it was. */
  lemma SwappedTableArrives(from: Endian, to: Endian, t: seq<Info>)
    requires forall i :: 0 <= i < |t| ==> InfoFits(t[i])
    ensures |EncTable(from, t)| == |t| * SIZEOF_INFO == |EncTable(to, SeenTable(from == to, t))|
    ensures DecTable(from, |t|, EncTable(to, SeenTable(from == to, t))) == t
    ensures SeenTable(from == to, DecTable(to, |t|, EncTable(from, t))) == t
  {
    SeenTableTwice(from == to, t);
    TableReads(to, from, SeenTable(from == to, t));
    TableReads(from, to, t);
  }

  lemma GroupWidth(e: Endian, h: GroupHdr)
    ensures |EncFields(e, GroupFields(h))| == SIZEOF_GROUP_T
  {
    RecordSizes();
    GroupShape(h);
    EncFieldsWidth(e, GroupFields(h));
  }

  lemma TxnWidth(e: Endian, t: TxnHdr)
    ensures |EncFields(e, TxnFields(t))| == SIZEOF_TXN_T
  {
    RecordSizes();
    TxnShape(t);
    EncFieldsWidth(e, TxnFields(t));
  }

  lemma FlowopWidth(e: Endian, f: Flowop)
    ensures |EncFlowop(e, f)| == SIZEOF_FLOWOP_T
  {
    RecordSizes();
    FlowopShape(f);
    EncFieldsWidth(e, FlowopFields(f));
  }

  /** A port that is not open is 0, which no byte order changes. */
  lemma SwapOpenedIsSeen(bitswap: bool, t: seq<Info>)
    ensures SwapTable(bitswap, t) == SeenTable(!bitswap, t)
  {
    UnswappedIdsMatch(!bitswap, 0, 0);
    forall i | 0 <= i < |t|
      ensures SwapOpened(bitswap, t[i]) == SeenInfo(!bitswap, t[i])
    {
      assert SwapOpened(bitswap, t[i]).ports == SeenAll(!bitswap, t[i].ports);
    }
    assert SwapTable(bitswap, t) == SeenTable(!bitswap, t);
  }

  /** One side sends the message, the other reads exactly that many bytes; at the end both stop. */
  predicate Roles(p: Pos, msg: seq<byte>, m: Action, s: Action) {
    && (p.MasterSpeaks() ==> m == Send(msg) && s == Receive(|msg|))
    && (p.SlaveSpeaks() ==> s == Send(msg) && m == Receive(|msg|))
    && (p.AtOver? ==> m == Stop && s == Stop)
    && (!p.AtOver? ==> msg != [])
  }

  ghost predicate DualAt(c: Session, p: Pos)
  {
    Roles(p, Message(c, p), MasterAction(c, MasterAt(c, p)), SlaveAction(c, SlaveAt(c, p)))
  }

  lemma DualMasterTable(c: Session)
    requires Sizes(c) && SameLengths(c) && TablesFit(c) && HasAccept(c.group)
    ensures DualAt(c, AtMasterTable)
  {
  }

  lemma DualSlaveTable(c: Session)
    requires Sizes(c) && SameLengths(c) && TablesFit(c) && HasAccept(c.sent)
    ensures DualAt(c, AtSlaveTable)
  {
    SwappedTableArrives(c.from, c.to, c.slaveTable);
    SwapOpenedIsSeen(!c.Same(), c.slaveTable);
    assert !!c.Same() == c.Same();
    assert |SlaveTableBytes(c)| == c.SlaveNo() * SIZEOF_INFO;
  }

  lemma WorkAckSent(c: Session, s: Slave)
    requires s.pc == TxWorkAck && TxNo(s) == c.SlaveNo() && !s.bitswap == c.Same()
    ensures SlaveAction(c, s) == Send(WorkAckBytes(c))
  {
  }

  lemma WorkAckSize(c: Session)
    requires AckFits(Ack(UPERF_OK, c.note)) && c.SlaveNo() < Pow256(4)
    ensures |WorkAckBytes(c)| == SIZEOF_WORK_ACK
  {
    WorkAckFits(c.Same(), c.from, c.to, Ack(UPERF_OK, c.note), c.SlaveNo());
  }

  lemma DualWorkAck(c: Session)
    requires Sizes(c) && SameLengths(c) && AckFits(Ack(UPERF_OK, c.note)) && c.sent.hdr.nthreads < Pow256(4)
    requires HasAccept(c.arrived) <==> HasAccept(c.sent)
    requires c.arrived.hdr.nthreads == c.sent.hdr.nthreads
    ensures DualAt(c, AtWorkAck)
  {
    WorkAckSent(c, SlaveAt(c, AtWorkAck));
    WorkAckSize(c);
  }

  lemma DualRecords(c: Session, p: Pos)
    requires Sizes(c) && SameLengths(c) && Placed(c, p) && (p.AtGroup? || p.AtTxn? || p.AtFlowop?)
    ensures DualAt(c, p)
  {
  }

  lemma DualRest(c: Session, p: Pos)
    requires Sizes(c) && (p.AtHello? || p.AtHelloAck? || p.AtHeader? || p.AtEnd? || p.AtEndAck? || p.AtOver?)
    ensures DualAt(c, p)
  {
  }

  lemma ReceivedLengths(same: bool, peer: seq<byte>, g: Group)
    ensures |RxGroup(same, peer, g).tlist| == |g.tlist|
    ensures forall i :: 0 <= i < |g.tlist| ==> |RxGroup(same, peer, g).tlist[i].flist| == |g.tlist[i].flist|
  {
  }

  lemma AckSizes(c: Session)
    requires c.wire.okAck == EncAck(c.to, c.OkAck()) && c.wire.end == EncAck(c.from, c.EndAck())
    ensures |c.wire.okAck| == |c.wire.end| == SIZEOF_ACK
  {
    AckReads(c.to, c.from, c.OkAck());
    AckReads(c.from, c.to, c.EndAck());
  }

  lemma WireTxnSizes(e: Endian, t: Txn, hdr: seq<byte>, flowops: seq<seq<byte>>)
    requires WireTxn(e, t, hdr, flowops)
    ensures |hdr| == SIZEOF_TXN_T && |flowops| == |t.flist|
    ensures forall j :: 0 <= j < |flowops| ==> |flowops[j]| == SIZEOF_FLOWOP_T
  {
    TxnWidth(e, t.hdr);
    forall j | 0 <= j < |flowops|
      ensures |flowops[j]| == SIZEOF_FLOWOP_T
    {
      FlowopWidth(e, t.flist[j]);
    }
  }

  lemma WireGroupSizes(c: Session)
    requires WireGroup(c)
    ensures |c.wire.group| == SIZEOF_GROUP_T && |c.wire.txns| == |c.wire.flowops| == |c.sent.tlist|
    ensures forall i :: 0 <= i < |c.wire.txns| ==> |c.wire.txns[i]| == SIZEOF_TXN_T
    ensures forall i :: 0 <= i < |c.wire.txns| ==> |c.wire.flowops[i]| == |c.sent.tlist[i].flist|
    ensures forall i, j :: 0 <= i < |c.wire.txns| && 0 <= j < |c.wire.flowops[i]| ==>
              |c.wire.flowops[i][j]| == SIZEOF_FLOWOP_T
  {
    GroupWidth(c.from, c.sent.hdr);
    forall i | 0 <= i < |c.sent.tlist|
      ensures |c.wire.txns[i]| == SIZEOF_TXN_T && |c.wire.flowops[i]| == |c.sent.tlist[i].flist|
      ensures forall j :: 0 <= j < |c.wire.flowops[i]| ==> |c.wire.flowops[i][j]| == SIZEOF_FLOWOP_T
    {
      WireTxnSizes(c.from, c.sent.tlist[i], c.wire.txns[i], c.wire.flowops[i]);
    }
  }

  lemma HeaderSize(e: Endian, h: Header)
    requires HeaderFits(h)
    ensures |EncHeader(e, h)| == SIZEOF_HEADER
  {
    HeaderReads(e, e, h);
  }

  lemma ValidSizes(c: Session)
    requires Valid(c)
    ensures Sizes(c) && SameLengths(c)
  {
    AckSizes(c);
    HeaderSize(c.from, HelloHeader(c));
    HeaderSize(c.from, WorkHeader(c));
    WireGroupSizes(c);
    ReceivedLengths(c.Same(), c.peer, c.sent);
    TableWidth(c.from, c.masterTable);
  }

  /** What the control decisions of both sides rest on. */
  ghost predicate Agreed(c: Session) {
    && Sizes(c) && SameLengths(c) && TablesFit(c) && AckFits(Ack(UPERF_OK, c.note))
    && c.sent.hdr.nthreads < Pow256(4) && c.arrived.hdr.nthreads == c.sent.hdr.nthreads
    && (HasAccept(c.arrived) <==> HasAccept(c.sent))
  }

  lemma SentFits(c: Session)
    requires GroupsFit(c)
    ensures GroupFits(c.sent)
  {
    RewrittenGroupFits(c.group, c.host);
  }

  lemma ValidAgreed(c: Session)
    requires Valid(c)
    ensures Agreed(c)
  {
    ValidSizes(c);
    SentFits(c);
    NumberFits(c.sent);
    ArrivedAccepts(c.Same(), c.peer, c.sent);
  }

  lemma Duality(c: Session, p: Pos)
    requires Agreed(c) && Placed(c, p)
    ensures DualAt(c, p)
  {
    match p {
      case AtMasterTable => DualMasterTable(c);
      case AtSlaveTable => DualSlaveTable(c);
      case AtWorkAck => DualWorkAck(c);
      case AtGroup => DualRecords(c, p);
      case AtTxn(_) => DualRecords(c, p);
      case AtFlowop(_, _) => DualRecords(c, p);
      case _ => DualRest(c, p);
    }
  }

  // ---- Going on: the state after a message is the one the next position expects ----

  lemma MasterGoesOn(c: Session, p: Pos)
    requires Sizes(c) && Placed(c, p) && !p.AtHelloAck? && !p.AtWorkAck? && !p.AtSlaveTable?
    ensures MasterNext(c, MasterAt(c, p), Message(c, p)) == MasterAt(c, Succ(c, p))
  {
  }

  lemma MasterHearsHelloAck(c: Session)
    requires c.wire.okAck == EncAck(c.to, c.OkAck())
    ensures MasterNext(c, MasterAt(c, AtHelloAck), c.wire.okAck) == MasterAt(c, AtHeader)
  {
    AckReads(c.to, c.from, c.OkAck());
  }

  lemma WorkAckHeard(c: Session)
    requires AckFits(Ack(UPERF_OK, c.note)) && c.SlaveNo() < Pow256(4)
    ensures DecWorkAck(c.from, WorkAckBytes(c)) == WorkAck(Ack(UPERF_OK, c.note), c.SlaveNo())
  {
    WorkAckFits(c.Same(), c.from, c.to, Ack(UPERF_OK, c.note), c.SlaveNo());
  }

  lemma GoesOnAfterWorkAck(c: Session, buf: seq<byte>)
    requires TablesFit(c) && DecWorkAck(c.from, buf) == WorkAck(Ack(UPERF_OK, c.note), c.SlaveNo())
    ensures MasterNext(c, MasterAt(c, AtWorkAck), buf) == MasterAt(c, Succ(c, AtWorkAck))
  {
  }

  lemma MasterHearsWorkAck(c: Session)
    requires AckFits(Ack(UPERF_OK, c.note)) && c.sent.hdr.nthreads < Pow256(4) && TablesFit(c)
    ensures MasterNext(c, MasterAt(c, AtWorkAck), WorkAckBytes(c)) == MasterAt(c, Succ(c, AtWorkAck))
  {
    WorkAckHeard(c);
    GoesOnAfterWorkAck(c, WorkAckBytes(c));
  }

  lemma MasterHearsTable(c: Session)
    requires TablesFit(c)
    ensures MasterNext(c, MasterAt(c, AtSlaveTable), SlaveTableBytes(c)) == MasterAt(c, AtEnd)
  {
    SwappedTableArrives(c.from, c.to, c.slaveTable);
  }

  /** Having sent, or read, the message of a position, the master is at the next one. */
  lemma MasterFollows(c: Session, p: Pos)
    requires Agreed(c) && Placed(c, p) && c.wire.okAck == EncAck(c.to, c.OkAck())
    ensures MasterNext(c, MasterAt(c, p), Message(c, p)) == MasterAt(c, Succ(c, p))
  {
    match p {
      case AtHelloAck => MasterHearsHelloAck(c);
      case AtWorkAck => MasterHearsWorkAck(c);
      case AtSlaveTable => MasterHearsTable(c);
      case _ => MasterGoesOn(c, p);
    }
  }

  /** The header is the same on both sides once its numbers are swapped back. */
  lemma UnswapSeen(same: bool, h: Header)
    requires HeaderFits(h) && h.endian == UPERF_ENDIAN_VALUE
    ensures SeenHeader(same, h).endian == UPERF_ENDIAN_VALUE <==> same
    ensures var u := Unswap(SeenHeader(same, h));
            u.phase == h.phase && u.noInfo == h.noInfo && u.protocols == h.protocols && u.magic == h.magic &&
                    u.version == h.version
  {
    EndianMarkerTells(same);
    var fs := HeaderFields(h);
    assert FieldFits(fs[2]) && FieldFits(fs[3]);
    SeenTwice(same, 4, h.phase);
    SeenTwice(same, 4, h.noInfo);
    forall k | 0 <= k < NUM_PROTOCOLS
      ensures Seen(same, 4, Seen(same, 4, h.protocols[k])) == h.protocols[k]
    {
      assert fs[5 + k] == Num(4, h.protocols[k]) && FieldFits(fs[5 + k]);
      SeenTwice(same, 4, h.protocols[k]);
    }
    assert SeenAll(same, SeenAll(same, h.protocols)) == h.protocols;
  }

  /** The slave accepts the header `h`, which it sees as `raw`. */
  ghost predicate Accepts(c: Session, h: Header, raw: Header) {
    && Supports(c, Unswap(raw)) && Unswap(raw).phase == h.phase && Unswap(raw).noInfo == h.noInfo
    && (raw.endian == UPERF_ENDIAN_VALUE <==> c.Same())
  }

  lemma HeaderAccepted(c: Session, h: Header)
    requires HeaderFits(h) && h.endian == UPERF_ENDIAN_VALUE && h.magic == c.magic && h.version == c.version
    requires |c.supported| == NUM_PROTOCOLS && forall i :: 0 <= i < NUM_PROTOCOLS && h.protocols[i] != 0 ==>
               c.supported[i]
    ensures Accepts(c, h, SeenHeader(c.Same(), h))
  {
    UnswapSeen(c.Same(), h);
  }

  // ---- Who is refused ----

  lemma HeaderHeard(c: Session, s: Slave, h: Header)
    requires s.pc == RxHeader && HeaderFits(h)
    ensures SlaveNext(c, s, EncHeader(c.from, h)) == TakeHeader(c, s, SeenHeader(c.Same(), h))
  {
    HeaderReads(c.from, c.to, h);
    HearsHeading(c, s, EncHeader(c.from, h), SeenHeader(c.Same(), h));
  }

  /** What a slave accepts: its own magic and version, and only protocols it supports. */
  predicate Acceptable(c: Session, h: Header) {
    && h.magic == c.magic && h.version == c.version
    && forall i :: 0 <= i < |h.protocols| && h.protocols[i] != 0 ==> i < |c.supported| && c.supported[i]
  }

  lemma SupportsAcceptable(c: Session, h: Header)
    requires HeaderFits(h) && h.endian == UPERF_ENDIAN_VALUE
    ensures var u := Unswap(SeenHeader(c.Same(), h));
            u.phase == h.phase && (Supports(c, u) <==> Acceptable(c, h))
  {
    UnswapSeen(c.Same(), h);
  }

  lemma TakesHeader(c: Session, s: Slave, raw: Header)
    ensures var h := Unswap(raw);
            var t := TakeHeader(c, s, raw);
            && t.failed == (s.failed || !Supports(c, h))
            && t.pc == if h.phase == HANDSHAKE_PHASE_2 && !t.failed then RxGroupRec else TxAck(Supports(c, h))
  {
  }

  /** The slave takes a header exactly if magic and version are its own and it supports every protocol
      that is used; once it has refused one it never goes on to the workorder. */
  lemma HeaderIsJudged(c: Session, s: Slave, h: Header)
    requires s.pc == RxHeader && HeaderFits(h) && h.endian == UPERF_ENDIAN_VALUE
    ensures var t := SlaveNext(c, s, EncHeader(c.from, h));
            && t.failed == (s.failed || !Acceptable(c, h))
            && t.pc == if h.phase == HANDSHAKE_PHASE_2 && !t.failed then RxGroupRec else TxAck(Acceptable(c, h))
  {
    HeaderHeard(c, s, h);
    SupportsAcceptable(c, h);
    TakesHeader(c, s, SeenHeader(c.Same(), h));
  }

  /** The master goes on after an acknowledgement exactly if it says OK, and otherwise gives up. */
  lemma AcksAreJudged(c: Session, m: Master, a: Ack, no: nat)
    requires AckFits(a) && no < Pow256(4)
    ensures MasterNext(c, m.(pc := RxHelloAck), EncAck(c.to, a)).pc
         == if a.status == UPERF_OK then TxHeader else MasterFailed
    ensures MasterNext(c, m.(pc := RxWorkAck), EncWorkAck(c.to, WorkAck(a, Seen(c.Same(), 4, no)))).pc
         == if a.status != UPERF_OK then MasterFailed else if no > 0 then RxSlaveTable(no) else TxEnd
  {
    AckReads(c.to, c.from, a);
    WorkAckFits(c.Same(), c.from, c.to, a, no);
  }

  lemma UnsupportedIsUnacceptable(c: Session, h: Header, q: nat)
    requires q < |h.protocols| && h.protocols[q] != 0 && !(q < |c.supported| && c.supported[q])
    ensures !Acceptable(c, h)
  {
  }

  /** So a master that uses a protocol the slave does not support is told in phase 1, and gives up. */
  lemma UnsupportedIsRefused(c: Session, s: Slave, h: Header, q: nat)
    requires s.pc == RxHeader && HeaderFits(h) && h == HelloHeader(c)
    requires q < |c.protocols| && c.protocols[q] != 0 && !(q < |c.supported| && c.supported[q])
    ensures SlaveNext(c, s, EncHeader(c.from, h)).pc == TxAck(false)
    ensures MasterNext(c, Master(RxHelloAck, []), EncAck(c.to, c.BadAck())).pc == MasterFailed
  {
    UnsupportedIsUnacceptable(c, h, q);
    HeaderIsJudged(c, s, h);
    AcksAreJudged(c, Master(RxHelloAck, []), c.BadAck(), 0);
  }

  /** What the slave has built tells it how much more to read. */
  ghost predicate Built(c: Session) {
    && SameLengths(c) && (c.received.hdr.endian == UPERF_ENDIAN_VALUE <==> c.Same())
    && c.received.hdr.ntxn == |c.received.tlist|
    && (forall i :: 0 <= i < |c.received.tlist| ==> c.received.tlist[i].hdr.nflowop == |c.received.tlist[i].flist|)
    && Bitswap(c.Same(), c.received) == c.arrived
    && (HasAccept(c.group) <==> c.MasterNo() > 0) && |c.masterTable| == c.MasterNo()
  }

  lemma BuiltParts(same: bool, peer: seq<byte>, g: Group, r: Group, a: Group)
    requires GroupFits(g) && r == RxGroup(same, peer, g) && a == ArrivedGroup(same, peer, g)
    ensures |r.tlist| == |g.tlist| && r.hdr.ntxn == |r.tlist| && (r.hdr.endian == UPERF_ENDIAN_VALUE <==> same)
    ensures forall i :: 0 <= i < |g.tlist| ==> |r.tlist[i].flist| == |g.tlist[i].flist| == r.tlist[i].hdr.nflowop
    ensures Bitswap(same, r) == a
  {
    EndianMarkerTells(same);
    BitswapGroupRestores(same, peer, g);
    forall i | 0 <= i < |g.tlist|
      ensures |r.tlist[i].flist| == |g.tlist[i].flist| == r.tlist[i].hdr.nflowop
    {
      assert TxnFits(g.tlist[i]) && r.tlist[i] == RxTxn(same, peer, g.tlist[i]);
    }
  }

  lemma ValidBuilt(c: Session)
    requires GroupsFit(c) && TablesFit(c)
    ensures Built(c)
  {
    SentFits(c);
    BuiltParts(c.Same(), c.peer, c.sent, c.received, c.arrived);
  }

  lemma SlaveTakesGroup(c: Session)
    requires Built(c)
    ensures TakeGroup(SlaveAt(c, AtGroup), c.received.hdr) == SlaveAt(c, Succ(c, AtGroup))
  {
    if |c.received.tlist| == 0 {
      assert c.received == Group(c.received.hdr, []);
    }
  }

  lemma EndsTxnCases(s: Slave)
    ensures var w := s.work.(tlist := s.work.tlist + [s.txn]);
            TxnReceived(s) == if |w.tlist| < w.hdr.ntxn then s.(work := w, txn := NoTxn, pc := RxTxnRec)
                              else WorkReceived(s.(work := w, txn := NoTxn))
  {
  }

  lemma SlaveEndsTxn(c: Session, i: nat, s: Slave)
    requires Built(c) && i < |c.received.tlist|
    requires s == SlaveAt(c, AtTxn(i)).(pc := s.pc, txn := c.received.tlist[i])
    ensures TxnReceived(s) == SlaveAt(c, PosTxn(c, i + 1))
  {
    EndsTxnCases(s);
    var ts := c.received.tlist;
    assert ts[..i] + [ts[i]] == ts[..i + 1];
    if i + 1 == |ts| {
      assert ts[..i + 1] == ts;
      assert c.received.(tlist := ts) == c.received;
    }
  }

  lemma SlaveTakesTxn(c: Session, i: nat)
    requires Built(c) && i < |c.received.tlist|
    ensures TakeTxn(SlaveAt(c, AtTxn(i)), c.received.tlist[i].hdr) == SlaveAt(c, PosFlowop(c, i, 0))
  {
    var t, s := c.received.tlist[i], SlaveAt(c, AtTxn(i));
    if |t.flist| == 0 {
      assert t == Txn(t.hdr, []);
      SlaveEndsTxn(c, i, s.(txn := t));
    } else {
      assert TxnUpTo(c, i, 0) == Txn(t.hdr, []);
    }
  }

  lemma InnerFlowop(s: Slave, t: Txn, j: nat)
    requires j + 1 < |t.flist| == t.hdr.nflowop && s.txn == t.(flist := t.flist[..j])
    ensures TakeFlowop(s, t.flist[j]) == s.(txn := t.(flist := t.flist[..j + 1]), pc := RxFlowopRec)
  {
    assert t.flist[..j] + [t.flist[j]] == t.flist[..j + 1];
  }

  lemma LastFlowop(s: Slave, t: Txn, j: nat)
    requires j + 1 == |t.flist| == t.hdr.nflowop && s.txn == t.(flist := t.flist[..j])
    ensures TakeFlowop(s, t.flist[j]) == TxnReceived(s.(txn := t))
  {
    assert t.flist[..j] + [t.flist[j]] == t.flist;
    assert s.(txn := s.txn.(flist := s.txn.flist + [t.flist[j]])) == s.(txn := t);
  }

  lemma SlaveLeavesFlowops(c: Session, i: nat, j: nat)
    requires Built(c) && Placed(c, AtFlowop(i, j))
    ensures TxnReceived(SlaveAt(c, AtFlowop(i, j)).(txn := c.received.tlist[i])) == SlaveAt(c, PosTxn(c, i + 1))
  {
    SlaveEndsTxn(c, i, SlaveAt(c, AtFlowop(i, j)).(txn := c.received.tlist[i]));
  }

  lemma SlaveTakesFlowop(c: Session, i: nat, j: nat)
    requires Built(c) && Placed(c, AtFlowop(i, j))
    ensures TakeFlowop(SlaveAt(c, AtFlowop(i, j)), c.received.tlist[i].flist[j]) == SlaveAt(c, PosFlowop(c, i, j + 1))
  {
    if j + 1 < |c.sent.tlist[i].flist| {
      InnerFlowop(SlaveAt(c, AtFlowop(i, j)), c.received.tlist[i], j);
    } else {
      LastFlowop(SlaveAt(c, AtFlowop(i, j)), c.received.tlist[i], j);
      SlaveLeavesFlowops(c, i, j);
    }
  }

  /** What the slave makes of the message at a position. */
  function HeardAt(c: Session, p: Pos): Heard
  {
    match p
    case AtHello => Heading(c.seenHello)
    case AtHeader => Heading(c.seenHeader)
    case AtGroup => Grouping(c.received.hdr)
    case AtTxn(i) => Transaction(TxnUpTo(c, i, 0).hdr)
    case AtFlowop(i, j) =>
      Operation(if i < |c.received.tlist| && j < |c.received.tlist[i].flist|
                then c.received.tlist[i].flist[j] else NoFlowop)
    case AtMasterTable => Table(c.masterTable)
    case _ => Other(Message(c, p))
  }

  lemma SlaveTakesTable(c: Session)
    requires Agreed(c) && Placed(c, AtMasterTable)
    ensures SlaveReacts(c, SlaveAt(c, AtMasterTable), HeardAt(c, AtMasterTable)) == SlaveAt(c, Succ(c, AtMasterTable))
  {
  }

  lemma SlaveGoesOn(c: Session, p: Pos)
    requires Agreed(c) && Placed(c, p) && (p.SlaveSpeaks() || p.AtEnd? || p.AtOver?)
    ensures SlaveReacts(c, SlaveAt(c, p), HeardAt(c, p)) == SlaveAt(c, Succ(c, p))
  {
  }

  lemma SlaveTakesOther(c: Session, p: Pos)
    requires Agreed(c) && Placed(c, p) && (p.SlaveSpeaks() || p.AtEnd? || p.AtOver? || p.AtMasterTable?)
    ensures SlaveReacts(c, SlaveAt(c, p), HeardAt(c, p)) == SlaveAt(c, Succ(c, p))
  {
    if p.AtMasterTable? {
      SlaveTakesTable(c);
    } else {
      SlaveGoesOn(c, p);
    }
  }

  ghost predicate Follows(c: Session, p: Pos) {
    SlaveReacts(c, SlaveAt(c, p), HeardAt(c, p)) == SlaveAt(c, Succ(c, p))
  }

  /** The cases of Follows one by one. */
  ghost predicate FollowsHeaders(c: Session) { Follows(c, AtHello) && Follows(c, AtHeader) }
  ghost predicate FollowsTxns(c: Session) {
    && Follows(c, AtGroup)
    && forall i :: 0 <= i < |c.sent.tlist| ==> Follows(c, AtTxn(i))
  }
  ghost predicate FollowsFlowops(c: Session) {
    forall i, j :: 0 <= i < |c.sent.tlist| && 0 <= j < |c.sent.tlist[i].flist| ==> Follows(c, AtFlowop(i, j))
  }

  lemma HelloFollows(c: Session)
    requires Accepts(c, HelloHeader(c), c.seenHello)
    ensures Follows(c, AtHello)
  {
  }

  lemma HeaderFollows(c: Session)
    requires Accepts(c, WorkHeader(c), c.seenHeader)
    ensures Follows(c, AtHeader)
  {
  }

  lemma HelloAccepted(c: Session)
    requires HeadersFit(c)
    ensures Accepts(c, HelloHeader(c), c.seenHello)
  {
    HeaderAccepted(c, HelloHeader(c));
  }

  lemma WorkHeaderAccepted(c: Session)
    requires HeadersFit(c)
    ensures Accepts(c, WorkHeader(c), c.seenHeader)
  {
    HeaderAccepted(c, WorkHeader(c));
  }

  lemma HeadersFollow(c: Session)
    requires HeadersFit(c)
    ensures FollowsHeaders(c)
  {
    HelloAccepted(c);
    WorkHeaderAccepted(c);
    HelloFollows(c);
    HeaderFollows(c);
  }

  lemma TxnsFollow(c: Session)
    requires Built(c)
    ensures FollowsTxns(c)
  {
    SlaveTakesGroup(c);
    forall i | 0 <= i < |c.sent.tlist|
      ensures Follows(c, AtTxn(i))
    {
      SlaveTakesTxn(c, i);
    }
  }

  lemma ReactsToOperation(c: Session, s: Slave, f: Flowop)
    ensures SlaveReacts(c, s, Operation(f)) == TakeFlowop(s, f)
  {
  }

  lemma HeardAtFlowop(c: Session, i: nat, j: nat)
    requires i < |c.received.tlist| && j < |c.received.tlist[i].flist|
    ensures HeardAt(c, AtFlowop(i, j)) == Operation(c.received.tlist[i].flist[j])
  {
  }

  lemma FlowopFollows(c: Session, i: nat, j: nat)
    requires Built(c) && Placed(c, AtFlowop(i, j))
    ensures Follows(c, AtFlowop(i, j))
  {
    HeardAtFlowop(c, i, j);
    ReactsToOperation(c, SlaveAt(c, AtFlowop(i, j)), c.received.tlist[i].flist[j]);
    SlaveTakesFlowop(c, i, j);
  }

  lemma FlowopsFollow(c: Session)
    requires Built(c)
    ensures FollowsFlowops(c)
  {
    forall i, j | 0 <= i < |c.sent.tlist| && 0 <= j < |c.sent.tlist[i].flist|
      ensures Follows(c, AtFlowop(i, j))
    {
      FlowopFollows(c, i, j);
    }
  }

  lemma SlaveFollows(c: Session, p: Pos)
    requires FollowsHeaders(c) && FollowsTxns(c) && FollowsFlowops(c) && Agreed(c) && Placed(c, p)
    ensures Follows(c, p)
  {
    match p {
      case AtHello =>
      case AtHeader =>
      case AtGroup =>
      case AtTxn(i) =>
      case AtFlowop(i, j) =>
      case _ => SlaveTakesOther(c, p);
    }
  }

  // ---- The slave makes of the bytes what it should ----

  ghost predicate Hears(c: Session, p: Pos) { SlaveHears(c, SlaveAt(c, p), Message(c, p)) == HeardAt(c, p) }

  /** A record, whatever it is taken for. */
  lemma HearsHeading(c: Session, s: Slave, buf: seq<byte>, h: Header)
    requires s.pc == RxHeader && h == DecHeader(c.to, buf)
    ensures SlaveHears(c, s, buf) == Heading(h)
  {
  }

  lemma HearsGrouping(c: Session, s: Slave, buf: seq<byte>, h: GroupHdr)
    requires s.pc == RxGroupRec && h == HeardGroup(c.to, buf)
    ensures SlaveHears(c, s, buf) == Grouping(h)
  {
  }

  lemma HearsOperation(c: Session, s: Slave, buf: seq<byte>, f: Flowop)
    requires s.pc == RxFlowopRec && f == HeardFlowop(c.to, SameOrder(s), c.peer, buf)
    ensures SlaveHears(c, s, buf) == Operation(f)
  {
  }

  lemma HearsHeader(c: Session)
    requires c.seenHeader == DecHeader(c.to, c.wire.header)
    ensures Hears(c, AtHeader)
  {
    HearsHeading(c, SlaveAt(c, AtHeader), c.wire.header, c.seenHeader);
  }

  lemma HearsHello(c: Session)
    requires c.seenHello == DecHeader(c.to, c.wire.hello)
    ensures Hears(c, AtHello)
  {
    HearsHeading(c, SlaveAt(c, AtHello), c.wire.hello, c.seenHello);
  }

  lemma GroupRecordReads(from: Endian, to: Endian, h: GroupHdr)
    requires Fits(GroupFields(h)) && h.endian == UPERF_ENDIAN_VALUE
    ensures HeardGroup(to, EncFields(from, GroupFields(h))) == SeenGroupHdr(from == to, h).(ntxn := h.ntxn)
  {
    GroupShape(h);
    WholeRecord(from, to, GroupFields(h), GROUP_SHAPE);
    EndianMarkerTells(from == to);
    assert FieldFits(GroupFields(h)[3]);
    SeenTwice(from == to, 4, h.ntxn);
  }

  lemma TxnRecordReads(from: Endian, to: Endian, h: TxnHdr)
    requires Fits(TxnFields(h))
    ensures HeardTxn(to, from == to, EncFields(from, TxnFields(h))) == SeenTxnHdr(from == to, h).(nflowop := h.nflowop)
  {
    TxnShape(h);
    WholeRecord(from, to, TxnFields(h), TXN_SHAPE);
    assert FieldFits(TxnFields(h)[0]);
    SeenTwice(from == to, 4, h.nflowop);
  }

  lemma FlowopRecordReads(from: Endian, to: Endian, peer: seq<byte>, f: Flowop)
    requires FlowopFits(f)
    ensures HeardFlowop(to, from == to, peer, EncFlowop(from, f)) == SeenRxFlowop(from == to, peer, f)
  {
    FlowopShape(f);
    WholeRecord(from, to, FlowopFields(f), FLOWOP_SHAPE);
  }

  lemma AtGroupParts(c: Session)
    ensures SlaveAt(c, AtGroup).pc == RxGroupRec && Message(c, AtGroup) == c.wire.group
    ensures HeardAt(c, AtGroup) == Grouping(c.received.hdr)
  {
  }

  lemma HearsGroup(c: Session)
    requires c.received.hdr == HeardGroup(c.to, c.wire.group)
    ensures Hears(c, AtGroup)
  {
    AtGroupParts(c);
    HearsGrouping(c, SlaveAt(c, AtGroup), c.wire.group, c.received.hdr);
  }

  lemma HearsTxn(c: Session, i: nat)
    requires i < |c.wire.txns| == |c.received.tlist| && (c.received.hdr.endian == UPERF_ENDIAN_VALUE <==> c.Same())
    requires c.received.tlist[i].hdr == HeardTxn(c.to, c.Same(), c.wire.txns[i])
    ensures Hears(c, AtTxn(i))
  {
    OrderKnown(c, i, 0);
  }

  lemma OrderKnown(c: Session, i: nat, j: nat)
    requires i <= |c.received.tlist| && (c.received.hdr.endian == UPERF_ENDIAN_VALUE <==> c.Same())
    ensures SameOrder(SlaveAt(c, AtTxn(i))) == SameOrder(SlaveAt(c, AtFlowop(i, j))) == c.Same()
    ensures SlaveAt(c, AtTxn(i)).pc == RxTxnRec && SlaveAt(c, AtFlowop(i, j)).pc == RxFlowopRec
  {
  }

  lemma HearsFlowop(c: Session, i: nat, j: nat)
    requires i < |c.received.tlist| && j < |c.received.tlist[i].flist| &&
             (c.received.hdr.endian == UPERF_ENDIAN_VALUE <==> c.Same())
    requires c.received.tlist[i].flist[j] == HeardFlowop(c.to, c.Same(), c.peer, Message(c, AtFlowop(i, j)))
    ensures Hears(c, AtFlowop(i, j))
  {
    OrderKnown(c, i, j);
    HearsOperation(c, SlaveAt(c, AtFlowop(i, j)), Message(c, AtFlowop(i, j)), c.received.tlist[i].flist[j]);
    HeardAtFlowop(c, i, j);
  }

  lemma HearsTable(c: Session)
    requires TablesFit(c) && c.wire.masterTable == EncTable(c.from, c.masterTable)
    ensures Hears(c, AtMasterTable)
  {
    SwappedTableArrives(c.from, c.to, c.masterTable);
  }

  predicate TakesNoRecord(pc: SlavePc) {
    !pc.RxHeader? && !pc.RxGroupRec? && !pc.RxTxnRec? && !pc.RxFlowopRec? && !pc.RxMasterTable?
  }

  lemma HearsBytes(c: Session, s: Slave, buf: seq<byte>)
    requires TakesNoRecord(s.pc)
    ensures SlaveHears(c, s, buf) == Other(buf)
  {
  }

  lemma AtOtherParts(c: Session, p: Pos)
    requires p.SlaveSpeaks() || p.AtEnd? || p.AtOver?
    ensures TakesNoRecord(SlaveAt(c, p).pc) && HeardAt(c, p) == Other(Message(c, p))
  {
  }

  lemma HearsOther(c: Session, p: Pos)
    requires p.SlaveSpeaks() || p.AtEnd? || p.AtOver?
    ensures Hears(c, p)
  {
    AtOtherParts(c, p);
    HearsBytes(c, SlaveAt(c, p), Message(c, p));
  }

  lemma GroupHeard(c: Session)
    requires Fits(GroupFields(c.sent.hdr)) && c.sent.hdr.endian == UPERF_ENDIAN_VALUE
    requires c.wire.group == EncFields(c.from, GroupFields(c.sent.hdr))
    requires c.received.hdr == SeenGroupHdr(c.Same(), c.sent.hdr).(ntxn := c.sent.hdr.ntxn)
    ensures Hears(c, AtGroup)
  {
    GroupRecordReads(c.from, c.to, c.sent.hdr);
    HearsGroup(c);
  }

  lemma TxnHeard(c: Session, i: nat, t: Txn)
    requires i < |c.wire.txns| == |c.received.tlist| && (c.received.hdr.endian == UPERF_ENDIAN_VALUE <==> c.Same())
    requires Fits(TxnFields(t.hdr)) && c.wire.txns[i] == EncFields(c.from, TxnFields(t.hdr))
    requires c.received.tlist[i].hdr == SeenTxnHdr(c.Same(), t.hdr).(nflowop := t.hdr.nflowop)
    ensures Hears(c, AtTxn(i))
  {
    TxnRecordReads(c.from, c.to, t.hdr);
    HearsTxn(c, i);
  }

  lemma FlowopHeard(c: Session, i: nat, j: nat, f: Flowop)
    requires SameLengths(c) && Placed(c, AtFlowop(i, j)) && (c.received.hdr.endian == UPERF_ENDIAN_VALUE <==> c.Same())
    requires FlowopFits(f) && Message(c, AtFlowop(i, j)) == EncFlowop(c.from, f)
    requires c.received.tlist[i].flist[j] == SeenRxFlowop(c.Same(), c.peer, f)
    ensures Hears(c, AtFlowop(i, j))
  {
    FlowopRecordReads(c.from, c.to, c.peer, f);
    HearsFlowop(c, i, j);
  }

  /** How the parts of the received group come from those of the sent one. */
  lemma ReceivedParts(same: bool, peer: seq<byte>, g: Group, r: Group)
    requires r == RxGroup(same, peer, g)
    ensures r.hdr == SeenGroupHdr(same, g.hdr).(ntxn := g.hdr.ntxn)
    ensures |r.tlist| == |g.tlist|
    ensures forall i :: 0 <= i < |g.tlist| ==> r.tlist[i] == RxTxn(same, peer, g.tlist[i])
  {
  }

  lemma TxnsHeard(c: Session)
    requires Built(c) && GroupFits(c.sent) && WireGroup(c) && c.received == RxGroup(c.Same(), c.peer, c.sent)
    ensures forall i :: 0 <= i < |c.sent.tlist| ==> Hears(c, AtTxn(i))
  {
    ReceivedParts(c.Same(), c.peer, c.sent, c.received);
    forall i | 0 <= i < |c.sent.tlist|
      ensures Hears(c, AtTxn(i))
    {
      assert TxnFits(c.sent.tlist[i]);
      assert WireTxn(c.from, c.sent.tlist[i], c.wire.txns[i], c.wire.flowops[i]);
      TxnHeard(c, i, c.sent.tlist[i]);
    }
  }

  lemma TxnFlowopsHeard(c: Session, i: nat, t: Txn)
    requires SameLengths(c) && i < |c.sent.tlist| && t == c.sent.tlist[i] && TxnFits(t)
    requires i < |c.wire.txns| == |c.wire.flowops| && WireTxn(c.from, t, c.wire.txns[i], c.wire.flowops[i])
    requires c.received.hdr.endian == UPERF_ENDIAN_VALUE <==> c.Same()
    requires c.received.tlist[i].flist == Map(f => SeenRxFlowop(c.Same(), c.peer, f), t.flist)
    ensures forall j :: 0 <= j < |t.flist| ==> Hears(c, AtFlowop(i, j))
  {
    forall j | 0 <= j < |t.flist|
      ensures Hears(c, AtFlowop(i, j))
    {
      FlowopHeard(c, i, j, t.flist[j]);
    }
  }

  lemma FlowopsHeard(c: Session)
    requires Built(c) && GroupFits(c.sent) && WireGroup(c) && c.received == RxGroup(c.Same(), c.peer, c.sent)
    ensures HearsFlowops(c)
  {
    ReceivedParts(c.Same(), c.peer, c.sent, c.received);
    forall i | 0 <= i < |c.sent.tlist|
      ensures forall j :: 0 <= j < |c.sent.tlist[i].flist| ==> Hears(c, AtFlowop(i, j))
    {
      assert TxnFits(c.sent.tlist[i]) && WireTxn(c.from, c.sent.tlist[i], c.wire.txns[i], c.wire.flowops[i]);
      TxnFlowopsHeard(c, i, c.sent.tlist[i]);
    }
  }

  ghost predicate HearsHeaders(c: Session) { Hears(c, AtHello) && Hears(c, AtHeader) && Hears(c, AtMasterTable) }
  ghost predicate HearsTxns(c: Session) {
    && Hears(c, AtGroup)
    && forall i :: 0 <= i < |c.sent.tlist| ==> Hears(c, AtTxn(i))
  }
  ghost predicate HearsFlowops(c: Session) {
    forall i, j :: 0 <= i < |c.sent.tlist| && 0 <= j < |c.sent.tlist[i].flist| ==> Hears(c, AtFlowop(i, j))
  }

  lemma HeadersHeard(c: Session)
    requires HeadersFit(c) && WireHeaders(c) && TablesFit(c) && c.wire.masterTable == EncTable(c.from, c.masterTable)
    ensures HearsHeaders(c)
  {
    HeaderReads(c.from, c.to, HelloHeader(c));
    HeaderReads(c.from, c.to, WorkHeader(c));
    HearsHello(c);
    HearsHeader(c);
    HearsTable(c);
  }

  lemma GroupAndTxnsHeard(c: Session)
    requires Built(c) && GroupFits(c.sent) && WireGroup(c) && c.received == RxGroup(c.Same(), c.peer, c.sent)
    ensures HearsTxns(c)
  {
    TxnsHeard(c);
    ReceivedParts(c.Same(), c.peer, c.sent, c.received);
    GroupHeard(c);
  }

  lemma SlaveHearsAll(c: Session, p: Pos)
    requires HearsHeaders(c) && HearsTxns(c) && HearsFlowops(c) && Placed(c, p)
    ensures Hears(c, p)
  {
    if p.SlaveSpeaks() || p.AtEnd? || p.AtOver? {
      HearsOther(c, p);
    }
  }

  // ---- Together ----

  ghost predicate Sound(c: Session) {
    && Agreed(c) && c.wire.okAck == EncAck(c.to, c.OkAck())
    && FollowsHeaders(c) && FollowsTxns(c) && FollowsFlowops(c)
    && HearsHeaders(c) && HearsTxns(c) && HearsFlowops(c)
  }

  lemma ValidSound(c: Session)
    requires Valid(c)
    ensures Sound(c)
  {
    SentFits(c);
    ValidAgreed(c);
    ValidBuilt(c);
    HeadersFollow(c);
    TxnsFollow(c);
    FlowopsFollow(c);
    HeadersHeard(c);
    GroupAndTxnsHeard(c);
    FlowopsHeard(c);
  }

  ghost predicate MasterStepsRight(c: Session, p: Pos) {
    MasterNext(c, MasterAt(c, p), Message(c, p)) == MasterAt(c, Succ(c, p))
  }

  ghost predicate SlaveStepsRight(c: Session, p: Pos) {
    SlaveNext(c, SlaveAt(c, p), Message(c, p)) == SlaveAt(c, Succ(c, p))
  }

  lemma SlaveSteps(c: Session, p: Pos)
    requires Hears(c, p) && Follows(c, p)
    ensures SlaveStepsRight(c, p)
  {
  }

  /** At every position of an error-free session, what one side decides to send, from its own
      data, is exactly what the other decides to read, from the bytes it has read so far; and with
      that message sent and read both are at the next position. */
  lemma SessionDuality(c: Session, p: Pos)
    requires Valid(c) && Placed(c, p)
    ensures DualAt(c, p) && MasterStepsRight(c, p) && SlaveStepsRight(c, p)
  {
    ValidSound(c);
    SoundDuality(c, p);
  }

  lemma SoundDuality(c: Session, p: Pos)
    requires Sound(c) && Placed(c, p)
    ensures DualAt(c, p) && MasterStepsRight(c, p) && SlaveStepsRight(c, p)
  {
    Duality(c, p);
    MasterFollows(c, p);
    SlaveHearsAll(c, p);
    SlaveFollows(c, p);
    SlaveSteps(c, p);
  }
}
