/** The two sides of the handshake as programs over a byte stream.  Each side decides what to read
    or write next from its own data and from the bytes it has read (src/handshake.c, the order of
    calls in src/slave.c and src/master.c). */
module Handshake {
  import opened ByteOrder
  import opened Workorder
  import opened WorkorderWire
  import opened HandshakeWire

  /** The structs as they lie in the memory of the side that writes them. */
  datatype Wire = Wire(hello: seq<byte>, okAck: seq<byte>, badAck: seq<byte>, header: seq<byte>, group: seq<byte>,
                       txns: seq<seq<byte>>, flowops: seq<seq<seq<byte>>>, masterTable: seq<byte>, end: seq<byte>)

  /** Everything that decides an error-free session with one slave.  `group` is the master's own
      group, `host` the slave's name, `sent` the group as rewritten for it, `peer` the master as
      the slave sees it; the tables hold the ports each side has opened for the other, `note` what
      the slave's uninitialised acknowledgement happens to say.  `received` and `arrived` are what
      the slave builds, before and after group_bitswap, the seen headers what it has in memory. */
  datatype Session = Session(
    from: Endian, to: Endian, magic: seq<byte>, version: seq<byte>, host: seq<byte>, peer: seq<byte>,
    group: Group, sent: Group, received: Group, arrived: Group, protocols: seq<nat>, supported: seq<bool>,
    masterTable: seq<Info>, slaveTable: seq<Info>, note: seq<byte>, wire: Wire,
    seenHello: Header, seenHeader: Header)
  {
    predicate Same() { from == to }
    function OkAck(): Ack { Ack(UPERF_OK, []) }
    function BadAck(): Ack { Ack(UPERF_NOT_OK, []) }
    /** The memset acknowledgement that ends the handshake. */
    function EndAck(): Ack { Ack([], []) }
    function SlaveNo(): nat { if HasAccept(sent) then sent.hdr.nthreads else 0 }
    function MasterNo(): nat { if HasAccept(group) then group.hdr.nthreads else 0 }
  }

  predicate HasAccept(g: Group) {
    exists i, j :: 0 <= i < |g.tlist| && 0 <= j < |g.tlist[i].flist| && g.tlist[i].flist[j].kind == FLOWOP_ACCEPT
  }

  /** The group fits its fields, and is sent, received and swapped as modelled. */
  ghost predicate GroupsFit(c: Session) {
    && GroupFits(c.group) && c.sent == ForSlave(c.group, c.host)
    && c.received == RxGroup(c.Same(), c.peer, c.sent) && c.arrived == ArrivedGroup(c.Same(), c.peer, c.sent)
  }

  /** Both sides run the same version and the slave supports every protocol used. */
  ghost predicate HeadersFit(c: Session) {
    && HeaderFits(HelloHeader(c)) && HeaderFits(WorkHeader(c)) && AckFits(Ack(UPERF_OK, c.note))
    && |c.supported| == NUM_PROTOCOLS
    && c.seenHello == SeenHeader(c.Same(), HelloHeader(c)) && c.seenHeader == SeenHeader(c.Same(), WorkHeader(c))
    && forall i :: 0 <= i < NUM_PROTOCOLS && c.protocols[i] != 0 ==> c.supported[i]
  }

  /** A side with accepts has a table entry for each of its strands, and there is at least one. */
  ghost predicate TablesFit(c: Session) {
    && |c.masterTable| == c.MasterNo() && (forall i :: 0 <= i < |c.masterTable| ==> InfoFits(c.masterTable[i]))
    && |c.slaveTable| == c.SlaveNo() && (forall i :: 0 <= i < |c.slaveTable| ==> InfoFits(c.slaveTable[i]))
    && (HasAccept(c.group) ==> c.MasterNo() > 0) && (HasAccept(c.sent) ==> c.SlaveNo() > 0)
  }

  ghost predicate WireHeaders(c: Session) {
    && c.wire.hello == EncHeader(c.from, HelloHeader(c)) && c.wire.header == EncHeader(c.from, WorkHeader(c))
    && c.wire.okAck == EncAck(c.to, c.OkAck()) && c.wire.badAck == EncAck(c.to, c.BadAck())
    && c.wire.end == EncAck(c.from, c.EndAck())
  }

  ghost predicate WireGroup(c: Session) {
    && c.wire.group == EncFields(c.from, GroupFields(c.sent.hdr))
    && |c.wire.txns| == |c.wire.flowops| == |c.sent.tlist|
    && forall i :: 0 <= i < |c.sent.tlist| ==> WireTxn(c.from, c.sent.tlist[i], c.wire.txns[i], c.wire.flowops[i])
  }

  ghost predicate WireTxn(e: Endian, t: Txn, hdr: seq<byte>, flowops: seq<seq<byte>>) {
    && hdr == EncFields(e, TxnFields(t.hdr)) && |flowops| == |t.flist|
    && forall j :: 0 <= j < |flowops| ==> flowops[j] == EncFlowop(e, t.flist[j])
  }

  ghost predicate Valid(c: Session) {
    && GroupsFit(c) && HeadersFit(c) && TablesFit(c)
    && WireHeaders(c) && WireGroup(c) && c.wire.masterTable == EncTable(c.from, c.masterTable)
  }

  /** The lists the slave builds are as long as those it is sent. */
  ghost predicate SameLengths(c: Session) {
    && |c.received.tlist| == |c.sent.tlist|
    && forall i :: 0 <= i < |c.sent.tlist| ==> |c.received.tlist[i].flist| == |c.sent.tlist[i].flist|
  }

  /** What the two sides rely on when they choose what to read and write next. */
  ghost predicate Sizes(c: Session) {
    && |c.wire.hello| == |c.wire.header| == SIZEOF_HEADER
    && |c.wire.okAck| == |c.wire.end| == SIZEOF_ACK
    && |c.wire.group| == SIZEOF_GROUP_T && |c.wire.masterTable| == c.MasterNo() * SIZEOF_INFO
    && |c.wire.txns| == |c.wire.flowops| == |c.sent.tlist|
    && (forall i :: 0 <= i < |c.wire.txns| ==> |c.wire.txns[i]| == SIZEOF_TXN_T)
    && (forall i :: 0 <= i < |c.wire.txns| ==> |c.wire.flowops[i]| == |c.sent.tlist[i].flist|)
    && (forall i, j :: 0 <= i < |c.wire.txns| && 0 <= j < |c.wire.flowops[i]| ==>
          |c.wire.flowops[i][j]| == SIZEOF_FLOWOP_T)
  }

  function Zero8(): seq<nat> { seq(NUM_PROTOCOLS, _ => 0) }

  function HelloHeader(c: Session): Header {
    Header(c.magic, UPERF_ENDIAN_VALUE, HANDSHAKE_PHASE_1, 0, 0, c.protocols, c.version, [])
  }

  function WorkHeader(c: Session): Header {
    Header(c.magic, UPERF_ENDIAN_VALUE, HANDSHAKE_PHASE_2, c.MasterNo(), 0, Zero8(), c.version, [])
  }

  /** What a process does next: a complete ensure_write or ensure_read, or nothing. */
  datatype Action = Send(data: seq<byte>) | Receive(size: nat) | Stop

  // ---- The master ----

  datatype MasterPc =
    | TxHello | RxHelloAck | TxHeader | TxGroup | TxTxn(i: nat) | TxFlowop(i: nat, j: nat) | TxMasterTable
    | RxWorkAck | RxSlaveTable(n: nat) | TxEnd | RxEnd | MasterDone | MasterFailed

  /** `learned` are the ports of the slave. */
  datatype Master = Master(pc: MasterPc, learned: seq<Info>)

  function MasterAction(c: Session, m: Master): Action {
    match m.pc
    case TxHello => Send(c.wire.hello)
    case RxHelloAck => Receive(SIZEOF_ACK)
    case TxHeader => Send(c.wire.header)
    case TxGroup => Send(c.wire.group)
    case TxTxn(i) => if i < |c.wire.txns| then Send(c.wire.txns[i]) else Stop
    case TxFlowop(i, j) => if i < |c.wire.flowops| && j < |c.wire.flowops[i]| then Send(c.wire.flowops[i][j]) else Stop
    case TxMasterTable => Send(c.wire.masterTable)
    case RxWorkAck => Receive(SIZEOF_WORK_ACK)
    case RxSlaveTable(n) => Receive(n * SIZEOF_INFO)
    case TxEnd => Send(c.wire.end)
    case RxEnd => Receive(SIZEOF_ACK)
    case MasterDone => Stop
    case MasterFailed => Stop
  }

  /** tx_group_t goes to transaction i, or is done and a table follows if there are accepts. */
  function MasterTxn(c: Session, i: nat): MasterPc {
    if i < |c.sent.tlist| then TxTxn(i) else if HasAccept(c.group) then TxMasterTable else RxWorkAck
  }

  function MasterFlowop(c: Session, i: nat, j: nat): MasterPc {
    if i < |c.sent.tlist| && j < |c.sent.tlist[i].flist| then TxFlowop(i, j) else MasterTxn(c, i + 1)
  }

  /** After the call has moved all its bytes; `buf` is what was read. */
  function MasterNext(c: Session, m: Master, buf: seq<byte>): Master {
    match m.pc
    case TxHello => m.(pc := RxHelloAck)
    case RxHelloAck => m.(pc := if DecAck(c.from, buf).status == UPERF_OK then TxHeader else MasterFailed)
    case TxHeader => m.(pc := TxGroup)
    case TxGroup => m.(pc := MasterTxn(c, 0))
    case TxTxn(i) => m.(pc := MasterFlowop(c, i, 0))
    case TxFlowop(i, j) => m.(pc := MasterFlowop(c, i, j + 1))
    case TxMasterTable => m.(pc := RxWorkAck)
    case RxWorkAck =>
      var a := DecWorkAck(c.from, buf);
      m.(pc := if a.ack.status != UPERF_OK then MasterFailed
               else if a.noInfo > 0 then RxSlaveTable(a.noInfo) else TxEnd)
    case RxSlaveTable(n) => Master(TxEnd, DecTable(c.from, n, buf))
    case TxEnd => m.(pc := RxEnd)
    case RxEnd => m.(pc := MasterDone)
    case MasterDone => m
    case MasterFailed => m
  }

  // ---- The slave ----

  datatype SlavePc =
    | RxHeader | TxAck(ok: bool) | RxGroupRec | RxTxnRec | RxFlowopRec | RxMasterTable | TxWorkAck | TxSlaveTable
    | RxEndAck | TxEndAck(echo: seq<byte>) | SlaveDone

  /** `failed` is the sticky status of the header loop, `work` the lists built so far, `txn` the
      transaction being read, `learned` the ports of the master. */
  datatype Slave = Slave(pc: SlavePc, failed: bool, bitswap: bool, rxNo: nat, work: Group, txn: Txn, learned: seq<Info>)

  const NoTxn: Txn := Txn(TxnHdr(0, 0, 0, 0, 0, 0, 0, 0, []), [])
  const NoFlowop: Flowop := Flowop(IoOptions(0, 0, 0, 0, 0, 0, 0, 0, 0, 0, 0, 0, 0, 0),
    SctpOptions(0, 0, 0, 0, 0, 0, 0, 0, 0, 0, 0, 0, 0, 0, 0, 0),
    TextOptions([], [], [], [], [], [], [], [], [], []), 0, 0, 0, 0)
  const NoGroup: Group := Group(GroupHdr(0, 0, 0, 0, 0, 0), [])

  function InitSlave(): Slave { Slave(RxHeader, false, false, 0, NoGroup, NoTxn, []) }

  /** tx_no_slave_info: preprocess_accepts found something to listen for. */
  function TxNo(s: Slave): nat { if HasAccept(s.work) then s.work.hdr.nthreads else 0 }

  /** slave_handshake_p2_success swaps the ports it has opened before sending them. */
  function SwapOpened(bitswap: bool, i: Info): Info {
    i.(ports := seq(|i.ports|, k requires 0 <= k < |i.ports| =>
      if i.ports[k] > 0 then Seen(!bitswap, 4, i.ports[k]) else i.ports[k]))
  }

  function SwapTable(bitswap: bool, t: seq<Info>): seq<Info> { Map(i => SwapOpened(bitswap, i), t) }

  function SlaveAction(c: Session, s: Slave): Action {
    match s.pc
    case RxHeader => Receive(SIZEOF_HEADER)
    case TxAck(ok) => Send(if ok then c.wire.okAck else c.wire.badAck)
    case RxGroupRec => Receive(SIZEOF_GROUP_T)
    case RxTxnRec => Receive(SIZEOF_TXN_T)
    case RxFlowopRec => Receive(SIZEOF_FLOWOP_T)
    case RxMasterTable => Receive(s.rxNo * SIZEOF_INFO)
    case TxWorkAck => Send(EncWorkAck(c.to, WorkAck(Ack(UPERF_OK, c.note), Seen(!s.bitswap, 4, TxNo(s)))))
    case TxSlaveTable => Send(EncTable(c.to, SwapTable(s.bitswap, c.slaveTable)))
    case RxEndAck => Receive(SIZEOF_ACK)
    case TxEndAck(echo) => Send(echo)
    case SlaveDone => Stop
  }

  /** The header's numbers in the slave's own order. */
  function Unswap(h: Header): Header {
    if h.endian == UPERF_ENDIAN_VALUE then h
    else h.(phase := Swap(4, h.phase), noInfo := Swap(4, h.noInfo), protocols := SeenAll(false, h.protocols))
  }

  predicate Supports(c: Session, h: Header) {
    && h.magic == c.magic && h.version == c.version
    && forall i :: 0 <= i < |h.protocols| && h.protocols[i] != 0 ==> i < |c.supported| && c.supported[i]
  }

  function TakeHeader(c: Session, s: Slave, raw: Header): Slave {
    var h := Unswap(raw);
    var ok := Supports(c, h);
    var t := s.(failed := s.failed || !ok, bitswap := s.bitswap || raw.endian != UPERF_ENDIAN_VALUE);
    if h.phase == HANDSHAKE_PHASE_2 && !t.failed then t.(pc := RxGroupRec, rxNo := h.noInfo) else t.(pc := TxAck(ok))
  }

  /** rx_group_t returned; group_bitswap, and the master's ports if the header promised some. */
  function WorkReceived(s: Slave): Slave {
    s.(work := Bitswap(!s.bitswap, s.work), pc := if s.rxNo > 0 then RxMasterTable else TxWorkAck)
  }

  function TxnReceived(s: Slave): Slave {
    var t := s.(work := s.work.(tlist := s.work.tlist + [s.txn]), txn := NoTxn);
    if |t.work.tlist| < t.work.hdr.ntxn then t.(pc := RxTxnRec) else WorkReceived(t)
  }

  predicate SameOrder(s: Slave) { s.work.hdr.endian == UPERF_ENDIAN_VALUE }

  function TakeGroup(s: Slave, hdr: GroupHdr): Slave {
    var t := s.(work := Group(hdr, []));
    if t.work.hdr.ntxn > 0 then t.(pc := RxTxnRec) else WorkReceived(t)
  }

  function TakeTxn(s: Slave, hdr: TxnHdr): Slave {
    var t := s.(txn := Txn(hdr, []));
    if t.txn.hdr.nflowop > 0 then t.(pc := RxFlowopRec) else TxnReceived(t)
  }

  function TakeFlowop(s: Slave, f: Flowop): Slave {
    var t := s.(txn := s.txn.(flist := s.txn.flist + [f]));
    if |t.txn.flist| < t.txn.hdr.nflowop then t.(pc := RxFlowopRec) else TxnReceived(t)
  }

  /** A buffer as the struct it is read into, corrected where the reader corrects it at once. */
  datatype Heard = Heading(header: Header) | Grouping(hdr: GroupHdr) | Transaction(t: TxnHdr) | Operation(f: Flowop)
                 | Table(infos: seq<Info>) | Other(buf: seq<byte>)

  function HeardGroup(e: Endian, buf: seq<byte>): GroupHdr {
    var raw := ToGroupHdr(DecFields(e, GROUP_SHAPE, buf));
    raw.(ntxn := Seen(raw.endian == UPERF_ENDIAN_VALUE, 4, raw.ntxn))
  }

  function HeardTxn(e: Endian, same: bool, buf: seq<byte>): TxnHdr {
    var raw := ToTxnHdr(DecFields(e, TXN_SHAPE, buf));
    raw.(nflowop := Seen(same, 4, raw.nflowop))
  }

  function HeardFlowop(e: Endian, same: bool, peer: seq<byte>, buf: seq<byte>): Flowop {
    RxFlowop(same, peer, ToFlowop(DecFields(e, FLOWOP_SHAPE, buf)))
  }

  function SlaveHears(c: Session, s: Slave, buf: seq<byte>): Heard {
    match s.pc
    case RxHeader => Heading(DecHeader(c.to, buf))
    case RxGroupRec => Grouping(HeardGroup(c.to, buf))
    case RxTxnRec => Transaction(HeardTxn(c.to, SameOrder(s), buf))
    case RxFlowopRec => Operation(HeardFlowop(c.to, SameOrder(s), c.peer, buf))
    case RxMasterTable => Table(SeenTable(!s.bitswap, DecTable(c.to, s.rxNo, buf)))
    case _ => Other(buf)
  }

  function SlaveReacts(c: Session, s: Slave, h: Heard): Slave {
    match h
    case Heading(header) => TakeHeader(c, s, header)
    case Grouping(hdr) => TakeGroup(s, hdr)
    case Transaction(t) => TakeTxn(s, t)
    case Operation(f) => TakeFlowop(s, f)
    case Table(infos) => s.(pc := TxWorkAck, learned := infos)
    case Other(buf) =>
      match s.pc
      case TxAck(_) => s.(pc := RxHeader)
      case TxWorkAck => s.(pc := if TxNo(s) > 0 then TxSlaveTable else RxEndAck)
      case TxSlaveTable => s.(pc := RxEndAck)
      case RxEndAck => s.(pc := TxEndAck(buf))
      case TxEndAck(_) => s.(pc := SlaveDone)
      case _ => s
  }

  /** After the call has moved all its bytes; `buf` is what was read. */
  function SlaveNext(c: Session, s: Slave, buf: seq<byte>): Slave { SlaveReacts(c, s, SlaveHears(c, s, buf)) }

  // ---- The conversation: which message comes when, and who speaks ----

  datatype Pos = AtHello | AtHelloAck | AtHeader | AtGroup | AtTxn(i: nat) | AtFlowop(i: nat, j: nat) | AtMasterTable
               | AtWorkAck | AtSlaveTable | AtEnd | AtEndAck | AtOver
  {
    predicate MasterSpeaks() {
      AtHello? || AtHeader? || AtGroup? || AtTxn? || AtFlowop? || AtMasterTable? || AtEnd?
    }
    predicate SlaveSpeaks() { AtHelloAck? || AtWorkAck? || AtSlaveTable? || AtEndAck? }
  }

  ghost predicate Placed(c: Session, p: Pos) {
    match p
    case AtTxn(i) => i < |c.sent.tlist|
    case AtFlowop(i, j) => i < |c.sent.tlist| && j < |c.sent.tlist[i].flist|
    case AtMasterTable => HasAccept(c.group)
    case AtSlaveTable => HasAccept(c.sent)
    case _ => true
  }

  function PosTxn(c: Session, i: nat): Pos {
    if i < |c.sent.tlist| then AtTxn(i) else if HasAccept(c.group) then AtMasterTable else AtWorkAck
  }

  function PosFlowop(c: Session, i: nat, j: nat): Pos {
    if i < |c.sent.tlist| && j < |c.sent.tlist[i].flist| then AtFlowop(i, j) else PosTxn(c, i + 1)
  }

  function Succ(c: Session, p: Pos): Pos {
    match p
    case AtHello => AtHelloAck
    case AtHelloAck => AtHeader
    case AtHeader => AtGroup
    case AtGroup => PosTxn(c, 0)
    case AtTxn(i) => PosFlowop(c, i, 0)
    case AtFlowop(i, j) => PosFlowop(c, i, j + 1)
    case AtMasterTable => AtWorkAck
    case AtWorkAck => if HasAccept(c.sent) then AtSlaveTable else AtEnd
    case AtSlaveTable => AtEnd
    case AtEnd => AtEndAck
    case AtEndAck => AtOver
    case AtOver => AtOver
  }

  /** The acknowledgement of phase 2 and the slave's ports, in the master's byte order. */
  function WorkAckBytes(c: Session): seq<byte> {
    EncWorkAck(c.to, WorkAck(Ack(UPERF_OK, c.note), Seen(c.Same(), 4, c.SlaveNo())))
  }

  function SlaveTableBytes(c: Session): seq<byte> { EncTable(c.to, SeenTable(c.Same(), c.slaveTable)) }

  /** What is said at a position: kind, direction and contents. */
  function Message(c: Session, p: Pos): seq<byte>
  {
    match p
    case AtHello => c.wire.hello
    case AtHelloAck => c.wire.okAck
    case AtHeader => c.wire.header
    case AtGroup => c.wire.group
    case AtTxn(i) => if i < |c.wire.txns| then c.wire.txns[i] else []
    case AtFlowop(i, j) => if i < |c.wire.flowops| && j < |c.wire.flowops[i]| then c.wire.flowops[i][j] else []
    case AtMasterTable => c.wire.masterTable
    case AtWorkAck => WorkAckBytes(c)
    case AtSlaveTable => SlaveTableBytes(c)
    case AtEnd => c.wire.end
    case AtEndAck => c.wire.end
    case AtOver => []
  }

  /** Where the master is, and what it knows, when the conversation has reached `p`. */
  function MasterAt(c: Session, p: Pos): Master {
    match p
    case AtHello => Master(TxHello, [])
    case AtHelloAck => Master(RxHelloAck, [])
    case AtHeader => Master(TxHeader, [])
    case AtGroup => Master(TxGroup, [])
    case AtTxn(i) => Master(TxTxn(i), [])
    case AtFlowop(i, j) => Master(TxFlowop(i, j), [])
    case AtMasterTable => Master(TxMasterTable, [])
    case AtWorkAck => Master(RxWorkAck, [])
    case AtSlaveTable => Master(RxSlaveTable(c.SlaveNo()), [])
    case AtEnd => Master(TxEnd, c.slaveTable)
    case AtEndAck => Master(RxEnd, c.slaveTable)
    case AtOver => Master(MasterDone, c.slaveTable)
  }

  /** The lists after `i` whole transactions have been read. */
  function WorkUpTo(c: Session, i: nat): Group {
    if i <= |c.received.tlist| then c.received.(tlist := c.received.tlist[..i]) else NoGroup
  }

  function TxnUpTo(c: Session, i: nat, j: nat): Txn {
    if i < |c.received.tlist| && j <= |c.received.tlist[i].flist|
    then c.received.tlist[i].(flist := c.received.tlist[i].flist[..j])
    else NoTxn
  }

  function SlaveAt(c: Session, p: Pos): Slave
  {
    var s := Slave(RxHeader, false, !c.Same(), 0, NoGroup, NoTxn, []);
    var t := s.(rxNo := c.MasterNo());
    var u := t.(work := c.arrived, learned := c.masterTable);
    match p
    case AtHello => InitSlave()
    case AtHelloAck => s.(pc := TxAck(true))
    case AtHeader => s
    case AtGroup => t.(pc := RxGroupRec)
    case AtTxn(i) => t.(pc := RxTxnRec, work := WorkUpTo(c, i))
    case AtFlowop(i, j) => t.(pc := RxFlowopRec, work := WorkUpTo(c, i), txn := TxnUpTo(c, i, j))
    case AtMasterTable => t.(pc := RxMasterTable, work := c.arrived)
    case AtWorkAck => u.(pc := TxWorkAck)
    case AtSlaveTable => u.(pc := TxSlaveTable)
    case AtEnd => u.(pc := RxEndAck)
    case AtEndAck => u.(pc := TxEndAck(c.wire.end))
    case AtOver => u.(pc := SlaveDone)
  }
}
