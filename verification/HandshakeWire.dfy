/** The records of the handshake other than the workorder: the header of both phases, the two
    acknowledgements and the port table (src/handshake.h, src/strand.h). */
module HandshakeWire {
  import opened ByteOrder
  import opened Workorder
  import opened WorkorderWire

  const NUM_PROTOCOLS: nat := 8
  const HANDSHAKE_PHASE_1: nat := 1
  const HANDSHAKE_PHASE_2: nat := 2
  const UPERF_OK: seq<byte> := [79, 75]
  const UPERF_NOT_OK: seq<byte> := [78, 111, 116, 32, 79, 75]

  datatype Header = Header(magic: seq<byte>, endian: nat, phase: nat, noInfo: nat, padding: nat, protocols: seq<nat>,
                           version: seq<byte>, host: seq<byte>)
  datatype Ack = Ack(status: seq<byte>, message: seq<byte>)
  datatype WorkAck = WorkAck(ack: Ack, noInfo: nat)
  /** slave_info_t: for one strand, the port it listens on for each protocol. */
  datatype Info = Info(host: seq<byte>, ports: seq<nat>)

  function Words(vs: seq<nat>): (r: seq<Field>)
    ensures |r| == |vs|
    ensures forall i :: 0 <= i < |vs| ==> r[i] == Num(4, vs[i])
  {
    seq(|vs|, i requires 0 <= i < |vs| => Num(4, vs[i]))
  }

  function Values(fs: seq<Field>): (r: seq<nat>)
    ensures |r| == |fs|
    ensures forall i :: 0 <= i < |fs| ==> r[i] == N(fs[i])
  {
    seq(|fs|, i requires 0 <= i < |fs| => N(fs[i]))
  }

  function SeenAll(same: bool, vs: seq<nat>): (r: seq<nat>)
    ensures |r| == |vs|
    ensures forall i :: 0 <= i < |vs| ==> r[i] == Seen(same, 4, vs[i])
  {
    seq(|vs|, i requires 0 <= i < |vs| => Seen(same, 4, vs[i]))
  }

  function HeaderFields(h: Header): seq<Field> {
    [Text(32, h.magic), Num(4, h.endian), Num(4, h.phase), Num(4, h.noInfo), Num(4, h.padding)] + Words(h.protocols) +
    [Text(16, h.version), Text(MAXHOSTNAME, h.host)]
  }

  function AckFields(a: Ack): seq<Field> { [Text(64, a.status), Text(128, a.message)] }
  function WorkAckFields(a: WorkAck): seq<Field> { AckFields(a.ack) + [Num(4, a.noInfo)] }
  function InfoFields(i: Info): seq<Field> { [Text(MAXHOSTNAME, i.host)] + Words(i.ports) }

  const HEADER_SHAPE: seq<Slot> := [TextSlot(32)] + Nums(4, 12) + [TextSlot(16)] + [TextSlot(MAXHOSTNAME)]
  const ACK_SHAPE: seq<Slot> := [TextSlot(64)] + [TextSlot(128)]
  const WORK_ACK_SHAPE: seq<Slot> := ACK_SHAPE + Nums(4, 1)
  const INFO_SHAPE: seq<Slot> := [TextSlot(MAXHOSTNAME)] + Nums(4, 8)

  const SIZEOF_HEADER: nat := 352
  const SIZEOF_ACK: nat := 192
  const SIZEOF_WORK_ACK: nat := 196
  const SIZEOF_INFO: nat := 288

  lemma WidthOfText(w: nat)
    ensures Width([TextSlot(w)]) == w
  {
    assert [TextSlot(w)][1..] == [];
  }

  lemma HandshakeSizes()
    ensures Width(HEADER_SHAPE) == SIZEOF_HEADER
    ensures Width(ACK_SHAPE) == SIZEOF_ACK && Width(WORK_ACK_SHAPE) == SIZEOF_WORK_ACK
    ensures Width(INFO_SHAPE) == SIZEOF_INFO
  {
    WidthOfText(16);
    WidthOfText(32);
    WidthOfText(64);
    WidthOfText(128);
    WidthOfText(MAXHOSTNAME);
    WidthOfNums(4, 12);
    WidthOfNums(4, 1);
    WidthOfNums(4, 8);
    WidthConcat([TextSlot(32)] + Nums(4, 12) + [TextSlot(16)], [TextSlot(MAXHOSTNAME)]);
    WidthConcat([TextSlot(32)] + Nums(4, 12), [TextSlot(16)]);
    WidthConcat([TextSlot(32)], Nums(4, 12));
    WidthConcat([TextSlot(64)], [TextSlot(128)]);
    WidthConcat(ACK_SHAPE, Nums(4, 1));
    WidthConcat([TextSlot(MAXHOSTNAME)], Nums(4, 8));
  }

  ghost predicate HeaderFits(h: Header) { |h.protocols| == NUM_PROTOCOLS && Fits(HeaderFields(h)) }
  ghost predicate AckFits(a: Ack) { Fits(AckFields(a)) }
  ghost predicate InfoFits(i: Info) { |i.ports| == NUM_PROTOCOLS && Fits(InfoFields(i)) }

  function ToHeader(f: seq<Field>): Header
    requires |f| == 15
  {
    Header(S(f[0]), N(f[1]), N(f[2]), N(f[3]), N(f[4]), Values(f[5..13]), S(f[13]), S(f[14]))
  }

  function ToAck(f: seq<Field>): Ack
    requires |f| >= 2
  {
    Ack(S(f[0]), S(f[1]))
  }

  function ToWorkAck(f: seq<Field>): WorkAck
    requires |f| == 3
  {
    WorkAck(ToAck(f), N(f[2]))
  }

  function ToInfo(f: seq<Field>): Info
    requires |f| == 9
  {
    Info(S(f[0]), Values(f[1..]))
  }

  function EncHeader(e: Endian, h: Header): seq<byte> { EncFields(e, HeaderFields(h)) }
  function EncAck(e: Endian, a: Ack): seq<byte> { EncFields(e, AckFields(a)) }
  function EncWorkAck(e: Endian, a: WorkAck): seq<byte> { EncFields(e, WorkAckFields(a)) }
  function EncInfo(e: Endian, i: Info): seq<byte> { EncFields(e, InfoFields(i)) }
  function EncTable(e: Endian, t: seq<Info>): seq<byte> { EncList(i => EncInfo(e, i), t) }

  function DecHeader(e: Endian, d: seq<byte>): Header { ToHeader(DecFields(e, HEADER_SHAPE, d)) }
  function DecAck(e: Endian, d: seq<byte>): Ack { ToAck(DecFields(e, ACK_SHAPE, d)) }
  function DecWorkAck(e: Endian, d: seq<byte>): WorkAck { ToWorkAck(DecFields(e, WORK_ACK_SHAPE, d)) }

  function ReadInfo(e: Endian, d: seq<byte>): Parsed<Info> {
    match ReadRecord(e, INFO_SHAPE, SIZEOF_INFO, d)
    case Short => Short
    case Parsed(fs, rest) => Parsed(ToInfo(fs), rest)
  }

  /** The port table in a buffer: `n` entries. */
  function DecTable(e: Endian, n: nat, d: seq<byte>): seq<Info> {
    match ParseList(b => ReadInfo(e, b), n, d, [])
    case Short => []
    case Parsed(t, _) => t
  }

  function SeenHeader(same: bool, h: Header): Header {
    Header(h.magic, Seen(same, 4, h.endian), Seen(same, 4, h.phase), Seen(same, 4, h.noInfo), Seen(same, 4, h.padding),
           SeenAll(same, h.protocols), h.version, h.host)
  }

  function SeenInfo(same: bool, i: Info): Info { i.(ports := SeenAll(same, i.ports)) }

  /** A whole record off the wire. */
  lemma WholeRecord(from: Endian, to: Endian, fs: seq<Field>, shape: seq<Slot>)
    requires Fits(fs) && Shape(fs) == shape
    ensures |EncFields(from, fs)| == Width(shape)
    ensures DecFields(to, shape, EncFields(from, fs)) == SeenFields(from == to, fs)
  {
    DecFieldsOfEnc(from, to, fs);
  }

  lemma SeenHeaderFields(same: bool, h: Header)
    requires |h.protocols| == NUM_PROTOCOLS
    ensures ToHeader(SeenFields(same, HeaderFields(h))) == SeenHeader(same, h)
  {
    var fs := SeenFields(same, HeaderFields(h));
    assert forall i :: 0 <= i < 8 ==> HeaderFields(h)[5 + i] == Num(4, h.protocols[i]);
    assert Values(fs[5..13]) == SeenAll(same, h.protocols);
  }

  lemma HeaderReads(from: Endian, to: Endian, h: Header)
    requires HeaderFits(h)
    ensures |EncHeader(from, h)| == SIZEOF_HEADER
    ensures DecHeader(to, EncHeader(from, h)) == SeenHeader(from == to, h)
  {
    HandshakeSizes();
    assert Shape(HeaderFields(h)) == HEADER_SHAPE;
    WholeRecord(from, to, HeaderFields(h), HEADER_SHAPE);
    SeenHeaderFields(from == to, h);
  }

  lemma AckReads(from: Endian, to: Endian, a: Ack)
    requires AckFits(a)
    ensures |EncAck(from, a)| == SIZEOF_ACK
    ensures DecAck(to, EncAck(from, a)) == a
  {
    HandshakeSizes();
    assert Shape(AckFields(a)) == ACK_SHAPE;
    WholeRecord(from, to, AckFields(a), ACK_SHAPE);
  }

  lemma WorkAckReads(from: Endian, to: Endian, a: WorkAck)
    requires AckFits(a.ack) && a.noInfo < Pow256(4)
    ensures |EncWorkAck(from, a)| == SIZEOF_WORK_ACK
    ensures DecWorkAck(to, EncWorkAck(from, a)) == a.(noInfo := Seen(from == to, 4, a.noInfo))
  {
    HandshakeSizes();
    var fs := WorkAckFields(a);
    assert forall i :: 0 <= i < 2 ==> fs[i] == AckFields(a.ack)[i];
    assert forall i :: 0 <= i < |fs| ==> FieldFits(fs[i]);
    assert Shape(fs) == WORK_ACK_SHAPE;
    WholeRecord(from, to, fs, WORK_ACK_SHAPE);
  }

  lemma InfoReads(from: Endian, to: Endian, i: Info)
    requires InfoFits(i)
    ensures |EncInfo(from, i)| == SIZEOF_INFO
    ensures Reads(d => ReadInfo(to, d), i => EncInfo(from, i), i => SeenInfo(from == to, i), i)
  {
    HandshakeSizes();
    var fs := InfoFields(i);
    assert Shape(fs) == INFO_SHAPE;
    WholeRecord(from, to, fs, INFO_SHAPE);
    var seen := SeenFields(from == to, fs);
    assert forall k :: 0 <= k < 8 ==> fs[1 + k] == Num(4, i.ports[k]);
    assert Values(seen[1..]) == SeenAll(from == to, i.ports);
    forall rest
      ensures ReadInfo(to, EncInfo(from, i) + rest) == Parsed(SeenInfo(from == to, i), rest)
    {
      RecordRoundTrip(from, to, fs, rest);
    }
  }

  function SeenTable(same: bool, t: seq<Info>): seq<Info> { Map(i => SeenInfo(same, i), t) }

  lemma {:induction false} TableWidth(e: Endian, t: seq<Info>)
    requires forall i :: 0 <= i < |t| ==> InfoFits(t[i])
    ensures |EncTable(e, t)| == |t| * SIZEOF_INFO
  {
    if t != [] {
      InfoReads(e, e, t[0]);
      TableWidth(e, t[1..]);
    }
  }

  lemma TableReads(from: Endian, to: Endian, t: seq<Info>)
    requires forall i :: 0 <= i < |t| ==> InfoFits(t[i])
    ensures |EncTable(from, t)| == |t| * SIZEOF_INFO
    ensures DecTable(to, |t|, EncTable(from, t)) == SeenTable(from == to, t)
  {
    TableWidth(from, t);
    forall i | 0 <= i < |t|
      ensures Reads(d => ReadInfo(to, d), i => EncInfo(from, i), i => SeenInfo(from == to, i), t[i])
    {
      InfoReads(from, to, t[i]);
    }
    ParseWholeList(d => ReadInfo(to, d), i => EncInfo(from, i), i => SeenInfo(from == to, i), t, []);
    assert EncTable(from, t) + [] == EncTable(from, t);
  }
}
