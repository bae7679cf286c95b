/** The workorder on the wire: the packed prefixes of group_t, txn_t and flowop_t one after the
    other, and the workorder a slave of either byte order rebuilds from them
    (src/handshake.c, src/workorder.c, src/workorder.h). */
module WorkorderWire {
  import opened ByteOrder
  import opened Workorder

  const MAXHOSTNAME: nat := 256

  // ---- Records as fields, in declaration order ----

  function IoFields(o: IoOptions): seq<Field> {
    [Num(4, o.size), Num(4, o.randSzMin), Num(4, o.randSzMax), Num(4, o.rsize), Num(4, o.protocol), Num(4, o.port),
     Num(4, o.flag), Num(4, o.nfiles), Num(8, o.duration), Num(8, o.wndsz), Num(8, o.count), Num(8, o.repeat),
     Num(8, o.batchSize), Num(8, o.pollTimeout)]
  }

  function SctpFields(o: SctpOptions): seq<Field> {
    [Num(4, o.encapsPort), Num(4, o.bblog), Num(4, o.rtoMin), Num(4, o.rtoMax), Num(4, o.rtoInitial),
     Num(4, o.sackDelay), Num(4, o.sackFrequency), Num(4, o.maxBurstSize), Num(4, o.maxFragmentSize),
     Num(4, o.hbInterval), Num(4, o.pathMtu), Num(2, o.outStreams), Num(2, o.inStreams), Num(2, o.streamId),
     Num(2, o.padding), Num(4, o.prValue)]
  }

  function TextFields(o: TextOptions): seq<Field> {
    [Text(8, o.prPolicy), Text(32, o.cc), Text(32, o.stack), Text(128, o.dir), Text(MAXHOSTNAME, o.remotehost),
     Text(MAXHOSTNAME, o.localhost), Text(20, o.engine), Text(50, o.cipher), Text(5, o.sslMethod), Text(5, o.padding)]
  }

  function TailFields(f: Flowop): seq<Field> {
    [Num(4, f.kind), Num(4, f.pId), Num(4, f.statid), Num(4, f.errors)]
  }

  function FlowopFields(f: Flowop): seq<Field> {
    IoFields(f.io) + SctpFields(f.sctp) + TextFields(f.text) + TailFields(f)
  }

  function TxnFields(h: TxnHdr): seq<Field> {
    [Num(4, h.nflowop), Num(4, h.txnid), Num(4, h.statid), Num(4, h.unused), Num(4, h.rateCount), Num(4, h.dummy),
     Num(8, h.iter), Num(8, h.duration), Text(128, h.rateStr)]
  }

  function GroupFields(h: GroupHdr): seq<Field> {
    [Num(4, h.endian), Num(4, h.strandFlag), Num(4, h.nthreads), Num(4, h.ntxn), Num(4, h.maxAsync), Num(4, h.groupid)]
  }

  const IO_SHAPE: seq<Slot> := Nums(4, 8) + Nums(8, 6)
  const SCTP_SHAPE: seq<Slot> := Nums(4, 11) + Nums(2, 4) + Nums(4, 1)
  const TEXT_SHAPE: seq<Slot> := [TextSlot(8), TextSlot(32), TextSlot(32), TextSlot(128), TextSlot(MAXHOSTNAME),
                                  TextSlot(MAXHOSTNAME), TextSlot(20), TextSlot(50), TextSlot(5), TextSlot(5)]
  const FLOWOP_SHAPE: seq<Slot> := IO_SHAPE + SCTP_SHAPE + TEXT_SHAPE + Nums(4, 4)
  const TXN_SHAPE: seq<Slot> := Nums(4, 6) + Nums(8, 2) + [TextSlot(128)]
  const GROUP_SHAPE: seq<Slot> := Nums(4, 6)

  const SIZEOF_GROUP_T: nat := 24
  const SIZEOF_TXN_T: nat := 168
  const SIZEOF_FLOWOP_T: nat := 944

  function Nums(w: nat, n: nat): (s: seq<Slot>)
    ensures |s| == n && forall i :: 0 <= i < n ==> s[i] == NumSlot(w)
  {
    seq(n, _ => NumSlot(w))
  }

  lemma {:induction false} WidthConcat(a: seq<Slot>, b: seq<Slot>)
    ensures Width(a + b) == Width(a) + Width(b)
  {
    if a == [] {
      assert a + b == b;
    } else {
      assert (a + b)[1..] == a[1..] + b;
      WidthConcat(a[1..], b);
    }
  }

  lemma {:induction false} WidthOfNums(w: nat, n: nat)
    ensures Width(Nums(w, n)) == w * n
  {
    if n > 0 {
      assert Nums(w, n)[1..] == Nums(w, n - 1);
      WidthOfNums(w, n - 1);
      assert w * n == w + w * (n - 1);
    }
  }

  lemma WidthOfFive(a: Slot, b: Slot, c: Slot, d: Slot, e: Slot)
    ensures Width([a, b, c, d, e]) == a.width + b.width + c.width + d.width + e.width
  {
    WidthConcat([a, b, c, d], [e]);
    WidthConcat([a, b, c], [d]);
    WidthConcat([a, b], [c]);
    WidthConcat([a], [b]);
    assert [a, b, c, d, e] == [a, b, c, d] + [e] && [a, b, c, d] == [a, b, c] + [d];
    assert [a, b, c] == [a, b] + [c] && [a, b] == [a] + [b];
  }

  lemma TextWidths()
    ensures Width(TEXT_SHAPE) == 792 && Width([TextSlot(128)]) == 128
  {
    var a := [TextSlot(8), TextSlot(32), TextSlot(32), TextSlot(128), TextSlot(MAXHOSTNAME)];
    var b := [TextSlot(MAXHOSTNAME), TextSlot(20), TextSlot(50), TextSlot(5), TextSlot(5)];
    WidthOfFive(a[0], a[1], a[2], a[3], a[4]);
    WidthOfFive(b[0], b[1], b[2], b[3], b[4]);
    assert TEXT_SHAPE == a + b;
    WidthConcat(a, b);
  }

  /** The records have the sizes offsetof gives them. */
  lemma RecordSizes()
    ensures Width(GROUP_SHAPE) == SIZEOF_GROUP_T
    ensures Width(TXN_SHAPE) == SIZEOF_TXN_T
    ensures Width(FLOWOP_SHAPE) == SIZEOF_FLOWOP_T
  {
    TextWidths();
    WidthOfNums(4, 6);
    WidthOfNums(8, 2);
    WidthConcat(Nums(4, 6) + Nums(8, 2), [TextSlot(128)]);
    WidthConcat(Nums(4, 6), Nums(8, 2));
    WidthOfNums(4, 8);
    WidthOfNums(8, 6);
    WidthConcat(Nums(4, 8), Nums(8, 6));
    WidthOfNums(4, 11);
    WidthOfNums(2, 4);
    WidthOfNums(4, 1);
    WidthConcat(Nums(4, 11) + Nums(2, 4), Nums(4, 1));
    WidthConcat(Nums(4, 11), Nums(2, 4));
    WidthOfNums(4, 4);
    WidthConcat(IO_SHAPE + SCTP_SHAPE + TEXT_SHAPE, Nums(4, 4));
    WidthConcat(IO_SHAPE + SCTP_SHAPE, TEXT_SHAPE);
    WidthConcat(IO_SHAPE, SCTP_SHAPE);
  }

  // ---- Reading the fields back into records ----

  function N(f: Field): nat { if f.Num? then f.value else 0 }
  function S(f: Field): seq<byte> { if f.Text? then f.str else [] }

  function ToIo(f: seq<Field>): IoOptions
    requires |f| == 14
  {
    IoOptions(N(f[0]), N(f[1]), N(f[2]), N(f[3]), N(f[4]), N(f[5]), N(f[6]), N(f[7]), N(f[8]), N(f[9]), N(f[10]),
              N(f[11]), N(f[12]), N(f[13]))
  }

  function ToSctp(f: seq<Field>): SctpOptions
    requires |f| == 16
  {
    SctpOptions(N(f[0]), N(f[1]), N(f[2]), N(f[3]), N(f[4]), N(f[5]), N(f[6]), N(f[7]), N(f[8]), N(f[9]), N(f[10]),
                N(f[11]), N(f[12]), N(f[13]), N(f[14]), N(f[15]))
  }

  function ToText(f: seq<Field>): TextOptions
    requires |f| == 10
  {
    TextOptions(S(f[0]), S(f[1]), S(f[2]), S(f[3]), S(f[4]), S(f[5]), S(f[6]), S(f[7]), S(f[8]), S(f[9]))
  }

  function ToFlowop(f: seq<Field>): Flowop
    requires |f| == 44
  {
    Flowop(ToIo(f[..14]), ToSctp(f[14..30]), ToText(f[30..40]), N(f[40]), N(f[41]), N(f[42]), N(f[43]))
  }

  function ToTxnHdr(f: seq<Field>): TxnHdr
    requires |f| == 9
  {
    TxnHdr(N(f[0]), N(f[1]), N(f[2]), N(f[3]), N(f[4]), N(f[5]), N(f[6]), N(f[7]), S(f[8]))
  }

  function ToGroupHdr(f: seq<Field>): GroupHdr
    requires |f| == 6
  {
    GroupHdr(N(f[0]), N(f[1]), N(f[2]), N(f[3]), N(f[4]), N(f[5]))
  }

  // ---- What the receiver has in memory before swapping ----

  function SwapIo(same: bool, o: IoOptions): IoOptions { ToIo(SeenFields(same, IoFields(o))) }

  function SwapSctp(same: bool, o: SctpOptions): SctpOptions { ToSctp(SeenFields(same, SctpFields(o))) }

  function SeenFlowop(same: bool, f: Flowop): Flowop { ToFlowop(SeenFields(same, FlowopFields(f))) }

  function SeenTxnHdr(same: bool, h: TxnHdr): TxnHdr { ToTxnHdr(SeenFields(same, TxnFields(h))) }

  function SeenGroupHdr(same: bool, h: GroupHdr): GroupHdr { ToGroupHdr(SeenFields(same, GroupFields(h))) }

  lemma SeenConcat(same: bool, a: seq<Field>, b: seq<Field>)
    ensures SeenFields(same, a + b) == SeenFields(same, a) + SeenFields(same, b)
  {
  }

  lemma SeenText(same: bool, t: TextOptions)
    ensures ToText(SeenFields(same, TextFields(t))) == t
  {
    assert SeenFields(same, TextFields(t)) == TextFields(t);
  }

  lemma ToFlowopOfParts(io: seq<Field>, sctp: seq<Field>, text: seq<Field>, tail: seq<Field>)
    requires |io| == 14 && |sctp| == 16 && |text| == 10 && |tail| == 4
    ensures ToFlowop(io + sctp + text + tail)
         == Flowop(ToIo(io), ToSctp(sctp), ToText(text), N(tail[0]), N(tail[1]), N(tail[2]), N(tail[3]))
  {
    var fs := io + sctp + text + tail;
    assert fs[..14] == io && fs[14..30] == sctp && fs[30..40] == text;
  }

  lemma SeenFlowopParts(same: bool, f: Flowop)
    ensures SeenFlowop(same, f) == Flowop(SwapIo(same, f.io), SwapSctp(same, f.sctp), f.text,
              Seen(same, 4, f.kind), Seen(same, 4, f.pId), Seen(same, 4, f.statid), Seen(same, 4, f.errors))
  {
    var io, sctp, text, tail := IoFields(f.io), SctpFields(f.sctp), TextFields(f.text), TailFields(f);
    SeenConcat(same, io + sctp + text, tail);
    SeenConcat(same, io + sctp, text);
    SeenConcat(same, io, sctp);
    ToFlowopOfParts(SeenFields(same, io), SeenFields(same, sctp), SeenFields(same, text), SeenFields(same, tail));
    SeenText(same, f.text);
  }

  lemma FlowopShape(f: Flowop)
    ensures Shape(FlowopFields(f)) == FLOWOP_SHAPE
  {
    assert Shape(IoFields(f.io)) == IO_SHAPE;
    assert Shape(SctpFields(f.sctp)) == SCTP_SHAPE;
    assert Shape(TextFields(f.text)) == TEXT_SHAPE;
    assert Shape(TailFields(f)) == Nums(4, 4);
    assert Shape(FlowopFields(f))
        == Shape(IoFields(f.io)) + Shape(SctpFields(f.sctp)) + Shape(TextFields(f.text)) + Shape(TailFields(f));
  }

  lemma TxnShape(h: TxnHdr)
    ensures Shape(TxnFields(h)) == TXN_SHAPE
  {
  }

  lemma GroupShape(h: GroupHdr)
    ensures Shape(GroupFields(h)) == GROUP_SHAPE
  {
  }

  // ---- The stream ----

  datatype Parsed<T> = Short | Parsed(value: T, rest: seq<byte>)

  function EncList<T>(enc: T -> seq<byte>, xs: seq<T>): seq<byte> {
    if xs == [] then [] else enc(xs[0]) + EncList(enc, xs[1..])
  }

  /** `n` elements off the front of the stream, appended to `acc`. */
  function ParseList<T>(read: seq<byte> -> Parsed<T>, n: nat, d: seq<byte>, acc: seq<T>): Parsed<seq<T>> {
    if n == 0 then Parsed(acc, d)
    else
      match read(d)
      case Short => Short
      case Parsed(x, more) => ParseList(read, n - 1, more, acc + [x])
  }

  function Map<T, U>(h: T -> U, xs: seq<T>): (r: seq<U>)
    ensures |r| == |xs|
    ensures forall i :: 0 <= i < |xs| ==> r[i] == h(xs[i])
  {
    seq(|xs|, i requires 0 <= i < |xs| => h(xs[i]))
  }

  /** `read` undoes `enc` on `x`, up to `see`, whatever follows. */
  ghost predicate Reads<T, U>(read: seq<byte> -> Parsed<U>, enc: T -> seq<byte>, see: T -> U, x: T) {
    forall rest :: read(enc(x) + rest) == Parsed(see(x), rest)
  }

  lemma {:induction false} ParseListOfEnc<T, U>(read: seq<byte> -> Parsed<U>, enc: T -> seq<byte>, see: T -> U,
                                                xs: seq<T>, rest: seq<byte>, acc: seq<U>)
    requires forall i :: 0 <= i < |xs| ==> Reads(read, enc, see, xs[i])
    ensures ParseList(read, |xs|, EncList(enc, xs) + rest, acc) == Parsed(acc + Map(see, xs), rest)
  {
    if xs == [] {
      assert EncList(enc, xs) + rest == rest;
      assert acc + Map(see, xs) == acc;
    } else {
      var more := EncList(enc, xs[1..]) + rest;
      assert EncList(enc, xs) + rest == enc(xs[0]) + more;
      assert Reads(read, enc, see, xs[0]);
      ParseListOfEnc(read, enc, see, xs[1..], rest, acc + [see(xs[0])]);
      assert acc + [see(xs[0])] + Map(see, xs[1..]) == acc + Map(see, xs);
    }
  }

  lemma ParseWholeList<T, U>(read: seq<byte> -> Parsed<U>, enc: T -> seq<byte>, see: T -> U, xs: seq<T>,
                             rest: seq<byte>)
    requires forall i :: 0 <= i < |xs| ==> Reads(read, enc, see, xs[i])
    ensures ParseList(read, |xs|, EncList(enc, xs) + rest, []) == Parsed(Map(see, xs), rest)
  {
    ParseListOfEnc(read, enc, see, xs, rest, []);
    assert [] + Map(see, xs) == Map(see, xs);
  }

  function EncFlowop(e: Endian, f: Flowop): seq<byte> { EncFields(e, FlowopFields(f)) }

  function EncTxn(e: Endian, t: Txn): seq<byte> {
    EncFields(e, TxnFields(t.hdr)) + EncList(f => EncFlowop(e, f), t.flist)
  }

  /** First the group, then each transaction followed by its flowops. */
  function EncGroup(e: Endian, g: Group): seq<byte> {
    EncFields(e, GroupFields(g.hdr)) + EncList(t => EncTxn(e, t), g.tlist)
  }

  ghost predicate FlowopFits(f: Flowop) { Fits(FlowopFields(f)) }

  ghost predicate TxnFits(t: Txn) {
    && Fits(TxnFields(t.hdr)) && t.hdr.nflowop == |t.flist|
    && forall j :: 0 <= j < |t.flist| ==> FlowopFits(t.flist[j])
  }

  /** Every number fits its field, text is NUL-free and short enough, counters are lengths. */
  ghost predicate GroupFits(g: Group) {
    && Fits(GroupFields(g.hdr)) && g.hdr.ntxn == |g.tlist| && g.hdr.endian == UPERF_ENDIAN_VALUE
    && forall i :: 0 <= i < |g.tlist| ==> TxnFits(g.tlist[i])
  }

  /** The host names from the slave's point of view: swapped when the master gave its own
      name, otherwise the peer of the control connection. */
  function TurnHosts(peer: seq<byte>, f: Flowop): Flowop {
    f.(text := if f.text.localhost != []
               then f.text.(remotehost := f.text.localhost, localhost := f.text.remotehost)
               else f.text.(remotehost := peer))
  }

  /** One flowop as rx_group_t leaves it: everything as read, except the type. */
  function RxFlowop(same: bool, peer: seq<byte>, f: Flowop): Flowop {
    TurnHosts(peer, f).(kind := Seen(same, 4, f.kind))
  }

  /** One packed record of `size` bytes off the front of the stream, as it lies in memory. */
  function ReadRecord(e: Endian, shape: seq<Slot>, size: nat, d: seq<byte>): (p: Parsed<seq<Field>>)
    ensures p.Parsed? ==> |p.value| == |shape|
  {
    if |d| < size then Short else Parsed(DecFields(e, shape, d[..size]), d[size..])
  }

  function ReadFlowop(e: Endian, same: bool, peer: seq<byte>, d: seq<byte>): Parsed<Flowop> {
    match ReadRecord(e, FLOWOP_SHAPE, SIZEOF_FLOWOP_T, d)
    case Short => Short
    case Parsed(fs, rest) => Parsed(RxFlowop(same, peer, ToFlowop(fs)), rest)
  }

  function ReadTxnHdr(e: Endian, d: seq<byte>): Parsed<TxnHdr> {
    match ReadRecord(e, TXN_SHAPE, SIZEOF_TXN_T, d)
    case Short => Short
    case Parsed(fs, more) => Parsed(ToTxnHdr(fs), more)
  }

  /** One transaction with the flowops its (corrected) counter announces. */
  function ReadTxn(e: Endian, same: bool, peer: seq<byte>, d: seq<byte>): Parsed<Txn> {
    match ReadTxnHdr(e, d)
    case Short => Short
    case Parsed(raw, more) =>
      var hdr := FixNflowop(same, raw);
      match ParseList(b => ReadFlowop(e, same, peer, b), hdr.nflowop, more, [])
      case Short => Short
      case Parsed(flist, rest) => Parsed(Txn(hdr, flist), rest)
  }

  /** The counters the receiver needs at once, in its own byte order. */
  function FixNtxn(same: bool, raw: GroupHdr): GroupHdr { raw.(ntxn := Seen(same, 4, raw.ntxn)) }
  function FixNflowop(same: bool, raw: TxnHdr): TxnHdr { raw.(nflowop := Seen(same, 4, raw.nflowop)) }

  function ReadGroupHdr(e: Endian, d: seq<byte>): Parsed<GroupHdr> {
    match ReadRecord(e, GROUP_SHAPE, SIZEOF_GROUP_T, d)
    case Short => Short
    case Parsed(fs, more) => Parsed(ToGroupHdr(fs), more)
  }

  /** rx_group_t as a function of the bytes on the wire. */
  function ParseGroup(e: Endian, peer: seq<byte>, d: seq<byte>): Parsed<Group> {
    match ReadGroupHdr(e, d)
    case Short => Short
    case Parsed(raw, more) =>
      var same := raw.endian == UPERF_ENDIAN_VALUE;
      var hdr := FixNtxn(same, raw);
      match ParseList(b => ReadTxn(e, same, peer, b), hdr.ntxn, more, [])
      case Short => Short
      case Parsed(ts, rest) => Parsed(Group(hdr, ts), rest)
  }

  /** group_bitswap: every option field but bblog, and of the headers what rx_group_t left. */
  function BitswapFlowop(same: bool, f: Flowop): Flowop {
    f.(io := SwapIo(same, f.io), sctp := SwapSctp(same, f.sctp).(bblog := f.sctp.bblog))
  }

  function BitswapTxnHdr(same: bool, h: TxnHdr): TxnHdr {
    h.(iter := Seen(same, 8, h.iter), txnid := Seen(same, 4, h.txnid),
       duration := Seen(same, 8, h.duration), rateCount := Seen(same, 4, h.rateCount))
  }

  function BitswapTxn(same: bool, t: Txn): Txn {
    Txn(BitswapTxnHdr(same, t.hdr), MapFlowops(t.flist, f => BitswapFlowop(same, f)))
  }

  function BitswapHdr(same: bool, h: GroupHdr): GroupHdr {
    h.(nthreads := Seen(same, 4, h.nthreads), maxAsync := Seen(same, 4, h.maxAsync))
  }

  /** Called with `same` false only; with `same` true it stands for not calling it. */
  function Bitswap(same: bool, g: Group): Group {
    Group(BitswapHdr(same, g.hdr), Map(t => BitswapTxn(same, t), g.tlist))
  }

  // ---- What arrives ----

  /** The flowop the slave works with: host names turned, four fields left in the sender's order. */
  function Arrived(same: bool, peer: seq<byte>, f: Flowop): Flowop {
    TurnHosts(peer, f).(pId := Seen(same, 4, f.pId), statid := Seen(same, 4, f.statid),
                        errors := Seen(same, 4, f.errors),
                        sctp := f.sctp.(bblog := Seen(same, 4, f.sctp.bblog)))
  }

  function ArrivedTxn(same: bool, peer: seq<byte>, t: Txn): Txn {
    Txn(t.hdr.(statid := Seen(same, 4, t.hdr.statid), unused := Seen(same, 4, t.hdr.unused),
               dummy := Seen(same, 4, t.hdr.dummy)),
        MapFlowops(t.flist, f => Arrived(same, peer, f)))
  }

  function ArrivedGroup(same: bool, peer: seq<byte>, g: Group): Group {
    Group(g.hdr.(endian := Seen(same, 4, g.hdr.endian), strandFlag := Seen(same, 4, g.hdr.strandFlag),
                 groupid := Seen(same, 4, g.hdr.groupid)),
          Map(t => ArrivedTxn(same, peer, t), g.tlist))
  }

  lemma RecordRoundTrip(from: Endian, to: Endian, fs: seq<Field>, rest: seq<byte>)
    requires Fits(fs)
    ensures ReadRecord(to, Shape(fs), Width(Shape(fs)), EncFields(from, fs) + rest)
         == Parsed(SeenFields(from == to, fs), rest)
  {
    DecFieldsOfEnc(from, to, fs);
    assert (EncFields(from, fs) + rest)[..Width(Shape(fs))] == EncFields(from, fs);
    assert (EncFields(from, fs) + rest)[Width(Shape(fs))..] == rest;
  }

  lemma SeenTwice(same: bool, w: nat, v: nat)
    requires v < Pow256(w)
    ensures Seen(same, w, Seen(same, w, v)) == v
  {
    SwapTwice(w, v);
  }

  function SeenRxFlowop(same: bool, peer: seq<byte>, f: Flowop): Flowop { RxFlowop(same, peer, SeenFlowop(same, f)) }

  lemma FlowopReads(from: Endian, to: Endian, peer: seq<byte>, f: Flowop)
    requires FlowopFits(f)
    ensures Reads(d => ReadFlowop(to, from == to, peer, d), f => EncFlowop(from, f),
                  f => SeenRxFlowop(from == to, peer, f), f)
  {
    forall rest
      ensures ReadFlowop(to, from == to, peer, EncFlowop(from, f) + rest)
           == Parsed(SeenRxFlowop(from == to, peer, f), rest)
    {
      RecordSizes();
      FlowopShape(f);
      RecordRoundTrip(from, to, FlowopFields(f), rest);
    }
  }

  function RxTxn(same: bool, peer: seq<byte>, t: Txn): Txn {
    Txn(SeenTxnHdr(same, t.hdr).(nflowop := t.hdr.nflowop), Map(f => SeenRxFlowop(same, peer, f), t.flist))
  }

  lemma TxnHdrReads(from: Endian, to: Endian, h: TxnHdr, more: seq<byte>)
    requires Fits(TxnFields(h))
    ensures ReadTxnHdr(to, EncFields(from, TxnFields(h)) + more) == Parsed(SeenTxnHdr(from == to, h), more)
    ensures Seen(from == to, 4, SeenTxnHdr(from == to, h).nflowop) == h.nflowop
  {
    RecordSizes();
    TxnShape(h);
    RecordRoundTrip(from, to, TxnFields(h), more);
    assert FieldFits(TxnFields(h)[0]);
    SeenTwice(from == to, 4, h.nflowop);
  }

  lemma FlowopsRoundTrip(from: Endian, to: Endian, peer: seq<byte>, fs: seq<Flowop>, rest: seq<byte>)
    requires forall j :: 0 <= j < |fs| ==> FlowopFits(fs[j])
    ensures ParseList(b => ReadFlowop(to, from == to, peer, b), |fs|, EncList(f => EncFlowop(from, f), fs) + rest, [])
         == Parsed(Map(f => SeenRxFlowop(from == to, peer, f), fs), rest)
  {
    var same := from == to;
    forall j | 0 <= j < |fs|
      ensures Reads(d => ReadFlowop(to, same, peer, d), f => EncFlowop(from, f), f => SeenRxFlowop(same, peer, f),
                    fs[j])
    {
      FlowopReads(from, to, peer, fs[j]);
    }
    ParseWholeList(d => ReadFlowop(to, same, peer, d), f => EncFlowop(from, f), f => SeenRxFlowop(same, peer, f),
                   fs, rest);
  }

  lemma ReadTxnParts(e: Endian, same: bool, peer: seq<byte>, d: seq<byte>, raw: TxnHdr, more: seq<byte>, n: nat,
                     fs: seq<Flowop>, rest: seq<byte>)
    requires ReadTxnHdr(e, d) == Parsed(raw, more) && n == Seen(same, 4, raw.nflowop)
    requires ParseList(b => ReadFlowop(e, same, peer, b), n, more, []) == Parsed(fs, rest)
    ensures ReadTxn(e, same, peer, d) == Parsed(Txn(raw.(nflowop := n), fs), rest)
  {
  }

  lemma TxnRoundTrip(from: Endian, to: Endian, peer: seq<byte>, t: Txn, rest: seq<byte>)
    requires TxnFits(t)
    ensures ReadTxn(to, from == to, peer, EncTxn(from, t) + rest) == Parsed(RxTxn(from == to, peer, t), rest)
  {
    var same := from == to;
    var more := EncList(f => EncFlowop(from, f), t.flist) + rest;
    assert EncTxn(from, t) + rest == EncFields(from, TxnFields(t.hdr)) + more;
    TxnHdrReads(from, to, t.hdr, more);
    FlowopsRoundTrip(from, to, peer, t.flist, rest);
    ReadTxnParts(to, same, peer, EncTxn(from, t) + rest, SeenTxnHdr(same, t.hdr), more, t.hdr.nflowop,
                 Map(f => SeenRxFlowop(same, peer, f), t.flist), rest);
  }

  lemma TxnReads(from: Endian, to: Endian, peer: seq<byte>, t: Txn)
    requires TxnFits(t)
    ensures Reads(d => ReadTxn(to, from == to, peer, d), t => EncTxn(from, t), t => RxTxn(from == to, peer, t), t)
  {
    forall rest
      ensures ReadTxn(to, from == to, peer, EncTxn(from, t) + rest) == Parsed(RxTxn(from == to, peer, t), rest)
    {
      TxnRoundTrip(from, to, peer, t, rest);
    }
  }

  function RxGroup(same: bool, peer: seq<byte>, g: Group): Group {
    Group(SeenGroupHdr(same, g.hdr).(ntxn := g.hdr.ntxn), Map(t => RxTxn(same, peer, t), g.tlist))
  }

  lemma TxnsReadBack(from: Endian, to: Endian, same: bool, peer: seq<byte>, ts: seq<Txn>, rest: seq<byte>)
    requires same == (from == to) && forall i :: 0 <= i < |ts| ==> TxnFits(ts[i])
    ensures ParseList(b => ReadTxn(to, same, peer, b), |ts|, EncList(t => EncTxn(from, t), ts) + rest, [])
         == Parsed(Map(t => RxTxn(same, peer, t), ts), rest)
  {
    forall i | 0 <= i < |ts|
      ensures Reads(d => ReadTxn(to, same, peer, d), t => EncTxn(from, t), t => RxTxn(same, peer, t), ts[i])
    {
      TxnReads(from, to, peer, ts[i]);
    }
    ParseWholeList(d => ReadTxn(to, same, peer, d), t => EncTxn(from, t), t => RxTxn(same, peer, t), ts, rest);
  }

  /** The group record, its two corrected fields. */
  lemma GroupHdrReads(from: Endian, to: Endian, same: bool, h: GroupHdr, more: seq<byte>)
    requires same == (from == to) && Fits(GroupFields(h)) && h.endian == UPERF_ENDIAN_VALUE
    ensures ReadGroupHdr(to, EncFields(from, GroupFields(h)) + more) == Parsed(SeenGroupHdr(same, h), more)
    ensures SeenGroupHdr(same, h).endian == UPERF_ENDIAN_VALUE <==> same
    ensures Seen(same, 4, SeenGroupHdr(same, h).ntxn) == h.ntxn
  {
    RecordSizes();
    GroupShape(h);
    RecordRoundTrip(from, to, GroupFields(h), more);
    EndianMarkerTells(same);
    assert FieldFits(GroupFields(h)[3]);
    SeenTwice(same, 4, h.ntxn);
  }

  lemma ParseGroupParts(e: Endian, peer: seq<byte>, d: seq<byte>, raw: GroupHdr, more: seq<byte>, same: bool, ntxn: nat,
                        ts: seq<Txn>, rest: seq<byte>)
    requires ReadGroupHdr(e, d) == Parsed(raw, more)
    requires same == (raw.endian == UPERF_ENDIAN_VALUE) && ntxn == Seen(same, 4, raw.ntxn)
    requires ParseList(b => ReadTxn(e, same, peer, b), ntxn, more, []) == Parsed(ts, rest)
    ensures ParseGroup(e, peer, d) == Parsed(Group(raw.(ntxn := ntxn), ts), rest)
  {
  }

  lemma ParseGroupOfRecords(from: Endian, to: Endian, peer: seq<byte>, g: Group, d: seq<byte>, more: seq<byte>,
                            rest: seq<byte>)
    requires GroupFits(g) && more == EncList(t => EncTxn(from, t), g.tlist) + rest
    requires d == EncFields(from, GroupFields(g.hdr)) + more
    ensures ParseGroup(to, peer, d) == Parsed(RxGroup(from == to, peer, g), rest)
  {
    var same := from == to;
    GroupHdrReads(from, to, same, g.hdr, more);
    TxnsReadBack(from, to, same, peer, g.tlist, rest);
    ParseGroupParts(to, peer, d, SeenGroupHdr(same, g.hdr), more, same, g.hdr.ntxn,
                    Map(t => RxTxn(same, peer, t), g.tlist), rest);
  }

  lemma Regroup(a: seq<byte>, b: seq<byte>, c: seq<byte>)
    ensures (a + b) + c == a + (b + c)
  {
  }

  /** rx_group_t consumes exactly what tx_group_t wrote, in either byte order. */
  lemma ParseGroupOfEnc(from: Endian, to: Endian, peer: seq<byte>, g: Group, rest: seq<byte>)
    requires GroupFits(g)
    ensures ParseGroup(to, peer, EncGroup(from, g) + rest) == Parsed(RxGroup(from == to, peer, g), rest)
  {
    Regroup(EncFields(from, GroupFields(g.hdr)), EncList(t => EncTxn(from, t), g.tlist), rest);
    ParseGroupOfRecords(from, to, peer, g, EncGroup(from, g) + rest,
                        EncList(t => EncTxn(from, t), g.tlist) + rest, rest);
  }

  lemma SeenFieldsTwice(same: bool, fs: seq<Field>)
    requires Fits(fs)
    ensures SeenFields(same, SeenFields(same, fs)) == fs
  {
    forall i | 0 <= i < |fs| && fs[i].Num?
      ensures Seen(same, fs[i].width, Seen(same, fs[i].width, fs[i].value)) == fs[i].value
    {
      assert FieldFits(fs[i]);
      SeenTwice(same, fs[i].width, fs[i].value);
    }
  }

  predicate IsNum(f: Field, w: nat) { f.Num? && f.width == w }

  /** Numbers of the widths of the I/O and SCTP options. */
  predicate IoWidths(fs: seq<Field>) {
    && |fs| == 14
    && IsNum(fs[0], 4) && IsNum(fs[1], 4) && IsNum(fs[2], 4) && IsNum(fs[3], 4)
    && IsNum(fs[4], 4) && IsNum(fs[5], 4) && IsNum(fs[6], 4) && IsNum(fs[7], 4)
    && IsNum(fs[8], 8) && IsNum(fs[9], 8) && IsNum(fs[10], 8) && IsNum(fs[11], 8)
    && IsNum(fs[12], 8) && IsNum(fs[13], 8)
  }

  predicate SctpWidths(fs: seq<Field>) {
    && |fs| == 16
    && IsNum(fs[0], 4) && IsNum(fs[1], 4) && IsNum(fs[2], 4) && IsNum(fs[3], 4)
    && IsNum(fs[4], 4) && IsNum(fs[5], 4) && IsNum(fs[6], 4) && IsNum(fs[7], 4)
    && IsNum(fs[8], 4) && IsNum(fs[9], 4) && IsNum(fs[10], 4) && IsNum(fs[11], 2)
    && IsNum(fs[12], 2) && IsNum(fs[13], 2) && IsNum(fs[14], 2) && IsNum(fs[15], 4)
  }

  lemma IoFieldsOf(fs: seq<Field>)
    requires IoWidths(fs)
    ensures IoFields(ToIo(fs)) == fs
  {
  }

  lemma SctpFieldsOf(fs: seq<Field>)
    requires SctpWidths(fs)
    ensures SctpFields(ToSctp(fs)) == fs
  {
  }

  /** The width of a number does not depend on how it is seen. */
  lemma IoSeen(same: bool, fs: seq<Field>)
    requires IoWidths(fs)
    ensures IoWidths(SeenFields(same, fs))
  {
  }

  lemma SctpSeen(same: bool, fs: seq<Field>)
    requires SctpWidths(fs)
    ensures SctpWidths(SeenFields(same, fs))
  {
  }

  lemma IoOf(o: IoOptions)
    ensures IoWidths(IoFields(o)) && ToIo(IoFields(o)) == o
  {
  }

  lemma SctpOf(o: SctpOptions)
    ensures SctpWidths(SctpFields(o)) && ToSctp(SctpFields(o)) == o
  {
  }

  /** Without swapping nothing changes. */
  lemma BitswapSame(f: Flowop)
    ensures BitswapFlowop(true, f) == f
  {
    IoOf(f.io);
    SctpOf(f.sctp);
    assert SeenFields(true, IoFields(f.io)) == IoFields(f.io);
    assert SeenFields(true, SctpFields(f.sctp)) == SctpFields(f.sctp);
  }

  lemma BitswapIoRestores(same: bool, o: IoOptions)
    requires Fits(IoFields(o))
    ensures SwapIo(same, SwapIo(same, o)) == o
  {
    calc {
      SwapIo(same, SwapIo(same, o));
      ToIo(SeenFields(same, IoFields(ToIo(SeenFields(same, IoFields(o))))));
      { IoOf(o); IoSeen(same, IoFields(o)); IoFieldsOf(SeenFields(same, IoFields(o))); }
      ToIo(SeenFields(same, SeenFields(same, IoFields(o))));
      { SeenFieldsTwice(same, IoFields(o)); }
      ToIo(IoFields(o));
      { IoOf(o); }
      o;
    }
  }

  lemma BitswapSctpRestores(same: bool, o: SctpOptions)
    requires Fits(SctpFields(o))
    ensures SwapSctp(same, SwapSctp(same, o)) == o
  {
    calc {
      SwapSctp(same, SwapSctp(same, o));
      ToSctp(SeenFields(same, SctpFields(ToSctp(SeenFields(same, SctpFields(o))))));
      { SctpOf(o); SctpSeen(same, SctpFields(o)); SctpFieldsOf(SeenFields(same, SctpFields(o))); }
      ToSctp(SeenFields(same, SeenFields(same, SctpFields(o))));
      { SeenFieldsTwice(same, SctpFields(o)); }
      ToSctp(SctpFields(o));
      { SctpOf(o); }
      o;
    }
  }

  lemma SwappedBblog(same: bool, o: SctpOptions)
    ensures SwapSctp(same, o).bblog == Seen(same, 4, o.bblog)
  {
    assert SeenFields(same, SctpFields(o))[1] == SeenField(same, SctpFields(o)[1]);
  }

  lemma FlowopFieldsFit(f: Flowop)
    requires FlowopFits(f)
    ensures Fits(IoFields(f.io)) && Fits(SctpFields(f.sctp)) && f.kind < Pow256(4)
  {
    var fs := FlowopFields(f);
    assert fs[..14] == IoFields(f.io);
    assert fs[14..30] == SctpFields(f.sctp);
    assert fs[40] == Num(4, f.kind) && FieldFits(fs[40]);
    assert forall i :: 0 <= i < 14 ==> IoFields(f.io)[i] == fs[i];
    assert forall i :: 0 <= i < 16 ==> SctpFields(f.sctp)[i] == fs[i + 14];
  }

  lemma BitswapFlowopRestores(same: bool, peer: seq<byte>, f: Flowop)
    requires FlowopFits(f)
    ensures BitswapFlowop(same, SeenRxFlowop(same, peer, f)) == Arrived(same, peer, f)
  {
    SeenFlowopParts(same, f);
    FlowopFieldsFit(f);
    BitswapIoRestores(same, f.io);
    BitswapSctpRestores(same, f.sctp);
    SwappedBblog(same, f.sctp);
    SeenTwice(same, 4, f.kind);
  }

  lemma BitswapTxnHdrRestores(same: bool, h: TxnHdr)
    requires Fits(TxnFields(h))
    ensures Seen(same, 4, Seen(same, 4, h.txnid)) == h.txnid
    ensures Seen(same, 4, Seen(same, 4, h.rateCount)) == h.rateCount
    ensures Seen(same, 8, Seen(same, 8, h.iter)) == h.iter
    ensures Seen(same, 8, Seen(same, 8, h.duration)) == h.duration
  {
    var fs := TxnFields(h);
    assert FieldFits(fs[1]) && FieldFits(fs[4]) && FieldFits(fs[6]) && FieldFits(fs[7]);
    SeenTwice(same, 4, h.txnid);
    SeenTwice(same, 4, h.rateCount);
    SeenTwice(same, 8, h.iter);
    SeenTwice(same, 8, h.duration);
  }

  lemma BitswapFlistRestores(same: bool, peer: seq<byte>, fs: seq<Flowop>)
    requires forall j :: 0 <= j < |fs| ==> FlowopFits(fs[j])
    ensures MapFlowops(Map(f => SeenRxFlowop(same, peer, f), fs), f => BitswapFlowop(same, f))
         == MapFlowops(fs, f => Arrived(same, peer, f))
  {
    forall j | 0 <= j < |fs|
      ensures BitswapFlowop(same, SeenRxFlowop(same, peer, fs[j])) == Arrived(same, peer, fs[j])
    {
      BitswapFlowopRestores(same, peer, fs[j]);
    }
  }

  lemma BitswapTxnRestores(same: bool, peer: seq<byte>, t: Txn)
    requires TxnFits(t)
    ensures BitswapTxn(same, RxTxn(same, peer, t)) == ArrivedTxn(same, peer, t)
  {
    BitswapTxnHdrRestores(same, t.hdr);
    BitswapFlistRestores(same, peer, t.flist);
  }

  lemma BitswapTlistRestores(same: bool, peer: seq<byte>, ts: seq<Txn>)
    requires forall i :: 0 <= i < |ts| ==> TxnFits(ts[i])
    ensures Map(t => BitswapTxn(same, t), Map(t => RxTxn(same, peer, t), ts)) == Map(t => ArrivedTxn(same, peer, t), ts)
  {
    forall i | 0 <= i < |ts|
      ensures BitswapTxn(same, RxTxn(same, peer, ts[i])) == ArrivedTxn(same, peer, ts[i])
    {
      BitswapTxnRestores(same, peer, ts[i]);
    }
  }

  lemma BitswapHdrRestores(same: bool, h: GroupHdr)
    requires Fits(GroupFields(h))
    ensures var r := SeenGroupHdr(same, h);
            && Seen(same, 4, r.nthreads) == h.nthreads && Seen(same, 4, r.maxAsync) == h.maxAsync
            && r.endian == Seen(same, 4, h.endian) && r.strandFlag == Seen(same, 4, h.strandFlag) &&
               r.groupid == Seen(same, 4, h.groupid)
  {
    var fs := GroupFields(h);
    assert FieldFits(fs[2]) && FieldFits(fs[4]);
    SeenTwice(same, 4, h.nthreads);
    SeenTwice(same, 4, h.maxAsync);
  }

  lemma BitswapGroupRestores(same: bool, peer: seq<byte>, g: Group)
    requires GroupFits(g)
    ensures Bitswap(same, RxGroup(same, peer, g)) == ArrivedGroup(same, peer, g)
  {
    BitswapHdrRestores(same, g.hdr);
    BitswapTlistRestores(same, peer, g.tlist);
  }

  /** The transfer round trip: for every group, byte order on either side and bytes that follow,
      the slave reads exactly the group, and after group_bitswap its lists have the same order and
      every field the same value, except the host names as turned by TurnHosts and the fields
      that stay in the sender's byte order (endian, strand_flag, groupid, p_id, bblog, errors and
      the unused statistics ids). */
  lemma TransferRoundTrip(from: Endian, to: Endian, peer: seq<byte>, g: Group, rest: seq<byte>)
    requires GroupFits(g)
    ensures var p := ParseGroup(to, peer, EncGroup(from, g) + rest);
            && p.Parsed? && p.rest == rest
            && Bitswap(from == to, p.value) == ArrivedGroup(from == to, peer, g)
  {
    ParseGroupOfEnc(from, to, peer, g, rest);
    BitswapGroupRestores(from == to, peer, g);
  }

  // ---- The rewriting for a slave never makes a number too large for its field ----

  lemma Pow256Of8()
    ensures Pow256(8) == TWO_64 && Pow256(4) == 0x1_0000_0000
  {
    assert Pow256(8) == 256 * Pow256(7) && Pow256(7) == 256 * Pow256(6) && Pow256(6) == 256 * Pow256(5);
    assert Pow256(5) == 256 * Pow256(4);
    Pow256Values();
  }

  lemma RewrittenIoFits(f: Flowop)
    requires Fits(IoFields(f.io))
    ensures Fits(IoFields(Resize(OppositeFlowop(f)).io))
  {
    Pow256Of8();
    var o, r := f.io, Resize(OppositeFlowop(f)).io;
    assert FieldFits(IoFields(o)[0]) && FieldFits(IoFields(o)[3]) && FieldFits(IoFields(o)[10]);
    assert r.size < Pow256(4) && r.count < Pow256(8);
    assert forall i :: 0 <= i < 14 && i != 0 && i != 10 ==> IoFields(r)[i] == IoFields(o)[i];
    forall i | 0 <= i < 14
      ensures FieldFits(IoFields(r)[i])
    {
      assert FieldFits(IoFields(o)[i]);
    }
  }

  lemma RewrittenSctpFits(f: Flowop)
    requires Fits(SctpFields(f.sctp))
    ensures Fits(SctpFields(Resize(OppositeFlowop(f)).sctp))
  {
    var o, r := SctpFields(f.sctp), SctpFields(Resize(OppositeFlowop(f)).sctp);
    assert FieldFits(o[11]) && FieldFits(o[12]);
    assert forall i :: 0 <= i < 16 && i != 11 && i != 12 ==> r[i] == o[i];
    forall i | 0 <= i < 16
      ensures FieldFits(r[i])
    {
      assert FieldFits(o[i]);
    }
  }

  lemma FitsConcat(a: seq<Field>, b: seq<Field>)
    ensures Fits(a + b) <==> Fits(a) && Fits(b)
  {
    if Fits(a + b) {
      assert forall i :: 0 <= i < |a| ==> a[i] == (a + b)[i];
      assert forall i :: 0 <= i < |b| ==> b[i] == (a + b)[|a| + i];
    }
  }

  lemma FlowopPartsFit(f: Flowop)
    ensures FlowopFits(f) <==>
              Fits(IoFields(f.io)) && Fits(SctpFields(f.sctp)) && Fits(TextFields(f.text)) && Fits(TailFields(f))
  {
    FitsConcat(IoFields(f.io) + SctpFields(f.sctp) + TextFields(f.text), TailFields(f));
    FitsConcat(IoFields(f.io) + SctpFields(f.sctp), TextFields(f.text));
    FitsConcat(IoFields(f.io), SctpFields(f.sctp));
  }

  lemma RewrittenFlowopFits(host: seq<byte>, f: Flowop)
    requires FlowopFits(f)
    ensures FlowopFits(NopFor(host, Resize(OppositeFlowop(f))))
  {
    var r := NopFor(host, Resize(OppositeFlowop(f)));
    FlowopPartsFit(f);
    FlowopPartsFit(r);
    RewrittenIoFits(f);
    RewrittenSctpFits(f);
    Pow256Of8();
    var o, t := TailFields(f), TailFields(r);
    assert FieldFits(o[0]) && FieldFits(o[1]) && FieldFits(o[2]) && FieldFits(o[3]);
    assert forall i :: 0 < i < 4 ==> t[i] == o[i];
  }

  /** A group that can be sent can be sent after the rewriting. */
  lemma RewrittenGroupFits(g: Group, host: seq<byte>)
    requires GroupFits(g)
    ensures GroupFits(ForSlave(g, host))
  {
    var r := ForSlave(g, host);
    forall i | 0 <= i < |g.tlist|
      ensures TxnFits(r.tlist[i])
    {
      assert TxnFits(g.tlist[i]);
      forall j | 0 <= j < |g.tlist[i].flist|
        ensures FlowopFits(r.tlist[i].flist[j])
      {
        RewrittenFlowopFits(host, g.tlist[i].flist[j]);
      }
    }
  }
}
