/** At which offset of its packed record every field lies, in either byte order (src/workorder.h,
    src/handshake.h, src/strand.h). */
module WireLayout {
  import opened ByteOrder
  import opened Workorder
  import opened WorkorderWire
  import opened HandshakeWire

  datatype Placed = At(offset: nat, field: Field)

  function IoLayout(o: IoOptions): seq<Placed> {
    [At(0, Num(4, o.size)), At(4, Num(4, o.randSzMin)), At(8, Num(4, o.randSzMax)), At(12, Num(4, o.rsize)),
     At(16, Num(4, o.protocol)), At(20, Num(4, o.port)), At(24, Num(4, o.flag)), At(28, Num(4, o.nfiles)),
     At(32, Num(8, o.duration)), At(40, Num(8, o.wndsz)), At(48, Num(8, o.count)), At(56, Num(8, o.repeat)),
     At(64, Num(8, o.batchSize)), At(72, Num(8, o.pollTimeout))]
  }

  function SctpLayout(o: SctpOptions): seq<Placed> {
    [At(80, Num(4, o.encapsPort)), At(84, Num(4, o.bblog)), At(88, Num(4, o.rtoMin)), At(92, Num(4, o.rtoMax)),
     At(96, Num(4, o.rtoInitial)), At(100, Num(4, o.sackDelay)), At(104, Num(4, o.sackFrequency)),
     At(108, Num(4, o.maxBurstSize)), At(112, Num(4, o.maxFragmentSize)), At(116, Num(4, o.hbInterval)),
     At(120, Num(4, o.pathMtu)), At(124, Num(2, o.outStreams)), At(126, Num(2, o.inStreams)),
     At(128, Num(2, o.streamId)), At(130, Num(2, o.padding)), At(132, Num(4, o.prValue))]
  }

  function TextLayout(o: TextOptions): seq<Placed> {
    [At(136, Text(8, o.prPolicy)), At(144, Text(32, o.cc)), At(176, Text(32, o.stack)), At(208, Text(128, o.dir)),
     At(336, Text(256, o.remotehost)), At(592, Text(256, o.localhost)), At(848, Text(20, o.engine)),
     At(868, Text(50, o.cipher)), At(918, Text(5, o.sslMethod)), At(923, Text(5, o.padding))]
  }

  function TailLayout(f: Flowop): seq<Placed> {
    [At(928, Num(4, f.kind)), At(932, Num(4, f.pId)), At(936, Num(4, f.statid)), At(940, Num(4, f.errors))]
  }

  function FlowopLayout(f: Flowop): seq<Placed> {
    IoLayout(f.io) + SctpLayout(f.sctp) + TextLayout(f.text) + TailLayout(f)
  }

  function TxnLayout(h: TxnHdr): seq<Placed> {
    [At(0, Num(4, h.nflowop)), At(4, Num(4, h.txnid)), At(8, Num(4, h.statid)), At(12, Num(4, h.unused)),
     At(16, Num(4, h.rateCount)), At(20, Num(4, h.dummy)), At(24, Num(8, h.iter)), At(32, Num(8, h.duration)),
     At(40, Text(128, h.rateStr))]
  }

  function GroupLayout(h: GroupHdr): seq<Placed> {
    [At(0, Num(4, h.endian)), At(4, Num(4, h.strandFlag)), At(8, Num(4, h.nthreads)), At(12, Num(4, h.ntxn)),
     At(16, Num(4, h.maxAsync)), At(20, Num(4, h.groupid))]
  }

  /** Words one after the other from `o` on. */
  function WordsFrom(o: nat, vs: seq<nat>): (r: seq<Placed>)
    ensures |r| == |vs| && forall i :: 0 <= i < |vs| ==> r[i] == At(o + 4 * i, Num(4, vs[i]))
  {
    seq(|vs|, i requires 0 <= i < |vs| => At(o + 4 * i, Num(4, vs[i])))
  }

  function HeaderLayout(h: Header): seq<Placed> {
    [At(0, Text(32, h.magic)), At(32, Num(4, h.endian)), At(36, Num(4, h.phase)), At(40, Num(4, h.noInfo)),
     At(44, Num(4, h.padding))] + WordsFrom(48, h.protocols) + [At(80, Text(16, h.version)), At(96, Text(256, h.host))]
  }

  function AckLayout(a: WorkAck): seq<Placed> {
    [At(0, Text(64, a.ack.status)), At(64, Text(128, a.ack.message)), At(192, Num(4, a.noInfo))]
  }

  function InfoLayout(i: Info): seq<Placed> { [At(0, Text(256, i.host))] + WordsFrom(256, i.ports) }

  // ---- From placed fields to bytes ----

  function FieldsOf(ps: seq<Placed>): (fs: seq<Field>)
    ensures |fs| == |ps| && forall k :: 0 <= k < |ps| ==> fs[k] == ps[k].field
  {
    seq(|ps|, k requires 0 <= k < |ps| => ps[k].field)
  }

  /** Each field begins where the one before ends. */
  ghost predicate Packed(ps: seq<Placed>) {
    forall k :: 1 <= k < |ps| ==> ps[k].offset == ps[k - 1].offset + ps[k - 1].field.width
  }

  /** The bytes of the field begin at its offset. */
  ghost predicate Lies(e: Endian, d: seq<byte>, p: Placed) {
    p.offset + p.field.width <= |d| && d[p.offset..p.offset + p.field.width] == EncField(e, p.field)
  }

  lemma HeadLies(e: Endian, p: Placed, before: seq<byte>, head: seq<byte>, after: seq<byte>)
    requires p.offset == |before| && head == EncField(e, p.field)
    ensures Lies(e, before + (head + after), p) && |head| == p.field.width
  {
    EncFieldWidth(e, p.field);
    assert (before + (head + after))[|before|..|before| + |head|] == head;
  }

  lemma {:induction false} FieldsLie(e: Endian, fs: seq<Field>, ps: seq<Placed>, before: seq<byte>)
    requires FieldsOf(ps) == fs && Packed(ps) && (ps != [] ==> ps[0].offset == |before|)
    ensures AllLie(e, before + EncFields(e, fs), ps)
  {
    if ps != [] {
      var head, rest := EncField(e, fs[0]), EncFields(e, fs[1..]);
      HeadLies(e, ps[0], before, head, rest);
      Regroup(before, head, rest);
      assert FieldsOf(ps[1..]) == fs[1..];
      FieldsLie(e, fs[1..], ps[1..], before + head);
      AllLieCons(e, before + EncFields(e, fs), ps);
    }
  }

  lemma Regroup(a: seq<byte>, b: seq<byte>, c: seq<byte>)
    ensures (a + b) + c == a + (b + c)
  {
  }

  lemma AllLieCons(e: Endian, d: seq<byte>, ps: seq<Placed>)
    requires ps != [] && Lies(e, d, ps[0]) && AllLie(e, d, ps[1..])
    ensures AllLie(e, d, ps)
  {
    forall k | 1 <= k < |ps|
      ensures Lies(e, d, ps[k])
    {
      assert ps[1..][k - 1] == ps[k];
    }
  }

  /** Every field lies at its offset. */
  ghost predicate AllLie(e: Endian, d: seq<byte>, ps: seq<Placed>) { forall k :: 0 <= k < |ps| ==> Lies(e, d, ps[k]) }

  lemma PackedLies(e: Endian, fs: seq<Field>, ps: seq<Placed>)
    requires FieldsOf(ps) == fs && Packed(ps) && ps != [] && ps[0].offset == 0
    ensures AllLie(e, EncFields(e, fs), ps)
  {
    FieldsLie(e, fs, ps, []);
    assert [] + EncFields(e, fs) == EncFields(e, fs);
  }

  /** Packed lists that fit together are packed. */
  lemma PackedConcat(a: seq<Placed>, b: seq<Placed>)
    requires Packed(a) && Packed(b) && a != [] && b != []
    requires var last := a[|a| - 1]; b[0].offset == last.offset + last.field.width
    ensures Packed(a + b) && FieldsOf(a + b) == FieldsOf(a) + FieldsOf(b)
  {
  }

  lemma IoPacked(o: IoOptions)
    ensures Packed(IoLayout(o)) && FieldsOf(IoLayout(o)) == IoFields(o)
  {
  }

  lemma SctpPacked(o: SctpOptions)
    ensures Packed(SctpLayout(o)) && FieldsOf(SctpLayout(o)) == SctpFields(o)
  {
  }

  lemma TailPacked(f: Flowop)
    ensures Packed(TextLayout(f.text)) && FieldsOf(TextLayout(f.text)) == TextFields(f.text)
    ensures Packed(TailLayout(f)) && FieldsOf(TailLayout(f)) == TailFields(f)
  {
  }

  lemma FlowopPacked(f: Flowop)
    ensures Packed(FlowopLayout(f)) && FieldsOf(FlowopLayout(f)) == FlowopFields(f)
  {
    IoPacked(f.io);
    SctpPacked(f.sctp);
    TailPacked(f);
    Joined(IoLayout(f.io), SctpLayout(f.sctp), TextLayout(f.text), TailLayout(f));
  }

  lemma Joined(a: seq<Placed>, b: seq<Placed>, c: seq<Placed>, d: seq<Placed>)
    requires Packed(a) && Packed(b) && Packed(c) && Packed(d) && a != [] && b != [] && c != [] && d != []
    requires b[0].offset == a[|a| - 1].offset + a[|a| - 1].field.width
    requires c[0].offset == b[|b| - 1].offset + b[|b| - 1].field.width
    requires d[0].offset == c[|c| - 1].offset + c[|c| - 1].field.width
    ensures Packed(a + b + c + d) && FieldsOf(a + b + c + d) == FieldsOf(a) + FieldsOf(b) + FieldsOf(c) + FieldsOf(d)
  {
    PackedConcat(a, b);
    PackedConcat(a + b, c);
    PackedConcat(a + b + c, d);
  }

  /** The packed prefix of flowop_t. */
  lemma FlowopLies(e: Endian, f: Flowop)
    ensures AllLie(e, EncFields(e, FlowopFields(f)), FlowopLayout(f))
  {
    FlowopPacked(f);
    PackedLies(e, FlowopFields(f), FlowopLayout(f));
  }

  /** Those of txn_t and group_t. */
  lemma TxnLies(e: Endian, t: TxnHdr)
    ensures AllLie(e, EncFields(e, TxnFields(t)), TxnLayout(t))
  {
    assert FieldsOf(TxnLayout(t)) == TxnFields(t);
    PackedLies(e, TxnFields(t), TxnLayout(t));
  }

  lemma GroupLies(e: Endian, g: GroupHdr)
    ensures AllLie(e, EncFields(e, GroupFields(g)), GroupLayout(g))
  {
    assert FieldsOf(GroupLayout(g)) == GroupFields(g);
    PackedLies(e, GroupFields(g), GroupLayout(g));
  }

  lemma WordsPacked(o: nat, vs: seq<nat>)
    ensures Packed(WordsFrom(o, vs)) && FieldsOf(WordsFrom(o, vs)) == Words(vs)
  {
  }

  /** The records of the handshake: headers, acknowledgements and the entries of a port table. */
  lemma HeaderLies(e: Endian, h: Header)
    requires |h.protocols| == NUM_PROTOCOLS
    ensures AllLie(e, EncHeader(e, h), HeaderLayout(h))
  {
    var first := HeaderLayout(h)[..5];
    var last := [At(80, Text(16, h.version)), At(96, Text(256, h.host))];
    WordsPacked(48, h.protocols);
    PackedConcat(first, WordsFrom(48, h.protocols));
    PackedConcat(first + WordsFrom(48, h.protocols), last);
    assert HeaderLayout(h) == first + WordsFrom(48, h.protocols) + last;
    assert FieldsOf(HeaderLayout(h)) == HeaderFields(h);
    PackedLies(e, HeaderFields(h), HeaderLayout(h));
  }

  lemma AckLies(e: Endian, a: WorkAck)
    ensures AllLie(e, EncWorkAck(e, a), AckLayout(a))
  {
    assert FieldsOf(AckLayout(a)) == WorkAckFields(a);
    PackedLies(e, WorkAckFields(a), AckLayout(a));
  }

  lemma InfoLies(e: Endian, i: Info)
    requires |i.ports| == NUM_PROTOCOLS
    ensures AllLie(e, EncInfo(e, i), InfoLayout(i))
  {
    WordsPacked(256, i.ports);
    PackedConcat([At(0, Text(256, i.host))], WordsFrom(256, i.ports));
    assert FieldsOf(InfoLayout(i)) == InfoFields(i);
    PackedLies(e, InfoFields(i), InfoLayout(i));
  }
}
