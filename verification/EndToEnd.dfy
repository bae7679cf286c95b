/** From the master's group to what the slave executes: the workorder that has crossed the wire
    makes the slave the dual of the master (src/handshake.c, src/workorder.c, src/execute.c). */
module EndToEnd {
  import opened ByteOrder
  import opened Workorder
  import opened WorkorderWire
  import opened Traces

  lemma {:induction false} BodySame(fs: seq<Flowop>, gs: seq<Flowop>)
    requires |gs| == |fs|
    requires forall j :: 0 <= j < |fs| ==> gs[j].kind == fs[j].kind && gs[j].io == fs[j].io
    ensures BodyTrace(gs) == BodyTrace(fs)
  {
    if fs != [] {
      BodySame(fs[..|fs| - 1], gs[..|gs| - 1]);
    }
  }

  lemma {:induction false} ListSame(same: bool, peer: seq<byte>, ts: seq<Txn>, us: seq<Txn>)
    requires |us| == |ts| && forall i :: 0 <= i < |ts| ==> us[i] == ArrivedTxn(same, peer, ts[i])
    ensures ListTrace(us) == ListTrace(ts)
  {
    if ts != [] {
      var m := |ts| - 1;
      ListSame(same, peer, ts[..m], us[..m]);
      BodySame(ts[m].flist, us[m].flist);
    }
  }

  /** Crossing to the other byte order and turning the host names changes no trace. */
  lemma ArrivedTrace(same: bool, peer: seq<byte>, g: Group)
    ensures GroupTrace(ArrivedGroup(same, peer, g)) == GroupTrace(g)
  {
    ListSame(same, peer, g.tlist, ArrivedGroup(same, peer, g).tlist);
  }

  ghost predicate PlainOps(t: seq<Op>) {
    forall i :: 0 <= i < |t| ==> t[i].kind != FLOWOP_SENDFILE && t[i].kind != FLOWOP_SENDFILEV
  }

  lemma {:induction false} RepeatPlain(n: nat, t: seq<Op>)
    requires PlainOps(t)
    ensures PlainOps(Repeat(n, t))
  {
    if n > 0 {
      RepeatPlain(n - 1, t);
    }
  }

  lemma {:induction false} BodyPlain(fs: seq<Flowop>)
    requires forall j :: 0 <= j < |fs| ==> Plain(fs[j])
    ensures PlainOps(BodyTrace(fs))
  {
    if fs != [] {
      var f := fs[|fs| - 1];
      BodyPlain(fs[..|fs| - 1]);
      RepeatPlain(f.io.count, [OpOf(f)]);
    }
  }

  lemma {:induction false} ListPlain(ts: seq<Txn>)
    requires forall i, j :: 0 <= i < |ts| && 0 <= j < |ts[i].flist| ==> Plain(ts[i].flist[j])
    ensures PlainOps(ListTrace(ts))
  {
    if ts != [] {
      var t := ts[|ts| - 1];
      ListPlain(ts[..|ts| - 1]);
      BodyPlain(t.flist);
      RepeatPlain(t.hdr.iter, BodyTrace(t.flist));
    }
  }

  /** The trace of the group that arrives is the dual of the master's. */
  lemma ArrivedIsDual(same: bool, peer: seq<byte>, g: Group, host: seq<byte>)
    requires Every(g, f => Mirrored(host, f))
    ensures GroupTrace(ArrivedGroup(same, peer, ForSlave(g, host))) == DualTrace(GroupTrace(g))
  {
    ArrivedTrace(same, peer, ForSlave(g, host));
    SlaveTraceIsDual(g, host);
  }

  /** What both sides have exchanged after `n` positions of the trace `t` and its dual `u`. */
  ghost predicate Exchanged(t: seq<Op>, u: seq<Op>, n: nat) {
    && n <= |t| == |u|
    && SentBytes(t[..n]) == ReceivedBytes(u[..n]) && ReceivedBytes(t[..n]) == SentBytes(u[..n])
  }

  lemma MirroredExchanges(g: Group, host: seq<byte>, n: nat)
    requires Every(g, f => Mirrored(host, f)) && n <= |GroupTrace(g)|
    ensures Exchanged(GroupTrace(g), DualTrace(GroupTrace(g)), n)
  {
    ListPlain(g.tlist);
    DualExchanges(GroupTrace(g), n);
  }

  /** The slave rebuilds, from the bytes the master wrote, a group whose flattened trace is position
      by position the opposite of the master's own; so at every position what one side has sent so
      far the other has received. */
  lemma SlaveExecutesTheDual(g: Group, host: seq<byte>, peer: seq<byte>, from: Endian, to: Endian, rest: seq<byte>,
                             n: nat)
    requires GroupFits(g) && Every(g, f => Mirrored(host, f)) && n <= |GroupTrace(g)|
    ensures var p := ParseGroup(to, peer, EncGroup(from, ForSlave(g, host)) + rest);
            && p.Parsed? && p.rest == rest
            && GroupTrace(Bitswap(from == to, p.value)) == DualTrace(GroupTrace(g))
            && Exchanged(GroupTrace(g), GroupTrace(Bitswap(from == to, p.value)), n)
  {
    RewrittenGroupFits(g, host);
    TransferRoundTrip(from, to, peer, ForSlave(g, host), rest);
    ArrivedIsDual(from == to, peer, g, host);
    MirroredExchanges(g, host, n);
  }
}
