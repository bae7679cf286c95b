/** What a strand does, flattened: `iter` copies of the flowops of a transaction, each flowop
    `count` times (src/execute.c); and the slave doing the opposite, position by position. */
module Traces {
  import opened ByteOrder
  import opened Workorder

  datatype Op = Op(kind: nat, size: nat)

  function Dual(op: Op): Op { Op(Opposite(op.kind), op.size) }

  function DualTrace(t: seq<Op>): (d: seq<Op>)
    ensures |d| == |t|
    ensures forall i :: 0 <= i < |t| ==> d[i] == Dual(t[i])
  {
    seq(|t|, i requires 0 <= i < |t| => Dual(t[i]))
  }

  function Repeat<T>(n: nat, s: seq<T>): seq<T> {
    if n == 0 then [] else Repeat(n - 1, s) + s
  }

  function OpOf(f: Flowop): Op { Op(f.kind, f.io.size) }

  function FlowopTrace(f: Flowop): seq<Op> { Repeat(f.io.count, [OpOf(f)]) }

  function BodyTrace(fs: seq<Flowop>): seq<Op> {
    if fs == [] then [] else BodyTrace(fs[..|fs| - 1]) + FlowopTrace(fs[|fs| - 1])
  }

  function TxnTrace(t: Txn): seq<Op> { Repeat(t.hdr.iter, BodyTrace(t.flist)) }

  function ListTrace(ts: seq<Txn>): seq<Op> {
    if ts == [] then [] else ListTrace(ts[..|ts| - 1]) + TxnTrace(ts[|ts| - 1])
  }

  function GroupTrace(g: Group): seq<Op> { ListTrace(g.tlist) }

  /** Bytes the fixed-size transfers of a trace move out of, or into, this side. */
  predicate Sends(op: Op) { op.kind == FLOWOP_WRITE || op.kind == FLOWOP_SEND }
  predicate Receives(op: Op) { op.kind == FLOWOP_READ || op.kind == FLOWOP_RECV }

  function Moved(op: Op): nat { if Sends(op) || Receives(op) then op.size else 0 }

  function TraceBytes(t: seq<Op>): nat {
    if t == [] then 0 else TraceBytes(t[..|t| - 1]) + Moved(t[|t| - 1])
  }

  lemma {:induction false} TraceBytesConcat(a: seq<Op>, b: seq<Op>)
    ensures TraceBytes(a + b) == TraceBytes(a) + TraceBytes(b)
  {
    if b == [] {
      assert a + b == a;
    } else {
      assert (a + b)[..|a + b| - 1] == a + b[..|b| - 1];
      TraceBytesConcat(a, b[..|b| - 1]);
    }
  }

  lemma DualConcat(a: seq<Op>, b: seq<Op>)
    ensures DualTrace(a + b) == DualTrace(a) + DualTrace(b)
  {
  }

  lemma {:induction false} DualRepeat(n: nat, s: seq<Op>)
    ensures DualTrace(Repeat(n, s)) == Repeat(n, DualTrace(s))
  {
    if n > 0 {
      DualRepeat(n - 1, s);
      assert DualTrace(Repeat(n - 1, s) + s) == DualTrace(Repeat(n - 1, s)) + DualTrace(s);
    }
  }

  /** A flowop the slave mirrors: addressed to it or to nobody, not resized, no sendfile. */
  ghost predicate Mirrored(host: seq<byte>, f: Flowop) {
    Plain(f) && (f.text.remotehost == [] || f.text.remotehost == host)
  }

  function SlaveFlowop(host: seq<byte>, f: Flowop): Flowop { NopFor(host, Resize(OppositeFlowop(f))) }

  lemma {:induction false} BodyDual(host: seq<byte>, fs: seq<Flowop>, gs: seq<Flowop>)
    requires |gs| == |fs|
    requires forall j :: 0 <= j < |fs| ==> Mirrored(host, fs[j]) && gs[j] == SlaveFlowop(host, fs[j])
    ensures BodyTrace(gs) == DualTrace(BodyTrace(fs))
  {
    if fs != [] {
      var m := |fs| - 1;
      BodyDual(host, fs[..m], gs[..m]);
      assert OpOf(gs[m]) == Dual(OpOf(fs[m]));
      DualRepeat(fs[m].io.count, [OpOf(fs[m])]);
      assert DualTrace([OpOf(fs[m])]) == [OpOf(gs[m])];
      DualConcat(BodyTrace(fs[..m]), FlowopTrace(fs[m]));
    }
  }

  /** Transaction `u` is what the slave on `host` makes of `t`. */
  ghost predicate TxnMirrors(host: seq<byte>, t: Txn, u: Txn) {
    && u.hdr.iter == t.hdr.iter && |u.flist| == |t.flist|
    && forall j :: 0 <= j < |t.flist| ==> Mirrored(host, t.flist[j]) && u.flist[j] == SlaveFlowop(host, t.flist[j])
  }

  lemma TxnDual(host: seq<byte>, t: Txn, u: Txn)
    requires TxnMirrors(host, t, u)
    ensures TxnTrace(u) == DualTrace(TxnTrace(t))
  {
    BodyDual(host, t.flist, u.flist);
    DualRepeat(t.hdr.iter, BodyTrace(t.flist));
  }

  lemma {:induction false} ListDual(host: seq<byte>, ts: seq<Txn>, us: seq<Txn>)
    requires |us| == |ts| && forall i :: 0 <= i < |ts| ==> TxnMirrors(host, ts[i], us[i])
    ensures ListTrace(us) == DualTrace(ListTrace(ts))
  {
    if ts != [] {
      var m := |ts| - 1;
      ListDual(host, ts[..m], us[..m]);
      TxnDual(host, ts[m], us[m]);
      DualConcat(ListTrace(ts[..m]), TxnTrace(ts[m]));
    }
  }

  /** The slave's flattened trace is, position by position, the opposite of the master's, with
      equal sizes; so what one side sends at a position the other receives there. */
  lemma SlaveTraceIsDual(g: Group, host: seq<byte>)
    requires Every(g, f => Mirrored(host, f))
    ensures GroupTrace(ForSlave(g, host)) == DualTrace(GroupTrace(g))
  {
    forall i | 0 <= i < |g.tlist|
      ensures TxnMirrors(host, g.tlist[i], ForSlave(g, host).tlist[i])
    {
      assert forall j :: 0 <= j < |g.tlist[i].flist| ==> Mirrored(host, g.tlist[i].flist[j]);
    }
    ListDual(host, g.tlist, ForSlave(g, host).tlist);
  }

  lemma DualMovesTheSameBytes(op: Op)
    requires op.kind != FLOWOP_SENDFILE && op.kind != FLOWOP_SENDFILEV
    ensures Sends(op) <==> Receives(Dual(op))
    ensures Receives(op) <==> Sends(Dual(op))
    ensures Moved(op) == Moved(Dual(op))
  {
  }

  lemma {:induction false} DualTraceBytes(t: seq<Op>)
    requires forall i :: 0 <= i < |t| ==> t[i].kind != FLOWOP_SENDFILE && t[i].kind != FLOWOP_SENDFILEV
    ensures TraceBytes(DualTrace(t)) == TraceBytes(t)
  {
    if t != [] {
      assert DualTrace(t)[..|t| - 1] == DualTrace(t[..|t| - 1]);
      DualTraceBytes(t[..|t| - 1]);
    }
  }

  /** Bytes going out of, and coming into, the side that executes the trace. */
  function SentBytes(t: seq<Op>): nat {
    if t == [] then 0 else SentBytes(t[..|t| - 1]) + if Sends(t[|t| - 1]) then t[|t| - 1].size else 0
  }

  function ReceivedBytes(t: seq<Op>): nat {
    if t == [] then 0 else ReceivedBytes(t[..|t| - 1]) + if Receives(t[|t| - 1]) then t[|t| - 1].size else 0
  }

  /** Over any common first part of a trace and its dual, what one side has written is what the
      other has read, both ways. */
  lemma {:induction false} DualExchanges(t: seq<Op>, n: nat)
    requires n <= |t| && forall i :: 0 <= i < |t| ==> t[i].kind != FLOWOP_SENDFILE && t[i].kind != FLOWOP_SENDFILEV
    ensures SentBytes(t[..n]) == ReceivedBytes(DualTrace(t)[..n])
    ensures ReceivedBytes(t[..n]) == SentBytes(DualTrace(t)[..n])
  {
    if n > 0 {
      var u := DualTrace(t);
      assert t[..n][..n - 1] == t[..n - 1] && u[..n][..n - 1] == u[..n - 1];
      DualMovesTheSameBytes(t[n - 1]);
      DualExchanges(t, n - 1);
    }
  }
}
