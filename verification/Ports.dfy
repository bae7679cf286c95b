/** Who listens where, and who is told: listeners and port tables of the strands on the master
    and on its slaves (src/common.c, src/strand.c). */
module Ports {
  import opened ByteOrder
  import opened Workorder
  import opened WorkorderWire
  import opened HandshakeWire
  import opened Handshake
  import opened HandshakeDuality
  import opened Layout

  /** listen_conn[protocol] of a strand: the socket and the port it is bound to. */
  datatype Listener = Closed | Listening(fd: nat, port: nat)

  function ZeroInfo(): Info { Info([], seq(NUM_PROTOCOLS, _ => 0)) }

  function ZeroTable(n: nat): (t: seq<Info>)
    ensures |t| == n && forall i :: 0 <= i < n ==> t[i] == ZeroInfo()
  {
    seq(n, _ => ZeroInfo())
  }

  function SetPort(t: seq<Info>, i: nat, q: nat, port: nat): seq<Info>
    requires i < |t| && q < |t[i].ports|
  {
    t[i := t[i].(ports := t[i].ports[q := port])]
  }

  /** The table after the loop for a shared port has reached entry `i`; entry 0 is set before it. */
  function SharedTable(sl: seq<Info>, i: nat, q: nat, port: nat): (t: seq<Info>)
    requires forall k :: 0 <= k < |sl| ==> q < |sl[k].ports|
    ensures |t| == |sl|
    ensures forall k :: 0 <= k < |sl| ==>
              t[k] == if k < i || k == 0 then sl[k].(ports := sl[k].ports[q := port]) else sl[k]
  {
    seq(|sl|, k requires 0 <= k < |sl| => if k < i || k == 0 then sl[k].(ports := sl[k].ports[q := port]) else sl[k])
  }

  lemma SharedOneMore(sl: seq<Info>, i: nat, q: nat, port: nat)
    requires i < |sl| && forall k :: 0 <= k < |sl| ==> q < |sl[k].ports|
    ensures SetPort(SharedTable(sl, i, q, port), i, q, port) == SharedTable(sl, i + 1, q, port)
    ensures SharedTable(sl, i, q, port)[0].ports[q] == port
  {
    if i == 0 {
      assert sl[0].ports[q := port][q := port] == sl[0].ports[q := port];
    }
  }

  /** strand_get_port as a scan: the first entry with that host name, -1 if there is none. */
  function PortOf(list: seq<Info>, host: seq<byte>, q: nat): int {
    if list == [] then -1
    else if list[0].host == host && q < |list[0].ports| then list[0].ports[q]
    else PortOf(list[1..], host, q)
  }

  /** A port number as htons and ntohs leave it. */
  function Wanted(port: nat): nat { port % 0x1_0000 }

  /** All strands of the block listen on one socket, on the port asked for if the kernel was not left to
      choose; or, if no port was asked for, each on a port of its own; a negative `want` asks for nothing. */
  ghost predicate ListenAs(listen: seq<seq<Listener>>, at: nat, n: nat, q: nat, want: int) {
    && at + n <= |listen|
    && (want > 0 ==> forall k :: at <= k < at + n ==> Shares(listen[k], listen[at], q, Wanted(want)))
    && (want == 0 ==> forall k :: at <= k < at + n ==> Listens(listen[k], q))
    && (want == 0 ==> forall k, m :: at <= k < m < at + n ==> PortsDiffer(listen[k], listen[m], q))
  }

  predicate Listens(l: seq<Listener>, q: nat) { q < |l| && l[q].Listening? }

  predicate Shares(l: seq<Listener>, first: seq<Listener>, q: nat, port: nat) {
    Listens(l, q) && Listens(first, q) && l[q] == first[q] && (port != 0 ==> l[q].port == port)
  }

  predicate PortsDiffer(l: seq<Listener>, m: seq<Listener>, q: nat) {
    Listens(l, q) && Listens(m, q) ==> l[q].port != m[q].port
  }

  /** Every port in the table is where the strand listens, and either all entries have the
      protocol open or none. */
  ghost predicate Honest(listen: seq<seq<Listener>>, ssid: nat, t: seq<Info>) {
    && ssid + |t| <= |listen|
    && (forall i :: 0 <= i < |t| ==> |t[i].ports| == NUM_PROTOCOLS)
    && (forall k :: 0 <= k < |listen| ==> |listen[k]| == NUM_PROTOCOLS)
    && forall i, q :: 0 <= i < |t| && 0 <= q < NUM_PROTOCOLS ==>
         HonestAt(listen[ssid + i][q], t[i].ports[q], t[0].ports[q])
  }

  ghost predicate HonestAt(l: Listener, port: nat, first: nat) {
    if first > 0 then l.Listening? && l.port == port && 0 < port <= 0xFFFF else port == 0
  }

  /** What one process tree keeps for its strands, and the ports the kernel has given it. */
  class Host {
    var listen: seq<seq<Listener>>
    var slaves: seq<seq<Info>>
    var bound: set<(nat, nat)>
    var fds: nat
    var refused: nat    // how often the kernel has refused to listen

    ghost predicate Shaped()
      reads this`listen, this`slaves
    {
      && |listen| == |slaves|
      && forall k :: 0 <= k < |listen| ==> |listen[k]| == NUM_PROTOCOLS
    }

    constructor (strands: nat)
      ensures Shaped() && |listen| == strands && bound == {}
      ensures forall k :: 0 <= k < strands ==> slaves[k] == [] && listen[k] == seq(NUM_PROTOCOLS, _ => Closed)
    {
      listen := seq(strands, _ => seq(NUM_PROTOCOLS, _ => Closed));
      slaves := seq(strands, _ => []);
      bound, fds, refused := {}, 0, 0;
    }

    /** The kernel's answer to bind and listen: the port asked for or, for port 0, any port, but
        never one that is taken; or failure. */
    method Listen(q: nat, want: nat) returns (r: int, l: Listener)
      requires want <= 0xFFFF
      modifies this`bound, this`fds, this`refused
      ensures r == -1 || 0 < r <= 0xFFFF
      ensures refused == old(refused) + if r == -1 then 1 else 0
      ensures r > 0 ==> (want != 0 ==> r == want) && (q, r) !in old(bound) && bound == old(bound) + {(q, r)}
      ensures r > 0 ==> l == Listening(old(fds), r) && fds == old(fds) + 1
      ensures r == -1 ==> bound == old(bound)
    {
      l := Closed;
      var port: int := *;
      if 0 < port <= 0xFFFF && (want == 0 || port == want) && (q, port) !in bound {
        r, l := port, Listening(fds, port);
        bound, fds := bound + {(q, port)}, fds + 1;
      } else {
        r, refused := -1, refused + 1;
      }
    }

    /** One listener on a fixed port for all strands of the block. */
    method OpenShared(q: nat, want: nat, sl: seq<Info>, ssid: nat) returns (ok: bool, t: seq<Info>)
      requires Shaped() && q < NUM_PROTOCOLS && ssid + |sl| <= |listen| && |sl| > 0 && want <= 0xFFFF
      requires forall i :: 0 <= i < |sl| ==> |sl[i].ports| == NUM_PROTOCOLS
      modifies this`listen, this`bound, this`fds, this`refused
      ensures Shaped() && |listen| == old(|listen|) && old(bound) <= bound
      ensures ok ==> OpenedFor(old(listen), sl, listen, t, ssid, q)
      ensures ok ==> (q, t[0].ports[q]) !in old(bound) && (q, t[0].ports[q]) in bound
      ensures ok ==> forall k :: ssid <= k < ssid + |sl| ==> Shares(listen[k], listen[ssid], q, want)
      ensures !ok ==> listen == old(listen)
      ensures ok <==> refused == old(refused)
    {
      t := sl;
      var r, l := Listen(q, want);
      if r <= 0 {
        return false, t;
      }
      ghost var was, has := listen, bound;
      t := SetPort(t, 0, q, r);
      assert t == SharedTable(sl, 0, q, r);
      for i := 0 to |sl|
        invariant bound == has && Shaped() && |listen| == |was| && t == SharedTable(sl, i, q, r)
        invariant refused == old(refused)
        invariant forall k :: 0 <= k < |listen| ==> listen[k] == if ssid <= k < ssid + i then was[k][q := l] else was[k]
      {
        listen := listen[ssid + i := listen[ssid + i][q := l]];
        SharedOneMore(sl, i, q, r);
        t := SetPort(t, i, q, t[0].ports[q]);
      }
      ok := true;
      forall i | 0 <= i < |t|
        ensures OwnPort(was[ssid + i], sl[i], listen[ssid + i], t[i], q)
      {
        assert t[i] == sl[i].(ports := sl[i].ports[q := r]) && listen[ssid + i] == was[ssid + i][q := l];
      }
    }

    /** One listener on a port of its own for each strand of the block. */
    method OpenEach(q: nat, sl: seq<Info>, ssid: nat) returns (ok: bool, t: seq<Info>)
      requires Shaped() && q < NUM_PROTOCOLS && ssid + |sl| <= |listen|
      requires forall i :: 0 <= i < |sl| ==> |sl[i].ports| == NUM_PROTOCOLS
      modifies this`listen, this`bound, this`fds, this`refused
      ensures Shaped() && |listen| == old(|listen|) && old(bound) <= bound
      ensures ok ==> OpenedFor(old(listen), sl, listen, t, ssid, q)
      ensures ok ==> forall i :: 0 <= i < |t| ==> (q, t[i].ports[q]) !in old(bound) && (q, t[i].ports[q]) in bound
      ensures ok ==> forall i, j :: 0 <= i < j < |t| ==> t[i].ports[q] != t[j].ports[q]
      ensures forall k :: 0 <= k < |listen| && !(ssid <= k < ssid + |sl|) ==> listen[k] == old(listen[k])
      ensures !ok ==> GaveUp(old(listen), listen, ssid, |sl|, q)
      ensures ok <==> refused == old(refused)
    {
      t := sl;
      ok := true;
      ghost var was, had := listen, bound;
      for i := 0 to |sl|
        invariant Shaped() && |listen| == |was| && |t| == |sl| && had <= bound
        invariant forall k :: 0 <= k < |listen| && !(ssid <= k < ssid + i) ==> listen[k] == was[k]
        invariant forall k :: 0 <= k < i ==> OwnPort(was[ssid + k], sl[k], listen[ssid + k], t[k], q)
        invariant forall k :: 0 <= k < i ==> (q, t[k].ports[q]) !in had && (q, t[k].ports[q]) in bound
        invariant forall k, l :: 0 <= k < l < i ==> t[k].ports[q] != t[l].ports[q]
        invariant refused == old(refused)
        invariant forall k :: i <= k < |t| ==> t[k] == sl[k]
      {
        var r, l := Listen(q, 0);
        if r == -1 {
          SomeOpened(was, listen, sl, t, ssid, i, q);
          return false, t;
        }
        t := SetPort(t, i, q, r);
        listen := listen[ssid + i := listen[ssid + i][q := l]];
        assert OwnPort(was[ssid + i], sl[i], listen[ssid + i], t[i], q);
      }
    }

    /** create_protocols: nothing if the protocol is already open.  A port that is asked for is the one
        of a listener all strands share; otherwise each has its own.  It fails exactly when the kernel
        refuses to listen.  A failure leaves a shared listener
        unopened, and those of the first strands, fewer than the block has, open. */
    method CreateProtocols(q: nat, port: nat, sl: seq<Info>, ssid: nat) returns (ok: bool, t: seq<Info>)
      requires Shaped() && q < NUM_PROTOCOLS && |sl| > 0 && Honest(listen, ssid, sl)
      modifies this`listen, this`bound, this`fds, this`refused
      ensures Shaped() && |listen| == old(|listen|) && old(bound) <= bound
      ensures forall k :: 0 <= k < |listen| && !(ssid <= k < ssid + |sl|) ==> listen[k] == old(listen[k])
      ensures ok ==> |t| == |sl| && Honest(listen, ssid, t)
      ensures ok ==> OpensMore(sl, t, q, old(bound), bound)
      ensures ok && sl[0].ports[q] > 0 ==> t == sl && listen == old(listen)
      ensures ok && sl[0].ports[q] == 0 ==>
                OpenedFor(old(listen), sl, listen, t, ssid, q) && ListenAs(listen, ssid, |sl|, q, port)
      ensures ok <==> refused == old(refused)
      ensures !ok ==> sl[0].ports[q] == 0 && GaveUp(old(listen), listen, ssid, |sl|, q)
      ensures !ok && port != 0 ==> listen == old(listen)
    {
      if sl[0].ports[q] > 0 {
        return true, sl;
      }
      if port != 0 {
        ok, t := OpenShared(q, Wanted(port), sl, ssid);
        assert !ok ==> PartlyOpened(old(listen), listen, ssid, 0, q);
      } else {
        ok, t := OpenEach(q, sl, ssid);
      }
      if ok {
        OpenedIsHonest(old(listen), sl, listen, t, ssid, q);
        if port == 0 {
          EachListens(old(listen), sl, listen, t, ssid, q);
        }
      }
    }

    /** One accept of a transaction, after the flowops `done`; the table is allocated at the first. */
    method OpenAccept(f: Flowop, n: nat, sl: seq<Info>, ssid: nat, ghost first: seq<Info>, ghost done: seq<Flowop>,
                      ghost before: seq<int>, ghost had: set<(nat, nat)>)
      returns (ok: bool, t: seq<Info>)
      requires Shaped() && n > 0 && ssid + n <= |listen| && (sl == [] || |sl| == n) && Honest(listen, ssid, sl)
      requires f.kind == FLOWOP_ACCEPT && f.io.protocol < NUM_PROTOCOLS && |before| == NUM_PROTOCOLS
      requires Serves(sl, done) && Extends(first, sl, had, bound) &&
               AsAsked(listen, ssid, n, sl, PortsFrom(before, done))
      requires sl == [] ==> first == []
      modifies this`listen, this`bound, this`fds, this`refused
      ensures Shaped() && SameOutside(old(listen), listen, ssid, n) && old(bound) <= bound
      ensures ok ==> |t| == n && Honest(listen, ssid, t) && Serves(t, done + [f]) && Extends(first, t, had, bound)
      ensures ok ==> AsAsked(listen, ssid, n, t, PortsFrom(before, done + [f]))
      ensures ok <==> refused == old(refused)
    {
      t := if sl == [] then ZeroTable(n) else sl;
      ghost var was, bound0, heard := t, bound, listen;
      ok, t := CreateProtocols(f.io.protocol, f.io.port, t, ssid);
      if ok {
        ExtendsMore(first, was, t, f.io.protocol, had, bound0, bound);
        ServesMore(was, t, done, f.io.protocol, bound0, bound);
        AskedMore(heard, listen, ssid, was, t, before, done, f);
      }
    }

    /** The flowops of one transaction. */
    method OpenTxn(fs: seq<Flowop>, n: nat, sl: seq<Info>, ssid: nat, ghost before: seq<int>)
      returns (ok: bool, t: seq<Info>)
      requires |before| == NUM_PROTOCOLS && AsAsked(listen, ssid, n, sl, before)
      requires Shaped() && n > 0 && ssid + n <= |listen| && (sl == [] || |sl| == n) && Honest(listen, ssid, sl)
      requires forall i :: 0 <= i < |sl| ==> sl[i].host == []
      requires forall j :: 0 <= j < |fs| && fs[j].kind == FLOWOP_ACCEPT ==> fs[j].io.protocol < NUM_PROTOCOLS
      modifies this`listen, this`bound, this`fds, this`refused
      ensures Shaped() && SameOutside(old(listen), listen, ssid, n) && old(bound) <= bound
      ensures ok ==> (t == [] || |t| == n) && Honest(listen, ssid, t)
      ensures ok ==> Serves(t, fs) && Extends(sl, t, old(bound), bound)
      ensures ok ==> (t == [] <==> sl == [] && forall j :: 0 <= j < |fs| ==> fs[j].kind != FLOWOP_ACCEPT)
      ensures ok ==> AsAsked(listen, ssid, n, t, PortsFrom(before, fs))
      ensures ok <==> refused == old(refused)
    {
      ok, t := true, sl;
      for j := 0 to |fs|
        invariant Shaped() && SameOutside(old(listen), listen, ssid, n) && old(bound) <= bound && ok
        invariant (t == [] || |t| == n) && Honest(listen, ssid, t)
        invariant Serves(t, fs[..j]) && Extends(sl, t, old(bound), bound)
        invariant t == [] <==> sl == [] && forall k :: 0 <= k < j ==> fs[k].kind != FLOWOP_ACCEPT
        invariant AsAsked(listen, ssid, n, t, PortsFrom(before, fs[..j])) && refused == old(refused)
      {
        assert fs[..j + 1] == fs[..j] + [fs[j]];
        if fs[j].kind == FLOWOP_ACCEPT {
          ok, t := OpenAccept(fs[j], n, t, ssid, sl, fs[..j], before, old(bound));
          if !ok {
            return;
          }
        } else {
          NothingAsked(before, fs[..j], fs[j]);
        }
      }
      assert fs[..|fs|] == fs;
    }

    /** preprocess_accepts: listeners for every accept of the group, before the peer is told. */
    method PreprocessAccepts(g: Group, ssid: nat) returns (ok: bool, t: seq<Info>)
      requires Shaped() && g.hdr.nthreads > 0 && ssid + g.hdr.nthreads <= |listen|
      requires Every(g, f => AcceptsKnown(f))
      modifies this`listen, this`bound, this`fds, this`refused
      ensures Shaped() && |listen| == old(|listen|) && old(bound) <= bound
      ensures forall k :: 0 <= k < |listen| && !(ssid <= k < ssid + g.hdr.nthreads) ==> listen[k] == old(listen[k])
      ensures ok ==> |t| == (if HasAccept(g) then g.hdr.nthreads else 0) && Honest(listen, ssid, t)
      ensures ok ==> forall i :: 0 <= i < |g.tlist| ==> Serves(t, g.tlist[i].flist)
      ensures ok ==> Extends([], t, old(bound), bound)
      ensures ok ==> AsAsked(listen, ssid, g.hdr.nthreads, t, GroupPorts(g.tlist))
      ensures ok <==> refused == old(refused)
    {
      ok, t := true, [];
      for i := 0 to |g.tlist|
        invariant Shaped() && |listen| == old(|listen|) && old(bound) <= bound && ok
        invariant forall k :: 0 <= k < |listen| && !(ssid <= k < ssid + g.hdr.nthreads) ==> listen[k] == old(listen[k])
        invariant (t == [] || |t| == g.hdr.nthreads) && Honest(listen, ssid, t) && Extends([], t, old(bound), bound)
        invariant forall k :: 0 <= k < i ==> Serves(t, g.tlist[k].flist)
        invariant t == [] <==> forall k, j :: 0 <= k < i && 0 <= j < |g.tlist[k].flist| ==>
                    g.tlist[k].flist[j].kind != FLOWOP_ACCEPT
        invariant AsAsked(listen, ssid, g.hdr.nthreads, t, GroupPorts(g.tlist[..i])) && refused == old(refused)
      {
        ghost var before, had := t, bound;
        GroupPortsNext(g.tlist, i);
        ok, t := OpenTxn(g.tlist[i].flist, g.hdr.nthreads, t, ssid, GroupPorts(g.tlist[..i]));
        if !ok {
          return;
        }
        ExtendsTrans(before, t, old(bound), had, bound);
        forall k | 0 <= k < i
          ensures Serves(t, g.tlist[k].flist)
        {
          ServesStill(before, t, g.tlist[k].flist, had, bound);
        }
      }
      assert g.tlist[..|g.tlist|] == g.tlist;
    }

    /** update_strand_with_slave_info: every strand of the block remembers its entry, newest first. */
    method Learn(si: seq<Info>, host: seq<byte>, ssid: nat)
      requires Shaped() && ssid + |si| <= |slaves|
      modifies this`slaves
      ensures Shaped() && slaves == Told(old(slaves), si, host, ssid)
    {
      for i := 0 to |si|
        invariant Shaped() && |slaves| == old(|slaves|)
        invariant forall k :: 0 <= k < |slaves| ==>
                    slaves[k] == if ssid <= k < ssid + i then [si[k - ssid].(host := host)] + old(slaves[k])
                                 else old(slaves[k])
      {
        slaves := slaves[ssid + i := [si[i].(host := host)] + slaves[ssid + i]];
      }
    }

    /** strand_get_port. */
    method GetPort(k: nat, host: seq<byte>, q: nat) returns (r: int)
      requires Shaped() && k < |slaves| && forall i :: 0 <= i < |slaves[k]| ==> q < |slaves[k][i].ports|
      ensures r == PortOf(slaves[k], host, q)
    {
      var list := slaves[k];
      for i := 0 to |list|
        invariant PortOf(slaves[k], host, q) == PortOf(list[i..], host, q)
      {
        if list[i].host == host {
          return list[i].ports[q];
        }
        assert list[i..][1..] == list[i + 1..];
      }
      r := -1;
    }
  }

  /** Entry i of a table in front of the list of strand ssid + i. */
  function Told(slaves: seq<seq<Info>>, si: seq<Info>, host: seq<byte>, ssid: nat): (r: seq<seq<Info>>)
    ensures |r| == |slaves|
    ensures forall k :: 0 <= k < |slaves| ==>
              r[k] == if ssid <= k < ssid + |si| then [si[k - ssid].(host := host)] + slaves[k] else slaves[k]
  {
    seq(|slaves|, k requires 0 <= k < |slaves| =>
      if ssid <= k < ssid + |si| then [si[k - ssid].(host := host)] + slaves[k] else slaves[k])
  }

  predicate AcceptsKnown(f: Flowop) { f.kind == FLOWOP_ACCEPT ==> f.io.protocol < NUM_PROTOCOLS }

  /** Every accept has its protocol open in the table. */
  ghost predicate Serves(t: seq<Info>, fs: seq<Flowop>) {
    forall j :: 0 <= j < |fs| && fs[j].kind == FLOWOP_ACCEPT ==> ServesOne(t, fs[j].io.protocol)
  }

  predicate ServesOne(t: seq<Info>, q: nat) { |t| > 0 && q < |t[0].ports| && t[0].ports[q] > 0 }

  /** Ports of `sl` stay, and each port that is new in `t` the host did not have before. */
  ghost predicate Extends(sl: seq<Info>, t: seq<Info>, had: set<(nat, nat)>, has: set<(nat, nat)>) {
    && had <= has && (sl == [] || |t| == |sl|)
    && (forall i :: 0 <= i < |t| ==> |t[i].ports| == NUM_PROTOCOLS && t[i].host == [])
    && (forall i :: 0 <= i < |sl| ==> |sl[i].ports| == NUM_PROTOCOLS && sl[i].host == [])
    && forall i, r :: 0 <= i < |t| && 0 <= r < NUM_PROTOCOLS ==>
         PortExtends(r, t[i].ports[r], if i < |sl| then sl[i].ports[r] else 0, had, has)
  }

  predicate PortExtends(r: nat, now: nat, was: nat, had: set<(nat, nat)>, has: set<(nat, nat)>) {
    now == was || (was == 0 && (r, now) !in had && (r, now) in has)
  }

  /** A strand with its own listener for one protocol, its table entry saying so. */
  ghost predicate OwnPort(was: seq<Listener>, had: Info, now: seq<Listener>, has: Info, q: nat) {
    && |was| == |now| == |had.ports| == |has.ports| == NUM_PROTOCOLS && q < NUM_PROTOCOLS
    && 0 < has.ports[q] <= 0xFFFF && has == had.(ports := had.ports[q := has.ports[q]])
    && now[q].Listening? && now[q].port == has.ports[q] && now == was[q := now[q]]
  }

  /** The first `n` strands of the block listen for `q`, and nothing else has changed. */
  ghost predicate PartlyOpened(was: seq<seq<Listener>>, now: seq<seq<Listener>>, ssid: nat, n: nat, q: nat) {
    && |now| == |was|
    && (forall k :: 0 <= k < |was| && !(ssid <= k < ssid + n) ==> now[k] == was[k])
    && (forall k :: 0 <= k < |was| && ssid <= k < ssid + n ==>
          q < |was[k]| == |now[k]| && now[k][q].Listening? && now[k] == was[k][q := now[k][q]])
  }

  lemma SomeOpened(was: seq<seq<Listener>>, now: seq<seq<Listener>>, sl: seq<Info>, t: seq<Info>, ssid: nat, n: nat,
                   q: nat)
    requires |now| == |was| && n <= |sl| == |t| && ssid + |sl| <= |was|
    requires forall k :: 0 <= k < |was| && !(ssid <= k < ssid + n) ==> now[k] == was[k]
    requires forall k :: 0 <= k < n ==> OwnPort(was[ssid + k], sl[k], now[ssid + k], t[k], q)
    ensures PartlyOpened(was, now, ssid, n, q)
  {
    forall k | ssid <= k < ssid + n
      ensures q < |was[k]| == |now[k]| && now[k][q].Listening? && now[k] == was[k][q := now[k][q]]
    {
      assert OwnPort(was[ssid + (k - ssid)], sl[k - ssid], now[ssid + (k - ssid)], t[k - ssid], q);
    }
  }

  ghost predicate GaveUp(was: seq<seq<Listener>>, now: seq<seq<Listener>>, ssid: nat, m: nat, q: nat) {
    exists n :: 0 <= n < m && PartlyOpened(was, now, ssid, n, q)
  }

  /** The whole block listens for `q`, and nothing else has changed. */
  ghost predicate OpenedFor(was: seq<seq<Listener>>, sl: seq<Info>, now: seq<seq<Listener>>, t: seq<Info>, ssid: nat,
                            q: nat) {
    && |now| == |was| && |t| == |sl| && ssid + |sl| <= |was| && q < NUM_PROTOCOLS
    && (forall k :: 0 <= k < |was| && !(ssid <= k < ssid + |sl|) ==> now[k] == was[k])
    && (forall i :: 0 <= i < |t| ==> OwnPort(was[ssid + i], sl[i], now[ssid + i], t[i], q))
  }

  /** `q` is open in the table, and whatever was; every new port is one the host did not have. */
  ghost predicate OpensMore(sl: seq<Info>, t: seq<Info>, q: nat, had: set<(nat, nat)>, has: set<(nat, nat)>) {
    && |t| == |sl| > 0 && q < NUM_PROTOCOLS
    && (forall i :: 0 <= i < |t| ==> |t[i].ports| == |sl[i].ports| == NUM_PROTOCOLS && t[i].host == sl[i].host)
    && t[0].ports[q] > 0
    && forall i, r :: 0 <= i < |t| && 0 <= r < NUM_PROTOCOLS ==>
         t[i].ports[r] == sl[i].ports[r]
         || (r == q && sl[i].ports[r] == 0 && (r, t[i].ports[r]) !in had && (r, t[i].ports[r]) in has)
  }

  lemma OpenedIsHonest(was: seq<seq<Listener>>, sl: seq<Info>, now: seq<seq<Listener>>, t: seq<Info>, ssid: nat, q: nat)
    requires |sl| > 0 && Honest(was, ssid, sl) && OpenedFor(was, sl, now, t, ssid, q)
    ensures Honest(now, ssid, t)
  {
    forall k | 0 <= k < |now|
      ensures |now[k]| == NUM_PROTOCOLS
    {
      if ssid <= k < ssid + |sl| {
        assert OwnPort(was[ssid + (k - ssid)], sl[k - ssid], now[ssid + (k - ssid)], t[k - ssid], q);
      }
    }
    forall i, r | 0 <= i < |t| && 0 <= r < NUM_PROTOCOLS
      ensures HonestAt(now[ssid + i][r], t[i].ports[r], t[0].ports[r])
    {
      assert OwnPort(was[ssid + i], sl[i], now[ssid + i], t[i], q) && OwnPort(was[ssid], sl[0], now[ssid], t[0], q);
      assert r != q ==> HonestAt(was[ssid + i][r], sl[i].ports[r], sl[0].ports[r]);
    }
  }

  lemma EachListens(was: seq<seq<Listener>>, sl: seq<Info>, now: seq<seq<Listener>>, t: seq<Info>, ssid: nat, q: nat)
    requires OpenedFor(was, sl, now, t, ssid, q)
    requires forall i, j :: 0 <= i < j < |t| ==> t[i].ports[q] != t[j].ports[q]
    ensures ListenAs(now, ssid, |t|, q, 0)
  {
    forall k | ssid <= k < ssid + |t|
      ensures Listens(now[k], q) && now[k][q].port == t[k - ssid].ports[q]
    {
      assert OwnPort(was[ssid + (k - ssid)], sl[k - ssid], now[ssid + (k - ssid)], t[k - ssid], q);
    }
  }

  /** Opening another protocol changes nothing for this one. */
  lemma OthersListenOn(was: seq<seq<Listener>>, sl: seq<Info>, now: seq<seq<Listener>>, t: seq<Info>, ssid: nat, q: nat,
                       r: nat, want: int)
    requires OpenedFor(was, sl, now, t, ssid, q) && r != q && r < NUM_PROTOCOLS && ListenAs(was, ssid, |sl|, r, want)
    ensures ListenAs(now, ssid, |t|, r, want)
  {
    forall k | ssid <= k < ssid + |t|
      ensures |now[k]| == |was[k]| == NUM_PROTOCOLS && now[k][r] == was[k][r]
    {
      assert OwnPort(was[ssid + (k - ssid)], sl[k - ssid], now[ssid + (k - ssid)], t[k - ssid], q);
    }
  }

  // ---- Which port a protocol is opened on ----

  /** The option of the first accept on the protocol, after `before`, which counts if it is not negative. */
  function PortFrom(before: int, fs: seq<Flowop>, q: nat): int {
    if fs == [] then before
    else
      var p := PortFrom(before, fs[..|fs| - 1], q);
      if p < 0 && AcceptOn(fs[|fs| - 1], q) then fs[|fs| - 1].io.port else p
  }

  function GroupPort(ts: seq<Txn>, q: nat): int {
    if ts == [] then -1 else PortFrom(GroupPort(ts[..|ts| - 1], q), ts[|ts| - 1].flist, q)
  }

  lemma {:induction false} PortFromFirst(before: int, fs: seq<Flowop>, q: nat, j: nat)
    requires before < 0 && j <= |fs| && forall k :: 0 <= k < j ==> !AcceptOn(fs[k], q)
    ensures j == |fs| ==> PortFrom(before, fs, q) == before
    ensures j < |fs| && AcceptOn(fs[j], q) ==> PortFrom(before, fs, q) == fs[j].io.port
  {
    if fs != [] {
      var front := fs[..|fs| - 1];
      PortFromFirst(before, front, q, if j < |fs| then j else |front|);
    }
  }

  lemma {:induction false} PortFromStays(before: int, fs: seq<Flowop>, q: nat)
    requires before >= 0
    ensures PortFrom(before, fs, q) == before
  {
    if fs != [] {
      PortFromStays(before, fs[..|fs| - 1], q);
    }
  }

  /** It is the option of flowop j of transaction i if that is the first accept on the protocol, and -1 if
      there is none, at i = |ts|. */
  lemma {:induction false} GroupPortIsFirst(ts: seq<Txn>, q: nat, i: nat, j: nat)
    requires i <= |ts| && (i == |ts| ==> j == 0) && (i < |ts| ==> j < |ts[i].flist| && AcceptOn(ts[i].flist[j], q))
    requires forall k, l :: 0 <= k < |ts| && 0 <= l < |ts[k].flist| && (k < i || (k == i && l < j)) ==>
               !AcceptOn(ts[k].flist[l], q)
    ensures GroupPort(ts, q) == if i < |ts| then ts[i].flist[j].io.port else -1
  {
    if ts != [] {
      var m := |ts| - 1;
      var fs := ts[m].flist;
      if i < m {
        GroupPortIsFirst(ts[..m], q, i, j);
        PortFromStays(GroupPort(ts[..m], q), fs, q);
      } else {
        GroupPortIsFirst(ts[..m], q, m, 0);
        PortFromFirst(-1, fs, q, if i == m then j else |fs|);
      }
    }
  }

  function PortsFrom(before: seq<int>, fs: seq<Flowop>): (r: seq<int>)
    ensures |r| == |before| && forall q :: 0 <= q < |r| ==> r[q] == PortFrom(before[q], fs, q)
  {
    seq(|before|, q requires 0 <= q < |before| => PortFrom(before[q], fs, q))
  }

  function GroupPorts(ts: seq<Txn>): (r: seq<int>)
    ensures |r| == NUM_PROTOCOLS && forall q :: 0 <= q < NUM_PROTOCOLS ==> r[q] == GroupPort(ts, q)
  {
    seq(NUM_PROTOCOLS, q requires 0 <= q < NUM_PROTOCOLS => GroupPort(ts, q))
  }

  lemma GroupPortsNext(ts: seq<Txn>, i: nat)
    requires i < |ts|
    ensures GroupPorts(ts[..i + 1]) == PortsFrom(GroupPorts(ts[..i]), ts[i].flist)
  {
    assert ts[..i + 1][..i] == ts[..i];
  }

  /** The strands of the block listen as asked for, protocol by protocol, and for nothing else. */
  ghost predicate AsAsked(listen: seq<seq<Listener>>, ssid: nat, n: nat, t: seq<Info>, want: seq<int>) {
    forall q :: 0 <= q < |want| ==> AskedOn(listen, ssid, n, t, q, want[q])
  }

  ghost predicate AskedOn(listen: seq<seq<Listener>>, ssid: nat, n: nat, t: seq<Info>, q: nat, want: int) {
    ListenAs(listen, ssid, n, q, want) && (want >= 0 <==> ServesOne(t, q))
  }

  /** After an accept, whose protocol was open already or has been opened for it. */
  lemma AskedMore(was: seq<seq<Listener>>, now: seq<seq<Listener>>, ssid: nat, sl: seq<Info>, t: seq<Info>,
                  before: seq<int>, fs: seq<Flowop>, f: Flowop)
    requires |before| == NUM_PROTOCOLS && AsAsked(was, ssid, |sl|, sl, PortsFrom(before, fs))
    requires f.kind == FLOWOP_ACCEPT && f.io.protocol < NUM_PROTOCOLS && |sl| > 0
    requires forall i :: 0 <= i < |sl| ==> |sl[i].ports| == NUM_PROTOCOLS
    requires sl[0].ports[f.io.protocol] > 0 ==> t == sl && now == was
    requires sl[0].ports[f.io.protocol] == 0 ==>
               OpenedFor(was, sl, now, t, ssid, f.io.protocol) &&
               ListenAs(now, ssid, |sl|, f.io.protocol, f.io.port)
    ensures AsAsked(now, ssid, |sl|, t, PortsFrom(before, fs + [f]))
  {
    assert (fs + [f])[..|fs|] == fs;
    var p := f.io.protocol;
    forall q | 0 <= q < NUM_PROTOCOLS
      ensures AskedOn(now, ssid, |sl|, t, q, PortFrom(before[q], fs + [f], q))
    {
      assert AskedOn(was, ssid, |sl|, sl, q, PortsFrom(before, fs)[q]);
      if sl[0].ports[p] == 0 {
        assert OwnPort(was[ssid + 0], sl[0], now[ssid + 0], t[0], p);
        if q != p {
          OthersListenOn(was, sl, now, t, ssid, p, q, PortFrom(before[q], fs, q));
        }
      }
    }
  }

  /** A flowop that is no accept asks for nothing. */
  lemma NothingAsked(before: seq<int>, fs: seq<Flowop>, f: Flowop)
    requires f.kind != FLOWOP_ACCEPT
    ensures PortsFrom(before, fs + [f]) == PortsFrom(before, fs)
  {
    assert (fs + [f])[..|fs|] == fs;
  }

  lemma ExtendsTrans(a: seq<Info>, c: seq<Info>, h0: set<(nat, nat)>, h1: set<(nat, nat)>, h2: set<(nat, nat)>)
    requires Extends([], a, h0, h1) && Extends(a, c, h1, h2)
    ensures Extends([], c, h0, h2)
  {
    forall i, r | 0 <= i < |c| && 0 <= r < NUM_PROTOCOLS
      ensures PortExtends(r, c[i].ports[r], 0, h0, h2)
    {
      assert PortExtends(r, c[i].ports[r], if i < |a| then a[i].ports[r] else 0, h1, h2);
      if i < |a| {
        assert PortExtends(r, a[i].ports[r], 0, h0, h1);
      }
    }
  }

  lemma ExtendsMore(sl: seq<Info>, b: seq<Info>, t: seq<Info>, q: nat, h0: set<(nat, nat)>, h1: set<(nat, nat)>,
                    h2: set<(nat, nat)>)
    requires (Extends(sl, b, h0, h1) || (sl == [] && h0 <= h1 && b == ZeroTable(|b|))) &&
             OpensMore(b, t, q, h1, h2) && h1 <= h2
    ensures Extends(sl, t, h0, h2)
  {
    forall i, r | 0 <= i < |t| && 0 <= r < NUM_PROTOCOLS
      ensures PortExtends(r, t[i].ports[r], if i < |sl| then sl[i].ports[r] else 0, h0, h2)
    {
      if Extends(sl, b, h0, h1) {
        assert PortExtends(r, b[i].ports[r], if i < |sl| then sl[i].ports[r] else 0, h0, h1);
      }
    }
  }

  lemma ServesStill(b: seq<Info>, t: seq<Info>, fs: seq<Flowop>, had: set<(nat, nat)>, has: set<(nat, nat)>)
    requires Serves(b, fs) && Extends(b, t, had, has)
    ensures Serves(t, fs)
  {
    forall j | 0 <= j < |fs| && fs[j].kind == FLOWOP_ACCEPT
      ensures ServesOne(t, fs[j].io.protocol)
    {
      var q := fs[j].io.protocol;
      assert ServesOne(b, q);
      assert PortExtends(q, t[0].ports[q], b[0].ports[q], had, has);
    }
  }

  lemma ServesMore(b: seq<Info>, t: seq<Info>, fs: seq<Flowop>, q: nat, had: set<(nat, nat)>, has: set<(nat, nat)>)
    requires Serves(b, fs) || forall j :: 0 <= j < |fs| ==> fs[j].kind != FLOWOP_ACCEPT
    requires OpensMore(b, t, q, had, has)
    ensures Serves(t, fs) && ServesOne(t, q)
  {
    forall j | 0 <= j < |fs| && fs[j].kind == FLOWOP_ACCEPT
      ensures ServesOne(t, fs[j].io.protocol)
    {
      assert ServesOne(b, fs[j].io.protocol);
    }
  }

  // ---- Phase 2 with one slave, and with all slaves of a group ----

  /** A port table as it comes out at the other end, in either byte order: the master's is swapped
      by the slave that reads it, the slave's by the slave that sends it. */
  function FromMaster(from: Endian, to: Endian, t: seq<Info>): seq<Info> {
    SeenTable(from == to, DecTable(to, |t|, EncTable(from, t)))
  }

  function FromSlave(from: Endian, to: Endian, t: seq<Info>): seq<Info> {
    DecTable(from, |t|, EncTable(to, SwapTable(from != to, t)))
  }

  /** Strands of the block at `ssid` find, under the name `host`, the port where the strands of
      the other process listen for `q`. */
  ghost predicate Paired(slaves: seq<seq<Info>>, ssid: nat, host: seq<byte>, listen: seq<seq<Listener>>, at: nat,
                         n: nat, q: nat) {
    && ssid + n <= |slaves| && at + n <= |listen|
    && forall i :: 0 <= i < n ==> PairedStrand(slaves, ssid, host, listen, at, i, q)
  }

  ghost predicate PairedStrand(slaves: seq<seq<Info>>, ssid: nat, host: seq<byte>, listen: seq<seq<Listener>>,
                               at: nat, i: nat, q: nat)
    requires ssid + i < |slaves| && at + i < |listen|
  {
    var l := listen[at + i];
    q < |l| && l[q].Listening? && PortOf(slaves[ssid + i], host, q) == l[q].port > 0
  }

  predicate ProtocolKnown(f: Flowop) {
    f.kind == FLOWOP_ACCEPT || f.kind == FLOWOP_CONNECT ==> f.io.protocol < NUM_PROTOCOLS
  }

  /** The group as the slave on `host` works with it. */
  function SlaveGroup(g: Group, host: seq<byte>, same: bool, peer: seq<byte>): Group {
    ArrivedGroup(same, peer, ForSlave(g, host))
  }

  ghost predicate ConnectsTo(g: Group, host: seq<byte>, q: nat) {
    exists i, j :: 0 <= i < |g.tlist| && 0 <= j < |g.tlist[i].flist| && ConnectFor(g.tlist[i].flist[j], host, q)
  }

  predicate ConnectFor(f: Flowop, host: seq<byte>, q: nat) {
    f.kind == FLOWOP_CONNECT && f.text.remotehost == host && f.io.protocol == q
  }

  ghost predicate AcceptsOn(g: Group, q: nat) {
    exists i, j :: 0 <= i < |g.tlist| && 0 <= j < |g.tlist[i].flist| && AcceptOn(g.tlist[i].flist[j], q)
  }

  predicate AcceptOn(f: Flowop, q: nat) { f.kind == FLOWOP_ACCEPT && f.io.protocol == q }

  function OnSlave(f: Flowop, host: seq<byte>, same: bool, peer: seq<byte>): Flowop {
    Arrived(same, peer, NopFor(host, Resize(OppositeFlowop(f))))
  }

  lemma SlaveGroupFlowops(g: Group, host: seq<byte>, same: bool, peer: seq<byte>)
    ensures var s := SlaveGroup(g, host, same, peer);
            && s.hdr.nthreads == g.hdr.nthreads && |s.tlist| == |g.tlist|
            && forall i :: 0 <= i < |g.tlist| ==> |s.tlist[i].flist| == |g.tlist[i].flist|
    ensures var s := SlaveGroup(g, host, same, peer);
            forall i, j :: 0 <= i < |g.tlist| && 0 <= j < |g.tlist[i].flist| ==>
              s.tlist[i].flist[j] == OnSlave(g.tlist[i].flist[j], host, same, peer)
  {
  }

  /** A connect to this slave is an accept there; an accept for it, on the master, is a connect
      there to the peer of its control connection, unless the master names its own host. */
  lemma TurnedAround(f: Flowop, host: seq<byte>, same: bool, peer: seq<byte>)
    ensures var s := OnSlave(f, host, same, peer);
            && s.io.protocol == f.io.protocol && s.io.port == f.io.port
            && (s.kind == FLOWOP_ACCEPT <==>
                  f.kind == FLOWOP_CONNECT && (f.text.remotehost == [] || f.text.remotehost == host))
            && (s.kind == FLOWOP_CONNECT <==>
                  f.kind == FLOWOP_ACCEPT && (f.text.remotehost == [] || f.text.remotehost == host))
            && s.text.remotehost == (if f.text.localhost == [] then peer else f.text.localhost)
            && s.text.localhost == (if f.text.localhost == [] then [] else f.text.remotehost)
  {
  }

  lemma SlaveGroupKnown(g: Group, host: seq<byte>, same: bool, peer: seq<byte>)
    requires Every(g, f => ProtocolKnown(f))
    ensures Every(SlaveGroup(g, host, same, peer), f => AcceptsKnown(f))
  {
    SlaveGroupFlowops(g, host, same, peer);
    forall i, j | 0 <= i < |g.tlist| && 0 <= j < |g.tlist[i].flist|
      ensures AcceptsKnown(OnSlave(g.tlist[i].flist[j], host, same, peer))
    {
      assert ProtocolKnown(g.tlist[i].flist[j]);
      TurnedAround(g.tlist[i].flist[j], host, same, peer);
    }
  }

  predicate ConnectFrom(f: Flowop, host: seq<byte>, q: nat) {
    f.kind == FLOWOP_CONNECT && (f.text.remotehost == [] || f.text.remotehost == host) && f.io.protocol == q
  }

  /** What the slave on `host` opens for a protocol is the option of the master's first connect to it on
      that protocol, and nothing if there is none, at i = |g.tlist|. */
  lemma SlavePortIsFirst(g: Group, host: seq<byte>, same: bool, peer: seq<byte>, q: nat, i: nat, j: nat)
    requires i <= |g.tlist| && (i == |g.tlist| ==> j == 0)
    requires i < |g.tlist| ==> j < |g.tlist[i].flist| && ConnectFrom(g.tlist[i].flist[j], host, q)
    requires forall k, l :: 0 <= k < |g.tlist| && 0 <= l < |g.tlist[k].flist| && (k < i || (k == i && l < j)) ==>
               !ConnectFrom(g.tlist[k].flist[l], host, q)
    ensures GroupPort(SlaveGroup(g, host, same, peer).tlist, q)
         == if i < |g.tlist| then g.tlist[i].flist[j].io.port else -1
  {
    SlaveGroupFlowops(g, host, same, peer);
    var ts := SlaveGroup(g, host, same, peer).tlist;
    forall k, l | 0 <= k < |ts| && 0 <= l < |ts[k].flist|
      ensures AcceptOn(ts[k].flist[l], q) <==> ConnectFrom(g.tlist[k].flist[l], host, q)
      ensures ts[k].flist[l].io.port == g.tlist[k].flist[l].io.port
    {
      TurnedAround(g.tlist[k].flist[l], host, same, peer);
    }
    GroupPortIsFirst(ts, q, i, j);
  }

  /** A port that is asked for is the one the other side finds. */
  lemma FixedPortIsFound(known: seq<seq<Info>>, ssid: nat, host: seq<byte>, listen: seq<seq<Listener>>, at: nat,
                         n: nat, q: nat, want: nat)
    requires Paired(known, ssid, host, listen, at, n, q) && ListenAs(listen, at, n, q, want) && Wanted(want) != 0
    ensures forall k :: ssid <= k < ssid + n ==> PortOf(known[k], host, q) == Wanted(want)
  {
    forall k | ssid <= k < ssid + n
      ensures PortOf(known[k], host, q) == Wanted(want)
    {
      assert PairedStrand(known, ssid, host, listen, at, k - ssid, q);
      assert Shares(listen[at + (k - ssid)], listen[at], q, Wanted(want));
    }
  }

  ghost predicate ServesAll(t: seq<Info>, g: Group) {
    forall i :: 0 <= i < |g.tlist| ==> Serves(t, g.tlist[i].flist)
  }

  lemma ConnectIsServed(g: Group, host: seq<byte>, same: bool, peer: seq<byte>, t: seq<Info>, q: nat)
    requires ServesAll(t, SlaveGroup(g, host, same, peer)) && ConnectsTo(g, host, q)
    ensures ServesOne(t, q)
  {
    SlaveGroupFlowops(g, host, same, peer);
    var i, j :| 0 <= i < |g.tlist| && 0 <= j < |g.tlist[i].flist| && ConnectFor(g.tlist[i].flist[j], host, q);
    TurnedAround(g.tlist[i].flist[j], host, same, peer);
    var fs := SlaveGroup(g, host, same, peer).tlist[i].flist;
    assert Serves(t, fs) && fs[j].kind == FLOWOP_ACCEPT && fs[j].io.protocol == q;
  }

  lemma AcceptIsServed(g: Group, t: seq<Info>, q: nat)
    requires ServesAll(t, g) && AcceptsOn(g, q)
    ensures ServesOne(t, q)
  {
    var i, j :| 0 <= i < |g.tlist| && 0 <= j < |g.tlist[i].flist| && AcceptOn(g.tlist[i].flist[j], q);
    assert Serves(t, g.tlist[i].flist);
  }

  /** Entry by entry: an honest table, remembered under a name, pairs. */
  lemma RememberedPairs(slaves: seq<seq<Info>>, ssid: nat, host: seq<byte>, listen: seq<seq<Listener>>, at: nat,
                        t: seq<Info>, q: nat)
    requires ServesOne(t, q) && Honest(listen, at, t) && ssid + |t| <= |slaves|
    requires forall i :: 0 <= i < |t| ==> |slaves[ssid + i]| > 0 && slaves[ssid + i][0] == t[i].(host := host)
    ensures Paired(slaves, ssid, host, listen, at, |t|, q)
  {
    forall i | 0 <= i < |t|
      ensures PairedStrand(slaves, ssid, host, listen, at, i, q)
    {
      assert HonestAt(listen[at + i][q], t[i].ports[q], t[0].ports[q]);
    }
  }

  lemma HonestFits(listen: seq<seq<Listener>>, at: nat, t: seq<Info>)
    requires Honest(listen, at, t) && forall i :: 0 <= i < |t| ==> t[i].host == []
    ensures forall i :: 0 <= i < |t| ==> InfoFits(t[i])
  {
    Pow256Of8();
    forall i | 0 <= i < |t|
      ensures InfoFits(t[i])
    {
      forall q | 0 <= q < NUM_PROTOCOLS
        ensures t[i].ports[q] < Pow256(4)
      {
        assert HonestAt(listen[at + i][q], t[i].ports[q], t[0].ports[q]);
      }
      assert forall k :: 0 <= k < 9 ==> FieldFits(InfoFields(t[i])[k]);
    }
  }

  /** A strand's list of ports, with an entry for another name in front of it, gives the same port. */
  lemma OtherNamesStay(list: seq<Info>, e: Info, host: seq<byte>, q: nat)
    requires e.host != host
    ensures PortOf([e] + list, host, q) == PortOf(list, host, q)
  {
    assert ([e] + list)[1..] == list;
  }

  /** One side opens its listeners and tells the other, which knows the block as `at` and calls it `name`. */
  method OpenAndTell(opener: Host, told: Host, g: Group, ssid: nat, name: seq<byte>, at: nat, fromMaster: bool,
                     from: Endian, to: Endian) returns (ok: bool, ghost t: seq<Info>)
    requires opener != told && opener.Shaped() && told.Shaped() && g.hdr.nthreads > 0
    requires ssid + g.hdr.nthreads <= |opener.listen| && at + g.hdr.nthreads <= |told.listen|
    requires Every(g, f => AcceptsKnown(f))
    modifies opener`listen, opener`bound, opener`fds, opener`refused, told`slaves
    ensures opener.Shaped() && |opener.listen| == old(|opener.listen|) && old(opener.bound) <= opener.bound
    ensures told.Shaped() && (!ok ==> told.slaves == old(told.slaves))
    ensures ok ==> |t| == (if HasAccept(g) then g.hdr.nthreads else 0)
    ensures ok ==> Honest(opener.listen, ssid, t) && ServesAll(t, g) && Extends([], t, old(opener.bound), opener.bound)
    ensures ok ==> AsAsked(opener.listen, ssid, g.hdr.nthreads, t, GroupPorts(g.tlist))
    ensures ok ==> told.slaves == Told(old(told.slaves), t, name, at)
    ensures ok <==> opener.refused == old(opener.refused)
    ensures SameOutside(old(opener.listen), opener.listen, ssid, g.hdr.nthreads)
  {
    var table;
    ok, table := opener.PreprocessAccepts(g, ssid);
    t := table;
    if ok {
      TableCrosses(from, to, opener.listen, ssid, table);
      told.Learn(if fromMaster then FromMaster(from, to, table) else FromSlave(from, to, table), name, at);
    }
  }

  /** The tables of both sides in phase 2: listeners on the master, its table to the slave, listeners
      on the slave for its own group `theirs`, and the slave's table back. */
  method Exchange(master: Host, slave: Host, g: Group, theirs: Group, ssid: nat, host: seq<byte>, peer: seq<byte>,
                  from: Endian, to: Endian) returns (ok: bool, ghost mt: seq<Info>, ghost st: seq<Info>)
    requires master != slave && master.Shaped() && slave.Shaped() &&
             |slave.listen| == g.hdr.nthreads == theirs.hdr.nthreads > 0
    requires ssid + g.hdr.nthreads <= |master.listen| && Every(g, f => AcceptsKnown(f)) &&
             Every(theirs, f => AcceptsKnown(f))
    modifies master, slave
    ensures master.Shaped() && |master.listen| == old(|master.listen|) && old(master.bound) <= master.bound
    ensures slave.Shaped() && |slave.listen| == old(|slave.listen|)
    ensures ok ==> |mt| == (if HasAccept(g) then g.hdr.nthreads else 0)
    ensures ok ==> |st| == (if HasAccept(theirs) then g.hdr.nthreads else 0)
    ensures ok ==>
              Honest(master.listen, ssid, mt) && ServesAll(mt, g) && Extends([], mt, old(master.bound), master.bound)
    ensures ok ==> Honest(slave.listen, 0, st) && ServesAll(st, theirs)
    ensures ok ==> AsAsked(master.listen, ssid, g.hdr.nthreads, mt, GroupPorts(g.tlist))
    ensures ok ==> AsAsked(slave.listen, 0, g.hdr.nthreads, st, GroupPorts(theirs.tlist))
    ensures ok <==> master.refused == old(master.refused) && slave.refused == old(slave.refused)
    ensures ok ==> slave.slaves == Told(old(slave.slaves), mt, peer, 0)
    ensures ok ==> master.slaves == Told(old(master.slaves), st, host, ssid)
    ensures forall k :: 0 <= k < |master.listen| && !(ssid <= k < ssid + g.hdr.nthreads) ==>
              master.listen[k] == old(master.listen[k])
  {
    st := [];
    ok, mt := OpenAndTell(master, slave, g, ssid, peer, 0, true, from, to);
    if ok {
      ok, st := OpenAndTell(slave, master, theirs, 0, host, ssid, false, from, to);
    }
  }

  /** At most one new entry, for `host`, in front. */
  ghost predicate Remembers(was: seq<Info>, now: seq<Info>, host: seq<byte>) {
    now == was || (|now| > 0 && now[0].host == host && now[1..] == was)
  }

  /** The listeners of the block are on ports the host did not have before. */
  ghost predicate NewPorts(listen: seq<seq<Listener>>, ssid: nat, n: nat, q: nat, had: set<(nat, nat)>,
                           has: set<(nat, nat)>) {
    && ssid + n <= |listen|
    && forall k :: ssid <= k < ssid + n ==> NewPort(listen[k], q, had, has)
  }

  predicate NewPort(l: seq<Listener>, q: nat, had: set<(nat, nat)>, has: set<(nat, nat)>) {
    q < |l| && l[q].Listening? && (q, l[q].port) !in had && (q, l[q].port) in has
  }

  lemma TableCrosses(from: Endian, to: Endian, listen: seq<seq<Listener>>, at: nat, t: seq<Info>)
    requires Honest(listen, at, t) && forall i :: 0 <= i < |t| ==> t[i].host == []
    ensures FromMaster(from, to, t) == t && FromSlave(from, to, t) == t
  {
    HonestFits(listen, at, t);
    SwappedTableArrives(from, to, t);
    SwapOpenedIsSeen(from != to, t);
    assert !(from != to) == (from == to);
  }

  /** The strands that are told an honest table find their ports in it. */
  lemma ToldPairs(was: seq<seq<Info>>, ssid: nat, host: seq<byte>, listen: seq<seq<Listener>>, at: nat, t: seq<Info>,
                  n: nat, q: nat)
    requires |t| <= n && (t != [] ==> |t| == n) && ssid + n <= |was|
    requires Honest(listen, at, t) && ServesOne(t, q)
    ensures Paired(Told(was, t, host, ssid), ssid, host, listen, at, n, q)
  {
    RememberedPairs(Told(was, t, host, ssid), ssid, host, listen, at, t, q);
  }

  lemma AcceptsAreNew(g: Group, ssid: nat, listen: seq<seq<Listener>>, mt: seq<Info>, n: nat, q: nat,
                      had: set<(nat, nat)>, has: set<(nat, nat)>)
    requires |mt| <= n && (mt != [] ==> |mt| == n)
    requires Honest(listen, ssid, mt) && ServesAll(mt, g) && AcceptsOn(g, q) && Extends([], mt, had, has)
    ensures NewPorts(listen, ssid, n, q, had, has)
  {
    AcceptIsServed(g, mt, q);
    forall k | ssid <= k < ssid + n
      ensures NewPort(listen[k], q, had, has)
    {
      assert HonestAt(listen[ssid + (k - ssid)][q], mt[k - ssid].ports[q], mt[0].ports[q]);
      assert PortExtends(q, mt[k - ssid].ports[q], 0, had, has);
    }
  }

  /** The strands of the block listen for the accepts of the group, each protocol on the port of the first. */
  ghost predicate ListenFor(listen: seq<seq<Listener>>, at: nat, g: Group) {
    forall q :: 0 <= q < NUM_PROTOCOLS ==> ListenAs(listen, at, g.hdr.nthreads, q, GroupPort(g.tlist, q))
  }

  lemma AskedListens(listen: seq<seq<Listener>>, at: nat, t: seq<Info>, g: Group)
    requires AsAsked(listen, at, g.hdr.nthreads, t, GroupPorts(g.tlist))
    ensures ListenFor(listen, at, g)
  {
    forall q | 0 <= q < NUM_PROTOCOLS
      ensures ListenAs(listen, at, g.hdr.nthreads, q, GroupPort(g.tlist, q))
    {
      assert AskedOn(listen, at, g.hdr.nthreads, t, q, GroupPorts(g.tlist)[q]);
    }
  }

  /** After phase 2 with the slave on `host`: each master strand of the group finds, under that
      name, the port where the slave's strand of the same number listens for any protocol the
      group connects to it with; and the slave's strands find, under the master's name, where the
      master's strands listen for its accepts. */
  method PhaseTwo(master: Host, slave: Host, g: Group, ssid: nat, host: seq<byte>, peer: seq<byte>, from: Endian,
                  to: Endian)
    returns (ok: bool)
    requires master != slave && master.Shaped() && slave.Shaped() && |slave.listen| == g.hdr.nthreads > 0
    requires ssid + g.hdr.nthreads <= |master.listen| && Every(g, f => ProtocolKnown(f))
    modifies master, slave
    ensures master.Shaped() && |master.listen| == old(|master.listen|) && old(master.bound) <= master.bound
    ensures slave.Shaped() && |slave.listen| == old(|slave.listen|)
    ensures ok ==> forall q :: ConnectsTo(g, host, q) ==>
              Paired(master.slaves, ssid, host, slave.listen, 0, g.hdr.nthreads, q)
    ensures ok ==> forall q :: AcceptsOn(g, q) ==> Paired(slave.slaves, 0, peer, master.listen, ssid, g.hdr.nthreads, q)
    ensures ok ==> forall q :: AcceptsOn(g, q) ==>
              NewPorts(master.listen, ssid, g.hdr.nthreads, q, old(master.bound), master.bound)
    ensures ok ==> Remember(old(master.slaves), master.slaves, ssid, g.hdr.nthreads, host)
    ensures ok ==> ListenFor(master.listen, ssid, g)
    ensures ok ==> ListenFor(slave.listen, 0, SlaveGroup(g, host, from == to, peer))
    ensures ok <==> master.refused == old(master.refused) && slave.refused == old(slave.refused)
    ensures forall k :: 0 <= k < |master.listen| && !(ssid <= k < ssid + g.hdr.nthreads) ==>
              master.listen[k] == old(master.listen[k])
  {
    var n, theirs := g.hdr.nthreads, SlaveGroup(g, host, from == to, peer);
    assert Every(g, f => AcceptsKnown(f)) by {
      assert forall f :: ProtocolKnown(f) ==> AcceptsKnown(f);
    }
    SlaveGroupFlowops(g, host, from == to, peer);
    SlaveGroupKnown(g, host, from == to, peer);
    ghost var mine, other, mt, st := master.slaves, slave.slaves, [], [];
    ok, mt, st := Exchange(master, slave, g, theirs, ssid, host, peer, from, to);
    if ok {
      AskedListens(master.listen, ssid, mt, g);
      AskedListens(slave.listen, 0, st, theirs);
      forall q | ConnectsTo(g, host, q)
        ensures Paired(master.slaves, ssid, host, slave.listen, 0, n, q)
      {
        ConnectIsServed(g, host, from == to, peer, st, q);
        ToldPairs(mine, ssid, host, slave.listen, 0, st, n, q);
      }
      forall q | AcceptsOn(g, q)
        ensures Paired(slave.slaves, 0, peer, master.listen, ssid, n, q)
        ensures NewPorts(master.listen, ssid, n, q, old(master.bound), master.bound)
      {
        AcceptIsServed(g, mt, q);
        ToldPairs(other, 0, peer, master.listen, ssid, mt, n, q);
        AcceptsAreNew(g, ssid, master.listen, mt, n, q, old(master.bound), master.bound);
      }
      ToldRemembers(mine, st, host, ssid, n);
    }
  }

  /** The strands of the block have at most one new entry, for `host`, the others none. */
  ghost predicate Remember(was: seq<seq<Info>>, now: seq<seq<Info>>, ssid: nat, n: nat, host: seq<byte>) {
    && |now| == |was|
    && forall k :: 0 <= k < |was| ==> now[k] == was[k] || (ssid <= k < ssid + n && Remembers(was[k], now[k], host))
  }

  lemma ToldRemembers(was: seq<seq<Info>>, st: seq<Info>, host: seq<byte>, ssid: nat, n: nat)
    requires |st| <= n
    ensures Remember(was, Told(was, st, host, ssid), ssid, n, host)
  {
    var now := Told(was, st, host, ssid);
    forall k | 0 <= k < |was| && ssid <= k < ssid + |st|
      ensures Remembers(was[k], now[k], host)
    {
      assert now[k][1..] == was[k];
    }
  }

  lemma PairedStays(was: seq<seq<Info>>, now: seq<seq<Info>>, ssid: nat, n: nat, host: seq<byte>, other: seq<byte>,
                    listen: seq<seq<Listener>>, q: nat)
    requires Remember(was, now, ssid, n, other) && host != other && Paired(was, ssid, host, listen, 0, n, q)
    ensures Paired(now, ssid, host, listen, 0, n, q)
  {
    forall i | 0 <= i < n
      ensures PairedStrand(now, ssid, host, listen, 0, i, q)
    {
      assert PairedStrand(was, ssid, host, listen, 0, i, q);
      if now[ssid + i] != was[ssid + i] {
        assert now[ssid + i] == [now[ssid + i][0]] + was[ssid + i];
        OtherNamesStay(was[ssid + i], now[ssid + i][0], host, q);
      }
    }
  }

  /** The ports a slave was told are ones the master has bound. */
  ghost predicate ToldBound(slaves: seq<seq<Info>>, peer: seq<byte>, n: nat, q: nat, bound: set<(nat, nat)>) {
    && n <= |slaves|
    && forall i :: 0 <= i < n ==> PortOf(slaves[i], peer, q) > 0 && (q, PortOf(slaves[i], peer, q)) in bound
  }

  /** No strand of the slave knows where the master's strand listens now. */
  ghost predicate Misled(slaves: seq<seq<Info>>, peer: seq<byte>, listen: seq<seq<Listener>>, ssid: nat, n: nat,
                         q: nat) {
    && n <= |slaves| && ssid + n <= |listen|
    && forall i :: 0 <= i < n ==> MisledStrand(slaves, peer, listen, ssid, i, q)
  }

  ghost predicate MisledStrand(slaves: seq<seq<Info>>, peer: seq<byte>, listen: seq<seq<Listener>>, ssid: nat,
                               i: nat, q: nat)
    requires i < |slaves| && ssid + i < |listen|
  {
    var l := listen[ssid + i];
    q < |l| && l[q].Listening? && PortOf(slaves[i], peer, q) != l[q].port
  }

  lemma NewPortsMislead(slaves: seq<seq<Info>>, peer: seq<byte>, listen: seq<seq<Listener>>, ssid: nat, n: nat, q: nat,
                        had: set<(nat, nat)>, has: set<(nat, nat)>)
    requires ToldBound(slaves, peer, n, q, had) && NewPorts(listen, ssid, n, q, had, has)
    ensures Misled(slaves, peer, listen, ssid, n, q)
  {
    forall i | 0 <= i < n
      ensures MisledStrand(slaves, peer, listen, ssid, i, q)
    {
      assert NewPort(listen[ssid + i], q, had, has);
    }
  }

  lemma PairedIsBound(slaves: seq<seq<Info>>, peer: seq<byte>, listen: seq<seq<Listener>>, ssid: nat, n: nat, q: nat,
                      had: set<(nat, nat)>, has: set<(nat, nat)>)
    requires Paired(slaves, 0, peer, listen, ssid, n, q) && NewPorts(listen, ssid, n, q, had, has)
    ensures ToldBound(slaves, peer, n, q, has)
  {
    forall i | 0 <= i < n
      ensures PortOf(slaves[i], peer, q) > 0 && (q, PortOf(slaves[i], peer, q)) in has
    {
      assert PairedStrand(slaves, 0, peer, listen, ssid, i, q) && NewPort(listen[ssid + i], q, had, has);
    }
  }

  lemma MisledIsNotPaired(slaves: seq<seq<Info>>, peer: seq<byte>, listen: seq<seq<Listener>>, ssid: nat, n: nat,
                          q: nat)
    requires n > 0 && Misled(slaves, peer, listen, ssid, n, q)
    ensures !Paired(slaves, 0, peer, listen, ssid, n, q)
  {
    assert MisledStrand(slaves, peer, listen, ssid, 0, q);
    assert !PairedStrand(slaves, 0, peer, listen, ssid, 0, q);
  }

  /** What the strands of a group and those of one of its slaves know of each other's listeners:
      connects to the slave find their port; the slave's connects to the master do exactly if `last`,
      and otherwise each of its strands knows a port the master has bound but does not listen on. */
  ghost predicate Met(known: seq<seq<Info>>, listen: seq<seq<Listener>>, bound: set<(nat, nat)>,
                      theirs: seq<seq<Info>>, there: seq<seq<Listener>>, g: Group, host: seq<byte>, peer: seq<byte>,
                      ssid: nat, last: bool) {
    var n := g.hdr.nthreads;
    && (forall q :: ConnectsTo(g, host, q) ==> Paired(known, ssid, host, there, 0, n, q))
    && (forall q :: AcceptsOn(g, q) ==>
          && (Paired(theirs, 0, peer, listen, ssid, n, q) <==> last)
          && (!last ==> Misled(theirs, peer, listen, ssid, n, q))
          && ToldBound(theirs, peer, n, q, bound))
  }

  /** After phase 2 with another slave of the group. */
  lemma NoLongerLast(known: seq<seq<Info>>, listen: seq<seq<Listener>>, bound: set<(nat, nat)>,
                     known': seq<seq<Info>>, listen': seq<seq<Listener>>, bound': set<(nat, nat)>,
                     theirs: seq<seq<Info>>, there: seq<seq<Listener>>, g: Group, host: seq<byte>, peer: seq<byte>,
                     ssid: nat, last: bool, other: seq<byte>)
    requires g.hdr.nthreads > 0 && Met(known, listen, bound, theirs, there, g, host, peer, ssid, last)
    requires Remember(known, known', ssid, g.hdr.nthreads, other) && host != other && bound <= bound'
    requires forall q :: AcceptsOn(g, q) ==> NewPorts(listen', ssid, g.hdr.nthreads, q, bound, bound')
    ensures Met(known', listen', bound', theirs, there, g, host, peer, ssid, false)
  {
    var n := g.hdr.nthreads;
    forall q | ConnectsTo(g, host, q)
      ensures Paired(known', ssid, host, there, 0, n, q)
    {
      PairedStays(known, known', ssid, n, host, other, there, q);
    }
    forall q | AcceptsOn(g, q)
      ensures Misled(theirs, peer, listen', ssid, n, q) && !Paired(theirs, 0, peer, listen', ssid, n, q)
      ensures ToldBound(theirs, peer, n, q, bound')
    {
      NewPortsMislead(theirs, peer, listen', ssid, n, q, bound, bound');
      MisledIsNotPaired(theirs, peer, listen', ssid, n, q);
    }
  }

  ghost predicate SameOutside<T>(was: seq<T>, now: seq<T>, ssid: nat, n: nat) {
    |now| == |was| && forall k :: 0 <= k < |was| && !(ssid <= k < ssid + n) ==> now[k] == was[k]
  }

  /** What the strands of one block have found does not depend on other blocks. */
  lemma MetStays(known: seq<seq<Info>>, listen: seq<seq<Listener>>, bound: set<(nat, nat)>, known': seq<seq<Info>>,
                 listen': seq<seq<Listener>>, bound': set<(nat, nat)>, theirs: seq<seq<Info>>,
                 there: seq<seq<Listener>>, g: Group, host: seq<byte>, peer: seq<byte>, ssid: nat, last: bool,
                 at: nat, n: nat)
    requires Met(known, listen, bound, theirs, there, g, host, peer, ssid, last)
    requires SameOutside(known, known', at, n) && SameOutside(listen, listen', at, n) && bound <= bound'
    requires ssid + g.hdr.nthreads <= at
    ensures Met(known', listen', bound', theirs, there, g, host, peer, ssid, last)
  {
    var m := g.hdr.nthreads;
    forall q | ConnectsTo(g, host, q)
      ensures Paired(known', ssid, host, there, 0, m, q)
    {
      PairedHere(known, known', ssid, host, there, m, q, at, n);
    }
    forall q | AcceptsOn(g, q)
      ensures Paired(theirs, 0, peer, listen', ssid, m, q) <==> last
      ensures !last ==> Misled(theirs, peer, listen', ssid, m, q)
    {
      PairedElsewhere(theirs, peer, listen, listen', ssid, m, q, at, n);
    }
  }

  lemma PairedHere(known: seq<seq<Info>>, known': seq<seq<Info>>, ssid: nat, host: seq<byte>,
                   there: seq<seq<Listener>>, m: nat, q: nat, at: nat, n: nat)
    requires SameOutside(known, known', at, n) && ssid + m <= at && Paired(known, ssid, host, there, 0, m, q)
    ensures Paired(known', ssid, host, there, 0, m, q)
  {
    forall i | 0 <= i < m
      ensures PairedStrand(known', ssid, host, there, 0, i, q)
    {
      assert PairedStrand(known, ssid, host, there, 0, i, q) && known[ssid + i] == known'[ssid + i];
    }
  }

  lemma PairedElsewhere(theirs: seq<seq<Info>>, peer: seq<byte>, listen: seq<seq<Listener>>,
                        listen': seq<seq<Listener>>, ssid: nat, m: nat, q: nat, at: nat, n: nat)
    requires SameOutside(listen, listen', at, n) && ssid + m <= at
    ensures Paired(theirs, 0, peer, listen, ssid, m, q) <==> Paired(theirs, 0, peer, listen', ssid, m, q)
    ensures Misled(theirs, peer, listen, ssid, m, q) ==> Misled(theirs, peer, listen', ssid, m, q)
  {
    if m <= |theirs| && ssid + m <= |listen| {
      forall i | 0 <= i < m
        ensures PairedStrand(theirs, 0, peer, listen, ssid, i, q) == PairedStrand(theirs, 0, peer, listen', ssid, i, q)
        ensures MisledStrand(theirs, peer, listen, ssid, i, q) == MisledStrand(theirs, peer, listen', ssid, i, q)
      {
        assert listen[ssid + i] == listen'[ssid + i];
      }
    }
  }

  /** One group with its control connections: the slave process at the other end of each, the name
      the master calls it by, its byte order, and the master's name there. */
  datatype Job = Job(g: Group, slaves: seq<Host>, hosts: seq<seq<byte>>, ends: seq<Endian>, peers: seq<seq<byte>>)

  /** Each control connection has a slave process and a name of its own within the group. */
  ghost predicate WellFormed(job: Job) {
    && |job.slaves| == |job.hosts| == |job.ends| == |job.peers| && job.g.hdr.nthreads > 0
    && Every(job.g, f => ProtocolKnown(f))
    && (forall k, l :: 0 <= k < l < |job.slaves| ==> job.slaves[k] != job.slaves[l])
    && (forall k, l :: 0 <= k < l < |job.slaves| ==> job.hosts[k] != job.hosts[l])
  }

  /** The slave processes have the group's strands. */
  ghost predicate Ready(job: Job)
    reads job.slaves
  {
    forall k :: 0 <= k < |job.slaves| ==> job.slaves[k].Shaped() && |job.slaves[k].listen| == job.g.hdr.nthreads
  }

  /** The first `i` control connections of a group are served; of the slaves that are to connect to
      the master the last one does, and no other. */
  ghost predicate GroupMet(known: seq<seq<Info>>, listen: seq<seq<Listener>>, bound: set<(nat, nat)>, job: Job,
                           ssid: nat, i: nat)
    requires i <= |job.slaves| == |job.hosts| == |job.peers|
    reads job.slaves[..i]
  {
    forall k :: 0 <= k < i ==>
      Met(known, listen, bound, job.slaves[k].slaves, job.slaves[k].listen, job.g, job.hosts[k], job.peers[k], ssid,
          k == i - 1)
  }

  lemma GroupMetMore(known: seq<seq<Info>>, listen: seq<seq<Listener>>, bound: set<(nat, nat)>,
                     known': seq<seq<Info>>, listen': seq<seq<Listener>>, bound': set<(nat, nat)>, job: Job,
                     ssid: nat, i: nat)
    requires WellFormed(job) && i < |job.slaves| && GroupMet(known, listen, bound, job, ssid, i)
    requires Remember(known, known', ssid, job.g.hdr.nthreads, job.hosts[i]) && bound <= bound'
    requires forall q :: AcceptsOn(job.g, q) ==> NewPorts(listen', ssid, job.g.hdr.nthreads, q, bound, bound')
    requires Met(known', listen', bound', job.slaves[i].slaves, job.slaves[i].listen, job.g, job.hosts[i],
                 job.peers[i], ssid, true)
    ensures GroupMet(known', listen', bound', job, ssid, i + 1)
  {
    forall k | 0 <= k < i
      ensures Met(known', listen', bound', job.slaves[k].slaves, job.slaves[k].listen, job.g, job.hosts[k],
                  job.peers[k], ssid, false)
    {
      NoLongerLast(known, listen, bound, known', listen', bound', job.slaves[k].slaves, job.slaves[k].listen, job.g,
                   job.hosts[k], job.peers[k], ssid, k == i - 1, job.hosts[i]);
    }
  }

  lemma MetNow(known: seq<seq<Info>>, listen: seq<seq<Listener>>, had: set<(nat, nat)>, bound: set<(nat, nat)>,
               theirs: seq<seq<Info>>, there: seq<seq<Listener>>, g: Group, host: seq<byte>, peer: seq<byte>,
               ssid: nat)
    requires forall q :: ConnectsTo(g, host, q) ==> Paired(known, ssid, host, there, 0, g.hdr.nthreads, q)
    requires forall q :: AcceptsOn(g, q) ==> Paired(theirs, 0, peer, listen, ssid, g.hdr.nthreads, q)
    requires forall q :: AcceptsOn(g, q) ==> NewPorts(listen, ssid, g.hdr.nthreads, q, had, bound)
    ensures Met(known, listen, bound, theirs, there, g, host, peer, ssid, true)
  {
    forall q | AcceptsOn(g, q)
      ensures ToldBound(theirs, peer, g.hdr.nthreads, q, bound)
    {
      PairedIsBound(theirs, peer, listen, ssid, g.hdr.nthreads, q, had, bound);
    }
  }

  /** The next control connection of a group. */
  method PhaseTwoNext(master: Host, job: Job, i: nat, ssid: nat, from: Endian) returns (ok: bool)
    requires master.Shaped() && WellFormed(job) && i < |job.slaves| && master !in job.slaves
    requires job.slaves[i].Shaped() && |job.slaves[i].listen| == job.g.hdr.nthreads
    requires ssid + job.g.hdr.nthreads <= |master.listen|
    requires GroupMet(master.slaves, master.listen, master.bound, job, ssid, i)
    modifies master, job.slaves[i]
    ensures master.Shaped() && old(master.bound) <= master.bound
    ensures job.slaves[i].Shaped() && |job.slaves[i].listen| == job.g.hdr.nthreads
    ensures ok ==> GroupMet(master.slaves, master.listen, master.bound, job, ssid, i + 1)
    ensures ok <==> master.refused == old(master.refused) && job.slaves[i].refused == old(job.slaves[i].refused)
    ensures SameOutside(old(master.listen), master.listen, ssid, job.g.hdr.nthreads)
    ensures ok ==> SameOutside(old(master.slaves), master.slaves, ssid, job.g.hdr.nthreads)
  {
    ghost var known, listen, bound := master.slaves, master.listen, master.bound;
    ok := PhaseTwo(master, job.slaves[i], job.g, ssid, job.hosts[i], job.peers[i], from, job.ends[i]);
    if ok {
      MetNow(master.slaves, master.listen, bound, master.bound, job.slaves[i].slaves, job.slaves[i].listen, job.g,
             job.hosts[i], job.peers[i], ssid);
      GroupMetMore(known, listen, bound, master.slaves, master.listen, master.bound, job, ssid, i);
    }
  }

  /** handshake_phase2 over the control connections of one group.  The listeners for the master's
      accepts are opened anew for every slave and replace the ones before, so connects to all slaves
      find their port, but of the slaves that are to connect to the master only the last does. */
  method PhaseTwoGroup(master: Host, job: Job, ssid: nat, from: Endian) returns (ok: bool)
    requires master.Shaped() && WellFormed(job) && Ready(job) && master !in job.slaves
    requires ssid + job.g.hdr.nthreads <= |master.listen|
    modifies master, job.slaves
    ensures master.Shaped() && old(master.bound) <= master.bound && Ready(job)
    ensures ok ==> GroupMet(master.slaves, master.listen, master.bound, job, ssid, |job.slaves|)
    ensures ok <==> master.refused == old(master.refused) && forall h :: h in job.slaves ==> h.refused == old(h.refused)
    ensures SameOutside(old(master.listen), master.listen, ssid, job.g.hdr.nthreads)
    ensures ok ==> SameOutside(old(master.slaves), master.slaves, ssid, job.g.hdr.nthreads)
  {
    ok := true;
    for i := 0 to |job.slaves|
      invariant ok && master.Shaped() && old(master.bound) <= master.bound && Ready(job)
      invariant SameOutside(old(master.listen), master.listen, ssid, job.g.hdr.nthreads)
      invariant SameOutside(old(master.slaves), master.slaves, ssid, job.g.hdr.nthreads)
      invariant GroupMet(master.slaves, master.listen, master.bound, job, ssid, i)
      invariant master.refused == old(master.refused) && forall h :: h in job.slaves ==> h.refused == old(h.refused)
    {
      ok := PhaseTwoNext(master, job, i, ssid, from);
      if !ok {
        return;
      }
    }
  }

  function Strands(jobs: seq<Job>): seq<nat> { seq(|jobs|, i requires 0 <= i < |jobs| => jobs[i].g.hdr.nthreads) }

  ghost predicate AllMet(known: seq<seq<Info>>, listen: seq<seq<Listener>>, bound: set<(nat, nat)>, job: Job,
                         ssid: nat)
    reads job.slaves
  {
    WellFormed(job) && GroupMet(known, listen, bound, job, ssid, |job.slaves|)
  }

  lemma AllMetStays(known: seq<seq<Info>>, listen: seq<seq<Listener>>, bound: set<(nat, nat)>,
                    known': seq<seq<Info>>, listen': seq<seq<Listener>>, bound': set<(nat, nat)>, job: Job,
                    ssid: nat, at: nat, n: nat)
    requires AllMet(known, listen, bound, job, ssid)
    requires SameOutside(known, known', at, n) && SameOutside(listen, listen', at, n) && bound <= bound'
    requires ssid + job.g.hdr.nthreads <= at
    ensures AllMet(known', listen', bound', job, ssid)
  {
    forall k | 0 <= k < |job.slaves|
      ensures Met(known', listen', bound', job.slaves[k].slaves, job.slaves[k].listen, job.g, job.hosts[k],
                  job.peers[k], ssid, k == |job.slaves| - 1)
    {
      MetStays(known, listen, bound, known', listen', bound', job.slaves[k].slaves, job.slaves[k].listen, job.g,
               job.hosts[k], job.peers[k], ssid, k == |job.slaves| - 1, at, n);
    }
  }

  ghost predicate Apart(a: Job, b: Job) { forall h :: h in a.slaves ==> h !in b.slaves }

  /** No two control connections of the workorder lead to the same process. */
  ghost predicate AllApart(master: Host, jobs: seq<Job>) {
    && (forall i :: 0 <= i < |jobs| ==> WellFormed(jobs[i]) && master !in jobs[i].slaves)
    && forall i, j :: 0 <= i < j < |jobs| ==> Apart(jobs[i], jobs[j])
  }

  ghost function Processes(jobs: seq<Job>): set<Host> {
    set i, k | 0 <= i < |jobs| && 0 <= k < |jobs[i].slaves| :: jobs[i].slaves[k]
  }

  ghost predicate AllReady(jobs: seq<Job>)
    reads Processes(jobs)
  {
    forall j :: 0 <= j < |jobs| ==> Ready(jobs[j])
  }

  lemma RestReady(jobs: seq<Job>, i: nat)
    requires i < |jobs| && AllReady(jobs[i..])
    ensures Ready(jobs[i]) && AllReady(jobs[i + 1..])
  {
    assert jobs[i..][0] == jobs[i];
    var rest := jobs[i + 1..];
    forall j | 0 <= j < |rest|
      ensures Ready(rest[j])
    {
      assert rest[j] == jobs[i..][j + 1];
    }
  }

  /** The first `i` groups are served. */
  ghost predicate MetSoFar(known: seq<seq<Info>>, listen: seq<seq<Listener>>, bound: set<(nat, nat)>,
                           jobs: seq<Job>, i: nat)
    requires i <= |jobs|
    reads Processes(jobs[..i])
  {
    forall j :: 0 <= j < i ==> MetAt(known, listen, bound, jobs, i, j)
  }

  ghost predicate MetAt(known: seq<seq<Info>>, listen: seq<seq<Listener>>, bound: set<(nat, nat)>, jobs: seq<Job>,
                        i: nat, j: nat)
    requires j < i <= |jobs|
    reads Processes(jobs[..i])
  {
    assert jobs[..i][j] == jobs[j];
    AllMet(known, listen, bound, jobs[j], Start(Strands(jobs), j))
  }

  lemma MetSoFarMore(known: seq<seq<Info>>, listen: seq<seq<Listener>>, bound: set<(nat, nat)>,
                     known': seq<seq<Info>>, listen': seq<seq<Listener>>, bound': set<(nat, nat)>, jobs: seq<Job>,
                     i: nat)
    requires i < |jobs| && MetSoFar(known, listen, bound, jobs, i) && bound <= bound'
    requires var id, n := Start(Strands(jobs), i), jobs[i].g.hdr.nthreads;
             SameOutside(known, known', id, n) && SameOutside(listen, listen', id, n)
    requires AllMet(known', listen', bound', jobs[i], Start(Strands(jobs), i))
    ensures MetSoFar(known', listen', bound', jobs, i + 1)
  {
    var m := i + 1;
    forall j | 0 <= j < i
      ensures MetAt(known', listen', bound', jobs, m, j)
    {
      assert MetAt(known, listen, bound, jobs, i, j);
      StartGrows(Strands(jobs), j, i);
      AllMetStays(known, listen, bound, known', listen', bound', jobs[j], Start(Strands(jobs), j),
                  Start(Strands(jobs), i), jobs[i].g.hdr.nthreads);
    }
  }

  lemma OthersAreApart(master: Host, jobs: seq<Job>, i: nat)
    requires AllApart(master, jobs) && i < |jobs|
    ensures forall h :: h in Processes(jobs[..i]) ==> h != master && h !in jobs[i].slaves
    ensures forall h :: h in Processes(jobs[i + 1..]) ==> h != master && h !in jobs[i].slaves
    ensures forall h :: h in jobs[i].slaves ==> h in Processes(jobs)
  {
    forall h | h in Processes(jobs[i + 1..])
      ensures h != master && h !in jobs[i].slaves
    {
      var j, k :| 0 <= j < |jobs| - i - 1 && 0 <= k < |jobs[i + 1..][j].slaves| && h == jobs[i + 1..][j].slaves[k];
      assert jobs[i + 1..][j] == jobs[i + 1 + j] && Apart(jobs[i], jobs[i + 1 + j]);
    }
    forall h | h in Processes(jobs[..i])
      ensures h != master && h !in jobs[i].slaves
    {
      var j, k :| 0 <= j < i && 0 <= k < |jobs[..i][j].slaves| && h == jobs[..i][j].slaves[k];
      assert jobs[..i][j] == jobs[j] && Apart(jobs[j], jobs[i]);
    }
  }

  /** The next group. */
  method PhaseTwoNextGroup(master: Host, jobs: seq<Job>, i: nat, from: Endian) returns (ok: bool)
    requires master.Shaped() && AllApart(master, jobs) && i < |jobs| && AllReady(jobs[i..])
    requires Start(Strands(jobs), |jobs|) <= |master.listen|
    requires MetSoFar(master.slaves, master.listen, master.bound, jobs, i)
    modifies master, jobs[i].slaves
    ensures master.Shaped() && old(master.bound) <= master.bound
    ensures SameOutside(old(master.listen), master.listen, Start(Strands(jobs), i), jobs[i].g.hdr.nthreads)
    ensures AllReady(jobs[i + 1..])
    ensures ok ==> MetSoFar(master.slaves, master.listen, master.bound, jobs, i + 1)
    ensures ok <==> (master.refused == old(master.refused) &&
                     forall h :: h in jobs[i].slaves ==> h.refused == old(h.refused))
  {
    StartGrows(Strands(jobs), i, |jobs|);
    OthersAreApart(master, jobs, i);
    RestReady(jobs, i);
    ghost var known, listen, bound := master.slaves, master.listen, master.bound;
    ok := PhaseTwoGroup(master, jobs[i], Start(Strands(jobs), i), from);
    if ok {
      MetSoFarMore(known, listen, bound, master.slaves, master.listen, master.bound, jobs, i);
    }
  }

  /** handshake_phase2: all groups in turn, each with its own block of strands. */
  method PhaseTwoAll(master: Host, jobs: seq<Job>, from: Endian) returns (ok: bool)
    requires master.Shaped() && AllApart(master, jobs) && AllReady(jobs)
    requires Start(Strands(jobs), |jobs|) <= |master.listen|
    modifies master, Processes(jobs)
    ensures ok ==> MetSoFar(master.slaves, master.listen, master.bound, jobs, |jobs|)
    ensures SameOutside(old(master.listen), master.listen, 0, Start(Strands(jobs), |jobs|))
    ensures !ok ==>
              master.refused != old(master.refused) || exists h :: h in Processes(jobs) && h.refused != old(h.refused)
  {
    ok := true;
    for i := 0 to |jobs|
      invariant forall h :: h in Processes(jobs[i..]) ==> h.refused == old(h.refused)
      invariant master.refused == old(master.refused)
      invariant ok && master.Shaped() && AllReady(jobs[i..])
      invariant SameOutside(old(master.listen), master.listen, 0, Start(Strands(jobs), |jobs|))
      invariant MetSoFar(master.slaves, master.listen, master.bound, jobs, i)
    {
      StartGrows(Strands(jobs), i, |jobs|);
      OthersAreApart(master, jobs, i);
      ok := PhaseTwoNextGroup(master, jobs, i, from);
      if !ok {
        return;
      }
    }
  }
}
