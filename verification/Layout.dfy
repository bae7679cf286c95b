/** Where strands and statistics records lie in the shared region: blocks of strands by group, and
    a bump allocator for the records (src/strand.c, src/handshake.c, src/master.c, src/shm.c). */
module Layout {
  import opened Counting
  import opened Profile

  /** Which group each strand belongs to: a block of n[i] strands for group i, one after the other. */
  function Owners(ns: seq<nat>): (o: seq<nat>)
    ensures |o| == Sum(ns)
  {
    if ns == [] then [] else Owners(ns[..|ns| - 1]) + seq(ns[|ns| - 1], _ => |ns| - 1)
  }

  /** Where the block of group i begins. */
  function Start(ns: seq<nat>, i: nat): nat
    requires i <= |ns|
  {
    Sum(ns[..i])
  }

  lemma {:induction false} StartGrows(ns: seq<nat>, i: nat, k: nat)
    requires i < k <= |ns|
    ensures Start(ns, i) + ns[i] <= Start(ns, k) && Start(ns, i + 1) == Start(ns, i) + ns[i]
    decreases k
  {
    assert ns[..k][..k - 1] == ns[..k - 1] && ns[..i + 1][..i] == ns[..i];
    if i + 1 < k {
      StartGrows(ns, i, k - 1);
    }
  }

  /** Strand j of group i belongs to group i. */
  lemma {:induction false} OwnerOf(ns: seq<nat>, i: nat, j: nat)
    requires i < |ns| && j < ns[i]
    ensures Start(ns, i) + j < |Owners(ns)| && Owners(ns)[Start(ns, i) + j] == i
    decreases |ns|
  {
    var m := |ns| - 1;
    StartGrows(ns, i, |ns|);
    assert ns[..|ns|] == ns;
    if i < m {
      assert ns[..m][..i] == ns[..i];
      OwnerOf(ns[..m], i, j);
    }
  }

  /** The blocks partition the strands: every strand is in exactly one of them. */
  lemma {:induction false} BlocksPartition(ns: seq<nat>, s: nat)
    requires s < Sum(ns)
    ensures var i := Owners(ns)[s]; i < |ns| && Start(ns, i) <= s < Start(ns, i) + ns[i]
    ensures forall k :: 0 <= k < |ns| && Start(ns, k) <= s < Start(ns, k) + ns[k] ==> k == Owners(ns)[s]
    decreases |ns|
  {
    var m := |ns| - 1;
    if s < Sum(ns[..m]) {
      BlocksPartition(ns[..m], s);
      assert ns[..m][..Owners(ns)[s]] == ns[..Owners(ns)[s]];
    }
    forall k | 0 <= k < |ns| && Start(ns, k) <= s < Start(ns, k) + ns[k]
      ensures k == Owners(ns)[s]
    {
      OwnerOf(ns, k, s - Start(ns, k));
    }
  }

  /** strand_init_all: strand_init_group for each group, `count` strands further each time; `times`
      counts how often each strand is initialised. */
  method StrandInitAll(ns: seq<nat>) returns (o: array<nat>, times: array<nat>)
    ensures fresh(o) && o[..] == Owners(ns)
    ensures fresh(times) && times[..] == seq(|Owners(ns)|, _ => 1)
  {
    o := new nat[Sum(ns)];
    times := new nat[Sum(ns)](_ => 0);
    var count := 0;
    for i := 0 to |ns|
      invariant count == Sum(ns[..i]) && fresh(o) && fresh(times) && o != times && o.Length == times.Length == Sum(ns)
      invariant count <= o.Length && o[..count] == Owners(ns[..i])
      invariant forall k :: 0 <= k < times.Length ==> times[k] == if k < count then 1 else 0
    {
      StartGrows(ns, i, |ns|);
      assert ns[..|ns|] == ns && ns[..i + 1][..i] == ns[..i];
      StrandInitGroup(o, times, i, ns[i], count);
      assert o[..count + ns[i]] == o[..count] + seq(ns[i], _ => i);
      count := count + ns[i];
    }
    assert ns[..|ns|] == ns;
  }

  /** strand_init_group: the `n` strands from `start` on belong to group i. */
  method StrandInitGroup(o: array<nat>, times: array<nat>, i: nat, n: nat, start: nat)
    requires o != times && o.Length == times.Length && start + n <= o.Length
    modifies o, times
    ensures forall k :: 0 <= k < o.Length ==> o[k] == if start <= k < start + n then i else old(o[k])
    ensures forall k :: 0 <= k < o.Length ==> times[k] == old(times[k]) + if start <= k < start + n then 1 else 0
  {
    for j := 0 to n
      invariant forall k :: 0 <= k < o.Length ==> o[k] == if start <= k < start + j then i else old(o[k])
      invariant forall k :: 0 <= k < o.Length ==> times[k] == old(times[k]) + if start <= k < start + j then 1 else 0
    {
      o[j + start] := i;
      times[j + start] := times[j + start] + 1;
    }
  }

  /** handshake_phase2: the block it tells each slave of a group about, one entry for each of the
      group's control connections. */
  method HandshakeBlocks(ns: seq<nat>, control: seq<nat>) returns (blocks: seq<(nat, nat)>)
    requires |control| == |ns|
    ensures |blocks| == Sum(control)
    ensures forall k :: 0 <= k < |blocks| ==> blocks[k].0 == Owners(control)[k] < |ns|
    ensures forall k :: 0 <= k < |blocks| ==> blocks[k].1 == Start(ns, blocks[k].0)
  {
    var id := 0;
    blocks := [];
    for i := 0 to |ns|
      invariant id == Sum(ns[..i]) && |blocks| == Sum(control[..i])
      invariant forall k :: 0 <= k < |blocks| ==> blocks[k].0 == Owners(control[..i])[k] < |ns|
      invariant forall k :: 0 <= k < |blocks| ==> blocks[k].1 == Start(ns, blocks[k].0)
    {
      assert ns[..i + 1][..i] == ns[..i] && control[..i + 1][..i] == control[..i];
      for p := 0 to control[i]
        invariant |blocks| == Sum(control[..i]) + p
        invariant forall k :: 0 <= k < |blocks| ==>
                    blocks[k].0 == (if k < Sum(control[..i]) then Owners(control[..i])[k] else i) < |ns|
        invariant forall k :: 0 <= k < |blocks| ==> blocks[k].1 == Start(ns, blocks[k].0)
      {
        blocks := blocks + [(i, id)];
      }
      id := id + ns[i];
    }
    assert control[..|ns|] == control;
  }

  // ---- Statistics records ----

  /** What identifies a record; -1 where the level does not apply. */
  datatype Record = Record(sid: int, gid: int, tid: int, fid: int)

  function TxnRecords(sid: nat, gid: nat, t: TxnNode): seq<Record> {
    [Record(sid, gid, t.txnid, -1)] +
    seq(|t.flist|, j requires 0 <= j < |t.flist| => Record(sid, gid, t.txnid, t.flist[j].id))
  }

  function TxnsRecords(sid: nat, gid: nat, ts: seq<TxnNode>): seq<Record> {
    if ts == [] then [] else TxnsRecords(sid, gid, ts[..|ts| - 1]) + TxnRecords(sid, gid, ts[|ts| - 1])
  }

  /** One strand's copy of its group: the group, its transactions and their flowops. */
  function StrandRecords(sid: nat, gid: nat, g: GroupNode): seq<Record> {
    [Record(sid, gid, -1, -1)] + TxnsRecords(sid, gid, g.tlist)
  }

  function BlockRecords(start: nat, n: nat, gid: nat, g: GroupNode): seq<Record> {
    if n == 0 then [] else BlockRecords(start, n - 1, gid, g) + StrandRecords(start + n - 1, gid, g)
  }

  function AllRecords(gs: seq<GroupNode>): seq<Record> {
    if gs == [] then []
    else
      var m := |gs| - 1;
      AllRecords(gs[..m]) + BlockRecords(Sum(Sizes(gs[..m])), gs[m].nthreads, m, gs[m])
  }

  function Sizes(gs: seq<GroupNode>): (ns: seq<nat>)
    ensures |ns| == |gs| && forall i :: 0 <= i < |gs| ==> ns[i] == gs[i].nthreads
  {
    seq(|gs|, i requires 0 <= i < |gs| => gs[i].nthreads)
  }

  /** Where each record of a strand's copy lies: the group's first, then for each transaction its own and
      those of its flowops, after all those of the transactions before it. */
  lemma StrandRecordsAre(sid: nat, gid: nat, g: GroupNode, i: nat)
    requires i < |g.tlist| && forall k :: 0 <= k < |g.tlist| ==> g.tlist[k].nflowop == |g.tlist[k].flist|
    ensures var rs, at, t := StrandRecords(sid, gid, g), 1 + TxnsStats(g.tlist[..i]), g.tlist[i];
            && at + |t.flist| < |rs| && rs[0] == Record(sid, gid, -1, -1) && rs[at] == Record(sid, gid, t.txnid, -1)
            && forall j :: 0 <= j < |t.flist| ==> rs[at + 1 + j] == Record(sid, gid, t.txnid, t.flist[j].id)
  {
    TxnRecordsAre(sid, gid, g.tlist, i);
  }

  lemma {:induction false} TxnRecordsAre(sid: nat, gid: nat, ts: seq<TxnNode>, i: nat)
    requires i < |ts| && forall k :: 0 <= k < |ts| ==> ts[k].nflowop == |ts[k].flist|
    ensures var rs, at := TxnsRecords(sid, gid, ts), TxnsStats(ts[..i]);
            && at + |ts[i].flist| < |rs| && rs[at] == Record(sid, gid, ts[i].txnid, -1)
            && forall j :: 0 <= j < |ts[i].flist| ==> rs[at + 1 + j] == Record(sid, gid, ts[i].txnid, ts[i].flist[j].id)
  {
    var m := |ts| - 1;
    if i < m {
      TxnRecordsAre(sid, gid, ts[..m], i);
      assert ts[..m][..i] == ts[..i];
    } else {
      TxnsRecordsLength(sid, gid, ts[..m]);
      RecordsBehind(TxnsRecords(sid, gid, ts[..m]), sid, gid, ts[m]);
    }
  }

  lemma RecordsBehind(front: seq<Record>, sid: nat, gid: nat, t: TxnNode)
    ensures var rs, at := front + TxnRecords(sid, gid, t), |front|;
            && at + |t.flist| < |rs| && rs[at] == Record(sid, gid, t.txnid, -1)
            && forall j :: 0 <= j < |t.flist| ==> rs[at + 1 + j] == Record(sid, gid, t.txnid, t.flist[j].id)
  {
  }

  /** group_num_stats, from the counters of the transactions. */
  function TxnsStats(ts: seq<TxnNode>): nat {
    if ts == [] then 0 else TxnsStats(ts[..|ts| - 1]) + 1 + ts[|ts| - 1].nflowop
  }

  function GroupStats(g: GroupNode): nat { 1 + TxnsStats(g.tlist) }

  function StatCounts(gs: seq<GroupNode>): (cs: seq<nat>)
    ensures |cs| == |gs| && forall i :: 0 <= i < |gs| ==> cs[i] == GroupStats(gs[i])
  {
    seq(|gs|, i requires 0 <= i < |gs| => GroupStats(gs[i]))
  }

  /** The records shm_init makes room for: strands times statistics of the whole workorder. */
  function Region(gs: seq<GroupNode>): nat { Times(Sum(Sizes(gs)), Sum(StatCounts(gs))) }

  lemma {:induction false} TxnsRecordsLength(sid: nat, gid: nat, ts: seq<TxnNode>)
    requires forall i :: 0 <= i < |ts| ==> ts[i].nflowop == |ts[i].flist|
    ensures |TxnsRecords(sid, gid, ts)| == TxnsStats(ts)
  {
    if ts != [] {
      TxnsRecordsLength(sid, gid, ts[..|ts| - 1]);
    }
  }

  lemma {:induction false} BlockLength(start: nat, n: nat, gid: nat, g: GroupNode)
    requires GroupRight(g)
    ensures |BlockRecords(start, n, gid, g)| == Times(n, GroupStats(g))
  {
    if n > 0 {
      BlockLength(start, n - 1, gid, g);
      TxnsRecordsLength(start + n - 1, gid, g.tlist);
    }
  }

  /** The sum of the products. */
  function Dot(ns: seq<nat>, cs: seq<nat>): nat
    requires |ns| == |cs|
  {
    if ns == [] then 0 else Dot(ns[..|ns| - 1], cs[..|cs| - 1]) + Times(ns[|ns| - 1], cs[|cs| - 1])
  }

  /** It is at most the product of the sums. */
  lemma {:induction false} DotFits(ns: seq<nat>, cs: seq<nat>)
    requires |ns| == |cs|
    ensures Dot(ns, cs) <= Times(Sum(ns), Sum(cs))
  {
    if ns != [] {
      var m := |ns| - 1;
      DotFits(ns[..m], cs[..m]);
      ProductGrows(Sum(ns[..m]), Sum(cs[..m]), ns[m], cs[m]);
    }
  }

  lemma {:induction false} LengthIsDot(gs: seq<GroupNode>)
    requires forall i :: 0 <= i < |gs| ==> GroupRight(gs[i])
    ensures |AllRecords(gs)| == Dot(Sizes(gs), StatCounts(gs))
  {
    if gs != [] {
      var m := |gs| - 1;
      LengthIsDot(gs[..m]);
      BlockLength(Sum(Sizes(gs[..m])), gs[m].nthreads, m, gs[m]);
      assert Sizes(gs)[..m] == Sizes(gs[..m]) && StatCounts(gs)[..m] == StatCounts(gs[..m]);
    }
  }

  lemma RecordsFit(gs: seq<GroupNode>)
    requires forall i :: 0 <= i < |gs| ==> GroupRight(gs[i])
    ensures |AllRecords(gs)| <= Region(gs)
  {
    LengthIsDot(gs);
    DotFits(Sizes(gs), StatCounts(gs));
  }

  lemma ProductGrows(a: nat, b: nat, n: nat, c: nat)
    ensures Times(a, b) + Times(n, c) <= Times(a + n, b + c)
  {
    TimesAdd(a, n, b + c);
    TimesWider(a, b, c);
    TimesWider(n, b, c);
  }

  lemma {:induction false} AllRecordsPrefix(gs: seq<GroupNode>, k: nat)
    requires k <= |gs|
    ensures AllRecords(gs[..k]) <= AllRecords(gs)
    decreases |gs|
  {
    if k < |gs| {
      AllRecordsPrefix(gs[..|gs| - 1], k);
      assert gs[..|gs| - 1][..k] == gs[..k];
    } else {
      assert gs[..k] == gs;
    }
  }

  lemma BlockPrefix(start: nat, j: nat, n: nat, gid: nat, g: GroupNode)
    requires j < n && GroupRight(g)
    ensures |BlockRecords(start, j, gid, g)| + GroupStats(g) <= Times(n, GroupStats(g))
  {
    BlockLength(start, j, gid, g);
    TimesGrows(j + 1, n, GroupStats(g));
  }

  /** The shared region of records and the bump index into it. */
  class Records {
    const nstats: array<Record>
    var nstatCount: nat

    constructor (room: nat)
      ensures fresh(nstats) && nstats.Length == room && nstatCount == 0
    {
      nstats := new Record[room](_ => Record(0, 0, 0, 0));
      nstatCount := 0;
    }

    ghost predicate Valid()
      reads this
    {
      nstatCount <= nstats.Length
    }

    ghost function Log(): seq<Record>
      requires Valid()
      reads this, nstats
    {
      nstats[..nstatCount]
    }

    /** malloc_newstats: the next record; there has to be one. */
    method Malloc(r: Record)
      requires nstatCount < nstats.Length
      modifies this`nstatCount, nstats
      ensures Valid() && nstatCount == old(nstatCount) + 1 && Log() == old(nstats[..nstatCount]) + [r]
    {
      nstats[nstatCount] := r;
      nstatCount := nstatCount + 1;
    }

    method TxnAssignStat(t: TxnNode, sid: nat, gid: nat)
      requires Valid() && t.nflowop == |t.flist| && nstatCount + 1 + t.nflowop <= nstats.Length
      modifies this`nstatCount, nstats
      ensures Valid() && Log() == old(Log()) + TxnRecords(sid, gid, t)
    {
      ghost var was, rs := Log(), TxnRecords(sid, gid, t);
      Malloc(Record(sid, gid, t.txnid, -1));
      assert rs[..1] == [rs[0]];
      for j := 0 to |t.flist|
        invariant Valid() && nstatCount == |was| + 1 + j && Log() == was + rs[..1 + j]
      {
        Malloc(Record(sid, gid, t.txnid, t.flist[j].id));
        assert rs[..1 + j] + [rs[1 + j]] == rs[..1 + (j + 1)];
      }
      assert rs[..1 + |t.flist|] == rs;
    }

    /** group_assign_stat for strand `sid`. */
    method GroupAssignStat(g: GroupNode, sid: nat, gid: nat)
      requires Valid() && GroupRight(g) && nstatCount + GroupStats(g) <= nstats.Length
      modifies this`nstatCount, nstats
      ensures Valid() && Log() == old(Log()) + StrandRecords(sid, gid, g)
    {
      ghost var was := Log();
      Malloc(Record(sid, gid, -1, -1));
      for i := 0 to |g.tlist|
        invariant Valid() && Log() == was + ([Record(sid, gid, -1, -1)] + TxnsRecords(sid, gid, g.tlist[..i]))
        invariant nstatCount == |was| + 1 + TxnsStats(g.tlist[..i])
      {
        StatsFit(g.tlist, i);
        TxnAssignStat(g.tlist[i], sid, gid);
        assert g.tlist[..i + 1][..i] == g.tlist[..i];
      }
      assert g.tlist[..|g.tlist|] == g.tlist;
    }

    /** Strand `j` of the block gets its copy of the group. */
    method SpawnStrand(g: GroupNode, id: nat, gid: nat, j: nat, o: array<nat>)
      requires Valid() && GroupRight(g) && j < g.nthreads && id + g.nthreads <= o.Length
      requires nstatCount + GroupStats(g) <= nstats.Length
      modifies this`nstatCount, nstats, o
      ensures Valid() && Log() == old(Log()) + StrandRecords(id + j, gid, g)
      ensures o[..] == old(o[..])[id + j := gid]
    {
      o[id + j] := gid;
      GroupAssignStat(g, id + j, gid);
    }

    /** spawn_strands_group: every strand of the block gets its copy of the group. */
    method SpawnStrandsGroup(g: GroupNode, id: nat, gid: nat, o: array<nat>)
      requires Valid() && GroupRight(g) && nstatCount + Times(g.nthreads, GroupStats(g)) <= nstats.Length
      requires id + g.nthreads <= o.Length
      modifies this`nstatCount, nstats, o
      ensures Valid() && Log() == old(Log()) + BlockRecords(id, g.nthreads, gid, g)
      ensures o[..id + g.nthreads] == old(o[..id]) + seq(g.nthreads, _ => gid)
    {
      ghost var was := Log();
      for j := 0 to g.nthreads
        invariant Valid() && Log() == was + BlockRecords(id, j, gid, g)
        invariant o[..id + j] == old(o[..id]) + seq(j, _ => gid)
      {
        BlockPrefix(id, j, g.nthreads, gid, g);
        assert nstatCount == |was| + |BlockRecords(id, j, gid, g)|;
        SpawnStrand(g, id, gid, j, o);
      }
    }

    /** The loop's body for group `k`, whose block begins at `id`. */
    method SpawnNext(gs: seq<GroupNode>, k: nat, id: nat, o: array<nat>)
      requires Valid() && k < |gs| && forall i :: 0 <= i < |gs| ==> GroupRight(gs[i])
      requires nstats.Length == Region(gs) && Log() == AllRecords(gs[..k])
      requires id == Sum(Sizes(gs)[..k]) && o.Length == Sum(Sizes(gs)) && id <= o.Length &&
               o[..id] == Owners(Sizes(gs)[..k])
      modifies this`nstatCount, nstats, o
      ensures Valid() && Log() == AllRecords(gs[..k + 1])
      ensures id + gs[k].nthreads == Sum(Sizes(gs)[..k + 1]) <= o.Length
      ensures o[..id + gs[k].nthreads] == Owners(Sizes(gs)[..k + 1])
    {
      BlockFits(gs, k);
      SpawnedOneMore(gs, k);
      SpawnStrandsGroup(gs[k], id, k, o);
    }

    /** The spawn loop of the master.  It stops before the first group at which it finds an error flagged,
        that of number `flagged` if there is one; `k` groups have been spawned.  The records are allocated in
        order and always inside the region, and each strand runs the group whose block strand_init_all put
        it in. */
    method Spawn(gs: seq<GroupNode>, flagged: nat) returns (o: array<nat>, k: nat)
      requires nstatCount == 0 && nstats.Length == Region(gs) && forall i :: 0 <= i < |gs| ==> GroupRight(gs[i])
      modifies this`nstatCount, nstats
      ensures k == (if flagged < |gs| then flagged else |gs|) && Valid() && Log() == AllRecords(gs[..k])
      ensures fresh(o) && o.Length == Sum(Sizes(gs)) && Sum(Sizes(gs)[..k]) <= o.Length
      ensures o[..Sum(Sizes(gs)[..k])] == Owners(Sizes(gs)[..k])
    {
      o := new nat[Sum(Sizes(gs))](_ => 0);
      var id := 0;
      k := 0;
      while k < |gs|
        invariant k <= |gs| && Valid() && Log() == AllRecords(gs[..k]) && fresh(o) && o.Length == Sum(Sizes(gs))
        invariant id == Sum(Sizes(gs)[..k]) <= o.Length && o[..id] == Owners(Sizes(gs)[..k]) && k <= flagged
        decreases |gs| - k
      {
        if k == flagged {
          break;
        }
        SpawnNext(gs, k, id, o);
        id := id + gs[k].nthreads;
        k := k + 1;
      }
    }
  }

  lemma SpawnedOneMore(gs: seq<GroupNode>, k: nat)
    requires k < |gs|
    ensures AllRecords(gs[..k + 1]) == AllRecords(gs[..k]) + BlockRecords(Sum(Sizes(gs)[..k]), gs[k].nthreads, k, gs[k])
    ensures Owners(Sizes(gs)[..k + 1]) == Owners(Sizes(gs)[..k]) + seq(gs[k].nthreads, _ => k)
  {
    assert gs[..k + 1][..k] == gs[..k] && Sizes(gs)[..k + 1][..k] == Sizes(gs)[..k] && Sizes(gs[..k]) == Sizes(gs)[..k];
  }

  lemma {:induction false} StatsFit(ts: seq<TxnNode>, i: nat)
    requires i < |ts|
    ensures TxnsStats(ts[..i]) + 1 + ts[i].nflowop <= TxnsStats(ts)
    decreases |ts|
  {
    if i < |ts| - 1 {
      StatsFit(ts[..|ts| - 1], i);
      assert ts[..|ts| - 1][..i] == ts[..i];
    }
  }

  /** The next group's records and strands still fit. */
  lemma BlockFits(gs: seq<GroupNode>, k: nat)
    requires k < |gs| && forall i :: 0 <= i < |gs| ==> GroupRight(gs[i])
    ensures |AllRecords(gs[..k])| + Times(gs[k].nthreads, GroupStats(gs[k])) <= Region(gs)
    ensures Sum(Sizes(gs)[..k]) + gs[k].nthreads == Sum(Sizes(gs)[..k + 1]) <= Sum(Sizes(gs))
  {
    assert gs[..k + 1][..k] == gs[..k];
    BlockLength(Sum(Sizes(gs[..k])), gs[k].nthreads, k, gs[k]);
    AllRecordsPrefix(gs, k + 1);
    RecordsFit(gs);
    StartGrows(Sizes(gs), k, |gs|);
    assert Sizes(gs)[..|gs|] == Sizes(gs);
  }

  /** No index of malloc_newstats leaves the region, stated as arithmetic. */
  lemma RegionIsEnough(gs: seq<GroupNode>)
    requires forall i :: 0 <= i < |gs| ==> GroupRight(gs[i])
    ensures |AllRecords(gs)| <= Sum(StatCounts(gs)) * Sum(Sizes(gs))
  {
    RecordsFit(gs);
    TimesIsProduct(Sum(Sizes(gs)), Sum(StatCounts(gs)));
  }
}
