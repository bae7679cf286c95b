/** The invariant of a run and its proof, step by step. */
module RunInvariant {
  import opened Counting
  import opened Barriers
  import opened Nodes
  import opened Run

  /** The NEXT_TXN indices still unread in a command queue. */
  function Unread(queue: seq<Command>): seq<nat> {
    if queue == [] then []
    else Unread(queue[..|queue| - 1]) + (if queue[|queue| - 1].NextTxn? then [queue[|queue| - 1].k] else [])
  }

  function Indices(sl: Slave): seq<nat> { sl.log + Unread(sl.queue) }

  /** How many transactions the master has announced to slave `s`. */
  function Announced(st: State, s: nat): nat {
    st.curr + (if st.phase.Unlocking? || (st.phase.Sending? && s < st.phase.next) then 1 else 0)
  }

  ghost predicate MasterInv(c: Config, st: State) {
    && NodeInv(c.Txns(), st.master)
    && |st.master.bars| == c.Depth()
    && st.curr <= c.Depth()
    && (forall k :: 0 <= k < c.Depth() ==> (st.master.bars[k].locked <==> st.curr <= k))
    && (st.phase.Sending? || st.phase.Unlocking? ==> st.curr < c.Depth() && st.master.bars[st.curr].Reached())
    && (st.phase.Sending? || st.phase.Aborting? || st.phase.Reporting? ==> st.phase.next <= |st.slaves|)
    && (st.master.errors == 0 &&
        (st.phase.Draining? || st.phase.Aborting? || st.phase.Reporting? || st.phase.Ended?) ==>
          st.curr == c.Depth())
    && (st.master.killed ==> st.master.errors > 0)
    && (st.phase.Aborting? ==> st.master.errors > 0)
  }

  ghost predicate IndicesInv(announced: nat, lost: bool, indices: seq<nat>) {
    && Increasing(indices)
    && (forall k :: k in indices ==> k < announced)
    && (!lost ==> indices == Upto(announced))
  }

  /** The barriers of a slave that are open are those whose index it has dealt with. */
  ghost predicate LatchInv(bars: seq<Bar>, busy: int, log: seq<nat>) {
    && (busy == -1 || (0 <= busy < |bars| && log != [] && log[|log| - 1] == busy))
    && (forall k :: 0 <= k < |bars| ==> (bars[k].locked <==> k !in log || k == busy))
  }

  /** What holds of one slave that has been announced `announced` transactions. */
  ghost predicate SlaveInv(txns: seq<nat>, depth: nat, announced: nat, lost: bool, sl: Slave) {
    && NodeInv(txns, sl.node)
    && |sl.node.bars| == depth
    && IndicesInv(announced, lost, Indices(sl))
    && LatchInv(sl.node.bars, sl.busy, sl.log)
  }

  ghost predicate Inv(c: Config, st: State) {
    && c.Valid() && |st.slaves| == |c.peers|
    && MasterInv(c, st)
    && forall s :: 0 <= s < |st.slaves| ==>
         SlaveInv(c.SlaveTxns(s), c.SlaveGroup(s).ntxn, Announced(st, s), st.lostSend, st.slaves[s])
  }

  lemma InitInv(c: Config, st: State)
    requires Init(c, st)
    ensures Inv(c, st)
  {
    StrandTxnsAtMost(c.groups);
    FreshNodeInv(c.Txns(), c.Depth(), st.master);
    forall s | 0 <= s < |st.slaves|
      ensures SlaveInv(c.SlaveTxns(s), c.SlaveGroup(s).ntxn, Announced(st, s), st.lostSend, st.slaves[s])
    {
      StrandTxnsAtMost([c.SlaveGroup(s)]);
      FreshNodeInv(c.SlaveTxns(s), c.SlaveGroup(s).ntxn, st.slaves[s].node);
    }
  }

  lemma {:induction false} UnreadFront(queue: seq<Command>)
    requires queue != []
    ensures Unread(queue) == (if queue[0].NextTxn? then [queue[0].k] else []) + Unread(queue[1..])
  {
    if |queue| > 1 {
      var front := queue[..|queue| - 1];
      UnreadFront(front);
      assert queue[1..][..|queue| - 2] == front[1..];
    }
  }

  lemma EnqueueKeepsInv(txns: seq<nat>, depth: nat, announced: nat, lost: bool, sl: Slave, cmd: Command)
    requires SlaveInv(txns, depth, announced, lost, sl)
    requires cmd.NextTxn? ==> cmd.k == announced
    ensures SlaveInv(txns, depth, announced + (if cmd.NextTxn? then 1 else 0), lost, Enqueue(sl, cmd))
  {
    var sl' := Enqueue(sl, cmd);
    assert sl'.queue[..|sl'.queue| - 1] == sl.queue;
    var extra := if cmd.NextTxn? then [cmd.k] else [];
    assert Indices(sl') == Indices(sl) + extra;
    forall i | 0 <= i < |Indices(sl)|
      ensures Indices(sl')[i] == Indices(sl)[i] < announced
    {
      assert Indices(sl)[i] in Indices(sl);
    }
  }

  /** A new index is above every index read before, so its barrier is still locked. */
  lemma NewIndexIsNew(txns: seq<nat>, depth: nat, announced: nat, lost: bool, sl: Slave)
    requires SlaveInv(txns, depth, announced, lost, sl)
    requires sl.queue != [] && sl.queue[0].NextTxn?
    ensures forall i :: 0 <= i < |sl.log| ==> sl.log[i] < sl.queue[0].k
  {
    UnreadFront(sl.queue);
    assert Indices(sl)[|sl.log|] == sl.queue[0].k;
    assert forall i :: 0 <= i < |sl.log| ==> Indices(sl)[i] == sl.log[i];
  }

  lemma NewIndexKeepsLatch(bars: seq<Bar>, log: seq<nat>, k: nat)
    requires LatchInv(bars, -1, log)
    requires forall i :: 0 <= i < |log| ==> log[i] < k
    ensures LatchInv(bars, if k < |bars| then k else -1, log + [k])
  {
    assert forall j :: j in log + [k] <==> j in log || j == k;
  }

  lemma HandleKeepsInv(txns: seq<nat>, depth: nat, announced: nat, lost: bool, sl: Slave)
    requires SlaveInv(txns, depth, announced, lost, sl)
    requires sl.queue != [] && sl.busy == -1
    ensures SlaveInv(txns, depth, announced, lost, Handle(sl))
  {
    var sl' := Handle(sl);
    assert Indices(sl') == Indices(sl) by { UnreadFront(sl.queue); }
    assert NodeInv(txns, sl'.node) by { assert Positions(sl'.node) == Positions(sl.node); }
    if sl.queue[0].NextTxn? {
      NewIndexIsNew(txns, depth, announced, lost, sl);
      NewIndexKeepsLatch(sl.node.bars, sl.log, sl.queue[0].k);
    }
  }

  lemma ReleaseKeepsSlaveInv(txns: seq<nat>, depth: nat, announced: nat, lost: bool, sl: Slave)
    requires SlaveInv(txns, depth, announced, lost, sl)
    requires 0 <= sl.busy < depth && sl.node.bars[sl.busy].Reached()
    ensures SlaveInv(txns, depth, announced, lost, sl.(busy := -1, node := Opened(sl.node, sl.busy)))
  {
    OpenedKeepsInv(txns, sl.node, sl.busy);
    assert sl.busy in sl.log;
    assert Indices(sl.(busy := -1, node := Opened(sl.node, sl.busy))) == Indices(sl);
  }

  /** The other slaves and the node may change; slave data that stays needs no new argument. */
  lemma SameSlaveInv(txns: seq<nat>, depth: nat, announced: nat, lost: bool, sl: Slave, sl': Slave)
    requires SlaveInv(txns, depth, announced, lost, sl)
    requires sl'.queue == sl.queue && sl'.log == sl.log && sl'.busy == sl.busy
    requires NodeInv(txns, sl'.node) && |sl'.node.bars| == depth
    requires forall k :: 0 <= k < depth ==> sl'.node.bars[k].locked == sl.node.bars[k].locked
    ensures SlaveInv(txns, depth, announced, lost, sl')
  {
  }

  lemma MasterStrandKeepsMasterInv(c: Config, st: State, i: nat, e: Event, st': State)
    requires Inv(c, st) && NextBy(c, st, MasterStrand(i, e), st')
    ensures MasterInv(c, st')
  {
    StrandStepKeepsInv(c.Txns(), st.master, i, e, st'.master);
    StrandStepMoves(c.Txns(), st.master, i, e, st'.master);
    if (st.phase.Sending? || st.phase.Unlocking?) {
      ReachedStays(c.Txns(), st.master, i, e, st'.master, st.curr);
    }
  }

  lemma MasterStrandKeepsInv(c: Config, st: State, i: nat, e: Event, st': State)
    requires Inv(c, st) && NextBy(c, st, MasterStrand(i, e), st')
    ensures Inv(c, st')
  {
    MasterStrandKeepsMasterInv(c, st, i, e, st');
    assert forall s :: 0 <= s < |st.slaves| ==> Announced(st', s) == Announced(st, s) && st'.slaves[s] == st.slaves[s];
  }

  /** A barrier that has all its strands keeps them. */
  lemma ReachedStays(txns: seq<nat>, n: Node, i: nat, e: Event, n': Node, k: nat)
    requires NodeInv(txns, n) && StrandStep(txns, n, i, e, n')
    requires k < |n.bars| && n.bars[k].Reached()
    ensures k < |n'.bars| && n'.bars[k].Reached()
  {
    StrandStepKeepsInv(txns, n, i, e, n');
    StrandStepMoves(txns, n, i, e, n');
    ReachedMeansAll(txns, n, k);
    ReachedMeansAll(txns, n', k);
    assert forall j :: 0 <= j < |txns| ==> n'.strands[j].arrived == Positions(n')[j] >= Positions(n)[j];
  }

  lemma SlaveStrandKeepsInv(c: Config, st: State, s: nat, i: nat, e: Event, st': State)
    requires Inv(c, st) && NextBy(c, st, SlaveStrand(s, i, e), st')
    ensures Inv(c, st')
  {
    var txns, sl, sl' := c.SlaveTxns(s), st.slaves[s], st'.slaves[s];
    StrandStepKeepsInv(txns, sl.node, i, e, sl'.node);
    StrandStepMoves(txns, sl.node, i, e, sl'.node);
    SameSlaveInv(txns, c.SlaveGroup(s).ntxn, Announced(st, s), st.lostSend, sl, sl');
    PutSlaveKeepsInv(c, st, s, sl');
  }

  lemma MasterStepKeepsMasterInv(c: Config, st: State, a: Step, st': State)
    requires Inv(c, st) && MasterStep(st, a, st')
    ensures MasterInv(c, st')
  {
    if a.UnlockNext? {
      OpenedKeepsInv(c.Txns(), st.master, st.curr);
    } else {
      assert NodeInv(c.Txns(), st'.master) by { assert Positions(st'.master) == Positions(st.master); }
    }
  }

  lemma WeakerSlaveInv(txns: seq<nat>, depth: nat, announced: nat, announced': nat, lost: bool, lost': bool, sl: Slave)
    requires SlaveInv(txns, depth, announced, lost, sl)
    requires announced == announced' || (announced < announced' && lost')
    requires lost ==> lost'
    ensures SlaveInv(txns, depth, announced', lost', sl)
  {
  }

  function TailCommand(phase: Phase): Command { if phase.Aborting? then Abort else SendStats }

  lemma SentKeepsInv(c: Config, st: State, a: Step, st': State)
    requires Inv(c, st) && MasterStep(st, a, st') && (a.SendOk? || a.TailOk?)
    ensures var s := st.phase.next;
            SlaveInv(c.SlaveTxns(s), c.SlaveGroup(s).ntxn, Announced(st', s), st'.lostSend, st'.slaves[s])
  {
    var s := st.phase.next;
    var cmd := if a.SendOk? then NextTxn(st.curr) else TailCommand(st.phase);
    var sl := st.slaves[s];
    assert SlaveInv(c.SlaveTxns(s), c.SlaveGroup(s).ntxn, Announced(st, s), st.lostSend, sl);
    assert st'.slaves[s] == Enqueue(sl, cmd) && Announced(st', s) == Announced(st, s) + if a.SendOk? then 1 else 0;
    EnqueueKeepsInv(c.SlaveTxns(s), c.SlaveGroup(s).ntxn, Announced(st, s), st.lostSend, sl, cmd);
  }

  lemma MasterStepKeepsInv(c: Config, st: State, a: Step, st': State)
    requires Inv(c, st) && MasterStep(st, a, st')
    ensures Inv(c, st')
  {
    MasterStepKeepsMasterInv(c, st, a, st');
    forall s | 0 <= s < |st.slaves|
      ensures SlaveInv(c.SlaveTxns(s), c.SlaveGroup(s).ntxn, Announced(st', s), st'.lostSend, st'.slaves[s])
    {
      if (a.SendOk? || a.TailOk?) && s == st.phase.next {
        SentKeepsInv(c, st, a, st');
      } else {
        // An index may be skipped when a send fails, but then only the increasing order is claimed.
        var txns, depth := c.SlaveTxns(s), c.SlaveGroup(s).ntxn;
        WeakerSlaveInv(txns, depth, Announced(st, s), Announced(st', s), st.lostSend, st'.lostSend, st.slaves[s]);
      }
    }
  }

  lemma PutSlaveKeepsInv(c: Config, st: State, s: nat, sl: Slave)
    requires Inv(c, st) && s < |st.slaves|
    requires SlaveInv(c.SlaveTxns(s), c.SlaveGroup(s).ntxn, Announced(st, s), st.lostSend, sl)
    ensures Inv(c, PutSlave(st, s, sl))
  {
    var st' := PutSlave(st, s, sl);
    assert forall r :: 0 <= r < |st.slaves| ==> Announced(st', r) == Announced(st, r);
    assert forall r :: 0 <= r < |st.slaves| && r != s ==> st'.slaves[r] == st.slaves[r];
  }

  lemma SlaveStepKeepsInv(c: Config, st: State, a: Step, st': State)
    requires Inv(c, st) && SlaveStep(st, a, st')
    ensures Inv(c, st')
  {
    var s := a.s;
    var txns, depth, sl := c.SlaveTxns(s), c.SlaveGroup(s).ntxn, st.slaves[s];
    match a {
      case Receive(_) => HandleKeepsInv(txns, depth, Announced(st, s), st.lostSend, sl);
      case SlaveRelease(_) => ReleaseKeepsSlaveInv(txns, depth, Announced(st, s), st.lostSend, sl);
      case SlaveGiveUp(_) =>
        assert Positions(st'.slaves[s].node) == Positions(sl.node);
        SameSlaveInv(txns, depth, Announced(st, s), st.lostSend, sl, st'.slaves[s]);
    }
    PutSlaveKeepsInv(c, st, s, st'.slaves[s]);
  }

  lemma NextKeepsInv(c: Config, st: State, st': State)
    requires Inv(c, st) && Next(c, st, st')
    ensures Inv(c, st')
  {
    var a :| NextBy(c, st, a, st');
    match a {
      case MasterStrand(i, e) => MasterStrandKeepsInv(c, st, i, e, st');
      case SlaveStrand(s, i, e) => SlaveStrandKeepsInv(c, st, s, i, e, st');
      case Receive(_) => SlaveStepKeepsInv(c, st, a, st');
      case SlaveRelease(_) => SlaveStepKeepsInv(c, st, a, st');
      case SlaveGiveUp(_) => SlaveStepKeepsInv(c, st, a, st');
      case _ => MasterStepKeepsInv(c, st, a, st');
    }
  }

  lemma {:induction false} RunInv(c: Config, run: seq<State>, t: nat)
    requires IsRun(c, run) && t < |run|
    ensures Inv(c, run[t])
  {
    if t == 0 {
      InitInv(c, run[0]);
    } else {
      RunInv(c, run, t - 1);
      assert StepAt(c, run, t - 1);
      NextKeepsInv(c, run[t - 1], run[t]);
    }
  }
}
