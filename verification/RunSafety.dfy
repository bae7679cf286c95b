/** Safety over whole runs: lockstep, slaves that never lead, commands in order, one release
    per barrier, and containment of failures. */
module RunSafety {
  import opened Counting
  import opened Barriers
  import opened Nodes
  import opened Run
  import opened RunInvariant

  /** Every strand of the node that has a transaction `k` has come to barrier `k`,
      so none of them is still in an earlier transaction. */
  ghost predicate AllCame(txns: seq<nat>, n: Node, k: nat) {
    && |n.strands| == |txns|
    && forall j :: 0 <= j < |txns| && txns[j] > k ==>
         && n.strands[j].arrived > k
         && forall m :: 0 <= m < k ==> !n.strands[j].Executing(m)
  }

  lemma AnnouncedMeansAllCame(c: Config, st: State, s: nat, k: nat)
    requires Inv(c, st) && (k < st.curr || k < Announced(st, s))
    ensures k < |st.master.bars| && AllCame(c.Txns(), st.master, k)
  {
    ReachedMeansAll(c.Txns(), st.master, k);
  }

  /** Lockstep: a master strand executes transaction k only when everybody who will ever
      execute it has left all earlier transactions. */
  lemma Lockstep(c: Config, run: seq<State>, t: nat, i: nat, k: nat)
    requires IsRun(c, run) && t < |run|
    requires i < |run[t].master.strands| && run[t].master.strands[i].Executing(k)
    ensures AllCame(c.Txns(), run[t].master, k)
  {
    RunInv(c, run, t);
    assert !run[t].master.bars[k].locked;
    ReachedMeansAll(c.Txns(), run[t].master, k);
  }

  /** A slave never leads: it executes transaction k only after it read NEXT_TXN k, all master
      strands with a transaction k came to the master's barrier, and all its own strands came
      to its own. */
  lemma SlaveNeverLeads(c: Config, run: seq<State>, t: nat, s: nat, i: nat, k: nat)
    requires IsRun(c, run) && t < |run| && s < |run[t].slaves|
    requires i < |run[t].slaves[s].node.strands| && run[t].slaves[s].node.strands[i].Executing(k)
    ensures k in run[t].slaves[s].log
    ensures AllCame(c.Txns(), run[t].master, k)
    ensures c.Valid() && s < |c.peers| && AllCame(c.SlaveTxns(s), run[t].slaves[s].node, k)
  {
    var st := run[t];
    RunInv(c, run, t);
    var sl := st.slaves[s];
    assert !sl.node.bars[k].locked;
    var p :| 0 <= p < |sl.log| && sl.log[p] == k;
    assert Indices(sl)[p] == k && k in Indices(sl);
    AnnouncedMeansAllCame(c, st, s, k);
    ReachedMeansAll(c.SlaveTxns(s), sl.node, k);
  }

  /** The indices a slave has read, or still has to read, are strictly increasing, and they are
      exactly 0, 1, 2, .. as long as no send has failed. */
  lemma CommandsInOrder(c: Config, run: seq<State>, t: nat, s: nat)
    requires IsRun(c, run) && t < |run| && s < |run[t].slaves|
    ensures Increasing(run[t].slaves[s].log + Unread(run[t].slaves[s].queue))
    ensures !run[t].lostSend ==> run[t].slaves[s].log == Upto(|run[t].slaves[s].log|)
  {
    RunInv(c, run, t);
    var sl := run[t].slaves[s];
    assert forall p :: 0 <= p < |sl.log| ==> Indices(sl)[p] == sl.log[p];
  }

  /** No barrier is released twice: whoever unlocks one finds it locked, with all its strands. */
  lemma ReleasedOnce(c: Config, run: seq<State>, t: nat, a: Step)
    requires IsRun(c, run) && t + 1 < |run| && NextBy(c, run[t], a, run[t + 1])
    ensures a.UnlockNext? ==>
              run[t].curr < |run[t].master.bars| && run[t].master.bars[run[t].curr].locked
              && AllCame(c.Txns(), run[t].master, run[t].curr)
    ensures a.SlaveRelease? ==>
              && a.s < |run[t].slaves| && 0 <= run[t].slaves[a.s].busy < |run[t].slaves[a.s].node.bars|
              && run[t].slaves[a.s].node.bars[run[t].slaves[a.s].busy].locked
  {
    RunInv(c, run, t);
    if a.UnlockNext? {
      AnnouncedMeansAllCame(c, run[t], 0, run[t].curr);
    }
  }

  /** A strand that has given up never moves again. */
  lemma GaveUpStays(c: Config, st: State, st': State, j: nat)
    requires Next(c, st, st') && j < |st.master.strands| && st.master.strands[j].GaveUp()
    ensures j < |st'.master.strands| && st'.master.strands[j].GaveUp()
    ensures st'.master.strands[j].arrived == st.master.strands[j].arrived
  {
    var a :| NextBy(c, st, a, st');
    if a.MasterStrand? {
      assert a.i != j ==> st'.master.strands[j] == st.master.strands[j];
    } else {
      assert st'.master.strands == st.master.strands;
    }
  }

  lemma {:induction false} GaveUpForGood(c: Config, run: seq<State>, t: nat, i: nat, u: nat)
    requires IsRun(c, run) && t <= u < |run|
    requires i < |run[t].master.strands| && run[t].master.strands[i].GaveUp()
    ensures i < |run[u].master.strands| && run[u].master.strands[i].GaveUp()
    ensures run[u].master.strands[i].arrived == run[t].master.strands[i].arrived
    decreases u
  {
    if t < u {
      GaveUpForGood(c, run, t, i, u - 1);
      assert StepAt(c, run, u - 1);
      GaveUpStays(c, run[u - 1], run[u], i);
    }
  }

  ghost predicate Idles(n: Node, j: nat) {
    forall i :: 0 <= i < |n.strands| ==> !n.strands[i].Executing(j)
  }

  /** Transaction j can begin nowhere: its master barrier is locked, no slave was told about it. */
  ghost predicate NeverBegun(st: State, j: nat) {
    && j < |st.master.bars| && st.master.bars[j].locked
    && Idles(st.master, j)
    && forall s :: 0 <= s < |st.slaves| ==>
         j !in st.slaves[s].log && j !in Unread(st.slaves[s].queue) && Idles(st.slaves[s].node, j)
  }

  lemma LockedIdles(txns: seq<nat>, n: Node, j: nat)
    requires NodeInv(txns, n) && (j < |n.bars| ==> n.bars[j].locked)
    ensures Idles(n, j)
  {
  }

  lemma UntoldSlaveIdles(txns: seq<nat>, depth: nat, announced: nat, lost: bool, sl: Slave, j: nat)
    requires SlaveInv(txns, depth, announced, lost, sl) && announced <= j
    ensures j !in sl.log && j !in Unread(sl.queue) && Idles(sl.node, j)
  {
    assert j !in Indices(sl);
    LockedIdles(txns, sl.node, j);
  }

  /** One strand that has not come to barrier j holds everybody back. */
  lemma MissingStrandHoldsBack(c: Config, st: State, i: nat, j: nat)
    requires Inv(c, st) && i < |c.Txns()|
    requires st.master.strands[i].arrived <= j < c.Txns()[i]
    ensures NeverBegun(st, j)
  {
    ReachedMeansAll(c.Txns(), st.master, j);
    LockedIdles(c.Txns(), st.master, j);
    forall s | 0 <= s < |st.slaves|
      ensures j !in st.slaves[s].log && j !in Unread(st.slaves[s].queue) && Idles(st.slaves[s].node, j)
    {
      UntoldSlaveIdles(c.SlaveTxns(s), c.SlaveGroup(s).ntxn, Announced(st, s), st.lostSend, st.slaves[s], j);
    }
  }

  /** Failure containment: once a master strand gives up after `arrived` barriers, no strand on
      any machine ever begins a later transaction of which that strand's group has an instance. */
  lemma FailureContainment(c: Config, run: seq<State>, t: nat, i: nat, u: nat, j: nat)
    requires IsRun(c, run) && t <= u < |run|
    requires i < |run[t].master.strands| == |c.Txns()| && run[t].master.strands[i].GaveUp()
    requires run[t].master.strands[i].arrived <= j < c.Txns()[i]
    ensures NeverBegun(run[u], j)
  {
    GaveUpForGood(c, run, t, i, u);
    RunInv(c, run, u);
    MissingStrandHoldsBack(c, run[u], i, j);
  }
}
