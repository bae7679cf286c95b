/** Every step of a run, productive or not, uses up a bounded budget, so runs are finite. */
module RunTermination {
  import opened Counting
  import opened Barriers
  import opened Nodes
  import opened Run
  import opened RunInvariant

  /** Steps a strand can still take: six per transaction, and its place inside the current one. */
  function StrandRank(txns: nat, s: Strand): nat
    requires s.arrived <= txns
  {
    6 * (txns - s.arrived) +
    match s.pc
    case Spawned => 6
    case Waiting => 5
    case Released => 4
    case Running => 3
    case Idle => 2
    case Failing => 1
    case Exited(_) => 0
  }

  function StrandRanks(txns: seq<nat>, n: Node): seq<nat>
    requires |n.strands| == |txns|
    requires forall i :: 0 <= i < |txns| ==> n.strands[i].arrived <= txns[i]
  {
    seq(|txns|, i requires 0 <= i < |txns| => StrandRank(txns[i], n.strands[i]))
  }

  function NodeRank(txns: seq<nat>, n: Node): nat
    requires |n.strands| == |txns|
    requires forall i :: 0 <= i < |txns| ==> n.strands[i].arrived <= txns[i]
  {
    Sum(StrandRanks(txns, n))
  }

  function SlaveRank(txns: seq<nat>, sl: Slave): nat
    requires |sl.node.strands| == |txns|
    requires forall i :: 0 <= i < |txns| ==> sl.node.strands[i].arrived <= txns[i]
  {
    NodeRank(txns, sl.node) + 3 * |sl.queue| + (if sl.busy == -1 then 0 else 2) + (if sl.open then 1 else 0)
  }

  /** What the main thread can still do; each send is worth more than the command it queues. */
  function PhaseRank(depth: nat, curr: nat, phase: Phase, n: nat): int
    requires curr <= depth
  {
    match phase
    case Polling => Times(depth - curr, 4 * n + 3) + 4 * n + 6
    case Sending(i) => Times(depth - curr, 4 * n + 3) + 4 * n + 5 - 4 * i
    case Unlocking => Times(depth - curr, 4 * n + 3) + 4
    case Draining => 4 * n + 5
    case Aborting(i) => 4 * (n - i) + 4
    case Reporting(i) => 4 * (n - i) + 4
    case Ended => 0
  }

  function SlaveRanks(c: Config, st: State): seq<nat>
    requires Inv(c, st)
  {
    seq(|st.slaves|, s requires 0 <= s < |st.slaves| =>
      assert SlaveInv(c.SlaveTxns(s), c.SlaveGroup(s).ntxn, Announced(st, s), st.lostSend, st.slaves[s]);
      SlaveRank(c.SlaveTxns(s), st.slaves[s]))
  }

  function Measure(c: Config, st: State): int
    requires Inv(c, st)
  {
    NodeRank(c.Txns(), st.master) + PhaseRank(c.Depth(), st.curr, st.phase, |st.slaves|) + Sum(SlaveRanks(c, st))
  }

  lemma PhaseRankNonNegative(depth: nat, curr: nat, phase: Phase, n: nat)
    requires curr <= depth
    requires phase.Sending? || phase.Aborting? || phase.Reporting? ==> phase.next <= n
    ensures PhaseRank(depth, curr, phase, n) >= 0
  {
  }

  lemma MeasureNonNegative(c: Config, st: State)
    requires Inv(c, st)
    ensures Measure(c, st) >= 0
  {
    PhaseRankNonNegative(c.Depth(), st.curr, st.phase, |st.slaves|);
  }

  lemma StrandRankDrops(txns: seq<nat>, n: Node, i: nat, e: Event, n': Node)
    requires NodeInv(txns, n) && NodeInv(txns, n') && StrandStep(txns, n, i, e, n')
    ensures i < |n'.strands| && StrandRank(txns[i], n'.strands[i]) < StrandRank(txns[i], n.strands[i])
  {
  }

  lemma StrandStepShrinks(txns: seq<nat>, n: Node, i: nat, e: Event, n': Node)
    requires NodeInv(txns, n) && NodeInv(txns, n') && StrandStep(txns, n, i, e, n')
    ensures NodeRank(txns, n') < NodeRank(txns, n)
  {
    StrandRankDrops(txns, n, i, e, n');
    StrandStepMoves(txns, n, i, e, n');
    var v := StrandRank(txns[i], n'.strands[i]);
    assert StrandRanks(txns, n') == StrandRanks(txns, n)[i := v];
    SumUpdate(StrandRanks(txns, n), i, v);
  }

  lemma SameStrandsSameRank(txns: seq<nat>, n: Node, n': Node)
    requires NodeInv(txns, n) && NodeInv(txns, n') && n'.strands == n.strands
    ensures NodeRank(txns, n') == NodeRank(txns, n)
  {
    assert StrandRanks(txns, n') == StrandRanks(txns, n);
  }

  /** The total after one slave changed. */
  lemma OneSlaveChanged(c: Config, st: State, st': State, s: nat)
    requires Inv(c, st) && Inv(c, st') && |st'.slaves| == |st.slaves| && s < |st.slaves|
    requires forall r :: 0 <= r < |st.slaves| && r != s ==> st'.slaves[r] == st.slaves[r]
    ensures Sum(SlaveRanks(c, st')) == Sum(SlaveRanks(c, st)) - SlaveRanks(c, st)[s] + SlaveRanks(c, st')[s]
  {
    assert SlaveRanks(c, st') == SlaveRanks(c, st)[s := SlaveRanks(c, st')[s]];
    SumUpdate(SlaveRanks(c, st), s, SlaveRanks(c, st')[s]);
  }

  lemma SlaveRankAt(c: Config, st: State, s: nat)
    requires Inv(c, st) && s < |st.slaves|
    ensures NodeInv(c.SlaveTxns(s), st.slaves[s].node)
    ensures SlaveRanks(c, st)[s] == SlaveRank(c.SlaveTxns(s), st.slaves[s])
  {
    assert SlaveInv(c.SlaveTxns(s), c.SlaveGroup(s).ntxn, Announced(st, s), st.lostSend, st.slaves[s]);
  }

  /** Queueing a command costs three, handling or releasing gives back. */
  lemma SlaveChangeRank(c: Config, st: State, st': State, s: nat, d: int)
    requires Inv(c, st) && Inv(c, st') && s < |st.slaves|
    requires st'.slaves == st.slaves[s := st'.slaves[s]]
    requires st'.slaves[s].node.strands == st.slaves[s].node.strands
    requires var a, b := st.slaves[s], st'.slaves[s];
             3 * |b.queue| + (if b.busy == -1 then 0 else 2) + (if b.open then 1 else 0)
               <= d + 3 * |a.queue| + (if a.busy == -1 then 0 else 2) + (if a.open then 1 else 0)
    ensures Sum(SlaveRanks(c, st')) <= Sum(SlaveRanks(c, st)) + d
  {
    OneSlaveChanged(c, st, st', s);
    SlaveRankAt(c, st, s);
    SlaveRankAt(c, st', s);
    SameStrandsSameRank(c.SlaveTxns(s), st.slaves[s].node, st'.slaves[s].node);
  }

  lemma MasterStepShrinks(c: Config, st: State, a: Step, st': State)
    requires Inv(c, st) && Inv(c, st') && MasterStep(st, a, st')
    ensures Measure(c, st') < Measure(c, st)
  {
    var n := |st.slaves|;
    SameStrandsSameRank(c.Txns(), st.master, st'.master);
    if a.SendOk? || a.TailOk? {
      SlaveChangeRank(c, st, st', st.phase.next, 3);
    } else {
      assert SlaveRanks(c, st') == SlaveRanks(c, st);
    }
    PhaseRankDrops(c, st, a, st');
  }

  lemma UnlockDrops(depth: nat, curr: nat, n: nat)
    requires curr < depth
    ensures PhaseRank(depth, curr + 1, Polling, n) < PhaseRank(depth, curr, Unlocking, n)
  {
  }

  /** The other steps stay at their index, whose part of the rank is `rest`. */
  lemma PhaseDrops(c: Config, st: State, a: Step, st': State, rest: nat)
    requires Inv(c, st) && Inv(c, st') && MasterStep(st, a, st') && !a.UnlockNext?
    requires rest == Times(c.Depth() - st.curr, 4 * |st.slaves| + 3)
    ensures st'.curr == st.curr && |st'.slaves| == |st.slaves|
    ensures PhaseRank(c.Depth(), st'.curr, st'.phase, |st'.slaves|)
         <= PhaseRank(c.Depth(), st.curr, st.phase, |st.slaves|) - (if a.SendOk? || a.TailOk? then 4 else 1)
  {
  }

  lemma PhaseRankDrops(c: Config, st: State, a: Step, st': State)
    requires Inv(c, st) && Inv(c, st') && MasterStep(st, a, st')
    ensures PhaseRank(c.Depth(), st'.curr, st'.phase, |st'.slaves|)
         <= PhaseRank(c.Depth(), st.curr, st.phase, |st.slaves|) - (if a.SendOk? || a.TailOk? then 4 else 1)
  {
    if a.UnlockNext? {
      UnlockDrops(c.Depth(), st.curr, |st.slaves|);
    } else {
      PhaseDrops(c, st, a, st', Times(c.Depth() - st.curr, 4 * |st.slaves| + 3));
    }
  }

  lemma SlaveStepShrinks(c: Config, st: State, a: Step, st': State)
    requires Inv(c, st) && Inv(c, st') && SlaveStep(st, a, st')
    ensures Measure(c, st') < Measure(c, st)
  {
    SlaveChangeRank(c, st, st', a.s, -1);
  }

  lemma StrandsShrink(c: Config, st: State, a: Step, st': State)
    requires Inv(c, st) && Inv(c, st') && NextBy(c, st, a, st') && (a.MasterStrand? || a.SlaveStrand?)
    ensures Measure(c, st') < Measure(c, st)
  {
    if a.MasterStrand? {
      StrandStepShrinks(c.Txns(), st.master, a.i, a.e, st'.master);
      assert SlaveRanks(c, st') == SlaveRanks(c, st);
    } else {
      OneSlaveChanged(c, st, st', a.s);
      SlaveRankAt(c, st, a.s);
      SlaveRankAt(c, st', a.s);
      StrandStepShrinks(c.SlaveTxns(a.s), st.slaves[a.s].node, a.i, a.e, st'.slaves[a.s].node);
    }
  }

  /** Every step decreases one measure over strand positions, command queues and `curr`. */
  lemma EveryStepShrinks(c: Config, st: State, st': State)
    requires Inv(c, st) && Next(c, st, st')
    ensures Inv(c, st') && Measure(c, st') < Measure(c, st)
  {
    NextKeepsInv(c, st, st');
    var a :| NextBy(c, st, a, st');
    match a {
      case MasterStrand(_, _) => StrandsShrink(c, st, a, st');
      case SlaveStrand(_, _, _) => StrandsShrink(c, st, a, st');
      case Receive(_) => SlaveStepShrinks(c, st, a, st');
      case SlaveRelease(_) => SlaveStepShrinks(c, st, a, st');
      case SlaveGiveUp(_) => SlaveStepShrinks(c, st, a, st');
      case _ => MasterStepShrinks(c, st, a, st');
    }
  }

  ghost predicate AllInv(c: Config, run: seq<State>) { forall t :: 0 <= t < |run| ==> Inv(c, run[t]) }

  ghost function Measures(c: Config, run: seq<State>): (ms: seq<int>)
    requires AllInv(c, run)
    ensures |ms| == |run| && forall t :: 0 <= t < |run| ==> ms[t] == Measure(c, run[t])
  {
    seq(|run|, t requires 0 <= t < |run| => Measure(c, run[t]))
  }

  predicate Drops(ms: seq<int>, t: nat)
    requires t + 1 < |ms|
  {
    ms[t + 1] < ms[t]
  }

  lemma {:induction false} Descends(ms: seq<int>, t: nat)
    requires t < |ms| && forall i :: 0 <= i < |ms| - 1 ==> Drops(ms, i)
    ensures t + ms[t] <= ms[0]
  {
    if t > 0 {
      Descends(ms, t - 1);
      assert Drops(ms, t - 1);
    }
  }

  lemma StepDrops(c: Config, run: seq<State>, t: nat)
    requires AllInv(c, run) && t + 1 < |run| && StepAt(c, run, t)
    ensures Drops(Measures(c, run), t)
  {
    EveryStepShrinks(c, run[t], run[t + 1]);
  }

  /** No run is longer than the measure of its first state. */
  lemma RunsAreBounded(c: Config, run: seq<State>)
    requires IsRun(c, run)
    ensures Inv(c, run[0]) && |run| <= Measure(c, run[0]) + 1
  {
    forall t | 0 <= t < |run|
      ensures Inv(c, run[t])
    {
      RunInv(c, run, t);
    }
    forall t | 0 <= t < |run| - 1
      ensures Drops(Measures(c, run), t)
    {
      assert StepAt(c, run, t);
      StepDrops(c, run, t);
    }
    Descends(Measures(c, run), |run| - 1);
    MeasureNonNegative(c, run[|run| - 1]);
  }
}
