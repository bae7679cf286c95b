/** Progress: a run without failures is never stuck before every strand, on the master and on
    every slave, has executed all its transactions. */
module RunProgress {
  import opened Counting
  import opened Barriers
  import opened Nodes
  import opened Run
  import opened RunInvariant
  import opened RunTermination

  predicate ProductiveEvent(e: Event) {
    e.Start? || e.Arrive? || e.Acquire? || e.Proceed? || e.Finish? || e.Leave?
  }

  /** Steps of a run in which no flowop, send, poll or wait fails. */
  predicate Productive(a: Step) {
    match a
    case MasterStrand(_, e) => ProductiveEvent(e)
    case SlaveStrand(_, _, e) => ProductiveEvent(e)
    case SendFail => false
    case PollError(_) => false
    case BeginAbort => false
    case TailFail => false
    case SlaveGiveUp(_) => false
    case _ => true
  }

  ghost predicate Clean(n: Node) {
    && n.errors == 0 && !n.killed
    && forall i :: 0 <= i < |n.strands| ==> !n.strands[i].GaveUp()
  }

  predicate Tail(phase: Phase) { phase.Draining? || phase.Reporting? || phase.Ended? }

  /** The final request for statistics is the last command a slave gets, and only then
      does it stop reading. */
  ghost predicate QueueShape(st: State, s: nat)
    requires s < |st.slaves|
  {
    var sl := st.slaves[s];
    && Clean(sl.node)
    && (forall q :: 0 <= q < |sl.queue| && !sl.queue[q].NextTxn? ==> sl.queue[q].SendStats? && q == |sl.queue| - 1)
    && (!sl.open ==> sl.queue == [] && sl.busy == -1)
    && (st.phase.Ended? || (st.phase.Reporting? && s < st.phase.next) ||
        (sl.open && forall q :: 0 <= q < |sl.queue| ==> sl.queue[q].NextTxn?))
  }

  ghost predicate Quiet(c: Config, st: State) {
    && Inv(c, st) && !st.lostSend && !st.phase.Aborting?
    && Clean(st.master)
    && forall s :: 0 <= s < |st.slaves| ==> QueueShape(st, s)
  }

  lemma InitQuiet(c: Config, st: State)
    requires Init(c, st)
    ensures Quiet(c, st)
  {
    InitInv(c, st);
  }

  lemma ProductiveStepStaysClean(txns: seq<nat>, n: Node, i: nat, e: Event, n': Node)
    requires StrandStep(txns, n, i, e, n') && ProductiveEvent(e) && Clean(n)
    ensures Clean(n')
  {
  }

  lemma MasterStepKeepsShape(c: Config, st: State, a: Step, st': State, s: nat)
    requires Quiet(c, st) && MasterStep(st, a, st') && Productive(a)
    requires s < |st.slaves| == |st'.slaves|
    ensures QueueShape(st', s)
  {
    assert QueueShape(st, s);
    if (a.SendOk? || a.TailOk?) && s == st.phase.next {
      var cmd := if a.SendOk? then NextTxn(st.curr) else SendStats;
      assert st'.slaves[s] == Enqueue(st.slaves[s], cmd);
    } else {
      assert st'.slaves[s] == st.slaves[s];
    }
  }

  lemma SlaveStepKeepsShape(c: Config, st: State, a: Step, st': State, s: nat)
    requires Quiet(c, st) && SlaveStep(st, a, st') && Productive(a)
    requires s < |st.slaves| == |st'.slaves|
    ensures QueueShape(st', s)
  {
    assert QueueShape(st, s);
    if a.s == s && a.Receive? {
      assert forall q :: 0 <= q < |st.slaves[s].queue| - 1 ==> st'.slaves[s].queue[q] == st.slaves[s].queue[q + 1];
    }
  }

  lemma StrandStepKeepsShape(c: Config, st: State, a: Step, st': State, s: nat)
    requires Quiet(c, st) && NextBy(c, st, a, st') && Productive(a) && (a.MasterStrand? || a.SlaveStrand?)
    requires s < |st.slaves| == |st'.slaves|
    ensures QueueShape(st', s)
  {
    assert QueueShape(st, s);
    if a.SlaveStrand? && a.s == s {
      ProductiveStepStaysClean(c.SlaveTxns(s), st.slaves[s].node, a.i, a.e, st'.slaves[s].node);
    }
  }

  lemma StaysQuiet(c: Config, st: State, a: Step, st': State)
    requires Quiet(c, st) && NextBy(c, st, a, st') && Productive(a)
    ensures Quiet(c, st')
  {
    assert Next(c, st, st');
    NextKeepsInv(c, st, st');
    if a.MasterStrand? {
      ProductiveStepStaysClean(c.Txns(), st.master, a.i, a.e, st'.master);
    }
    forall s | 0 <= s < |st'.slaves|
      ensures QueueShape(st', s)
    {
      match a {
        case MasterStrand(_, _) => StrandStepKeepsShape(c, st, a, st', s);
        case SlaveStrand(_, _, _) => StrandStepKeepsShape(c, st, a, st', s);
        case Receive(_) => SlaveStepKeepsShape(c, st, a, st', s);
        case SlaveRelease(_) => SlaveStepKeepsShape(c, st, a, st', s);
        case SlaveGiveUp(_) => SlaveStepKeepsShape(c, st, a, st', s);
        case _ => MasterStepKeepsShape(c, st, a, st', s);
      }
    }
  }

  /** A strand is held up only by a locked barrier. */
  ghost predicate Held(n: Node, i: nat)
    requires i < |n.strands|
  {
    var s := n.strands[i];
    s.pc.Exited? || (s.pc.Waiting? && 0 < s.arrived <= |n.bars| && n.bars[s.arrived - 1].locked)
  }

  lemma UnheldStrandSteps(txns: seq<nat>, n: Node, i: nat) returns (e: Event, n': Node)
    requires NodeInv(txns, n) && Clean(n) && i < |txns| && !Held(n, i)
    ensures StrandStep(txns, n, i, e, n') && ProductiveEvent(e)
  {
    var s := n.strands[i];
    match s.pc {
      case Spawned => e, n' := Start, Put(n, i, s.(pc := Idle));
      case Idle =>
        if s.arrived < txns[i] {
          e, n' := Arrive, Put(n, i, Strand(s.arrived + 1, Waiting)).(
            bars := n.bars[s.arrived := n.bars[s.arrived].Arrive()]);
        } else {
          e, n' := Leave, Put(n, i, s.(pc := Exited(false))).(finished := n.finished + 1);
        }
      case Waiting => e, n' := Acquire, Put(n, i, s.(pc := Released));
      case Released => e, n' := Proceed, Put(n, i, s.(pc := Running));
      case Running => e, n' := Finish, Put(n, i, s.(pc := Idle));
    }
  }

  ghost predicate Done(txns: seq<nat>, n: Node) {
    && |n.strands| == |txns|
    && forall i :: 0 <= i < |txns| ==> n.strands[i] == Strand(txns[i], Exited(false))
  }

  /** Every strand everywhere left normally after all its transactions. */
  ghost predicate Complete(c: Config, st: State) {
    && c.Valid() && |st.slaves| == |c.peers|
    && Done(c.Txns(), st.master)
    && forall s :: 0 <= s < |st.slaves| ==> Done(c.SlaveTxns(s), st.slaves[s].node)
  }

  ghost predicate CanStep(c: Config, st: State) {
    exists a, st' :: Productive(a) && NextBy(c, st, a, st')
  }

  ghost predicate AllHeld(n: Node) {
    forall i :: 0 <= i < |n.strands| ==> Held(n, i)
  }

  /** When every strand is held and all barriers below `k` are open, barrier `k` is reached. */
  lemma HeldReaches(txns: seq<nat>, n: Node, k: nat)
    requires NodeInv(txns, n) && Clean(n) && AllHeld(n) && k < |n.bars|
    requires forall j :: 0 <= j < k ==> !n.bars[j].locked
    ensures n.bars[k].Reached()
  {
    forall j | 0 <= j < |txns| && txns[j] > k
      ensures n.strands[j].arrived > k
    {
      assert Held(n, j) && !n.strands[j].GaveUp();
    }
    ReachedMeansAll(txns, n, k);
  }

  lemma OpenHeldIsDone(txns: seq<nat>, n: Node)
    requires NodeInv(txns, n) && Clean(n) && AllHeld(n)
    requires forall k :: 0 <= k < |n.bars| ==> !n.bars[k].locked
    ensures Done(txns, n)
  {
    forall i | 0 <= i < |txns|
      ensures n.strands[i] == Strand(txns[i], Exited(false))
    {
      assert Held(n, i) && !n.strands[i].GaveUp();
    }
  }

  lemma PollingCanStep(c: Config, st: State)
    requires Quiet(c, st) && AllHeld(st.master) && st.phase.Polling?
    ensures CanStep(c, st)
  {
    if st.curr < c.Depth() {
      HeldReaches(c.Txns(), st.master, st.curr);
      assert NextBy(c, st, BeginSend, st.(phase := Sending(0)));
    } else {
      assert NextBy(c, st, EndPoll, st.(phase := Draining));
    }
  }

  lemma SendingCanStep(c: Config, st: State)
    requires Quiet(c, st) && st.phase.Sending?
    ensures CanStep(c, st)
  {
    var i := st.phase.next;
    if i < |st.slaves| {
      assert NextBy(c, st, SendOk, PutSlave(st, i, Enqueue(st.slaves[i], NextTxn(st.curr))).(phase := Sending(i + 1)));
    } else {
      assert NextBy(c, st, EndSend, st.(phase := Unlocking));
    }
  }

  lemma UnlockingCanStep(c: Config, st: State)
    requires Quiet(c, st) && st.phase.Unlocking?
    ensures CanStep(c, st)
  {
    var st' := st.(master := Opened(st.master, st.curr), curr := st.curr + 1, phase := Polling);
    assert NextBy(c, st, UnlockNext, st');
  }

  lemma MasterCanStep(c: Config, st: State)
    requires Quiet(c, st) && AllHeld(st.master)
    ensures CanStep(c, st) || (Tail(st.phase) && Done(c.Txns(), st.master))
  {
    match st.phase {
      case Polling => PollingCanStep(c, st);
      case Sending(_) => SendingCanStep(c, st);
      case Unlocking => UnlockingCanStep(c, st);
      case _ => OpenHeldIsDone(c.Txns(), st.master);
    }
  }

  /** With everything announced, a slave that still holds strands can read or release. */
  lemma SlaveCanStep(c: Config, st: State, s: nat)
    requires Quiet(c, st) && Tail(st.phase) && s < |st.slaves| && AllHeld(st.slaves[s].node)
    ensures CanStep(c, st) || Done(c.SlaveTxns(s), st.slaves[s].node)
  {
    var sl, txns := st.slaves[s], c.SlaveTxns(s);
    assert SlaveInv(txns, c.SlaveGroup(s).ntxn, Announced(st, s), st.lostSend, sl) && QueueShape(st, s);
    LogIsPrefix(sl, st.curr);
    DealtWithIsOpen(sl.node.bars, sl.busy, sl.log);
    if 0 <= sl.busy {
      HeldReaches(txns, sl.node, sl.busy);
      assert NextBy(c, st, SlaveRelease(s), PutSlave(st, s, sl.(busy := -1, node := Opened(sl.node, sl.busy))));
    } else if sl.queue != [] {
      assert NextBy(c, st, Receive(s), PutSlave(st, s, Handle(sl)));
    } else {
      assert sl.log == Indices(sl);
      OpenHeldIsDone(txns, sl.node);
    }
  }

  lemma DealtWithIsOpen(bars: seq<Bar>, busy: int, log: seq<nat>)
    requires LatchInv(bars, busy, log) && log == Upto(|log|)
    ensures forall k :: 0 <= k < |bars| && k < |log| && k != busy ==> !bars[k].locked
    ensures busy != -1 ==> busy == |log| - 1
  {
    forall k | 0 <= k < |bars| && k < |log| && k != busy
      ensures !bars[k].locked
    {
      assert log[k] == k;
    }
  }

  lemma LogIsPrefix(sl: Slave, announced: nat)
    requires Indices(sl) == Upto(announced)
    ensures |sl.log| <= announced && sl.log == Upto(|sl.log|)
  {
    assert forall p :: 0 <= p < |sl.log| ==> sl.log[p] == Indices(sl)[p];
  }

  /** No reachable failure-free state is stuck before the run is complete. */
  lemma NeverStuck(c: Config, st: State)
    requires Quiet(c, st)
    ensures CanStep(c, st) || Complete(c, st)
  {
    if i :| 0 <= i < |st.master.strands| && !Held(st.master, i) {
      var e, n' := UnheldStrandSteps(c.Txns(), st.master, i);
      assert NextBy(c, st, MasterStrand(i, e), st.(master := n'));
    } else if s, i :| 0 <= s < |st.slaves| && 0 <= i < |st.slaves[s].node.strands| && !Held(st.slaves[s].node, i) {
      assert SlaveInv(c.SlaveTxns(s), c.SlaveGroup(s).ntxn, Announced(st, s), st.lostSend, st.slaves[s]) &&
             QueueShape(st, s);
      var e, n' := UnheldStrandSteps(c.SlaveTxns(s), st.slaves[s].node, i);
      assert NextBy(c, st, SlaveStrand(s, i, e), PutSlave(st, s, st.slaves[s].(node := n')));
    } else {
      MasterCanStep(c, st);
      if !CanStep(c, st) {
        forall s | 0 <= s < |st.slaves|
          ensures Done(c.SlaveTxns(s), st.slaves[s].node)
        {
          SlaveCanStep(c, st, s);
        }
      }
    }
  }

  /** A run in which every step is productive. */
  ghost predicate ProductiveRun(c: Config, run: seq<State>) {
    && |run| > 0 && Init(c, run[0])
    && forall t :: 0 <= t < |run| - 1 ==> ProductiveAt(c, run, t)
  }

  ghost predicate ProductiveAt(c: Config, run: seq<State>, t: nat)
    requires t + 1 < |run|
  {
    exists a :: Productive(a) && NextBy(c, run[t], a, run[t + 1])
  }

  lemma {:induction false} ProductiveRunQuiet(c: Config, run: seq<State>, t: nat)
    requires ProductiveRun(c, run) && t < |run|
    ensures Quiet(c, run[t])
  {
    if t == 0 {
      InitQuiet(c, run[0]);
    } else {
      ProductiveRunQuiet(c, run, t - 1);
      assert ProductiveAt(c, run, t - 1);
      var a :| Productive(a) && NextBy(c, run[t - 1], a, run[t - 1 + 1]);
      StaysQuiet(c, run[t - 1], a, run[t]);
    }
  }

  lemma ProductiveRunIsRun(c: Config, run: seq<State>)
    requires ProductiveRun(c, run)
    ensures IsRun(c, run)
  {
    forall t | 0 <= t < |run| - 1
      ensures StepAt(c, run, t)
    {
      assert ProductiveAt(c, run, t);
    }
  }

  /** Failure-free runs are finite, and where one cannot go on, every strand on every machine
      has executed all transactions of its group. */
  lemma FailureFreeRunsComplete(c: Config, run: seq<State>)
    requires ProductiveRun(c, run)
    ensures Inv(c, run[0]) && |run| <= Measure(c, run[0]) + 1
    ensures CanStep(c, run[|run| - 1]) || Complete(c, run[|run| - 1])
  {
    ProductiveRunIsRun(c, run);
    RunsAreBounded(c, run);
    ProductiveRunQuiet(c, run, |run| - 1);
    NeverStuck(c, run[|run| - 1]);
  }
}
