/** The barrier-stepped run: the master's polling loop, the commands it sends, and the slaves'
    polling loops, interleaved with every strand (src/master.c, src/slave.c). */
module Run {
  import opened Counting
  import opened Barriers
  import opened Nodes

  /** `peers[s]` is the group whose control connection leads to slave `s`. */
  datatype Config = Config(groups: seq<GroupShape>, peers: seq<nat>) {
    ghost predicate Valid() { forall s :: 0 <= s < |peers| ==> peers[s] < |groups| }

    function Txns(): seq<nat> { StrandTxns(groups) }

    function Depth(): nat { MaxTxn(groups) }

    function SlaveGroup(s: nat): GroupShape
      requires s < |peers| && peers[s] < |groups|
    {
      groups[peers[s]]
    }

    function SlaveTxns(s: nat): seq<nat>
      requires s < |peers| && peers[s] < |groups|
    {
      StrandTxns([SlaveGroup(s)])
    }
  }

  datatype Command = NextTxn(k: nat) | Abort | SendStats

  /** Where the master is in master_poll. */
  datatype Phase =
    | Polling
    | Sending(next: nat)     // in send_command_to_slaves, about to write to slave `next`
    | Unlocking
    | Draining               // the second loop
    | Aborting(next: nat)
    | Reporting(next: nat)
    | Ended

  /** A slave: its node, the unread commands of its control connection, the index
      wait_unlock_barrier is working on, and every NEXT_TXN index read so far. */
  datatype Slave = Slave(node: Node, queue: seq<Command>, busy: int, open: bool, log: seq<nat>)

  datatype State = State(master: Node, phase: Phase, curr: nat, slaves: seq<Slave>, lostSend: bool)

  datatype Step =
    | MasterStrand(i: nat, e: Event)
    | SlaveStrand(s: nat, i: nat, e: Event)
    | BeginSend | SendOk | SendFail | EndSend | UnlockNext
    | PollError(errors: nat) | EndPoll
    | BeginAbort | BeginReport | TailOk | TailFail | EndTail
    | Receive(s: nat) | SlaveRelease(s: nat) | SlaveGiveUp(s: nat)

  ghost predicate Init(c: Config, st: State) {
    && c.Valid()
    && Fresh(c.Txns(), c.Depth(), st.master)
    && st.phase == Polling && st.curr == 0 && !st.lostSend
    && |st.slaves| == |c.peers|
    && forall s :: 0 <= s < |c.peers| ==>
         && Fresh(c.SlaveTxns(s), c.SlaveGroup(s).ntxn, st.slaves[s].node)
         && st.slaves[s] == Slave(st.slaves[s].node, [], -1, true, [])
  }

  function PutSlave(st: State, s: nat, sl: Slave): State
    requires s < |st.slaves|
  {
    st.(slaves := st.slaves[s := sl])
  }

  function Enqueue(sl: Slave, cmd: Command): Slave {
    sl.(queue := sl.queue + [cmd])
  }

  /** What reading one command does: an index the slave has no transaction for
      releases nobody, an abort kills the strands, a request for statistics ends the loop. */
  function Handle(sl: Slave): Slave
    requires sl.queue != []
  {
    var rest := sl.(queue := sl.queue[1..]);
    match sl.queue[0]
    case NextTxn(k) => rest.(log := sl.log + [k], busy := if k < |sl.node.bars| then k else -1)
    case Abort => rest.(open := false, node := sl.node.(killed := true))
    case SendStats => rest.(open := false)
  }

  /** One step of the main thread.  PollError is the loop breaking on an error, raised by a
      strand or by the poll; as the test races with the strands, BeginSend does not assume
      that the counter is still zero. */
  ghost predicate MasterStep(st: State, a: Step, st': State) {
    var n := |st.slaves|;
    match a
    case BeginSend =>
      && st.phase.Polling? && st.curr < |st.master.bars|
      && st.master.bars[st.curr].Reached() && st' == st.(phase := Sending(0))
    case SendOk =>
      && st.phase.Sending? && st.phase.next < n
      && st' == PutSlave(st, st.phase.next, Enqueue(st.slaves[st.phase.next], NextTxn(st.curr))).(
                  phase := Sending(st.phase.next + 1))
    case SendFail => st.phase.Sending? && st.phase.next < n && st' == st.(phase := Unlocking, lostSend := true)
    case EndSend => st.phase.Sending? && st.phase.next == n && st' == st.(phase := Unlocking)
    case UnlockNext =>
      && st.phase.Unlocking? && st.curr < |st.master.bars|
      && st' == st.(master := Opened(st.master, st.curr), curr := st.curr + 1, phase := Polling)
    case PollError(errors) =>
      && st.phase.Polling? && st.curr < |st.master.bars| && errors > 0
      && st' == st.(phase := Draining, master := st.master.(errors := errors))
    case EndPoll => st.phase.Polling? && st.curr == |st.master.bars| && st' == st.(phase := Draining)
    case BeginAbort =>
      && st.phase.Draining? && st.master.errors > 0
      && st' == st.(phase := Aborting(0), master := st.master.(killed := true))
    case BeginReport =>
      && st.phase.Draining? && st.master.errors == 0 && st.master.finished > 0
      && st' == st.(phase := Reporting(0))
    case TailOk =>
      && (st.phase.Aborting? || st.phase.Reporting?) && st.phase.next < n
      && st' == PutSlave(st, st.phase.next, Enqueue(st.slaves[st.phase.next],
                                                    if st.phase.Aborting? then Abort else SendStats)).(
                  phase := if st.phase.Aborting? then Aborting(st.phase.next + 1) else Reporting(st.phase.next + 1))
    case TailFail => (st.phase.Aborting? || st.phase.Reporting?) && st.phase.next < n && st' == st.(phase := Ended)
    case EndTail => (st.phase.Aborting? || st.phase.Reporting?) && st.phase.next == n && st' == st.(phase := Ended)
    case _ => false
  }

  ghost predicate SlaveStep(st: State, a: Step, st': State) {
    match a
    case Receive(s) =>
      && s < |st.slaves| && st.slaves[s].open && st.slaves[s].busy == -1 && st.slaves[s].queue != []
      && st' == PutSlave(st, s, Handle(st.slaves[s]))
    case SlaveRelease(s) =>
      && s < |st.slaves| && st.slaves[s].open && 0 <= st.slaves[s].busy
      && var sl := st.slaves[s];
         && sl.busy < |sl.node.bars| && sl.node.bars[sl.busy].Reached()
         && st' == PutSlave(st, s, sl.(busy := -1, node := Opened(sl.node, sl.busy)))
    case SlaveGiveUp(s) =>
      && s < |st.slaves| && st.slaves[s].open
      && st' == PutSlave(st, s, st.slaves[s].(open := false, node := st.slaves[s].node.(killed := true)))
    case _ => false
  }

  ghost predicate NextBy(c: Config, st: State, a: Step, st': State) {
    match a
    case MasterStrand(i, e) =>
      StrandStep(c.Txns(), st.master, i, e, st'.master) && st' == st.(master := st'.master)
    case SlaveStrand(s, i, e) =>
      && s < |st.slaves| == |c.peers| == |st'.slaves| && c.Valid()
      && StrandStep(c.SlaveTxns(s), st.slaves[s].node, i, e, st'.slaves[s].node)
      && st' == PutSlave(st, s, st.slaves[s].(node := st'.slaves[s].node))
    case Receive(_) => SlaveStep(st, a, st')
    case SlaveRelease(_) => SlaveStep(st, a, st')
    case SlaveGiveUp(_) => SlaveStep(st, a, st')
    case _ => MasterStep(st, a, st')
  }

  ghost predicate Next(c: Config, st: State, st': State) {
    exists a :: NextBy(c, st, a, st')
  }

  ghost predicate StepAt(c: Config, run: seq<State>, t: nat)
    requires t + 1 < |run|
  {
    Next(c, run[t], run[t + 1])
  }

  /** A finite run: every prefix of an execution is one. */
  ghost predicate IsRun(c: Config, run: seq<State>) {
    && |run| > 0 && Init(c, run[0])
    && forall t :: 0 <= t < |run| - 1 ==> StepAt(c, run, t)
  }
}
