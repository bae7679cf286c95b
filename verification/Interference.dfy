/** What the threads of a run do to each other: one thread is followed step by step, everybody else
    acts at any moment.  Whatever the others do extends the run, and there are things they cannot
    touch (src/master.c, src/slave.c, src/execute.c). */
module Interference {
  import opened Counting
  import opened Barriers
  import opened Nodes
  import opened Run

  /** The machine a strand belongs to. */
  datatype Place = OnMaster | OnSlave(s: nat)

  datatype Thread = MasterMain | SlaveMain(s: nat) | StrandMain(place: Place, i: nat)

  /** Steps of the thread itself; all others are taken by strands, slaves and the master at will.
      To be killed is not a step of the strand's own. */
  predicate Mine(who: Thread, a: Step) {
    match who
    case MasterMain => !a.MasterStrand? && !a.SlaveStrand? && !a.Receive? && !a.SlaveRelease? && !a.SlaveGiveUp?
    case SlaveMain(s) => (a.Receive? || a.SlaveRelease? || a.SlaveGiveUp?) && a.s == s
    case StrandMain(OnMaster, i) => a.MasterStrand? && a.i == i && !a.e.Kill?
    case StrandMain(OnSlave(s), i) => a.SlaveStrand? && a.s == s && a.i == i && !a.e.Kill?
  }

  ghost predicate OthersStep(c: Config, who: Thread, st: State, st': State) {
    exists a :: !Mine(who, a) && NextBy(c, st, a, st')
  }

  ghost predicate OthersAt(c: Config, who: Thread, path: seq<State>, t: nat)
    requires t + 1 < |path|
  {
    OthersStep(c, who, path[t], path[t + 1])
  }

  ghost predicate OthersPath(c: Config, who: Thread, path: seq<State>) {
    |path| > 0 && forall t :: 0 <= t < |path| - 1 ==> OthersAt(c, who, path, t)
  }

  ghost predicate ByOthers(c: Config, who: Thread, st: State, st': State) {
    exists path :: OthersPath(c, who, path) && path[0] == st && path[|path| - 1] == st'
  }

  /** What happens between two steps of the thread, as a function of when and where. */
  ghost predicate Interferes(c: Config, who: Thread, others: (nat, State) -> State) {
    forall t, st {:trigger ByOthers(c, who, st, others(t, st))} :: ByOthers(c, who, st, others(t, st))
  }

  // ---- What the others cannot touch ----

  /** Slave s has read NEXT_TXN k, or still has it in its queue. */
  ghost predicate Heard(sl: Slave, k: nat) { k in sl.log || NextTxn(k) in sl.queue }

  /** Slave s has an order other than NEXT_TXN before it, or has stopped reading. */
  ghost predicate Ordered(sl: Slave, cmd: Command) { !sl.open || cmd in sl.queue }

  ghost predicate StillHeard(a: Slave, b: Slave) {
    && (forall k :: Heard(a, k) ==> Heard(b, k))
    && (Ordered(a, Abort) ==> Ordered(b, Abort)) && (Ordered(a, SendStats) ==> Ordered(b, SendStats))
  }

  /** The main thread's own progress, the number of barriers and slaves; an error stays an error,
      and a command that has been sent stays sent. */
  ghost predicate MasterKept(st: State, st': State) {
    && st'.phase == st.phase && st'.curr == st.curr && st'.lostSend == st.lostSend
    && |st'.slaves| == |st.slaves| && |st'.master.bars| == |st.master.bars|
    && (st.master.errors > 0 ==> st'.master.errors > 0) && (st.master.killed ==> st'.master.killed)
    && (forall s :: 0 <= s < |st.slaves| ==> StillHeard(st.slaves[s], st'.slaves[s]))
  }

  ghost predicate SlaveKept(s: nat, st: State, st': State) {
    && s < |st.slaves| == |st'.slaves|
    && var a, b := st.slaves[s], st'.slaves[s];
       && b.busy == a.busy && b.open == a.open && b.log == a.log && a.queue <= b.queue
       && |b.node.bars| == |a.node.bars|
  }

  predicate HasPlace(st: State, p: Place) { p.OnSlave? ==> p.s < |st.slaves| }

  function NodeAt(st: State, p: Place): Node
    requires HasPlace(st, p)
  {
    if p.OnMaster? then st.master else st.slaves[p.s].node
  }

  /** The strand is where it was, unless it has been killed. */
  ghost predicate StrandKept(p: Place, i: nat, st: State, st': State) {
    && HasPlace(st, p) && HasPlace(st', p)
    && var a, b := NodeAt(st, p), NodeAt(st', p);
       && |b.bars| == |a.bars| && i < |a.strands| == |b.strands|
       && (b.strands[i] == a.strands[i] || b.strands[i] == a.strands[i].(pc := Exited(true)))
  }

  ghost predicate Kept(who: Thread, st: State, st': State) {
    match who
    case MasterMain => MasterKept(st, st')
    case SlaveMain(s) => SlaveKept(s, st, st')
    case StrandMain(p, i) => StrandKept(p, i, st, st')
  }

  ghost predicate Present(who: Thread, st: State) {
    match who
    case MasterMain => true
    case SlaveMain(s) => s < |st.slaves|
    case StrandMain(p, i) => HasPlace(st, p) && i < |NodeAt(st, p).strands|
  }

  lemma HandleKeepsHeard(sl: Slave)
    requires sl.queue != []
    ensures StillHeard(sl, Handle(sl))
  {
    assert sl.queue == [sl.queue[0]] + sl.queue[1..];
  }

  lemma OthersKeepMaster(c: Config, st: State, a: Step, st': State)
    requires !Mine(MasterMain, a) && NextBy(c, st, a, st')
    ensures MasterKept(st, st')
  {
    if a.Receive? {
      HandleKeepsHeard(st.slaves[a.s]);
    }
  }

  lemma MasterKeepsSlave(s: nat, st: State, a: Step, st': State)
    requires s < |st.slaves| && MasterStep(st, a, st')
    ensures SlaveKept(s, st, st')
  {
  }

  lemma StrandKeepsSlave(c: Config, s: nat, st: State, a: Step, st': State)
    requires s < |st.slaves| && NextBy(c, st, a, st') && (a.MasterStrand? || a.SlaveStrand?)
    ensures SlaveKept(s, st, st')
  {
  }

  lemma OthersKeepSlave(c: Config, s: nat, st: State, a: Step, st': State)
    requires s < |st.slaves| && !Mine(SlaveMain(s), a) && NextBy(c, st, a, st')
    ensures SlaveKept(s, st, st')
  {
    if a.MasterStrand? || a.SlaveStrand? {
      StrandKeepsSlave(c, s, st, a, st');
    } else if Mine(MasterMain, a) {
      MasterKeepsSlave(s, st, a, st');
    } else {
      assert st'.slaves[s] == st.slaves[s];
    }
  }

  lemma MainsKeepStrands(c: Config, p: Place, st: State, a: Step, st': State)
    requires HasPlace(st, p) && NextBy(c, st, a, st') && !a.MasterStrand? && !a.SlaveStrand?
    ensures HasPlace(st', p)
    ensures NodeAt(st', p).strands == NodeAt(st, p).strands && |NodeAt(st', p).bars| == |NodeAt(st, p).bars|
  {
    if p.OnSlave? && !Mine(MasterMain, a) && a.s != p.s {
      assert st'.slaves[p.s] == st.slaves[p.s];
    }
  }

  lemma OthersKeepStrand(c: Config, p: Place, i: nat, st: State, a: Step, st': State)
    requires Present(StrandMain(p, i), st) && !Mine(StrandMain(p, i), a) && NextBy(c, st, a, st')
    ensures StrandKept(p, i, st, st')
  {
    if a.MasterStrand? {
      StrandStepMoves(c.Txns(), st.master, a.i, a.e, st'.master);
    } else if a.SlaveStrand? {
      StrandStepMoves(c.SlaveTxns(a.s), st.slaves[a.s].node, a.i, a.e, st'.slaves[a.s].node);
    } else {
      MainsKeepStrands(c, p, st, a, st');
    }
  }

  lemma OthersKeep(c: Config, who: Thread, st: State, st': State)
    requires Present(who, st) && OthersStep(c, who, st, st')
    ensures Kept(who, st, st') && Present(who, st')
  {
    var a :| !Mine(who, a) && NextBy(c, st, a, st');
    match who {
      case MasterMain => OthersKeepMaster(c, st, a, st');
      case SlaveMain(s) => OthersKeepSlave(c, s, st, a, st');
      case StrandMain(p, i) => OthersKeepStrand(c, p, i, st, a, st');
    }
  }

  lemma KeptTwice(who: Thread, a: State, b: State, c: State)
    requires Kept(who, a, b) && Kept(who, b, c)
    ensures Kept(who, a, c)
  {
  }

  lemma KeptSame(who: Thread, st: State)
    requires Present(who, st)
    ensures Kept(who, st, st)
  {
  }

  // ---- A run goes on ----

  lemma PathPrefix(c: Config, who: Thread, path: seq<State>, n: nat)
    requires OthersPath(c, who, path) && 0 < n <= |path|
    ensures OthersPath(c, who, path[..n])
  {
    forall t | 0 <= t < n - 1
      ensures OthersAt(c, who, path[..n], t)
    {
      assert OthersAt(c, who, path, t);
    }
  }

  lemma OneStepMore(c: Config, run: seq<State>, st: State)
    requires IsRun(c, run) && Next(c, run[|run| - 1], st)
    ensures IsRun(c, run + [st])
  {
    forall t | 0 <= t < |run|
      ensures StepAt(c, run + [st], t)
    {
      if t < |run| - 1 {
        assert StepAt(c, run, t);
      }
    }
  }

  /** A run goes on with what the others do, and the thread finds its own things untouched. */
  lemma {:induction false} RunGoesOn(c: Config, who: Thread, run: seq<State>, path: seq<State>)
      returns (run': seq<State>)
    requires IsRun(c, run) && OthersPath(c, who, path) && path[0] == run[|run| - 1] && Present(who, path[0])
    ensures IsRun(c, run') && run <= run' && run'[|run'| - 1] == path[|path| - 1]
    ensures Kept(who, path[0], path[|path| - 1]) && Present(who, path[|path| - 1])
    decreases |path|
  {
    var n := |path| - 1;
    if n == 0 {
      run' := run;
      KeptSame(who, path[0]);
    } else {
      PathPrefix(c, who, path, n);
      var shorter := RunGoesOn(c, who, run, path[..n]);
      assert OthersAt(c, who, path, n - 1);
      OthersKeep(c, who, path[n - 1], path[n]);
      KeptTwice(who, path[0], path[n - 1], path[n]);
      OneStepMore(c, shorter, path[n]);
      run' := shorter + [path[n]];
    }
  }

  lemma Interrupted(c: Config, who: Thread, others: (nat, State) -> State, time: nat, run: seq<State>)
    returns (run': seq<State>)
    requires Interferes(c, who, others) && IsRun(c, run) && Present(who, run[|run| - 1])
    ensures var st, st' := run[|run| - 1], others(time, run[|run| - 1]);
            && IsRun(c, run') && run <= run' && run'[|run'| - 1] == st'
            && Kept(who, st, st') && Present(who, st')
  {
    var st := run[|run| - 1];
    assert ByOthers(c, who, st, others(time, st));
    var path :| OthersPath(c, who, path) && path[0] == st && path[|path| - 1] == others(time, st);
    run' := RunGoesOn(c, who, run, path);
  }

  // ---- The barriers as the objects all threads share ----

  /** The table of barriers holds these values. */
  ghost predicate Mirrors(bar: array<Barrier>, bars: seq<Bar>)
    reads bar, Objects(bar)
  {
    Table(bar) && |bars| <= NUM_BARRIER && forall k :: 0 <= k < |bars| ==> bar[k].View() == bars[k]
  }

  /** What the others do to the shared barriers. */
  method Meanwhile(bar: array<Barrier>, bars: seq<Bar>)
    requires Table(bar) && |bars| <= NUM_BARRIER
    modifies Objects(bar)
    ensures Mirrors(bar, bars)
  {
    for k := 0 to |bars|
      invariant forall i :: 0 <= i < k ==> bar[i].View() == bars[i]
    {
      bar[k].count, bar[k].limit, bar[k].locked := bars[k].count, bars[k].limit, bars[k].locked;
    }
  }

  /** One barrier has changed. */
  lemma MirrorsOne(bar: array<Barrier>, bars: seq<Bar>, k: nat, b: Bar)
    requires Table(bar) && |bars| <= NUM_BARRIER && k < |bars| && bar[k].View() == b
    requires forall i :: 0 <= i < |bars| && i != k ==> bar[i].View() == bars[i]
    ensures Mirrors(bar, bars[k := b])
  {
  }
}
