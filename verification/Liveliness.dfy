/** What one thread can count on when everybody else goes on as long as there is something to do and
    nothing of it fails: the barrier it waits for is reached, or opened (src/master.c, src/slave.c,
    src/execute.c). */
module Liveliness {
  import opened Counting
  import opened Barriers
  import opened Nodes
  import opened Run
  import opened RunInvariant
  import opened RunTermination
  import opened RunProgress
  import opened Interference

  /** A step of somebody else in which nothing fails. */
  ghost predicate OthersProduce(c: Config, who: Thread, st: State, st': State) {
    exists a :: !Mine(who, a) && Productive(a) && NextBy(c, st, a, st')
  }

  ghost predicate ProduceAt(c: Config, who: Thread, path: seq<State>, t: nat)
    requires t + 1 < |path|
  {
    OthersProduce(c, who, path[t], path[t + 1])
  }

  ghost predicate ProductivePath(c: Config, who: Thread, path: seq<State>) {
    |path| > 0 && forall t :: 0 <= t < |path| - 1 ==> ProduceAt(c, who, path, t)
  }

  /** Nobody else can do anything before the thread does. */
  ghost predicate OthersRest(c: Config, who: Thread, st: State) { forall st' :: !OthersProduce(c, who, st, st') }

  ghost predicate GoOnToRest(c: Config, who: Thread, st: State, st': State) {
    OthersRest(c, who, st') &&
    exists path :: ProductivePath(c, who, path) && path[0] == st && path[|path| - 1] == st'
  }

  /** From every failure-free state the others go on until they can do nothing more. */
  ghost predicate Lively(c: Config, who: Thread, others: (nat, State) -> State) {
    forall t, st {:trigger GoOnToRest(c, who, st, others(t, st))} ::
      Quiet(c, st) ==> GoOnToRest(c, who, st, others(t, st))
  }

  // ---- There are such others ----

  lemma PathMore(c: Config, who: Thread, st: State, path: seq<State>)
    requires ProductivePath(c, who, path) && OthersProduce(c, who, st, path[0])
    ensures ProductivePath(c, who, [st] + path)
  {
    var longer := [st] + path;
    forall t | 0 <= t < |longer| - 1
      ensures ProduceAt(c, who, longer, t)
    {
      if t > 0 {
        assert ProduceAt(c, who, path, t - 1);
      }
    }
  }

  lemma ProducedIsQuiet(c: Config, who: Thread, st: State, st': State)
    requires Quiet(c, st) && OthersProduce(c, who, st, st')
    ensures Quiet(c, st') && OthersStep(c, who, st, st') && Measure(c, st') < Measure(c, st)
    ensures ProductiveStep(c, st, st')
  {
    var a :| !Mine(who, a) && Productive(a) && NextBy(c, st, a, st');
    StaysQuiet(c, st, a, st');
    assert Next(c, st, st');
    EveryStepShrinks(c, st, st');
  }

  ghost predicate ProductiveStep(c: Config, st: State,
                                 st': State) { exists a :: Productive(a) && NextBy(c, st, a, st') }

  lemma {:induction false} SomeRest(c: Config, who: Thread, st: State) returns (path: seq<State>)
    requires Quiet(c, st)
    ensures ProductivePath(c, who, path) && path[0] == st && OthersRest(c, who, path[|path| - 1])
    decreases Measure(c, st)
  {
    MeasureNonNegative(c, st);
    if st' :| OthersProduce(c, who, st, st') {
      ProducedIsQuiet(c, who, st, st');
      MeasureNonNegative(c, st');
      path := SomeRest(c, who, st');
      PathMore(c, who, st, path);
      path := [st] + path;
    } else {
      path := [st];
    }
  }

  ghost function Rested(c: Config, who: Thread, st: State): (st': State)
    ensures Quiet(c, st) ==> GoOnToRest(c, who, st, st')
    ensures ByOthers(c, who, st, st')
  {
    StandStill(c, who, st);
    if Quiet(c, st) then
      SomeRestExists(c, who, st);
      var st' :| GoOnToRest(c, who, st, st') && ByOthers(c, who, st, st');
      st'
    else st
  }

  lemma StandStill(c: Config, who: Thread, st: State)
    ensures ByOthers(c, who, st, st)
  {
    assert OthersPath(c, who, [st]);
  }

  lemma SomeRestExists(c: Config, who: Thread, st: State)
    requires Quiet(c, st)
    ensures exists st' :: GoOnToRest(c, who, st, st') && ByOthers(c, who, st, st')
  {
    var path := SomeRest(c, who, st);
    PathIsOthers(c, who, path);
    assert GoOnToRest(c, who, st, path[|path| - 1]) && ByOthers(c, who, st, path[|path| - 1]);
  }

  lemma PathIsOthers(c: Config, who: Thread, path: seq<State>)
    requires ProductivePath(c, who, path)
    ensures OthersPath(c, who, path)
  {
    forall t | 0 <= t < |path| - 1
      ensures OthersAt(c, who, path, t)
    {
      assert ProduceAt(c, who, path, t);
    }
  }

  /** For every thread of every workorder the others can be so. */
  lemma LivelyOthersExist(c: Config, who: Thread)
    ensures exists others :: Interferes(c, who, others) && Lively(c, who, others)
  {
    ghost var others := (t: nat, st: State) => Rested(c, who, st);
    assert Interferes(c, who, others) && Lively(c, who, others);
  }

  // ---- A productive run goes on ----

  lemma OneStepProduced(c: Config, run: seq<State>, a: Step, st: State)
    requires ProductiveRun(c, run) && Productive(a) && NextBy(c, run[|run| - 1], a, st)
    ensures ProductiveRun(c, run + [st])
  {
    var longer := run + [st];
    forall t | 0 <= t < |longer| - 1
      ensures ProductiveAt(c, longer, t)
    {
      if t < |run| - 1 {
        assert ProductiveAt(c, run, t);
      } else {
        assert Productive(a) && NextBy(c, longer[t], a, longer[t + 1]);
      }
    }
  }

  lemma StepExtends(c: Config, run: seq<State>, a: Step, st: State)
    requires IsRun(c, run) && NextBy(c, run[|run| - 1], a, st)
    ensures IsRun(c, run + [st])
    ensures ProductiveRun(c, run) && Productive(a) ==> ProductiveRun(c, run + [st])
  {
    OneStepMore(c, run, st);
    if ProductiveRun(c, run) && Productive(a) {
      OneStepProduced(c, run, a, st);
    }
  }

  lemma {:induction false} PathProduced(c: Config, who: Thread, run: seq<State>, path: seq<State>)
      returns (run': seq<State>)
    requires ProductiveRun(c, run) && ProductivePath(c, who, path) && path[0] == run[|run| - 1]
    ensures ProductiveRun(c, run') && run <= run' && run'[|run'| - 1] == path[|path| - 1]
    decreases |path|
  {
    var n := |path| - 1;
    run' := run;
    if n > 0 {
      FrontProduces(c, who, path);
      run' := PathProduced(c, who, run, path[..n]);
      var a := LastProduced(c, who, path);
      OneStepProduced(c, run', a, path[n]);
      run' := run' + [path[n]];
    }
  }

  lemma FrontProduces(c: Config, who: Thread, path: seq<State>)
    requires ProductivePath(c, who, path) && |path| > 1
    ensures ProductivePath(c, who, path[..|path| - 1])
  {
    var front := path[..|path| - 1];
    forall t | 0 <= t < |front| - 1
      ensures ProduceAt(c, who, front, t)
    {
      assert ProduceAt(c, who, path, t);
    }
  }

  lemma LastProduced(c: Config, who: Thread, path: seq<State>) returns (a: Step)
    requires ProductivePath(c, who, path) && |path| > 1
    ensures Productive(a) && NextBy(c, path[|path| - 2], a, path[|path| - 1])
  {
    assert ProduceAt(c, who, path, |path| - 2);
    a :| !Mine(who, a) && Productive(a) && NextBy(c, path[|path| - 2], a, path[|path| - 2 + 1]);
  }

  lemma LivelyInRun(c: Config, who: Thread, others: (nat, State) -> State, time: nat, run: seq<State>)
    requires Lively(c, who, others) && ProductiveRun(c, run)
    ensures GoOnToRest(c, who, run[|run| - 1], others(time, run[|run| - 1]))
  {
    ProductiveRunQuiet(c, run, |run| - 1);
  }

  lemma GoneOnToRest(c: Config, who: Thread, run: seq<State>, st': State) returns (run': seq<State>)
    requires ProductiveRun(c, run) && GoOnToRest(c, who, run[|run| - 1], st')
    ensures ProductiveRun(c, run') && run <= run' && run'[|run'| - 1] == st'
  {
    var path :| ProductivePath(c, who, path) && path[0] == run[|run| - 1] && path[|path| - 1] == st';
    run' := PathProduced(c, who, run, path);
  }

  lemma LivelyGoOn(c: Config, who: Thread, others: (nat, State) -> State, time: nat, run: seq<State>)
    returns (run': seq<State>)
    requires Lively(c, who, others) && ProductiveRun(c, run)
    ensures IsRun(c, run') && run <= run' && run'[|run'| - 1] == others(time, run[|run| - 1])
    ensures ProductiveRun(c, run') && OthersRest(c, who, run'[|run'| - 1])
  {
    LivelyInRun(c, who, others, time, run);
    run' := GoneOnToRest(c, who, run, others(time, run[|run| - 1]));
    ProductiveRunIsRun(c, run');
  }

  /** What the others do between two steps of the thread, when they are lively. */
  lemma Settled(c: Config, who: Thread, others: (nat, State) -> State, time: nat, run: seq<State>)
    returns (run': seq<State>)
    requires Interferes(c, who, others) && IsRun(c, run) && Present(who, run[|run| - 1])
    requires Lively(c, who, others) && ProductiveRun(c, run)
    ensures IsRun(c, run') && run <= run' && run'[|run'| - 1] == others(time, run[|run| - 1])
    ensures Kept(who, run[|run| - 1], run'[|run'| - 1]) && Present(who, run'[|run'| - 1])
    ensures ProductiveRun(c, run') && OthersRest(c, who, run'[|run'| - 1])
  {
    run' := Interrupted(c, who, others, time, run);
    run' := LivelyGoOn(c, who, others, time, run);
  }

  // ---- What a thread finds then ----

  lemma MasterStrandsHeld(c: Config, who: Thread, st: State)
    requires Quiet(c, st) && OthersRest(c, who, st) && !who.StrandMain?
    ensures AllHeld(st.master)
  {
    forall i | 0 <= i < |st.master.strands|
      ensures Held(st.master, i)
    {
      if !Held(st.master, i) {
        var e, n' := UnheldStrandSteps(c.Txns(), st.master, i);
        assert !Mine(who, MasterStrand(i, e)) && NextBy(c, st, MasterStrand(i, e), st.(master := n'));
        assert OthersProduce(c, who, st, st.(master := n'));
      }
    }
  }

  /** The master finds all strands at its next barrier. */
  lemma RestReaches(c: Config, st: State)
    requires Quiet(c, st) && OthersRest(c, MasterMain, st) && st.curr < c.Depth()
    ensures st.curr < |st.master.bars| && st.master.bars[st.curr].Reached()
  {
    MasterStrandsHeld(c, MasterMain, st);
    HeldReaches(c.Txns(), st.master, st.curr);
  }

  /** And when all barriers are open, that all strands are done. */
  lemma RestIsDone(c: Config, who: Thread, st: State)
    requires Quiet(c, st) && OthersRest(c, who, st) && !who.StrandMain? && st.curr == c.Depth()
    ensures Done(c.Txns(), st.master)
  {
    MasterStrandsHeld(c, who, st);
    OpenHeldIsDone(c.Txns(), st.master);
  }

  ghost predicate HeldAt(st: State, p: Place, i: nat) {
    && HasPlace(st, p) && i < |NodeAt(st, p).strands|
    && var n := NodeAt(st, p);
       && n.strands[i].pc.Waiting? && 0 < n.strands[i].arrived <= |n.bars|
       && n.bars[n.strands[i].arrived - 1].locked
  }

  lemma HeldDoesNothing(c: Config, p: Place, i: nat, st: State, a: Step, st': State)
    requires HeldAt(st, p, i) && Productive(a) && NextBy(c, st, a, st')
    ensures !Mine(StrandMain(p, i), a)
  {
  }

  /** A strand that waits finds its barrier open. */
  lemma RestOpens(c: Config, p: Place, i: nat, st: State)
    requires Quiet(c, st) && OthersRest(c, StrandMain(p, i), st)
    ensures !HeldAt(st, p, i)
  {
    if HeldAt(st, p, i) {
      NeverStuck(c, st);
      assert !Complete(c, st);
      var a, st' :| Productive(a) && NextBy(c, st, a, st');
      HeldDoesNothing(c, p, i, st, a, st');
      assert OthersProduce(c, StrandMain(p, i), st, st');
    }
  }

  // ---- The slaves are asked for their statistics in the end ----

  /** A machine on which a strand has run all its transactions has counted it. */
  ghost predicate CountsFinished(n: Node) {
    n.finished == 0 ==> forall i :: 0 <= i < |n.strands| ==> n.strands[i].pc != Exited(false)
  }

  ghost predicate Asked(sl: Slave) { sl.open ==> sl.queue != [] && sl.queue[|sl.queue| - 1].SendStats? }

  ghost predicate AskedInv(st: State) {
    && CountsFinished(st.master)
    && (st.phase.Reporting? ==> forall s :: 0 <= s < st.phase.next && s < |st.slaves| ==> Asked(st.slaves[s]))
    && (st.phase.Ended? ==> forall s :: 0 <= s < |st.slaves| ==> Asked(st.slaves[s]))
  }

  lemma StrandKeepsFinished(txns: seq<nat>, n: Node, i: nat, e: Event, n': Node)
    requires StrandStep(txns, n, i, e, n') && CountsFinished(n)
    ensures CountsFinished(n')
  {
  }

  lemma MasterKeepsAsked(c: Config, st: State, a: Step, st': State)
    requires AskedInv(st) && !st.phase.Aborting? && Productive(a) && MasterStep(st, a, st')
    ensures AskedInv(st')
  {
  }

  lemma ReceiveKeepsAsked(c: Config, st: State, s: nat, st': State)
    requires Quiet(c, st) && s < |st.slaves| && SlaveStep(st, Receive(s), st')
    ensures Asked(st.slaves[s]) ==> Asked(st'.slaves[s])
  {
    assert QueueShape(st, s);
    var q := st.slaves[s].queue;
    assert |q| > 1 ==> q[1..][|q| - 2] == q[|q| - 1];
  }

  lemma OthersKeepAsked(st: State, st': State)
    requires AskedInv(st) && CountsFinished(st'.master) && st'.phase == st.phase && |st'.slaves| == |st.slaves|
    requires forall s :: 0 <= s < |st.slaves| && Asked(st.slaves[s]) ==> Asked(st'.slaves[s])
    ensures AskedInv(st')
  {
  }

  lemma SlaveKeepsAsked(c: Config, st: State, a: Step, st': State)
    requires Quiet(c, st) && AskedInv(st) && Productive(a) && NextBy(c, st, a, st')
    requires a.SlaveStrand? || a.SlaveRelease? || a.Receive?
    ensures AskedInv(st')
  {
    if a.Receive? {
      ReceiveKeepsAsked(c, st, a.s, st');
    } else {
      assert st'.slaves[a.s].open == st.slaves[a.s].open && st'.slaves[a.s].queue == st.slaves[a.s].queue;
    }
    OthersKeepAsked(st, st');
  }

  lemma StepKeepsAsked(c: Config, st: State, a: Step, st': State)
    requires Quiet(c, st) && AskedInv(st) && Productive(a) && NextBy(c, st, a, st')
    ensures AskedInv(st')
  {
    match a {
      case MasterStrand(i, e) =>
        StrandKeepsFinished(c.Txns(), st.master, i, e, st'.master);
        OthersKeepAsked(st, st');
      case SlaveStrand(_, _, _) => SlaveKeepsAsked(c, st, a, st');
      case Receive(_) => SlaveKeepsAsked(c, st, a, st');
      case SlaveRelease(_) => SlaveKeepsAsked(c, st, a, st');
      case SlaveGiveUp(_) =>
      case _ => MasterKeepsAsked(c, st, a, st');
    }
  }

  lemma InitAsked(c: Config, st: State)
    requires Init(c, st)
    ensures AskedInv(st)
  {
  }

  lemma {:induction false} AskedInRun(c: Config, run: seq<State>, t: nat)
    requires ProductiveRun(c, run) && t < |run|
    ensures AskedInv(run[t])
  {
    if t == 0 {
      InitAsked(c, run[0]);
    } else {
      AskedInRun(c, run, t - 1);
      ProductiveRunQuiet(c, run, t - 1);
      assert ProductiveAt(c, run, t - 1);
      var a :| Productive(a) && NextBy(c, run[t - 1], a, run[t - 1 + 1]);
      StepKeepsAsked(c, run[t - 1], a, run[t]);
    }
  }

  /** With all its strands held, a main thread that has not ended can go on; Draining it can when a
      strand has finished. */
  lemma MasterGoesOn(c: Config, s: nat, st: State)
    requires Quiet(c, st) && AllHeld(st.master) && OthersRest(c, SlaveMain(s), st)
    ensures st.phase.Ended? || (st.phase.Draining? && st.master.finished == 0)
  {
    match st.phase {
      case Polling =>
        if st.curr < c.Depth() {
          HeldReaches(c.Txns(), st.master, st.curr);
          Produces(c, s, st, BeginSend, st.(phase := Sending(0)));
        } else {
          Produces(c, s, st, EndPoll, st.(phase := Draining));
        }
      case Sending(_) => SendingGoesOn(c, s, st);
      case Unlocking =>
        var st' := st.(master := Opened(st.master, st.curr), curr := st.curr + 1, phase := Polling);
        Produces(c, s, st, UnlockNext, st');
      case Draining =>
        if st.master.finished > 0 {
          Produces(c, s, st, BeginReport, st.(phase := Reporting(0)));
        }
      case Reporting(_) => ReportingGoesOn(c, s, st);
      case _ =>
    }
  }

  lemma SendingGoesOn(c: Config, s: nat, st: State)
    requires Quiet(c, st) && st.phase.Sending?
    ensures !OthersRest(c, SlaveMain(s), st)
  {
    var i := st.phase.next;
    if i < |st.slaves| {
      var st' := PutSlave(st, i, Enqueue(st.slaves[i], NextTxn(st.curr))).(phase := Sending(i + 1));
      Produces(c, s, st, SendOk, st');
    } else {
      Produces(c, s, st, EndSend, st.(phase := Unlocking));
    }
  }

  lemma ReportingGoesOn(c: Config, s: nat, st: State)
    requires Quiet(c, st) && st.phase.Reporting?
    ensures !OthersRest(c, SlaveMain(s), st)
  {
    var i := st.phase.next;
    if i < |st.slaves| {
      Produces(c, s, st, TailOk, PutSlave(st, i, Enqueue(st.slaves[i], SendStats)).(phase := Reporting(i + 1)));
    } else {
      Produces(c, s, st, EndTail, st.(phase := Ended));
    }
  }

  /** A slave finds that the master has announced everything and asked for the statistics. */
  lemma RestHasAsked(c: Config, s: nat, st: State)
    requires Quiet(c, st) && AskedInv(st) && OthersRest(c, SlaveMain(s), st) && s < |st.slaves| && c.Txns() != []
    ensures Asked(st.slaves[s]) && st.curr == c.Depth()
  {
    MasterStrandsHeld(c, SlaveMain(s), st);
    MasterGoesOn(c, s, st);
    if st.phase.Draining? {
      RestIsDone(c, SlaveMain(s), st);
      DoneIsCounted(c.Txns(), st.master);
    }
  }

  lemma DoneIsCounted(txns: seq<nat>, n: Node)
    requires Done(txns, n) && CountsFinished(n) && txns != []
    ensures n.finished > 0
  {
    assert n.strands[0].pc == Exited(false);
  }

  lemma Produces(c: Config, s: nat, st: State, a: Step, st': State)
    requires NextBy(c, st, a, st') && Productive(a) && !Mine(SlaveMain(s), a)
    ensures !OthersRest(c, SlaveMain(s), st)
  {
    assert OthersProduce(c, SlaveMain(s), st, st');
  }

  /** And all its own strands at the barrier it is to open. */
  lemma RestReachesSlave(c: Config, s: nat, st: State)
    requires Quiet(c, st) && OthersRest(c, SlaveMain(s), st) && s < |st.slaves| && 0 <= st.slaves[s].busy
    ensures st.slaves[s].busy < |st.slaves[s].node.bars|
    ensures st.slaves[s].node.bars[st.slaves[s].busy].Reached()
  {
    var sl, txns := st.slaves[s], c.SlaveTxns(s);
    assert SlaveInv(txns, c.SlaveGroup(s).ntxn, Announced(st, s), st.lostSend, sl) && QueueShape(st, s);
    forall i | 0 <= i < |sl.node.strands|
      ensures Held(sl.node, i)
    {
      if !Held(sl.node, i) {
        var e, n' := UnheldStrandSteps(txns, sl.node, i);
        var st' := PutSlave(st, s, sl.(node := n'));
        assert NextBy(c, st, SlaveStrand(s, i, e), st');
        assert OthersProduce(c, SlaveMain(s), st, st');
      }
    }
    SlaveLogPrefix(c, st, s);
    DealtWithIsOpen(sl.node.bars, sl.busy, sl.log);
    HeldReaches(txns, sl.node, sl.busy);
  }

  lemma SlaveLogPrefix(c: Config, st: State, s: nat)
    requires Quiet(c, st) && s < |st.slaves|
    ensures |st.slaves[s].log| <= Announced(st, s) && st.slaves[s].log == Upto(|st.slaves[s].log|)
  {
    assert SlaveInv(c.SlaveTxns(s), c.SlaveGroup(s).ntxn, Announced(st, s), st.lostSend, st.slaves[s]);
    LogIsPrefix(st.slaves[s], Announced(st, s));
  }

  /** A slave with nothing but the request left to read has opened all its barriers. */
  lemma AllReadIsOpen(c: Config, st: State, s: nat)
    requires Quiet(c, st) && s < |st.slaves| && st.curr == c.Depth()
    requires st.slaves[s].busy == -1 && st.slaves[s].queue == [SendStats]
    ensures forall k :: 0 <= k < |st.slaves[s].node.bars| ==> !st.slaves[s].node.bars[k].locked
  {
    var sl := st.slaves[s];
    assert SlaveInv(c.SlaveTxns(s), c.SlaveGroup(s).ntxn, Announced(st, s), st.lostSend, sl);
    assert Unread([SendStats][..0]) == [];
    assert sl.log == Indices(sl);
    forall k | 0 <= k < |sl.node.bars|
      ensures !sl.node.bars[k].locked
    {
      assert sl.log[k] == k;
    }
  }
}
