/** A strand as the loop it is: strand_run and group_execute with their barriers, on the barriers in
    shared memory and interrupted anywhere by everybody else.  It is a run of the transition system,
    on the master and on a slave (src/strand.c, src/execute.c, src/sync.c). */
module StrandLoop {
  import opened Counting
  import opened Barriers
  import opened Nodes
  import opened Run
  import opened RunInvariant
  import opened RunSafety
  import opened RunProgress
  import opened Interference
  import opened Liveliness

  const UPERF_SUCCESS: int := 0
  const UPERF_FAILURE: int := -1
  const UPERF_DURATION_EXPIRED: int := 4
  const EINTR: int := 4

  /** What executing a transaction returns. */
  type Outcome = r: int | r == UPERF_SUCCESS || r == UPERF_FAILURE || r == UPERF_DURATION_EXPIRED

  predicate PlaceExists(c: Config, p: Place) {
    (forall s :: 0 <= s < |c.peers| ==> c.peers[s] < |c.groups|) && (p.OnSlave? ==> p.s < |c.peers|)
  }

  /** The number of transactions of every strand of the machine. */
  function TxnsAt(c: Config, p: Place): seq<nat>
    requires PlaceExists(c, p)
  {
    if p.OnMaster? then c.Txns() else c.SlaveTxns(p.s)
  }

  function WithNode(st: State, p: Place, n: Node): State
    requires HasPlace(st, p)
  {
    if p.OnMaster? then st.(master := n) else PutSlave(st, p.s, st.slaves[p.s].(node := n))
  }

  function StepOf(p: Place, i: nat, e: Event): Step {
    if p.OnMaster? then MasterStrand(i, e) else SlaveStrand(p.s, i, e)
  }

  /** The node after an event of strand i. */
  function NodeDo(n: Node, i: nat, e: Event): Node
    requires i < |n.strands|
  {
    var s := n.strands[i];
    match e
    case Start => Put(n, i, s.(pc := Idle))
    case Abandon => Put(n, i, s.(pc := Exited(true)))
    case Arrive =>
      if s.arrived < |n.bars|
      then Put(n, i, Strand(s.arrived + 1, Waiting)).(bars := n.bars[s.arrived := n.bars[s.arrived].Arrive()])
      else n
    case Acquire => Put(n, i, s.(pc := Released))
    case Proceed => Put(n, i, s.(pc := Running))
    case LeaveOnError => Put(n, i, s.(pc := Exited(true))).(finished := n.finished + 1)
    case Finish => Put(n, i, s.(pc := Idle))
    case Fail => Put(n, i, s.(pc := Failing))
    case Flag(errors) => Put(n, i, s.(pc := Exited(true))).(errors := errors, finished := n.finished + 1)
    case Leave => Put(n, i, s.(pc := Exited(false))).(finished := n.finished + 1)
    case Kill => Put(n, i, s.(pc := Exited(true)))
  }

  lemma StepIsNext(c: Config, p: Place, i: nat, e: Event, st: State)
    requires PlaceExists(c, p) && c.Valid() && |st.slaves| == |c.peers| && HasPlace(st, p) &&
             i < |NodeAt(st, p).strands|
    requires StrandStep(TxnsAt(c, p), NodeAt(st, p), i, e, NodeDo(NodeAt(st, p), i, e))
    ensures NextBy(c, st, StepOf(p, i, e), WithNode(st, p, NodeDo(NodeAt(st, p), i, e)))
  {
    assert NextBy(c, st, StepOf(p, i, e), WithNode(st, p, NodeDo(NodeAt(st, p), i, e)));
  }

  lemma EventExtends(c: Config, run: seq<State>, p: Place, i: nat, e: Event)
    requires IsRun(c, run) && PlaceExists(c, p) && HasPlace(run[|run| - 1], p) && c.Valid()
    requires |run[|run| - 1].slaves| == |c.peers| && i < |NodeAt(run[|run| - 1], p).strands|
    requires StrandStep(TxnsAt(c, p), NodeAt(run[|run| - 1], p), i, e, NodeDo(NodeAt(run[|run| - 1], p), i, e))
    ensures var st := run[|run| - 1];
            var next := WithNode(st, p, NodeDo(NodeAt(st, p), i, e));
            && IsRun(c, run + [next])
            && (ProductiveRun(c, run) && ProductiveEvent(e) ==> ProductiveRun(c, run + [next]))
  {
    var st := run[|run| - 1];
    var next := WithNode(st, p, NodeDo(NodeAt(st, p), i, e));
    StepIsNext(c, p, i, e, st);
    StepExtends(c, run, StepOf(p, i, e), next);
  }

  lemma EventStays(st: State, p: Place, i: nat, e: Event)
    requires HasPlace(st, p) && i < |NodeAt(st, p).strands| && !e.Arrive?
    ensures var next := WithNode(st, p, NodeDo(NodeAt(st, p), i, e));
            && HasPlace(next, p) && NodeAt(next, p) == NodeDo(NodeAt(st, p), i, e)
            && NodeAt(next, p).bars == NodeAt(st, p).bars && |NodeAt(next, p).strands| == |NodeAt(st, p).strands|
  {
  }

  /** What the invariant says about one machine. */
  lemma NodeInvAt(c: Config, run: seq<State>, p: Place)
    requires IsRun(c, run) && HasPlace(run[|run| - 1], p)
    ensures c.Valid() && |run[|run| - 1].slaves| == |c.peers| && PlaceExists(c, p)
    ensures NodeInv(TxnsAt(c, p), NodeAt(run[|run| - 1], p))
  {
    RunInv(c, run, |run| - 1);
  }

  /** A barrier that a strand can come to counts at least on that strand. */
  lemma {:induction false} SomebodyCounts(txns: seq<nat>, i: nat, k: nat)
    requires i < |txns| && txns[i] > k
    ensures CountAbove(txns, k) > 0
  {
    CountAboveSqueeze(seq(|txns|, _ => 0), txns, k);
    CountAboveConstant(|txns|, 0, k);
    assert seq(|txns|, _ => 0)[i] == 0;
  }

  /** A strand that executes transaction k, on whatever machine, finds that all master strands have
      come to the master's barrier k. */
  lemma ExecutingMeansAllCame(c: Config, run: seq<State>, p: Place, i: nat, k: nat)
    requires IsRun(c, run) && HasPlace(run[|run| - 1], p) && i < |NodeAt(run[|run| - 1], p).strands|
    requires NodeAt(run[|run| - 1], p).strands[i].Executing(k)
    ensures AllCame(c.Txns(), run[|run| - 1].master, k)
  {
    if p.OnMaster? {
      Lockstep(c, run, |run| - 1, i, k);
    } else {
      SlaveNeverLeads(c, run, |run| - 1, p.s, i, k);
    }
  }

  /** A barrier that is open has let everybody of its machine come. */
  lemma OpenMeansAllCame(c: Config, run: seq<State>, p: Place, k: nat)
    requires IsRun(c, run) && HasPlace(run[|run| - 1], p) && PlaceExists(c, p)
    requires k < |NodeAt(run[|run| - 1], p).bars| && !NodeAt(run[|run| - 1], p).bars[k].locked
    ensures AllCame(TxnsAt(c, p), NodeAt(run[|run| - 1], p), k)
  {
    NodeInvAt(c, run, p);
    ReachedMeansAll(TxnsAt(c, p), NodeAt(run[|run| - 1], p), k);
  }

  /** A strand that waits does so at a barrier of the table. */
  lemma WaitsSomewhere(c: Config, run: seq<State>, p: Place, i: nat)
    requires IsRun(c, run) && HasPlace(run[|run| - 1], p) && PlaceExists(c, p)
    requires i < |NodeAt(run[|run| - 1], p).strands| && NodeAt(run[|run| - 1], p).strands[i].pc.Waiting?
    ensures 0 < NodeAt(run[|run| - 1], p).strands[i].arrived <= |NodeAt(run[|run| - 1], p).bars|
  {
    NodeInvAt(c, run, p);
  }

  /** A strand between transactions can come to its next barrier, which counts on it. */
  lemma MayArrive(c: Config, run: seq<State>, p: Place, i: nat)
    requires IsRun(c, run) && HasPlace(run[|run| - 1], p) && PlaceExists(c, p)
    requires i < |NodeAt(run[|run| - 1], p).strands| && i < |TxnsAt(c, p)|
    requires NodeAt(run[|run| - 1], p).strands[i].pc.Idle?
    requires NodeAt(run[|run| - 1], p).strands[i].arrived < TxnsAt(c, p)[i]
    ensures var st, n := run[|run| - 1], NodeAt(run[|run| - 1], p);
            && n.strands[i].arrived < |n.bars| && n.bars[n.strands[i].arrived].limit > 0
            && StrandStep(TxnsAt(c, p), n, i, Arrive, NodeDo(n, i, Arrive)) && c.Valid() && |st.slaves| == |c.peers|
  {
    NodeInvAt(c, run, p);
    SomebodyCounts(TxnsAt(c, p), i, NodeAt(run[|run| - 1], p).strands[i].arrived);
  }

  /** When no failure has been flagged anywhere, the strand is alive and finds no error. */
  lemma WellFindsNothing(c: Config, run: seq<State>, p: Place, i: nat)
    requires ProductiveRun(c, run) && HasPlace(run[|run| - 1], p) && i < |NodeAt(run[|run| - 1], p).strands|
    ensures NodeAt(run[|run| - 1], p).errors == 0 && !NodeAt(run[|run| - 1], p).strands[i].GaveUp()
  {
    ProductiveRunQuiet(c, run, |run| - 1);
    if p.OnSlave? {
      assert QueueShape(run[|run| - 1], p.s);
    }
  }

  /** Strand i of the machine at `place`.  `others` is everybody else, `outcomes` what txn_execute
      returns and `handlers` whether the signal handlers can be set up. */
  class StrandThread {
    const c: Config
    const place: Place
    const i: nat
    const bar: array<Barrier>
    const others: (nat, State) -> State
    const outcomes: nat -> Outcome
    const handlers: bool
    var st: State
    var time: nat
    ghost var run: seq<State>

    ghost predicate Valid()
      reads this, bar, Objects(bar)
    {
      && Interferes(c, StrandMain(place, i), others) && IsRun(c, run) && run[|run| - 1] == st
      && HasPlace(st, place) && PlaceExists(c, place) && i < |NodeAt(st, place).strands| == |TxnsAt(c, place)|
      && Mirrors(bar, NodeAt(st, place).bars)
    }

    function Me(): Strand
      requires Present(StrandMain(place, i), st)
      reads this
    {
      NodeAt(st, place).strands[i]
    }

    ghost function Ntxn(): nat
      requires PlaceExists(c, place) && i < |TxnsAt(c, place)|
      reads this
    {
      TxnsAt(c, place)[i]
    }

    constructor (c: Config, place: Place, i: nat, bar: array<Barrier>, others: (nat, State) -> State,
                 outcomes: nat -> Outcome, handlers: bool, st: State)
      requires Init(c, st) && Interferes(c, StrandMain(place, i), others)
      requires Present(StrandMain(place, i), st) && Mirrors(bar, NodeAt(st, place).bars)
      ensures Valid() && run == [st] && this.c == c && this.st == st && Me() == Strand(0, Spawned)
      ensures this.place == place && this.i == i && this.bar == bar
      ensures this.others == others && this.outcomes == outcomes && this.handlers == handlers
      ensures (Smooth() ==> Well()) && (Unhindered() ==> Fine())
    {
      this.c, this.place, this.i, this.bar, this.others := c, place, i, bar, others;
      this.outcomes, this.handlers := outcomes, handlers;
      this.st, time, run := st, 0, [st];
      new;
      NodeInvAt(c, [st], place);
    }

    /** The strand itself does not fail. */
    ghost predicate Able() { handlers && forall t :: outcomes(t) != UPERF_FAILURE }

    /** And the others are lively. */
    ghost predicate Smooth() { Able() && Lively(c, StrandMain(place, i), others) }

    /** And nothing has failed so far. */
    ghost predicate Well()
      reads this
    {
      Smooth() && ProductiveRun(c, run)
    }

    /** The strand is there, and no error is flagged on its machine. */
    predicate Unhurt(st: State) {
      && HasPlace(st, place) && i < |NodeAt(st, place).strands| && !NodeAt(st, place).strands[i].pc.Exited?
      && NodeAt(st, place).errors == 0
    }

    /** The others, lively or not, neither kill the strand nor flag an error. */
    ghost predicate Unhindered() { Able() && forall t, st :: Unhurt(st) ==> Unhurt(others(t, st)) }

    ghost predicate Fine()
      reads this
    {
      Unhindered() && Unhurt(st)
    }

    lemma Meantime() returns (longer: seq<State>)
      requires Valid()
      ensures IsRun(c, longer) && run <= longer && longer[|longer| - 1] == others(time, st)
      ensures StrandKept(place, i, st, others(time, st))
      ensures Well() ==> ProductiveRun(c, longer) && OthersRest(c, StrandMain(place, i), others(time, st))
    {
      if Well() {
        longer := Settled(c, StrandMain(place, i), others, time, run);
      } else {
        longer := Interrupted(c, StrandMain(place, i), others, time, run);
      }
    }

    /** Everybody else goes on for a while. */
    method GoOn()
      requires Valid()
      modifies this`st, this`time, this`run, Objects(bar)
      ensures Valid() && old(run) <= run && StrandKept(place, i, old(st), st)
      ensures st == others(old(time), old(st)) && time == old(time) + 1
      ensures old(Well()) ==> Well() && OthersRest(c, StrandMain(place, i), st)
    {
      ghost var longer := Meantime();
      MirrorsStill(st, others(time, st));
      st := others(time, st);
      time := time + 1;
      run := longer;
      Meanwhile(bar, NodeAt(st, place).bars);
    }

    /** What the strand finds when the others have gone on: whether it is alive, and the errors. */
    method Look() returns (alive: bool, errors: nat)
      requires Valid()
      modifies this`st, this`time, this`run, Objects(bar)
      ensures Valid() && old(run) <= run && errors == NodeAt(st, place).errors && time == old(time) + 1
      ensures alive ==> Me() == old(Me())
      ensures Me().arrived == old(Me()).arrived
      ensures !alive ==> Me().pc.Exited? && (!old(Me()).pc.Exited? ==> Me().pc.early)
      ensures Finds(others(old(time), old(st)), alive, errors)
      ensures old(Well()) ==> Well() && errors == 0 && (alive || old(Me()).pc.Exited?)
      ensures old(Well()) && alive && Me().pc.Waiting? ==> !HeldAt(st, place, i)
      ensures old(Fine()) ==> Fine() && alive && errors == 0
    {
      ghost var well := Well();
      GoOn();
      alive, errors := !Me().pc.Exited?, NodeAt(st, place).errors;
      if well {
        WellFindsNothing(c, run, place, i);
        BarrierIsOpen();
      }
    }

    /** The strand is alive in the state it looks at, which has so many errors. */
    ghost predicate Finds(seen: State, alive: bool, errors: nat) {
      Present(StrandMain(place, i), seen) &&
      var n := NodeAt(seen, place);
      (alive <==> !n.strands[i].pc.Exited?) && errors == n.errors
    }

    lemma BarrierIsOpen()
      requires Valid() && Well() && OthersRest(c, StrandMain(place, i), st)
      ensures !HeldAt(st, place, i)
    {
      ProductiveRunQuiet(c, run, |run| - 1);
      RestOpens(c, place, i, st);
    }

    lemma MirrorsStill(was: State, now: State)
      requires StrandKept(place, i, was, now) && Mirrors(bar, NodeAt(was, place).bars)
      ensures Table(bar) && |NodeAt(now, place).bars| <= NUM_BARRIER
    {
    }

    /** An event of the strand that leaves the barriers alone. */
    method Do(e: Event)
      requires Valid() && !e.Arrive? && !e.Kill?
      requires StrandStep(TxnsAt(c, place), NodeAt(st, place), i, e, NodeDo(NodeAt(st, place), i, e))
      modifies this`st, this`run
      ensures Valid() && old(run) <= run && NodeAt(st, place) == NodeDo(old(NodeAt(st, place)), i, e)
      ensures old(Well()) && ProductiveEvent(e) ==> Well()
    {
      NodeInvAt(c, run, place);
      EventExtends(c, run, place, i, e);
      EventStays(st, place, i, e);
      var next := WithNode(st, place, NodeDo(NodeAt(st, place), i, e));
      run := run + [next];
      st := next;
    }

    /** The counting half of wait_barrier, at a barrier that counts on somebody. */
    method ComeToBarrier()
      requires Valid() && Me().pc.Idle? && Me().arrived < Ntxn()
      modifies this`st, this`run, Objects(bar)
      ensures Valid() && old(run) <= run && Me() == Strand(old(Me()).arrived + 1, Waiting)
      ensures NodeAt(st, place).errors == old(NodeAt(st, place).errors) && (old(Well()) ==> Well())
    {
      Arrival();
      var n := NodeAt(st, place);
      var k := n.strands[i].arrived;
      var next := WithNode(st, place, NodeDo(n, i, Arrive));
      bar[k].Arrive();
      MirrorsOne(bar, n.bars, k, n.bars[k].Arrive());
      run := run + [next];
      st := next;
    }

    lemma Arrival()
      requires Valid() && Me().pc.Idle? && Me().arrived < Ntxn()
      ensures Me().arrived < |NodeAt(st, place).bars| && NodeAt(st, place).bars[Me().arrived].limit > 0
      ensures var next := WithNode(st, place, NodeDo(NodeAt(st, place), i, Arrive));
              && IsRun(c, run + [next]) && (Well() ==> ProductiveRun(c, run + [next])) && HasPlace(next, place)
              && Came(NodeAt(st, place), NodeAt(next, place))
    {
      MayArrive(c, run, place, i);
      EventExtends(c, run, place, i, Arrive);
    }

    /** The strand has come to its next barrier, and that is all. */
    ghost predicate Came(n: Node, m: Node) {
      && i < |n.strands| == |m.strands| && n.strands[i].arrived < |n.bars|
      && var k := n.strands[i].arrived;
         && m.strands[i] == Strand(k + 1, Waiting) && m.bars == n.bars[k := n.bars[k].Arrive()] && m.errors == n.errors
    }

    /** Everybody on this machine who has a transaction k has come to barrier k. */
    ghost predicate EverybodyCame(k: int)
      reads this, bar, Objects(bar)
    {
      Valid() && k >= 0 && AllCame(TxnsAt(c, place), NodeAt(st, place), k)
    }

    /** One look at the lock, which lets a strand through only when everybody has come. */
    method TryBarrier() returns (passed: bool)
      requires Valid() && Me().pc.Waiting?
      modifies this`st, this`run
      ensures Valid() && old(run) <= run && NodeAt(st, place).errors == old(NodeAt(st, place).errors)
      ensures passed <==> !old(HeldAt(st, place, i))
      ensures passed ==> Me() == Strand(old(Me()).arrived, Pc.Released) && EverybodyCame(Me().arrived - 1)
      ensures !passed ==> st == old(st)
      ensures old(Well()) ==> Well()
    {
      WaitsSomewhere(c, run, place, i);
      passed := bar[Me().arrived - 1].TryPass();
      if passed {
        Do(Acquire);
        OpenMeansAllCame(c, run, place, Me().arrived - 1);
      }
    }

    /** wait_barrier: counted, then blocked on the lock for as long as it takes, at most `rounds` times.
        A strand that is still there is held by a locked barrier. */
    method WaitBarrier(rounds: nat) returns (passed: bool)
      requires Valid() && Me().pc.Idle? && Me().arrived < Ntxn()
      modifies this`st, this`time, this`run, Objects(bar)
      ensures Valid() && old(run) <= run
      ensures passed ==> Me() == Strand(old(Me()).arrived + 1, Pc.Released) && EverybodyCame(old(Me()).arrived)
      ensures !passed ==> Gone() || (Me() == Strand(old(Me()).arrived + 1, Waiting) && HeldAt(st, place, i))
      ensures !passed && !Gone() ==> time >= old(time) + rounds
      ensures old(Well()) && rounds > 0 ==> Well() && passed
      ensures old(Fine()) ==> Fine()
    {
      ghost var k, well := Me().arrived, Well();
      ComeToBarrier();
      for n := 0 to rounds
        invariant Valid() && old(run) <= run && Me() == Strand(k + 1, Waiting) && time >= old(time) + n
        invariant (old(Fine()) ==> Fine()) && (well ==> Well() && (n > 0 ==> !HeldAt(st, place, i)))
      {
        passed := TryBarrier();
        if passed {
          return;
        }
        var alive, _ := Look();
        if !alive {
          return;
        }
      }
      passed := TryBarrier();
    }

    /** The strand is not there any more, and has not run all its transactions. */
    predicate Gone()
      requires Present(StrandMain(place, i), st)
      reads this
    {
      Me().pc == Exited(true)
    }

    /** The strand leaves if it has seen more than one error flagged. */
    method PassOrLeave(errors: nat) returns (entered: bool)
      requires Valid() && Me().pc.Released? && Me().arrived > 0 && errors == NodeAt(st, place).errors
      modifies this`st, this`run
      ensures Valid() && old(run) <= run && (entered <==> errors <= 1) && NodeAt(st, place).errors == errors
      ensures entered ==> Me() == Strand(old(Me()).arrived, Running)
      ensures entered ==> AllCame(c.Txns(), st.master, old(Me()).arrived - 1)
      ensures !entered ==> Gone()
      ensures old(Well()) && entered ==> Well()
    {
      entered := errors <= 1;
      if entered {
        Do(Proceed);
        ExecutingMeansAllCame(c, run, place, i, Me().arrived - 1);
      } else {
        Do(LeaveOnError);
      }
    }

    /** Into the transaction, unless the strand finds itself killed or more than one error flagged.
        From here on nobody who has a transaction of this index is behind. */
    method EnterTxn() returns (entered: bool, alive: bool, errors: nat)
      requires Valid() && Me().pc.Released? && Me().arrived > 0
      modifies this`st, this`time, this`run, Objects(bar)
      ensures Valid() && old(run) <= run
      ensures entered ==> Me() == Strand(old(Me()).arrived, Running)
      ensures entered ==> AllCame(c.Txns(), st.master, old(Me()).arrived - 1)
      ensures Finds(others(old(time), old(st)), alive, errors) && (entered <==> alive && errors <= 1)
      ensures !entered ==> Gone()
      ensures old(Well()) ==> Well() && entered
      ensures old(Fine()) ==> Fine() && entered
    {
      alive, errors := Look();
      entered := false;
      if alive {
        entered := PassOrLeave(errors);
      }
    }

    /** The transaction itself: only a failure keeps the strand from going on to the next. */
    method ExecuteTxn() returns (error: Outcome, alive: bool, ghost errors: nat)
      requires Valid() && Me().pc.Running?
      modifies this`st, this`time, this`run, Objects(bar)
      ensures Valid() && old(run) <= run && Finds(others(old(time), old(st)), alive, errors)
      ensures time == old(time) + 1 && error == outcomes(time)
      ensures !alive ==> Gone()
      ensures alive && error != UPERF_FAILURE ==> Me() == Strand(old(Me()).arrived, Idle)
      ensures alive && error == UPERF_FAILURE ==> Me() == Strand(old(Me()).arrived, Failing)
      ensures old(Well()) ==> Well() && alive
      ensures old(Fine()) ==> Fine() && alive
    {
      alive, errors := Look();
      error := outcomes(time);
      if alive {
        Do(if error == UPERF_FAILURE then Fail else Finish);
      }
    }

    /** The body of the loop in group_execute: `ok` unless the strand is held, gone or has failed. */
    method NextTxn(rounds: nat, last: Outcome) returns (ok: bool, error: Outcome)
      requires Valid() && Me().pc.Idle? && Me().arrived < Ntxn() && last != UPERF_FAILURE
      modifies this`st, this`time, this`run, Objects(bar)
      ensures Valid() && old(run) <= run
      ensures ok ==> Me() == Strand(old(Me()).arrived + 1, Idle) && error != UPERF_FAILURE
      ensures ok || Me().pc.Failing? ==> error == outcomes(time)
      ensures !ok ==> Gone() || HeldAt(st, place, i) || (Me().pc.Failing? && error == UPERF_FAILURE)
      ensures Me().pc.Failing? <==> error == UPERF_FAILURE && !Gone()
      ensures old(Well()) && rounds > 0 ==> Well() && ok
      ensures old(Fine()) ==> Fine() && (ok || HeldAt(st, place, i))
    {
      error := last;
      ok := WaitBarrier(rounds);
      if ok {
        var alive, errors;
        ok, alive, errors := EnterTxn();
        if ok {
          ghost var found;
          error, alive, found := ExecuteTxn();
          ok := alive && error != UPERF_FAILURE;
        }
      }
    }

    /** group_execute: every transaction of the group after its barrier, in order, until one fails. */
    method GroupExecute(rounds: nat) returns (error: Outcome)
      requires Valid() && Me() == Strand(0, Idle)
      modifies this`st, this`time, this`run, Objects(bar)
      ensures Valid() && old(run) <= run
      ensures Gone() || HeldAt(st, place, i) || Me() == Strand(Ntxn(), Idle) || Me().pc.Failing?
      ensures Me().pc.Failing? <==> error == UPERF_FAILURE && !Gone()
      ensures Me().pc.Failing? || (Me().pc.Idle? && Ntxn() > 0) ==> error == outcomes(time)
      ensures old(Well()) && rounds > 0 ==> Well() && Me() == Strand(Ntxn(), Idle)
      ensures old(Fine()) ==> Fine() && (Me() == Strand(Ntxn(), Idle) || HeldAt(st, place, i))
    {
      ghost var well := Well() && rounds > 0;
      var ntxn := TxnsAt(c, place)[i];
      error := UPERF_SUCCESS;
      for k := 0 to ntxn
        invariant Valid() && old(run) <= run && Me() == Strand(k, Idle) && error != UPERF_FAILURE
        invariant k > 0 ==> error == outcomes(time)
        invariant (old(Fine()) ==> Fine()) && (well ==> Well())
      {
        var ok;
        ok, error := NextTxn(rounds, error);
        if !ok {
          return;
        }
      }
    }

    /** What strand_run does after the group: an error is flagged exactly if the group has failed. */
    method Exit(error: Outcome) returns (ghost alive: bool, ghost errors: nat)
      requires Valid() && (if error == UPERF_FAILURE then Me().pc.Failing? else Me() == Strand(Ntxn(), Idle))
      modifies this`st, this`time, this`run, Objects(bar)
      ensures Valid() && old(run) <= run && Me().pc.Exited?
      ensures error != UPERF_FAILURE ==> Me() == Strand(Ntxn(), Exited(false))
      ensures error != UPERF_FAILURE ==> NodeAt(st, place).errors == old(NodeAt(st, place).errors)
      ensures error == UPERF_FAILURE ==> Gone() && Finds(others(old(time), old(st)), alive, errors)
      ensures error == UPERF_FAILURE ==> NodeAt(st, place).errors == errors + if alive then 1 else 0
      ensures old(Well()) && error != UPERF_FAILURE ==> Well()
    {
      alive, errors := true, 0;
      if error != UPERF_SUCCESS && error != EINTR {
        var there, flagged := Look();
        alive, errors := there, flagged;
        if there {
          Do(Flag(flagged + 1));
        }
      } else {
        Do(Leave);
      }
    }

    /** What strand_run does once the strand is set up. */
    method RunGroup(rounds: nat)
      requires Valid() && Me() == Strand(0, Idle)
      modifies this`st, this`time, this`run, Objects(bar)
      ensures Valid() && old(run) <= run
      ensures Gone() || HeldAt(st, place, i) || Me() == Strand(Ntxn(), Exited(false))
      ensures old(Fine()) ==> HeldAt(st, place, i) || Me() == Strand(Ntxn(), Exited(false))
      ensures old(Well()) && rounds > 0 ==> Well() && Me() == Strand(Ntxn(), Exited(false))
    {
      var error := GroupExecute(rounds);
      if Me().pc.Failing? || Me().pc.Idle? {
        var _, _ := Exit(error);
      }
    }

    /** strand_run.  However it interleaves with everybody else, it is a run of the transition
        system; a strand that exits without having given up has run all its transactions.  A strand
        that can set up its handlers, does not fail, is not killed and finds no error does not give up: it
        is held by a barrier, or has run all; and with lively others it does run all. */
    method StrandRun(rounds: nat) returns (ghost alive: bool, ghost errors: nat)
      requires Valid() && Me() == Strand(0, Spawned)
      modifies this`st, this`time, this`run, Objects(bar)
      ensures Valid() && old(run) <= run
      ensures Gone() || HeldAt(st, place, i) || Me() == Strand(Ntxn(), Exited(false))
      ensures Finds(others(old(time), old(st)), alive, errors)
      ensures !alive || errors > 0 || !handlers ==> Gone() && Me().arrived == 0
      ensures old(Fine()) ==> HeldAt(st, place, i) || Me() == Strand(Ntxn(), Exited(false))
      ensures old(Well()) && rounds > 0 ==> Well() && Me() == Strand(Ntxn(), Exited(false))
    {
      var there, flagged := Look();
      alive, errors := there, flagged;
      if there {
        if flagged == 0 && handlers {
          Do(Start);
          RunGroup(rounds);
        } else {
          Do(Abandon);
        }
      }
    }
  }
}
