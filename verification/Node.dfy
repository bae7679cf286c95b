/** One machine of a run: its strands stepping through group_execute, its barriers, and the
    error counter they share (src/execute.c, src/strand.c, src/sync.c).  The master and every
    slave are such a node. */
module Nodes {
  import opened Counting
  import opened Barriers

  /** Where a strand is.  `arrived` barriers have been counted for it, so it is
      waiting for, released into, or running transaction `arrived - 1`. */
  datatype Pc =
    | Spawned                 // before strand_run looks at the error counter
    | Idle                    // between transactions
    | Waiting                 // counted, blocked on the read lock
    | Released                // past the lock, before the error check
    | Running
    | Failing                 // left group_execute with UPERF_FAILURE
    | Exited(early: bool)     // early: without having run all its transactions

  datatype Strand = Strand(arrived: nat, pc: Pc) {
    predicate Executing(k: nat) { pc.Running? && arrived == k + 1 }
    predicate GaveUp() { pc.Failing? || (pc.Exited? && pc.early) }
  }

  datatype Node = Node(strands: seq<Strand>, bars: seq<Bar>, errors: nat, finished: nat, killed: bool)

  datatype Event =
    | Start | Abandon | Arrive | Acquire | Proceed | LeaveOnError
    | Finish | Fail | Flag(errors: nat) | Leave | Kill

  function Positions(n: Node): (s: seq<nat>)
    ensures |s| == |n.strands|
    ensures forall i :: 0 <= i < |s| ==> s[i] == n.strands[i].arrived
  {
    seq(|n.strands|, i requires 0 <= i < |n.strands| => n.strands[i].arrived)
  }

  /** A freshly initialised node whose strand `i` has `txns[i]` transactions ahead. */
  ghost predicate Fresh(txns: seq<nat>, depth: nat, n: Node) {
    && |n.strands| == |txns|
    && (forall i :: 0 <= i < |txns| ==> n.strands[i] == Strand(0, Spawned))
    && |n.bars| == depth
    && (forall k :: 0 <= k < depth ==> n.bars[k] == Bar(0, CountAbove(txns, k), true))
    && n.errors == 0 && n.finished == 0 && !n.killed
  }

  function Put(n: Node, i: nat, s: Strand): Node
    requires i < |n.strands|
  {
    n.(strands := n.strands[i := s])
  }

  /** What event `e` of strand `i` does.  Increments of the error counter are not atomic,
      so after one it holds some positive value and nothing more is promised. */
  ghost predicate StrandStep(txns: seq<nat>, n: Node, i: nat, e: Event, n': Node) {
    && i < |n.strands| == |txns|
    && var s := n.strands[i];
       match e {
         case Start => s.pc.Spawned? && n.errors == 0 && n' == Put(n, i, s.(pc := Idle))
         case Abandon => s.pc.Spawned? && n' == Put(n, i, s.(pc := Exited(true)))
         case Arrive =>
           && s.pc.Idle? && s.arrived < txns[i] && s.arrived < |n.bars|
           && n' == Put(n, i, Strand(s.arrived + 1, Waiting)).(
                      bars := n.bars[s.arrived := n.bars[s.arrived].Arrive()])
         case Acquire =>
           && s.pc.Waiting? && 0 < s.arrived <= |n.bars| && !n.bars[s.arrived - 1].locked
           && n' == Put(n, i, s.(pc := Released))
         case Proceed => s.pc.Released? && n.errors <= 1 && n' == Put(n, i, s.(pc := Running))
         case LeaveOnError =>
           && s.pc.Released? && n.errors > 1
           && n' == Put(n, i, s.(pc := Exited(true))).(finished := n.finished + 1)
         case Finish => s.pc.Running? && n' == Put(n, i, s.(pc := Idle))
         case Fail => s.pc.Running? && n' == Put(n, i, s.(pc := Failing))
         case Flag(errors) =>
           && s.pc.Failing? && errors > 0
           && n' == Put(n, i, s.(pc := Exited(true))).(errors := errors, finished := n.finished + 1)
         case Leave =>
           && s.pc.Idle? && s.arrived == txns[i]
           && n' == Put(n, i, s.(pc := Exited(false))).(finished := n.finished + 1)
         case Kill => n.killed && !s.pc.Exited? && n' == Put(n, i, s.(pc := Exited(true)))
       }
  }

  /** Releasing barrier `k`, as both polling loops do once it is reached. */
  function Opened(n: Node, k: nat): Node
    requires k < |n.bars|
  {
    n.(bars := n.bars[k := n.bars[k].Unlock()])
  }

  /** The barrier bookkeeping: counts are exactly the strands that ever came. */
  ghost predicate Counted(txns: seq<nat>, n: Node) {
    && |n.strands| == |txns|
    && (forall i :: 0 <= i < |txns| ==> n.strands[i].arrived <= txns[i] <= |n.bars|)
    && (forall k :: 0 <= k < |n.bars| ==>
          n.bars[k].count == CountAbove(Positions(n), k) && n.bars[k].limit == CountAbove(txns, k))
    && (forall k :: 0 <= k < |n.bars| && !n.bars[k].locked ==> n.bars[k].Reached())
  }

  ghost predicate Placed(txns: seq<nat>, n: Node)
    requires |n.strands| == |txns|
    requires forall i :: 0 <= i < |txns| ==> n.strands[i].arrived <= |n.bars|
  {
    forall i :: 0 <= i < |txns| ==>
      var s := n.strands[i];
      && (s.pc.Spawned? ==> s.arrived == 0)
      && (s.pc.Waiting? ==> s.arrived > 0)
      && (s.pc.Released? || s.pc.Running? || s.pc.Failing? || (s.pc.Idle? && s.arrived > 0) ==>
            s.arrived > 0 && !n.bars[s.arrived - 1].locked)
      && (s.pc == Exited(false) ==> s.arrived == txns[i])
  }

  ghost predicate NodeInv(txns: seq<nat>, n: Node) {
    Counted(txns, n) && Placed(txns, n)
  }

  lemma FreshNodeInv(txns: seq<nat>, depth: nat, n: Node)
    requires Fresh(txns, depth, n)
    requires forall i :: 0 <= i < |txns| ==> txns[i] <= depth
    ensures NodeInv(txns, n)
  {
    forall k | 0 <= k < depth
      ensures CountAbove(Positions(n), k) == 0
    {
      assert Positions(n) == seq(|txns|, _ => 0);
      CountAboveConstant(|txns|, 0, k);
    }
  }

  /** Only Arrive moves a strand, and only forward by one. */
  lemma StrandStepMoves(txns: seq<nat>, n: Node, i: nat, e: Event, n': Node)
    requires StrandStep(txns, n, i, e, n')
    ensures |n'.strands| == |n.strands| && |n'.bars| == |n.bars|
    ensures Positions(n') == if e.Arrive? then Positions(n)[i := n.strands[i].arrived + 1] else Positions(n)
    ensures forall k :: 0 <= k < |n.bars| ==>
              n'.bars[k] == if e.Arrive? && k == n.strands[i].arrived then n.bars[k].Arrive() else n.bars[k]
    ensures forall j :: 0 <= j < |n.strands| && j != i ==> n'.strands[j] == n.strands[j]
  {
  }

  /** When strand i comes to its next barrier, that barrier counts one more, and was locked: an open
      one has everybody, so nobody can still come to it. */
  lemma ArrivalCounts(txns: seq<nat>, n: Node, i: nat, n': Node)
    requires NodeInv(txns, n) && StrandStep(txns, n, i, Arrive, n')
    ensures n.bars[n.strands[i].arrived].locked
    ensures forall k :: 0 <= k < |n.bars| ==> |n'.bars| == |n.bars| && n'.bars[k].count == CountAbove(Positions(n'), k)
  {
    StrandStepMoves(txns, n, i, Arrive, n');
    var a := n.strands[i].arrived;
    forall k | 0 <= k < |n.bars|
      ensures n'.bars[k].count == CountAbove(Positions(n'), k)
    {
      CountAboveUpdate(Positions(n), i, a + 1, k);
    }
    CountAboveSqueeze(Positions(n), txns, a);
    assert Positions(n)[i] == a;
  }

  lemma StrandStepKeepsCounted(txns: seq<nat>, n: Node, i: nat, e: Event, n': Node)
    requires NodeInv(txns, n) && StrandStep(txns, n, i, e, n')
    ensures Counted(txns, n')
  {
    StrandStepMoves(txns, n, i, e, n');
    if e.Arrive? {
      ArrivalCounts(txns, n, i, n');
    }
  }

  lemma StrandStepKeepsInv(txns: seq<nat>, n: Node, i: nat, e: Event, n': Node)
    requires NodeInv(txns, n) && StrandStep(txns, n, i, e, n')
    ensures NodeInv(txns, n')
  {
    StrandStepKeepsCounted(txns, n, i, e, n');
    StrandStepMoves(txns, n, i, e, n');
  }

  lemma OpenedKeepsInv(txns: seq<nat>, n: Node, k: nat)
    requires NodeInv(txns, n) && k < |n.bars| && n.bars[k].Reached()
    ensures NodeInv(txns, Opened(n, k))
  {
    assert Positions(Opened(n, k)) == Positions(n);
  }

  /** Once barrier `k` has its limit, every strand that has a transaction `k` has come. */
  lemma ReachedMeansAll(txns: seq<nat>, n: Node, k: nat)
    requires Counted(txns, n) && k < |n.bars|
    ensures n.bars[k].Reached() <==>
            forall j :: 0 <= j < |txns| && txns[j] > k ==> n.strands[j].arrived > k
  {
    CountAboveSqueeze(Positions(n), txns, k);
    assert forall j :: 0 <= j < |txns| ==> Positions(n)[j] == n.strands[j].arrived;
  }
}
