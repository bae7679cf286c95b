/** The per-transaction barriers: a counter, a limit and a write-locked rwlock that is
    opened once (src/sync.c), and how shared memory primes them (src/shm.c). */
module Barriers {
  import opened Counting

  const NUM_BARRIER: nat := 100

  /** The value of one barrier: the rwlock is a latch, write-locked until released. */
  datatype Bar = Bar(count: nat, limit: nat, locked: bool) {
    predicate Reached() { count == limit }
    function Arrive(): Bar { this.(count := count + 1) }
    function Unlock(): Bar { this.(locked := false) }
  }

  /** barrier_t as the object in shared memory. */
  class Barrier {
    var count: nat
    var limit: nat
    var locked: bool

    ghost function View(): Bar
      reads this
    {
      Bar(count, limit, locked)
    }

    /** Zeroed shared memory. */
    constructor ()
      ensures View() == Bar(0, 0, false)
    {
      count, limit, locked := 0, 0, false;
    }

    /** init_barrier: nobody has come, and the write lock is taken. */
    method Init(threshold: nat)
      modifies this
      ensures View() == Bar(0, threshold, true)
    {
      count, limit := 0, threshold;
      locked := true;
    }

    /** The counting half of wait_barrier. */
    method Arrive()
      requires limit > 0
      modifies this
      ensures View() == old(View()).Arrive()
    {
      count := count + 1;
    }

    /** The blocking half of wait_barrier: the read lock is granted once the latch is open. */
    method TryPass() returns (passed: bool)
      ensures passed <==> !View().locked
    {
      passed := !locked;
    }

    method NotReached() returns (missing: int)
      ensures missing == 0 <==> View().Reached()
    {
      missing := limit - count;
    }

    /** Unlocking an rwlock that is not held is undefined, so the latch must still be locked. */
    method Unlock()
      requires View().locked
      modifies this
      ensures View() == old(View()).Unlock()
    {
      locked := false;
    }
  }

  /** The part of a group that sizes the barriers. */
  datatype GroupShape = GroupShape(nthreads: nat, ntxn: nat)

  /** Strands of the groups that have a transaction number `k`. */
  function Limit(w: seq<GroupShape>, k: nat): nat {
    if w == [] then 0
    else Limit(w[..|w| - 1], k) + (if w[|w| - 1].ntxn > k then w[|w| - 1].nthreads else 0)
  }

  function MaxTxn(w: seq<GroupShape>): (m: nat)
    ensures forall i :: 0 <= i < |w| ==> w[i].ntxn <= m
    ensures m > 0 ==> exists i :: 0 <= i < |w| && w[i].ntxn == m
  {
    if w == [] then 0
    else
      var m := MaxTxn(w[..|w| - 1]);
      if w[|w| - 1].ntxn > m then w[|w| - 1].ntxn else m
  }

  /** The number of transactions of every strand, strand blocks in group order. */
  function StrandTxns(w: seq<GroupShape>): seq<nat> {
    if w == [] then []
    else StrandTxns(w[..|w| - 1]) + seq(w[|w| - 1].nthreads, _ => w[|w| - 1].ntxn)
  }

  lemma {:induction false} StrandTxnsAtMost(w: seq<GroupShape>)
    ensures forall i :: 0 <= i < |StrandTxns(w)| ==> StrandTxns(w)[i] <= MaxTxn(w)
  {
    if w != [] {
      StrandTxnsAtMost(w[..|w| - 1]);
    }
  }

  /** The limit the master computes group by group is the number of strands that will
      ever come to the barrier. */
  lemma {:induction false} LimitCountsStrands(w: seq<GroupShape>, k: nat)
    ensures Limit(w, k) == CountAbove(StrandTxns(w), k)
  {
    if w != [] {
      var last := w[|w| - 1];
      LimitCountsStrands(w[..|w| - 1], k);
      CountAboveConstant(last.nthreads, last.ntxn, k);
      CountAboveConcat(StrandTxns(w[..|w| - 1]), seq(last.nthreads, _ => last.ntxn), k);
    }
  }

  /** How priming can end.  The master checks the number of transactions only after it has
      already indexed the 100-entry table with them, so the check comes too late: the
      outcome of a longer group is an out-of-bounds store, never the "exhausted" return. */
  datatype Primed = Ready(nobarrier: nat) | Exhausted | OutOfBounds

  /** The table of barriers in shared memory, all of them different objects. */
  ghost predicate Table(bar: array<Barrier>)
    reads bar
  {
    bar.Length == NUM_BARRIER && forall i, k :: 0 <= i < k < NUM_BARRIER ==> bar[i] != bar[k]
  }

  ghost function Objects(bar: array<Barrier>): (o: set<Barrier>)
    reads bar
    ensures forall k :: 0 <= k < bar.Length ==> bar[k] in o
  {
    set b | b in bar[..]
  }

  /** shm_init_barriers_master. */
  method InitBarriersMaster(bar: array<Barrier>, w: seq<GroupShape>) returns (r: Primed)
    requires Table(bar)
    modifies Objects(bar)
    ensures r.OutOfBounds? <==> MaxTxn(w) > NUM_BARRIER
    ensures !r.Exhausted?
    ensures r.Ready? ==> r.nobarrier == MaxTxn(w)
    ensures r.Ready? ==> forall k :: 0 <= k < r.nobarrier ==>
              bar[k].View() == Bar(0, CountAbove(StrandTxns(w), k), true)
    ensures forall k :: 0 <= k < NUM_BARRIER && (r.Ready? ==> r.nobarrier <= k) ==> bar[k].View() == old(bar[k].View())
  {
    var over, n, strandPerTxn := StrandsPerTxn(w);
    if over {
      return OutOfBounds;
    }
    if n > NUM_BARRIER {
      return Exhausted;
    }
    for k := 0 to n
      invariant forall i :: 0 <= i < k ==> bar[i].View() == Bar(0, Limit(w, i), true)
      invariant forall i :: k <= i < NUM_BARRIER ==> bar[i].View() == old(bar[i].View())
      invariant forall i :: 0 <= i < NUM_BARRIER ==> strandPerTxn[i] == Limit(w, i)
    {
      bar[k].Init(strandPerTxn[k]);
    }
    forall k | 0 <= k < n
      ensures bar[k].View() == Bar(0, CountAbove(StrandTxns(w), k), true)
    {
      LimitCountsStrands(w, k);
    }
    r := Ready(n);
  }

  /** Its accumulator loop; `over` is a store beyond the end of the table. */
  method StrandsPerTxn(w: seq<GroupShape>) returns (over: bool, n: nat, strandPerTxn: array<nat>)
    ensures over <==> MaxTxn(w) > NUM_BARRIER
    ensures !over ==> n == MaxTxn(w) && fresh(strandPerTxn) && strandPerTxn.Length == NUM_BARRIER
    ensures !over ==> forall k :: 0 <= k < NUM_BARRIER ==> strandPerTxn[k] == Limit(w, k)
  {
    n := 0;
    strandPerTxn := new nat[NUM_BARRIER](_ => 0);
    for i := 0 to |w|
      invariant n == MaxTxn(w[..i]) <= NUM_BARRIER
      invariant forall k :: 0 <= k < NUM_BARRIER ==> strandPerTxn[k] == Limit(w[..i], k)
    {
      assert w[..i + 1][..i] == w[..i];
      n := if n > w[i].ntxn then n else w[i].ntxn;
      if w[i].ntxn > NUM_BARRIER {
        MaxTxnPrefix(w, i + 1);
        return true, n, strandPerTxn;
      }
      for j := 0 to w[i].ntxn
        invariant forall k :: 0 <= k < j ==> strandPerTxn[k] == Limit(w[..i + 1], k)
        invariant forall k :: j <= k < NUM_BARRIER ==> strandPerTxn[k] == Limit(w[..i], k)
      {
        strandPerTxn[j] := strandPerTxn[j] + w[i].nthreads;
      }
    }
    assert w[..|w|] == w;
    over := false;
  }

  lemma {:induction false} MaxTxnPrefix(w: seq<GroupShape>, i: nat)
    requires i <= |w|
    ensures MaxTxn(w[..i]) <= MaxTxn(w)
  {
    if i < |w| {
      assert w[..|w| - 1][..i] == w[..i];
      MaxTxnPrefix(w[..|w| - 1], i);
    } else {
      assert w[..i] == w;
    }
  }

  /** shm_init_barriers_slave. */
  method InitBarriersSlave(bar: array<Barrier>, g: GroupShape) returns (r: Primed)
    requires Table(bar)
    modifies Objects(bar)
    ensures r.Exhausted? <==> g.ntxn > NUM_BARRIER
    ensures !r.OutOfBounds?
    ensures r.Ready? ==> r.nobarrier == g.ntxn
    ensures r.Ready? ==> forall k :: 0 <= k < g.ntxn ==> bar[k].View() == Bar(0, CountAbove(StrandTxns([g]), k), true)
    ensures forall k :: 0 <= k < NUM_BARRIER && (r.Ready? ==> r.nobarrier <= k) ==> bar[k].View() == old(bar[k].View())
  {
    if g.ntxn > NUM_BARRIER {
      return Exhausted;
    }
    for i := 0 to g.ntxn
      invariant forall k :: 0 <= k < i ==> bar[k].View() == Bar(0, g.nthreads, true)
      invariant forall k :: i <= k < NUM_BARRIER ==> bar[k].View() == old(bar[k].View())
    {
      bar[i].Init(g.nthreads);
    }
    forall k | 0 <= k < g.ntxn
      ensures CountAbove(StrandTxns([g]), k) == g.nthreads
    {
      LimitCountsStrands([g], k);
    }
    r := Ready(g.ntxn);
  }
}
