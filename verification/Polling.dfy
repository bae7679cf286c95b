/** The main threads as the loops they are: master_poll with its sends, and slave_master_poll with
    its wait for a barrier, on the barriers in shared memory and interrupted anywhere by everybody
    else.  Both are runs of the transition system, so its properties are theirs (src/master.c,
    src/slave.c). */
module Polling {
  import opened Counting
  import opened Barriers
  import opened Nodes
  import opened Run
  import opened RunInvariant
  import opened RunProgress
  import opened Interference
  import opened Liveliness

  // ---- The master ----

  /** The state after a step of the master's main thread. */
  function MasterDo(st: State, a: Step): State {
    var n := |st.slaves|;
    match a
    case BeginSend => st.(phase := Sending(0))
    case SendOk =>
      if st.phase.Sending? && st.phase.next < n
      then PutSlave(st, st.phase.next, Enqueue(st.slaves[st.phase.next], NextTxn(st.curr)))
             .(phase := Sending(st.phase.next + 1))
      else st
    case SendFail => st.(phase := Unlocking, lostSend := true)
    case EndSend => st.(phase := Unlocking)
    case UnlockNext =>
      if st.curr < |st.master.bars|
      then st.(master := Opened(st.master, st.curr), curr := st.curr + 1, phase := Polling)
      else st
    case PollError(errors) => st.(phase := Draining, master := st.master.(errors := errors))
    case EndPoll => st.(phase := Draining)
    case BeginAbort => st.(phase := Aborting(0), master := st.master.(killed := true))
    case BeginReport => st.(phase := Reporting(0))
    case TailOk =>
      if st.phase.Aborting? && st.phase.next < n
      then PutSlave(st, st.phase.next, Enqueue(st.slaves[st.phase.next], Abort)).(phase := Aborting(st.phase.next + 1))
      else if st.phase.Reporting? && st.phase.next < n
      then PutSlave(st, st.phase.next, Enqueue(st.slaves[st.phase.next], SendStats))
             .(phase := Reporting(st.phase.next + 1))
      else st
    case TailFail => st.(phase := Ended)
    case EndTail => st.(phase := Ended)
    case _ => st
  }

  lemma DoKeepsHeard(st: State, a: Step)
    ensures |MasterDo(st, a).slaves| == |st.slaves|
    ensures forall s :: 0 <= s < |st.slaves| ==> StillHeard(st.slaves[s], MasterDo(st, a).slaves[s])
  {
  }

  /** The first `n` slaves have been sent NEXT_TXN k. */
  ghost predicate Told(st: State, n: nat, k: nat) {
    n <= |st.slaves| && forall s :: 0 <= s < n ==> Heard(st.slaves[s], k)
  }

  lemma StillTold(st: State, st': State, n: nat, k: nat)
    requires Told(st, n, k) && |st'.slaves| == |st.slaves|
    requires forall s :: 0 <= s < |st.slaves| ==> StillHeard(st.slaves[s], st'.slaves[s])
    ensures Told(st', n, k)
  {
  }

  lemma ToldAfter(st: State, a: Step, n: nat, k: nat)
    requires Told(st, n, k)
    ensures Told(MasterDo(st, a), n, k)
  {
    DoKeepsHeard(st, a);
  }

  lemma OneMoreTold(st: State, n: nat)
    requires Told(st, n, st.curr) && st.phase == Sending(n) && n < |st.slaves|
    ensures Told(MasterDo(st, SendOk), n + 1, st.curr)
  {
    DoKeepsHeard(st, SendOk);
  }

  /** The first `n` slaves have been ordered to stop. */
  ghost predicate Given(st: State, n: nat, cmd: Command) {
    n <= |st.slaves| && forall s :: 0 <= s < n ==> Ordered(st.slaves[s], cmd)
  }

  lemma StillGiven(st: State, st': State, n: nat, cmd: Command)
    requires Given(st, n, cmd) && |st'.slaves| == |st.slaves| && (cmd == Abort || cmd == SendStats)
    requires forall s :: 0 <= s < |st.slaves| ==> StillHeard(st.slaves[s], st'.slaves[s])
    ensures Given(st', n, cmd)
  {
  }

  lemma GivenAfter(st: State, a: Step, n: nat, cmd: Command)
    requires Given(st, n, cmd) && (cmd == Abort || cmd == SendStats)
    ensures Given(MasterDo(st, a), n, cmd)
  {
    DoKeepsHeard(st, a);
    StillGiven(st, MasterDo(st, a), n, cmd);
  }

  lemma OneMoreGiven(st: State, n: nat, cmd: Command)
    requires Given(st, n, cmd) && n < |st.slaves|
    requires (st.phase == Aborting(n) && cmd == Abort) || (st.phase == Reporting(n) && cmd == SendStats)
    ensures Given(MasterDo(st, TailOk), n + 1, cmd)
  {
    GivenAfter(st, TailOk, n, cmd);
  }

  /** Why the main loop ended. */
  datatype LoopEnd = AllReleased | StrandFailed | PollFailed | StillPolling

  /** The master's main thread on the barriers `bar`.  `others` is everybody else, `polls` what
      poll_slaves returns and `sends` what writing a command returns, at any time. */
  class Master {
    const c: Config
    const bar: array<Barrier>
    const others: (nat, State) -> State
    const polls: nat -> int
    const sends: nat -> int
    const errorStats: bool
    var st: State
    var time: nat
    ghost var run: seq<State>

    /** The state is the last of a run, and the table holds the master's barriers. */
    ghost predicate Valid()
      reads this, bar, Objects(bar)
    {
      && Interferes(c, MasterMain, others) && IsRun(c, run) && run[|run| - 1] == st
      && Mirrors(bar, st.master.bars)
    }

    constructor (c: Config, bar: array<Barrier>, others: (nat, State) -> State, polls: nat -> int, sends: nat -> int,
                 errorStats: bool, st: State)
      requires Init(c, st) && Interferes(c, MasterMain, others) && Mirrors(bar, st.master.bars)
      ensures Valid() && run == [st] && this.c == c && this.st == st && this.bar == bar
      ensures this.others == others && this.polls == polls && this.sends == sends && this.errorStats == errorStats
      ensures Smooth() ==> Well()
    {
      this.c, this.bar, this.others, this.polls, this.sends := c, bar, others, polls, sends;
      this.errorStats := errorStats;
      this.st, time, run := st, 0, [st];
    }

    /** The others are lively, nobody says anything unasked, and every command can be written. */
    ghost predicate Smooth() {
      Lively(c, MasterMain, others) && (forall t :: polls(t) == 0) && forall t :: sends(t) > 0
    }

    /** And nothing has failed so far. */
    ghost predicate Well()
      reads this
    {
      Smooth() && ProductiveRun(c, run)
    }

    /** Everybody else goes on for a while. */
    method Others()
      requires Valid()
      modifies this`st, this`time, this`run, Objects(bar)
      ensures Valid() && old(run) <= run && MasterKept(old(st), st) && time == old(time) + 1
      ensures old(Well()) ==> Well()
    {
      GoOn();
    }

    lemma Meantime() returns (longer: seq<State>)
      requires Valid()
      ensures IsRun(c, longer) && run <= longer && longer[|longer| - 1] == others(time, st)
      ensures MasterKept(st, others(time, st))
      ensures Well() ==> ProductiveRun(c, longer) && OthersRest(c, MasterMain, others(time, st))
    {
      if Well() {
        longer := Settled(c, MasterMain, others, time, run);
      } else {
        longer := Interrupted(c, MasterMain, others, time, run);
      }
    }

    method GoOn()
      requires Valid()
      modifies this`st, this`time, this`run, Objects(bar)
      ensures Valid() && old(run) <= run && MasterKept(old(st), st)
      ensures st == others(old(time), old(st)) && time == old(time) + 1
      ensures old(Well()) ==> Well() && OthersRest(c, MasterMain, st)
    {
      ghost var longer := Meantime();
      MirrorsFit(bar, st.master.bars, others(time, st).master.bars);
      st := others(time, st);
      time := time + 1;
      run := longer;
      Meanwhile(bar, st.master.bars);
    }

    /** A step that leaves the barriers alone. */
    method Do(a: Step)
      requires Valid() && Mine(MasterMain, a) && MasterStep(st, a, MasterDo(st, a)) && !a.UnlockNext?
      modifies this`st, this`run
      ensures Valid() && old(run) <= run && st == MasterDo(old(st), a)
      ensures old(Well()) && Productive(a) ==> Well()
    {
      StepExtends(c, run, a, MasterDo(st, a));
      run := run + [MasterDo(st, a)];
      st := MasterDo(st, a);
    }

    /** unlock_barrier on the current barrier, which is locked still. */
    method Release()
      requires Valid() && st.phase.Unlocking? && st.curr < |st.master.bars|
      modifies this`st, this`run, Objects(bar)
      ensures Valid() && old(run) <= run && st == MasterDo(old(st), UnlockNext)
      ensures old(Well()) ==> Well()
    {
      RunInv(c, run, |run| - 1);
      ghost var next := MasterDo(st, UnlockNext);
      StepExtends(c, run, UnlockNext, next);
      bar[st.curr].Unlock();
      MirrorsOne(bar, st.master.bars, st.curr, st.master.bars[st.curr].Unlock());
      run := run + [next];
      st := MasterDo(st, UnlockNext);
    }

    /** One write of NEXT_TXN. */
    method TellNext(s: nat) returns (ok: bool)
      requires Valid() && st.phase == Sending(s) && s < |st.slaves| && Told(st, s, st.curr)
      modifies this`st, this`time, this`run, Objects(bar)
      ensures Valid() && old(run) <= run && st.curr == old(st.curr) && time > old(time)
      ensures |st.master.bars| == old(|st.master.bars|) && |st.slaves| == old(|st.slaves|)
      ensures ok <==> sends(time) > 0
      ensures ok ==> st.phase == Sending(s + 1) && Told(st, s + 1, st.curr) && st.lostSend == old(st.lostSend)
      ensures !ok ==> st.phase == Unlocking && Told(st, s, st.curr) && st.lostSend
      ensures old(Well()) ==> ok && Well()
    {
      ghost var was := st;
      Others();
      StillTold(was, st, s, st.curr);
      ok := sends(time) > 0;
      if ok {
        OneMoreTold(st, s);
        Do(SendOk);
      } else {
        ToldAfter(st, SendFail, s, st.curr);
        Do(SendFail);
      }
    }

    /** send_command_to_slaves with NEXT_TXN: one slave after the other until a send fails; `sent`
        of them have been sent the command. */
    method SendNextTxn() returns (sent: nat)
      requires Valid() && st.phase == Sending(0) && st.curr < |st.master.bars|
      modifies this`st, this`time, this`run, Objects(bar)
      ensures Valid() && old(run) <= run && st.phase == Unlocking && st.curr == old(st.curr)
      ensures |st.master.bars| == old(|st.master.bars|) && |st.slaves| == old(|st.slaves|)
      ensures Told(st, sent, st.curr)
      ensures st.lostSend <==> old(st.lostSend) || sent < |st.slaves|
      ensures sent < |st.slaves| ==> sends(time) <= 0
      ensures time >= old(time)
      ensures old(Well()) ==> Well() && sent == |st.slaves|
    {
      ghost var well := Well();
      sent := 0;
      while sent < |st.slaves|
        invariant Valid() && old(run) <= run && st.phase == Sending(sent) && st.curr == old(st.curr)
        invariant |st.slaves| == old(|st.slaves|) && |st.master.bars| == old(|st.master.bars|)
        invariant Told(st, sent, st.curr) && st.lostSend == old(st.lostSend)
        invariant time >= old(time) && (well ==> Well())
        decreases |st.slaves| - sent
      {
        var ok := TellNext(sent);
        if !ok {
          return;
        }
        sent := sent + 1;
      }
      ToldAfter(st, EndSend, sent, st.curr);
      Do(EndSend);
    }

    /** One write of ABORT or SEND_STATS. */
    method SendTo(s: nat, ghost cmd: Command) returns (ret: int)
      requires Valid() && s < |st.slaves| && Given(st, s, cmd)
      requires (st.phase == Aborting(s) && cmd == Abort) || (st.phase == Reporting(s) && cmd == SendStats)
      modifies this`st, this`time, this`run, Objects(bar)
      ensures Valid() && old(run) <= run && |st.slaves| == old(|st.slaves|) && st.curr == old(st.curr)
      ensures old(st.master.killed) ==> st.master.killed
      ensures ret == sends(time)
      ensures ret > 0 ==> st.phase == old(st.phase).(next := s + 1) && Given(st, s + 1, cmd)
      ensures ret <= 0 ==> st.phase == Ended && Given(st, s, cmd)
      ensures old(Well()) ==> ret > 0 && Well()
    {
      ghost var was := st;
      Others();
      StillGiven(was, st, s, cmd);
      ret := sends(time);
      if ret <= 0 {
        GivenAfter(st, TailFail, s, cmd);
        Do(TailFail);
      } else {
        OneMoreGiven(st, s, cmd);
        Do(TailOk);
      }
    }

    /** All of them, until a write fails; what the last one returned. */
    method SendLast() returns (sent: nat, ret: int)
      requires Valid() && (st.phase == Aborting(0) || st.phase == Reporting(0))
      modifies this`st, this`time, this`run, Objects(bar)
      ensures Valid() && old(run) <= run && st.phase == Ended && st.curr == old(st.curr)
      ensures old(st.master.killed) ==> st.master.killed
      ensures |st.slaves| == old(|st.slaves|) && Given(st, sent, if old(st.phase).Aborting? then Abort else SendStats)
      ensures ret > 0 <==> sent == |st.slaves| > 0
      ensures sent < |st.slaves| ==> sends(time) <= 0
      ensures old(Well()) && old(st.phase).Reporting? ==> Well() && sent == |st.slaves|
    {
      ghost var well, cmd := Well(), if st.phase.Aborting? then Abort else SendStats;
      sent, ret := 0, 0;
      while sent < |st.slaves|
        invariant Valid() && old(run) <= run && |st.slaves| == old(|st.slaves|) && st.curr == old(st.curr)
        invariant st.phase == old(st.phase).(next := sent)
        invariant (old(st.master.killed) ==> st.master.killed) && (well ==> Well())
        invariant Given(st, sent, cmd) && (ret > 0 <==> sent > 0)
        decreases |st.slaves| - sent
      {
        ret := SendTo(sent, cmd);
        if ret <= 0 {
          return;
        }
        sent := sent + 1;
      }
      GivenAfter(st, EndTail, sent, cmd);
      Do(EndTail);
    }

    /** First the command to the slaves, `sent` of which get it, then the master's own barrier. */
    method SendAndRelease() returns (sent: nat)
      requires Valid() && st.phase == Sending(0) && st.curr < |st.master.bars|
      modifies this`st, this`time, this`run, Objects(bar)
      ensures Valid() && old(run) <= run && st.phase == Polling && st.curr == old(st.curr) + 1
      ensures |st.master.bars| == old(|st.master.bars|) && |st.slaves| == old(|st.slaves|)
      ensures Told(st, sent, old(st.curr)) && (st.lostSend <==> old(st.lostSend) || sent < |st.slaves|)
      ensures time >= old(time)
      ensures old(Well()) ==> Well() && sent == |st.slaves|
    {
      sent := SendNextTxn();
      ghost var was := st;
      Others();
      StillTold(was, st, sent, st.curr);
      ToldAfter(st, UnlockNext, sent, st.curr);
      Release();
    }

    /** Barrier k is open, and all strands counted on have come to it. */
    ghost predicate Released(k: nat)
      reads this, bar, Objects(bar)
    {
      && Valid() && k < |st.master.bars|
      && !bar[k].locked && bar[k].count == bar[k].limit == CountAbove(c.Txns(), k)
    }

    lemma PassedIsReleased(k: nat)
      requires Valid() && k < st.curr
      ensures Released(k)
    {
      RunInv(c, run, |run| - 1);
      assert bar[k].View() == st.master.bars[k];
    }

    predicate ReachedAt(n: Node, k: nat) { k < |n.bars| && n.bars[k].Reached() }

    /** Everybody is told and released. */
    method TellAndRelease() returns (sent: nat)
      requires Valid() && st.phase == Polling && st.curr < |st.master.bars| && st.master.bars[st.curr].Reached()
      modifies this`st, this`time, this`run, Objects(bar)
      ensures Valid() && old(run) <= run && st.phase == Polling
      ensures |st.master.bars| == old(|st.master.bars|) && |st.slaves| == old(|st.slaves|)
      ensures st.curr == old(st.curr) + 1 && Released(old(st.curr))
      ensures Told(st, sent, old(st.curr)) && (st.lostSend <==> old(st.lostSend) || sent < |st.slaves|)
      ensures time >= old(time)
      ensures old(Well()) ==> Well()
    {
      Do(BeginSend);
      sent := SendAndRelease();
      PassedIsReleased(old(st.curr));
    }

    /** If all strands have come, and only then, everybody is told and released; otherwise the master
        does nothing, and the state is what the others have made of it. */
    method ReleaseIfReached() returns (released: bool, sent: nat)
      requires Valid() && st.phase == Polling && st.curr < |st.master.bars|
      modifies this`st, this`time, this`run, Objects(bar)
      ensures Valid() && old(run) <= run && st.phase == Polling
      ensures |st.master.bars| == old(|st.master.bars|) && |st.slaves| == old(|st.slaves|)
      ensures released <==> ReachedAt(others(old(time), old(st)).master, old(st.curr))
      ensures !released ==> sent == 0 && st == others(old(time), old(st))
      ensures !released ==> st.curr == old(st.curr) && st.lostSend == old(st.lostSend)
      ensures released ==> st.curr == old(st.curr) + 1 && Released(old(st.curr))
      ensures released ==> Told(st, sent, old(st.curr)) && (st.lostSend <==> old(st.lostSend) || sent < |st.slaves|)
      ensures old(Well()) ==> Well() && released
      ensures time > old(time)
    {
      ghost var well := Well();
      GoOn();
      if well {
        FindsReached();
      }
      sent := 0;
      var missing := bar[st.curr].NotReached();
      released := missing == 0;
      if released {
        sent := TellAndRelease();
      }
    }

    lemma FindsReached()
      requires Valid() && Well() && OthersRest(c, MasterMain, st) && st.curr < |st.master.bars|
      ensures st.master.bars[st.curr].Reached()
    {
      RunInv(c, run, |run| - 1);
      ProductiveRunQuiet(c, run, |run| - 1);
      RestReaches(c, st);
    }

    lemma FindsNoErrors()
      requires Valid() && Well()
      ensures st.master.errors == 0 && st.curr <= c.Depth() == |st.master.bars|
    {
      ProductiveRunQuiet(c, run, |run| - 1);
    }

    lemma FindsAllDone()
      requires Valid() && Well() && OthersRest(c, MasterMain, st) && st.curr == c.Depth() && c.Txns() != []
      ensures st.master.finished > 0
    {
      ProductiveRunQuiet(c, run, |run| - 1);
      AskedInRun(c, run, |run| - 1);
      RestIsDone(c, MasterMain, st);
      DoneIsCounted(c.Txns(), st.master);
    }

    /** The main event loop, for at most `rounds` rounds, each of which looks at the others three times.
        If nothing fails and the others are lively, one round more than there are barriers left is enough. */
    method EventLoop(rounds: nat) returns (end: LoopEnd)
      requires Valid() && st.phase == Polling
      modifies this`st, this`time, this`run, Objects(bar)
      ensures Valid() && old(run) <= run
      ensures end.StillPolling? <==> st.phase == Polling
      ensures !end.StillPolling? ==> st.phase == Draining
      ensures end.StillPolling? ==> time >= old(time) + 3 * rounds
      ensures end.AllReleased? ==> st.curr == |st.master.bars|
      ensures end.StrandFailed? || end.PollFailed? ==> st.curr < |st.master.bars| && st.master.errors > 0
      ensures end.PollFailed? ==> polls(time) != 0
      ensures old(Well()) && rounds > c.Depth() - old(st.curr) ==> Well() && end.AllReleased?
    {
      ghost var was, well, curr := run, Well(), st.curr;
      for n := 0 to rounds
        invariant Valid() && was <= run && st.phase == Polling && time >= old(time) + 3 * n
        invariant well ==> Well() && st.curr == curr + n
      {
        RunInv(c, run, |run| - 1);
        if st.curr == |st.master.bars| {
          Do(EndPoll);
          return AllReleased;
        }
        end := Round();
        if !end.StillPolling? {
          return;
        }
      }
      RunInv(c, run, |run| - 1);
      end := StillPolling;
    }

    /** What the others make of it in `n` looks from now on. */
    ghost function After(n: nat): State
      reads this`st, this`time
    {
      if n == 0 then st else others(time + n - 1, After(n - 1))
    }

    lemma AfterMore()
      ensures After(1) == others(time, st) && After(2) == others(time + 1, After(1))
      ensures After(3) == others(time + 2, After(2))
    {
    }

    /** The error that ends the main loop, if one is found. */
    method FindError() returns (failed: bool)
      requires Valid() && st.phase == Polling && st.curr < |st.master.bars|
      modifies this`st, this`time, this`run, Objects(bar)
      ensures Valid() && old(run) <= run && st.curr == old(st.curr) && |st.master.bars| == old(|st.master.bars|)
      ensures time == old(time) + 1 && (failed <==> others(old(time), old(st)).master.errors > 0)
      ensures failed ==> st.phase == Draining && st.master.errors > 0
      ensures !failed ==> st.phase == Polling && st == others(old(time), old(st))
      ensures old(Well()) ==> Well() && !failed
    {
      GoOn();
      failed := st.master.errors > 0;
      if failed {
        if Well() {
          FindsNoErrors();
        }
        Do(PollError(st.master.errors));
      }
    }

    /** The message of a slave that ends it, if there is one. */
    method FindMessage() returns (found: bool)
      requires Valid() && st.phase == Polling && st.curr < |st.master.bars|
      modifies this`st, this`time, this`run, Objects(bar)
      ensures Valid() && old(run) <= run && st.curr == old(st.curr) && |st.master.bars| == old(|st.master.bars|)
      ensures time == old(time) + 1 && (found <==> polls(time) != 0)
      ensures found ==> st.phase == Draining && st.master.errors > 0
      ensures !found ==> st.phase == Polling && st == others(old(time), old(st))
      ensures old(Well()) ==> Well() && !found
    {
      GoOn();
      found := polls(time) != 0;
      if found {
        Do(PollError(st.master.errors + 1));
      }
    }

    /** The rest of a round, if there is neither an error nor a message. */
    method PassBarrier()
      requires Valid() && st.phase == Polling && st.curr < |st.master.bars|
      modifies this`st, this`time, this`run, Objects(bar)
      ensures Valid() && old(run) <= run && st.phase == Polling && time > old(time)
      ensures Passed(others(old(time), old(st)), old(st.curr))
      ensures old(Well()) ==> Well() && st.curr == old(st.curr) + 1
    {
      var released, sent := ReleaseIfReached();
      assert released ==> Sent(sent, old(st.curr));
    }

    /** Whether the loop goes on: an error that is found ends it, or else a message. */
    method LookAround() returns (end: LoopEnd)
      requires Valid() && st.phase == Polling && st.curr < |st.master.bars|
      modifies this`st, this`time, this`run, Objects(bar)
      ensures Valid() && old(run) <= run && !end.AllReleased?
      ensures st.curr == old(st.curr) && |st.master.bars| == old(|st.master.bars|)
      ensures end.StrandFailed? <==> others(old(time), old(st)).master.errors > 0
      ensures !end.StrandFailed? ==> time == old(time) + 2 && (end.PollFailed? <==> polls(time) != 0)
      ensures end.StillPolling? ==>
                st.phase == Polling && st == others(old(time) + 1, others(old(time), old(st)))
      ensures !end.StillPolling? ==> st.phase == Draining && st.master.errors > 0
      ensures old(Well()) ==> Well() && end.StillPolling?
    {
      end := StillPolling;
      var failed := FindError();
      if failed {
        end := StrandFailed;
      } else {
        var found := FindMessage();
        end := if found then PollFailed else StillPolling;
      }
    }

    /** The body of the main loop: it ends, or the next barrier is released exactly if it is reached. */
    method Round() returns (end: LoopEnd)
      requires Valid() && st.phase == Polling && st.curr < |st.master.bars|
      modifies this`st, this`time, this`run, Objects(bar)
      ensures Valid() && old(run) <= run && !end.AllReleased?
      ensures end.StillPolling? <==> st.phase == Polling
      ensures !end.StillPolling? ==> st.phase == Draining && st.curr < |st.master.bars| && st.master.errors > 0
      ensures end.PollFailed? ==> polls(time) != 0
      ensures end.StrandFailed? <==> old(After(1)).master.errors > 0
      ensures !end.StrandFailed? ==> (end.PollFailed? <==> polls(old(time) + 2) != 0)
      ensures end.StillPolling? ==> time >= old(time) + 3
      ensures end.StillPolling? ==> Passed(old(After(3)), old(st.curr))
      ensures old(Well()) ==> Well() && end.StillPolling? && st.curr == old(st.curr) + 1
    {
      AfterMore();
      end := LookAround();
      if end.StillPolling? {
        PassBarrier();
      }
    }

    /** Barrier k was reached in the state found, and has been released after the slaves were told; or it
        was not, and nothing has been done. */
    ghost predicate Passed(found: State, k: nat)
      reads this, bar, Objects(bar)
    {
      if ReachedAt(found.master, k) then st.curr == k + 1 && Released(k) && exists sent :: Sent(sent, k)
      else st == found && st.curr == k
    }

    /** The first `sent` slaves have been told about transaction k, and if not all, a send has failed. */
    ghost predicate Sent(sent: nat, k: nat)
      reads this
    {
      Told(st, sent, k) && (sent < |st.slaves| ==> st.lostSend)
    }

    /** The second loop: until an error is flagged or a strand has finished. */
    method Drain(rounds: nat) returns (over: bool)
      requires Valid() && st.phase == Draining
      modifies this`st, this`time, this`run, Objects(bar)
      ensures Valid() && old(run) <= run && st.phase == Draining && st.curr == old(st.curr)
      ensures over <==> st.master.errors > 0 || st.master.finished > 0
      ensures over || time >= old(time) + rounds
      ensures old(Well()) && rounds > 0 && st.curr == c.Depth() && c.Txns() != [] ==> Well() && over
    {
      ghost var well := Well();
      for n := 0 to rounds
        invariant Valid() && old(run) <= run && st.phase == Draining && st.curr == old(st.curr)
        invariant time == old(time) + n
        invariant well ==> Well()
        invariant well && n > 0 && st.curr == c.Depth() && c.Txns() != [] ==> st.master.finished > 0
      {
        if st.master.errors > 0 || st.master.finished > 0 {
          return true;
        }
        GoOn();
        if well && st.curr == c.Depth() && c.Txns() != [] {
          FindsAllDone();
        }
      }
      over := st.master.errors > 0 || st.master.finished > 0;
    }

    /** master_prepare_to_exit. */
    method AbortAll() returns (sent: nat)
      requires Valid() && st.phase == Draining && st.master.errors > 0
      modifies this`st, this`time, this`run, Objects(bar)
      ensures Valid() && old(run) <= run && st.curr == old(st.curr)
      ensures st.phase == Ended && st.master.killed && Given(st, sent, Abort)
      ensures sent < |st.slaves| ==> sends(time) <= 0
    {
      Do(BeginAbort);
      var ret;
      sent, ret := SendLast();
    }

    method AskAll() returns (sent: nat, ret: int)
      requires Valid() && st.phase == Draining && st.master.errors == 0 && st.master.finished > 0
      modifies this`st, this`time, this`run, Objects(bar)
      ensures Valid() && old(run) <= run && st.curr == old(st.curr)
      ensures st.phase == Ended && Given(st, sent, SendStats) && (ret > 0 <==> sent == |st.slaves| > 0)
      ensures sent < |st.slaves| ==> sends(time) <= 0
      ensures old(Well()) ==> Well() && sent == |st.slaves|
    {
      Do(BeginReport);
      sent, ret := SendLast();
    }

    /** What the loops leave to do: after an error shut everybody down, strands and slaves; otherwise ask
        for the statistics if they are wanted, which fails unless every one of some slaves is asked. */
    method Finish() returns (r: int, sent: nat)
      requires Valid() && st.phase == Draining && (st.master.errors > 0 || st.master.finished > 0)
      modifies this`st, this`time, this`run, Objects(bar)
      ensures Valid() && old(run) <= run && (r == 0 || r == 1) && st.curr == old(st.curr)
      ensures r == 0 ==> st.curr == c.Depth()
      ensures old(st.master.errors) > 0 ==> r == 1 && st.phase == Ended && st.master.killed && Given(st, sent, Abort)
      ensures old(st.master.errors) == 0 && !errorStats ==> r == 0 && st == old(st)
      ensures old(st.master.errors) == 0 && errorStats ==> st.phase == Ended && Given(st, sent, SendStats)
      ensures old(st.master.errors) == 0 && errorStats ==> (r == 0 <==> sent == |st.slaves| > 0)
      ensures sent < |st.slaves| && st.phase == Ended ==> sends(time) <= 0
      ensures old(Well()) ==> Well() && (st.phase == Ended ==> sent == |st.slaves|)
    {
      RunInv(c, run, |run| - 1);
      if Well() {
        FindsNoErrors();
      }
      r, sent := 0, 0;
      if st.master.errors > 0 {
        sent := AbortAll();
        r := 1;
      } else if errorStats {
        var ret;
        sent, ret := AskAll();
        r := if ret <= 0 then 1 else 0;
      }
    }

    lemma AllOpen()
      requires Valid() && st.curr == c.Depth()
      ensures |st.master.bars| == c.Depth() && forall k :: 0 <= k < c.Depth() ==> !bar[k].locked
    {
      RunInv(c, run, |run| - 1);
    }

    /** master_poll.  However its rounds interleave with the strands and the slaves, it is a run of
        the transition system; and it can only return 0 when every barrier has been released.  With
        lively others, and if nothing fails, it does release all barriers and is over. */
    method MasterPoll(rounds: nat) returns (over: bool, r: int)
      requires Valid() && st.phase == Polling
      modifies this`st, this`time, this`run, Objects(bar)
      ensures Valid() && old(run) <= run
      ensures over ==> r == 0 || r == 1
      ensures over && r == 0 ==> |st.master.bars| == c.Depth() && forall k :: 0 <= k < c.Depth() ==> !bar[k].locked
      ensures over && r == 0 ==> st.phase == if errorStats then Ended else Draining
      ensures over && r == 1 ==> st.phase == Ended && (st.master.killed || errorStats)
      ensures old(Well()) && rounds > c.Depth() && c.Txns() != [] ==>
                over && Well() && (r == 0 <==> !errorStats || |st.slaves| > 0)
      ensures old(Well()) && rounds > c.Depth() && c.Txns() != [] ==>
                |st.master.bars| == c.Depth() && forall k :: 0 <= k < c.Depth() ==> !bar[k].locked
    {
      over, r := false, 0;
      var end := EventLoop(rounds);
      if !end.StillPolling? {
        if Well() {
          FindsNoErrors();
        }
        over := Drain(rounds);
      }
      if over {
        if Well() {
          FindsNoErrors();
        }
        var sent;
        r, sent := Finish();
        if st.curr == c.Depth() {
          AllOpen();
        }
      }
    }
  }

  lemma MirrorsFit(bar: array<Barrier>, bars: seq<Bar>, bars': seq<Bar>)
    requires Mirrors(bar, bars) && |bars'| == |bars|
    ensures Table(bar) && |bars'| <= NUM_BARRIER
  {
  }

  // ---- A slave ----

  /** The state after a step of slave s's main thread. */
  function SlaveDo(st: State, a: Step): State {
    match a
    case Receive(s) =>
      if s < |st.slaves| && st.slaves[s].queue != [] then PutSlave(st, s, Handle(st.slaves[s])) else st
    case SlaveRelease(s) =>
      if s < |st.slaves| && 0 <= st.slaves[s].busy < |st.slaves[s].node.bars|
      then PutSlave(st, s, st.slaves[s].(busy := -1, node := Opened(st.slaves[s].node, st.slaves[s].busy)))
      else st
    case SlaveGiveUp(s) =>
      if s < |st.slaves|
      then PutSlave(st, s, st.slaves[s].(open := false, node := st.slaves[s].node.(killed := true)))
      else st
    case _ => st
  }

  const WAIT_TIME: nat := 5

  /** How waiting for a barrier ended. */
  datatype Waited = Unlocked | StrandError | SignalFailed | CalloutFailed | TimedOut

  /** The main thread of slave `s` on the barriers `bar`.  `polls` is whether its control connection
      has something to read, `signals` what signalling the strands returns and `callouts` what
      processing the callouts does. */
  class SlaveThread {
    const c: Config
    const s: nat
    const bar: array<Barrier>
    const others: (nat, State) -> State
    const polls: nat -> int
    const signals: nat -> int
    const callouts: nat -> int
    var st: State
    var time: nat
    ghost var run: seq<State>

    ghost predicate Valid()
      reads this, bar, Objects(bar)
    {
      && Interferes(c, SlaveMain(s), others) && IsRun(c, run) && run[|run| - 1] == st && s < |st.slaves|
      && Mirrors(bar, st.slaves[s].node.bars)
    }

    constructor (c: Config, s: nat, bar: array<Barrier>, others: (nat, State) -> State, polls: nat -> int,
                 signals: nat -> int, callouts: nat -> int, st: State)
      requires Init(c, st) && Interferes(c, SlaveMain(s), others)
      requires s < |st.slaves| && Mirrors(bar, st.slaves[s].node.bars)
      ensures Valid() && run == [st] && this.c == c && this.st == st && this.s == s && this.bar == bar
      ensures this.others == others && this.polls == polls && this.signals == signals && this.callouts == callouts
      ensures Smooth() ==> Well()
    {
      this.c, this.s, this.bar, this.others := c, s, bar, others;
      this.polls, this.signals, this.callouts := polls, signals, callouts;
      this.st, time, run := st, 0, [st];
    }

    /** The others are lively, and nothing the slave does fails. */
    ghost predicate Smooth() {
      && Lively(c, SlaveMain(s), others) && (forall t :: polls(t) > 0)
      && (forall t :: signals(t) == 0) && forall t :: callouts(t) >= 0
    }

    /** And nothing has failed so far. */
    ghost predicate Well()
      reads this
    {
      Smooth() && ProductiveRun(c, run)
    }

    lemma Meantime() returns (longer: seq<State>)
      requires Valid()
      ensures IsRun(c, longer) && run <= longer && longer[|longer| - 1] == others(time, st)
      ensures SlaveKept(s, st, others(time, st))
      ensures Well() ==> ProductiveRun(c, longer) && OthersRest(c, SlaveMain(s), others(time, st))
    {
      if Well() {
        longer := Settled(c, SlaveMain(s), others, time, run);
      } else {
        longer := Interrupted(c, SlaveMain(s), others, time, run);
      }
    }

    /** Everybody else goes on for a while. */
    method Others()
      requires Valid()
      modifies this`st, this`time, this`run, Objects(bar)
      ensures Valid() && old(run) <= run && SlaveKept(s, old(st), st)
      ensures st == others(old(time), old(st)) && time == old(time) + 1
      ensures old(Well()) ==> Well() && OthersRest(c, SlaveMain(s), st)
    {
      ghost var longer := Meantime();
      MirrorsFit(bar, st.slaves[s].node.bars, others(time, st).slaves[s].node.bars);
      st := others(time, st);
      time := time + 1;
      run := longer;
      Meanwhile(bar, st.slaves[s].node.bars);
    }

    /** A step that leaves the barriers alone. */
    method Do(a: Step)
      requires Valid() && Mine(SlaveMain(s), a) && SlaveStep(st, a, SlaveDo(st, a)) && !a.SlaveRelease?
      modifies this`st, this`run
      ensures Valid() && old(run) <= run && st == SlaveDo(old(st), a)
      ensures old(Well()) && Productive(a) ==> Well()
    {
      StepExtends(c, run, a, SlaveDo(st, a));
      run := run + [SlaveDo(st, a)];
      st := SlaveDo(st, a);
    }

    lemma ReleaseIsStep()
      requires Valid() && st.slaves[s].open && 0 <= st.slaves[s].busy < |st.slaves[s].node.bars|
      requires st.slaves[s].node.bars[st.slaves[s].busy].Reached()
      ensures IsRun(c, run + [SlaveDo(st, SlaveRelease(s))])
      ensures Well() ==> ProductiveRun(c, run + [SlaveDo(st, SlaveRelease(s))])
      ensures st.slaves[s].node.bars[st.slaves[s].busy].locked
    {
      RunInv(c, run, |run| - 1);
      StepExtends(c, run, SlaveRelease(s), SlaveDo(st, SlaveRelease(s)));
    }

    /** unlock_barrier on the barrier of the command, which is locked still. */
    method Release()
      requires Valid() && st.slaves[s].open && 0 <= st.slaves[s].busy < |st.slaves[s].node.bars|
      requires st.slaves[s].node.bars[st.slaves[s].busy].Reached()
      modifies this`st, this`run, Objects(bar)
      ensures Valid() && old(run) <= run && st == SlaveDo(old(st), SlaveRelease(s)) && Released(old(st.slaves[s].busy))
      ensures old(Well()) ==> Well()
    {
      ReleaseIsStep();
      ghost var next := SlaveDo(st, SlaveRelease(s));
      ghost var k, bars := st.slaves[s].busy, st.slaves[s].node.bars;
      bar[st.slaves[s].busy].Unlock();
      MirrorsOne(bar, bars, k, bars[k].Unlock());
      run := run + [next];
      st := SlaveDo(st, SlaveRelease(s));
    }

    lemma FindsReached()
      requires Valid() && Well() && OthersRest(c, SlaveMain(s), st) && 0 <= st.slaves[s].busy
      ensures st.slaves[s].busy < |st.slaves[s].node.bars|
      ensures st.slaves[s].node.bars[st.slaves[s].busy].Reached()
    {
      ProductiveRunQuiet(c, run, |run| - 1);
      RestReachesSlave(c, s, st);
    }

    lemma FindsNoErrors()
      requires Valid() && Well()
      ensures st.slaves[s].node.errors == 0 && !st.slaves[s].node.killed
      ensures st.slaves[s].queue != [] ==> st.slaves[s].queue[0].NextTxn? || st.slaves[s].queue == [SendStats]
    {
      ProductiveRunQuiet(c, run, |run| - 1);
      assert QueueShape(st, s);
    }

    /** One pass of the loop, at a barrier that is not reached: the first thing found to have failed ends
        it, and the time is looked at last, after the sleep. */
    method WaitOnce(waitTime: int) returns (failed: bool, why: Waited)
      requires Valid() && st.slaves[s].open && 0 <= st.slaves[s].busy < |st.slaves[s].node.bars| && !AllThere()
      modifies this`st, this`time, this`run, Objects(bar)
      ensures Valid() && old(run) <= run && st.slaves[s].open && st.slaves[s].busy == old(st.slaves[s].busy)
      ensures st.slaves[s].log == old(st.slaves[s].log) && |st.slaves[s].node.bars| == old(|st.slaves[s].node.bars|)
      ensures failed <==> !why.Unlocked?
      ensures why.StrandError? <==> old(st.slaves[s].node.errors) > 0
      ensures why.SignalFailed? <==> !why.StrandError? && signals(old(time)) != 0
      ensures if why.StrandError? || why.SignalFailed? then st == old(st) && time == old(time)
              else st == others(old(time), old(st)) && time == old(time) + 1
      ensures !why.StrandError? && !why.SignalFailed? ==> (why.CalloutFailed? <==> callouts(time) < 0)
      ensures why.TimedOut? ==> waitTime <= 0
      ensures why.Unlocked? ==> waitTime > 0
      ensures old(Well()) ==> Well() && (!failed || why.TimedOut?) && AllThere()
    {
      if Well() {
        FindsNoErrors();
      }
      ghost var well := Well();
      if st.slaves[s].node.errors > 0 {
        return true, StrandError;
      }
      if signals(time) != 0 {
        return true, SignalFailed;
      }
      Others();
      if well {
        FindsReached();
      }
      if callouts(time) < 0 {
        return true, CalloutFailed;
      }
      failed := waitTime <= 0;
      why := if failed then TimedOut else Unlocked;
    }

    /** The loop of wait_unlock_barrier; with `Unlocked` the barrier may be. */
    method WaitForStrands() returns (why: Waited, waits: nat)
      requires Valid() && st.slaves[s].open && 0 <= st.slaves[s].busy < |st.slaves[s].node.bars|
      modifies this`st, this`time, this`run, Objects(bar)
      ensures Valid() && old(run) <= run && st.slaves[s].open && st.slaves[s].busy == old(st.slaves[s].busy)
      ensures st.slaves[s].log == old(st.slaves[s].log) && |st.slaves[s].node.bars| == old(|st.slaves[s].node.bars|)
      ensures waits <= WAIT_TIME + 1 && time == old(time) + waits
      ensures why.Unlocked? ==> AllThere()
      ensures why.StrandError? || why.SignalFailed? ==> !AllThere()
      ensures Reason(why, waits)
      ensures old(AllThere()) ==> why.Unlocked? && waits == 0
      ensures old(Well()) ==> Well() && why.Unlocked?
    {
      var waitTime: int := WAIT_TIME;
      ghost var busy, bars, well := st.slaves[s].busy, |st.slaves[s].node.bars|, Well();
      waits := 0;
      var missing := bar[st.slaves[s].busy].NotReached();
      while missing != 0
        invariant Valid() && old(run) <= run && st.slaves[s].open && st.slaves[s].busy == busy
        invariant |st.slaves[s].node.bars| == bars && 0 <= waits <= WAIT_TIME && waitTime == WAIT_TIME - waits
        invariant missing == 0 <==> AllThere()
        invariant time == old(time) + waits && (well ==> Well() && (waits > 0 ==> AllThere()))
        invariant (old(AllThere()) ==> AllThere() && waits == 0) && st.slaves[s].log == old(st.slaves[s].log)
        decreases waitTime
      {
        var failed;
        failed, why := WaitOnce(waitTime);
        waits := waits + if why.StrandError? || why.SignalFailed? then 0 else 1;
        if failed {
          return;
        }
        waitTime := waitTime - 1;
        missing := bar[st.slaves[s].busy].NotReached();
      }
      why := Unlocked;
    }

    /** All strands have come to the barrier of the command. */
    ghost predicate AllThere()
      reads this
    {
      && s < |st.slaves| && 0 <= st.slaves[s].busy < |st.slaves[s].node.bars|
      && st.slaves[s].node.bars[st.slaves[s].busy].Reached()
    }

    /** wait_unlock_barrier for a barrier the slave has, in the middle of its command: `waits` is how
        often it slept.  Whether it slept long enough is looked at after the sleep, so six times. */
    method WaitUnlockBarrier() returns (why: Waited, waits: nat)
      requires Valid() && st.slaves[s].open && 0 <= st.slaves[s].busy < |st.slaves[s].node.bars|
      modifies this`st, this`time, this`run, Objects(bar)
      ensures Valid() && old(run) <= run && st.slaves[s].open
      ensures st.slaves[s].log == old(st.slaves[s].log)
      ensures waits <= WAIT_TIME + 1 && time == old(time) + waits && Reason(why, waits)
      ensures why.Unlocked? ==> st.slaves[s].busy == -1 && Released(old(st.slaves[s].busy))
      ensures !why.Unlocked? ==> st.slaves[s].busy == old(st.slaves[s].busy)
      ensures why.StrandError? || why.SignalFailed? ==> !AllThere()
      ensures old(AllThere()) ==> why.Unlocked? && waits == 0
      ensures old(Well()) ==> Well() && why.Unlocked?
    {
      why, waits := WaitForStrands();
      if why.Unlocked? {
        Release();
      }
    }

    /** Barrier k is open, and all strands counted on have come to it. */
    ghost predicate Released(k: int)
      reads this, bar, Objects(bar)
    {
      Valid() && 0 <= k < |st.slaves[s].node.bars| && !bar[k].locked && bar[k].count == bar[k].limit
    }

    method GiveUp()
      requires Valid() && st.slaves[s].open
      modifies this`st, this`run
      ensures Valid() && old(run) <= run && !st.slaves[s].open && st.slaves[s].node.killed
      ensures st.slaves[s].log == old(st.slaves[s].log) && st.slaves[s].busy == old(st.slaves[s].busy)
      ensures st.slaves[s].node.errors == old(st.slaves[s].node.errors)
    {
      Do(SlaveGiveUp(s));
    }

    /** Reading the first command of the queue: an order ends the loop, and a transaction the slave has
        is the one to wait for. */
    method ReadCommand() returns (command: Command)
      requires Valid() && st.slaves[s].open && st.slaves[s].busy == -1 && st.slaves[s].queue != []
      modifies this`st, this`run
      ensures Valid() && old(run) <= run && command == old(st.slaves[s].queue[0])
      ensures st.slaves[s].log == old(st.slaves[s].log) + if command.NextTxn? then [command.k] else []
      ensures |st.slaves[s].node.bars| == old(|st.slaves[s].node.bars|) && (st.slaves[s].open <==> command.NextTxn?)
      ensures st.slaves[s].busy == if command.NextTxn? && command.k < |st.slaves[s].node.bars| then command.k else -1
      ensures command.Abort? ==> st.slaves[s].node.killed
      ensures command.SendStats? ==> st.slaves[s].node == old(st.slaves[s].node)
      ensures old(Well()) ==> Well()
    {
      command := st.slaves[s].queue[0];
      Do(Receive(s));
    }

    /** NEXT_TXN for a transaction the slave has: its barrier is released, or the slave gives up. */
    method ObeyNext() returns (over: bool, why: Waited, waits: nat)
      requires Valid() && st.slaves[s].open && 0 <= st.slaves[s].busy < |st.slaves[s].node.bars|
      modifies this`st, this`time, this`run, Objects(bar)
      ensures Valid() && old(run) <= run && time == old(time) + waits && Reason(why, waits)
      ensures (over <==> !why.Unlocked?) && (over <==> !st.slaves[s].open)
      ensures over ==> st.slaves[s].node.killed
      ensures !over ==> st.slaves[s].busy == -1 && Released(old(st.slaves[s].busy))
      ensures st.slaves[s].log == old(st.slaves[s].log)
      ensures old(AllThere()) ==> !over && waits == 0
      ensures old(Well()) ==> Well() && !over
    {
      why, waits := WaitUnlockBarrier();
      over := !why.Unlocked?;
      if over {
        GiveUp();
      }
    }

    /** Why waiting for the strands ended without all of them. */
    ghost predicate Reason(why: Waited, waits: nat)
      reads this
    {
      s < |st.slaves| &&
      match why
      case Unlocked => true
      case StrandError => st.slaves[s].node.errors > 0
      case SignalFailed => signals(time) != 0
      case CalloutFailed => waits > 0 && callouts(time) < 0
      case TimedOut => waits == WAIT_TIME + 1
    }

    /** What a round does with a command: whether the loop is over, and with what result.  It is over with
        0 exactly when the statistics are asked for. */
    method HandleCommand() returns (over: bool, r: int, why: Waited, waits: nat)
      requires Valid() && st.slaves[s].open && st.slaves[s].busy == -1
      modifies this`st, this`time, this`run, Objects(bar)
      ensures Valid() && old(run) <= run && time == old(time) + waits
      ensures over <==> !st.slaves[s].open
      ensures !over ==> st.slaves[s].busy == -1
      ensures over ==> r == 0 || (r == -1 && st.slaves[s].node.killed)
      ensures over && r == 0 <==> old(st.slaves[s].queue) != [] && old(st.slaves[s].queue[0]).SendStats?
      ensures over && r == -1 <==> old(st.slaves[s].queue) == [] || old(st.slaves[s].queue[0]).Abort? || !why.Unlocked?
      ensures !why.Unlocked? ==>
                Reason(why, waits) && old(st.slaves[s].queue) != [] && old(st.slaves[s].queue[0]).NextTxn?
      ensures !over ==> Obeyed(old(st.slaves[s].queue))
      ensures !over ==> |st.slaves[s].log| == old(|st.slaves[s].log|) + 1
      ensures over && r == 0 ==> st.slaves[s].node == old(st.slaves[s].node)
      ensures old(Well()) && old(st.slaves[s].queue) != [] ==> Well() && why.Unlocked?
    {
      over, r, why, waits := true, -1, Unlocked, 0;
      if st.slaves[s].queue == [] {
        GiveUp();
        return;
      }
      var command := ReadCommand();
      if !command.NextTxn? {
        r := if command.Abort? then -1 else 0;
      } else if st.slaves[s].busy == -1 {
        over := false;
      } else {
        over, why, waits := ObeyNext();
      }
    }

    /** The first command of the queue was NEXT_TXN, and the barrier, if the slave has it, is open. */
    ghost predicate Obeyed(queue: seq<Command>)
      reads this, bar, Objects(bar)
    {
      && s < |st.slaves| && queue != [] && queue[0].NextTxn?
      && (queue[0].k < |st.slaves[s].node.bars| ==> Released(queue[0].k))
    }

    /** All barriers of the slave are open. */
    ghost predicate AllOpen()
      reads this, bar, Objects(bar)
    {
      Valid() && forall k :: 0 <= k < |st.slaves[s].node.bars| ==> !bar[k].locked
    }

    lemma FindsOrder()
      requires Valid() && Well() && OthersRest(c, SlaveMain(s), st) && st.slaves[s].open && c.Txns() != []
      ensures st.slaves[s].queue != [] && st.curr == c.Depth()
    {
      AskedInRun(c, run, |run| - 1);
      ProductiveRunQuiet(c, run, |run| - 1);
      RestHasAsked(c, s, st);
    }

    /** With everything announced and only the request for the statistics left to read. */
    lemma NothingLeft()
      requires Valid() && Well() && st.curr == c.Depth() && st.slaves[s].busy == -1 && st.slaves[s].queue == [SendStats]
      ensures forall k :: 0 <= k < |st.slaves[s].node.bars| ==> !st.slaves[s].node.bars[k].locked
    {
      ProductiveRunQuiet(c, run, |run| - 1);
      AllReadIsOpen(c, st, s);
    }

    lemma LogIsBounded()
      requires Valid() && Well()
      ensures |st.slaves[s].log| <= c.Depth()
    {
      ProductiveRunQuiet(c, run, |run| - 1);
      SlaveLogPrefix(c, st, s);
    }

    /** The first half of a round: whether an error ends the loop. */
    method FindError() returns (failed: bool)
      requires Valid() && st.slaves[s].open && st.slaves[s].busy == -1
      modifies this`st, this`time, this`run, Objects(bar)
      ensures Valid() && old(run) <= run && st.slaves[s].busy == -1 && st.slaves[s].log == old(st.slaves[s].log)
      ensures failed <==>
                s < |others(old(time), old(st)).slaves| && others(old(time), old(st)).slaves[s].node.errors > 0
      ensures failed <==> !st.slaves[s].open
      ensures failed ==> st.slaves[s].node.killed
      ensures !failed ==> st == others(old(time), old(st)) && time == old(time) + 1
      ensures old(Well()) ==> Well() && !failed
    {
      Others();
      if Well() {
        FindsNoErrors();
      }
      failed := st.slaves[s].node.errors > 0;
      if failed {
        GiveUp();
      }
    }

    /** One round: over with an error if one is found; otherwise, if there is something to read, over with
        0 exactly when it asks for the statistics, and with an error when it is an abort, the end of the
        connection, or a barrier that could not be released.  Any other command is obeyed. */
    method Round() returns (over: bool, r: int, ghost failed: bool, ghost found: State, why: Waited)
      requires Valid() && st.slaves[s].open && st.slaves[s].busy == -1
      modifies this`st, this`time, this`run, Objects(bar)
      ensures Valid() && old(run) <= run && (over <==> !st.slaves[s].open)
      ensures !over ==> st.slaves[s].busy == -1
      ensures over ==> r == 0 || (r == -1 && st.slaves[s].node.killed)
      ensures failed ==> over && r == -1
      ensures !failed ==> found == others(old(time) + 1, others(old(time), old(st))) && s < |found.slaves|
      ensures !failed && polls(old(time) + 2) <= 0 ==> !over && st == found
      ensures !failed && polls(old(time) + 2) > 0 ==> Answered(found.slaves[s].queue, over, r, why)
      ensures old(Well()) && c.Txns() != [] ==> Well() && !failed && (over ==> r == 0 && AllOpen())
      ensures old(Well()) && c.Txns() != [] && !over ==> |st.slaves[s].log| == old(|st.slaves[s].log|) + 1
    {
      over, r, why := true, -1, Unlocked;
      failed := FindError();
      found := st;
      if !st.slaves[s].open {
        return;
      }
      ghost var well := Well() && c.Txns() != [];
      Others();
      found := st;
      over := false;
      if well {
        FindsOrder();
        FindsNoErrors();
        if st.slaves[s].queue == [SendStats] {
          NothingLeft();
        }
      }
      if polls(time) > 0 {
        var waits;
        over, r, why, waits := HandleCommand();
      }
    }

    /** What became of the first command of the queue. */
    ghost predicate Answered(queue: seq<Command>, over: bool, r: int, why: Waited)
      reads this, bar, Objects(bar)
    {
      && (over && r == 0 <==> queue != [] && queue[0].SendStats?)
      && (over && r != 0 <==> queue == [] || queue[0].Abort? || !why.Unlocked?)
      && (!over ==> Obeyed(queue))
    }

    /** slave_master_poll, for at most `rounds` rounds, and the end of all strands if it fails.
        However it interleaves with them and the master, it is a run of the transition system; with
        lively others, and if nothing fails, it ends well with all barriers open. */
    method SlaveMasterPoll(rounds: nat) returns (over: bool, r: int)
      requires Valid() && st.slaves[s].open && st.slaves[s].busy == -1
      modifies this`st, this`time, this`run, Objects(bar)
      ensures Valid() && old(run) <= run
      ensures over <==> !st.slaves[s].open
      ensures over ==> r == 0 || (r == -1 && st.slaves[s].node.killed)
      ensures old(Well()) && rounds > c.Depth() && c.Txns() != [] ==> Well() && over && r == 0 && AllOpen()
    {
      ghost var well := Well() && c.Txns() != [];
      over, r := false, 0;
      for n := 0 to rounds
        invariant Valid() && old(run) <= run && st.slaves[s].open && st.slaves[s].busy == -1 && !over
        invariant well ==> Well() && |st.slaves[s].log| >= n
      {
        ghost var failed, found;
        var why;
        over, r, failed, found, why := Round();
        if over {
          return;
        }
      }
      if Well() {
        LogIsBounded();
      }
    }
  }
}
