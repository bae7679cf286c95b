/** Runs of the handshake: the master's and the slave's programs over two bounded byte streams.
    Every read delivers exactly the peer's next message, the two never wait for each other, and
    every run ends with both tables and the workorder exchanged (src/handshake.c). */
module SessionRun {
  import opened ByteOrder
  import opened Workorder
  import opened WorkorderWire
  import opened HandshakeWire
  import opened Handshake
  import opened HandshakeDuality
  import Conversation

  datatype State = State(m: Master, mIo: seq<byte>, s: Slave, sIo: seq<byte>, toSlave: seq<byte>, toMaster: seq<byte>)

  function Init(): State { State(Master(TxHello, []), [], InitSlave(), [], [], []) }

  /** The call in progress moves some bytes. */
  ghost predicate Moves(cap: nat, act: Action, io: seq<byte>, inn: seq<byte>, out: seq<byte>,
                        io': seq<byte>, inn': seq<byte>, out': seq<byte>) {
    match act
    case Send(data) => inn' == inn && Conversation.Writes(cap, data, io, out, io', out')
    case Receive(n) => out' == out && Conversation.Reads(n, io, inn, io', inn')
    case Stop => false
  }

  /** The call returns success: all bytes moved, and there were any. */
  predicate Returns(act: Action, io: seq<byte>) {
    match act
    case Send(data) => |io| == |data| > 0
    case Receive(n) => |io| == n > 0
    case Stop => false
  }

  /** A step of a process that does `act` and goes on to `next` when the call returns. */
  ghost predicate MasterStepBy(cap: nat, st: State, st': State, act: Action, next: Master) {
    || (&& Moves(cap, act, st.mIo, st.toMaster, st.toSlave, st'.mIo, st'.toMaster, st'.toSlave)
        && st' == st.(mIo := st'.mIo, toMaster := st'.toMaster, toSlave := st'.toSlave))
    || (Returns(act, st.mIo) && st' == st.(m := next, mIo := []))
  }

  ghost predicate SlaveStepBy(cap: nat, st: State, st': State, act: Action, next: Slave) {
    || (&& Moves(cap, act, st.sIo, st.toSlave, st.toMaster, st'.sIo, st'.toSlave, st'.toMaster)
        && st' == st.(sIo := st'.sIo, toMaster := st'.toMaster, toSlave := st'.toSlave))
    || (Returns(act, st.sIo) && st' == st.(s := next, sIo := []))
  }

  ghost predicate MasterStep(c: Session, cap: nat, st: State, st': State) {
    MasterStepBy(cap, st, st', MasterAction(c, st.m), MasterNext(c, st.m, st.mIo))
  }

  ghost predicate SlaveStep(c: Session, cap: nat, st: State, st': State) {
    SlaveStepBy(cap, st, st', SlaveAction(c, st.s), SlaveNext(c, st.s, st.sIo))
  }

  ghost predicate Next(c: Session, cap: nat, st: State, st': State) {
    MasterStep(c, cap, st, st') || SlaveStep(c, cap, st, st')
  }

  // ---- The script of a session ----

  function Stage(p: Pos): nat {
    match p
    case AtHello => 10 case AtHelloAck => 9 case AtHeader => 8 case AtGroup => 7 case AtTxn(_) => 6
    case AtFlowop(_, _) => 6 case AtMasterTable => 5 case AtWorkAck => 4 case AtSlaveTable => 3
    case AtEnd => 2 case AtEndAck => 1 case AtOver => 0
  }

  function TxnsLeft(c: Session, p: Pos): nat {
    match p
    case AtTxn(i) => if i < |c.sent.tlist| then |c.sent.tlist| - i else 0
    case AtFlowop(i, _) => if i < |c.sent.tlist| then |c.sent.tlist| - i else 0
    case _ => 0
  }

  function FlowopsLeft(c: Session, p: Pos): nat {
    match p
    case AtTxn(i) => if i < |c.sent.tlist| then |c.sent.tlist[i].flist| + 1 else 0
    case AtFlowop(i, j) =>
      if i < |c.sent.tlist| && j < |c.sent.tlist[i].flist| then |c.sent.tlist[i].flist| - j else 0
    case _ => 0
  }

  /** All positions from `p` to the end. */
  ghost function Path(c: Session, p: Pos): seq<Pos>
    requires Placed(c, p)
    decreases Stage(p), TxnsLeft(c, p), FlowopsLeft(c, p)
  {
    if p.AtOver? then [] else [p] + Path(c, Succ(c, p))
  }

  ghost function PosAt(c: Session, k: nat): Pos {
    if k < |Path(c, AtHello)| then Path(c, AtHello)[k] else AtOver
  }

  ghost function Script(c: Session): (g: seq<Conversation.Said>)
    ensures |g| == |Path(c, AtHello)|
    ensures forall k :: 0 <= k < |g| ==> g[k] == SaidAt(c, Path(c, AtHello)[k])
  {
    seq(|Path(c, AtHello)|, k requires 0 <= k < |Path(c, AtHello)| => SaidAt(c, Path(c, AtHello)[k]))
  }

  ghost function SaidAt(c: Session, p: Pos): Conversation.Said { Conversation.Said(p.MasterSpeaks(), Message(c, p)) }

  /** The path follows Succ and ends at the end. */
  lemma {:induction false} PathSteps(c: Session, p: Pos, k: nat)
    requires Placed(c, p) && k < |Path(c, p)|
    ensures Placed(c, Path(c, p)[k]) && !Path(c, p)[k].AtOver?
    ensures Succ(c, Path(c, p)[k]) == if k + 1 < |Path(c, p)| then Path(c, p)[k + 1] else AtOver
    decreases k
  {
    if k > 0 {
      PathSteps(c, Succ(c, p), k - 1);
    } else if Succ(c, p).AtOver? {
      assert |Path(c, p)| == 1;
    }
  }

  lemma PosAtSteps(c: Session, k: nat)
    ensures Placed(c, PosAt(c, k)) && (PosAt(c, k).AtOver? <==> k >= |Path(c, AtHello)|)
    ensures PosAt(c, 0) == AtHello
    ensures k < |Path(c, AtHello)| ==> PosAt(c, k + 1) == Succ(c, PosAt(c, k))
  {
    if k < |Path(c, AtHello)| {
      PathSteps(c, AtHello, k);
    }
  }

  // ---- The run follows the script ----

  /** What both sides do at a position, as one fact. */
  ghost predicate GoesRight(c: Session, p: Pos) { DualAt(c, p) && MasterStepsRight(c, p) && SlaveStepsRight(c, p) }

  ghost predicate AllGoRight(c: Session) { forall p :: Placed(c, p) ==> GoesRight(c, p) }

  lemma ValidGoesRight(c: Session)
    requires Valid(c)
    ensures AllGoRight(c)
  {
    forall p | Placed(c, p)
      ensures GoesRight(c, p)
    {
      SessionDuality(c, p);
    }
  }

  ghost predicate Tracks(c: Session, st: State, t: Conversation.Talk) {
    && Conversation.Inv(Script(c), t)
    && st.m == MasterAt(c, PosAt(c, t.x.at)) && st.s == SlaveAt(c, PosAt(c, t.y.at))
    && st.mIo == t.x.io && st.sIo == t.y.io && st.toSlave == t.xy && st.toMaster == t.yx
  }

  /** An action is the part in the conversation of the process that speaks when `me` is `byX`. */
  predicate PlaysPart(act: Action, m: Conversation.Said) {
    if m.byX then act == Send(m.bytes) else act == Receive(|m.bytes|)
  }

  lemma MovingIsAStep(g: seq<Conversation.Said>, cap: nat, t: Conversation.Talk, act: Action,
                      io': seq<byte>, inn': seq<byte>, out': seq<byte>)
    requires t.x.at < |g| && PlaysPart(act, g[t.x.at])
    requires Moves(cap, act, t.x.io, t.yx, t.xy, io', inn', out')
    ensures Conversation.StepX(g, cap, t, Conversation.Talk(Conversation.Side(t.x.at, io'), t.y, out', inn'))
  {
  }

  lemma StepIsMovingOrReturning(g: seq<Conversation.Said>, cap: nat, t: Conversation.Talk, t': Conversation.Talk,
                                act: Action)
    requires t.x.at < |g| && g[t.x.at].bytes != [] && PlaysPart(act, g[t.x.at])
    requires Conversation.StepX(g, cap, t, t')
    ensures t'.y == t.y
    ensures || (t'.x.at == t.x.at && Moves(cap, act, t.x.io, t.yx, t.xy, t'.x.io, t'.yx, t'.xy))
            || (Returns(act, t.x.io) && t' == t.(x := Conversation.Side(t.x.at + 1, [])))
  {
  }

  /** The master's part at its position. */
  lemma MasterPart(c: Session, k: nat)
    requires AllGoRight(c) && k < |Script(c)|
    ensures PlaysPart(MasterAction(c, MasterAt(c, PosAt(c, k))), Script(c)[k])
    ensures Script(c)[k].bytes != []
    ensures MasterNext(c, MasterAt(c, PosAt(c, k)), Script(c)[k].bytes) == MasterAt(c, PosAt(c, k + 1))
  {
    PosAtSteps(c, k);
    assert GoesRight(c, PosAt(c, k));
  }

  lemma SlavePart(c: Session, k: nat)
    requires AllGoRight(c) && k < |Script(c)|
    ensures PlaysPart(SlaveAction(c, SlaveAt(c, PosAt(c, k))), Conversation.Mirror(Script(c))[k])
    ensures Script(c)[k].bytes != []
    ensures SlaveNext(c, SlaveAt(c, PosAt(c, k)), Script(c)[k].bytes) == SlaveAt(c, PosAt(c, k + 1))
  {
    PosAtSteps(c, k);
    assert GoesRight(c, PosAt(c, k));
  }

  /** At the end both have stopped. */
  lemma BothStop(c: Session)
    requires AllGoRight(c)
    ensures MasterAction(c, MasterAt(c, AtOver)) == Stop && SlaveAction(c, SlaveAt(c, AtOver)) == Stop
  {
    assert GoesRight(c, AtOver);
  }

  lemma MasterTracks(c: Session, cap: nat, st: State, st': State, t: Conversation.Talk, act: Action)
      returns (t': Conversation.Talk)
    requires Tracks(c, st, t) && t.x.at < |Script(c)| && PlaysPart(act, Script(c)[t.x.at])
    requires MasterStepBy(cap, st, st', act, MasterAt(c, PosAt(c, t.x.at + 1)))
    ensures Tracks(c, st', t') && Conversation.Next(Script(c), cap, t, t')
  {
    var g := Script(c);
    if Returns(act, st.mIo) && st' == st.(m := MasterAt(c, PosAt(c, t.x.at + 1)), mIo := []) {
      t' := t.(x := Conversation.Side(t.x.at + 1, []));
    } else {
      t' := Conversation.Talk(Conversation.Side(t.x.at, st'.mIo), t.y, st'.toSlave, st'.toMaster);
      MovingIsAStep(g, cap, t, act, st'.mIo, st'.toMaster, st'.toSlave);
    }
    Conversation.NextKeepsInv(g, cap, t, t');
  }

  lemma SlaveTracks(c: Session, cap: nat, st: State, st': State, t: Conversation.Talk, act: Action)
      returns (t': Conversation.Talk)
    requires Tracks(c, st, t) && t.y.at < |Script(c)| && PlaysPart(act, Conversation.Mirror(Script(c))[t.y.at])
    requires SlaveStepBy(cap, st, st', act, SlaveAt(c, PosAt(c, t.y.at + 1)))
    ensures Tracks(c, st', t') && Conversation.Next(Script(c), cap, t, t')
  {
    var g := Script(c);
    if Returns(act, st.sIo) && st' == st.(s := SlaveAt(c, PosAt(c, t.y.at + 1)), sIo := []) {
      t' := t.(y := Conversation.Side(t.y.at + 1, []));
    } else {
      t' := Conversation.Talk(t.x, Conversation.Side(t.y.at, st'.sIo), st'.toSlave, st'.toMaster);
      MovingIsAStep(Conversation.Mirror(g), cap, Conversation.Turn(t), act, st'.sIo, st'.toSlave, st'.toMaster);
    }
    Conversation.NextKeepsInv(g, cap, t, t');
  }

  /** A call that returns has moved the message of its position, so the process goes on to the next. */
  lemma MasterStepTracks(c: Session, cap: nat, st: State, st': State, t: Conversation.Talk)
      returns (t': Conversation.Talk)
    requires AllGoRight(c) && Tracks(c, st, t) && MasterStep(c, cap, st, st')
    ensures Tracks(c, st', t') && Conversation.Next(Script(c), cap, t, t')
  {
    PosAtSteps(c, t.x.at);
    if t.x.at == |Script(c)| {
      BothStop(c);
      assert false;
    } else {
      MasterPart(c, t.x.at);
      Conversation.ReadIsMessage(Script(c), t);
      t' := MasterTracks(c, cap, st, st', t, MasterAction(c, st.m));
    }
  }

  lemma SlaveStepTracks(c: Session, cap: nat, st: State, st': State, t: Conversation.Talk)
      returns (t': Conversation.Talk)
    requires AllGoRight(c) && Tracks(c, st, t) && SlaveStep(c, cap, st, st')
    ensures Tracks(c, st', t') && Conversation.Next(Script(c), cap, t, t')
  {
    PosAtSteps(c, t.y.at);
    if t.y.at == |Script(c)| {
      BothStop(c);
      assert false;
    } else {
      SlavePart(c, t.y.at);
      Conversation.ReadIsMessage(Script(c), t);
      t' := SlaveTracks(c, cap, st, st', t, SlaveAction(c, st.s));
    }
  }

  // ---- Runs ----

  ghost predicate StepAt(c: Session, cap: nat, run: seq<State>, n: nat)
    requires n + 1 < |run|
  {
    Next(c, cap, run[n], run[n + 1])
  }

  ghost predicate IsRun(c: Session, cap: nat, run: seq<State>) {
    && |run| > 0 && run[0] == Init()
    && forall n :: 0 <= n < |run| - 1 ==> StepAt(c, cap, run, n)
  }

  lemma InitTracks(c: Session)
    requires AllGoRight(c)
    ensures Tracks(c, Init(), Conversation.Start())
  {
    PosAtSteps(c, 0);
  }

  /** Every state of a run is somewhere in the conversation, and every step leaves less of it. */
  lemma {:induction false} RunTracks(c: Session, cap: nat, run: seq<State>, n: nat) returns (t: Conversation.Talk)
    requires AllGoRight(c) && IsRun(c, cap, run) && n < |run|
    ensures Tracks(c, run[n], t)
    ensures n + Conversation.Todo(Script(c), t.x) + Conversation.Todo(Script(c), t.y)
         <= 2 * Conversation.Ahead(Script(c), 0)
  {
    if n == 0 {
      t := Conversation.Start();
      InitTracks(c);
    } else {
      var u := RunTracks(c, cap, run, n - 1);
      assert StepAt(c, cap, run, n - 1);
      if MasterStep(c, cap, run[n - 1], run[n]) {
        t := MasterStepTracks(c, cap, run[n - 1], run[n], u);
      } else {
        t := SlaveStepTracks(c, cap, run[n - 1], run[n], u);
      }
      Conversation.EveryStepShrinks(Script(c), cap, u, t);
    }
  }

  /** The buffer of a complete read, at whatever position the reader is. */
  ghost predicate ReadsRight(c: Session, st: State, p: Pos, q: Pos) {
    && Placed(c, p) && Placed(c, q) && st.m == MasterAt(c, p) && st.s == SlaveAt(c, q)
    && (MasterReads(c, st) ==> p.SlaveSpeaks() && st.mIo == Message(c, p))
    && (SlaveReads(c, st) ==> q.MasterSpeaks() && st.sIo == Message(c, q))
  }

  /** The master, or the slave, has read all it asked for. */
  predicate MasterReads(c: Session, st: State) { var a := MasterAction(c, st.m); a.Receive? && |st.mIo| == a.size }
  predicate SlaveReads(c: Session, st: State) { var a := SlaveAction(c, st.s); a.Receive? && |st.sIo| == a.size }

  lemma TrackedReads(c: Session, st: State, t: Conversation.Talk)
    requires AllGoRight(c) && Tracks(c, st, t)
    ensures ReadsRight(c, st, PosAt(c, t.x.at), PosAt(c, t.y.at))
  {
    PosAtSteps(c, t.x.at);
    PosAtSteps(c, t.y.at);
    assert GoesRight(c, PosAt(c, t.x.at)) && GoesRight(c, PosAt(c, t.y.at));
    Conversation.ReadIsMessage(Script(c), t);
  }

  /** In every error-free run, whatever the pieces in which the streams deliver, a read that is
      complete holds exactly the message the other side sends at that place of the conversation,
      all of it and nothing of the next: `p` is the master's position and `q` the slave's. */
  lemma ReadsAreMessages(c: Session, cap: nat, run: seq<State>, n: nat) returns (p: Pos, q: Pos)
    requires Valid(c) && IsRun(c, cap, run) && n < |run|
    ensures ReadsRight(c, run[n], p, q)
  {
    ValidGoesRight(c);
    var t := RunTracks(c, cap, run, n);
    TrackedReads(c, run[n], t);
    p, q := PosAt(c, t.x.at), PosAt(c, t.y.at);
  }

  lemma TalksAreBounded(c: Session, cap: nat, run: seq<State>)
    requires AllGoRight(c) && IsRun(c, cap, run)
    ensures |run| - 1 <= 2 * Conversation.Ahead(Script(c), 0)
  {
    var t := RunTracks(c, cap, run, |run| - 1);
    Conversation.TodoSide(Script(c), t.x);
    Conversation.TodoSide(Script(c), t.y);
  }

  /** Runs are bounded: by two steps for every byte and every message of the conversation. */
  lemma RunsAreBounded(c: Session, cap: nat, run: seq<State>)
    requires Valid(c) && IsRun(c, cap, run)
    ensures |run| - 1 <= 2 * Conversation.Ahead(Script(c), 0)
  {
    ValidGoesRight(c);
    TalksAreBounded(c, cap, run);
  }

  // ---- Progress and the end ----

  /** Both sides have finished, nothing is left in the streams, the slave has the group, and each
      has the other's ports. */
  ghost predicate Complete(c: Session, st: State) {
    && st.m == Master(MasterDone, c.slaveTable)
    && st.s.pc == SlaveDone && st.s.work == c.arrived && st.s.learned == c.masterTable && !st.s.failed
    && st.toSlave == [] && st.toMaster == []
  }

  lemma EndIsComplete(c: Session, st: State, t: Conversation.Talk)
    requires Tracks(c, st, t) && t.x.at == t.y.at == |Script(c)|
    ensures Complete(c, st)
  {
  }

  lemma MasterCanStep(c: Session, cap: nat, st: State, t: Conversation.Talk, t': Conversation.Talk) returns (st': State)
    requires AllGoRight(c) && Tracks(c, st, t) && t.x.at < |Script(c)| && Conversation.StepX(Script(c), cap, t, t')
    ensures Next(c, cap, st, st')
  {
    var act := MasterAction(c, st.m);
    MasterPart(c, t.x.at);
    StepIsMovingOrReturning(Script(c), cap, t, t', act);
    if Returns(act, st.mIo) {
      st' := st.(m := MasterNext(c, st.m, st.mIo), mIo := []);
    } else {
      st' := st.(mIo := t'.x.io, toMaster := t'.yx, toSlave := t'.xy);
    }
    assert MasterStep(c, cap, st, st');
  }

  lemma SlaveCanStep(c: Session, cap: nat, st: State, t: Conversation.Talk, t': Conversation.Talk) returns (st': State)
    requires AllGoRight(c) && Tracks(c, st, t) && t.y.at < |Script(c)|
    requires Conversation.StepX(Conversation.Mirror(Script(c)), cap, Conversation.Turn(t), Conversation.Turn(t'))
    ensures Next(c, cap, st, st')
  {
    var act := SlaveAction(c, st.s);
    SlavePart(c, t.y.at);
    StepIsMovingOrReturning(Conversation.Mirror(Script(c)), cap, Conversation.Turn(t), Conversation.Turn(t'), act);
    if Returns(act, st.sIo) {
      st' := st.(s := SlaveNext(c, st.s, st.sIo), sIo := []);
    } else {
      st' := st.(sIo := t'.y.io, toMaster := t'.yx, toSlave := t'.xy);
    }
    assert SlaveStep(c, cap, st, st');
  }

  ghost predicate CanGoOn(c: Session, cap: nat, st: State) { exists st' :: Next(c, cap, st, st') }

  lemma TrackedNeverStuck(c: Session, cap: nat, st: State, t: Conversation.Talk)
    requires AllGoRight(c) && Tracks(c, st, t) && cap > 0
    ensures Complete(c, st) || CanGoOn(c, cap, st)
  {
    var g := Script(c);
    if t.x.at == t.y.at == |g| {
      EndIsComplete(c, st, t);
    } else {
      var t' := Conversation.NeverStuck(g, cap, t);
      if Conversation.StepX(g, cap, t, t') {
        var st' := MasterCanStep(c, cap, st, t, t');
      } else {
        var st' := SlaveCanStep(c, cap, st, t, t');
      }
    }
  }

  lemma TalksGoOn(c: Session, cap: nat, run: seq<State>)
    requires AllGoRight(c) && IsRun(c, cap, run) && cap > 0
    ensures Complete(c, run[|run| - 1]) || CanGoOn(c, cap, run[|run| - 1])
  {
    var n := |run| - 1;
    var t := RunTracks(c, cap, run, n);
    TrackedNeverStuck(c, cap, run[n], t);
  }

  /** The two sides are never both waiting: in every reachable state something can happen, however
      small the stream buffers, until the handshake is complete on both sides. */
  lemma NeverBothWaiting(c: Session, cap: nat, run: seq<State>)
    requires Valid(c) && IsRun(c, cap, run) && cap > 0
    ensures Complete(c, run[|run| - 1]) || CanGoOn(c, cap, run[|run| - 1])
  {
    ValidGoesRight(c);
    TalksGoOn(c, cap, run);
  }
}
