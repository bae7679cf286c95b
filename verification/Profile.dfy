/** From the tokens of a profile to the workorder (build_worklist in src/parse.c). */
module Profile {

  const MAXTHREADGROUPS: nat := 1024

  /** Tokens with their value, already a number where build_worklist makes it one. */
  datatype Token =
    | ProfileStart | ProfileEnd | GroupStart | GroupEnd | TxnStart | TxnEnd | FlowopStart | XmlEnd | Name
    | Iterations(n: nat) | Type(kind: nat) | Options(text: string) | Rate(n: nat) | Duration(n: nat)
    | NThreads(n: nat) | NProcesses(n: nat) | Error

  const FLOWOP_ERROR: nat := 0

  datatype FlowopNode = FlowopNode(id: nat, kind: nat, options: string)
  datatype TxnNode = TxnNode(nflowop: nat, txnid: nat, iter: nat, duration: nat, rateCount: nat, flist: seq<FlowopNode>)
  datatype GroupNode = GroupNode(ntxn: nat, nthreads: nat, threads: bool, processes: bool, tlist: seq<TxnNode>)

  /** The variables of build_worklist: the current group, transaction and flowop are the last ones of
      their lists, the latter two unless their pointer is null. */
  datatype Builder = Builder(groups: seq<GroupNode>, inGroup: bool, inTxn: bool, hasTxn: bool, hasFlowop: bool,
                             txnid: nat, fid: nat)

  datatype Outcome = Going(b: Builder) | Rejected | NullDereference | Overrun

  function Begin(): Builder { Builder([], false, false, false, false, 0, 0) }

  predicate HasGroup(b: Builder) { |b.groups| > 0 }
  predicate HasTxn(b: Builder) { HasGroup(b) && b.hasTxn && |b.groups[|b.groups| - 1].tlist| > 0 }
  predicate HasFlowop(b: Builder) { HasTxn(b) && b.hasFlowop && |CurrTxn(b).flist| > 0 }

  function CurrGroup(b: Builder): GroupNode
    requires HasGroup(b)
  {
    b.groups[|b.groups| - 1]
  }

  function CurrTxn(b: Builder): TxnNode
    requires HasTxn(b)
  {
    var ts := CurrGroup(b).tlist;
    ts[|ts| - 1]
  }

  function PutGroup(b: Builder, g: GroupNode): Builder
    requires HasGroup(b)
  {
    b.(groups := b.groups[|b.groups| - 1 := g])
  }

  function PutTxn(b: Builder, t: TxnNode): Builder
    requires HasTxn(b)
  {
    var g := CurrGroup(b);
    PutGroup(b, g.(tlist := g.tlist[|g.tlist| - 1 := t]))
  }

  /** A change of the current transaction, outside of any a rejection, without one a crash. */
  function OnTxn(b: Builder, t: TxnNode -> TxnNode): Outcome {
    if !b.inTxn then Rejected else if !HasTxn(b) then NullDereference else Going(PutTxn(b, t(CurrTxn(b))))
  }

  function OnFlowop(b: Builder, h: FlowopNode -> FlowopNode): Outcome {
    if !HasFlowop(b) then NullDereference
    else
      var t := CurrTxn(b);
      Going(PutTxn(b, t.(flist := t.flist[|t.flist| - 1 := h(t.flist[|t.flist| - 1])])))
  }

  function StartTxn(b: Builder): Outcome {
    if !b.inGroup then Rejected
    else if !HasGroup(b) then NullDereference
    else
      var g := CurrGroup(b);
      var list := if b.hasTxn then g.tlist else [];
      Going(PutGroup(b, g.(ntxn := g.ntxn + 1, tlist := list + [TxnNode(0, b.txnid, 1, 0, 0, [])]))
            .(txnid := b.txnid + 1, hasTxn := true, hasFlowop := false, fid := 0, inTxn := true))
  }

  function StartFlowop(b: Builder): Outcome {
    if !b.inTxn then Rejected
    else if !HasTxn(b) then NullDereference
    else
      var t := CurrTxn(b);
      var list := if b.hasFlowop then t.flist else [];
      Going(PutTxn(b, t.(nflowop := t.nflowop + 1, flist := list + [FlowopNode(b.fid, FLOWOP_ERROR, "")]))
            .(fid := b.fid + 1, hasFlowop := true))
  }

  function Strands(b: Builder, n: nat, thread: bool): Outcome {
    if !b.inGroup then Rejected
    else if !HasGroup(b) then NullDereference
    else
      var g := CurrGroup(b).(nthreads := n);
      Going(PutGroup(b, if thread then g.(threads := true) else g.(processes := true)))
  }

  /** The body of the loop. */
  function Take(b: Builder, k: Token): Outcome {
    match k
    case ProfileStart => Going(b)
    case ProfileEnd => Going(b)
    case XmlEnd => Going(b)
    case Name => Going(b)
    case GroupStart =>
      if |b.groups| >= MAXTHREADGROUPS then Overrun
      else Going(b.(groups := b.groups + [GroupNode(0, 0, false, false, [])], hasTxn := false, hasFlowop := false,
                    txnid := 0, inGroup := true))
    case GroupEnd => Going(b.(inGroup := false))
    case TxnStart => StartTxn(b)
    case TxnEnd => Going(b.(inTxn := false))
    case FlowopStart => StartFlowop(b)
    case Iterations(n) => OnTxn(b, (t: TxnNode) => t.(iter := n))
    case Type(kind) => if HasFlowop(b) &&
         kind == FLOWOP_ERROR then Rejected else OnFlowop(b, (f: FlowopNode) => f.(kind := kind))
    case Options(text) => OnFlowop(b, (f: FlowopNode) => f.(options := text))
    case Rate(n) => OnTxn(b, (t: TxnNode) => t.(rateCount := n))
    case Duration(n) => OnTxn(b, (t: TxnNode) => t.(duration := n, iter := 1))
    case NThreads(n) => Strands(b, n, true)
    case NProcesses(n) => Strands(b, n, false)
    case Error => Rejected
  }

  /** All tokens, until one stops the loop. */
  function TakeAll(b: Builder, ks: seq<Token>): Outcome
    decreases |ks|
  {
    if ks == [] then Going(b)
    else
      match Take(b, ks[0])
      case Going(c) => TakeAll(c, ks[1..])
      case stop => stop
  }

  // ---- The counters and ids are the lists' lengths and positions ----

  ghost predicate TxnRight(t: TxnNode, id: nat) {
    && t.txnid == id && t.nflowop == |t.flist|
    && forall j :: 0 <= j < |t.flist| ==> t.flist[j].id == j
  }

  ghost predicate GroupRight(g: GroupNode) {
    && g.ntxn == |g.tlist|
    && forall i :: 0 <= i < |g.tlist| ==> TxnRight(g.tlist[i], i)
  }

  ghost predicate BuilderRight(b: Builder) {
    && |b.groups| <= MAXTHREADGROUPS
    && (forall k :: 0 <= k < |b.groups| ==> GroupRight(b.groups[k]))
    && (b.inGroup ==> HasGroup(b))
    && (HasGroup(b) ==> b.txnid == |CurrGroup(b).tlist| && (b.hasTxn <==> CurrGroup(b).tlist != []))
    && (HasTxn(b) ==> b.fid == |CurrTxn(b).flist| && (b.hasFlowop <==> CurrTxn(b).flist != []))
    && (b.hasTxn ==> HasGroup(b)) && (b.hasFlowop ==> b.hasTxn)
  }

  lemma PutTxnRight(b: Builder, t: TxnNode)
    requires BuilderRight(b) && HasTxn(b) && TxnRight(t, |CurrGroup(b).tlist| - 1)
    requires |t.flist| == |CurrTxn(b).flist|
    ensures BuilderRight(PutTxn(b, t))
  {
    var g := CurrGroup(b);
    assert GroupRight(g);
    assert GroupRight(g.(tlist := g.tlist[|g.tlist| - 1 := t]));
  }

  lemma GroupStartRight(b: Builder)
    requires BuilderRight(b) && Take(b, GroupStart).Going?
    ensures BuilderRight(Take(b, GroupStart).b)
  {
    assert GroupRight(GroupNode(0, 0, false, false, []));
  }

  lemma TxnStartRight(b: Builder)
    requires BuilderRight(b) && Take(b, TxnStart).Going?
    ensures BuilderRight(Take(b, TxnStart).b)
  {
    assert GroupRight(CurrGroup(b));
    assert GroupRight(CurrGroup(Take(b, TxnStart).b));
  }

  lemma FlowopStartRight(b: Builder)
    requires BuilderRight(b) && Take(b, FlowopStart).Going?
    ensures BuilderRight(Take(b, FlowopStart).b)
  {
    var c := Take(b, FlowopStart).b;
    assert GroupRight(CurrGroup(b)) && TxnRight(CurrTxn(b), |CurrGroup(b).tlist| - 1);
    assert TxnRight(CurrTxn(c), |CurrGroup(c).tlist| - 1);
    assert GroupRight(CurrGroup(c));
  }

  lemma StrandsRight(b: Builder, n: nat, thread: bool)
    requires BuilderRight(b) && Strands(b, n, thread).Going?
    ensures BuilderRight(Strands(b, n, thread).b)
  {
    assert GroupRight(CurrGroup(b));
  }

  lemma TakeKeepsRight(b: Builder, k: Token)
    requires BuilderRight(b) && Take(b, k).Going?
    ensures BuilderRight(Take(b, k).b)
  {
    match k {
      case GroupStart => GroupStartRight(b);
      case TxnStart => TxnStartRight(b);
      case FlowopStart => FlowopStartRight(b);
      case Iterations(n) => TxnChangeRight(b, CurrTxn(b).(iter := n));
      case Rate(n) => TxnChangeRight(b, CurrTxn(b).(rateCount := n));
      case Duration(n) => TxnChangeRight(b, CurrTxn(b).(duration := n, iter := 1));
      case Type(kind) => FlowopChangeRight(b, (f: FlowopNode) => f.(kind := kind));
      case Options(text) => FlowopChangeRight(b, (f: FlowopNode) => f.(options := text));
      case NThreads(n) => StrandsRight(b, n, true);
      case NProcesses(n) => StrandsRight(b, n, false);
      case _ =>
    }
  }

  lemma TxnChangeRight(b: Builder, t: TxnNode)
    requires BuilderRight(b) && HasTxn(b)
    requires t.txnid == CurrTxn(b).txnid && t.nflowop == CurrTxn(b).nflowop && t.flist == CurrTxn(b).flist
    ensures BuilderRight(PutTxn(b, t))
  {
    assert GroupRight(CurrGroup(b)) && TxnRight(CurrTxn(b), |CurrGroup(b).tlist| - 1);
    PutTxnRight(b, t);
  }

  lemma FlowopChangeRight(b: Builder, h: FlowopNode -> FlowopNode)
    requires BuilderRight(b) && HasFlowop(b) && forall f :: h(f).id == f.id
    ensures BuilderRight(OnFlowop(b, h).b)
  {
    var t := CurrTxn(b);
    assert GroupRight(CurrGroup(b)) && TxnRight(t, |CurrGroup(b).tlist| - 1);
    PutTxnRight(b, t.(flist := t.flist[|t.flist| - 1 := h(t.flist[|t.flist| - 1])]));
  }

  /** Whatever tokens are accepted, in whatever order: ntxn and nflowop are the lengths of the lists,
      and ids count up from 0. */
  lemma {:induction false} AcceptedIsRight(b: Builder, ks: seq<Token>)
    requires BuilderRight(b) && TakeAll(b, ks).Going?
    ensures BuilderRight(TakeAll(b, ks).b)
    decreases |ks|
  {
    if ks != [] {
      TakeKeepsRight(b, ks[0]);
      AcceptedIsRight(Take(b, ks[0]).b, ks[1..]);
    }
  }

  // ---- How a token list ends, read off the tokens alone ----

  /** What the tokens seen so far say about the next one. */
  datatype Mark = GroupOpen | TxnOpen | TxnOfGroup | FlowopOfTxn

  predicate Sets(w: Mark, k: Token) {
    match w
    case GroupOpen => k.GroupStart?
    case TxnOpen => k.TxnStart?
    case TxnOfGroup => k.TxnStart?
    case FlowopOfTxn => k.FlowopStart?
  }

  predicate Clears(w: Mark, k: Token) {
    match w
    case GroupOpen => k.GroupEnd?
    case TxnOpen => k.TxnEnd?
    case TxnOfGroup => k.GroupStart?
    case FlowopOfTxn => k.TxnStart? || k.GroupStart?
  }

  /** Some token before `i` sets the mark, and none between them clears it. */
  predicate Marked(ks: seq<Token>, i: nat, w: Mark)
    requires i <= |ks|
  {
    exists t :: 0 <= t < i && Sets(w, ks[t]) && forall u :: t < u < i ==> !Clears(w, ks[u])
  }

  /** How many groups have begun before `i`. */
  function Begun(ks: seq<Token>, i: nat): nat
    requires i <= |ks|
  {
    if i == 0 then 0 else Begun(ks, i - 1) + (if ks[i - 1].GroupStart? then 1 else 0)
  }

  predicate NeedsGroup(k: Token) { k.TxnStart? || k.NThreads? || k.NProcesses? }
  predicate NeedsTxn(k: Token) { k.FlowopStart? || k.Iterations? || k.Rate? || k.Duration? }
  predicate NeedsFlowop(k: Token) { k.Type? || k.Options? }

  /** A transaction is open, but a group has begun since; or there is no flowop to change. */
  predicate CrashesAt(ks: seq<Token>, i: nat)
    requires i < |ks|
  {
    || (NeedsTxn(ks[i]) && Marked(ks, i, TxnOpen) && !Marked(ks, i, TxnOfGroup))
    || (NeedsFlowop(ks[i]) && !Marked(ks, i, FlowopOfTxn))
  }

  predicate RefusedAt(ks: seq<Token>, i: nat)
    requires i < |ks|
  {
    || ks[i].Error?
    || (NeedsGroup(ks[i]) && !Marked(ks, i, GroupOpen))
    || (NeedsTxn(ks[i]) && !Marked(ks, i, TxnOpen))
    || (ks[i] == Type(FLOWOP_ERROR) && Marked(ks, i, FlowopOfTxn))
  }

  predicate OverrunsAt(ks: seq<Token>, i: nat)
    requires i < |ks|
  {
    ks[i].GroupStart? && Begun(ks, i) >= MAXTHREADGROUPS
  }

  /** Nothing stops the loop before token `n`. */
  predicate Passes(ks: seq<Token>, n: nat)
    requires n <= |ks|
  {
    forall i :: 0 <= i < n ==> !CrashesAt(ks, i) && !RefusedAt(ks, i) && !OverrunsAt(ks, i)
  }

  predicate Crashes(ks: seq<Token>) { exists i :: 0 <= i < |ks| && Passes(ks, i) && CrashesAt(ks, i) }
  predicate IsRefused(ks: seq<Token>) { exists i :: 0 <= i < |ks| && Passes(ks, i) && RefusedAt(ks, i) }
  predicate Overruns(ks: seq<Token>) { exists i :: 0 <= i < |ks| && Passes(ks, i) && OverrunsAt(ks, i) }

  lemma MarkedNext(ks: seq<Token>, i: nat, w: Mark)
    requires i < |ks|
    ensures Marked(ks, i + 1, w) <==> Sets(w, ks[i]) || (Marked(ks, i, w) && !Clears(w, ks[i]))
  {
    if Marked(ks, i, w) && !Clears(w, ks[i]) {
      var t :| 0 <= t < i && Sets(w, ks[t]) && forall u :: t < u < i ==> !Clears(w, ks[u]);
      assert forall u :: t < u < i + 1 ==> !Clears(w, ks[u]);
    }
  }

  /** The variables of the loop are the marks of the tokens before `i`. */
  ghost predicate Reflects(b: Builder, ks: seq<Token>, i: nat)
    requires i <= |ks|
  {
    && BuilderRight(b) && |b.groups| == Begun(ks, i)
    && b.inGroup == Marked(ks, i, GroupOpen) && b.inTxn == Marked(ks, i, TxnOpen)
    && HasTxn(b) == Marked(ks, i, TxnOfGroup) && HasFlowop(b) == Marked(ks, i, FlowopOfTxn)
  }

  lemma TakeReflects(b: Builder, ks: seq<Token>, i: nat)
    requires i < |ks| && Reflects(b, ks, i)
    ensures Take(b, ks[i]).NullDereference? <==> CrashesAt(ks, i)
    ensures Take(b, ks[i]).Rejected? <==> RefusedAt(ks, i)
    ensures Take(b, ks[i]).Overrun? <==> OverrunsAt(ks, i)
  {
  }

  /** How one token changes the four flags. */
  lemma TakeFlags(b: Builder, k: Token)
    requires BuilderRight(b) && Take(b, k).Going?
    ensures var c := Take(b, k).b;
            && |c.groups| == |b.groups| + (if k.GroupStart? then 1 else 0)
            && c.inGroup == (k.GroupStart? || (b.inGroup && !k.GroupEnd?))
            && c.inTxn == (k.TxnStart? || (b.inTxn && !k.TxnEnd?))
            && HasTxn(c) == (k.TxnStart? || (HasTxn(b) && !k.GroupStart?))
            && HasFlowop(c) == (k.FlowopStart? || (HasFlowop(b) && !k.TxnStart? && !k.GroupStart?))
  {
  }

  lemma NextReflects(b: Builder, ks: seq<Token>, i: nat)
    requires i < |ks| && Reflects(b, ks, i) && Take(b, ks[i]).Going?
    ensures Reflects(Take(b, ks[i]).b, ks, i + 1)
  {
    TakeKeepsRight(b, ks[i]);
    TakeFlags(b, ks[i]);
    MarkedNext(ks, i, GroupOpen);
    MarkedNext(ks, i, TxnOpen);
    MarkedNext(ks, i, TxnOfGroup);
    MarkedNext(ks, i, FlowopOfTxn);
  }

  ghost predicate EndsAs(o: Outcome, ks: seq<Token>) {
    && (o.Going? <==> Passes(ks, |ks|))
    && (o.NullDereference? <==> Crashes(ks))
    && (o.Rejected? <==> IsRefused(ks))
    && (o.Overrun? <==> Overruns(ks))
  }

  /** The first token that stops the loop decides how it ends. */
  lemma StopsHere(b: Builder, ks: seq<Token>, i: nat)
    requires i < |ks| && Reflects(b, ks, i) && Passes(ks, i) && !Take(b, ks[i]).Going?
    ensures EndsAs(Take(b, ks[i]), ks)
  {
    TakeReflects(b, ks, i);
    forall j | 0 <= j < |ks| && Passes(ks, j) && (CrashesAt(ks, j) || RefusedAt(ks, j) || OverrunsAt(ks, j))
      ensures j == i
    {
    }
  }

  lemma {:induction false} EndsFrom(b: Builder, ks: seq<Token>, i: nat)
    requires i <= |ks| && Reflects(b, ks, i) && Passes(ks, i)
    ensures EndsAs(TakeAll(b, ks[i..]), ks)
    decreases |ks| - i
  {
    if i < |ks| {
      TakeReflects(b, ks, i);
      assert ks[i..][1..] == ks[i + 1..];
      if Take(b, ks[i]).Going? {
        NextReflects(b, ks, i);
        EndsFrom(Take(b, ks[i]).b, ks, i + 1);
      } else {
        StopsHere(b, ks, i);
      }
    }
  }

  /** For every token list, exactly when build_worklist accepts it, refuses it, dereferences a null
      pointer, or runs over the table of groups. */
  lemma HowItEnds(ks: seq<Token>)
    ensures EndsAs(TakeAll(Begin(), ks), ks)
  {
    assert ks[0..] == ks;
    EndsFrom(Begin(), ks, 0);
  }

  /** A group that begins inside an open transaction takes it out of reach: the next token that
      needs one crashes, unless a transaction begins or ends before. */
  lemma OpenTransactionCrashes(ks: seq<Token>, g: nat, f: nat)
    requires g < f < |ks| && ks[g].GroupStart? && Marked(ks, g, TxnOpen)
    requires forall u :: g < u < f ==> !ks[u].TxnStart? && !ks[u].TxnEnd?
    requires NeedsTxn(ks[f]) && Passes(ks, f)
    ensures TakeAll(Begin(), ks).NullDereference?
  {
    var t :| 0 <= t < g && Sets(TxnOpen, ks[t]) && forall u :: t < u < g ==> !Clears(TxnOpen, ks[u]);
    assert forall u :: t < u < f ==> !Clears(TxnOpen, ks[u]);
    assert Marked(ks, f, TxnOpen);
    assert Clears(TxnOfGroup, ks[g]);
    assert CrashesAt(ks, f);
    HowItEnds(ks);
  }

  lemma MarkedFrom(ks: seq<Token>, t: nat, i: nat, w: Mark)
    requires t < i <= |ks| && Sets(w, ks[t]) && forall u :: t < u < i ==> !Clears(w, ks[u])
    ensures Marked(ks, i, w)
  {
  }

  /** With every transaction closed before the next group begins, and type and options only where
      there is a flowop, nothing crashes. */
  lemma TidyNeverCrashes(ks: seq<Token>)
    requires forall g :: 0 <= g < |ks| && ks[g].GroupStart? ==> !Marked(ks, g, TxnOpen)
    requires forall i :: 0 <= i < |ks| && NeedsFlowop(ks[i]) ==> Marked(ks, i, FlowopOfTxn)
    ensures !TakeAll(Begin(), ks).NullDereference?
  {
    forall i | 0 <= i < |ks|
      ensures !CrashesAt(ks, i)
    {
      if Marked(ks, i, TxnOpen) {
        var t :| 0 <= t < i && Sets(TxnOpen, ks[t]) && forall u :: t < u < i ==> !Clears(TxnOpen, ks[u]);
        forall u | t < u < i
          ensures !Clears(TxnOfGroup, ks[u])
        {
          MarkedFrom(ks, t, u, TxnOpen);
        }
      }
    }
    HowItEnds(ks);
  }

  // ---- Every workorder can be written as tokens, and is read back as it was ----

  function FlowopTokens(f: FlowopNode): seq<Token> { [FlowopStart, Type(f.kind), Options(f.options), XmlEnd] }

  function ListTokens(fs: seq<FlowopNode>): seq<Token> {
    if fs == [] then [] else ListTokens(fs[..|fs| - 1]) + FlowopTokens(fs[|fs| - 1])
  }

  /** The duration comes first because it resets the iterations. */
  function TxnTokens(t: TxnNode): seq<Token> {
    [TxnStart, Duration(t.duration), Iterations(t.iter), Rate(t.rateCount)] + ListTokens(t.flist) + [TxnEnd]
  }

  function TxnsTokens(ts: seq<TxnNode>): seq<Token> {
    if ts == [] then [] else TxnsTokens(ts[..|ts| - 1]) + TxnTokens(ts[|ts| - 1])
  }

  function GroupTokens(g: GroupNode): seq<Token> {
    [GroupStart, if g.threads then NThreads(g.nthreads) else NProcesses(g.nthreads)] + TxnsTokens(g.tlist) + [GroupEnd]
  }

  function GroupsTokens(gs: seq<GroupNode>): seq<Token> {
    if gs == [] then [] else GroupsTokens(gs[..|gs| - 1]) + GroupTokens(gs[|gs| - 1])
  }

  /** A workorder as the parser leaves it, of groups of either threads or processes. */
  ghost predicate Writable(gs: seq<GroupNode>) {
    && |gs| <= MAXTHREADGROUPS
    && forall k :: 0 <= k < |gs| ==> GroupWritable(gs[k])
  }

  ghost predicate GroupWritable(g: GroupNode) {
    && GroupRight(g) && g.threads == !g.processes
    && forall i, j :: 0 <= i < |g.tlist| && 0 <= j < |g.tlist[i].flist| ==> g.tlist[i].flist[j].kind != FLOWOP_ERROR
  }

  lemma {:induction false} TakeAppend(b: Builder, ks: seq<Token>, ls: seq<Token>)
    requires TakeAll(b, ks).Going?
    ensures TakeAll(b, ks + ls) == TakeAll(TakeAll(b, ks).b, ls)
    decreases |ks|
  {
    if ks == [] {
      assert ks + ls == ls;
    } else {
      assert (ks + ls)[1..] == ks[1..] + ls;
      TakeAppend(Take(b, ks[0]).b, ks[1..], ls);
    }
  }

  lemma TakeOne(b: Builder, k: Token, ks: seq<Token>)
    requires Take(b, k).Going?
    ensures TakeAll(b, [k] + ks) == TakeAll(Take(b, k).b, ks)
  {
    assert ([k] + ks)[1..] == ks;
  }

  lemma TakeFour(b: Builder, b1: Builder, b2: Builder, b3: Builder, b4: Builder, ks: seq<Token>)
    requires |ks| == 4 && Take(b, ks[0]) == Going(b1) && Take(b1, ks[1]) == Going(b2)
    requires Take(b2, ks[2]) == Going(b3) && Take(b3, ks[3]) == Going(b4)
    ensures TakeAll(b, ks) == Going(b4)
  {
    TakeOne(b3, ks[3], []);
    TakeOne(b2, ks[2], [ks[3]]);
    TakeOne(b1, ks[1], [ks[2], ks[3]]);
    TakeOne(b, ks[0], [ks[1], ks[2], ks[3]]);
    assert [ks[3]] + [] == [ks[3]] && [ks[2]] + [ks[3]] == [ks[2], ks[3]];
    assert [ks[1]] + [ks[2], ks[3]] == [ks[1], ks[2], ks[3]] && [ks[0]] + [ks[1], ks[2], ks[3]] == ks;
  }

  /** One more flowop in the current transaction. */
  function WithFlowop(b: Builder, f: FlowopNode): Builder
    requires HasTxn(b)
  {
    var t := CurrTxn(b);
    PutTxn(b, t.(nflowop := t.nflowop + 1, flist := t.flist + [f])).(fid := b.fid + 1, hasFlowop := true)
  }

  lemma PutTwice<T>(s: seq<T>, x: T, y: T)
    requires s != []
    ensures s[|s| - 1 := x][|s| - 1 := y] == s[|s| - 1 := y]
    ensures (s + [x])[|s| := y] == s + [y]
  {
  }

  lemma SetTwice<T>(s: seq<T>, x: T, y: T)
    ensures (s + [x])[|s| := y] == s + [y]
  {
  }

  lemma PutTxnTwice(b: Builder, t: TxnNode, u: TxnNode)
    requires HasTxn(b)
    ensures HasTxn(PutTxn(b, t)) && CurrTxn(PutTxn(b, t)) == t && PutTxn(PutTxn(b, t), u) == PutTxn(b, u)
  {
    var g := CurrGroup(b);
    PutTwice(g.tlist, t, u);
    PutTwice(b.groups, g.(tlist := g.tlist[|g.tlist| - 1 := t]), g.(tlist := g.tlist[|g.tlist| - 1 := u]));
  }

  /** A change of the flowop just added, and of the transaction just added. */
  lemma ChangeFlowop(b: Builder, f: FlowopNode, h: FlowopNode -> FlowopNode)
    requires HasTxn(b)
    ensures OnFlowop(WithFlowop(b, f), h) == Going(WithFlowop(b, h(f)))
  {
    var t := CurrTxn(b);
    SetTwice(t.flist, f, h(f));
    PutTxnTwice(b, t.(nflowop := t.nflowop + 1, flist := t.flist + [f]),
                t.(nflowop := t.nflowop + 1, flist := t.flist + [h(f)]));
  }

  lemma ChangeTxn(b: Builder, t: TxnNode, h: TxnNode -> TxnNode)
    requires HasGroup(b) && h(t).flist == t.flist
    ensures OnTxn(WithTxn(b, t), h) == Going(WithTxn(b, h(t)))
  {
    var g := CurrGroup(b);
    SetTwice(g.tlist, t, h(t));
    PutTwice(b.groups, g.(ntxn := g.ntxn + 1, tlist := g.tlist + [t]),
             g.(ntxn := g.ntxn + 1, tlist := g.tlist + [h(t)]));
  }

  lemma FlowopRead(b: Builder, f: FlowopNode)
    requires b.inTxn && HasTxn(b) && (b.hasFlowop <==> CurrTxn(b).flist != [])
    requires f.id == b.fid && f.kind != FLOWOP_ERROR
    ensures TakeAll(b, FlowopTokens(f)) == Going(WithFlowop(b, f))
  {
    var f0, f1 := FlowopNode(f.id, FLOWOP_ERROR, ""), FlowopNode(f.id, f.kind, "");
    ChangeFlowop(b, f0, (x: FlowopNode) => x.(kind := f.kind));
    ChangeFlowop(b, f1, (x: FlowopNode) => x.(options := f.options));
    TakeFour(b, WithFlowop(b, f0), WithFlowop(b, f1), WithFlowop(b, f), WithFlowop(b, f), FlowopTokens(f));
  }

  lemma PutSame(b: Builder)
    requires HasTxn(b)
    ensures PutTxn(b, CurrTxn(b)) == b
  {
    var g := CurrGroup(b);
    assert g.tlist[|g.tlist| - 1 := CurrTxn(b)] == g.tlist;
    assert b.groups[|b.groups| - 1 := g] == b.groups;
  }

  /** The current transaction with the flowops `fs`. */
  function WithFlowops(b: Builder, fs: seq<FlowopNode>): Builder
    requires HasTxn(b)
  {
    PutTxn(b, CurrTxn(b).(nflowop := |fs|, flist := fs)).(fid := |fs|, hasFlowop := fs != [])
  }

  lemma {:induction false} FlowopsRead(b: Builder, fs: seq<FlowopNode>)
    requires b.inTxn && HasTxn(b) && CurrTxn(b).nflowop == 0 && CurrTxn(b).flist == [] && b.fid == 0 && !b.hasFlowop
    requires forall j :: 0 <= j < |fs| ==> fs[j].id == j && fs[j].kind != FLOWOP_ERROR
    ensures TakeAll(b, ListTokens(fs)) == Going(WithFlowops(b, fs))
  {
    if fs == [] {
      PutSame(b);
    } else {
      var m := |fs| - 1;
      FlowopsRead(b, fs[..m]);
      var c := WithFlowops(b, fs[..m]);
      PutTxnTwice(b, CurrTxn(b).(nflowop := m, flist := fs[..m]), CurrTxn(b).(nflowop := m + 1, flist := fs));
      TakeAppend(b, ListTokens(fs[..m]), FlowopTokens(fs[m]));
      FlowopRead(c, fs[m]);
      assert fs[..m] + [fs[m]] == fs;
      assert WithFlowop(c, fs[m]) == WithFlowops(b, fs);
    }
  }

  /** One more transaction in the current group. */
  function WithTxn(b: Builder, t: TxnNode): Builder
    requires HasGroup(b)
  {
    var g := CurrGroup(b);
    PutGroup(b, g.(ntxn := g.ntxn + 1, tlist := g.tlist + [t]))
      .(txnid := b.txnid + 1, hasTxn := true, hasFlowop := t.flist != [], fid := |t.flist|, inTxn := true)
  }

  lemma TxnStartRead(b: Builder)
    requires b.inGroup && HasGroup(b) && (b.hasTxn <==> CurrGroup(b).tlist != [])
    ensures Take(b, TxnStart) == Going(WithTxn(b, TxnNode(0, b.txnid, 1, 0, 0, [])))
  {
  }

  lemma TxnHeadRead(b: Builder, t: TxnNode)
    requires b.inGroup && HasGroup(b) && (b.hasTxn <==> CurrGroup(b).tlist != []) && t.txnid == b.txnid
    ensures TakeAll(b, [TxnStart, Duration(t.duration), Iterations(t.iter), Rate(t.rateCount)])
         == Going(WithTxn(b, t.(nflowop := 0, flist := [])))
  {
    var e := TxnNode(0, t.txnid, 1, 0, 0, []);
    var e1 := e.(duration := t.duration);
    var e2 := e1.(iter := t.iter);
    TxnStartRead(b);
    ChangeTxn(b, e, (x: TxnNode) => x.(duration := t.duration, iter := 1));
    ChangeTxn(b, e1, (x: TxnNode) => x.(iter := t.iter));
    ChangeTxn(b, e2, (x: TxnNode) => x.(rateCount := t.rateCount));
    TakeFour(b, WithTxn(b, e), WithTxn(b, e1), WithTxn(b, e2), WithTxn(b, e2.(rateCount := t.rateCount)),
             [TxnStart, Duration(t.duration), Iterations(t.iter), Rate(t.rateCount)]);
  }

  lemma NewTxnFilled(b: Builder, t: TxnNode)
    requires HasGroup(b) && t.nflowop == |t.flist|
    ensures WithFlowops(WithTxn(b, t.(nflowop := 0, flist := [])), t.flist) == WithTxn(b, t)
  {
    var g, e := CurrGroup(b), t.(nflowop := 0, flist := []);
    SetTwice(g.tlist, e, t);
    PutTwice(b.groups, g.(ntxn := g.ntxn + 1, tlist := g.tlist + [e]), g.(ntxn := g.ntxn + 1, tlist := g.tlist + [t]));
  }

  lemma TxnRead(b: Builder, t: TxnNode)
    requires b.inGroup && HasGroup(b) && (b.hasTxn <==> CurrGroup(b).tlist != []) && TxnRight(t, b.txnid)
    requires forall j :: 0 <= j < |t.flist| ==> t.flist[j].kind != FLOWOP_ERROR
    ensures TakeAll(b, TxnTokens(t)) == Going(WithTxn(b, t).(inTxn := false))
  {
    var head := [TxnStart, Duration(t.duration), Iterations(t.iter), Rate(t.rateCount)];
    var c := WithTxn(b, t.(nflowop := 0, flist := []));
    TxnHeadRead(b, t);
    FlowopsRead(c, t.flist);
    NewTxnFilled(b, t);
    TakeAppend(b, head, ListTokens(t.flist) + [TxnEnd]);
    TakeAppend(c, ListTokens(t.flist), [TxnEnd]);
    TakeOne(WithTxn(b, t), TxnEnd, []);
    assert TxnTokens(t) == head + (ListTokens(t.flist) + [TxnEnd]);
    assert [TxnEnd] + [] == [TxnEnd];
  }

  /** The current group with the transactions `ts`, as far as the rest of the tokens depends on it. */
  ghost predicate HasTxns(b: Builder, c: Builder, ts: seq<TxnNode>)
    requires HasGroup(b)
  {
    && c.groups == PutGroup(b, CurrGroup(b).(ntxn := |ts|, tlist := ts)).groups
    && c.inGroup && !c.inTxn && c.txnid == |ts| && (c.hasTxn <==> ts != [])
  }

  lemma OneMoreTxn(b: Builder, c: Builder, ts: seq<TxnNode>, t: TxnNode)
    requires HasGroup(b) && HasTxns(b, c, ts)
    ensures HasTxns(b, WithTxn(c, t).(inTxn := false), ts + [t])
  {
    var g := CurrGroup(b);
    PutTwice(b.groups, g.(ntxn := |ts|, tlist := ts), g.(ntxn := |ts| + 1, tlist := ts + [t]));
  }

  lemma {:induction false} TxnsRead(b: Builder, ts: seq<TxnNode>)
    requires b.inGroup && HasGroup(b) && !b.hasTxn && !b.inTxn && CurrGroup(b).tlist == [] &&
             CurrGroup(b).ntxn == 0 && b.txnid == 0
    requires forall i :: 0 <= i < |ts| ==> TxnRight(ts[i], i)
    requires forall i, j :: 0 <= i < |ts| && 0 <= j < |ts[i].flist| ==> ts[i].flist[j].kind != FLOWOP_ERROR
    ensures TakeAll(b, TxnsTokens(ts)).Going? && HasTxns(b, TakeAll(b, TxnsTokens(ts)).b, ts)
  {
    if ts != [] {
      var m := |ts| - 1;
      TxnsRead(b, ts[..m]);
      var c := TakeAll(b, TxnsTokens(ts[..m])).b;
      TakeAppend(b, TxnsTokens(ts[..m]), TxnTokens(ts[m]));
      TxnRead(c, ts[m]);
      OneMoreTxn(b, c, ts[..m], ts[m]);
      assert ts[..m] + [ts[m]] == ts;
    } else {
      assert PutGroup(b, CurrGroup(b)) == b;
    }
  }

  lemma GroupRead(b: Builder, g: GroupNode)
    requires |b.groups| < MAXTHREADGROUPS && !b.inTxn && GroupWritable(g)
    ensures TakeAll(b, GroupTokens(g)).Going?
    ensures var c := TakeAll(b, GroupTokens(g)).b; c.groups == b.groups + [g] && !c.inTxn
  {
    var size := if g.threads then NThreads(g.nthreads) else NProcesses(g.nthreads);
    var b1 := Take(b, GroupStart).b;
    var b2 := Take(b1, size).b;
    assert b2.groups == b.groups + [GroupNode(0, g.nthreads, g.threads, g.processes, [])];
    TxnsRead(b2, g.tlist);
    var b3 := TakeAll(b2, TxnsTokens(g.tlist)).b;
    assert b3.groups == b.groups + [g];
    TakeAppend(b2, TxnsTokens(g.tlist), [GroupEnd]);
    TakeOne(b3, GroupEnd, []);
    TakeOne(b1, size, TxnsTokens(g.tlist) + [GroupEnd]);
    TakeOne(b, GroupStart, [size] + (TxnsTokens(g.tlist) + [GroupEnd]));
    assert GroupTokens(g) == [GroupStart] + ([size] + (TxnsTokens(g.tlist) + [GroupEnd]));
    assert [GroupEnd] + [] == [GroupEnd];
  }

  /** Reading back what was written gives the same groups, transactions and flowops. */
  lemma {:induction false} WorkorderReadsBack(gs: seq<GroupNode>)
    requires Writable(gs)
    ensures TakeAll(Begin(), GroupsTokens(gs)).Going?
    ensures TakeAll(Begin(), GroupsTokens(gs)).b.groups == gs && !TakeAll(Begin(), GroupsTokens(gs)).b.inTxn
  {
    if gs != [] {
      var m := |gs| - 1;
      WorkorderReadsBack(gs[..m]);
      TakeAppend(Begin(), GroupsTokens(gs[..m]), GroupTokens(gs[m]));
      GroupRead(TakeAll(Begin(), GroupsTokens(gs[..m])).b, gs[m]);
      assert gs[..m] + [gs[m]] == gs;
    }
  }

  // ---- The loop ----

  datatype Result = Built(groups: seq<GroupNode>) | Refused | Crashed | TooManyGroups

  /** build_worklist. */
  method BuildWorklist(list: seq<Token>) returns (r: Result)
    ensures r.Built? <==> Passes(list, |list|)
    ensures r.Built? ==> TakeAll(Begin(), list).Going? && r.groups == TakeAll(Begin(), list).b.groups
    ensures r.Built? ==> |r.groups| <= MAXTHREADGROUPS && forall k :: 0 <= k < |r.groups| ==> GroupRight(r.groups[k])
    ensures r.Crashed? <==> Crashes(list)
    ensures r.Refused? <==> IsRefused(list)
    ensures r.TooManyGroups? <==> Overruns(list)
  {
    HowItEnds(list);
    var b := Begin();
    var i := 0;
    while i < |list|
      invariant 0 <= i <= |list| && TakeAll(Begin(), list) == TakeAll(b, list[i..]) && BuilderRight(b)
    {
      var o := Take(b, list[i]);
      assert list[i..][1..] == list[i + 1..];
      match o {
        case Going(c) =>
          TakeKeepsRight(b, list[i]);
          b := c;
        case Rejected => return Refused;
        case NullDereference => return Crashed;
        case Overrun => return TooManyGroups;
      }
      i := i + 1;
    }
    r := Built(b.groups);
  }
}
