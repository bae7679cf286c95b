/** What the fields of an accepted workorder are, read off the tokens: the last token for a field while
    its group, transaction or flowop is the current one (build_worklist in src/parse.c). */
module ProfileValues {
  import opened Profile

  datatype Option<T> = None | Some(value: T)

  /** The value of the last token from `a` up to `e` that gives one. */
  function Last<T>(ks: seq<Token>, a: nat, e: nat, of: Token -> Option<T>, start: T): T
    requires e <= |ks|
  {
    if e <= a then start else Set(of(ks[e - 1]), Last(ks, a, e - 1, of, start))
  }

  function Set<T>(v: Option<T>, before: T): T { if v.Some? then v.value else before }

  function StrandsOf(k: Token): Option<nat> {
    match k
    case NThreads(n) => Some(n)
    case NProcesses(n) => Some(n)
    case _ => None
  }

  function ThreadsOf(k: Token): Option<bool> { if k.NThreads? then Some(true) else None }
  function ProcessesOf(k: Token): Option<bool> { if k.NProcesses? then Some(true) else None }

  /** A duration makes it one iteration. */
  function IterOf(k: Token): Option<nat> {
    match k
    case Iterations(n) => Some(n)
    case Duration(_) => Some(1)
    case _ => None
  }

  function DurationOf(k: Token): Option<nat> { if k.Duration? then Some(k.n) else None }
  function RateOf(k: Token): Option<nat> { if k.Rate? then Some(k.n) else None }
  function KindOf(k: Token): Option<nat> { if k.Type? then Some(k.kind) else None }
  function OptionsOf(k: Token): Option<string> { if k.Options? then Some(k.text) else None }

  predicate StartsGroup(k: Token) { k.GroupStart? }
  predicate StartsTxn(k: Token) { k.TxnStart? || k.GroupStart? }
  predicate StartsFlowop(k: Token) { k.FlowopStart? || k.TxnStart? || k.GroupStart? }

  // ---- One token ----

  /** All but the last element are the same. */
  ghost predicate SameButLast<T>(a: seq<T>, b: seq<T>) {
    |a| == |b| && forall i :: 0 <= i < |a| - 1 ==> a[i] == b[i]
  }

  ghost predicate GroupsMove(b: Builder, k: Token, c: Builder) {
    if k.GroupStart? then c.groups == b.groups + [GroupNode(0, 0, false, false, [])]
    else
      && SameButLast(b.groups, c.groups)
      && (b.groups != [] ==>
            var g, h := CurrGroup(b), CurrGroup(c);
            && h.nthreads == Set(StrandsOf(k), g.nthreads) && h.threads == Set(ThreadsOf(k), g.threads)
            && h.processes == Set(ProcessesOf(k), g.processes))
  }

  ghost predicate TxnsMove(b: Builder, k: Token, c: Builder)
    requires b.groups != [] && c.groups != []
  {
    var ts, us := CurrGroup(b).tlist, CurrGroup(c).tlist;
    if k.TxnStart? then us == ts + [TxnNode(0, |ts|, 1, 0, 0, [])]
    else
      && SameButLast(ts, us)
      && (ts != [] ==>
            var t, u := ts[|ts| - 1], us[|us| - 1];
            && u.iter == Set(IterOf(k), t.iter) && u.duration == Set(DurationOf(k), t.duration)
            && u.rateCount == Set(RateOf(k), t.rateCount))
  }

  ghost predicate FlowopsMove(b: Builder, k: Token, c: Builder)
    requires HasGroup(b) && CurrGroup(b).tlist != [] && HasGroup(c) && CurrGroup(c).tlist != []
  {
    var fs, hs := LastTxn(b).flist, LastTxn(c).flist;
    if k.FlowopStart? then hs == fs + [FlowopNode(|fs|, FLOWOP_ERROR, "")]
    else
      && SameButLast(fs, hs)
      && (fs != [] ==>
            var f, h := fs[|fs| - 1], hs[|hs| - 1];
            h.kind == Set(KindOf(k), f.kind) && h.options == Set(OptionsOf(k), f.options))
  }

  function LastTxn(b: Builder): TxnNode
    requires HasGroup(b) && CurrGroup(b).tlist != []
  {
    CurrGroup(b).tlist[|CurrGroup(b).tlist| - 1]
  }

  lemma TakeGroups(b: Builder, k: Token)
    requires BuilderRight(b) && Take(b, k).Going?
    ensures GroupsMove(b, k, Take(b, k).b)
  {
    if NeedsTxn(k) || NeedsFlowop(k) {
      InnerKeepsGroups(b, k);
    }
  }

  lemma InnerKeepsGroups(b: Builder, k: Token)
    requires BuilderRight(b) && Take(b, k).Going? && (NeedsTxn(k) || NeedsFlowop(k))
    ensures GroupsMove(b, k, Take(b, k).b)
  {
  }

  lemma TakeTxns(b: Builder, k: Token)
    requires BuilderRight(b) && Take(b, k).Going? && !k.GroupStart? && b.groups != []
    ensures Take(b, k).b.groups != [] && TxnsMove(b, k, Take(b, k).b)
  {
    if NeedsTxn(k) {
      TakeTxnToken(b, k);
    } else if NeedsFlowop(k) {
      TakeFlowopToken(b, k);
    }
  }

  lemma TakeTxnToken(b: Builder, k: Token)
    requires BuilderRight(b) && Take(b, k).Going? && NeedsTxn(k) && b.groups != []
    ensures Take(b, k).b.groups != [] && TxnsMove(b, k, Take(b, k).b)
  {
  }

  lemma TakeFlowopToken(b: Builder, k: Token)
    requires BuilderRight(b) && Take(b, k).Going? && NeedsFlowop(k) && b.groups != []
    ensures Take(b, k).b.groups != [] && TxnsMove(b, k, Take(b, k).b)
  {
  }

  lemma TakeFlowops(b: Builder, k: Token)
    requires BuilderRight(b) && Take(b, k).Going? && !StartsTxn(k) && HasGroup(b) && CurrGroup(b).tlist != []
    ensures HasGroup(Take(b, k).b) && CurrGroup(Take(b, k).b).tlist != [] && FlowopsMove(b, k, Take(b, k).b)
  {
    if NeedsFlowop(k) {
      TakeInFlowop(b, k);
    } else if NeedsTxn(k) {
      TakeInTxn(b, k);
    }
  }

  lemma TakeInFlowop(b: Builder, k: Token)
    requires BuilderRight(b) && Take(b, k).Going? && NeedsFlowop(k) && HasGroup(b) && CurrGroup(b).tlist != []
    ensures HasGroup(Take(b, k).b) && CurrGroup(Take(b, k).b).tlist != [] && FlowopsMove(b, k, Take(b, k).b)
  {
  }

  lemma TakeInTxn(b: Builder, k: Token)
    requires BuilderRight(b) && Take(b, k).Going? && NeedsTxn(k) && HasGroup(b) && CurrGroup(b).tlist != []
    ensures HasGroup(Take(b, k).b) && CurrGroup(Take(b, k).b).tlist != [] && FlowopsMove(b, k, Take(b, k).b)
  {
  }

  // ---- All tokens of an accepted list ----

  predicate Accepted(ks: seq<Token>) { TakeAll(Begin(), ks).Going? }

  /** The variables before token `i`. */
  function At(ks: seq<Token>, i: nat): Builder
    requires i <= |ks|
  {
    var o := TakeAll(Begin(), ks[..i]);
    if o.Going? then o.b else Begin()
  }

  lemma {:induction false} StopsStay(b: Builder, ks: seq<Token>, ls: seq<Token>)
    requires !TakeAll(b, ks).Going?
    ensures TakeAll(b, ks + ls) == TakeAll(b, ks)
    decreases |ks|
  {
    assert (ks + ls)[1..] == ks[1..] + ls;
    if Take(b, ks[0]).Going? {
      StopsStay(Take(b, ks[0]).b, ks[1..], ls);
    }
  }

  lemma PrefixAccepted(ks: seq<Token>, i: nat)
    requires Accepted(ks) && i <= |ks|
    ensures TakeAll(Begin(), ks[..i]) == Going(At(ks, i)) && BuilderRight(At(ks, i))
  {
    assert ks == ks[..i] + ks[i..];
    if !TakeAll(Begin(), ks[..i]).Going? {
      StopsStay(Begin(), ks[..i], ks[i..]);
    } else {
      AcceptedIsRight(Begin(), ks[..i]);
    }
  }

  lemma Step(ks: seq<Token>, i: nat)
    requires Accepted(ks) && i < |ks|
    ensures BuilderRight(At(ks, i)) && BuilderRight(At(ks, i + 1))
    ensures Take(At(ks, i), ks[i]) == Going(At(ks, i + 1))
  {
    PrefixAccepted(ks, i);
    PrefixAccepted(ks, i + 1);
    assert ks[..i + 1] == ks[..i] + [ks[i]];
    TakeAppend(Begin(), ks[..i], [ks[i]]);
    assert [ks[i]][1..] == [];
  }

  /** Transactions begun in the group, and flowops in the transaction, before token `i`. */
  function TxnsBegun(ks: seq<Token>, i: nat): nat
    requires i <= |ks|
  {
    if i == 0 || ks[i - 1].GroupStart? then 0 else TxnsBegun(ks, i - 1) + (if ks[i - 1].TxnStart? then 1 else 0)
  }

  function FlowopsBegun(ks: seq<Token>, i: nat): nat
    requires i <= |ks|
  {
    if i == 0 || StartsTxn(ks[i - 1]) then 0 else FlowopsBegun(ks, i - 1) + (if ks[i - 1].FlowopStart? then 1 else 0)
  }

  /** As many groups, transactions and flowops as have begun. */
  ghost predicate Sizes(ks: seq<Token>, i: nat)
    requires i <= |ks|
  {
    var b := At(ks, i);
    && |b.groups| == Begun(ks, i)
    && (b.groups != [] ==> |CurrGroup(b).tlist| == TxnsBegun(ks, i))
    && (b.groups != [] && CurrGroup(b).tlist != [] ==> |LastTxn(b).flist| == FlowopsBegun(ks, i))
    && (b.groups == [] ==> TxnsBegun(ks, i) == 0)
    && (b.groups == [] || CurrGroup(b).tlist == [] ==> FlowopsBegun(ks, i) == 0)
  }

  lemma OutOfReach(b: Builder, k: Token)
    requires BuilderRight(b) && Take(b, k).Going?
    ensures k.TxnStart? ==> b.groups != []
    ensures k.FlowopStart? ==> b.groups != [] && CurrGroup(b).tlist != []
  {
  }

  lemma {:induction false} SizesAre(ks: seq<Token>, i: nat)
    requires Accepted(ks) && i <= |ks|
    ensures Sizes(ks, i)
  {
    if i == 0 {
      assert ks[..0] == [];
    } else {
      var b, k := At(ks, i - 1), ks[i - 1];
      SizesAre(ks, i - 1);
      Step(ks, i - 1);
      OutOfReach(b, k);
      TakeGroups(b, k);
      if !k.GroupStart? && b.groups != [] {
        TakeTxns(b, k);
        if !k.TxnStart? && CurrGroup(b).tlist != [] {
          TakeFlowops(b, k);
        }
      }
    }
  }

  // ---- Groups ----

  lemma {:induction false} GroupSoFar(ks: seq<Token>, s: nat, i: nat)
    requires Accepted(ks) && s < i <= |ks| && ks[s].GroupStart? && forall u :: s < u < i ==> !ks[u].GroupStart?
    ensures |At(ks, i).groups| == Begun(ks, s) + 1
    ensures var g := CurrGroup(At(ks, i));
            && g.nthreads == Last(ks, s + 1, i, StrandsOf, 0)
            && g.threads == Last(ks, s + 1, i, ThreadsOf, false)
            && g.processes == Last(ks, s + 1, i, ProcessesOf, false)
  {
    SizesAre(ks, i - 1);
    Step(ks, i - 1);
    TakeGroups(At(ks, i - 1), ks[i - 1]);
    if i - 1 > s {
      GroupSoFar(ks, s, i - 1);
    }
  }

  /** What is not the last group any more stays as it is. */
  lemma {:induction false} GroupStays(ks: seq<Token>, i: nat, e: nat, g: nat)
    requires Accepted(ks) && i <= e <= |ks| && g < |At(ks, i).groups| - 1
    ensures g < |At(ks, e).groups| - 1 && At(ks, e).groups[g] == At(ks, i).groups[g]
  {
    if i < e {
      GroupStays(ks, i, e - 1, g);
      Step(ks, e - 1);
      TakeGroups(At(ks, e - 1), ks[e - 1]);
    }
  }

  /** The scope of what begins at `s` ends at `e`: where the next such thing begins, or with the list. */
  predicate Scope(ks: seq<Token>, s: nat, e: nat, starts: Token -> bool) {
    && s < e <= |ks| && (forall u :: s < u < e ==> !starts(ks[u])) && (e < |ks| ==> starts(ks[e]))
  }

  /** A group has the number of strands of its last token that gives one, and is of threads, of
      processes, or of both, if some token says so. */
  lemma GroupIsAsWritten(ks: seq<Token>, s: nat, e: nat)
    requires Accepted(ks) && Scope(ks, s, e, StartsGroup) && ks[s].GroupStart?
    ensures var gs := TakeAll(Begin(), ks).b.groups;
            && Begun(ks, s) < |gs|
            && var g := gs[Begun(ks, s)];
               && g.nthreads == Last(ks, s + 1, e, StrandsOf, 0)
               && g.threads == Last(ks, s + 1, e, ThreadsOf, false)
               && g.processes == Last(ks, s + 1, e, ProcessesOf, false)
  {
    GroupSoFar(ks, s, e);
    if e < |ks| {
      Step(ks, e);
      TakeGroups(At(ks, e), ks[e]);
      GroupStays(ks, e + 1, |ks|, Begun(ks, s));
    }
    assert ks[..|ks|] == ks;
  }

  // ---- Transactions ----

  lemma {:induction false} TxnSoFar(ks: seq<Token>, s: nat, i: nat)
    requires Accepted(ks) && s < i <= |ks| && ks[s].TxnStart? && forall u :: s < u < i ==> !StartsTxn(ks[u])
    ensures |At(ks, i).groups| == Begun(ks, s) > 0 && |CurrGroup(At(ks, i)).tlist| == TxnsBegun(ks, s) + 1
    ensures var t := LastTxn(At(ks, i));
            && t.iter == Last(ks, s + 1, i, IterOf, 1) && t.duration == Last(ks, s + 1, i, DurationOf, 0)
            && t.rateCount == Last(ks, s + 1, i, RateOf, 0)
  {
    var b, k := At(ks, i - 1), ks[i - 1];
    SizesAre(ks, i - 1);
    Step(ks, i - 1);
    OutOfReach(b, k);
    TakeGroups(b, k);
    if i - 1 > s {
      TxnSoFar(ks, s, i - 1);
    }
    TakeTxns(b, k);
  }

  /** Transaction x of group g is there, and is not the last one of the last group. */
  predicate TxnPassed(b: Builder, g: nat, x: nat) {
    && g < |b.groups| && x < |b.groups[g].tlist|
    && (g == |b.groups| - 1 ==> x < |b.groups[g].tlist| - 1)
  }

  lemma {:induction false} TxnStays(ks: seq<Token>, i: nat, e: nat, g: nat, x: nat)
    requires Accepted(ks) && i <= e <= |ks| && TxnPassed(At(ks, i), g, x)
    ensures TxnPassed(At(ks, e), g, x) && At(ks, e).groups[g].tlist[x] == At(ks, i).groups[g].tlist[x]
  {
    if i < e {
      TxnStays(ks, i, e - 1, g, x);
      Step(ks, e - 1);
      TxnStaysOnce(At(ks, e - 1), ks[e - 1], At(ks, e), g, x);
    }
  }

  lemma TxnStaysOnce(b: Builder, k: Token, c: Builder, g: nat, x: nat)
    requires BuilderRight(b) && Take(b, k) == Going(c) && TxnPassed(b, g, x)
    ensures TxnPassed(c, g, x) && c.groups[g].tlist[x] == b.groups[g].tlist[x]
  {
    TakeGroups(b, k);
    if !k.GroupStart? {
      TakeTxns(b, k);
    }
  }

  /** A transaction has the iterations, duration and rate of its last tokens that give them; a duration
      puts the iterations back to one. */
  lemma TxnIsAsWritten(ks: seq<Token>, s: nat, e: nat)
    requires Accepted(ks) && Scope(ks, s, e, StartsTxn) && ks[s].TxnStart?
    ensures var gs, g, x := TakeAll(Begin(), ks).b.groups, Begun(ks, s) - 1, TxnsBegun(ks, s);
            && 0 <= g < |gs| && x < |gs[g].tlist|
            && var t := gs[g].tlist[x];
               && t.iter == Last(ks, s + 1, e, IterOf, 1) && t.duration == Last(ks, s + 1, e, DurationOf, 0)
               && t.rateCount == Last(ks, s + 1, e, RateOf, 0)
  {
    TxnSoFar(ks, s, e);
    if e < |ks| {
      var b, k := At(ks, e), ks[e];
      Step(ks, e);
      TakeGroups(b, k);
      if !k.GroupStart? {
        TakeTxns(b, k);
      }
      TxnStays(ks, e + 1, |ks|, Begun(ks, s) - 1, TxnsBegun(ks, s));
    }
    assert ks[..|ks|] == ks;
  }

  // ---- Flowops ----

  lemma {:induction false} FlowopSoFar(ks: seq<Token>, s: nat, i: nat)
    requires Accepted(ks) && s < i <= |ks| && ks[s].FlowopStart? && forall u :: s < u < i ==> !StartsFlowop(ks[u])
    ensures |At(ks, i).groups| == Begun(ks, s) > 0 && |CurrGroup(At(ks, i)).tlist| == TxnsBegun(ks, s) > 0
    ensures |LastTxn(At(ks, i)).flist| == FlowopsBegun(ks, s) + 1
    ensures var f := LastTxn(At(ks, i)).flist[FlowopsBegun(ks, s)];
            f.kind == Last(ks, s + 1, i, KindOf, FLOWOP_ERROR) && f.options == Last(ks, s + 1, i, OptionsOf, "")
  {
    var b, k := At(ks, i - 1), ks[i - 1];
    SizesAre(ks, i - 1);
    Step(ks, i - 1);
    OutOfReach(b, k);
    TakeGroups(b, k);
    if i - 1 > s {
      FlowopSoFar(ks, s, i - 1);
    }
    TakeTxns(b, k);
    TakeFlowops(b, k);
  }

  /** Flowop y of that transaction is there, and is not the last one of the last transaction. */
  predicate FlowopPassed(b: Builder, g: nat, x: nat, y: nat) {
    && g < |b.groups| && x < |b.groups[g].tlist| && y < |b.groups[g].tlist[x].flist|
    && (TxnPassed(b, g, x) || y < |b.groups[g].tlist[x].flist| - 1)
  }

  lemma {:induction false} FlowopStays(ks: seq<Token>, i: nat, e: nat, g: nat, x: nat, y: nat)
    requires Accepted(ks) && i <= e <= |ks| && FlowopPassed(At(ks, i), g, x, y)
    ensures FlowopPassed(At(ks, e), g, x, y)
    ensures At(ks, e).groups[g].tlist[x].flist[y] == At(ks, i).groups[g].tlist[x].flist[y]
  {
    if i < e {
      FlowopStays(ks, i, e - 1, g, x, y);
      Step(ks, e - 1);
      FlowopStaysOnce(At(ks, e - 1), ks[e - 1], At(ks, e), g, x, y);
    }
  }

  lemma FlowopStaysOnce(b: Builder, k: Token, c: Builder, g: nat, x: nat, y: nat)
    requires BuilderRight(b) && Take(b, k) == Going(c) && FlowopPassed(b, g, x, y)
    ensures FlowopPassed(c, g, x, y) && c.groups[g].tlist[x].flist[y] == b.groups[g].tlist[x].flist[y]
  {
    TakeGroups(b, k);
    if !k.GroupStart? {
      TakeTxns(b, k);
      if !k.TxnStart? && CurrGroup(b).tlist != [] {
        TakeFlowops(b, k);
      }
    }
  }

  /** A flowop has the type and the options of its last tokens that give them. */
  lemma FlowopIsAsWritten(ks: seq<Token>, s: nat, e: nat)
    requires Accepted(ks) && Scope(ks, s, e, StartsFlowop) && ks[s].FlowopStart?
    ensures var gs, g := TakeAll(Begin(), ks).b.groups, Begun(ks, s) - 1;
            var x, y := TxnsBegun(ks, s) - 1, FlowopsBegun(ks, s);
            && 0 <= g < |gs| && 0 <= x < |gs[g].tlist| && y < |gs[g].tlist[x].flist|
            && var f := gs[g].tlist[x].flist[y];
               f.kind == Last(ks, s + 1, e, KindOf, FLOWOP_ERROR) && f.options == Last(ks, s + 1, e, OptionsOf, "")
  {
    FlowopSoFar(ks, s, e);
    var g, x, y := Begun(ks, s) - 1, TxnsBegun(ks, s) - 1, FlowopsBegun(ks, s);
    if e < |ks| {
      LeavesFlowop(ks, e, g, x, y);
      FlowopStays(ks, e + 1, |ks|, g, x, y);
    }
    assert ks[..|ks|] == ks;
  }

  /** The token after the last flowop leaves it behind. */
  lemma LeavesFlowop(ks: seq<Token>, e: nat, g: nat, x: nat, y: nat)
    requires Accepted(ks) && e < |ks| && StartsFlowop(ks[e]) && g == |At(ks, e).groups| - 1
    requires x == |At(ks, e).groups[g].tlist| - 1 && y == |At(ks, e).groups[g].tlist[x].flist| - 1
    ensures FlowopPassed(At(ks, e + 1), g, x, y)
    ensures At(ks, e + 1).groups[g].tlist[x].flist[y] == At(ks, e).groups[g].tlist[x].flist[y]
  {
    var b, k := At(ks, e), ks[e];
    Step(ks, e);
    TakeGroups(b, k);
    if !k.GroupStart? {
      TakeTxns(b, k);
      if !k.TxnStart? {
        TakeFlowops(b, k);
      }
    }
  }
}
