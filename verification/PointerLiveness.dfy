/** Every flowop remembers the connection it last used, over all iterations of its transaction.  A
    machine for one transaction on the strand's pool and cache, with every answer of the kernel left
    open, and the exact condition under which no flowop ever uses a connection that has been destroyed
    (src/flowops_library.c, src/strand.c, src/execute.c). */
module PointerLiveness {
  import opened ByteOrder
  import opened Workorder
  import Pool

  /** A connection: `obj` tells it from all others, also from those destroyed. */
  datatype Conn = Conn(obj: nat, pId: int)
  datatype Ptr = Null | To(c: Conn)

  /** A lookup for this id takes whatever is cached first. */
  const ANY: int := -1

  /** The id of a flowop is unsigned, that of a connection is an int. */
  function Id(f: Flowop): int { if f.pId < 0x8000_0000 then f.pId else f.pId - 0x1_0000_0000 }

  /** `ptrs[k]` is the cached pointer of flowop k; `j` and `i` are the flowop being executed and how
      often it has been, `it` how many iterations are complete; `born` connections have existed, and
      those in `shut` have been closed. */
  datatype Machine = Machine(pool: seq<Conn>, cache: seq<Conn>, ptrs: seq<Ptr>, shut: set<Conn>, born: nat,
                             it: nat, j: nat, i: nat, running: bool)

  /** A transaction: its flowops, how many iterations it makes, and whether its protocols refuse to
      transfer over a connection that has been closed, as TCP does; over UDP, where closing does
      nothing, transfers go on. */
  datatype Work = Work(fs: seq<Flowop>, iter: nat, refuses: bool)

  /** What is not the strand's to decide in one call: the cache slot to replace, and whether
      connecting, accepting, transferring or closing succeeds. */
  datatype Choice = Choice(slot: nat, ok: bool)

  predicate Uses(f: Flowop) {
    f.kind == FLOWOP_READ || f.kind == FLOWOP_WRITE || f.kind == FLOWOP_SEND || f.kind == FLOWOP_RECV || f.Sendfile()
  }

  predicate Opens(f: Flowop) { f.kind == FLOWOP_CONNECT || f.kind == FLOWOP_ACCEPT }
  predicate Closes(f: Flowop) { f.kind == FLOWOP_DISCONNECT }

  // ---- The pool and its cache, as values ----

  /** The first connection with the id. */
  function FirstOf(pool: seq<Conn>, id: int): (p: Ptr)
    ensures p != Null ==> p.c in pool && p.c.pId == id
    ensures p == Null ==> forall c :: c in pool ==> c.pId != id
  {
    if pool == [] then Null else if pool[0].pId == id then To(pool[0]) else FirstOf(pool[1..], id)
  }

  /** strand_delete_connection unlinks it. */
  function Pop(pool: seq<Conn>, id: int): seq<Conn> {
    if pool == [] then [] else if pool[0].pId == id then pool[1..] else [pool[0]] + Pop(pool[1..], id)
  }

  function CacheHit(cache: seq<Conn>, id: int): Ptr {
    if id == ANY && cache != [] then To(cache[0]) else FirstOf(cache, id)
  }

  /** strand_get_connection: the cache first, then the pool. */
  function Find(pool: seq<Conn>, cache: seq<Conn>, id: int): Ptr {
    if CacheHit(cache, id) != Null then CacheHit(cache, id) else FirstOf(pool, id)
  }

  function CacheThen(pool: seq<Conn>, cache: seq<Conn>, id: int, slot: nat): seq<Conn> {
    if CacheHit(cache, id) != Null || FirstOf(pool, id) == Null then cache
    else Pool.Put(cache, FirstOf(pool, id).c, slot)
  }

  /** flowop and all that follow it in the transaction have to look up again. */
  function Forget(ptrs: seq<Ptr>, j: nat): (r: seq<Ptr>)
    ensures |r| == |ptrs|
    ensures forall k :: 0 <= k < |ptrs| ==> r[k] == if k < j then ptrs[k] else Null
  {
    seq(|ptrs|, k requires 0 <= k < |ptrs| => if k < j then ptrs[k] else Null)
  }

  // ---- The machine ----

  /** What a call of the execute function of flowop m.j does to pool, cache and pointers. */
  function Use(f: Flowop, m: Machine, slot: nat): Machine
    requires m.j < |m.ptrs|
  {
    if m.ptrs[m.j] != Null then m
    else m.(ptrs := m.ptrs[m.j := Find(m.pool, m.cache, Id(f))], cache := CacheThen(m.pool, m.cache, Id(f), slot))
  }

  function Open(f: Flowop, m: Machine): Machine {
    m.(pool := [Conn(m.born, Id(f))] + m.pool, ptrs := Forget(m.ptrs, m.j), born := m.born + 1)
  }

  /** The connection found is closed, the first match is unlinked, and the cache flushed, if there is
      a match: with the id -1 there need not be one. */
  function Close(f: Flowop, m: Machine, found: Conn): Machine {
    var e := m.(shut := m.shut + {found}, ptrs := Forget(m.ptrs, m.j));
    if FirstOf(m.pool, Id(f)) == Null then e else e.(pool := Pop(m.pool, Id(f)), cache := [])
  }

  function Execute(f: Flowop, m: Machine, ch: Choice): Machine
    requires m.j < |m.ptrs|
  {
    if Uses(f) then Use(f, m, ch.slot)
    else if Opens(f) then if ch.ok then Open(f, m) else m
    else if Closes(f) && Find(m.pool, m.cache, Id(f)) != Null then Close(f, m, Find(m.pool, m.cache, Id(f)).c)
    else m
  }

  /** Whether a transfer over the connection can succeed. */
  predicate Works(w: Work, m: Machine, p: Ptr) { p != Null && (w.refuses ==> p.c !in m.shut) }

  /** Whether the execute function returns a non-negative value. */
  predicate Returns(w: Work, m: Machine, ch: Choice)
    requires m.j < |w.fs| == |m.ptrs|
  {
    var f := w.fs[m.j];
    if Uses(f) then ch.ok && Works(w, m, Use(f, m, ch.slot).ptrs[m.j])
    else if Closes(f) then ch.ok && Find(m.pool, m.cache, Id(f)) != Null
    else ch.ok
  }

  /** Whether the transaction goes on after the call.  A disconnect that finds no connection leaves
      errno at EINTR, which ends the transaction even where a failure is allowed. */
  predicate GoesOn(w: Work, m: Machine, ch: Choice)
    requires m.j < |w.fs| == |m.ptrs|
  {
    var f := w.fs[m.j];
    (Returns(w, m, ch) || f.CanFail()) && (Closes(f) ==> Find(m.pool, m.cache, Id(f)) != Null)
  }

  function CallOf(w: Work, m: Machine, ch: Choice): Machine
    requires m.j < |w.fs| == |m.ptrs|
  {
    var e := Execute(w.fs[m.j], m, ch);
    if GoesOn(w, m, ch) then e.(i := m.i + 1) else e.(running := false)
  }

  ghost predicate Calls(w: Work, m: Machine, m': Machine)
    requires m.j < |w.fs| == |m.ptrs|
  {
    exists ch: Choice :: ch.slot < Pool.STRAND_CONNECTION_CACHE_SIZE && m' == CallOf(w, m, ch)
  }

  /** flowop_execute, txn_execute_once and the loop around it, one step at a time: a failure that
      is not allowed ends the transaction, and so can a signal at any moment. */
  ghost predicate Step(w: Work, m: Machine, m': Machine) {
    && m.running && |m.ptrs| == |w.fs|
    && (|| m' == m.(running := false)
        || (m.j < |w.fs| && m.i < w.fs[m.j].io.count && Calls(w, m, m'))
        || (m.j < |w.fs| && m.i == w.fs[m.j].io.count && m' == m.(j := m.j + 1, i := 0))
        || (m.j == |w.fs| && m.it + 1 < w.iter && m' == m.(it := m.it + 1, j := 0, i := 0)))
  }

  /** The pool holds distinct connections, and the cache some of them. */
  ghost predicate WellFormed(m: Machine) {
    && (forall a, b :: 0 <= a < b < |m.pool| ==> m.pool[a].obj != m.pool[b].obj)
    && (forall c :: c in m.pool || c in m.shut ==> c.obj < m.born)
    && (forall c :: c in m.cache ==> c in m.pool) && |m.cache| < Pool.STRAND_CONNECTION_CACHE_SIZE
  }

  /** A transaction starts with no pointer cached, over any pool, any cache of some of it, and with some
      of it closed already. */
  ghost predicate Begins(w: Work, m: Machine) {
    && (m.running <==> w.iter > 0) && m.it == 0 && m.j == 0 && m.i == 0
    && |m.ptrs| == |w.fs| && (forall k :: 0 <= k < |w.fs| ==> m.ptrs[k] == Null)
    && WellFormed(m) && forall c :: c in m.shut ==> c in m.pool
  }

  ghost predicate StepAt(w: Work, run: seq<Machine>, t: nat)
    requires t + 1 < |run|
  {
    Step(w, run[t], run[t + 1])
  }

  ghost predicate IsRun(w: Work, run: seq<Machine>) {
    && |run| > 0 && Begins(w, run[0])
    && forall t :: 0 <= t < |run| - 1 ==> StepAt(w, run, t)
  }

  // ---- The condition ----

  /** A flowop that cannot be passed without making the ones after it look up again. */
  predicate MustReset(f: Flowop) { f.io.count > 0 && (Closes(f) || (Opens(f) && !f.CanFail())) }

  ghost predicate Protected(fs: seq<Flowop>, u: nat) {
    u < |fs| && forall r :: 0 <= r < u ==> !MustReset(fs[r])
  }

  /** The flowop may find a connection with this id. */
  predicate Fits(f: Flowop, id: int) { Id(f) == ANY || Id(f) == id }

  /** By how many connections with the id `n` calls of a flowop raise the pool at least, or lower it. */
  function Gain(f: Flowop, id: int, n: nat): int {
    if Id(f) != id then 0 else if Closes(f) then 0 - n else if Opens(f) && !f.CanFail() then n else 0
  }

  /** The same for all calls of the flowops from `a` up to `b`. */
  function Total(fs: seq<Flowop>, id: int, a: nat, b: nat): int
    requires b <= |fs|
  {
    if b <= a then 0 else Total(fs, id, a, b - 1) + Gain(fs[b - 1], id, fs[b - 1].io.count)
  }

  predicate Active(f: Flowop) { Uses(f) && f.io.count > 0 }

  /** Flowop u uses a connection with an id that flowop d closes, between them and with d more are
      closed than are opened for sure, and nothing before u makes it look up again. */
  ghost predicate Exposed(fs: seq<Flowop>, u: nat, d: nat) {
    && u < d < |fs| && Active(fs[u]) && Closes(fs[d]) && Fits(fs[u], Id(fs[d]))
    && Total(fs, Id(fs[d]), u + 1, d + 1) < 0
    && Protected(fs, u)
  }

  ghost predicate Safe(fs: seq<Flowop>) { forall u, d :: !Exposed(fs, u, d) }

  lemma NoDisconnectIsSafe(fs: seq<Flowop>)
    requires forall k :: 0 <= k < |fs| ==> !Closes(fs[k])
    ensures Safe(fs)
  {
  }

  lemma OpeningFirstIsSafe(fs: seq<Flowop>, c: nat)
    requires c < |fs| && Opens(fs[c]) && !fs[c].CanFail() && fs[c].io.count > 0
    requires forall k :: 0 <= k < c ==> fs[k].kind == FLOWOP_NOP || fs[k].kind == FLOWOP_THINK
    ensures Safe(fs)
  {
    assert MustReset(fs[c]);
  }

  /** The pointer is null, or leads to a connection of the pool that the flowop may use. */
  ghost predicate Live(fs: seq<Flowop>, m: Machine, k: nat)
    requires k < |m.ptrs| == |fs|
  {
    m.ptrs[k] == Null || (m.ptrs[k].c in m.pool && Fits(fs[k], m.ptrs[k].c.pId))
  }

  /** Flowop j is about to be called, and uses its connection. */
  ghost predicate Using(fs: seq<Flowop>, m: Machine) {
    m.running && m.j < |fs| == |m.ptrs| && m.i < fs[m.j].io.count && Uses(fs[m.j])
  }

  ghost predicate AlwaysLive(w: Work) {
    forall run: seq<Machine>, t: nat :: IsRun(w, run) && t < |run| && Using(w.fs, run[t]) ==>
             Live(w.fs, run[t], run[t].j)
  }

  // ---- How deep a connection lies among those with its id ----

  /** How many connections with its id are before `c` in the pool; -1 if it is not in the pool. */
  function Depth(pool: seq<Conn>, c: Conn): (d: int)
    ensures d >= -1 && (d >= 0 <==> c in pool)
  {
    if pool == [] then -1
    else if pool[0] == c then 0
    else
      var d := Depth(pool[1..], c);
      if d < 0 then -1 else d + (if pool[0].pId == c.pId then 1 else 0)
  }

  lemma DepthPush(x: Conn, pool: seq<Conn>, c: Conn)
    requires x != c
    ensures Depth([x] + pool, c) == if c !in pool then -1 else Depth(pool, c) + (if x.pId == c.pId then 1 else 0)
  {
    assert ([x] + pool)[1..] == pool;
  }

  ghost predicate Distinct(pool: seq<Conn>) { forall a, b :: 0 <= a < b < |pool| ==> pool[a].obj != pool[b].obj }

  lemma {:induction false} PopKeeps(pool: seq<Conn>, id: int)
    ensures |Pop(pool, id)| <= |pool| && forall c :: c in Pop(pool, id) ==> c in pool
    ensures Distinct(pool) ==> Distinct(Pop(pool, id))
  {
    if pool != [] && pool[0].pId != id {
      PopKeeps(pool[1..], id);
      var rest := Pop(pool[1..], id);
      forall b | 0 <= b < |rest| && Distinct(pool)
        ensures rest[b].obj != pool[0].obj
      {
        assert rest[b] in pool[1..];
      }
    }
  }

  /** Only the first connection with the id goes, and the others with the id move up. */
  lemma {:induction false} DepthPop(pool: seq<Conn>, id: int, c: Conn)
    requires Distinct(pool)
    ensures Depth(Pop(pool, id), c) == if c in pool && c.pId == id then Depth(pool, c) - 1 else Depth(pool, c)
  {
    if pool != [] {
      if pool[0].pId == id {
        assert pool[0] == c ==> c !in pool[1..];
      } else {
        DepthPop(pool[1..], id, c);
        var rest := Pop(pool[1..], id);
        assert ([pool[0]] + rest)[1..] == rest;
      }
    }
  }

  // ---- Safe transactions use live connections only ----

  /** What happens to the connections with the id between flowop u and call `i` of flowop `j`. */
  function Net(fs: seq<Flowop>, u: nat, id: int, j: nat, i: nat): int
    requires j <= |fs|
  {
    if j <= u then 0 else Total(fs, id, u + 1, j) + (if j < |fs| then Gain(fs[j], id, i) else 0)
  }

  lemma NetNext(fs: seq<Flowop>, u: nat, id: int, j: nat)
    requires j < |fs|
    ensures j != u ==> Net(fs, u, id, j, fs[j].io.count) == Net(fs, u, id, j + 1, 0)
    ensures j == u ==> Net(fs, u, id, j + 1, 0) == 0
  {
  }

  /** The connection of flowop k is at least as deep as what has happened since says. */
  ghost predicate Deep(fs: seq<Flowop>, m: Machine, k: nat)
    requires k < |m.ptrs| == |fs|
  {
    m.ptrs[k] == Null || m.j > |fs| || Depth(m.pool, m.ptrs[k].c) >= Net(fs, k, m.ptrs[k].c.pId, m.j, m.i)
  }

  /** Before flowop k runs again, flowop r will be executed from the start. */
  predicate Guarded(fs: seq<Flowop>, m: Machine, k: nat, r: nat)
    requires r < k < |fs|
  {
    MustReset(fs[r]) && (m.j > k || m.j < r || (m.j == r && m.i == 0))
  }

  /** Flowop k does not run again. */
  predicate Over(w: Work, m: Machine, k: nat) { m.j > k && m.it + 1 >= w.iter }

  ghost predicate Cared(w: Work, m: Machine, k: nat)
    requires k < |m.ptrs| == |w.fs|
  {
    || (Live(w.fs, m, k) && (Protected(w.fs, k) ==> Deep(w.fs, m, k) || w.iter <= 1))
    || Over(w, m, k)
    || exists r :: 0 <= r < k && Guarded(w.fs, m, k, r)
  }

  ghost predicate Inv(w: Work, m: Machine) {
    && |m.ptrs| == |w.fs| && WellFormed(m) && m.j <= |w.fs|
    && (m.running && m.j < |w.fs| ==> m.i <= w.fs[m.j].io.count)
    && (m.running ==> forall k :: 0 <= k < |w.fs| && Active(w.fs[k]) ==> Cared(w, m, k))
  }

  ghost predicate Harmless(w: Work) { w.iter <= 1 || Safe(w.fs) }

  lemma FindFits(m: Machine, f: Flowop)
    requires WellFormed(m)
    ensures var p := Find(m.pool, m.cache, Id(f)); p != Null ==> p.c in m.pool && Fits(f, p.c.pId)
  {
  }

  lemma ExecuteKeepsForm(f: Flowop, m: Machine, ch: Choice)
    requires WellFormed(m) && m.j < |m.ptrs|
    ensures WellFormed(Execute(f, m, ch)) && |Execute(f, m, ch).ptrs| == |m.ptrs|
  {
    if Closes(f) {
      PopKeeps(m.pool, Id(f));
    }
  }

  /** The cases of a call of flowop j that goes on, for the pointer of flowop k. */
  ghost predicate StaysDeep(fs: seq<Flowop>, m: Machine, e: Machine, k: nat) {
    k < |m.ptrs| == |e.ptrs| == |fs| && m.j < |fs| &&
    (e.ptrs[k] == Null ||
     (e.ptrs[k].c in e.pool && Fits(fs[k], e.ptrs[k].c.pId)
      && (Deep(fs, m, k) ==> Depth(e.pool, e.ptrs[k].c) >= Net(fs, k, e.ptrs[k].c.pId, m.j, m.i + 1))))
  }

  lemma UseStaysDeep(fs: seq<Flowop>, m: Machine, ch: Choice, k: nat)
    requires WellFormed(m) && k < |m.ptrs| == |fs| && m.j < |fs| && Uses(fs[m.j]) && Live(fs, m, k)
    ensures StaysDeep(fs, m, Execute(fs[m.j], m, ch), k)
  {
    FindFits(m, fs[m.j]);
  }

  lemma OpenStaysDeep(fs: seq<Flowop>, m: Machine, ch: Choice, k: nat)
    requires WellFormed(m) && k < |m.ptrs| == |fs| && m.j < |fs| && Opens(fs[m.j]) && Live(fs, m, k)
    requires ch.ok || fs[m.j].CanFail()
    ensures StaysDeep(fs, m, Execute(fs[m.j], m, ch), k)
  {
    if m.ptrs[k] != Null && ch.ok {
      DepthPush(Conn(m.born, Id(fs[m.j])), m.pool, m.ptrs[k].c);
    }
  }

  lemma OtherStaysDeep(fs: seq<Flowop>, m: Machine, ch: Choice, k: nat)
    requires k < |m.ptrs| == |fs| && m.j < |fs| && Live(fs, m, k)
    requires !Uses(fs[m.j]) && !Opens(fs[m.j]) && !Closes(fs[m.j])
    ensures StaysDeep(fs, m, Execute(fs[m.j], m, ch), k)
  {
  }

  /** All closes of a flowop that is not exposed leave the connection. */
  lemma UnexposedCovers(fs: seq<Flowop>, k: nat, j: nat, i: nat)
    requires k < j < |fs| && Active(fs[k]) && Closes(fs[j]) && Fits(fs[k], Id(fs[j])) && Protected(fs, k)
    requires !Exposed(fs, k, j) && i < fs[j].io.count
    ensures Net(fs, k, Id(fs[j]), j, i) > 0
  {
  }

  lemma ClosedDepth(fs: seq<Flowop>, m: Machine, c: Conn, k: nat)
    requires WellFormed(m) && k < m.j < |fs| && Closes(fs[m.j]) && m.i < fs[m.j].io.count && c in m.pool
    requires Active(fs[k]) && Fits(fs[k], c.pId) && Protected(fs, k) && Safe(fs)
    requires Depth(m.pool, c) >= Net(fs, k, c.pId, m.j, m.i)
    ensures var pool' := Pop(m.pool, Id(fs[m.j]));
            c in pool' && Depth(pool', c) >= Net(fs, k, c.pId, m.j, m.i + 1)
  {
    var id := Id(fs[m.j]);
    DepthPop(m.pool, id, c);
    if c.pId == id {
      assert !Exposed(fs, k, m.j);
      UnexposedCovers(fs, k, m.j, m.i);
    }
  }

  lemma CloseStaysDeep(fs: seq<Flowop>, m: Machine, ch: Choice, k: nat)
    requires WellFormed(m) && k < |m.ptrs| == |fs| && m.j < |fs| && Closes(fs[m.j]) && Live(fs, m, k)
    requires m.i < fs[m.j].io.count && Active(fs[k]) && Protected(fs, k) && Safe(fs) && Deep(fs, m, k)
    requires Find(m.pool, m.cache, Id(fs[m.j])) != Null
    ensures StaysDeep(fs, m, Execute(fs[m.j], m, ch), k)
  {
    if k < m.j && m.ptrs[k] != Null {
      ClosedDepth(fs, m, m.ptrs[k].c, k);
    }
  }

  /** A disconnect in front of which k is not protected from looking up again. */
  lemma CloseIsGuarded(w: Work, m: Machine, ch: Choice, k: nat)
    requires WellFormed(m) && k < |m.ptrs| == |w.fs| && m.j < |w.fs| && Closes(w.fs[m.j]) && Live(w.fs, m, k)
    requires GoesOn(w, m, ch) && (w.iter <= 1 || !Protected(w.fs, k))
    ensures Cared(w, CallOf(w, m, ch), k)
  {
    var m' := CallOf(w, m, ch);
    if k < m.j {
      if !Protected(w.fs, k) {
        var r :| 0 <= r < k && MustReset(w.fs[r]);
        assert Guarded(w.fs, m', k, r);
      }
    } else {
      assert m'.ptrs[k] == Null;
    }
  }

  lemma LiveStaysCared(w: Work, m: Machine, ch: Choice, k: nat)
    requires Harmless(w) && Inv(w, m) && m.running && m.j < |w.fs| && m.i < w.fs[m.j].io.count
    requires GoesOn(w, m, ch) && k < |w.fs| && Active(w.fs[k])
    requires Live(w.fs, m, k) && (Protected(w.fs, k) ==> Deep(w.fs, m, k) || w.iter <= 1)
    ensures |CallOf(w, m, ch).ptrs| == |w.fs| && Cared(w, CallOf(w, m, ch), k)
  {
    var f := w.fs[m.j];
    if Uses(f) {
      UseStaysDeep(w.fs, m, ch, k);
    } else if Opens(f) {
      OpenStaysDeep(w.fs, m, ch, k);
    } else if !Closes(f) {
      OtherStaysDeep(w.fs, m, ch, k);
    } else if w.iter <= 1 || !Protected(w.fs, k) {
      CloseIsGuarded(w, m, ch, k);
    } else {
      CloseStaysDeep(w.fs, m, ch, k);
    }
  }

  lemma GuardedStaysCared(w: Work, m: Machine, ch: Choice, k: nat, r: nat)
    requires |m.ptrs| == |w.fs| && m.j < |w.fs| && m.i < w.fs[m.j].io.count && GoesOn(w, m, ch)
    requires r < k < |w.fs| && Guarded(w.fs, m, k, r)
    ensures |CallOf(w, m, ch).ptrs| == |w.fs| && Cared(w, CallOf(w, m, ch), k)
  {
    var m' := CallOf(w, m, ch);
    if m.j == r {
      assert m'.ptrs[k] == Null;
    } else {
      assert Guarded(w.fs, m', k, r);
    }
  }

  lemma CallKeepsInv(w: Work, m: Machine, ch: Choice)
    requires Harmless(w) && Inv(w, m) && m.running && m.j < |w.fs| && m.i < w.fs[m.j].io.count
    ensures Inv(w, CallOf(w, m, ch))
  {
    var f := w.fs[m.j];
    var m' := CallOf(w, m, ch);
    ExecuteKeepsForm(f, m, ch);
    if GoesOn(w, m, ch) {
      forall k | 0 <= k < |w.fs| && Active(w.fs[k])
        ensures Cared(w, m', k)
      {
        if Live(w.fs, m, k) && (Protected(w.fs, k) ==> Deep(w.fs, m, k) || w.iter <= 1) {
          LiveStaysCared(w, m, ch, k);
        } else if !Over(w, m, k) {
          var r :| 0 <= r < k && Guarded(w.fs, m, k, r);
          GuardedStaysCared(w, m, ch, k, r);
        }
      }
    }
  }

  /** Going on to the next flowop, or the next iteration. */
  lemma MoveKeepsInv(w: Work, m: Machine, m': Machine)
    requires Inv(w, m) && m.running
    requires (m.j < |w.fs| && m.i == w.fs[m.j].io.count && m' == m.(j := m.j + 1, i := 0))
          || (m.j == |w.fs| && m.it + 1 < w.iter && m' == m.(it := m.it + 1, j := 0, i := 0))
    ensures Inv(w, m')
  {
    forall k | 0 <= k < |w.fs| && Active(w.fs[k])
      ensures Cared(w, m', k)
    {
      if Live(w.fs, m, k) && (Protected(w.fs, k) ==> Deep(w.fs, m, k) || w.iter <= 1) {
        if m.j < |w.fs| && m.ptrs[k] != Null {
          NetNext(w.fs, k, m.ptrs[k].c.pId, m.j);
        }
      } else if !Over(w, m, k) {
        var r :| 0 <= r < k && Guarded(w.fs, m, k, r);
        assert Guarded(w.fs, m', k, r);
      }
    }
  }

  /** Every step of a harmless transaction, successful or not. */
  lemma StepKeepsInv(w: Work, m: Machine, m': Machine)
    requires Harmless(w) && Inv(w, m) && Step(w, m, m')
    ensures Inv(w, m')
  {
    if m' != m.(running := false) {
      if m.j < |w.fs| && m.i < w.fs[m.j].io.count {
        var ch: Choice :| ch.slot < Pool.STRAND_CONNECTION_CACHE_SIZE && m' == CallOf(w, m, ch);
        CallKeepsInv(w, m, ch);
      } else {
        MoveKeepsInv(w, m, m');
      }
    }
  }

  lemma {:induction false} RunInv(w: Work, run: seq<Machine>, t: nat)
    requires Harmless(w) && IsRun(w, run) && t < |run|
    ensures Inv(w, run[t])
  {
    if t > 0 {
      RunInv(w, run, t - 1);
      assert StepAt(w, run, t - 1);
      StepKeepsInv(w, run[t - 1], run[t]);
    }
  }

  /** In every run of such a transaction, over all iterations and counts, the connection a transfer
      uses is in the pool at that moment: the pointer is live before the call, and it is live, and
      set, when the transfer goes ahead. */
  lemma PointersUsedAreLive(w: Work, run: seq<Machine>, t: nat, ch: Choice)
    requires Harmless(w) && IsRun(w, run) && t < |run| && Using(w.fs, run[t])
    ensures var m, e := run[t], Execute(w.fs[run[t].j], run[t], ch);
            && |e.ptrs| == |w.fs| && Live(w.fs, m, m.j) && Live(w.fs, e, m.j)
            && (Returns(w, m, ch) ==> e.ptrs[m.j] != Null)
  {
    RunInv(w, run, t);
    assert Active(w.fs[run[t].j]);
    FindFits(run[t], w.fs[run[t].j]);
  }

  // ---- In others, some run uses a destroyed connection ----

  /** Opening adds a connection in front of others with its id. */
  predicate MustOpen(f: Flowop) { f.io.count > 0 && Opens(f) && !f.CanFail() }
  predicate MustClose(f: Flowop) { f.io.count > 0 && Closes(f) }

  /** Nothing is closed from `a` up to `b`, both excluded. */
  ghost predicate NoClose(fs: seq<Flowop>, a: nat, b: nat) {
    forall s :: a < s < b && s < |fs| ==> !MustClose(fs[s])
  }

  /** No id is opened while the cache may hold a connection with it, and none is closed through the
      id -1: then a disconnect closes what it unlinks. */
  ghost predicate Orderly(fs: seq<Flowop>) {
    && (forall a, b :: 0 <= a < b < |fs| && Active(fs[a]) && MustOpen(fs[b]) && Fits(fs[a], Id(fs[b])) ==>
          !NoClose(fs, a, b))
    && (forall d :: 0 <= d < |fs| && MustClose(fs[d]) ==> Id(fs[d]) != ANY)
  }

  /** The connections with the id, `c` aside. */
  function Spare(pool: seq<Conn>, id: int, c: Conn): nat {
    if pool == [] then 0 else Spare(pool[1..], id, c) + (if pool[0].pId == id && pool[0] != c then 1 else 0)
  }

  lemma {:induction false} SpareSplit(a: seq<Conn>, b: seq<Conn>, id: int, c: Conn)
    ensures Spare(a + b, id, c) == Spare(a, id, c) + Spare(b, id, c)
  {
    if a == [] {
      assert a + b == b;
    } else {
      assert (a + b)[1..] == a[1..] + b;
      SpareSplit(a[1..], b, id, c);
    }
  }

  lemma {:induction false} SpareFound(pool: seq<Conn>, id: int, c: Conn)
    requires Spare(pool, id, c) > 0
    ensures FirstOf(pool, id) != Null
  {
    if pool[0].pId != id {
      SpareFound(pool[1..], id, c);
    }
  }

  lemma {:induction false} SparePop(pool: seq<Conn>, popped: int, id: int, c: Conn)
    ensures Spare(Pop(pool, popped), id, c) + 1 >= Spare(pool, id, c)
  {
    if pool != [] && pool[0].pId != popped {
      SparePop(pool[1..], popped, id, c);
      assert ([pool[0]] + Pop(pool[1..], popped))[1..] == Pop(pool[1..], popped);
    }
  }

  /** The transaction is in full swing, and for every id more than `n` connections can be spared. */
  ghost predicate Stocked(fs: seq<Flowop>, m: Machine, c: Conn, n: nat) {
    && m.running && |m.ptrs| == |fs| && WellFormed(m) && c.obj < m.born
    && forall k :: 0 <= k < |fs| ==> Spare(m.pool, Id(fs[k]), c) > n
  }

  /** What is cached would be found in the pool too, and no connection of the pool is closed. */
  ghost predicate Tidy(m: Machine) {
    && (forall x :: x in m.cache ==> FirstOf(m.pool, x.pId) == To(x))
    && (forall x :: x in m.pool ==> x !in m.shut)
  }

  /** The calls of flowop j are not refused, and leave things tidy. */
  ghost predicate Ready(f: Flowop, m: Machine)
    requires m.j < |m.ptrs|
  {
    && Tidy(m)
    && (Active(f) ==> m.ptrs[m.j] == Null || m.ptrs[m.j].c in m.pool)
    && (MustOpen(f) ==> forall x :: x in m.cache ==> x.pId != Id(f))
    && (MustClose(f) ==> Id(f) != ANY)
  }

  /** If `c` is in the pool now it was before, and its depth has changed by `gain`. */
  ghost predicate Moved(m: Machine, m': Machine, c: Conn, gain: int) {
    c in m'.pool ==> c in m.pool && Depth(m'.pool, c) == Depth(m.pool, c) + gain
  }

  /** What `n` calls of a flowop leave alone. */
  ghost predicate LeftAlone(fs: seq<Flowop>, m: Machine, m': Machine, n: nat)
    requires m.j < |fs| == |m.ptrs|
  {
    && |m'.ptrs| == |fs| && m'.it == m.it
    && (forall k :: 0 <= k < |fs| && k != m.j ==>
          m'.ptrs[k] == m.ptrs[k] || (k > m.j && m'.ptrs[k] == Null && MustReset(fs[m.j])))
    && (Uses(fs[m.j]) && m.ptrs[m.j] != Null ==> m'.ptrs[m.j] == m.ptrs[m.j])
    && (!MustReset(fs[m.j]) ==> m'.pool == m.pool)
    && (!MustReset(fs[m.j]) && m.cache != [] ==> m'.cache != [] && m'.cache[0] == m.cache[0])
    && (forall x :: x in m'.cache ==> x in m.cache || (Uses(fs[m.j]) && n > 0 && x.pId == Id(fs[m.j])))
    && (Closes(fs[m.j]) && n > 0 ==> m'.cache == [])
  }

  /** The answers under which the transaction goes on and opens no more than it must; the slot of the
      cache that nobody reads is replaced. */
  function Answer(f: Flowop): Choice {
    Choice(Pool.STRAND_CONNECTION_CACHE_SIZE - 1, !(Opens(f) && f.CanFail()))
  }

  /** One such call. */
  ghost predicate Called(w: Work, m: Machine, m': Machine, c: Conn, n: nat) {
    && m.j < |w.fs| == |m.ptrs| && Step(w, m, m') && Stocked(w.fs, m', c, n) && m'.j == m.j && m'.i == m.i + 1
    && LeftAlone(w.fs, m, m', 1) && Moved(m, m', c, Gain(w.fs[m.j], c.pId, 1))
  }

  /** What the pool is after such a call. */
  function PoolAfter(f: Flowop, m: Machine): seq<Conn> {
    if Opens(f) && !f.CanFail() then [Conn(m.born, Id(f))] + m.pool
    else if Closes(f) then Pop(m.pool, Id(f)) else m.pool
  }

  lemma AnswerGoesOn(w: Work, m: Machine, c: Conn)
    requires Stocked(w.fs, m, c, 0) && m.j < |w.fs| && m.i < w.fs[m.j].io.count
    requires w.refuses ==> Ready(w.fs[m.j], m)
    ensures GoesOn(w, m, Answer(w.fs[m.j]))
  {
    SpareFound(m.pool, Id(w.fs[m.j]), c);
    FindFits(m, w.fs[m.j]);
  }

  lemma AnswerPool(w: Work, m: Machine, c: Conn)
    requires Stocked(w.fs, m, c, 0) && m.j < |w.fs|
    ensures CallOf(w, m, Answer(w.fs[m.j])).pool == PoolAfter(w.fs[m.j], m)
  {
    SpareFound(m.pool, Id(w.fs[m.j]), c);
  }

  lemma AnswerSpares(f: Flowop, m: Machine, id: int, c: Conn)
    ensures Spare(PoolAfter(f, m), id, c) + (if Closes(f) then 1 else 0) >= Spare(m.pool, id, c)
  {
    if Opens(f) && !f.CanFail() {
      assert ([Conn(m.born, Id(f))] + m.pool)[1..] == m.pool;
    } else if Closes(f) {
      SparePop(m.pool, Id(f), id, c);
    }
  }

  lemma AnswerMoves(w: Work, m: Machine, c: Conn)
    requires Stocked(w.fs, m, c, 0) && m.j < |w.fs|
    ensures Moved(m, CallOf(w, m, Answer(w.fs[m.j])), c, Gain(w.fs[m.j], c.pId, 1))
  {
    var f := w.fs[m.j];
    AnswerPool(w, m, c);
    if Opens(f) && !f.CanFail() {
      DepthPush(Conn(m.born, Id(f)), m.pool, c);
    } else if Closes(f) {
      DepthPop(m.pool, Id(f), c);
    }
  }

  lemma AnswerLeavesAlone(w: Work, m: Machine, c: Conn)
    requires Stocked(w.fs, m, c, 0) && m.j < |w.fs| && m.i < w.fs[m.j].io.count
    ensures LeftAlone(w.fs, m, CallOf(w, m, Answer(w.fs[m.j])), 1)
  {
    SpareFound(m.pool, Id(w.fs[m.j]), c);
    AnswerPool(w, m, c);
  }

  lemma AnswerStocked(w: Work, m: Machine, c: Conn, n: nat)
    requires Stocked(w.fs, m, c, n + 1) && m.j < |w.fs| && GoesOn(w, m, Answer(w.fs[m.j]))
    ensures Stocked(w.fs, CallOf(w, m, Answer(w.fs[m.j])), c, n)
  {
    var f := w.fs[m.j];
    AnswerPool(w, m, c);
    ExecuteKeepsForm(f, m, Answer(f));
    forall k | 0 <= k < |w.fs|
      ensures Spare(PoolAfter(f, m), Id(w.fs[k]), c) > n
    {
      AnswerSpares(f, m, Id(w.fs[k]), c);
    }
  }

  lemma AnswerIsStep(w: Work, m: Machine)
    requires m.running && m.j < |w.fs| == |m.ptrs| && m.i < w.fs[m.j].io.count
    ensures Step(w, m, CallOf(w, m, Answer(w.fs[m.j])))
  {
  }

  lemma Call(w: Work, m: Machine, c: Conn, n: nat) returns (m': Machine)
    requires Stocked(w.fs, m, c, n + 1) && m.j < |w.fs| && m.i < w.fs[m.j].io.count
    requires w.refuses ==> Ready(w.fs[m.j], m)
    ensures Called(w, m, m', c, n) && (w.refuses ==> Ready(w.fs[m.j], m'))
    ensures Uses(w.fs[m.j]) && m.ptrs[m.j] == Null && m.cache != [] && m.cache[0] == c && Fits(w.fs[m.j], c.pId) ==>
              m'.ptrs[m.j] == To(c)
  {
    m' := CallOf(w, m, Answer(w.fs[m.j]));
    AnswerGoesOn(w, m, c);
    AnswerIsStep(w, m);
    AnswerStocked(w, m, c, n);
    AnswerLeavesAlone(w, m, c);
    AnswerMoves(w, m, c);
    if w.refuses {
      StaysReady(w, m, c);
    }
  }

  // ---- With protocols that refuse, in an orderly transaction ----

  /** The first match of an id stays the first when connections with other ids come and go. */
  lemma {:induction false} FirstPop(pool: seq<Conn>, popped: int, id: int)
    requires popped != id
    ensures FirstOf(Pop(pool, popped), id) == FirstOf(pool, id)
  {
    if pool != [] && pool[0].pId != popped {
      FirstPop(pool[1..], popped, id);
      assert ([pool[0]] + Pop(pool[1..], popped))[1..] == Pop(pool[1..], popped);
    }
  }

  lemma {:induction false} FirstIsGone(pool: seq<Conn>, id: int)
    requires Distinct(pool) && FirstOf(pool, id) != Null
    ensures FirstOf(pool, id).c !in Pop(pool, id)
  {
    if pool[0].pId != id {
      FirstIsGone(pool[1..], id);
    }
  }

  /** In a tidy pool the cache answers with the first match. */
  lemma TidyFinds(m: Machine, id: int)
    requires Tidy(m) && id != ANY
    ensures Find(m.pool, m.cache, id) == FirstOf(m.pool, id)
  {
  }

  lemma UseStaysTidy(m: Machine, f: Flowop, slot: nat)
    requires WellFormed(m) && Tidy(m) && m.j < |m.ptrs|
    ensures Tidy(Use(f, m, slot))
  {
    var id := Id(f);
    forall x | x in CacheThen(m.pool, m.cache, id, slot)
      ensures FirstOf(m.pool, x.pId) == To(x)
    {
      assert x in m.cache || FirstOf(m.pool, id) == To(x);
    }
  }

  lemma UseStaysReady(w: Work, m: Machine, ch: Choice)
    requires WellFormed(m) && |m.ptrs| == |w.fs| && m.j < |w.fs| && Uses(w.fs[m.j]) && Ready(w.fs[m.j], m)
    ensures Ready(w.fs[m.j], CallOf(w, m, ch))
  {
    FindFits(m, w.fs[m.j]);
    UseStaysTidy(m, w.fs[m.j], ch.slot);
  }

  lemma FirstPush(x: Conn, pool: seq<Conn>, id: int)
    requires x.pId != id
    ensures FirstOf([x] + pool, id) == FirstOf(pool, id)
  {
    assert ([x] + pool)[1..] == pool;
  }

  lemma OpenStaysTidy(m: Machine, f: Flowop)
    requires WellFormed(m) && Tidy(m) && forall x :: x in m.cache ==> x.pId != Id(f)
    ensures Tidy(Open(f, m))
  {
    forall x | x in m.cache
      ensures FirstOf(Open(f, m).pool, x.pId) == To(x)
    {
      FirstPush(Conn(m.born, Id(f)), m.pool, x.pId);
    }
  }

  lemma OpenStaysReady(w: Work, m: Machine, ch: Choice)
    requires WellFormed(m) && |m.ptrs| == |w.fs| && m.j < |w.fs| && Opens(w.fs[m.j]) && Ready(w.fs[m.j], m)
    requires MustOpen(w.fs[m.j]) || !ch.ok
    ensures Ready(w.fs[m.j], CallOf(w, m, ch))
  {
    if ch.ok {
      OpenStaysTidy(m, w.fs[m.j]);
    }
  }

  lemma CloseStaysReady(w: Work, m: Machine, ch: Choice)
    requires WellFormed(m) && |m.ptrs| == |w.fs| && m.j < |w.fs| && MustClose(w.fs[m.j]) && Ready(w.fs[m.j], m)
    requires FirstOf(m.pool, Id(w.fs[m.j])) != Null
    ensures Ready(w.fs[m.j], CallOf(w, m, ch))
  {
    var id := Id(w.fs[m.j]);
    TidyFinds(m, id);
    FirstIsGone(m.pool, id);
    PopKeeps(m.pool, id);
  }

  lemma StaysReady(w: Work, m: Machine, c: Conn)
    requires Stocked(w.fs, m, c, 0) && m.j < |w.fs| && m.i < w.fs[m.j].io.count && Ready(w.fs[m.j], m)
    ensures Ready(w.fs[m.j], CallOf(w, m, Answer(w.fs[m.j])))
  {
    var f := w.fs[m.j];
    if Uses(f) {
      UseStaysReady(w, m, Answer(f));
    } else if Opens(f) {
      OpenStaysReady(w, m, Answer(f));
    } else if Closes(f) {
      SpareFound(m.pool, Id(f), c);
      CloseStaysReady(w, m, Answer(f));
    }
  }

  // ---- The run ----

  lemma Extend(w: Work, run: seq<Machine>, m: Machine)
    requires IsRun(w, run) && Step(w, run[|run| - 1], m)
    ensures IsRun(w, run + [m])
  {
    forall t | 0 <= t < |run|
      ensures StepAt(w, run + [m], t)
    {
      assert t < |run| - 1 ==> StepAt(w, run, t);
    }
  }

  function Last(run: seq<Machine>): Machine
    requires run != []
  {
    run[|run| - 1]
  }

  /** The calls a flowop still has to make. */
  lemma {:induction false} MoreCalls(w: Work, run: seq<Machine>, c: Conn, n: nat) returns (run': seq<Machine>)
    requires IsRun(w, run) && Last(run).j < |w.fs| && Last(run).i <= w.fs[Last(run).j].io.count
    requires Stocked(w.fs, Last(run), c, n + (w.fs[Last(run).j].io.count - Last(run).i))
    requires w.refuses ==> Ready(w.fs[Last(run).j], Last(run))
    ensures IsRun(w, run')
    ensures var m, m' := Last(run), Last(run');
            var left := w.fs[m.j].io.count - m.i;
            && Stocked(w.fs, m', c, n) && m'.j == m.j + 1 && m'.i == 0 && (w.refuses ==> Tidy(m'))
            && LeftAlone(w.fs, m, m', left) && Moved(m, m', c, Gain(w.fs[m.j], c.pId, left))
    decreases w.fs[Last(run).j].io.count - Last(run).i
  {
    var m := Last(run);
    var left := w.fs[m.j].io.count - m.i;
    if left == 0 {
      run' := run + [m.(j := m.j + 1, i := 0)];
      Extend(w, run, m.(j := m.j + 1, i := 0));
    } else {
      var e := Call(w, m, c, n + (left - 1));
      Extend(w, run, e);
      run' := MoreCalls(w, run + [e], c, n);
      LeftAloneAll(w.fs, m, e, Last(run'), left - 1);
    }
  }

  lemma LeftAloneAll(fs: seq<Flowop>, m: Machine, e: Machine, m': Machine, n: nat)
    requires m.j < |fs| == |m.ptrs| && e.j == m.j && LeftAlone(fs, m, e, 1) && LeftAlone(fs, e, m', n)
    ensures LeftAlone(fs, m, m', n + 1)
  {
    assert m'.cache != [] ==> m'.cache[0] in m'.cache;
  }

  /** What is cached with this id has been looked up by a flowop before `j`, and nothing closed since;
      or it is `c`, cached in the beginning. */
  ghost predicate Sourced(fs: seq<Flowop>, j: nat, x: Conn, c: Conn, u: nat) {
    || (x == c && j <= u)
    || exists a :: 0 <= a < j && a < |fs| && Active(fs[a]) && Fits(fs[a], x.pId) && NoClose(fs, a, j)
  }

  /** In the first iteration the flowops to come have no pointers. */
  ghost predicate InOrder(w: Work, m: Machine, c: Conn, u: nat) {
    && |m.ptrs| == |w.fs| && (forall k :: m.j <= k < |w.fs| ==> m.ptrs[k] == Null)
    && (w.refuses ==> Orderly(w.fs) && Tidy(m) && forall x :: x in m.cache ==> Sourced(w.fs, m.j, x, c, u))
  }

  /** Flowop u may use `c`, and so may those before and behind it do their work. */
  ghost predicate Target(w: Work, c: Conn, u: nat) {
    u < |w.fs| && Active(w.fs[u]) && Fits(w.fs[u], c.pId) && Protected(w.fs, u)
  }

  lemma InOrderReady(w: Work, m: Machine, c: Conn, u: nat)
    requires Target(w, c, u) && InOrder(w, m, c, u) && w.refuses && m.j < |w.fs|
    ensures Ready(w.fs[m.j], m)
  {
    var f := w.fs[m.j];
    if MustOpen(f) {
      forall x | x in m.cache
        ensures x.pId != Id(f)
      {
        assert Sourced(w.fs, m.j, x, c, u);
      }
    }
  }

  lemma SourcedNext(w: Work, m: Machine, m': Machine, c: Conn, u: nat, x: Conn)
    requires Target(w, c, u) && InOrder(w, m, c, u) && w.refuses && m.j < |w.fs| && m'.j == m.j + 1
    requires LeftAlone(w.fs, m, m', w.fs[m.j].io.count) && x in m'.cache
    ensures Sourced(w.fs, m'.j, x, c, u)
  {
    var f := w.fs[m.j];
    if x !in m.cache {
      assert NoClose(w.fs, m.j, m'.j);
    } else if x == c && m.j == u {
      assert NoClose(w.fs, u, m'.j);
    } else if x != c || m.j > u {
      assert Sourced(w.fs, m.j, x, c, u);
      var a :| 0 <= a < m.j && a < |w.fs| && Active(w.fs[a]) && Fits(w.fs[a], x.pId) && NoClose(w.fs, a, m.j);
      assert NoClose(w.fs, a, m'.j);
    }
  }

  lemma InOrderNext(w: Work, m: Machine, m': Machine, c: Conn, u: nat)
    requires Target(w, c, u) && InOrder(w, m, c, u) && m.j < |w.fs| && m'.j == m.j + 1
    requires LeftAlone(w.fs, m, m', w.fs[m.j].io.count) && (w.refuses ==> Tidy(m'))
    ensures InOrder(w, m', c, u)
  {
    if w.refuses {
      forall x | x in m'.cache
        ensures Sourced(w.fs, m'.j, x, c, u)
      {
        SourcedNext(w, m, m', c, u, x);
      }
    }
  }

  /** A flowop of the first iteration. */
  lemma Flowop1(w: Work, run: seq<Machine>, c: Conn, n: nat, u: nat) returns (run': seq<Machine>)
    requires Target(w, c, u) && IsRun(w, run) && Last(run).j < |w.fs| && Last(run).i == 0
    requires Stocked(w.fs, Last(run), c, n + w.fs[Last(run).j].io.count) && InOrder(w, Last(run), c, u)
    ensures IsRun(w, run')
    ensures var m, m' := Last(run), Last(run');
            && Stocked(w.fs, m', c, n) && InOrder(w, m', c, u) && m'.j == m.j + 1 && m'.i == 0
            && LeftAlone(w.fs, m, m', w.fs[m.j].io.count)
            && Moved(m, m', c, Gain(w.fs[m.j], c.pId, w.fs[m.j].io.count))
  {
    if w.refuses {
      InOrderReady(w, Last(run), c, u);
    }
    run' := MoreCalls(w, run, c, n);
    InOrderNext(w, Last(run), Last(run'), c, u);
  }

  /** Flowop u finds what is cached first. */
  lemma FirstUse(w: Work, run: seq<Machine>, c: Conn, n: nat, u: nat) returns (run': seq<Machine>)
    requires Target(w, c, u) && IsRun(w, run) && Last(run).j == u && Last(run).i == 0
    requires Stocked(w.fs, Last(run), c, n + w.fs[u].io.count) && InOrder(w, Last(run), c, u)
    requires Last(run).cache != [] && Last(run).cache[0] == c
    ensures IsRun(w, run')
    ensures var m, m' := Last(run), Last(run');
            && Stocked(w.fs, m', c, n) && InOrder(w, m', c, u) && m'.it == m.it && m'.j == u + 1 && m'.i == 0
            && m'.pool == m.pool && m'.ptrs[u] == To(c)
  {
    if w.refuses {
      InOrderReady(w, Last(run), c, u);
    }
    var e := Call(w, Last(run), c, n + (w.fs[u].io.count - 1));
    Extend(w, run, e);
    run' := MoreCalls(w, run + [e], c, n);
    InOrderNext(w, Last(run), Last(run'), c, u);
  }

  /** How many calls the flowops from `a` up to `b` make. */
  function Between(fs: seq<Flowop>, a: nat, b: nat): nat
    requires b <= |fs|
  {
    if b <= a then 0 else Between(fs, a, b - 1) + fs[b - 1].io.count
  }

  /** From flowop to flowop up to `b`, in front of u or behind it. */
  lemma {:induction false} Upto(w: Work, run: seq<Machine>, c: Conn, n: nat, u: nat, b: nat)
      returns (run': seq<Machine>)
    requires Target(w, c, u) && IsRun(w, run) && Last(run).j <= b <= |w.fs| && Last(run).i == 0
    requires b <= u || u < Last(run).j
    requires Stocked(w.fs, Last(run), c, n + Between(w.fs, Last(run).j, b)) && InOrder(w, Last(run), c, u)
    ensures IsRun(w, run')
    ensures var m, m' := Last(run), Last(run');
            && Stocked(w.fs, m', c, n) && InOrder(w, m', c, u) && m'.it == m.it && m'.j == b && m'.i == 0
            && m'.ptrs[u] == m.ptrs[u] && Moved(m, m', c, Total(w.fs, c.pId, m.j, b))
            && (b <= u ==> m'.pool == m.pool)
            && (b <= u && m.cache != [] ==> m'.cache != [] && m'.cache[0] == m.cache[0])
    decreases b
  {
    if Last(run).j == b {
      run' := run;
    } else {
      var shorter := Upto(w, run, c, n + w.fs[b - 1].io.count, u, b - 1);
      run' := Flowop1(w, shorter, c, n, u);
    }
  }

  /** A pool of distinct connections: one with the id `id` and, for every id of the transaction, more
      than `n` others. */
  lemma {:induction false} Stock(fs: seq<Flowop>, n: nat, id: int) returns (pool: seq<Conn>)
    ensures pool != [] && pool[0] == Conn(0, id) && forall k :: 0 <= k < |pool| ==> pool[k].obj == k
    ensures forall k :: 0 <= k < |fs| ==> Spare(pool, Id(fs[k]), pool[0]) >= n
  {
    if n == 0 {
      pool := [Conn(0, id)];
    } else {
      var was := Stock(fs, n - 1, id);
      var more := seq(|fs|, k requires 0 <= k < |fs| => Conn(|was| + k, Id(fs[k])));
      pool := was + more;
      forall k | 0 <= k < |fs|
        ensures Spare(pool, Id(fs[k]), pool[0]) >= n
      {
        SpareSplit(was, more, Id(fs[k]), pool[0]);
        SpareSplit(more[..k], more[k..], Id(fs[k]), pool[0]);
        assert more[..k] + more[k..] == more && more[k..][0] == more[k];
      }
    }
  }

  lemma Beginning(w: Work, n: nat, id: int, u: nat) returns (run: seq<Machine>, c: Conn)
    requires w.iter > 0 && (w.refuses ==> Orderly(w.fs))
    ensures IsRun(w, run) && c.pId == id
    ensures var m := Last(run);
            && Stocked(w.fs, m, c, n) && InOrder(w, m, c, u) && m.it == 0 && m.j == 0 && m.i == 0
            && Depth(m.pool, c) == 0 && m.cache == [c]
  {
    var pool := Stock(w.fs, n + 1, id);
    c := pool[0];
    run := [Machine(pool, [c], seq(|w.fs|, _ => Null), {}, |pool|, 0, 0, 0, true)];
  }

  /** In the first iteration flowop u caches a connection, .. */
  lemma UntilCached(w: Work, u: nat, d: nat, n: nat) returns (run: seq<Machine>, c: Conn)
    requires w.iter > 1 && Exposed(w.fs, u, d) && (w.refuses ==> Orderly(w.fs))
    ensures IsRun(w, run) && Target(w, c, u) && c.pId == Id(w.fs[d])
    ensures var m := Last(run);
            && Stocked(w.fs, m, c, n) && InOrder(w, m, c, u) && m.it == 0 && m.j == u + 1 && m.i == 0
            && m.ptrs[u] == To(c) && Depth(m.pool, c) == 0
  {
    var first := n + w.fs[u].io.count;
    run, c := Beginning(w, first + Between(w.fs, 0, u), Id(w.fs[d]), u);
    run := Upto(w, run, c, first, u, u);
    run := FirstUse(w, run, c, n, u);
  }

  /** .. and the disconnects up to d destroy it. */
  lemma FirstIteration(w: Work, u: nat, d: nat, n: nat) returns (run: seq<Machine>, c: Conn)
    requires w.iter > 1 && Exposed(w.fs, u, d) && (w.refuses ==> Orderly(w.fs))
    ensures IsRun(w, run)
    ensures var m := Last(run);
            && Stocked(w.fs, m, c, n) && (w.refuses ==> Tidy(m)) && m.it == 0 && m.j == |w.fs| && m.i == 0
            && m.ptrs[u] == To(c) && c !in m.pool
  {
    var last := n + Between(w.fs, d + 1, |w.fs|);
    run, c := UntilCached(w, u, d, last + Between(w.fs, u + 1, d + 1));
    run := Upto(w, run, c, last, u, d + 1);
    run := Upto(w, run, c, n, u, |w.fs|);
  }

  /** The last machine of the run is about to use a connection that has been destroyed. */
  ghost predicate Dangles(w: Work, run: seq<Machine>) {
    && IsRun(w, run) && Using(w.fs, Last(run))
    && Last(run).ptrs[Last(run).j] != Null && Last(run).ptrs[Last(run).j].c !in Last(run).pool
  }

  /** In the second iteration nothing up to u makes it look up again. */
  lemma {:induction false} Again(w: Work, run: seq<Machine>, c: Conn, n: nat, u: nat, b: nat)
      returns (run': seq<Machine>)
    requires u < |w.fs| && Protected(w.fs, u) && IsRun(w, run) && Last(run).j == 0 && Last(run).i == 0 && b <= u
    requires Stocked(w.fs, Last(run), c, n + Between(w.fs, 0, b)) && (w.refuses ==> Tidy(Last(run)))
    ensures IsRun(w, run')
    ensures Dangles(w, run') ||
            (var m, m' := Last(run), Last(run');
             && Stocked(w.fs, m', c, n) && (w.refuses ==> Tidy(m')) && m'.j == b && m'.i == 0
             && m'.pool == m.pool && m'.ptrs[u] == m.ptrs[u])
    decreases b
  {
    if b == 0 {
      run' := run;
    } else {
      run' := Again(w, run, c, n + w.fs[b - 1].io.count, u, b - 1);
      if !Dangles(w, run') {
        run' := MoreCalls(w, run', c, n);
      }
    }
  }

  /** So some run uses a connection that has been destroyed. */
  lemma ExposedDangles(w: Work, u: nat, d: nat) returns (run: seq<Machine>)
    requires w.iter > 1 && Exposed(w.fs, u, d) && (w.refuses ==> Orderly(w.fs))
    ensures Dangles(w, run)
  {
    var c;
    run, c := FirstIteration(w, u, d, Between(w.fs, 0, u));
    var m := Last(run).(it := 1, j := 0, i := 0);
    Extend(w, run, m);
    run := Again(w, run + [m], c, 0, u, u);
  }

  /** Whatever the protocols, a transaction that is made once, or has no exposed flowop, never uses a
      destroyed connection. */
  lemma HarmlessIsLive(w: Work)
    requires w.iter <= 1 || Safe(w.fs)
    ensures AlwaysLive(w)
  {
    forall run: seq<Machine>, t: nat | IsRun(w, run) && t < |run| && Using(w.fs, run[t])
      ensures Live(w.fs, run[t], run[t].j)
    {
      RunInv(w, run, t);
      assert Active(w.fs[run[t].j]);
    }
  }

  /** And these are all, if transfers go on over closed connections, or nothing is opened while the
      cache may hold a connection with its id. */
  lemma LiveExactly(w: Work)
    requires w.refuses ==> Orderly(w.fs)
    ensures AlwaysLive(w) <==> w.iter <= 1 || Safe(w.fs)
  {
    if w.iter <= 1 || Safe(w.fs) {
      HarmlessIsLive(w);
    } else {
      var u, d :| Exposed(w.fs, u, d);
      var run := ExposedDangles(w, u, d);
      assert Last(run) == run[|run| - 1];
    }
  }
}
