/** The flowops that use, open and close connections, on the strand's own pool and on the pointers
    they remember, in the loops that execute a transaction (src/flowops_library.c, src/execute.c).
    What these loops can do is exactly the runs of the machine of `PointerLiveness`: every execution
    is a run, and every run is an execution. */
module FlowopCalls {
  import opened ByteOrder
  import opened Workorder
  import opened Pool
  import opened PointerLiveness

  // ---- Objects as values ----

  /** `name` tells the connections apart, also those destroyed. */
  ghost function NameOf(name: map<Connection, nat>, c: Connection): Conn
    requires c in name
  {
    Conn(name[c], c.pId)
  }

  ghost predicate Named(name: map<Connection, nat>, cs: seq<Connection>) { forall c :: c in cs ==> c in name }

  ghost predicate Injective(name: map<Connection, nat>) {
    forall c, d :: c in name && d in name && name[c] == name[d] ==> c == d
  }

  lemma NameIsOwn(name: map<Connection, nat>, c: Connection)
    requires Injective(name) && c in name
    ensures forall d :: d in name && NameOf(name, d) == NameOf(name, c) ==> d == c
  {
  }

  ghost function View(name: map<Connection, nat>, cs: seq<Connection>): (v: seq<Conn>)
    requires Named(name, cs)
    ensures |v| == |cs| && forall k :: 0 <= k < |cs| ==> v[k] == NameOf(name, cs[k])
  {
    seq(|cs|, k requires 0 <= k < |cs| => NameOf(name, cs[k]))
  }

  ghost function PtrTo(name: map<Connection, nat>, c: Connection?): Ptr
    requires c != null ==> c in name
  {
    if c == null then Null else To(NameOf(name, c))
  }

  ghost function Pointers(name: map<Connection, nat>, cs: seq<Connection?>): (ps: seq<Ptr>)
    requires forall c :: c in cs && c != null ==> c in name
    ensures |ps| == |cs| && forall k :: 0 <= k < |cs| ==> ps[k] == PtrTo(name, cs[k])
  {
    seq(|cs|, k requires 0 <= k < |cs| => PtrTo(name, cs[k]))
  }

  lemma {:induction false} FirstView(name: map<Connection, nat>, pool: seq<Connection>, id: int)
    requires Named(name, pool)
    ensures FirstOf(View(name, pool), id) == PtrTo(name, Scan(pool, id))
  {
    if pool != [] {
      assert pool[0] in pool && IdsOf(pool)[1..] == IdsOf(pool[1..]) && View(name, pool)[1..] == View(name, pool[1..]);
      if pool[0].pId != id {
        FirstView(name, pool[1..], id);
      }
    }
  }

  lemma HitView(name: map<Connection, nat>, cached: seq<Connection>, id: int)
    requires Named(name, cached)
    ensures CacheHit(View(name, cached), id) != Null <==> Hit(cached, id) < |cached|
    ensures Hit(cached, id) < |cached| ==> CacheHit(View(name, cached), id) == To(NameOf(name, cached[Hit(cached, id)]))
  {
    FirstView(name, cached, id);
  }

  lemma LookupView(name: map<Connection, nat>, pool: seq<Connection>, cached: seq<Connection>, id: int)
    requires Named(name, pool) && Named(name, cached)
    ensures Lookup(pool, cached, id) != null ==> Lookup(pool, cached, id) in name
    ensures Find(View(name, pool), View(name, cached), id) == PtrTo(name, Lookup(pool, cached, id))
  {
    HitView(name, cached, id);
    FirstView(name, pool, id);
  }

  lemma CacheView(name: map<Connection, nat>, pool: seq<Connection>, cached: seq<Connection>, id: int, slot: nat)
    requires Named(name, pool) && Named(name, cached)
    ensures Named(name, CacheAfter(pool, cached, id, slot))
    ensures CacheThen(View(name, pool), View(name, cached), id, slot) == View(name, CacheAfter(pool, cached, id, slot))
  {
    HitView(name, cached, id);
    FirstView(name, pool, id);
  }

  lemma OnlyMembers<T>(s: seq<T>, k: nat)
    requires k < |s|
    ensures forall c :: c in Without(s, k) ==> c in s
  {
  }

  lemma ConsView(name: map<Connection, nat>, c: Connection, cs: seq<Connection>)
    requires c in name && Named(name, cs)
    ensures Named(name, [c] + cs) && View(name, [c] + cs) == [NameOf(name, c)] + View(name, cs)
  {
  }

  lemma WithoutNext<T>(s: seq<T>, k: nat)
    requires k + 1 < |s|
    ensures Without(s, k + 1) == [s[0]] + Without(s[1..], k)
  {
  }

  lemma TailViews(name: map<Connection, nat>, pool: seq<Connection>)
    requires Named(name, pool) && pool != []
    ensures pool[0] in name && Named(name, pool[1..]) && IdsOf(pool)[1..] == IdsOf(pool[1..])
    ensures View(name, pool)[0] == NameOf(name, pool[0]) && View(name, pool)[1..] == View(name, pool[1..])
  {
    assert pool[0] in pool;
  }

  lemma {:induction false} PopView(name: map<Connection, nat>, pool: seq<Connection>, id: int)
    requires Named(name, pool) && FirstWith(IdsOf(pool), id) < |pool|
    ensures Named(name, Without(pool, FirstWith(IdsOf(pool), id)))
    ensures Pop(View(name, pool), id) == View(name, Without(pool, FirstWith(IdsOf(pool), id)))
  {
    TailViews(name, pool);
    if pool[0].pId == id {
      assert Without(pool, 0) == pool[1..];
    } else {
      var k := FirstWith(IdsOf(pool[1..]), id);
      PopView(name, pool[1..], id);
      WithoutNext(pool, k);
      ConsView(name, pool[0], Without(pool[1..], k));
    }
  }

  /** What a disconnect finds and unlinks. */
  lemma RemovedView(name: map<Connection, nat>, pool: seq<Connection>, cached: seq<Connection>, id: int)
    requires Named(name, pool) && Named(name, cached)
    ensures Lookup(pool, cached, id) != null ==> Lookup(pool, cached, id) in name
    ensures Find(View(name, pool), View(name, cached), id) == PtrTo(name, Lookup(pool, cached, id))
    ensures var k := FirstWith(IdsOf(pool), id);
            && (FirstOf(View(name, pool), id) == Null <==> k == |pool|)
            && (k < |pool| ==>
                  Named(name, Without(pool, k)) && View(name, Without(pool, k)) == Pop(View(name, pool), id))
  {
    LookupView(name, pool, cached, id);
    FirstView(name, pool, id);
    if FirstWith(IdsOf(pool), id) < |pool| {
      PopView(name, pool, id);
    }
  }

  function Unlinked(m: Machine, id: int): Machine {
    if FirstOf(m.pool, id) == Null then m else m.(pool := Pop(m.pool, id), cache := [])
  }

  /** More names change nothing for those who had one. */
  lemma SameView(name: map<Connection, nat>, name': map<Connection, nat>, cs: seq<Connection>)
    requires Named(name, cs) && forall c :: c in name ==> c in name' && name'[c] == name[c]
    ensures Named(name', cs) && View(name', cs) == View(name, cs)
  {
  }

  lemma DisconnectActs(w: Work, m: Machine, ch: Choice)
    requires m.j < |w.fs| == |m.ptrs| && Closes(w.fs[m.j])
    ensures var f := w.fs[m.j];
            var found := Find(m.pool, m.cache, Id(f));
            && Execute(f, m, ch) == (if found != Null then Close(f, m, found.c) else m)
            && GoesOn(w, m, ch) == (found != Null && (ch.ok || f.CanFail()))
  {
  }

  // ---- The loops ----

  /** The loop at the end of flowop_connect, flowop_accept and flowop_disconnect. */
  method NullFrom(a: array<Connection?>, j: nat)
    requires j <= a.Length
    modifies a
    ensures forall n :: 0 <= n < a.Length ==> a[n] == if j <= n then null else old(a[n])
  {
    for k := j to a.Length
      invariant forall n :: 0 <= n < a.Length ==> a[n] == if j <= n < k then null else old(a[n])
    {
      a[k] := null;
    }
  }

  // ---- Where the answers lead ----

  /** A machine at a time. */
  datatype Place = Place(m: Machine, time: nat)

  /** The next step of the loops: a call takes the next answer, unless there is a signal. */
  function Tick(w: Work, answers: nat -> Choice, signals: nat -> bool, p: Place): Place {
    var m := p.m;
    if !m.running || |m.ptrs| != |w.fs| then p
    else if m.j < |w.fs| && m.i < w.fs[m.j].io.count then
      Place(if signals(p.time + 1) then m.(running := false) else CallOf(w, m, answers(p.time + 1)), p.time + 1)
    else if m.j < |w.fs| then Place(m.(j := m.j + 1, i := 0), p.time)
    else if m.it + 1 < w.iter then Place(m.(it := m.it + 1, j := 0, i := 0), p.time)
    else p
  }

  function Ticks(w: Work, answers: nat -> Choice, signals: nat -> bool, p: Place, n: nat): Place {
    if n == 0 then p else Tick(w, answers, signals, Ticks(w, answers, signals, p, n - 1))
  }

  /** `path` goes where the answers lead. */
  ghost predicate Follows(w: Work, answers: nat -> Choice, signals: nat -> bool, path: nat -> Place) {
    forall n: nat {:trigger Tick(w, answers, signals, path(n))} :: path(n + 1) == Tick(w, answers, signals, path(n))
  }

  lemma TickCalls(w: Work, answers: nat -> Choice, signals: nat -> bool, path: nat -> Place, n: nat, m: Machine,
                  time: nat)
    requires Follows(w, answers, signals, path) && path(n) == Place(m, time)
    requires m.running && m.j < |w.fs| == |m.ptrs| && m.i < w.fs[m.j].io.count
    ensures path(n + 1) == Place(if signals(time + 1) then m.(running := false) else CallOf(w, m, answers(time + 1)),
                                 time + 1)
  {
    assert path(n + 1) == Tick(w, answers, signals, path(n));
  }

  lemma TickMoves(w: Work, answers: nat -> Choice, signals: nat -> bool, path: nat -> Place, n: nat, m: Machine,
                  time: nat)
    requires Follows(w, answers, signals, path) && path(n) == Place(m, time) && m.running && m.j <= |w.fs| == |m.ptrs|
    requires if m.j < |w.fs| then m.i == w.fs[m.j].io.count else m.it + 1 < w.iter
    ensures path(n + 1) == Place(if m.j < |w.fs| then m.(j := m.j + 1, i := 0) else m.(it := m.it + 1, j := 0, i := 0),
                                 time)
  {
    assert path(n + 1) == Tick(w, answers, signals, path(n));
  }

  lemma TicksFollow(w: Work, answers: nat -> Choice, signals: nat -> bool, from: Place) returns (path: nat -> Place)
    ensures Follows(w, answers, signals, path)
    ensures forall n: nat :: path(n) == Ticks(w, answers, signals, from, n)
  {
    path := (n: nat) => Ticks(w, answers, signals, from, n);
  }

  /** The next step of the loops stops them: by a signal, or because the call does not go on. */
  predicate Stops(w: Work, answers: nat -> Choice, signals: nat -> bool, p: Place) {
    && p.m.running && |p.m.ptrs| == |w.fs| && p.m.j < |w.fs| && p.m.i < w.fs[p.m.j].io.count
    && (signals(p.time + 1) || !GoesOn(w, p.m, answers(p.time + 1)))
  }

  lemma TickStops(w: Work, answers: nat -> Choice, signals: nat -> bool, p: Place)
    requires p.m.running
    ensures !Tick(w, answers, signals, p).m.running <==> Stops(w, answers, signals, p)
  {
  }

  /** Nothing else keeps the loops from making all iterations. */
  lemma {:induction false} OnlyStopped(w: Work, answers: nat -> Choice, signals: nat -> bool, from: Place, n: nat)
    requires from.m.running && !Ticks(w, answers, signals, from, n).m.running
    ensures exists k :: 0 <= k < n && Stops(w, answers, signals, Ticks(w, answers, signals, from, k))
  {
    var p := Ticks(w, answers, signals, from, n - 1);
    if p.m.running {
      TickStops(w, answers, signals, p);
    } else {
      OnlyStopped(w, answers, signals, from, n - 1);
    }
  }

  /** Every connection that is used was in the pool at that moment. */
  ghost predicate AllLive(w: Work, run: seq<Machine>) {
    forall t: nat :: t < |run| && Using(w.fs, run[t]) ==> Live(w.fs, run[t], run[t].j)
  }

  /** A strand executing a transaction; `connection[k]` is the pointer flowop k remembers, and it, j and
      i are the variables of the loops. */
  class Runner {
    const w: Work
    const strand: Strand
    const connection: array<Connection?>
    var it: nat
    var j: nat
    var i: nat
    var running: bool
    ghost var name: map<Connection, nat>
    ghost var shut: set<Conn>
    ghost var born: nat
    ghost var run: seq<Machine>

    /** Every connection has a name, and no two have the same. */
    ghost predicate ObjectsFit()
      reads this, strand, strand.ccache, strand.pool, connection
    {
      && strand.Valid() && connection.Length == |w.fs| && connection != strand.ccache
      && Named(name, strand.pool) && (forall c :: c in connection[..] && c != null ==> c in name)
      && Injective(name) && (forall c :: c in name ==> name[c] < born)
      && (forall x :: x in shut ==> x.obj < born)
    }

    /** Those in `shut` are the closed ones. */
    ghost predicate FlagsFit()
      reads this, name.Keys
    {
      forall c :: c in name ==> (NameOf(name, c) in shut <==> !c.connected)
    }

    ghost predicate NamesFit()
      reads this, strand, strand.ccache, strand.pool, connection, name.Keys
    {
      ObjectsFit() && FlagsFit()
    }

    lemma CachedNamed()
      requires ObjectsFit()
      ensures Named(name, strand.Cached())
    {
    }

    /** The state of the machine. */
    ghost function State(): (m: Machine)
      requires ObjectsFit()
      reads this, strand, strand.ccache, strand.pool, connection
      ensures |m.ptrs| == |w.fs| && m.j == j && m.i == i && m.it == it && m.running == running
    {
      CachedNamed();
      Machine(View(name, strand.pool), View(name, strand.Cached()), Pointers(name, connection[..]), shut, born,
              it, j, i, running)
    }

    ghost predicate Valid()
      reads this, strand, strand.ccache, strand.pool, connection, name.Keys
    {
      NamesFit() && IsRun(w, run) && Last(run) == State()
    }

    constructor (w: Work, strand: Strand, ghost name: map<Connection, nat>, ghost shut: set<Conn>, ghost born: nat)
      requires strand.Valid() && Named(name, strand.pool) && Injective(name) && forall c :: c in name ==> name[c] < born
      requires forall c :: c in name ==> (NameOf(name, c) in shut <==> !c.connected)
      requires forall x :: x in shut ==> x.obj < born
      ensures NamesFit() && this.w == w && this.strand == strand && this.name == name && this.born == born
      ensures this.shut == shut
      ensures it == j == i == 0 && running == (w.iter > 0) && fresh(connection)
      ensures forall k :: 0 <= k < |w.fs| ==> connection[k] == null
    {
      this.w, this.strand, this.name, this.shut, this.born := w, strand, name, shut, born;
      connection := new Connection?[|w.fs|](_ => null);
      it, j, i, running := 0, 0, 0, w.iter > 0;
      run := [];
    }

    /** strand_get_connection, in terms of the values. */
    method Get(id: int, slot: nat) returns (c: Connection?)
      requires NamesFit() && slot < STRAND_CONNECTION_CACHE_SIZE
      modifies strand`ccacheSize, strand.ccache
      ensures NamesFit() && strand.pool == old(strand.pool) && connection[..] == old(connection[..])
      ensures c != null ==> c in strand.pool && c in name
      ensures PtrTo(name, c) == Find(old(State()).pool, old(State()).cache, id)
      ensures State().cache == CacheThen(old(State()).pool, old(State()).cache, id, slot)
    {
      ghost var pool, cached := strand.pool, strand.Cached();
      CachedNamed();
      LookupView(name, pool, cached, id);
      CacheView(name, pool, cached, id, slot);
      LookupIsLive(pool, cached, id);
      c := strand.GetConnection(id, slot);
      CachedNamed();
    }

    /** Flowop j remembers `c`. */
    method Remember(c: Connection?)
      requires NamesFit() && j < |w.fs| && (c != null ==> c in name)
      modifies connection
      ensures NamesFit() && State() == old(State()).(ptrs := old(State()).ptrs[j := PtrTo(name, c)])
    {
      ghost var was := connection[..];
      connection[j] := c;
      assert connection[..] == was[j := c];
      CachedNamed();
    }

    /** How a transfer finds its connection. */
    method FindConnection(slot: nat)
      requires NamesFit() && j < |w.fs| && Uses(w.fs[j]) && slot < STRAND_CONNECTION_CACHE_SIZE
      modifies strand`ccacheSize, strand.ccache, connection
      ensures NamesFit() && State() == Use(w.fs[j], old(State()), slot)
    {
      if connection[j] == null {
        var c := Get(Id(w.fs[j]), slot);
        Remember(c);
      }
    }

    /** flowop_rw as far as connections go; `ok` is whether the kernel does its part. */
    method FlowopRw(slot: nat, ok: bool) returns (ret: bool)
      requires NamesFit() && j < |w.fs| && Uses(w.fs[j]) && slot < STRAND_CONNECTION_CACHE_SIZE
      modifies strand`ccacheSize, strand.ccache, connection
      ensures NamesFit() && State() == Use(w.fs[j], old(State()), slot)
      ensures ret == (ok && Works(w, old(State()), State().ptrs[j]))
    {
      FindConnection(slot);
      ret := false;
      if connection[j] != null {
        assert connection[j] in connection[..];
        ret := ok && (w.refuses ==> connection[j].connected);
      }
    }

    method ForgetFrom()
      requires NamesFit() && j <= |w.fs|
      modifies connection
      ensures NamesFit() && State() == old(State()).(ptrs := Forget(old(State()).ptrs, j))
    {
      ghost var m := State();
      NullFrom(connection, j);
      assert forall c :: c in connection[..] && c != null ==> c in old(connection[..]);
      CachedNamed();
      assert State().ptrs == Forget(m.ptrs, j);
    }

    /** The new connection gets a name nobody had. */
    ghost method Baptise(p: Connection)
      requires NamesFit() && p !in name && p.connected
      modifies this`name, this`born
      ensures name == old(name)[p := old(born)] && born == old(born) + 1 && NamesFit()
      ensures State() == old(State()).(born := old(born) + 1)
    {
      ghost var was, m := name, State();
      name, born := name[p := born], born + 1;
      CachedNamed();
      SameView(was, name, strand.pool);
      SameView(was, name, strand.Cached());
      assert State().ptrs == m.ptrs;
    }

    /** strand_add_connection, in terms of the values. */
    method Add(p: Connection)
      requires NamesFit() && p in name && p !in strand.pool && p.prev == null
      modifies strand`cpool, strand`pool, p`next, strand.pool`prev
      ensures NamesFit() && State() == old(State()).(pool := [NameOf(name, p)] + old(State()).pool)
      ensures strand.pool == [p] + old(strand.pool)
    {
      ConsView(name, p, strand.pool);
      strand.AddConnection(p);
      CachedNamed();
    }

    /** flowop_connect and flowop_accept: a new object, if the kernel agrees. */
    method FlowopOpen(ok: bool)
      requires NamesFit() && j < |w.fs|
      modifies this`name, this`born, strand`cpool, strand`pool, strand.pool`prev, connection
      ensures NamesFit() && State() == if ok then Open(w.fs[j], old(State())) else old(State())
      ensures forall c :: c in name ==> c in old(name) || fresh(c)
    {
      if ok {
        AddNew(Id(w.fs[j]));
        ForgetFrom();
      }
    }

    method AddNew(id: int)
      requires NamesFit()
      modifies this`name, this`born, strand`cpool, strand`pool, strand.pool`prev
      ensures NamesFit()
      ensures var m := old(State()); State() == m.(pool := [Conn(m.born, id)] + m.pool, born := m.born + 1)
      ensures forall c :: c in name ==> c in old(name) || fresh(c)
    {
      ghost var was := strand.pool;
      var p := NewNamed(id);
      InFront(p, was);
      Add(p);
    }

    method NewNamed(id: int) returns (p: Connection)
      requires NamesFit()
      modifies this`name, this`born
      ensures fresh(p) && p.prev == null && NamesFit() && name == old(name)[p := old(born)] && p.pId == id
      ensures State() == old(State()).(born := old(born) + 1)
    {
      p := new Connection(id);
      Baptise(p);
    }

    /** What the disconnect does to the objects. */
    method StrandDisconnect(id: int, slot: nat) returns (closed: Connection?)
      requires NamesFit() && slot < STRAND_CONNECTION_CACHE_SIZE
      modifies strand`cpool, strand`pool, strand`ccacheSize, strand.ccache
      modifies strand.pool`prev, strand.pool`next, strand.pool`connected
      ensures strand.Valid() && connection[..] == old(connection[..])
      ensures closed == Lookup(old(strand.pool), old(strand.Cached()), id)
      ensures forall c :: c in strand.pool ==> c in old(strand.pool)
      ensures forall c :: c in name ==> c.connected == (old(c.connected) && c != closed)
      ensures var k := FirstWith(IdsOf(old(strand.pool)), id);
              if closed != null && k < |old(strand.pool)|
              then strand.pool == Without(old(strand.pool), k) && strand.Cached() == []
              else strand.pool == old(strand.pool) && strand.Cached() == old(strand.Cached())
    {
      ghost var was := strand.pool;
      var r;
      r, closed := strand.Disconnect(id, slot);
      if FirstWith(IdsOf(was), id) < |was| {
        OnlyMembers(was, FirstWith(IdsOf(was), id));
      }
    }

    /** The same for their names; `closed` is not yet in `shut`. */
    method NamedDisconnect(id: int, slot: nat) returns (closed: Connection?)
      requires NamesFit() && slot < STRAND_CONNECTION_CACHE_SIZE
      modifies strand`cpool, strand`pool, strand`ccacheSize, strand.ccache
      modifies strand.pool`prev, strand.pool`next, strand.pool`connected
      ensures ObjectsFit() && (closed != null ==> closed in name)
      ensures forall c :: c in name ==> c.connected == (old(c.connected) && c != closed)
      ensures PtrTo(name, closed) == Find(old(State()).pool, old(State()).cache, id)
      ensures State() == if closed != null then Unlinked(old(State()), id) else old(State())
      ensures forall c :: c in strand.pool ==> c in old(strand.pool)
    {
      ghost var m := State();
      CachedNamed();
      RemovedView(name, strand.pool, strand.Cached(), id);
      closed := StrandDisconnect(id, slot);
      CachedNamed();
    }

    ghost method MarkShut(c: Connection)
      requires ObjectsFit() && c in name && !c.connected
      requires forall d :: d in name && d != c ==> (NameOf(name, d) in shut <==> !d.connected)
      modifies this`shut
      ensures NamesFit() && State() == old(State()).(shut := old(shut) + {NameOf(name, c)})
    {
      NameIsOwn(name, c);
      shut := shut + {NameOf(name, c)};
      CachedNamed();
    }

    /** Closing what is found and unlinking the first match, in terms of the values. */
    method Remove(id: int, slot: nat) returns (found: bool)
      requires NamesFit() && slot < STRAND_CONNECTION_CACHE_SIZE
      modifies this`shut, strand`cpool, strand`pool, strand`ccacheSize, strand.ccache
      modifies strand.pool`prev, strand.pool`next, strand.pool`connected
      ensures NamesFit()
      ensures var m := old(State());
              && found == (Find(m.pool, m.cache, id) != Null)
              && State() == if found then Unlinked(m, id).(shut := m.shut + {Find(m.pool, m.cache, id).c}) else m
      ensures forall c :: c in strand.pool ==> c in old(strand.pool)
    {
      var closed := NamedDisconnect(id, slot);
      found := closed != null;
      if found {
        MarkShut(closed);
      }
    }

    /** flowop_disconnect. */
    method FlowopDisconnect(slot: nat) returns (found: bool)
      requires NamesFit() && j < |w.fs| && slot < STRAND_CONNECTION_CACHE_SIZE
      modifies this`shut, strand`cpool, strand`pool, strand`ccacheSize, strand.ccache, connection
      modifies strand.pool`prev, strand.pool`next, strand.pool`connected
      ensures NamesFit()
      ensures var m := old(State());
              && found == (Find(m.pool, m.cache, Id(w.fs[j])) != Null)
              && State() == if found then Close(w.fs[j], m, Find(m.pool, m.cache, Id(w.fs[j])).c) else m
      ensures forall c :: c in strand.pool ==> c in old(strand.pool)
    {
      found := Remove(Id(w.fs[j]), slot);
      if found {
        ForgetFrom();
      }
    }

    method ActRw(ch: Choice) returns (goes: bool)
      requires NamesFit() && j < |w.fs| && Uses(w.fs[j]) && ch.slot < STRAND_CONNECTION_CACHE_SIZE
      modifies strand`ccacheSize, strand.ccache, connection
      ensures NamesFit() && State() == Execute(w.fs[j], old(State()), ch) && goes == GoesOn(w, old(State()), ch)
    {
      var ret := FlowopRw(ch.slot, ch.ok);
      goes := ret || w.fs[j].CanFail();
    }

    method ActDisconnect(ch: Choice) returns (goes: bool)
      requires NamesFit() && j < |w.fs| && Closes(w.fs[j]) && ch.slot < STRAND_CONNECTION_CACHE_SIZE
      modifies this`shut, strand`cpool, strand`pool, strand`ccacheSize, strand.ccache, connection
      modifies strand.pool`prev, strand.pool`next, strand.pool`connected
      ensures NamesFit() && State() == Execute(w.fs[j], old(State()), ch) && goes == GoesOn(w, old(State()), ch)
      ensures forall c :: c in strand.pool ==> c in old(strand.pool)
    {
      DisconnectActs(w, State(), ch);
      var found := FlowopDisconnect(ch.slot);
      goes := found && (ch.ok || w.fs[j].CanFail());
    }

    /** One call of the execute function; `goes` is whether the transaction goes on. */
    method Act(ch: Choice) returns (goes: bool)
      requires NamesFit() && j < |w.fs| && ch.slot < STRAND_CONNECTION_CACHE_SIZE
      modifies this`name, this`shut, this`born, connection
      modifies strand`cpool, strand`pool, strand`ccacheSize, strand.ccache
      modifies strand.pool`prev, strand.pool`next, strand.pool`connected
      ensures NamesFit() && State() == Execute(w.fs[j], old(State()), ch) && goes == GoesOn(w, old(State()), ch)
      ensures forall c :: c in name ==> c in old(name) || fresh(c)
    {
      if Uses(w.fs[j]) {
        goes := ActRw(ch);
      } else if Closes(w.fs[j]) {
        goes := ActDisconnect(ch);
      } else {
        FlowopOpen(ch.ok && Opens(w.fs[j]));
        goes := ch.ok || w.fs[j].CanFail();
      }
    }

    /** Counting the call, or leaving the loops. */
    method GoOn(goes: bool)
      requires NamesFit()
      modifies this`i, this`running
      ensures NamesFit() && State() == if goes then old(State()).(i := old(i) + 1) else old(State()).(running := false)
    {
      if goes {
        i := i + 1;
      } else {
        running := false;
      }
    }

    /** The run goes on to the state reached. */
    ghost method Record(m: Machine)
      requires NamesFit() && IsRun(w, run) && Last(run) == m && Step(w, m, State())
      modifies this`run
      ensures Valid() && State() == old(State()) && run == old(run) + [State()]
    {
      Extend(w, run, State());
      run := run + [State()];
    }

    /** The body of the loop in flowop_execute. */
    method Call(ch: Choice)
      requires Valid() && running && j < |w.fs| && i < w.fs[j].io.count && ch.slot < STRAND_CONNECTION_CACHE_SIZE
      modifies this`i, this`running, this`run, this`name, this`shut, this`born, connection
      modifies strand`cpool, strand`pool, strand`ccacheSize, strand.ccache
      modifies name.Keys`prev, name.Keys`next, name.Keys`connected
      ensures Valid() && State() == CallOf(w, old(State()), ch) && run == old(run) + [State()]
      ensures forall c :: c in name ==> c in old(name) || fresh(c)
    {
      ghost var m := State();
      var goes := Act(ch);
      GoOn(goes);
      Record(m);
    }

    ghost method Start(m: Machine)
      requires NamesFit() && Begins(w, m) && State().(ptrs := m.ptrs) == m
      requires forall k :: 0 <= k < |w.fs| ==> connection[k] == null
      modifies this`run
      ensures Valid() && State() == m && run == [m]
    {
      assert State().ptrs == m.ptrs;
      run := [m];
      assert State() == m;
    }

    /** A signal ends the transaction. */
    method Stop()
      requires Valid() && running
      modifies this`running, this`run
      ensures Valid() && State() == old(State()).(running := false) && run == old(run) + [State()]
    {
      ghost var m := State();
      running := false;
      Record(m);
    }

    method NextFlowop()
      requires Valid() && running && j < |w.fs| && i == w.fs[j].io.count
      modifies this`j, this`i, this`run
      ensures Valid() && State() == old(State()).(j := old(j) + 1, i := 0) && run == old(run) + [State()]
    {
      ghost var m := State();
      j, i := j + 1, 0;
      Record(m);
    }

    method NextIteration()
      requires Valid() && running && j == |w.fs| && it + 1 < w.iter
      modifies this`it, this`j, this`i, this`run
      ensures Valid() && State() == old(State()).(it := old(it) + 1, j := 0, i := 0) && run == old(run) + [State()]
    {
      ghost var m := State();
      it, j, i := it + 1, 0, 0;
      Record(m);
    }

    /** A round of the loop in flowop_execute. */
    method CallOrStop(ch: Choice, signalled: bool)
      requires Valid() && running && j < |w.fs| && i < w.fs[j].io.count && ch.slot < STRAND_CONNECTION_CACHE_SIZE
      modifies this`i, this`running, this`run, this`name, this`shut, this`born, connection
      modifies strand`cpool, strand`pool, strand`ccacheSize, strand.ccache
      modifies name.Keys`prev, name.Keys`next, name.Keys`connected
      ensures Valid() && run == old(run) + [State()]
      ensures State() == if signalled then old(State()).(running := false) else CallOf(w, old(State()), ch)
      ensures forall c :: c in name ==> c in old(name) || fresh(c)
    {
      if signalled {
        Stop();
      } else {
        Call(ch);
      }
    }

    /** The loops are on the path, as far as the run has grown. */
    ghost predicate OnPath(path: nat -> Place, length: nat, time: nat)
      requires ObjectsFit()
      reads this, connection, strand, strand.ccache, strand.pool
    {
      length <= |run| && Place(State(), time) == path(|run| - length)
    }

    /** A step along it. */
    method Advance(answers: nat -> Choice, signals: nat -> bool, time: nat, ghost path: nat -> Place, ghost length: nat)
      requires Valid() && running && j < |w.fs| && i < w.fs[j].io.count
      requires Follows(w, answers, signals, path) && OnPath(path, length, time)
      requires answers(time + 1).slot < STRAND_CONNECTION_CACHE_SIZE
      modifies this`i, this`running, this`run, this`name, this`shut, this`born, connection
      modifies strand`cpool, strand`pool, strand`ccacheSize, strand.ccache
      modifies name.Keys`prev, name.Keys`next, name.Keys`connected
      ensures Valid() && old(run) <= run && OnPath(path, length, time + 1)
      ensures (running ==> i == old(i) + 1) && (!running ==> i == old(i))
      ensures forall c :: c in name ==> c in old(name) || fresh(c)
    {
      TickCalls(w, answers, signals, path, |run| - length, State(), time);
      CallOrStop(answers(time + 1), signals(time + 1));
    }

    method AdvanceFlowop(ghost answers: nat -> Choice, ghost signals: nat -> bool, ghost time: nat,
                         ghost path: nat -> Place,
                         ghost length: nat)
      requires Valid() && running && j < |w.fs| && i == w.fs[j].io.count
      requires Follows(w, answers, signals, path) && OnPath(path, length, time)
      modifies this`j, this`i, this`run
      ensures Valid() && old(run) <= run && OnPath(path, length, time) && j == old(j) + 1 && i == 0
    {
      TickMoves(w, answers, signals, path, |run| - length, State(), time);
      NextFlowop();
    }

    method AdvanceIteration(ghost answers: nat -> Choice, ghost signals: nat -> bool, ghost time: nat,
                            ghost path: nat -> Place,
                            ghost length: nat)
      requires Valid() && running && j == |w.fs| && it + 1 < w.iter
      requires Follows(w, answers, signals, path) && OnPath(path, length, time)
      modifies this`it, this`j, this`i, this`run
      ensures Valid() && old(run) <= run && OnPath(path, length, time) && it == old(it) + 1 && j == 0 && i == 0
    {
      TickMoves(w, answers, signals, path, |run| - length, State(), time);
      NextIteration();
    }

    /** flowop_execute: `answers` is what everybody else decides at any time, `signals` whether there is
        a signal. */
    method FlowopExecute(answers: nat -> Choice, signals: nat -> bool, start: nat, ghost path: nat -> Place,
                         ghost length: nat)
      returns (time: nat)
      requires Valid() && running && j < |w.fs| && i == 0
      requires forall t :: answers(t).slot < STRAND_CONNECTION_CACHE_SIZE
      requires Follows(w, answers, signals, path) && OnPath(path, length, start)
      modifies this`i, this`running, this`run, this`name, this`shut, this`born, connection
      modifies strand`cpool, strand`pool, strand`ccacheSize, strand.ccache
      modifies name.Keys`prev, name.Keys`next, name.Keys`connected
      ensures Valid() && old(run) <= run && OnPath(path, length, time) && (running ==> i == w.fs[j].io.count)
      ensures forall c :: c in name ==> c in old(name) || fresh(c)
    {
      time := start;
      while running && i < w.fs[j].io.count
        invariant Valid() && old(run) <= run && OnPath(path, length, time) && i <= w.fs[j].io.count
        invariant forall c :: c in name ==> c in old(name) || fresh(c)
        decreases w.fs[j].io.count - i, running
      {
        Advance(answers, signals, time, path, length);
        time := time + 1;
      }
    }

    /** The body of its loop over the flowops. */
    method FlowopThenNext(answers: nat -> Choice, signals: nat -> bool, start: nat, ghost path: nat -> Place,
                          ghost length: nat)
      returns (time: nat)
      requires Valid() && running && j < |w.fs| && i == 0
      requires forall t :: answers(t).slot < STRAND_CONNECTION_CACHE_SIZE
      requires Follows(w, answers, signals, path) && OnPath(path, length, start)
      modifies this`j, this`i, this`running, this`run, this`name, this`shut, this`born, connection
      modifies strand`cpool, strand`pool, strand`ccacheSize, strand.ccache
      modifies name.Keys`prev, name.Keys`next, name.Keys`connected
      ensures Valid() && old(run) <= run && OnPath(path, length, time)
      ensures running ==> j == old(j) + 1 && i == 0
      ensures !running ==> j == old(j)
      ensures forall c :: c in name ==> c in old(name) || fresh(c)
    {
      time := FlowopExecute(answers, signals, start, path, length);
      if running {
        AdvanceFlowop(answers, signals, time, path, length);
      }
    }

    /** txn_execute_once. */
    method TxnExecuteOnce(answers: nat -> Choice, signals: nat -> bool, start: nat, ghost path: nat -> Place,
                          ghost length: nat)
      returns (time: nat)
      requires Valid() && running && j == 0 && i == 0
      requires forall t :: answers(t).slot < STRAND_CONNECTION_CACHE_SIZE
      requires Follows(w, answers, signals, path) && OnPath(path, length, start)
      modifies this`j, this`i, this`running, this`run, this`name, this`shut, this`born, connection
      modifies strand`cpool, strand`pool, strand`ccacheSize, strand.ccache
      modifies name.Keys`prev, name.Keys`next, name.Keys`connected
      ensures Valid() && old(run) <= run && OnPath(path, length, time) && it == old(it) && (running ==> j == |w.fs|)
      ensures forall c :: c in name ==> c in old(name) || fresh(c)
    {
      time := start;
      while running && j < |w.fs|
        invariant Valid() && old(run) <= run && OnPath(path, length, time)
        invariant it == old(it) && j <= |w.fs| && (running ==> i == 0)
        invariant forall c :: c in name ==> c in old(name) || fresh(c)
        decreases |w.fs| - j, running
      {
        time := FlowopThenNext(answers, signals, time, path, length);
      }
    }

    /** The body of the loop of txn_iterations; `more` is whether there is another iteration. */
    method Iteration(answers: nat -> Choice, signals: nat -> bool, start: nat, ghost path: nat -> Place,
                     ghost length: nat)
      returns (time: nat, more: bool)
      requires Valid() && running && j == 0 && i == 0
      requires forall t :: answers(t).slot < STRAND_CONNECTION_CACHE_SIZE
      requires Follows(w, answers, signals, path) && OnPath(path, length, start)
      modifies this`it, this`j, this`i, this`running, this`run, this`name, this`shut, this`born, connection
      modifies strand`cpool, strand`pool, strand`ccacheSize, strand.ccache
      modifies name.Keys`prev, name.Keys`next, name.Keys`connected
      ensures Valid() && old(run) <= run && OnPath(path, length, time)
      ensures more ==> running && j == 0 && i == 0 && it == old(it) + 1 < w.iter
      ensures !more && running ==> it + 1 >= w.iter && j == |w.fs|
      ensures !more ==> it == old(it)
      ensures forall c :: c in name ==> c in old(name) || fresh(c)
    {
      time := TxnExecuteOnce(answers, signals, start, path, length);
      more := running && it + 1 < w.iter;
      if more {
        AdvanceIteration(answers, signals, time, path, length);
      }
    }

    /** The loop of txn_iterations. */
    method Iterations(answers: nat -> Choice, signals: nat -> bool, start: nat, ghost path: nat -> Place,
                      ghost length: nat)
      returns (time: nat)
      requires Valid() && it == j == i == 0 && running == (w.iter > 0)
      requires forall t :: answers(t).slot < STRAND_CONNECTION_CACHE_SIZE
      requires Follows(w, answers, signals, path) && OnPath(path, length, start)
      modifies this`it, this`j, this`i, this`running, this`run, this`name, this`shut, this`born, connection
      modifies strand`cpool, strand`pool, strand`ccacheSize, strand.ccache
      modifies name.Keys`prev, name.Keys`next, name.Keys`connected
      ensures Valid() && old(run) <= run && OnPath(path, length, time) && (running ==> it + 1 >= w.iter && j == |w.fs|)
    {
      time := start;
      var more := running;
      while more
        invariant Valid() && old(run) <= run && OnPath(path, length, time) && (more ==> running && j == 0 && i == 0)
        invariant !more && running ==> it + 1 >= w.iter && j == |w.fs|
        invariant forall c :: c in name ==> c in old(name) || fresh(c)
        decreases w.iter - it, more
      {
        time, more := Iteration(answers, signals, time, path, length);
      }
    }

    method IterationsFrom(answers: nat -> Choice, signals: nat -> bool, ghost from: Machine) returns (time: nat)
      requires Valid() && it == j == i == 0 && running == (w.iter > 0) && State() == from
      requires forall t :: answers(t).slot < STRAND_CONNECTION_CACHE_SIZE
      modifies this`it, this`j, this`i, this`running, this`run, this`name, this`shut, this`born, connection
      modifies strand`cpool, strand`pool, strand`ccacheSize, strand.ccache
      modifies name.Keys`prev, name.Keys`next, name.Keys`connected
      ensures Valid() && old(run) <= run && (running ==> it + 1 >= w.iter && j == |w.fs|)
      ensures Place(State(), time) == Ticks(w, answers, signals, Place(from, 0), |run| - |old(run)|)
    {
      ghost var path := TicksFollow(w, answers, signals, Place(from, 0));
      time := Iterations(answers, signals, 0, path, |run|);
    }

    /** txn_iterations, or as many rounds of a transaction by duration.  It goes where `answers` and
        `signals` lead, until it is stopped or done.  Whatever they are, it is a run of the machine; so if
        the transaction is harmless, every connection it uses is in the pool at that moment. */
    method TxnIterations(answers: nat -> Choice, signals: nat -> bool) returns (time: nat)
      requires Valid() && it == j == i == 0 && running == (w.iter > 0)
      requires forall t :: answers(t).slot < STRAND_CONNECTION_CACHE_SIZE
      modifies this`it, this`j, this`i, this`running, this`run, this`name, this`shut, this`born, connection
      modifies strand`cpool, strand`pool, strand`ccacheSize, strand.ccache
      modifies name.Keys`prev, name.Keys`next, name.Keys`connected
      ensures Valid() && old(run) <= run && (running ==> it + 1 >= w.iter && j == |w.fs|)
      ensures Place(State(), time) == Ticks(w, answers, signals, Place(old(State()), 0), |run| - |old(run)|)
      ensures Harmless(w) ==> AllLive(w, run)
    {
      time := IterationsFrom(answers, signals, State());
      if Harmless(w) {
        RunIsLive();
      }
    }

    lemma RunIsLive()
      requires Valid() && Harmless(w)
      ensures AllLive(w, run)
    {
      HarmlessIsLive(w);
    }

    /** For the flowop about to be called the machine tells whether its pointer leads into the pool. */
    lemma PointerInPool()
      requires Valid() && j < |w.fs|
      ensures var p := State().ptrs[j];
              && (connection[j] == null <==> p == Null)
              && (connection[j] != null ==> (connection[j] in strand.pool <==> p.c in State().pool))
    {
      if connection[j] != null {
        assert connection[j] in connection[..];
        NameIsOwn(name, connection[j]);
        if connection[j] in strand.pool {
          var k :| 0 <= k < |strand.pool| && strand.pool[k] == connection[j];
          assert State().pool[k] == State().ptrs[j].c;
        }
        assert forall k :: 0 <= k < |strand.pool| ==>
                 strand.pool[k] in strand.pool && State().pool[k] == NameOf(name, strand.pool[k]);
      }
    }

    /** After a failing run the next transfer uses an object that is not in the pool any more. */
    lemma UsesDestroyed()
      requires Valid() && Dangles(w, run)
      ensures running && j < |w.fs| && i < w.fs[j].io.count && Uses(w.fs[j])
      ensures connection[j] != null && connection[j] !in strand.pool
    {
      PointerInPool();
    }

    /** In a harmless transaction it never does. */
    lemma UsesLive()
      requires Valid() && Harmless(w) && running && j < |w.fs| && i < w.fs[j].io.count && Uses(w.fs[j])
      ensures connection[j] == null || connection[j] in strand.pool
    {
      HarmlessIsLive(w);
      PointerInPool();
      assert run[|run| - 1] == State() && Live(w.fs, run[|run| - 1], j);
    }

    /** The step from `m` to `m'`. */
    method Take(m: Machine, m': Machine)
      requires Valid() && m == State() && Step(w, m, m')
      modifies this`it, this`j, this`i, this`running, this`run, this`name, this`shut, this`born, connection
      modifies strand`cpool, strand`pool, strand`ccacheSize, strand.ccache
      modifies name.Keys`prev, name.Keys`next, name.Keys`connected
      ensures Valid() && State() == m' && run == old(run) + [m']
      ensures forall c :: c in name ==> c in old(name) || fresh(c)
    {
      if m' == m.(running := false) {
        Stop();
      } else if m.j < |w.fs| && m.i < w.fs[m.j].io.count {
        ghost var some: Choice :| some.slot < STRAND_CONNECTION_CACHE_SIZE && m' == CallOf(w, m, some);
        assert some == Choice(some.slot, some.ok);
        var slot, ok :| 0 <= slot < STRAND_CONNECTION_CACHE_SIZE && m' == CallOf(w, m, Choice(slot, ok));
        Call(Choice(slot, ok));
      } else if m.j < |w.fs| {
        NextFlowop();
      } else {
        NextIteration();
      }
    }

    /** Step by step along the run. */
    method TakeAll(target: seq<Machine>)
      requires Valid() && IsRun(w, target) && run == [target[0]]
      modifies this`it, this`j, this`i, this`running, this`run, this`name, this`shut, this`born, connection
      modifies strand`cpool, strand`pool, strand`ccacheSize, strand.ccache
      modifies name.Keys`prev, name.Keys`next, name.Keys`connected
      ensures Valid() && run == target
    {
      for t := 1 to |target|
        invariant Valid() && run == target[..t]
        invariant forall c :: c in name ==> c in old(name) || fresh(c)
      {
        TakeNext(target, t);
      }
      assert target[..|target|] == target;
    }

    method TakeNext(target: seq<Machine>, t: nat)
      requires Valid() && 0 < t < |target| && run == target[..t] && StepAt(w, target, t - 1)
      modifies this`it, this`j, this`i, this`running, this`run, this`name, this`shut, this`born, connection
      modifies strand`cpool, strand`pool, strand`ccacheSize, strand.ccache
      modifies name.Keys`prev, name.Keys`next, name.Keys`connected
      ensures Valid() && run == target[..t + 1]
      ensures forall c :: c in name ==> c in old(name) || fresh(c)
    {
      Take(target[t - 1], target[t]);
    }
  }

  // ---- Every run is an execution ----

  /** The connections of a pool, from `k` on, as objects. */
  ghost predicate Built(pool: seq<Conn>, shut: set<Conn>, k: nat, objs: seq<Connection>, name: map<Connection, nat>)
    reads objs`connected
  {
    && k <= |pool| && |objs| == |pool| - k && (forall c :: c in name ==> c in objs)
    && (forall n :: 0 <= n < |objs| ==> objs[n] in name && NameOf(name, objs[n]) == pool[k + n])
    && (forall n :: 0 <= n < |objs| ==> objs[n].connected == (pool[k + n] !in shut))
  }

  lemma BuiltMore(pool: seq<Conn>, shut: set<Conn>, k: nat, objs: seq<Connection>, name: map<Connection, nat>,
                  p: Connection)
    requires Built(pool, shut, k + 1, objs, name) && p !in name && p.pId == pool[k].pId
    requires p.connected == (pool[k] !in shut)
    ensures Built(pool, shut, k, [p] + objs, name[p := pool[k].obj])
  {
  }

  method NewPooled(strand: Strand, pId: int, open: bool) returns (p: Connection)
    requires strand.Valid()
    modifies strand`cpool, strand`pool, strand.pool`prev
    ensures fresh(p) && p.pId == pId && p.connected == open
    ensures strand.Valid() && strand.pool == [p] + old(strand.pool) && strand.Cached() == old(strand.Cached())
  {
    p := new Connection(pId);
    p.connected := open;
    strand.AddConnection(p);
  }

  method BuildOne(strand: Strand, pool: seq<Conn>, shut: set<Conn>, k: nat, ghost objs: seq<Connection>,
                  ghost name: map<Connection, nat>)
    returns (p: Connection)
    requires strand.Valid() && strand.pool == objs && Built(pool, shut, k + 1, objs, name)
    modifies strand`cpool, strand`pool, strand.pool`prev
    ensures fresh(p) && strand.Valid() && strand.pool == [p] + objs && strand.Cached() == old(strand.Cached())
    ensures Built(pool, shut, k, [p] + objs, name[p := pool[k].obj])
  {
    p := NewPooled(strand, pool[k].pId, pool[k] !in shut);
    BuiltMore(pool, shut, k, objs, name, p);
  }

  /** Connections are added in front, so the last one comes first. */
  method BuildPool(pool: seq<Conn>, shut: set<Conn>)
    returns (strand: Strand, objs: seq<Connection>, ghost name: map<Connection, nat>)
    ensures fresh(strand) && fresh(strand.ccache) && fresh(objs) && strand.Valid() && strand.pool == objs
    ensures strand.Cached() == [] && Built(pool, shut, 0, objs, name)
  {
    strand := new Strand();
    objs, name := [], map[];
    for k := |pool| downto 0
      invariant fresh(strand) && fresh(strand.ccache) && fresh(objs) && strand.Valid() && strand.pool == objs
      invariant strand.Cached() == [] && Built(pool, shut, k, objs, name)
    {
      var p := BuildOne(strand, pool, shut, k, objs, name);
      objs, name := [p] + objs, name[p := pool[k].obj];
    }
  }

  lemma BuiltView(pool: seq<Conn>, shut: set<Conn>, objs: seq<Connection>, name: map<Connection, nat>)
    requires Built(pool, shut, 0, objs, name) && Distinct(pool)
    ensures Named(name, objs) && View(name, objs) == pool && Injective(name)
    ensures forall c :: c in name ==> NameOf(name, c) in pool && (NameOf(name, c) in shut <==> !c.connected)
  {
    forall c | c in name
      ensures NameOf(name, c) in pool && (NameOf(name, c) in shut <==> !c.connected)
    {
      var n :| 0 <= n < |objs| && objs[n] == c;
      assert NameOf(name, objs[n]) == pool[n];
    }
    forall c, d | c in name && d in name && name[c] == name[d]
      ensures c == d
    {
      var n :| 0 <= n < |objs| && objs[n] == c;
      var l :| 0 <= l < |objs| && objs[l] == d;
      assert pool[n].obj == pool[l].obj;
    }
  }

  /** The cache is filled slot by slot. */
  method FillCache(strand: Strand, objs: seq<Connection>, pool: seq<Conn>, cache: seq<Conn>,
                   ghost name: map<Connection, nat>)
    requires strand.Valid() && strand.pool == objs && strand.Cached() == []
    requires Named(name, objs) && View(name, objs) == pool
    requires |cache| < STRAND_CONNECTION_CACHE_SIZE && forall c :: c in cache ==> c in pool
    modifies strand`ccacheSize, strand.ccache
    ensures strand.Valid() && strand.pool == objs
    ensures Named(name, strand.Cached()) && View(name, strand.Cached()) == cache
  {
    for n := 0 to |cache|
      invariant strand.Valid() && strand.pool == objs && Named(name, strand.Cached())
      invariant View(name, strand.Cached()) == cache[..n]
    {
      assert cache[n] in cache;
      var k :| 0 <= k < |pool| && pool[k] == cache[n];
      CacheOne(strand, objs[k], name);
    }
  }

  method CacheOne(strand: Strand, c: Connection, ghost name: map<Connection, nat>)
    requires strand.Valid() && c in strand.pool && c in name && Named(name, strand.Cached())
    requires strand.ccacheSize < STRAND_CONNECTION_CACHE_SIZE - 1
    modifies strand`ccacheSize, strand.ccache
    ensures strand.Valid() && strand.pool == old(strand.pool) && Named(name, strand.Cached())
    ensures View(name, strand.Cached()) == View(name, old(strand.Cached())) + [NameOf(name, c)]
  {
    SnocView(name, strand.Cached(), c);
    strand.PutInCache(c, 0);
  }

  lemma SnocView(name: map<Connection, nat>, cs: seq<Connection>, c: Connection)
    requires c in name && Named(name, cs)
    ensures Named(name, cs + [c]) && View(name, cs + [c]) == View(name, cs) + [NameOf(name, c)]
  {
  }

  method MakePool(pool: seq<Conn>, shut: set<Conn>)
    returns (strand: Strand, objs: seq<Connection>, ghost name: map<Connection, nat>)
    requires Distinct(pool)
    ensures fresh(strand) && fresh(strand.ccache) && fresh(name.Keys) && strand.Valid()
    ensures strand.pool == objs && strand.Cached() == []
    ensures Named(name, objs) && View(name, objs) == pool && Injective(name)
    ensures forall c :: c in name ==> NameOf(name, c) in pool && (NameOf(name, c) in shut <==> !c.connected)
  {
    strand, objs, name := BuildPool(pool, shut);
    BuiltView(pool, shut, objs, name);
  }

  /** A strand, with its pool, its cache and what of it is closed, as a transaction may find it. */
  method MakeStrand(m: Machine) returns (strand: Strand, ghost name: map<Connection, nat>)
    requires WellFormed(m) && forall c :: c in m.shut ==> c in m.pool
    ensures fresh(strand) && fresh(strand.ccache) && fresh(name.Keys) && strand.Valid()
    ensures Named(name, strand.pool) && View(name, strand.pool) == m.pool
    ensures Named(name, strand.Cached()) && View(name, strand.Cached()) == m.cache
    ensures Injective(name) && forall c :: c in name ==> NameOf(name, c) in m.pool
    ensures forall c :: c in name ==> (NameOf(name, c) in m.shut <==> !c.connected)
  {
    var objs;
    strand, objs, name := MakePool(m.pool, m.shut);
    FillCache(strand, objs, m.pool, m.cache, name);
  }

  method Setup(w: Work, m: Machine) returns (r: Runner)
    requires Begins(w, m)
    ensures fresh(r) && fresh(r.strand) && fresh(r.strand.ccache) && fresh(r.connection)
    ensures r.w == w && r.Valid() && r.State() == m && r.run == [m] && fresh(r.name.Keys)
  {
    var strand;
    ghost var name;
    strand, name := MakeStrand(m);
    assert forall c :: c in name ==> NameOf(name, c).obj < m.born;
    r := new Runner(w, strand, name, m.shut, m.born);
    r.Start(m);
  }

  /** For every run of the machine there is an execution of the code on a linked pool that follows it
      step by step. */
  method Follow(w: Work, target: seq<Machine>) returns (r: Runner)
    requires IsRun(w, target)
    ensures r.w == w && r.Valid() && r.run == target
  {
    r := Setup(w, target[0]);
    r.TakeAll(target);
  }
}
