/** The connections of one strand: a doubly linked pool with insertion at the head, and a small
    cache of recent lookups that a deletion flushes (src/strand.c, src/flowops_library.c). */
module Pool {

  const STRAND_CONNECTION_CACHE_SIZE: nat := 8

  class Connection {
    const pId: int      // assigned once, before the connection enters the pool
    var prev: Connection?
    var next: Connection?
    var connected: bool

    /** create_protocol and accept hand out zeroed objects. */
    constructor (pId: int)
      ensures this.pId == pId && prev == null && next == null && connected
    {
      this.pId, prev, next, connected := pId, null, null, true;
    }
  }

  /** The index of the first occurrence of `id`, or the length if there is none. */
  function FirstWith(ids: seq<int>, id: int): (k: nat)
    ensures k <= |ids|
    ensures k < |ids| ==> ids[k] == id
    ensures forall j :: 0 <= j < k ==> ids[j] != id
  {
    if ids == [] || ids[0] == id then 0 else 1 + FirstWith(ids[1..], id)
  }

  lemma FirstWithUnique(ids: seq<int>, id: int, k: nat)
    requires k < |ids| && ids[k] == id && forall j :: 0 <= j < k ==> ids[j] != id
    ensures FirstWith(ids, id) == k
  {
  }

  function Without<T>(s: seq<T>, k: nat): seq<T>
    requires k < |s|
  {
    s[..k] + s[k + 1..]
  }

  ghost predicate Linked(pool: seq<Connection>, head: Connection?)
    reads pool`prev, pool`next
  {
    && head == (if pool == [] then null else pool[0])
    && (pool != [] ==> pool[0].prev == null && pool[|pool| - 1].next == null)
    && (forall i :: 0 <= i < |pool| - 1 ==> pool[i].next == pool[i + 1])
    && (forall i :: 0 < i < |pool| ==> pool[i].prev == pool[i - 1])
    && (forall i, j :: 0 <= i < j < |pool| ==> pool[i] != pool[j])
  }

  ghost function IdsOf(pool: seq<Connection>): (ids: seq<int>)
    ensures |ids| == |pool|
    ensures forall i :: 0 <= i < |pool| ==> ids[i] == pool[i].pId
  {
    seq(|pool|, i requires 0 <= i < |pool| => pool[i].pId)
  }

  /** A plain scan of the pool: the first connection with the id, or null. */
  ghost function Scan(pool: seq<Connection>, id: int): Connection? {
    var k := FirstWith(IdsOf(pool), id);
    if k < |pool| then pool[k] else null
  }

  /** The first readable cache slot that answers for `id`; -1 takes any. */
  ghost function Hit(cached: seq<Connection>, id: int): nat {
    if id == -1 then 0 else FirstWith(IdsOf(cached), id)
  }

  /** What strand_get_connection returns: the cache first, then the scan. */
  ghost function Lookup(pool: seq<Connection>, cached: seq<Connection>, id: int): Connection? {
    var h := Hit(cached, id);
    if h < |cached| then cached[h] else Scan(pool, id)
  }

  /** strand_put_connection_in_cache on the readable slots: they grow to seven, then one slot is
      replaced; the eighth slot is written but never read. */
  function Put<T>(cached: seq<T>, c: T, replacement: nat): seq<T> {
    if |cached| < STRAND_CONNECTION_CACHE_SIZE - 1 then cached + [c]
    else if replacement < |cached| then cached[replacement := c]
    else cached
  }

  ghost function CacheAfter(pool: seq<Connection>, cached: seq<Connection>, id: int,
                            replacement: nat): seq<Connection> {
    if Hit(cached, id) < |cached| || Scan(pool, id) == null then cached else Put(cached, Scan(pool, id), replacement)
  }

  /** The cache holds only what a scan would find. */
  ghost predicate CacheFirst(pool: seq<Connection>, cached: seq<Connection>) {
    forall i :: 0 <= i < |cached| ==> Scan(pool, cached[i].pId) == cached[i]
  }

  /** The lookup returns a live member that carries the id, or for -1 whatever the cache holds first;
      and null exactly when no member carries it and, for -1, nothing is cached. */
  lemma LookupIsLive(pool: seq<Connection>, cached: seq<Connection>, id: int)
    requires forall c :: c in cached ==> c in pool
    ensures var c := Lookup(pool, cached, id);
            && (c == null <==> id !in IdsOf(pool) && (id == -1 ==> cached == []))
            && (c != null ==> c in pool && (c.pId == id || (id == -1 && cached != [] && c == cached[0])))
  {
    var h := Hit(cached, id);
    if h < |cached| {
      assert cached[h] in cached;
      var k :| 0 <= k < |pool| && pool[k] == cached[h];
      assert id != -1 ==> IdsOf(cached)[h] == id && IdsOf(pool)[k] == id;
    } else if id in IdsOf(pool) {
      var k :| 0 <= k < |pool| && IdsOf(pool)[k] == id;
      assert FirstWith(IdsOf(pool), id) <= k;
    }
  }

  /** The cache refines the scan: with only first matches cached, the two agree on every id. */
  lemma CacheRefinesScan(pool: seq<Connection>, cached: seq<Connection>, id: int)
    requires CacheFirst(pool, cached) && id != -1
    ensures Lookup(pool, cached, id) == Scan(pool, id)
  {
    assert Hit(cached, id) < |cached| ==> IdsOf(cached)[Hit(cached, id)] == id;
  }

  /** Lookups never spoil that; adding a connection keeps it exactly when no cached connection
      carries the new id. */
  lemma CacheStaysFirst(pool: seq<Connection>, cached: seq<Connection>, id: int, replacement: nat)
    requires CacheFirst(pool, cached)
    ensures CacheFirst(pool, CacheAfter(pool, cached, id, replacement))
  {
  }

  lemma AddKeepsCacheFirst(p: Connection, pool: seq<Connection>, cached: seq<Connection>)
    requires p !in pool && (forall c :: c in cached ==> c in pool)
    ensures CacheFirst([p] + pool, cached) <==>
            CacheFirst(pool, cached) && forall i :: 0 <= i < |cached| ==> cached[i].pId != p.pId
  {
    assert IdsOf([p] + pool)[1..] == IdsOf(pool);
    forall i | 0 <= i < |cached|
      ensures Scan([p] + pool, cached[i].pId) == cached[i] <==>
              Scan(pool, cached[i].pId) == cached[i] && cached[i].pId != p.pId
    {
      assert cached[i] in cached;
    }
  }

  class Strand {
    var cpool: Connection?
    var ccache: array<Connection?>
    var ccacheSize: nat
    ghost var pool: seq<Connection>    // the connections reachable from cpool, in order

    constructor ()
      ensures Valid() && pool == [] && ccacheSize == 0 && fresh(ccache)
    {
      cpool, ccacheSize, pool := null, 0, [];
      ccache := new Connection?[STRAND_CONNECTION_CACHE_SIZE](_ => null);
    }

    /** A well-formed doubly linked list, and a cache whose readable slots are members of it. */
    ghost predicate Valid()
      reads this, ccache, pool
    {
      && Linked(pool, cpool)
      && ccache.Length == STRAND_CONNECTION_CACHE_SIZE
      && ccacheSize < STRAND_CONNECTION_CACHE_SIZE
      && forall i :: 0 <= i < ccacheSize ==> ccache[i] != null && ccache[i] in pool
    }

    /** The readable cache slots. */
    ghost function Cached(): (c: seq<Connection>)
      requires Valid()
      reads this, ccache, pool
      ensures |c| == ccacheSize
      ensures forall i :: 0 <= i < |c| ==> c[i] == ccache[i] && c[i] in pool
    {
      seq(ccacheSize, i requires 0 <= i < ccacheSize && Valid() reads this, ccache, pool =>
        var c: Connection := ccache[i]; c)
    }

    method AddConnection(p: Connection)
      requires Valid() && p !in pool && p.prev == null
      modifies this`cpool, this`pool, p`next, (if cpool == null then {} else {cpool})`prev
      ensures Valid() && pool == [p] + old(pool) && Cached() == old(Cached())
    {
      Link(p);
    }

    method Link(p: Connection)
      requires Linked(pool, cpool) && p !in pool && p.prev == null
      modifies this`cpool, this`pool, p`next, (if cpool == null then {} else {cpool})`prev
      ensures Linked(pool, cpool) && pool == [p] + old(pool)
    {
      p.next := cpool;
      if cpool != null {
        cpool.prev := p;
      }
      cpool := p;
      pool := [p] + pool;
    }

    /** strand_delete_connection: unlinks the first match and flushes the cache. */
    method DeleteConnection(id: int) returns (r: int)
      requires Valid()
      modifies this`cpool, this`pool, this`ccacheSize, pool`prev, pool`next
      ensures Valid()
      ensures var k := FirstWith(IdsOf(old(pool)), id);
              if k < |old(pool)| then r == 0 && pool == Without(old(pool), k) && Cached() == []
              else r == 1 && pool == old(pool) && Cached() == old(Cached())
    {
      var ptr := cpool;
      ghost var k := 0;
      while ptr != null
        invariant 0 <= k <= |pool|
        invariant ptr == if k < |pool| then pool[k] else null
        invariant forall j :: 0 <= j < k ==> pool[j].pId != id
        decreases |pool| - k
      {
        if ptr.pId == id {
          FirstWithUnique(IdsOf(pool), id, k);
          Unlink(ptr, k);
          ccacheSize := 0;
          return 0;
        }
        ptr := ptr.next;
        k := k + 1;
      }
      return 1;
    }

    method Unlink(ptr: Connection, ghost k: nat)
      requires Linked(pool, cpool) && k < |pool| && ptr == pool[k]
      modifies this`cpool, this`pool, pool`prev, pool`next
      ensures pool == Without(old(pool), k) && Linked(pool, cpool)
    {
      assert k > 0 ==> ptr.prev == pool[k - 1] && pool[k - 1] in pool;
      assert k + 1 < |pool| ==> ptr.next == pool[k + 1] && pool[k + 1] in pool;
      if ptr.prev != null {
        ptr.prev.next := ptr.next;
      }
      if ptr.next != null {
        ptr.next.prev := ptr.prev;
      }
      if ptr == cpool {
        cpool := ptr.next;
      }
      ghost var was := pool;
      pool := Without(pool, k);
      forall i | 0 < i < |pool|
        ensures pool[i].prev == pool[i - 1] && pool[i - 1].next == pool[i]
      {
        assert pool[i] == was[if i < k then i else i + 1];
        assert pool[i - 1] == was[if i - 1 < k then i - 1 else i];
      }
    }

    /** The slot to replace comes from a counter that all strands share, so it is any slot. */
    method PutInCache(p: Connection, replacement: nat)
      requires Valid() && p in pool && replacement < STRAND_CONNECTION_CACHE_SIZE
      modifies this`ccacheSize, ccache
      ensures Valid() && pool == old(pool) && Cached() == Put(old(Cached()), p, replacement)
    {
      if ccacheSize == STRAND_CONNECTION_CACHE_SIZE - 1 {
        ccache[replacement] := p;
      } else {
        ccache[ccacheSize] := p;
        ccacheSize := ccacheSize + 1;
      }
    }

    method GetConnection(id: int, replacement: nat) returns (c: Connection?)
      requires Valid() && replacement < STRAND_CONNECTION_CACHE_SIZE
      modifies this`ccacheSize, ccache
      ensures Valid() && pool == old(pool)
      ensures c == Lookup(pool, old(Cached()), id)
      ensures Cached() == CacheAfter(pool, old(Cached()), id, replacement)
    {
      if cpool == null {
        return null;
      }
      for i := 0 to ccacheSize
        invariant id == -1 ==> i == 0
        invariant forall j :: 0 <= j < i ==> ccache[j].pId != id
      {
        if ccache[i].pId == id || id == -1 {
          FirstWithUnique(IdsOf(Cached()), ccache[i].pId, FirstWith(IdsOf(Cached()), ccache[i].pId));
          return ccache[i];
        }
      }
      var ptr := cpool;
      ghost var k := 0;
      while ptr != null
        invariant 0 <= k <= |pool|
        invariant ptr == if k < |pool| then pool[k] else null
        invariant forall j :: 0 <= j < k ==> pool[j].pId != id
        decreases |pool| - k
      {
        if ptr.pId == id {
          FirstWithUnique(IdsOf(pool), id, k);
          PutInCache(ptr, replacement);
          return ptr;
        }
        ptr := ptr.next;
        k := k + 1;
      }
      return null;
    }

    /** flowop_disconnect closes what the lookup finds and then deletes by id, which is the same
        connection exactly when the one found is the first match.  With id -1 there need not be a
        match: then nothing is unlinked, and the cache is not flushed. */
    method Disconnect(id: int, replacement: nat) returns (r: int, closed: Connection?)
      requires Valid() && replacement < STRAND_CONNECTION_CACHE_SIZE
      modifies this`cpool, this`pool, this`ccacheSize, ccache, pool`prev, pool`next, pool`connected
      ensures Valid()
      ensures forall c :: c in old(pool) ==> c.connected == (old(c.connected) && c != closed)
      ensures closed == Lookup(old(pool), old(Cached()), id)
      ensures r == -1 <==> closed == null
      ensures r == -1 ==> pool == old(pool) && Cached() == old(Cached())
      ensures r != -1 ==> closed in old(pool) && (closed !in pool <==> closed == Scan(old(pool), id))
      ensures r != -1 ==> var k := FirstWith(IdsOf(old(pool)), id);
                if k < |old(pool)| then pool == Without(old(pool), k) && Cached() == []
                else id == -1 && pool == old(pool) && Cached() == old(Cached())
    {
      ghost var was, cached := pool, Cached();
      ClosedOrUnlinked(was, cached, id, replacement);
      closed := GetConnection(id, replacement);
      r := -1;
      if closed != null {
        r := CloseAndDelete(closed, id);
      }
    }

    method CloseAndDelete(c: Connection, id: int) returns (r: int)
      requires Valid() && c in pool
      modifies this`cpool, this`pool, this`ccacheSize, pool`prev, pool`next, c`connected
      ensures Valid() && !c.connected && r >= 0
      ensures var k := FirstWith(IdsOf(old(pool)), id);
              if k < |old(pool)| then pool == Without(old(pool), k) && Cached() == []
              else pool == old(pool) && Cached() == old(Cached())
    {
      c.connected := false;
      r := DeleteConnection(id);
    }
  }

  /** What a lookup finds is unlinked by a deletion of the first match, or stays. */
  lemma ClosedOrUnlinked(pool: seq<Connection>, cached: seq<Connection>, id: int, replacement: nat)
    requires (forall c :: c in cached ==> c in pool) && forall i, j :: 0 <= i < j < |pool| ==> pool[i] != pool[j]
    ensures var c, k := Lookup(pool, cached, id), FirstWith(IdsOf(pool), id);
            && (c != null ==> c in pool)
            && (c == null ==> k == |pool| && CacheAfter(pool, cached, id, replacement) == cached)
            && (c != null && k < |pool| ==> (c !in Without(pool, k) <==> c == Scan(pool, id)))
            && (c != null && k == |pool| ==> id == -1 && c in pool && c != Scan(pool, id)
                                             && CacheAfter(pool, cached, id, replacement) == cached)
  {
    LookupIsLive(pool, cached, id);
    var k := FirstWith(IdsOf(pool), id);
    if k < |pool| {
      assert IdsOf(pool)[k] == id;
      WithoutMembers(pool, k);
    }
  }

  lemma WithoutMembers(pool: seq<Connection>, k: nat)
    requires k < |pool| && forall i, j :: 0 <= i < j < |pool| ==> pool[i] != pool[j]
    ensures forall c :: c in pool ==> (c in Without(pool, k) <==> c != pool[k])
  {
    forall c | c in pool && c != pool[k]
      ensures c in Without(pool, k)
    {
      var i :| 0 <= i < |pool| && pool[i] == c;
      assert Without(pool, k)[if i < k then i else i - 1] == c;
    }
  }

  lemma InFront(p: Connection, pool: seq<Connection>)
    ensures forall d :: d in [p] + pool <==> d == p || d in pool
  {
  }

  /** With a new connection in front, a lookup of its id still finds an older, cached one, but the
      first match is the new one. */
  lemma OlderIsFound(pool: seq<Connection>, cached: seq<Connection>, c: Connection)
    requires pool != [] && c in cached && pool[0] !in cached && pool[0].pId == c.pId
    ensures var p, d := pool[0], Lookup(pool, cached, pool[0].pId);
            && d != null && d in cached && (p.pId != -1 ==> d.pId == p.pId)
            && FirstWith(IdsOf(pool), p.pId) == 0 && Without(pool, 0) == pool[1..]
  {
    var k :| 0 <= k < |cached| && cached[k] == c;
    assert IdsOf(cached)[k] == c.pId && FirstWith(IdsOf(cached), c.pId) <= k;
    var h := Hit(cached, c.pId);
    assert cached[h] in cached && (c.pId != -1 ==> IdsOf(cached)[h] == c.pId);
    assert pool[..0] == [];
  }

  /** Adding a connection while a cached one carries its id separates the two, for every strand, id
      and connection: with the new one in front, and not cached, the disconnect closes an older one,
      which stays in the pool, and unlinks the new one. */
  method ReconnectWhileCached(s: Strand, c: Connection, replacement: nat) returns (r: int, closed: Connection?)
    requires s.Valid() && replacement < STRAND_CONNECTION_CACHE_SIZE
    requires s.pool != [] && c in s.Cached() && s.pool[0] !in s.Cached() && s.pool[0].pId == c.pId
    modifies s`cpool, s`pool, s`ccacheSize, s.ccache, s.pool
    ensures s.Valid() && s.pool == old(s.pool[1..]) && r != -1
    ensures closed != null && closed in s.pool && closed in old(s.Cached()) && !closed.connected
    ensures c.pId != -1 ==> closed.pId == c.pId
  {
    ghost var cached := s.Cached();
    OlderIsFound(s.pool, cached, c);
    r, closed := s.Disconnect(c.pId, replacement);
  }
}
