/** One strand executing its group, and the counters it keeps.  The kernel, the connections and
    signals are oracles that may answer anything (src/execute.c, src/flowops_library.c,
    src/stats.c). */
module Execute {
  import opened ByteOrder
  import opened Counting
  import opened Workorder
  import opened Traces

  const UPERF_SUCCESS := 0
  const UPERF_FAILURE := -1
  const UPERF_DURATION_EXPIRED := 4
  const EINTR := 4
  const DEFAULT_BUFFER_SIZE: nat := 8192

  predicate Transfers(f: Flowop) { Sends(OpOf(f)) || Receives(OpOf(f)) }

  /** A transfer of a fixed positive size that fits a C int; sendfile and random sizes are not modelled. */
  predicate Fixed(f: Flowop) { !f.Sendfile() && (Transfers(f) ==> 0 < f.io.size < 0x8000_0000 && !f.RandomSize()) }

  /** Besides the transfers and nop, the types with an execute function. */
  predicate Served(kind: nat) {
    kind == FLOWOP_CONNECT || kind == FLOWOP_DISCONNECT || kind == FLOWOP_ACCEPT || kind == FLOWOP_THINK
  }

  /** A C int converted to uint64_t. */
  function U64(x: int): nat { x % TWO_64 }

  /** Bytes moved over `k` calls of one flowop: never more than asked for, and exactly that when
      nothing went wrong. */
  ghost predicate CountedTimes(m0: nat, m1: nat, quiet: bool, k: nat, op: Op) {
    && m0 <= m1 <= m0 + Times(k, Moved(op))
    && (quiet ==> m1 == m0 + Times(k, Moved(op)))
  }

  lemma OneMore(m0: nat, m1: nat, quieter: bool, m2: nat, quiet: bool, k: nat, op: Op)
    requires CountedTimes(m0, m1, quieter, k, op)
    requires (quiet ==> quieter && m2 == m1 + Moved(op)) && m1 <= m2 <= m1 + Moved(op)
    ensures CountedTimes(m0, m2, quiet, k + 1, op) && Repeat(k + 1, [op]) == Repeat(k, [op]) + [op]
  {
    assert Repeat(k + 1, [op]) == Repeat(k, [op]) + [op];
  }

  lemma {:induction false} RepeatBytes(k: nat, op: Op)
    ensures TraceBytes(Repeat(k, [op])) == Times(k, Moved(op))
  {
    if k > 0 {
      RepeatBytes(k - 1, op);
      var t := Repeat(k - 1, [op]) + [op];
      assert t[..|t| - 1] == Repeat(k - 1, [op]) && t[|t| - 1] == op;
    }
  }

  /** What FLOWOP_END adds after `k` good calls. */
  lemma Accounted(ret: int, k: nat, op: Op)
    requires k > 0 ==> ret == Moved(op) < TWO_64
    ensures U64(ret) * k == Times(k, Moved(op))
  {
    TimesIsProduct(k, Moved(op));
    if k > 0 {
      assert U64(ret) == ret;
    }
  }

  lemma {:induction false} RepeatPrefix<T>(k: nat, n: nat, s: seq<T>)
    requires k <= n
    ensures Repeat(k, s) <= Repeat(n, s)
  {
    if k < n {
      RepeatPrefix(k, n - 1, s);
    }
  }

  /** group_max_dto_size: large enough for every flowop, and no larger than it has to be. */
  method GroupMaxDtoSize(g: Group) returns (r: nat)
    ensures r >= DEFAULT_BUFFER_SIZE && Every(g, (f: Flowop) => f.io.size <= r)
    ensures r == DEFAULT_BUFFER_SIZE || !Every(g, (f: Flowop) => f.io.size < r)
  {
    r := DEFAULT_BUFFER_SIZE;
    for i := 0 to |g.tlist|
      invariant r >= DEFAULT_BUFFER_SIZE
      invariant forall k, j :: 0 <= k < i && 0 <= j < |g.tlist[k].flist| ==> g.tlist[k].flist[j].io.size <= r
      invariant r == DEFAULT_BUFFER_SIZE || !Every(g, (f: Flowop) => f.io.size < r)
    {
      for j := 0 to |g.tlist[i].flist|
        invariant r >= DEFAULT_BUFFER_SIZE
        invariant forall k, l :: 0 <= k < i && 0 <= l < |g.tlist[k].flist| ==> g.tlist[k].flist[l].io.size <= r
        invariant forall l :: 0 <= l < j ==> g.tlist[i].flist[l].io.size <= r
        invariant r == DEFAULT_BUFFER_SIZE || !Every(g, (f: Flowop) => f.io.size < r)
      {
        if g.tlist[i].flist[j].io.size > r {
          r := g.tlist[i].flist[j].io.size;
        }
      }
    }
  }

  class Strand {
    var buffer: array<byte>
    var signalled: bool
    var errno: int
    /** The counters of the strand's statistics, 64 bits wide. */
    var size: nat
    var count: nat

    /** Every call of a flowop's execute function so far, the bytes the kernel has moved, and
        whether nothing has gone wrong yet: no error, no hangup, no signal, no EINTR. */
    ghost var calls: seq<Op>
    ghost var moved: nat
    ghost var quiet: bool

    /** What the last of them returned, what the kernel has last said in it and with which errno; what
        every flowop and every transaction has returned, and the numbers of errors found between
        transactions. */
    ghost var last: int
    ghost var lastIo: int
    ghost var ioErrno: int
    ghost var statuses: seq<int>
    ghost var results: seq<int>
    ghost var found: seq<nat>

    ghost predicate Valid()
      reads this
    {
      && size < TWO_64 && count < TWO_64
      && (quiet ==> errno != EINTR && !signalled)
    }

    constructor ()
      ensures Valid() && size == 0 && count == 0 && moved == 0 && calls == [] && quiet
    {
      buffer := new byte[0];
      signalled, errno, size, count := false, 0, 0, 0;
      calls, moved, quiet := [], 0, true;
      last, lastIo, ioErrno, statuses, results, found := 0, 1, 0, [], [], [];
    }

    /** A look at the flag a signal handler may have set meanwhile. */
    method Signalled() returns (b: bool)
      requires Valid()
      modifies this`signalled, this`quiet
      ensures Valid() && b == signalled && (quiet ==> old(quiet) && !b) && (old(signalled) ==> signalled)
    {
      if * {
        signalled, quiet := true, false;
      }
      b := signalled;
    }

    /** The connection of a flowop, cached or looked up; there may be none. */
    method Connected() returns (ok: bool)
      requires Valid()
      modifies this`quiet
      ensures Valid() && (quiet ==> old(quiet) && ok)
    {
      ok := *;
      quiet := quiet && ok;
    }

    /** read, write, send or recv on a connection, `want` bytes at `off` of the strand's buffer. */
    method Io(off: nat, want: nat) returns (n: int)
      requires Valid() && 0 < want && off + want <= buffer.Length
      modifies this`errno, this`moved, this`quiet, this`lastIo, this`ioErrno, buffer
      ensures Valid() && n <= want && lastIo == n && ioErrno == errno
      ensures moved == old(moved) + if n > 0 then n else 0
      ensures n > 0 ==> errno == old(errno) && quiet == old(quiet)
      ensures n <= 0 ==> !quiet
      ensures forall k :: 0 <= k < buffer.Length && !(off <= k < off + want) ==> buffer[k] == old(buffer[k])
    {
      n := *;
      if n > want {
        n := want;
      }
      if n > 0 {
        moved := moved + n;
        forall k | off <= k < off + n {
          buffer[k] := 0;
        }
      } else {
        errno := *;
        quiet := false;
      }
      lastIo, ioErrno := n, errno;
    }

    /** flowop_rw: keeps calling until the whole size has been moved, never outside the buffer.  A hangup
        looks like EINTR, an error keeps its errno, and nothing else changes it. */
    method FlowopRw(f: Flowop) returns (r: int)
      requires Valid() && Transfers(f) && Fixed(f) && f.io.size <= buffer.Length
      modifies this`errno, this`moved, this`quiet, this`signalled, this`lastIo, this`ioErrno, buffer
      ensures Valid() && (quiet ==> old(quiet) && r != -1) && (old(signalled) ==> signalled)
      ensures lastIo == 0 ==> r == -1 && errno == EINTR
      ensures lastIo < 0 ==> r == -1 && errno == ioErrno
      ensures lastIo > 0 ==> errno == old(errno)
      ensures r == -1 || r == f.io.size
      ensures r == f.io.size ==> moved == old(moved) + f.io.size
      ensures r == -1 ==> old(moved) <= moved < old(moved) + f.io.size
    {
      lastIo := 1;
      var ok := Connected();
      if !ok {
        return -1;
      }
      var sz := 0;
      while sz < f.io.size
        invariant Valid() && 0 <= sz <= f.io.size && moved == old(moved) + sz && (quiet ==> old(quiet))
        invariant (old(signalled) ==> signalled) && lastIo > 0 && errno == old(errno)
        decreases f.io.size - sz
      {
        var b := Signalled();
        if b {
          return -1;
        }
        var n := Io(sz, f.io.size - sz);
        if n == 0 {
          errno := EINTR;
          return -1;
        }
        if n < 0 {
          return -1;
        }
        sz := sz + n;
      }
      r := sz;
    }

    /** Any other flowop: a nop returns 0, an unknown type fails, the rest is up to the kernel. */
    method Other(f: Flowop) returns (r: int)
      requires Valid()
      modifies this`errno, this`quiet
      ensures Valid() && (quiet ==> old(quiet) && r == 0)
      ensures f.kind == FLOWOP_NOP ==> r == 0 && errno == old(errno) && quiet == old(quiet)
      ensures f.kind != FLOWOP_NOP && !Served(f.kind) ==> r == -1
    {
      if f.kind == FLOWOP_NOP {
        return 0;
      }
      if Served(f.kind) {
        r := *;
      } else {
        r := -1;
      }
      if r != 0 {
        errno := *;
        quiet := false;
      }
    }

    /** fp->execute, as flowop_get_execute_func chooses it. */
    method Execute(f: Flowop) returns (r: int)
      requires Valid() && Fixed(f) && f.io.size <= buffer.Length
      modifies this`errno, this`moved, this`quiet, this`signalled, this`calls, this`last, this`lastIo, this`ioErrno
      modifies buffer
      ensures Valid() && (quiet ==> old(quiet) && r == Moved(OpOf(f)) && moved == old(moved) + Moved(OpOf(f)))
      ensures last == r && (old(signalled) ==> signalled)
      ensures calls == old(calls) + [OpOf(f)]
      ensures old(moved) <= moved <= old(moved) + Moved(OpOf(f))
    {
      calls := calls + [OpOf(f)];
      if Transfers(f) {
        r := FlowopRw(f);
      } else {
        r := Other(f);
      }
      last := r;
    }

    /** FLOWOP_END: the return value of the last call times the number of calls that did not stop
        the loop, in 64 bits. */
    method Record(ret: int, i: nat)
      requires Valid()
      modifies this`size, this`count
      ensures Valid() && size == (old(size) + U64(ret) * i) % TWO_64 && count == (old(count) + i) % TWO_64
    {
      size := (size + U64(ret) * i % TWO_64) % TWO_64;
      count := (count + i) % TWO_64;
      ModAdd(old(size), U64(ret) * i);
    }

    /** One call in the loop of flowop_execute, after `k` good ones; a failure that is allowed counts
        as returning 0. */
    method Call(f: Flowop, ghost k: nat, ghost was: seq<Op>, ghost m0: nat) returns (ret: int)
      requires Valid() && Fixed(f) && f.io.size <= buffer.Length
      requires calls == was + Repeat(k, [OpOf(f)]) && CountedTimes(m0, moved, quiet, k, OpOf(f))
      modifies this`errno, this`moved, this`quiet, this`signalled, this`calls, this`last, this`lastIo, this`ioErrno
      modifies buffer
      ensures Valid() && ret == (if last < 0 && f.CanFail() then 0 else last)
      ensures calls == was + Repeat(k + 1, [OpOf(f)]) && CountedTimes(m0, moved, quiet, k + 1, OpOf(f))
      ensures quiet ==> old(quiet) && ret == Moved(OpOf(f))
    {
      ghost var m, q := moved, quiet;
      ret := Execute(f);
      OneMore(m0, m, q, moved, quiet, k, OpOf(f));
      if f.CanFail() && ret < 0 {
        ret := 0;
      }
    }

    /** The loop of flowop_execute: `k` calls, of which `i` did not end it.  Only a signal, or a failure
        that is not allowed, keeps it from making all of them. */
    method Calls(f: Flowop) returns (ret: int, i: nat, early: bool, ghost k: nat)
      requires Valid() && Fixed(f) && f.io.size <= buffer.Length
      modifies this`errno, this`moved, this`quiet, this`signalled, this`calls, this`last, this`lastIo, this`ioErrno
      modifies buffer
      ensures Valid() && i <= k <= f.io.count && calls == old(calls) + Repeat(k, [OpOf(f)])
      ensures ret == (if k == 0 || (last < 0 && f.CanFail()) then 0 else last)
      ensures i == if ret < 0 then k - 1 else k
      ensures early ==> signalled && ret >= 0 && k < f.io.count
      ensures early ==> !quiet
      ensures !early && ret >= 0 ==> i == k == f.io.count
      ensures ret < 0 ==> !f.CanFail() && k > 0
      ensures CountedTimes(old(moved), moved, quiet, k, OpOf(f))
      ensures quiet ==> old(quiet) && ret >= 0 && i == k && (k > 0 ==> ret == Moved(OpOf(f)))
    {
      i, ret, k, early := 0, 0, 0, false;
      while i < f.io.count && ret >= 0 && !early
        invariant Valid() && i <= k <= f.io.count && (ret >= 0 ==> i == k) && (ret < 0 ==> i + 1 == k && !f.CanFail())
        invariant ret == (if k == 0 || (last < 0 && f.CanFail()) then 0 else last)
        invariant early ==> signalled && ret >= 0 && k < f.io.count
        invariant calls == old(calls) + Repeat(k, [OpOf(f)]) && CountedTimes(old(moved), moved, quiet, k, OpOf(f))
        invariant quiet ==> old(quiet) && !early && ret >= 0 && (k > 0 ==> ret == Moved(OpOf(f)))
        decreases f.io.count - i, ret, !early
      {
        early := Signalled();
        if !early {
          ret := Call(f, k, old(calls), old(moved));
          k := k + 1;
          if ret >= 0 {
            i := i + 1;
          }
        }
      }
    }

    /** What flowop_execute returns after `k` calls: a signal or EINTR is the end of the duration, whatever
        was returned; otherwise a failure that is not allowed is one. */
    ghost function Status(f: Flowop, k: nat): int
      reads this
    {
      if signalled || errno == EINTR then UPERF_DURATION_EXPIRED
      else if Refused(f, k) then UPERF_FAILURE
      else UPERF_SUCCESS
    }

    /** The last of `k` calls has failed, and may not. */
    ghost predicate Refused(f: Flowop, k: nat)
      reads this`last
    {
      k > 0 && last < 0 && !f.CanFail()
    }

    /** The end of it, with the value of the loop and the calls that did not end it. */
    method Conclude(f: Flowop, ret: int, i: nat, ghost k: nat) returns (r: int)
      requires Valid() && ret == (if k == 0 || (last < 0 && f.CanFail()) then 0 else last)
      requires i == (if ret < 0 then k - 1 else k) && (quiet ==> ret >= 0)
      modifies this`size, this`count, this`signalled, this`quiet
      ensures Valid() && (quiet ==> old(quiet) && r == UPERF_SUCCESS) && r == Status(f, k)
      ensures Recorded(old(size), old(count), f, k) && size == (old(size) + U64(ret) * i) % TWO_64
    {
      Record(ret, i);
      var b := Signalled();
      if errno == EINTR || b {
        r := UPERF_DURATION_EXPIRED;
      } else {
        r := if ret >= 0 then UPERF_SUCCESS else UPERF_FAILURE;
      }
    }

    /** flowop_execute.  However it ends, `k` calls were made, moving no more than they should; all of them
        unless there was a signal or a failure; and with no error or signal the counters grow by what was
        moved.  A signal between the calls leaves the counters alone. */
    method FlowopExecute(f: Flowop) returns (r: int, ghost k: nat)
      requires Valid() && Fixed(f) && f.io.size <= buffer.Length
      modifies this, buffer
      ensures Valid() && buffer == old(buffer) && (quiet ==> old(quiet) && r == UPERF_SUCCESS)
      ensures r == Status(f, k) && statuses == old(statuses) + [r]
      ensures results == old(results) && found == old(found)
      ensures k <= f.io.count && calls == old(calls) + Repeat(k, [OpOf(f)])
      ensures k < f.io.count ==> signalled || Refused(f, k)
      ensures (size == old(size) && count == old(count)) || Recorded(old(size), old(count), f, k)
      ensures r != UPERF_DURATION_EXPIRED ==> Recorded(old(size), old(count), f, k)
      ensures Counted(old(moved), old(size), moved, size, quiet, Repeat(k, [OpOf(f)]))
    {
      var ret, i, early;
      ret, i, early, k := Calls(f);
      RepeatBytes(k, OpOf(f));
      r := UPERF_DURATION_EXPIRED;
      if !early {
        if quiet {
          Accounted(ret, i, OpOf(f));
        }
        r := Conclude(f, ret, i, k);
      }
      statuses := statuses + [r];
    }

    /** The counters after FLOWOP_END for `k` calls: the last value, 0 for an allowed failure, times the
        calls that did not end the loop. */
    ghost predicate Recorded(size0: nat, count0: nat, f: Flowop, k: nat)
      reads this`last, this`size, this`count
    {
      var ret := if k == 0 || (last < 0 && f.CanFail()) then 0 else last;
      var good := if ret < 0 then k - 1 else k;
      size == (size0 + U64(ret) * good) % TWO_64 && count == (count0 + good) % TWO_64
    }

    /** One flowop of a transaction, after the ones before it have succeeded. */
    method NextFlowop(fs: seq<Flowop>, j: nat, ghost was: seq<Op>, ghost m0: nat, ghost z0: nat)
        returns (r: int, ghost done: seq<Op>)
      requires Valid() && j < |fs| && Fixed(fs[j]) && fs[j].io.size <= buffer.Length
      requires calls == was + BodyTrace(fs[..j]) && Counted(m0, z0, moved, size, quiet, BodyTrace(fs[..j]))
      modifies this, buffer
      ensures Valid() && buffer == old(buffer) && (quiet ==> old(quiet) && r == UPERF_SUCCESS)
      ensures Is(r) && statuses == old(statuses) + [r] && results == old(results) && found == old(found)
      ensures calls == was + done && done <= BodyTrace(fs) && Counted(m0, z0, moved, size, quiet, done)
      ensures r == UPERF_SUCCESS ==> done == BodyTrace(fs[..j + 1])
    {
      ghost var m, z, q, k := moved, size, quiet, 0;
      r, k := FlowopExecute(fs[j]);
      CountedAppend(m0, z0, m, z, q, moved, size, quiet, BodyTrace(fs[..j]), Repeat(k, [OpOf(fs[j])]));
      BodyPart(fs, j, k);
      done := BodyTrace(fs[..j]) + Repeat(k, [OpOf(fs[j])]);
    }

    /** txn_execute_once: flowops in order until one does not succeed, which is what it returns. */
    method TxnExecuteOnce(fs: seq<Flowop>) returns (r: int, ghost done: seq<Op>)
      requires Valid() && forall j :: 0 <= j < |fs| ==> Fixed(fs[j]) && fs[j].io.size <= buffer.Length
      modifies this, buffer
      ensures Valid() && buffer == old(buffer) && (quiet ==> old(quiet) && r == UPERF_SUCCESS)
      ensures Is(r) && results == old(results) && found == old(found)
      ensures old(statuses) <= statuses && Ends(statuses[|old(statuses)|..], r)
      ensures r == UPERF_SUCCESS ==> |statuses| == old(|statuses|) + |fs|
      ensures calls == old(calls) + done && done <= BodyTrace(fs)
      ensures r == UPERF_SUCCESS ==> done == BodyTrace(fs)
      ensures Counted(old(moved), old(size), moved, size, quiet, done)
    {
      r, done := UPERF_SUCCESS, [];
      var j := 0;
      while j < |fs| && r == UPERF_SUCCESS
        invariant 0 <= j <= |fs| && Valid() && buffer == old(buffer) && (quiet ==> old(quiet) && r == UPERF_SUCCESS)
        invariant Is(r) && results == old(results) && found == old(found)
        invariant old(statuses) <= statuses && Ends(statuses[|old(statuses)|..], r)
        invariant |statuses| == old(|statuses|) + j
        invariant calls == old(calls) + done && done <= BodyTrace(fs)
        invariant r == UPERF_SUCCESS ==> done == BodyTrace(fs[..j])
        invariant Counted(old(moved), old(size), moved, size, quiet, done)
      {
        ghost var before := statuses;
        r, done := NextFlowop(fs, j, old(calls), old(moved), old(size));
        EndsMore(old(statuses), before, statuses, r);
        j := j + 1;
      }
      assert fs[..|fs|] == fs;
    }

    /** One iteration, after `i` good ones. */
    method NextIteration(t: Txn, i: nat, ghost was: seq<Op>, ghost m0: nat, ghost z0: nat)
        returns (r: int, ghost done: seq<Op>)
      requires Valid() && forall j :: 0 <= j < |t.flist| ==> Fixed(t.flist[j]) && t.flist[j].io.size <= buffer.Length
      requires calls == was + Repeat(i, BodyTrace(t.flist)) && i < t.hdr.iter
      requires Counted(m0, z0, moved, size, quiet, Repeat(i, BodyTrace(t.flist)))
      modifies this, buffer
      ensures Valid() && buffer == old(buffer) && (quiet ==> old(quiet) && r == UPERF_SUCCESS)
      ensures Is(r) && results == old(results) && found == old(found)
      ensures old(statuses) <= statuses && Ends(statuses[|old(statuses)|..], r)
      ensures calls == was + done && done <= TxnTrace(t)
      ensures r == UPERF_SUCCESS ==> done == Repeat(i + 1, BodyTrace(t.flist))
      ensures Counted(m0, z0, moved, size, quiet, done)
    {
      ghost var m, z, q, body, more := moved, size, quiet, BodyTrace(t.flist), [];
      r, more := TxnExecuteOnce(t.flist);
      CountedAppend(m0, z0, m, z, q, moved, size, quiet, Repeat(i, body), more);
      done := Repeat(i, body) + more;
      IterationPart(i, t, more);
    }

    /** txn_iterations. */
    method TxnIterations(t: Txn) returns (r: int, ghost done: seq<Op>)
      requires Valid() && forall j :: 0 <= j < |t.flist| ==> Fixed(t.flist[j]) && t.flist[j].io.size <= buffer.Length
      modifies this, buffer
      ensures Valid() && buffer == old(buffer) && (quiet ==> old(quiet) && r == UPERF_SUCCESS)
      ensures Is(r) && results == old(results) && found == old(found)
      ensures old(statuses) <= statuses && Ends(statuses[|old(statuses)|..], r)
      ensures calls == old(calls) + done && done <= TxnTrace(t)
      ensures r == UPERF_SUCCESS ==> done == TxnTrace(t)
      ensures Counted(old(moved), old(size), moved, size, quiet, done)
    {
      r, done := UPERF_SUCCESS, [];
      var i := 0;
      while i < t.hdr.iter && r == UPERF_SUCCESS
        invariant 0 <= i <= t.hdr.iter && Valid() && buffer == old(buffer)
        invariant quiet ==> old(quiet) && r == UPERF_SUCCESS
        invariant Is(r) && results == old(results) && found == old(found)
        invariant old(statuses) <= statuses && Ends(statuses[|old(statuses)|..], r)
        invariant calls == old(calls) + done && done <= TxnTrace(t)
        invariant r == UPERF_SUCCESS ==> done == Repeat(i, BodyTrace(t.flist))
        invariant Counted(old(moved), old(size), moved, size, quiet, done)
      {
        ghost var before := statuses;
        r, done := NextIteration(t, i, old(calls), old(moved), old(size));
        EndsMore(old(statuses), before, statuses, r);
        i := i + 1;
      }
    }

    /** The slave's or master's release of a barrier takes its time, and meanwhile errors may be
        flagged elsewhere. */
    method GlobalError() returns (n: nat)
      requires Valid()
      modifies this`quiet, this`found
      ensures Valid() && (quiet ==> old(quiet) && n <= 1) && found == old(found) + [n]
    {
      n := *;
      quiet := quiet && n <= 1;
      found := found + [n];
    }

    /** txn_execute for a transaction without duration, and CLEAR_SIGNAL. */
    method TxnExecute(t: Txn) returns (r: int, ghost done: seq<Op>)
      requires Valid() && forall j :: 0 <= j < |t.flist| ==> Fixed(t.flist[j]) && t.flist[j].io.size <= buffer.Length
      modifies this, buffer
      ensures Valid() && buffer == old(buffer) && (quiet ==> old(quiet) && r == UPERF_SUCCESS)
      ensures Is(r) && results == old(results) + [r] && found == old(found) && !signalled
      ensures old(statuses) <= statuses && Ends(statuses[|old(statuses)|..], r)
      ensures calls == old(calls) + done && done <= TxnTrace(t)
      ensures r == UPERF_SUCCESS ==> done == TxnTrace(t)
      ensures Counted(old(moved), old(size), moved, size, quiet, done)
    {
      r, done := TxnIterations(t);
      signalled := false;
      results := results + [r];
    }

    /** The next transaction of a group, unless too many errors have been flagged. */
    method NextTxn(ts: seq<Txn>, ghost cuts: seq<seq<Op>>, ghost done: seq<int>, i: nat, ghost was: seq<Op>,
                   ghost m0: nat, ghost z0: nat)
      returns (r: int, ghost next: seq<seq<Op>>)
      requires Valid() && i == |cuts| < |ts| && TxnFixed(ts[i], buffer.Length) && WholeAfter(ts, cuts, done)
      requires CutsOf(ts, cuts) && calls == was + Joined(cuts) && Counted(m0, z0, moved, size, quiet, Joined(cuts))
      modifies this, buffer
      ensures Valid() && buffer == old(buffer) && (quiet ==> old(quiet) && r == UPERF_SUCCESS)
      ensures Is(r) && results == old(results) + [r] && found == old(found)
      ensures CutsOf(ts, next) && |next| == |cuts| + 1 && (quiet && Whole(ts, cuts) ==> Whole(ts, next))
      ensures WholeAfter(ts, next, done + [r])
      ensures calls == was + Joined(next) && Counted(m0, z0, moved, size, quiet, Joined(next))
    {
      ghost var m, z, q, more := moved, size, quiet, [];
      r, more := TxnExecute(ts[i]);
      CountedAppend(m0, z0, m, z, q, moved, size, quiet, Joined(cuts), more);
      JoinedSnoc(cuts, more);
      CutsSnoc(ts, cuts, done, more, r);
      next := cuts + [more];
    }

    /** The body of the loop over the transactions of a group: a look at the errors, and the next one. */
    method Turn(ts: seq<Txn>, ghost cuts: seq<seq<Op>>, ghost done: seq<int>, ghost looks: seq<nat>, i: nat, r0: int,
                ghost was: seq<Op>, ghost m0: nat, ghost z0: nat)
      returns (r: int, ghost next: seq<seq<Op>>, errors: nat)
      requires Valid() && i == |cuts| < |ts| && TxnFixed(ts[i], buffer.Length)
      requires CutsOf(ts, cuts) && calls == was + Joined(cuts) && Counted(m0, z0, moved, size, quiet, Joined(cuts))
      requires quiet ==> r0 == UPERF_SUCCESS && Whole(ts, cuts)
      requires WholeAfter(ts, cuts, done) && Turns(done, looks, i, r0, 0) && r0 != UPERF_FAILURE
      modifies this, buffer
      ensures Valid() && buffer == old(buffer) && found == old(found) + [errors]
      ensures quiet ==> old(quiet) && r == UPERF_SUCCESS && Whole(ts, next) && errors <= 1
      ensures results == old(results) + if errors <= 1 then [r] else []
      ensures |next| == if errors <= 1 then i + 1 else i
      ensures Turns(if errors <= 1 then done + [r] else done, looks + [errors], |next|, r, errors)
      ensures WholeAfter(ts, next, if errors <= 1 then done + [r] else done)
      ensures CutsOf(ts, next) && calls == was + Joined(next) && Counted(m0, z0, moved, size, quiet, Joined(next))
    {
      r, next := r0, cuts;
      errors := GlobalError();
      if errors <= 1 {
        r, next := NextTxn(ts, cuts, done, i, was, m0, z0);
      }
      TurnsMore(done, looks, i, r0, r, errors);
    }

    /** The loop over the transactions of a group. */
    method ExecuteTxns(ts: seq<Txn>) returns (r: int, ghost cuts: seq<seq<Op>>)
      requires Valid() && forall i :: 0 <= i < |ts| ==> TxnFixed(ts[i], buffer.Length)
      modifies this, buffer
      ensures Valid() && (quiet ==> old(quiet) && r == UPERF_SUCCESS && Whole(ts, cuts) && |cuts| == |ts|)
      ensures old(results) <= results && old(found) <= found
      ensures InTurn(results[|old(results)|..], found[|old(found)|..], |ts|, r)
      ensures CutsOf(ts, cuts)
      ensures WholeAfter(ts, cuts, results[|old(results)|..])
      ensures calls == old(calls) + Joined(cuts)
      ensures Counted(old(moved), old(size), moved, size, quiet, Joined(cuts))
    {
      r, cuts := UPERF_SUCCESS, [];
      var errors := 0;
      ghost var done, looks := [], [];
      var i := 0;
      while i < |ts| && errors <= 1 && r != UPERF_FAILURE
        invariant 0 <= i <= |ts| && Valid() && buffer == old(buffer)
        invariant results == old(results) + done && found == old(found) + looks && Turns(done, looks, i, r, errors)
        invariant |done| == i == |cuts| && CutsOf(ts, cuts) && WholeAfter(ts, cuts, done)
        invariant quiet ==> old(quiet) && r == UPERF_SUCCESS && Whole(ts, cuts) && errors <= 1
        invariant calls == old(calls) + Joined(cuts)
        invariant Counted(old(moved), old(size), moved, size, quiet, Joined(cuts))
        decreases |ts| - i, if errors <= 1 then 1 else 0
      {
        r, cuts, errors := Turn(ts, cuts, done, looks, i, r, old(calls), old(moved), old(size));
        looks := looks + [errors];
        if errors <= 1 {
          done := done + [r];
          i := i + 1;
        }
      }
      TurnsEnd(done, looks, i, |ts|, r, errors);
    }

    /** group_execute, transactions by iteration.  `cuts` are the calls made in each transaction
        begun: always the first part of its trace, all of it after a success; only a failure or an
        error elsewhere keeps the following ones from being begun.  With no error, hangup or signal
        the calls are exactly the group's trace, and the counter grows by exactly the bytes of it. */
    method GroupExecute(g: Group) returns (r: int, ghost cuts: seq<seq<Op>>)
      requires Valid() && Every(g, f => Fixed(f)) && forall i :: 0 <= i < |g.tlist| ==> g.tlist[i].hdr.duration == 0
      modifies this
      ensures Valid() && (quiet ==> old(quiet) && r == UPERF_SUCCESS && Joined(cuts) == GroupTrace(g))
      ensures old(results) <= results && old(found) <= found
      ensures InTurn(results[|old(results)|..], found[|old(found)|..], |g.tlist|, r)
      ensures CutsOf(g.tlist, cuts)
      ensures WholeAfter(g.tlist, cuts, results[|old(results)|..])
      ensures calls == old(calls) + Joined(cuts)
      ensures Counted(old(moved), old(size), moved, size, quiet, Joined(cuts))
    {
      var room := GroupMaxDtoSize(g);
      buffer := new byte[room];
      r, cuts := ExecuteTxns(g.tlist);
      if quiet {
        JoinedWhole(g.tlist, cuts);
      }
    }
  }

  /** What a flowop or a transaction may return. */
  predicate Is(r: int) { r == UPERF_SUCCESS || r == UPERF_FAILURE || r == UPERF_DURATION_EXPIRED }

  /** Flowops have succeeded one after the other; `r` is the first result that is no success, and ends them. */
  ghost predicate Ends(statuses: seq<int>, r: int) {
    && (forall i :: 0 <= i < |statuses| - 1 ==> statuses[i] == UPERF_SUCCESS)
    && (statuses == [] ==> r == UPERF_SUCCESS)
    && (statuses != [] ==> statuses[|statuses| - 1] == r)
  }

  lemma EndsMore(was: seq<int>, before: seq<int>, now: seq<int>, r: int)
    requires was <= before <= now && Ends(before[|was|..], UPERF_SUCCESS) && Ends(now[|before|..], r)
    ensures Ends(now[|was|..], r)
  {
    var a, b := before[|was|..], now[|before|..];
    assert now[|was|..] == a + b;
    assert a != [] ==> a[|a| - 1] == UPERF_SUCCESS;
  }

  lemma IterationPart(i: nat, t: Txn, more: seq<Op>)
    requires i < t.hdr.iter && more <= BodyTrace(t.flist)
    ensures Repeat(i, BodyTrace(t.flist)) + more <= TxnTrace(t)
    ensures more == BodyTrace(t.flist) ==> Repeat(i, BodyTrace(t.flist)) + more == Repeat(i + 1, BodyTrace(t.flist))
    ensures i + 1 == t.hdr.iter ==> Repeat(i + 1, BodyTrace(t.flist)) == TxnTrace(t)
  {
    RepeatPrefix(i + 1, t.hdr.iter, BodyTrace(t.flist));
  }

  /** `i` transactions have been begun, each after at most one error was found, and only the last may have
      failed; if `errors` is more than one that ends them. */
  ghost predicate Turns(results: seq<int>, found: seq<nat>, i: nat, r: int, errors: nat) {
    && |results| == i && |found| == (if errors > 1 then i + 1 else i)
    && (errors > 1 ==> found[i] == errors && r != UPERF_FAILURE)
    && (forall k :: 0 <= k < i ==> found[k] <= 1)
    && (forall k :: 0 <= k < i - 1 ==> results[k] != UPERF_FAILURE)
    && r == if results == [] then UPERF_SUCCESS else results[|results| - 1]
  }

  /** Every transaction that has succeeded was executed in full. */
  ghost predicate WholeAfter(ts: seq<Txn>, cuts: seq<seq<Op>>, results: seq<int>) {
    && |cuts| == |results| <= |ts|
    && forall i :: 0 <= i < |results| && results[i] == UPERF_SUCCESS ==> cuts[i] == TxnTrace(ts[i])
  }

  lemma TurnsMore(results: seq<int>, found: seq<nat>, i: nat, r0: int, r: int, errors: nat)
    requires Turns(results, found, i, r0, 0) && r0 != UPERF_FAILURE && (errors > 1 ==> r == r0)
    ensures errors > 1 ==> Turns(results, found + [errors], i, r, errors)
    ensures errors <= 1 ==> Turns(results + [r], found + [errors], i + 1, r, errors)
  {
  }

  lemma TurnsEnd(results: seq<int>, found: seq<nat>, i: nat, n: nat, r: int, errors: nat)
    requires Turns(results, found, i, r, errors) && i <= n && (i < n ==> errors > 1 || r == UPERF_FAILURE)
    ensures InTurn(results, found, n, r)
  {
  }

  /** Of `n` transactions the next one is begun exactly when the one before has not failed and at most one
      error is found; the result is that of the last one begun. */
  ghost predicate InTurn(results: seq<int>, found: seq<nat>, n: nat, r: int) {
    && |results| <= n && |results| <= |found| <= |results| + 1
    && (forall i :: 0 <= i < |results| ==> found[i] <= 1)
    && (forall i :: 0 <= i < |results| - 1 ==> results[i] != UPERF_FAILURE)
    && (|results| < n ==> (r == UPERF_FAILURE && |found| == |results| > 0) ||
                          (|found| == |results| + 1 && found[|results|] > 1 && r != UPERF_FAILURE))
    && r == if results == [] then UPERF_SUCCESS else results[|results| - 1]
  }

  ghost predicate TxnFixed(t: Txn, room: nat) {
    forall j :: 0 <= j < |t.flist| ==> Fixed(t.flist[j]) && t.flist[j].io.size <= room
  }

  lemma CutsSnoc(ts: seq<Txn>, cuts: seq<seq<Op>>, done: seq<int>, more: seq<Op>, r: int)
    requires CutsOf(ts, cuts) && |cuts| < |ts| && more <= TxnTrace(ts[|cuts|]) && WholeAfter(ts, cuts, done)
    requires r == UPERF_SUCCESS ==> more == TxnTrace(ts[|cuts|])
    ensures CutsOf(ts, cuts + [more]) && WholeAfter(ts, cuts + [more], done + [r])
    ensures Whole(ts, cuts) && more == TxnTrace(ts[|cuts|]) ==> Whole(ts, cuts + [more])
  {
  }

  /** Each transaction begun was executed up to some point. */
  ghost predicate CutsOf(ts: seq<Txn>, cuts: seq<seq<Op>>) {
    && |cuts| <= |ts|
    && forall i :: 0 <= i < |cuts| ==> cuts[i] <= TxnTrace(ts[i])
  }

  ghost predicate Whole(ts: seq<Txn>, cuts: seq<seq<Op>>) {
    && |cuts| <= |ts|
    && forall i :: 0 <= i < |cuts| ==> cuts[i] == TxnTrace(ts[i])
  }

  lemma {:induction false} JoinedWhole(ts: seq<Txn>, cuts: seq<seq<Op>>)
    requires |cuts| == |ts| && Whole(ts, cuts)
    ensures Joined(cuts) == ListTrace(ts)
  {
    if ts != [] {
      JoinedWhole(ts[..|ts| - 1], cuts[..|ts| - 1]);
    }
  }

  function Joined(cuts: seq<seq<Op>>): seq<Op> {
    if cuts == [] then [] else Joined(cuts[..|cuts| - 1]) + cuts[|cuts| - 1]
  }

  lemma JoinedSnoc(cuts: seq<seq<Op>>, more: seq<Op>)
    ensures Joined(cuts + [more]) == Joined(cuts) + more
  {
    assert (cuts + [more])[..|cuts|] == cuts;
  }

  lemma BodyPart(fs: seq<Flowop>, j: nat, k: nat)
    requires j < |fs| && k <= fs[j].io.count
    ensures BodyTrace(fs[..j]) + Repeat(k, [OpOf(fs[j])]) <= BodyTrace(fs)
    ensures k == fs[j].io.count ==> BodyTrace(fs[..j]) + Repeat(k, [OpOf(fs[j])]) == BodyTrace(fs[..j + 1])
  {
    BodyGrows(fs, j);
    RepeatPrefix(k, fs[j].io.count, [OpOf(fs[j])]);
  }

  /** The bytes moved and counted over the calls of `t`: never more than they ask for; with no
      error or signal exactly that, and the counter, 64 bits wide, follows. */
  ghost predicate Counted(m0: nat, z0: nat, m1: nat, z1: nat, quiet: bool, t: seq<Op>) {
    && m0 <= m1 <= m0 + TraceBytes(t)
    && (quiet ==> m1 == m0 + TraceBytes(t) && z1 == (z0 + TraceBytes(t)) % TWO_64)
  }

  lemma CountedAppend(m0: nat, z0: nat, m1: nat, z1: nat, quieter: bool, m2: nat, z2: nat, quiet: bool,
                      t: seq<Op>, u: seq<Op>)
    requires Counted(m0, z0, m1, z1, quieter, t) && Counted(m1, z1, m2, z2, quiet, u) && (quiet ==> quieter)
    ensures Counted(m0, z0, m2, z2, quiet, t + u)
  {
    TraceBytesConcat(t, u);
    if quiet {
      ModAdd(TraceBytes(u), z0 + TraceBytes(t));
    }
  }

  /** The body up to flowop j is a prefix, and flowop j comes next. */
  lemma {:induction false} BodyGrows(fs: seq<Flowop>, j: nat)
    requires j < |fs|
    ensures BodyTrace(fs[..j + 1]) == BodyTrace(fs[..j]) + FlowopTrace(fs[j])
    ensures BodyTrace(fs[..j + 1]) <= BodyTrace(fs)
    decreases |fs|
  {
    assert fs[..j + 1][..j] == fs[..j];
    var m := |fs| - 1;
    if j < m {
      BodyGrows(fs[..m], j);
      assert fs[..m][..j + 1] == fs[..j + 1] && fs[..m][..j] == fs[..j];
    } else {
      assert fs[..j + 1] == fs;
    }
  }

  lemma ModAdd(a: nat, b: nat)
    ensures (a + b % TWO_64) % TWO_64 == (a + b) % TWO_64
  {
  }

  // ---- Totals over the strands ----

  ghost function SizesOf(strands: seq<Strand>): (r: seq<nat>)
    reads strands
    ensures |r| == |strands| && forall i :: 0 <= i < |strands| ==> r[i] == strands[i].size
  {
    seq(|strands|, i requires 0 <= i < |strands| reads strands => strands[i].size)
  }

  ghost function CountsOf(strands: seq<Strand>): (r: seq<nat>)
    reads strands
    ensures |r| == |strands| && forall i :: 0 <= i < |strands| ==> r[i] == strands[i].count
  {
    seq(|strands|, i requires 0 <= i < |strands| reads strands => strands[i].count)
  }

  /** agg_stat of the shared region. */
  class Totals {
    var size: nat
    var count: nat

    /** update_aggr_stat: the sums over all strands, 64 bits wide. */
    method Update(strands: seq<Strand>)
      modifies this
      ensures size == Sum(SizesOf(strands)) % TWO_64 && count == Sum(CountsOf(strands)) % TWO_64
    {
      ghost var sizes, counts := SizesOf(strands), CountsOf(strands);
      size, count := 0, 0;
      for i := 0 to |strands|
        invariant SizesOf(strands) == sizes && CountsOf(strands) == counts
        invariant SumsTo(sizes, i, size) && SumsTo(counts, i, count)
      {
        SumModSnoc(sizes, i, size);
        SumModSnoc(counts, i, count);
        size := (size + strands[i].size) % TWO_64;
        count := (count + strands[i].count) % TWO_64;
      }
      SumsToAll(sizes, size);
      SumsToAll(counts, count);
    }
  }

  /** The first `i` numbers in 64 bits. */
  ghost predicate SumsTo(s: seq<nat>, i: nat, sum: nat) { i <= |s| && sum == Sum(s[..i]) % TWO_64 }

  lemma SumsToAll(s: seq<nat>, sum: nat)
    requires SumsTo(s, |s|, sum)
    ensures sum == Sum(s) % TWO_64
  {
    assert s[..|s|] == s;
  }

  lemma SumModSnoc(s: seq<nat>, i: nat, sum: nat)
    requires i < |s| && SumsTo(s, i, sum)
    ensures SumsTo(s, i + 1, (sum + s[i]) % TWO_64)
  {
    assert s[..i + 1][..i] == s[..i];
    ModSum(Sum(s[..i]), s[i]);
  }

  lemma ModSum(a: nat, b: nat)
    ensures (a % TWO_64 + b) % TWO_64 == (a + b) % TWO_64
  {
  }

  /** Conservation: when every strand's counter is what the kernel moved for it, the total is what
      the kernel moved for all of them. */
  lemma {:induction false} TotalIsMoved(sizes: seq<nat>, moved: seq<nat>)
    requires |sizes| == |moved| && forall i :: 0 <= i < |sizes| ==> sizes[i] == moved[i] % TWO_64
    ensures Sum(sizes) % TWO_64 == Sum(moved) % TWO_64
  {
    if sizes != [] {
      var m := |sizes| - 1;
      TotalIsMoved(sizes[..m], moved[..m]);
      ModSum(Sum(sizes[..m]), sizes[m]);
      ModSum(Sum(moved[..m]), sizes[m]);
      ModAdd(Sum(moved[..m]), moved[m]);
    }
  }
}
