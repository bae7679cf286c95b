/** Two processes that talk over a pair of byte streams, each message written and read in
    arbitrary pieces, the streams of bounded capacity.  Whatever the conversation, if both sides
    follow it then every read delivers exactly the message the other side wrote, and the two are
    never stuck before its end (ensure_read and ensure_write in src/common.c). */
module Conversation {
  import opened ByteOrder

  /** A message and whether the first process, `x`, speaks. */
  datatype Said = Said(byX: bool, bytes: seq<byte>)

  /** How many messages a process is done with, and what it has moved of the current one: sz bytes
      of the buffer of ensure_read or ensure_write. */
  datatype Side = Side(at: nat, io: seq<byte>)

  datatype Talk = Talk(x: Side, y: Side, xy: seq<byte>, yx: seq<byte>)

  /** The same conversation seen from the other process. */
  function Mirror(g: seq<Said>): (r: seq<Said>)
    ensures |r| == |g|
    ensures forall k :: 0 <= k < |g| ==> r[k] == Said(!g[k].byX, g[k].bytes)
  {
    seq(|g|, k requires 0 <= k < |g| => Said(!g[k].byX, g[k].bytes))
  }

  function Turn(t: Talk): Talk { Talk(t.y, t.x, t.yx, t.xy) }

  // ---- One side's steps ----

  /** write(2) takes some more bytes of the data; the stream has room for them. */
  predicate Writes(cap: nat, data: seq<byte>, io: seq<byte>, out: seq<byte>, io': seq<byte>, out': seq<byte>) {
    && |io| < |io'| <= |data| && io' == data[..|io'|]
    && out' == out + data[|io|..|io'|] && |out'| <= cap
  }

  /** read(2) returns some of the bytes that have arrived. */
  predicate Reads(size: nat, io: seq<byte>, inn: seq<byte>, io': seq<byte>, inn': seq<byte>) {
    && |io| < |io'| <= size && |io'| - |io| <= |inn|
    && io' == io + inn[..|io'| - |io|] && inn' == inn[|io'| - |io|..]
  }

  /** A step of x: it moves bytes of its current message, or is done with it. */
  predicate StepX(g: seq<Said>, cap: nat, t: Talk, t': Talk) {
    t.x.at < |g| && var m := g[t.x.at];
    || (&& m.byX && Writes(cap, m.bytes, t.x.io, t.xy, t'.x.io, t'.xy)
        && t' == t.(x := Side(t.x.at, t'.x.io), xy := t'.xy))
    || (&& !m.byX && Reads(|m.bytes|, t.x.io, t.yx, t'.x.io, t'.yx)
        && t' == t.(x := Side(t.x.at, t'.x.io), yx := t'.yx))
    || (|t.x.io| == |m.bytes| && t' == t.(x := Side(t.x.at + 1, [])))
  }

  predicate Next(g: seq<Said>, cap: nat, t: Talk, t': Talk) {
    StepX(g, cap, t, t') || StepX(Mirror(g), cap, Turn(t), Turn(t'))
  }

  function Start(): Talk { Talk(Side(0, []), Side(0, []), [], []) }

  // ---- The invariant: written = read + in flight, in both directions ----

  /** All bytes one side says in the first `n` messages. */
  function Flat(g: seq<Said>, byX: bool, n: nat): seq<byte>
    requires n <= |g|
  {
    if n == 0 then []
    else Flat(g, byX, n - 1) + if g[n - 1].byX == byX then g[n - 1].bytes else []
  }

  /** What a side has moved in one direction: whole messages and part of the current one. */
  function Moved(g: seq<Said>, byX: bool, s: Side): seq<byte>
    requires s.at <= |g|
  {
    Flat(g, byX, s.at) + if s.at < |g| && g[s.at].byX == byX then s.io else []
  }

  ghost predicate SideInv(g: seq<Said>, writer: bool, s: Side) {
    && s.at <= |g|
    && (s.at == |g| ==> s.io == [])
    && (s.at < |g| ==> |s.io| <= |g[s.at].bytes|)
    && (s.at < |g| && g[s.at].byX == writer ==> s.io == g[s.at].bytes[..|s.io|])
  }

  ghost predicate Inv(g: seq<Said>, t: Talk) {
    && SideInv(g, true, t.x) && SideInv(g, false, t.y)
    && Moved(g, true, t.x) == Moved(g, true, t.y) + t.xy
    && Moved(g, false, t.y) == Moved(g, false, t.x) + t.yx
  }

  lemma {:induction false} FlatMirror(g: seq<Said>, byX: bool, n: nat)
    requires n <= |g|
    ensures Flat(Mirror(g), byX, n) == Flat(g, !byX, n)
  {
    if n > 0 {
      FlatMirror(g, byX, n - 1);
    }
  }

  lemma InvMirror(g: seq<Said>, t: Talk)
    ensures Inv(Mirror(g), Turn(t)) <==> Inv(g, t)
  {
    if t.x.at <= |g| && t.y.at <= |g| {
      FlatMirror(g, true, t.x.at);
      FlatMirror(g, false, t.x.at);
      FlatMirror(g, true, t.y.at);
      FlatMirror(g, false, t.y.at);
    }
  }

  lemma {:induction false} FlatPrefix(g: seq<Said>, byX: bool, n: nat, m: nat)
    requires n <= m <= |g|
    ensures Flat(g, byX, n) <= Flat(g, byX, m)
  {
    if n < m {
      FlatPrefix(g, byX, n, m - 1);
    }
  }

  /** What a writer has moved is a prefix of all it will ever say. */
  lemma MovedPrefix(g: seq<Said>, byX: bool, s: Side)
    requires SideInv(g, byX, s)
    ensures Moved(g, byX, s) <= Flat(g, byX, |g|)
  {
    if s.at < |g| {
      assert Moved(g, byX, s) <= Flat(g, byX, s.at + 1);
      FlatPrefix(g, byX, s.at + 1, |g|);
    }
  }

  /** A complete read is exactly the message: every byte of it and nothing of the next. */
  lemma ReadIsMessageX(g: seq<Said>, t: Talk)
    requires Inv(g, t) && t.x.at < |g| && !g[t.x.at].byX && |t.x.io| == |g[t.x.at].bytes|
    ensures t.x.io == g[t.x.at].bytes
  {
    var all, n := Flat(g, false, |g|), t.x.at;
    MovedPrefix(g, false, t.y);
    assert Moved(g, false, t.x) <= all;
    FlatPrefix(g, false, n + 1, |g|);
    var head := Flat(g, false, n);
    assert head + t.x.io <= all && head + g[n].bytes <= all;
    assert (head + t.x.io)[|head|..] == (head + g[n].bytes)[|head|..];
  }

  lemma ReadIsMessage(g: seq<Said>, t: Talk)
    requires Inv(g, t)
    ensures t.x.at < |g| && |t.x.io| == |g[t.x.at].bytes| ==> t.x.io == g[t.x.at].bytes
    ensures t.y.at < |g| && |t.y.io| == |g[t.y.at].bytes| ==> t.y.io == g[t.y.at].bytes
  {
    if t.x.at < |g| && |t.x.io| == |g[t.x.at].bytes| && !g[t.x.at].byX {
      ReadIsMessageX(g, t);
    }
    if t.y.at < |g| && |t.y.io| == |g[t.y.at].bytes| && g[t.y.at].byX {
      InvMirror(g, t);
      ReadIsMessageX(Mirror(g), Turn(t));
    }
  }

  lemma WritingKeepsInv(g: seq<Said>, cap: nat, t: Talk, t': Talk)
    requires Inv(g, t) && t.x.at < |g| && g[t.x.at].byX
    requires Writes(cap, g[t.x.at].bytes, t.x.io, t.xy, t'.x.io, t'.xy)
    requires t' == t.(x := Side(t.x.at, t'.x.io), xy := t'.xy)
    ensures Inv(g, t')
  {
    var data := g[t.x.at].bytes;
    var chunk := data[|t.x.io|..|t'.x.io|];
    assert data[..|t'.x.io|] == data[..|t.x.io|] + chunk;
    assert Moved(g, true, t'.x) == Moved(g, true, t.x) + chunk;
    assert Moved(g, true, t.y) + t'.xy == Moved(g, true, t.y) + t.xy + chunk;
  }

  lemma ReadingKeepsInv(g: seq<Said>, t: Talk, t': Talk)
    requires Inv(g, t) && t.x.at < |g| && !g[t.x.at].byX
    requires Reads(|g[t.x.at].bytes|, t.x.io, t.yx, t'.x.io, t'.yx)
    requires t' == t.(x := Side(t.x.at, t'.x.io), yx := t'.yx)
    ensures Inv(g, t')
  {
    var k := |t'.x.io| - |t.x.io|;
    assert t.yx == t.yx[..k] + t.yx[k..];
    assert Moved(g, false, t'.x) == Moved(g, false, t.x) + t.yx[..k];
  }

  lemma StepXKeepsInv(g: seq<Said>, cap: nat, t: Talk, t': Talk)
    requires Inv(g, t) && StepX(g, cap, t, t')
    ensures Inv(g, t')
  {
    var m := g[t.x.at];
    if |t.x.io| == |m.bytes| && t' == t.(x := Side(t.x.at + 1, [])) {
      ReadIsMessage(g, t);
      assert m.bytes[..|m.bytes|] == m.bytes;
      assert Moved(g, true, t'.x) == Moved(g, true, t.x);
      assert Moved(g, false, t'.x) == Moved(g, false, t.x);
    } else if m.byX {
      WritingKeepsInv(g, cap, t, t');
    } else {
      ReadingKeepsInv(g, t, t');
    }
  }

  lemma NextKeepsInv(g: seq<Said>, cap: nat, t: Talk, t': Talk)
    requires Inv(g, t) && Next(g, cap, t, t')
    ensures Inv(g, t')
  {
    if StepX(g, cap, t, t') {
      StepXKeepsInv(g, cap, t, t');
    } else {
      InvMirror(g, t);
      StepXKeepsInv(Mirror(g), cap, Turn(t), Turn(t'));
      InvMirror(g, t');
    }
  }

  // ---- Progress ----

  /** x has something to do that the streams allow. */
  ghost predicate CanStepX(g: seq<Said>, cap: nat, t: Talk) {
    t.x.at < |g| && var m := g[t.x.at];
    || |t.x.io| == |m.bytes|
    || (if m.byX then |t.xy| < cap else t.yx != [])
  }

  lemma CanStep(g: seq<Said>, cap: nat, t: Talk) returns (t': Talk)
    requires Inv(g, t) && CanStepX(g, cap, t)
    ensures StepX(g, cap, t, t')
  {
    var m := g[t.x.at];
    if |t.x.io| == |m.bytes| {
      t' := t.(x := Side(t.x.at + 1, []));
    } else if m.byX {
      t' := t.(x := Side(t.x.at, m.bytes[..|t.x.io| + 1]), xy := t.xy + m.bytes[|t.x.io|..|t.x.io| + 1]);
      assert Writes(cap, m.bytes, t.x.io, t.xy, t'.x.io, t'.xy);
    } else {
      t' := t.(x := Side(t.x.at, t.x.io + t.yx[..1]), yx := t.yx[1..]);
      assert Reads(|m.bytes|, t.x.io, t.yx, t'.x.io, t'.yx);
    }
  }

  /** If y waits to read and nothing is in flight to it, then x has not passed y. */
  lemma WaitingIsBehind(g: seq<Said>, t: Talk)
    requires Inv(g, t) && t.y.at < |g| && g[t.y.at].byX && |t.y.io| < |g[t.y.at].bytes| && t.xy == []
    ensures t.x.at <= t.y.at
  {
    if t.y.at < t.x.at {
      FlatPrefix(g, true, t.y.at + 1, t.x.at);
    }
  }

  /** If x is blocked writing because bytes are in flight, then y has not passed x. */
  lemma BlockedIsAhead(g: seq<Said>, t: Talk)
    requires Inv(g, t) && t.x.at < |g| && g[t.x.at].byX && t.xy != []
    ensures t.y.at <= t.x.at
  {
    if t.x.at < t.y.at {
      FlatPrefix(g, true, t.x.at + 1, t.y.at);
    }
  }

  /** In every reachable state at least one side can go on, however small the buffers of the
      streams, unless both have finished. */
  lemma NeverStuck(g: seq<Said>, cap: nat, t: Talk) returns (t': Talk)
    requires Inv(g, t) && cap > 0
    requires t.x.at < |g| || t.y.at < |g|
    ensures Next(g, cap, t, t')
  {
    InvMirror(g, t);
    if CanStepX(g, cap, t) {
      t' := CanStep(g, cap, t);
    } else if CanStepX(Mirror(g), cap, Turn(t)) {
      t' := CanStep(Mirror(g), cap, Turn(t));
      t' := Turn(t');
    } else {
      StuckIsImpossible(g, cap, t);
    }
  }

  lemma StuckIsImpossible(g: seq<Said>, cap: nat, t: Talk)
    requires Inv(g, t) && Inv(Mirror(g), Turn(t)) && cap > 0
    requires !CanStepX(g, cap, t) && !CanStepX(Mirror(g), cap, Turn(t))
    ensures t.x.at == |g| && t.y.at == |g|
  {
    if t.x.at < |g| {
      if g[t.x.at].byX {
        BlockedIsAhead(g, t);
      } else {
        WaitingIsBehind(Mirror(g), Turn(t));
      }
    }
    if t.y.at < |g| {
      if g[t.y.at].byX {
        WaitingIsBehind(g, t);
      } else {
        BlockedIsAhead(Mirror(g), Turn(t));
      }
    }
  }

  // ---- Termination ----

  /** Bytes and returns still to come from message `n` on. */
  function Ahead(g: seq<Said>, n: nat): nat
    requires n <= |g|
    decreases |g| - n
  {
    if n == |g| then 0 else |g[n].bytes| + 1 + Ahead(g, n + 1)
  }

  ghost function Todo(g: seq<Said>, s: Side): int
    requires s.at <= |g|
  {
    Ahead(g, s.at) - |s.io|
  }

  lemma {:induction false} AheadMirror(g: seq<Said>, n: nat)
    requires n <= |g|
    ensures Ahead(Mirror(g), n) == Ahead(g, n)
    decreases |g| - n
  {
    if n < |g| {
      AheadMirror(g, n + 1);
    }
  }

  lemma TodoSide(g: seq<Said>, s: Side)
    requires s.at <= |g| && (s.at < |g| ==> |s.io| <= |g[s.at].bytes|) && (s.at == |g| ==> s.io == [])
    ensures Todo(g, s) >= 0
  {
  }

  lemma StepXShrinks(g: seq<Said>, cap: nat, t: Talk, t': Talk)
    requires t.x.at <= |g| && t'.x.at <= |g| && StepX(g, cap, t, t')
    ensures Todo(g, t'.x) < Todo(g, t.x) && t'.y == t.y
  {
  }

  /** Every step leaves less to do, and what is left is never negative. */
  lemma EveryStepShrinks(g: seq<Said>, cap: nat, t: Talk, t': Talk)
    requires Inv(g, t) && Next(g, cap, t, t') && Inv(g, t')
    ensures 0 <= Todo(g, t'.x) + Todo(g, t'.y) < Todo(g, t.x) + Todo(g, t.y)
  {
    TodoSide(g, t'.x);
    TodoSide(g, t'.y);
    if StepX(g, cap, t, t') {
      StepXShrinks(g, cap, t, t');
    } else {
      AheadMirror(g, t.y.at);
      AheadMirror(g, t'.y.at);
      StepXShrinks(Mirror(g), cap, Turn(t), Turn(t'));
    }
  }
}
