/** Numbers and fixed-width text as the bytes two machines exchange, and what a machine of the
    other byte order sees (src/uperf.h, the packed prefixes of src/workorder.h). */
module ByteOrder {

  type byte = x: int | 0 <= x < 256

  datatype Endian = Little | Big

  function Pow256(w: nat): nat {
    if w == 0 then 1 else 256 * Pow256(w - 1)
  }

  /** The `w` bytes of `v`, least significant first. */
  function Digits(v: nat, w: nat): (d: seq<byte>)
    ensures |d| == w
  {
    if w == 0 then [] else [v % 256] + Digits(v / 256, w - 1)
  }

  function Value(d: seq<byte>): nat {
    if d == [] then 0 else d[0] + 256 * Value(d[1..])
  }

  function Reverse(d: seq<byte>): (r: seq<byte>)
    ensures |r| == |d|
    ensures forall i :: 0 <= i < |d| ==> r[i] == d[|d| - 1 - i]
  {
    if d == [] then [] else Reverse(d[1..]) + [d[0]]
  }

  /** Reversing the bytes of a `w`-byte number: what the BSWAP macros are for. */
  function Swap(w: nat, v: nat): nat { Value(Reverse(Digits(v, w))) }

  lemma {:induction false} ValueOfDigits(v: nat, w: nat)
    requires v < Pow256(w)
    ensures Value(Digits(v, w)) == v
  {
    if w > 0 {
      ValueOfDigits(v / 256, w - 1);
    }
  }

  lemma {:induction false} DigitsOfValue(d: seq<byte>)
    ensures Value(d) < Pow256(|d|)
    ensures Digits(Value(d), |d|) == d
  {
    if d != [] {
      DigitsOfValue(d[1..]);
      assert Value(d) % 256 == d[0] && Value(d) / 256 == Value(d[1..]);
    }
  }

  lemma ReverseTwice(d: seq<byte>)
    ensures Reverse(Reverse(d)) == d
  {
  }

  /** Swapping is its own inverse, hence injective. */
  lemma SwapTwice(w: nat, v: nat)
    requires v < Pow256(w)
    ensures Swap(w, v) < Pow256(w)
    ensures Swap(w, Swap(w, v)) == v
  {
    var d := Digits(v, w);
    DigitsOfValue(Reverse(d));
    ReverseTwice(d);
    ValueOfDigits(v, w);
  }

  // ---- The macros.  A shift left joins disjoint bits, so `|` is written as addition. ----

  function Bswap8(x: nat): nat { x % 256 }
  function Bswap16(x: nat): nat { Bswap8(x) * 0x100 + Bswap8(x / 0x100) }
  function Bswap32(x: nat): nat { Bswap16(x) * 0x1_0000 + Bswap16(x / 0x1_0000) }
  function Bswap64(x: nat): nat { Bswap32(x) * 0x1_0000_0000 + Bswap32(x / 0x1_0000_0000) }

  lemma Shift(r: nat, p: nat, q: nat)
    ensures 256 * (r + p * q) == 256 * r + (256 * p) * q
  {
  }

  lemma {:induction false} ValueConcat(a: seq<byte>, b: seq<byte>)
    ensures Value(a + b) == Value(a) + Pow256(|a|) * Value(b)
  {
    if a == [] {
      assert a + b == b;
    } else {
      calc {
        Value(a + b);
        { assert (a + b)[1..] == a[1..] + b; }
        a[0] + 256 * Value(a[1..] + b);
        { ValueConcat(a[1..], b); }
        a[0] + 256 * (Value(a[1..]) + Pow256(|a| - 1) * Value(b));
        { Shift(Value(a[1..]), Pow256(|a| - 1), Value(b)); }
        a[0] + 256 * Value(a[1..]) + (256 * Pow256(|a| - 1)) * Value(b);
        Value(a) + Pow256(|a|) * Value(b);
      }
    }
  }

  lemma {:induction false} DigitsSplit(lo: nat, hi: nat, a: nat, b: nat)
    requires lo < Pow256(a)
    ensures Digits(lo + Pow256(a) * hi, a + b) == Digits(lo, a) + Digits(hi, b)
  {
    if a > 0 {
      var m := Pow256(a - 1) * hi;
      assert Pow256(a) * hi == 256 * m;
      assert (lo + 256 * m) % 256 == lo % 256 && (lo + 256 * m) / 256 == lo / 256 + m;
      DigitsSplit(lo / 256, hi, a - 1, b);
    }
  }

  lemma {:induction false} ReverseConcat(a: seq<byte>, b: seq<byte>)
    ensures Reverse(a + b) == Reverse(b) + Reverse(a)
  {
    if a == [] {
      assert a + b == b;
    } else {
      assert (a + b)[1..] == a[1..] + b;
      ReverseConcat(a[1..], b);
    }
  }

  /** Bytes above the width do not matter. */
  lemma SwapLow(w: nat, lo: nat, hi: nat)
    requires lo < Pow256(w)
    ensures Swap(w, lo + Pow256(w) * hi) == Swap(w, lo)
  {
    DigitsSplit(lo, hi, w, 0);
    assert Digits(lo, w) + Digits(hi, 0) == Digits(lo, w);
  }

  /** Doubling the width: swap both halves and exchange them. */
  lemma SwapDouble(w: nat, lo: nat, hi: nat)
    requires lo < Pow256(w)
    ensures Swap(2 * w, lo + Pow256(w) * hi) == Swap(w, hi) + Pow256(w) * Swap(w, lo)
  {
    DigitsSplit(lo, hi, w, w);
    SwapHalves(lo + Pow256(w) * hi, Digits(lo, w), Digits(hi, w));
  }

  lemma SwapHalves(v: nat, a: seq<byte>, b: seq<byte>)
    requires |a| == |b| && Digits(v, |a| + |b|) == a + b
    ensures Swap(2 * |a|, v) == Value(Reverse(b)) + Pow256(|a|) * Value(Reverse(a))
  {
    assert Digits(v, 2 * |a|) == a + b;
    calc {
      Swap(2 * |a|, v);
      Value(Reverse(a + b));
      { ReverseConcat(a, b); }
      Value(Reverse(b) + Reverse(a));
      { ValueConcat(Reverse(b), Reverse(a)); }
      Value(Reverse(b)) + Pow256(|Reverse(b)|) * Value(Reverse(a));
    }
  }

  lemma SwapByte(v: nat)
    ensures Swap(1, v) == v % 256
  {
    assert Digits(v, 1) == [v % 256];
    assert Reverse([v % 256]) == [v % 256];
    assert Value([v % 256]) == v % 256;
  }

  lemma Pow256Values()
    ensures Pow256(1) == 0x100 && Pow256(2) == 0x1_0000 && Pow256(4) == 0x1_0000_0000
  {
    assert Pow256(2) == 256 * Pow256(1);
    assert Pow256(4) == 256 * Pow256(3);
  }

  lemma Macro16Swaps(x: nat)
    ensures Bswap16(x) == Swap(2, x)
  {
    Pow256Values();
    var lo, hi := x % 0x100, x / 0x100;
    SwapDouble(1, lo, hi);
    SwapByte(lo);
    SwapByte(hi);
  }

  lemma Macro32Swaps(x: nat)
    ensures Bswap32(x) == Swap(4, x)
  {
    Pow256Values();
    var lo, hi := x % 0x1_0000, x / 0x1_0000;
    SwapDouble(2, lo, hi);
    SwapLow(2, lo, hi);
    Macro16Swaps(x);
    Macro16Swaps(hi);
  }

  /** The macros compute exactly the byte reversal of their width. */
  lemma MacrosSwap(x: nat)
    ensures Bswap16(x) == Swap(2, x) && Bswap32(x) == Swap(4, x) && Bswap64(x) == Swap(8, x)
  {
    Pow256Values();
    var lo, hi := x % 0x1_0000_0000, x / 0x1_0000_0000;
    SwapDouble(4, lo, hi);
    SwapLow(4, lo, hi);
    Macro16Swaps(x);
    Macro32Swaps(x);
    Macro32Swaps(hi);
  }

  // ---- Fields of a packed record ----

  /** Text is a C string: no NUL inside, padded with NULs on the wire. */
  datatype Field = Num(width: nat, value: nat) | Text(width: nat, str: seq<byte>)

  datatype Slot = NumSlot(width: nat) | TextSlot(width: nat)

  ghost predicate Fits(fs: seq<Field>) {
    forall i :: 0 <= i < |fs| ==> FieldFits(fs[i])
  }

  predicate FieldFits(f: Field) {
    match f
    case Num(w, v) => v < Pow256(w)
    case Text(w, s) => |s| < w && 0 !in s
  }

  function SlotOf(f: Field): Slot {
    match f
    case Num(w, _) => NumSlot(w)
    case Text(w, _) => TextSlot(w)
  }

  function Shape(fs: seq<Field>): (s: seq<Slot>)
    ensures |s| == |fs|
    ensures forall i :: 0 <= i < |fs| ==> s[i] == SlotOf(fs[i])
  {
    seq(|fs|, i requires 0 <= i < |fs| => SlotOf(fs[i]))
  }

  function Width(shape: seq<Slot>): nat {
    if shape == [] then 0 else shape[0].width + Width(shape[1..])
  }

  function Zeros(n: nat): (z: seq<byte>)
    ensures |z| == n && forall i :: 0 <= i < n ==> z[i] == 0
  {
    seq(n, _ => 0)
  }

  function EncField(e: Endian, f: Field): seq<byte> {
    match f
    case Num(w, v) => if e.Little? then Digits(v, w) else Reverse(Digits(v, w))
    case Text(w, s) => if |s| <= w then s + Zeros(w - |s|) else s[..w]
  }

  function EncFields(e: Endian, fs: seq<Field>): seq<byte> {
    if fs == [] then [] else EncField(e, fs[0]) + EncFields(e, fs[1..])
  }

  /** The C string at the start of a buffer. */
  function CString(d: seq<byte>): seq<byte> {
    if d == [] || d[0] == 0 then [] else [d[0]] + CString(d[1..])
  }

  function DecField(e: Endian, s: Slot, d: seq<byte>): Field {
    match s
    case NumSlot(w) => Num(w, Value(if e.Little? then d else Reverse(d)))
    case TextSlot(w) => Text(w, CString(d))
  }

  function DecFields(e: Endian, shape: seq<Slot>, d: seq<byte>): (fs: seq<Field>)
    ensures |fs| == |shape|
    decreases |shape|
  {
    if shape == [] then []
    else
      var w := if shape[0].width <= |d| then shape[0].width else |d|;
      [DecField(e, shape[0], d[..w])] + DecFields(e, shape[1..], d[w..])
  }

  /** A number as the other side has it in memory before any swapping. */
  function Seen(same: bool, w: nat, v: nat): nat { if same then v else Swap(w, v) }

  function SeenField(same: bool, f: Field): Field {
    match f
    case Num(w, v) => Num(w, Seen(same, w, v))
    case Text(_, _) => f
  }

  function SeenFields(same: bool, fs: seq<Field>): (r: seq<Field>)
    ensures |r| == |fs|
    ensures forall i :: 0 <= i < |fs| ==> r[i] == SeenField(same, fs[i])
  {
    seq(|fs|, i requires 0 <= i < |fs| => SeenField(same, fs[i]))
  }

  lemma {:induction false} CStringOfPadded(s: seq<byte>, n: nat)
    requires 0 !in s
    ensures CString(s + Zeros(n)) == s
  {
    if s == [] {
      assert s + Zeros(n) == Zeros(n);
    } else {
      assert (s + Zeros(n))[1..] == s[1..] + Zeros(n);
      CStringOfPadded(s[1..], n);
    }
  }

  lemma EncFieldWidth(e: Endian, f: Field)
    ensures |EncField(e, f)| == f.width
  {
  }

  lemma {:induction false} EncFieldsWidth(e: Endian, fs: seq<Field>)
    ensures |EncFields(e, fs)| == Width(Shape(fs))
  {
    if fs != [] {
      EncFieldsWidth(e, fs[1..]);
      EncFieldWidth(e, fs[0]);
      assert Shape(fs)[1..] == Shape(fs[1..]);
    }
  }

  lemma DecFieldOfEnc(from: Endian, to: Endian, f: Field)
    requires FieldFits(f)
    ensures |EncField(from, f)| == f.width
    ensures DecField(to, SlotOf(f), EncField(from, f)) == SeenField(from == to, f)
  {
    match f {
      case Num(w, v) =>
        ReverseTwice(Digits(v, w));
        ValueOfDigits(v, w);
      case Text(w, s) =>
        CStringOfPadded(s, w - |s|);
    }
  }

  /** Reading a packed record back: every text as it was, every number as seen. */
  lemma {:induction false} DecFieldsOfEnc(from: Endian, to: Endian, fs: seq<Field>)
    requires Fits(fs)
    ensures |EncFields(from, fs)| == Width(Shape(fs))
    ensures DecFields(to, Shape(fs), EncFields(from, fs)) == SeenFields(from == to, fs)
  {
    EncFieldsWidth(from, fs);
    if fs != [] {
      var head, rest := EncField(from, fs[0]), EncFields(from, fs[1..]);
      assert |head| == fs[0].width && DecField(to, SlotOf(fs[0]), head) == SeenField(from == to, fs[0]) by {
        DecFieldOfEnc(from, to, fs[0]);
      }
      DecFieldsOfEnc(from, to, fs[1..]);
      DecFieldsStep(to, fs, head, rest);
      SeenFieldsStep(from == to, fs);
    }
  }

  lemma SeenFieldsStep(same: bool, fs: seq<Field>)
    requires fs != []
    ensures SeenFields(same, fs) == [SeenField(same, fs[0])] + SeenFields(same, fs[1..])
  {
  }

  lemma DecFieldsStep(e: Endian, fs: seq<Field>, head: seq<byte>, rest: seq<byte>)
    requires fs != [] && |head| == fs[0].width
    ensures DecFields(e, Shape(fs), head + rest)
         == [DecField(e, SlotOf(fs[0]), head)] + DecFields(e, Shape(fs[1..]), rest)
  {
    assert (head + rest)[..|head|] == head && (head + rest)[|head|..] == rest;
    assert Shape(fs)[1..] == Shape(fs[1..]);
  }

  /** Connection ids are compared unswapped; that changes neither which ids are equal nor
      which one is 0, the any-connection id, or all ones, which strand_get_connection reads as -1. */
  lemma UnswappedIdsMatch(same: bool, a: nat, b: nat)
    requires a < Pow256(4) && b < Pow256(4)
    ensures Seen(same, 4, a) == Seen(same, 4, b) <==> a == b
    ensures forall id: nat :: id == 0 || id == 0xFFFF_FFFF ==> Seen(same, 4, id) == id
  {
    SwapTwice(4, a);
    SwapTwice(4, b);
    forall id: nat | id == 0 || id == 0xFFFF_FFFF
      ensures Seen(same, 4, id) == id
    {
      Macro32Swaps(id);
    }
  }

  const UPERF_ENDIAN_VALUE: nat := 0xBADC

  /** The marker in the first word of a workorder tells the two byte orders apart. */
  lemma EndianMarkerTells(same: bool)
    ensures UPERF_ENDIAN_VALUE < Pow256(4)
    ensures Seen(same, 4, UPERF_ENDIAN_VALUE) == UPERF_ENDIAN_VALUE <==> same
  {
    Pow256Values();
    Macro32Swaps(UPERF_ENDIAN_VALUE);
  }
}
