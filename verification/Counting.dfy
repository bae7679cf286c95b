/** Counting and summing over sequences, shared by the run and the layout arguments. */
module Counting {

  /** How many entries of `s` are greater than `k`. */
  function CountAbove(s: seq<nat>, k: nat): (c: nat)
    ensures c <= |s|
  {
    if s == [] then 0
    else CountAbove(s[..|s| - 1], k) + (if s[|s| - 1] > k then 1 else 0)
  }

  function Sum(s: seq<nat>): nat {
    if s == [] then 0 else Sum(s[..|s| - 1]) + s[|s| - 1]
  }

  /** The sequence 0, 1, .., n-1. */
  function Upto(n: nat): (s: seq<nat>)
    ensures |s| == n
    ensures forall i :: 0 <= i < n ==> s[i] == i
  {
    seq(n, i => i)
  }

  ghost predicate Increasing(s: seq<nat>) {
    forall i, j :: 0 <= i < j < |s| ==> s[i] < s[j]
  }

  lemma {:induction false} CountAboveUpdate(s: seq<nat>, i: nat, v: nat, k: nat)
    requires i < |s|
    ensures CountAbove(s[i := v], k)
         == CountAbove(s, k) - (if s[i] > k then 1 else 0) + (if v > k then 1 else 0)
  {
    var m := |s| - 1;
    if i == m {
      assert s[i := v][..m] == s[..m];
    } else {
      assert s[i := v][..m] == s[..m][i := v];
      CountAboveUpdate(s[..m], i, v, k);
    }
  }

  /** Pointwise smaller sequences count less, and if they count the same then
      every entry above `k` on the right is matched on the left. */
  lemma {:induction false} CountAboveSqueeze(a: seq<nat>, b: seq<nat>, k: nat)
    requires |a| == |b|
    requires forall i :: 0 <= i < |a| ==> a[i] <= b[i]
    ensures CountAbove(a, k) <= CountAbove(b, k)
    ensures CountAbove(a, k) == CountAbove(b, k) <==> forall i :: 0 <= i < |a| && b[i] > k ==> a[i] > k
  {
    if a != [] {
      var m := |a| - 1;
      CountAboveSqueeze(a[..m], b[..m], k);
      assert a == a[..m] + [a[m]] && b == b[..m] + [b[m]];
      assert forall i :: 0 <= i < m ==> a[..m][i] == a[i] && b[..m][i] == b[i];
    }
  }

  lemma {:induction false} CountAboveConcat(a: seq<nat>, b: seq<nat>, k: nat)
    ensures CountAbove(a + b, k) == CountAbove(a, k) + CountAbove(b, k)
  {
    if b == [] {
      assert a + b == a;
    } else {
      var m := |b| - 1;
      assert (a + b)[..|a + b| - 1] == a + b[..m];
      CountAboveConcat(a, b[..m], k);
    }
  }

  lemma {:induction false} CountAboveConstant(n: nat, v: nat, k: nat)
    ensures CountAbove(seq(n, _ => v), k) == if v > k then n else 0
  {
    if n > 0 {
      assert seq(n, _ => v)[..n - 1] == seq(n - 1, _ => v);
      CountAboveConstant(n - 1, v, k);
    }
  }

  lemma {:induction false} SumUpdate(s: seq<nat>, i: nat, v: nat)
    requires i < |s|
    ensures Sum(s[i := v]) == Sum(s) - s[i] + v
  {
    var m := |s| - 1;
    if i == m {
      assert s[i := v][..m] == s[..m];
    } else {
      assert s[i := v][..m] == s[..m][i := v];
      SumUpdate(s[..m], i, v);
    }
  }

  /** `k` times `m`, as repeated addition. */
  function Times(k: nat, m: nat): nat { if k == 0 then 0 else Times(k - 1, m) + m }

  lemma {:induction false} TimesIsProduct(k: nat, m: nat)
    ensures Times(k, m) == m * k
  {
    if k > 0 {
      TimesIsProduct(k - 1, m);
      Distribute(m, k);
    }
  }

  lemma Distribute(m: nat, n: nat)
    requires n > 0
    ensures m * n == m * (n - 1) + m
  {
  }

  lemma {:induction false} TimesGrows(j: nat, n: nat, m: nat)
    requires j <= n
    ensures Times(j, m) <= Times(n, m)
  {
    if j < n {
      TimesGrows(j, n - 1, m);
    }
  }

  lemma {:induction false} TimesAdd(a: nat, n: nat, m: nat)
    ensures Times(a + n, m) == Times(a, m) + Times(n, m)
  {
    if n > 0 {
      TimesAdd(a, n - 1, m);
    }
  }

  lemma {:induction false} TimesWider(n: nat, b: nat, c: nat)
    ensures Times(n, b + c) == Times(n, b) + Times(n, c)
  {
    if n > 0 {
      TimesWider(n - 1, b, c);
    }
  }
}
