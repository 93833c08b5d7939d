/** Facts about sequences, sums and finite sets used throughout the model. */
module Sequences {
  datatype Option<+T> = None | Some(value: T)

  ghost predicate NoDup<T>(s: seq<T>) {
    forall i, j :: 0 <= i < j < |s| ==> s[i] != s[j]
  }

  function Elems<T>(s: seq<T>): set<T> {
    set x | x in s
  }

  lemma NoDupAppend<T>(s: seq<T>, x: T)
    requires NoDup(s) && x !in s
    ensures NoDup(s + [x])
  {
  }

  /** Distinct numbers, all at least lo and below hi. */
  ghost predicate Within(s: seq<nat>, lo: nat, hi: nat) {
    NoDup(s) && forall k :: k in s ==> lo <= k < hi
  }

  lemma WithinAppend(s: seq<nat>, lo: nat, hi: nat, x: nat)
    requires Within(s, lo, hi) && lo <= x && hi <= x
    ensures Within(s + [x], lo, x + 1)
  {
    NoDupAppend(s, x);
  }

  /** A duplicate-free sequence has as many entries as members. */
  lemma {:induction false} NoDupSize<T>(s: seq<T>)
    requires NoDup(s)
    ensures |Elems(s)| == |s|
  {
    if s != [] {
      var k := |s| - 1;
      NoDupSize(s[..k]);
      assert s == s[..k] + [s[k]];
      assert s[k] !in s[..k];
      assert Elems(s) == Elems(s[..k]) + {s[k]};
    }
  }

  lemma {:induction false} SubsetSize<T>(a: set<T>, b: set<T>)
    requires a <= b
    ensures |a| <= |b|
  {
    assert b == a + (b - a);
  }

  lemma {:induction false} ElemsSize<T>(t: seq<T>)
    ensures |Elems(t)| <= |t|
  {
    if t != [] {
      var k := |t| - 1;
      ElemsSize(t[..k]);
      assert t == t[..k] + [t[k]];
      assert Elems(t) == Elems(t[..k]) + {t[k]};
    }
  }

  /** Pigeonhole: distinct entries drawn from the members of another sequence cannot outnumber it. */
  lemma {:induction false} Pigeonhole<T>(s: seq<T>, t: seq<T>)
    requires NoDup(s)
    requires forall x :: x in s ==> x in t
    ensures |s| <= |t|
  {
    NoDupSize(s);
    SubsetSize(Elems(s), Elems(t));
    ElemsSize(t);
  }

  lemma WithinNothing(s: seq<nat>, lo: nat)
    requires Within(s, lo, lo)
    ensures s == []
  {
    Pigeonhole(s, []);
  }

  lemma WithinConcat(a: seq<nat>, b: seq<nat>, lo: nat, mid: nat, hi: nat)
    requires lo <= mid <= hi && Within(a, lo, mid) && Within(b, mid, hi)
    ensures Within(a + b, lo, hi)
  {
    var ab := a + b;
    forall i, j | 0 <= i < j < |ab| ensures ab[i] != ab[j] {
      if i < |a| <= j {
        assert a[i] in a && b[j - |a|] in b;
      }
    }
  }

  function Below(n: nat): (r: set<nat>)
    ensures forall k: nat :: k in r <==> k < n
    ensures |r| == n
  {
    if n == 0 then {} else Below(n - 1) + {n - 1}
  }

  lemma {:induction false} BoundedSize(s: seq<nat>, n: nat)
    requires NoDup(s)
    requires forall x :: x in s ==> x < n
    ensures |s| <= n
  {
    NoDupSize(s);
    SubsetSize(Elems(s), Below(n));
  }

  /** lo, lo + 1, ..., hi - 1. */
  function Span(lo: nat, hi: nat): (s: seq<nat>)
    ensures |s| == if lo < hi then hi - lo else 0
    ensures forall j: nat :: j < |s| ==> s[j] == lo + j
    ensures forall k :: k in s <==> lo <= k < hi
  {
    if lo >= hi then [] else Span(lo, hi - 1) + [hi - 1]
  }

  lemma WithinSize(s: seq<nat>, lo: nat, hi: nat)
    requires lo <= hi && Within(s, lo, hi)
    ensures |s| <= hi - lo
  {
    Pigeonhole(s, Span(lo, hi));
  }

  /** The sum of f over the entries of s. */
  function SumBy<T>(f: T -> nat, s: seq<T>): nat {
    if s == [] then 0 else f(s[0]) + SumBy(f, s[1..])
  }

  lemma {:induction false} SumUpdate<T>(f: T -> nat, s: seq<T>, i: nat, x: T)
    requires i < |s|
    ensures SumBy(f, s[i := x]) + f(s[i]) == SumBy(f, s) + f(x)
  {
    if i == 0 {
      assert s[0 := x][1..] == s[1..];
    } else {
      SumUpdate(f, s[1..], i - 1, x);
      assert s[i := x][1..] == s[1..][i - 1 := x];
    }
  }

  lemma {:induction false} SumZero<T>(f: T -> nat, s: seq<T>)
    requires forall x :: x in s ==> f(x) == 0
    ensures SumBy(f, s) == 0
  {
    if s != [] { SumZero(f, s[1..]); }
  }

  lemma {:induction false} SumPositive<T>(f: T -> nat, s: seq<T>) returns (i: nat)
    requires SumBy(f, s) > 0
    ensures i < |s| && f(s[i]) > 0
  {
    if f(s[0]) > 0 {
      i := 0;
    } else {
      var j := SumPositive(f, s[1..]);
      i := j + 1;
    }
  }

  lemma {:induction false} SumAtLeast<T>(f: T -> nat, s: seq<T>, i: nat)
    requires i < |s|
    ensures SumBy(f, s) >= f(s[i])
  {
    if i > 0 { SumAtLeast(f, s[1..], i - 1); }
  }

  lemma {:induction false} SumMonotone<T>(f: T -> nat, g: T -> nat, s: seq<T>)
    requires forall x :: x in s ==> f(x) <= g(x)
    ensures SumBy(f, s) <= SumBy(g, s)
  {
    if s != [] { SumMonotone(f, g, s[1..]); }
  }

  /** f(lo) + ... + f(hi - 1). */
  function SumFrom(f: nat -> nat, lo: nat, hi: nat): nat
    decreases hi - lo
  {
    if lo >= hi then 0 else f(lo) + SumFrom(f, lo + 1, hi)
  }

  lemma ScaledMore(m: nat, x: nat, y: nat)
    ensures m * (x + y) == m * x + m * y
  {
  }

  lemma {:induction false} SumFromScaled(f: nat -> nat, g: nat -> nat, m: nat, lo: nat, hi: nat)
    requires forall i :: lo <= i < hi ==> f(i) <= m * g(i)
    ensures SumFrom(f, lo, hi) <= m * SumFrom(g, lo, hi)
    decreases hi - lo
  {
    if lo < hi {
      SumFromScaled(f, g, m, lo + 1, hi);
      ScaledMore(m, g(lo), SumFrom(g, lo + 1, hi));
    }
  }

  lemma {:induction false} SumFromMonotone(f: nat -> nat, g: nat -> nat, lo: nat, hi: nat)
    requires forall i :: lo <= i < hi ==> f(i) <= g(i)
    ensures SumFrom(f, lo, hi) <= SumFrom(g, lo, hi)
    decreases hi - lo
  {
    if lo < hi { SumFromMonotone(f, g, lo + 1, hi); }
  }

  lemma {:induction false} SumFromSeq<T>(f: T -> nat, s: seq<T>, g: nat -> nat, lo: nat)
    requires lo <= |s|
    requires forall i :: lo <= i < |s| ==> g(i) == f(s[i])
    ensures SumFrom(g, lo, |s|) == SumBy(f, s[lo..])
    decreases |s| - lo
  {
    if lo < |s| {
      SumFromSeq(f, s, g, lo + 1);
      assert s[lo..][1..] == s[lo + 1..];
    }
  }

  /** How many entries of s satisfy p. */
  function Matches<T>(p: T -> bool, s: seq<T>): nat {
    if s == [] then 0 else Matches(p, s[..|s| - 1]) + if p(s[|s| - 1]) then 1 else 0
  }

  ghost predicate Rises(s: seq<nat>) {
    forall a, b :: 0 <= a < b < |s| ==> s[a] < s[b]
  }

  lemma RisesConcat(a: seq<nat>, b: seq<nat>, mid: nat)
    requires Rises(a) && Rises(b)
    requires (forall k :: k in a ==> k < mid) && (forall k :: k in b ==> k >= mid)
    ensures Rises(a + b)
  {
    var ab := a + b;
    forall i, j | 0 <= i < j < |ab| ensures ab[i] < ab[j] {
      if i < |a| <= j { assert a[i] in a && b[j - |a|] in b; }
    }
  }

  /** a is made of the entries of b at these rising places. */
  ghost predicate Picks<T>(a: seq<T>, b: seq<T>, at: seq<nat>) {
    |at| == |a| && Rises(at) && forall m :: 0 <= m < |a| ==> at[m] < |b| && a[m] == b[at[m]]
  }

  /** a is what is left of b when some entries are struck out. */
  ghost predicate Subsequence<T(!new)>(a: seq<T>, b: seq<T>) {
    exists at: seq<nat> :: Picks(a, b, at)
  }

  /** The entries from the k-th on, then the first k. */
  function Rotated<T>(s: seq<T>, k: nat): seq<T>
    requires k <= |s|
  {
    s[k..] + s[..k]
  }

  lemma Member<T>(s: set<T>) returns (x: T)
    requires s != {}
    ensures x in s
  {
    x :| x in s;
  }

  /** The members of a set in some order: iterating over a map promises no more. */
  method Enumerate<T(==)>(s: set<T>) returns (listed: seq<T>)
    ensures NoDup(listed) && Elems(listed) == s
  {
    listed := [];
    var rest := s;
    while rest != {}
      invariant NoDup(listed) && rest <= s && Elems(listed) == s - rest
      decreases rest
    {
      var x :| x in rest;
      assert x !in Elems(listed);
      NoDupAppend(listed, x);
      assert Elems(listed + [x]) == Elems(listed) + {x};
      listed, rest := listed + [x], rest - {x};
    }
  }
}
