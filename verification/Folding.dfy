/** Left folds of a step function over a sequence, and what a law of one step
    says about the whole fold. */
module Folding {

  function Fold<S, X>(f: (S, X) -> S, s: S, xs: seq<X>): S
    decreases |xs|
  {
    if xs == [] then s else Fold(f, f(s, xs[0]), xs[1..])
  }

  lemma {:induction false} FoldAppend<S, X>(f: (S, X) -> S, s: S, xs: seq<X>, ys: seq<X>)
    ensures Fold(f, s, xs + ys) == Fold(f, Fold(f, s, xs), ys)
    decreases |xs|
  {
    if xs == [] {
      assert xs + ys == ys;
    } else {
      assert (xs + ys)[1..] == xs[1..] + ys;
      FoldAppend(f, f(s, xs[0]), xs[1..], ys);
    }
  }

  lemma FoldOne<S, X>(f: (S, X) -> S, s: S, x: X)
    ensures Fold(f, s, [x]) == f(s, x)
  {
    assert [x][1..] == [];
  }

  lemma FoldLast<S, X>(f: (S, X) -> S, s: S, xs: seq<X>, x: X)
    ensures Fold(f, s, xs + [x]) == f(Fold(f, s, xs), x)
  {
    FoldAppend(f, s, xs, [x]);
    FoldOne(f, Fold(f, s, xs), x);
  }

  // ---- Folds of bit strings ----------------------------------------------

  function XorBits(s: seq<bool>, t: seq<bool>): (e: seq<bool>)
    requires |s| == |t|
    ensures |e| == |s|
    ensures forall k :: 0 <= k < |e| ==> e[k] == (s[k] != t[k])
  {
    seq(|s|, k requires 0 <= k < |s| => s[k] != t[k])
  }

  /** A step that is additive makes the fold additive. */
  lemma {:induction false} FoldLinear<S(!new)>(f: (S, bool) -> S, plus: (S, S) -> S,
                                               a: S, b: S, s: seq<bool>, t: seq<bool>)
    requires |s| == |t|
    requires forall c, d, x, y :: f(plus(c, d), x != y) == plus(f(c, x), f(d, y))
    ensures plus(Fold(f, a, s), Fold(f, b, t)) == Fold(f, plus(a, b), XorBits(s, t))
    decreases |s|
  {
    if s != [] {
      var e := XorBits(s, t);
      assert e[1..] == XorBits(s[1..], t[1..]);
      assert f(plus(a, b), s[0] != t[0]) == plus(f(a, s[0]), f(b, t[0]));
      FoldLinear(f, plus, f(a, s[0]), f(b, t[0]), s[1..], t[1..]);
    }
  }

  /** Over all-false input, a state that only zero steps to zero stays zero or
      stays non-zero. */
  lemma {:induction false} FoldQuiet<S(!new)>(f: (S, bool) -> S, zero: S, c: S, xs: seq<bool>)
    requires forall k :: 0 <= k < |xs| ==> !xs[k]
    requires forall d :: f(d, false) == zero <==> d == zero
    ensures Fold(f, c, xs) == zero <==> c == zero
    decreases |xs|
  {
    if xs != [] {
      FoldQuiet(f, zero, f(c, false), xs[1..]);
    }
  }

  /** A margin that one step uses up by at most one unit. */
  lemma {:induction false} FoldMargin<S(!new)>(f: (S, bool) -> S, margin: (S, int) -> bool,
                                               c: S, n: int, xs: seq<bool>)
    requires |xs| <= n && margin(c, n)
    requires forall d, m: int, x :: m > 0 && margin(d, m) ==> margin(f(d, x), m - 1)
    ensures margin(Fold(f, c, xs), n - |xs|)
    decreases |xs|
  {
    if xs != [] {
      var x := xs[0];
      assert n > 0 && margin(c, n);
      FoldMargin(f, margin, f(c, x), n - 1, xs[1..]);
    }
  }

  /** The bits of all elements, eight each. */
  function Concat<X(!new)>(bits: X -> seq<bool>, data: seq<X>): (all: seq<bool>)
    requires forall x :: |bits(x)| == 8
    ensures |all| == 8 * |data|
    decreases |data|
  {
    if data == [] then [] else bits(data[0]) + Concat(bits, data[1..])
  }

  lemma {:induction false} ConcatAt<X(!new)>(bits: X -> seq<bool>, data: seq<X>, i: nat, j: nat)
    requires (forall x :: |bits(x)| == 8) && i < |data| && j < 8
    ensures Concat(bits, data)[8 * i + j] == bits(data[i])[j]
    decreases |data|
  {
    var first, rest := bits(data[0]), Concat(bits, data[1..]);
    if i > 0 {
      ConcatAt(bits, data[1..], i - 1, j);
      LaterBit(first, rest, 8 * (i - 1) + j);
    }
  }

  lemma LaterBit(first: seq<bool>, rest: seq<bool>, k: nat)
    requires |first| == 8 && k < |rest|
    ensures (first + rest)[8 + k] == rest[k]
  {}

  function Ones(e: seq<bool>): nat
    decreases |e|
  {
    if e == [] then 0 else (if e[0] then 1 else 0) + Ones(e[1..])
  }

  /** A parity that flips with each true bit counts the ones modulo 2. */
  lemma {:induction false} FoldParity<S(!new)>(f: (S, bool) -> S, odd: S -> bool, c: S, xs: seq<bool>)
    requires forall d, x :: odd(f(d, x)) == (odd(d) != x)
    ensures odd(Fold(f, c, xs)) == (odd(c) != (Ones(xs) % 2 == 1))
    decreases |xs|
  {
    if xs != [] {
      FoldParity(f, odd, f(c, xs[0]), xs[1..]);
    }
  }

  function FirstTrue(e: seq<bool>, some: nat): (p: nat)
    requires some < |e| && e[some]
    ensures p < |e| && e[p] && forall k :: 0 <= k < p ==> !e[k]
    decreases |e|
  {
    if e[0] then 0 else 1 + FirstTrue(e[1..], some - 1)
  }
}
