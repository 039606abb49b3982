/** Paths of a step relation given as a function value. */
module Paths {
  ghost predicate Path<S(!new)>(step: (S, S) -> bool, a: S, b: S, n: nat)
    decreases n
  {
    if n == 0 then a == b else exists m :: step(a, m) && Path(step, m, b, n - 1)
  }

  lemma PathFrom<S(!new)>(step: (S, S) -> bool, a: S, m: S, b: S, n: nat)
    requires step(a, m) && Path(step, m, b, n)
    ensures Path(step, a, b, n + 1)
  {}

  /** What every step keeps, every path keeps. */
  lemma {:induction false} PathKeeps<S(!new)>(step: (S, S) -> bool, inv: S -> bool, a: S, b: S, n: nat)
    requires Path(step, a, b, n) && inv(a)
    requires forall s, t :: inv(s) && step(s, t) ==> inv(t)
    ensures inv(b)
    decreases n
  {
    if n > 0 {
      var m :| step(a, m) && Path(step, m, b, n - 1);
      PathKeeps(step, inv, m, b, n - 1);
    }
  }

  lemma {:induction false} PathOn<S(!new)>(step: (S, S) -> bool, a: S, b: S, c: S, n: nat)
    requires Path(step, a, b, n) && step(b, c)
    ensures Path(step, a, c, n + 1)
    decreases n
  {
    if n == 0 {
      assert Path(step, c, c, 0);
    } else {
      var m :| step(a, m) && Path(step, m, b, n - 1);
      PathOn(step, m, b, c, n - 1);
    }
  }

  ghost predicate Leads<S(!new)>(step: (S, S) -> bool, a: S, b: S) { exists n :: Path(step, a, b, n) }

  ghost predicate Inductive<S(!new)>(step: (S, S) -> bool, inv: S -> bool) { forall s, t :: inv(s) && step(s, t) ==> inv(t) }

  lemma LeadsKeeps<S(!new)>(step: (S, S) -> bool, inv: S -> bool, a: S, b: S)
    requires Leads(step, a, b) && inv(a) && Inductive(step, inv)
    ensures inv(b)
  {
    var n :| Path(step, a, b, n);
    PathKeeps(step, inv, a, b, n);
  }

  lemma LeadsOn<S(!new)>(step: (S, S) -> bool, a: S, b: S, c: S)
    requires Leads(step, a, b) && step(b, c)
    ensures Leads(step, a, c)
  {
    var n :| Path(step, a, b, n);
    PathOn(step, a, b, c, n);
  }

  lemma FourSteps<S(!new)>(step: (S, S) -> bool, a: S, b: S, c: S, e: S, f: S)
    requires step(a, b) && step(b, c) && step(c, e) && step(e, f)
    ensures Leads(step, a, f)
  {
    ThreeSteps(step, a, b, c, e);
    LeadsOn(step, a, e, f);
  }

  lemma ThreeSteps<S(!new)>(step: (S, S) -> bool, a: S, b: S, c: S, e: S)
    requires step(a, b) && step(b, c) && step(c, e)
    ensures Leads(step, a, e)
  {
    assert Path(step, a, a, 0);
    LeadsOn(step, a, a, b);
    LeadsOn(step, a, b, c);
    LeadsOn(step, a, c, e);
  }

  // ---- Labelled steps --------------------------------------------------------

  /** One step for each label, in order. */
  ghost predicate Chain<S(!new), X>(step: (S, X, S) -> bool, a: S, xs: seq<X>, b: S)
    decreases |xs|
  {
    if xs == [] then a == b else exists m :: step(a, xs[0], m) && Chain(step, m, xs[1..], b)
  }

  lemma ChainFrom<S(!new), X>(step: (S, X, S) -> bool, a: S, xs: seq<X>, m: S, b: S)
    requires xs != [] && step(a, xs[0], m) && Chain(step, m, xs[1..], b)
    ensures Chain(step, a, xs, b)
  {}

  lemma {:induction false} ChainAppend<S(!new), X>(step: (S, X, S) -> bool, a: S, xs: seq<X>, m: S, ys: seq<X>, b: S)
    requires Chain(step, a, xs, m) && Chain(step, m, ys, b)
    ensures Chain(step, a, xs + ys, b)
    decreases |xs|
  {
    if xs == [] {
      assert xs + ys == ys;
    } else {
      var first :| step(a, xs[0], first) && Chain(step, first, xs[1..], m);
      ChainAppend(step, first, xs[1..], m, ys, b);
      assert (xs + ys)[1..] == xs[1..] + ys;
      ChainFrom(step, a, xs + ys, first, b);
    }
  }
}
