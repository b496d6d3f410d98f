/** Option and Result, the shapes the model uses for Rust's Option<T> and anyhow::Result<T>. */
module Wrappers {

  datatype Option<+T> = None | Some(value: T) {
    /** Rust's `unwrap_or` / `unwrap_or_default` with an explicit default. */
    function GetOr(default: T): T {
      match this
      case Some(v) => v
      case None => default
    }
  }

  datatype Result<+R, +E> = Success(value: R) | Failure(error: E)
}

/**
 * A trace of effects: the operations a procedure performed, in order, and
 * whether it finished or stopped at the first failing operation (Rust's `?`).
 */
module Effects {
  import opened Wrappers

  datatype Trace<Op, E> = Trace(ops: seq<Op>, result: Result<(), E>)

  function Done<Op, E>(): Trace<Op, E> {
    Trace([], Success(()))
  }

  /** Run `first`, and `next` only if `first` succeeded: the meaning of `first?; next`. */
  function AndThen<Op, E>(first: Trace<Op, E>, next: Trace<Op, E>): (t: Trace<Op, E>)
    ensures first.result.Failure? ==> t == first
    ensures first.result.Success? ==> t.ops == first.ops + next.ops && t.result == next.result
  {
    if first.result.Failure? then first else Trace(first.ops + next.ops, next.result)
  }

  lemma AndThenAssoc<Op, E>(a: Trace<Op, E>, b: Trace<Op, E>, c: Trace<Op, E>)
    ensures AndThen(AndThen(a, b), c) == AndThen(a, AndThen(b, c))
  {
    if a.result.Success? && b.result.Success? {
      assert (a.ops + b.ops) + c.ops == a.ops + (b.ops + c.ops);
    }
  }

  /** A property every operation of both parts has, every operation of their sequencing has. */
  lemma AndThenKeeps<Op, E>(first: Trace<Op, E>, next: Trace<Op, E>, p: Op -> bool)
    requires forall op | op in first.ops :: p(op)
    requires forall op | op in next.ops :: p(op)
    ensures forall op | op in AndThen(first, next).ops :: p(op)
  {
  }

  /** The operations of running `f` on each element in turn, concatenated. */
  function ConcatMap<T, Op>(f: T -> seq<Op>, xs: seq<T>): seq<Op>
    decreases |xs|
  {
    if xs == [] then [] else ConcatMap(f, xs[..|xs| - 1]) + f(xs[|xs| - 1])
  }

  lemma {:induction false} ConcatMapAppend<T, Op>(f: T -> seq<Op>, a: seq<T>, b: seq<T>)
    ensures ConcatMap(f, a + b) == ConcatMap(f, a) + ConcatMap(f, b)
    decreases |b|
  {
    if b == [] {
      assert a + b == a;
    } else {
      var n := |b| - 1;
      assert (a + b)[..|a| + n] == a + b[..n];
      ConcatMapAppend(f, a, b[..n]);
    }
  }

  /** The state left by applying `next` to each element in turn. */
  function Fold<S, T>(next: (S, T) -> S, s: S, xs: seq<T>): S
    decreases |xs|
  {
    if xs == [] then s else next(Fold(next, s, xs[..|xs| - 1]), xs[|xs| - 1])
  }

  /** The operations of running `f` on each element in turn, each from the state the earlier ones left. */
  function ThreadedOps<S, T, Op>(f: (S, T) -> seq<Op>, next: (S, T) -> S, s: S, xs: seq<T>): seq<Op>
    decreases |xs|
  {
    if xs == [] then []
    else
      var n := |xs| - 1;
      ThreadedOps(f, next, s, xs[..n]) + f(Fold(next, s, xs[..n]), xs[n])
  }

  /** One more element: its step runs from the state the earlier ones left, and then moves it on. */
  lemma ThreadedOpsNext<S, T, Op>(f: (S, T) -> seq<Op>, next: (S, T) -> S, s: S, xs: seq<T>, i: nat)
    requires i < |xs|
    ensures Fold(next, s, xs[..i + 1]) == next(Fold(next, s, xs[..i]), xs[i])
    ensures ThreadedOps(f, next, s, xs[..i + 1]) == ThreadedOps(f, next, s, xs[..i]) + f(Fold(next, s, xs[..i]), xs[i])
  {
    assert xs[..i + 1][..i] == xs[..i];
  }

  lemma {:induction false} FoldAppend<S, T>(next: (S, T) -> S, s: S, a: seq<T>, b: seq<T>)
    ensures Fold(next, s, a + b) == Fold(next, Fold(next, s, a), b)
    decreases |b|
  {
    if b == [] {
      assert a + b == a;
    } else {
      var n := |b| - 1;
      assert (a + b)[..|a| + n] == a + b[..n];
      FoldAppend(next, s, a, b[..n]);
    }
  }

  /** Running over a concatenation runs over the first part, then over the second from the state the first left. */
  lemma {:induction false} ThreadedOpsAppend<S, T, Op>(f: (S, T) -> seq<Op>, next: (S, T) -> S, s: S, a: seq<T>, b: seq<T>)
    ensures ThreadedOps(f, next, s, a + b) == ThreadedOps(f, next, s, a) + ThreadedOps(f, next, Fold(next, s, a), b)
    decreases |b|
  {
    if b == [] {
      assert a + b == a;
    } else {
      var n := |b| - 1;
      assert (a + b)[..|a| + n] == a + b[..n];
      ThreadedOpsAppend(f, next, s, a, b[..n]);
      FoldAppend(next, s, a, b[..n]);
    }
  }

  /** Steps that agree on every element give the same concatenation. */
  lemma {:induction false} ConcatMapCongruent<T, Op>(f: T -> seq<Op>, g: T -> seq<Op>, xs: seq<T>)
    requires forall x | x in xs :: f(x) == g(x)
    ensures ConcatMap(f, xs) == ConcatMap(g, xs)
    decreases |xs|
  {
    if xs != [] {
      var n := |xs| - 1;
      assert forall x | x in xs[..n] :: x in xs;
      assert xs[n] in xs;
      ConcatMapCongruent(f, g, xs[..n]);
    }
  }

  /** Each element's operations are among the concatenation's. */
  lemma {:induction false} ConcatMapContains<T, Op>(f: T -> seq<Op>, xs: seq<T>, x: T, op: Op)
    requires x in xs && op in f(x)
    ensures op in ConcatMap(f, xs)
    decreases |xs|
  {
    var n := |xs| - 1;
    if xs[n] != x {
      assert xs == xs[..n] + [xs[n]];
      assert x in xs[..n];
      ConcatMapContains(f, xs[..n], x, op);
    }
  }

  /** Run `f` on each element in turn, stopping at the first failure: a loop whose body ends in `?`. */
  function Chain<T, Op, E>(f: T -> Trace<Op, E>, xs: seq<T>): Trace<Op, E>
    decreases |xs|
  {
    if xs == [] then Done() else AndThen(Chain(f, xs[..|xs| - 1]), f(xs[|xs| - 1]))
  }

  lemma ChainSnoc<T, Op, E>(f: T -> Trace<Op, E>, xs: seq<T>, x: T)
    ensures Chain(f, xs + [x]) == AndThen(Chain(f, xs), f(x))
  {
    assert (xs + [x])[..|xs|] == xs;
  }

  /** One more step of a run that has not failed: its operations follow, and its result is the run's. */
  lemma ChainNext<T, Op, E>(f: T -> Trace<Op, E>, xs: seq<T>, i: nat)
    requires i < |xs| && Chain(f, xs[..i]).result.Success?
    ensures Chain(f, xs[..i + 1]) == Trace(Chain(f, xs[..i]).ops + f(xs[i]).ops, f(xs[i]).result)
  {
    assert xs[..i + 1][..i] == xs[..i];
  }

  /** A step that does nothing leaves the run as it was. */
  lemma ChainSkip<T, Op, E>(f: T -> Trace<Op, E>, xs: seq<T>, i: nat)
    requires i < |xs| && f(xs[i]) == Done()
    ensures Chain(f, xs[..i + 1]) == Chain(f, xs[..i])
  {
    assert xs[..i + 1][..i] == xs[..i];
    var t := Chain(f, xs[..i]);
    if t.result.Success? {
      assert t.result.value == ();
      assert t.ops + [] == t.ops;
    }
  }

  /** Running over a concatenation runs over each part in turn. */
  lemma {:induction false} ChainAppend<T, Op, E>(f: T -> Trace<Op, E>, a: seq<T>, b: seq<T>)
    ensures Chain(f, a + b) == AndThen(Chain(f, a), Chain(f, b))
    decreases |b|
  {
    if b == [] {
      assert a + b == a;
      var t := Chain(f, a);
      if t.result.Success? {
        assert t.result.value == ();
        assert t.ops + [] == t.ops;
        assert AndThen(t, Done()) == Trace(t.ops, Success(()));
      }
    } else {
      var n := |b| - 1;
      assert a + b == (a + b[..n]) + [b[n]];
      assert b == b[..n] + [b[n]];
      ChainSnoc(f, a + b[..n], b[n]);
      ChainSnoc(f, b[..n], b[n]);
      ChainAppend(f, a, b[..n]);
      AndThenAssoc(Chain(f, a), Chain(f, b[..n]), f(b[n]));
    }
  }

  /** After a failure nothing more runs. */
  lemma ChainStops<T, Op, E>(f: T -> Trace<Op, E>, a: seq<T>, b: seq<T>)
    requires Chain(f, a).result.Failure?
    ensures Chain(f, a + b) == Chain(f, a)
  {
    ChainAppend(f, a, b);
  }

  /** A run that fails on a prefix is that prefix's run. */
  lemma ChainStopsAt<T, Op, E>(f: T -> Trace<Op, E>, xs: seq<T>, i: nat)
    requires i <= |xs| && Chain(f, xs[..i]).result.Failure?
    ensures Chain(f, xs) == Chain(f, xs[..i])
  {
    ChainStops(f, xs[..i], xs[i..]);
    assert xs[..i] + xs[i..] == xs;
  }

  function OpsOf<T, Op, E>(f: T -> Trace<Op, E>): T -> seq<Op> {
    x => f(x).ops
  }

  /** When no step fails, the run succeeds and performs every step's operations in turn. */
  lemma {:induction false} ChainSucceeds<T, Op, E>(f: T -> Trace<Op, E>, xs: seq<T>)
    requires forall x | x in xs :: f(x).result.Success?
    ensures Chain(f, xs) == Trace(ConcatMap(OpsOf(f), xs), Success(()))
    decreases |xs|
  {
    if xs != [] {
      var n := |xs| - 1;
      assert forall x | x in xs[..n] :: x in xs;
      ChainSucceeds(f, xs[..n]);
      assert xs[n] in xs;
      assert f(xs[n]).result.value == ();
    }
  }

  /** A property of every operation of every step is a property of every operation of the run. */
  lemma {:induction false} ChainKeeps<T, Op, E>(f: T -> Trace<Op, E>, xs: seq<T>, p: Op -> bool)
    requires forall x, op | x in xs && op in f(x).ops :: p(op)
    ensures forall op | op in Chain(f, xs).ops :: p(op)
    decreases |xs|
  {
    if xs != [] {
      var n := |xs| - 1;
      assert forall x | x in xs[..n] :: x in xs;
      ChainKeeps(f, xs[..n], p);
      AndThenKeeps(Chain(f, xs[..n]), f(xs[n]), p);
    }
  }
}
