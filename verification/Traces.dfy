/** Traces of a step relation `next`: which steps, in order, lead from one state to another. */
module Traces {
  ghost predicate Did<S(!new), T>(next: (S, T, S) -> bool, s: S, steps: seq<T>, v: S) {
    if steps == [] then v == s
    else
      var init, last := steps[..|steps| - 1], steps[|steps| - 1];
      exists u :: Did(next, s, init, u) && next(u, last, v)
  }

  lemma DidOne<S(!new), T>(next: (S, T, S) -> bool, s: S, steps: seq<T>, v: S, step: T, w: S)
    requires Did(next, s, steps, v) && next(v, step, w)
    ensures Did(next, s, steps + [step], w)
  {
    assert (steps + [step])[..|steps|] == steps;
  }

  lemma {:induction false} DidTwo<S(!new), T>(next: (S, T, S) -> bool, s: S, a: seq<T>, v: S, b: seq<T>, w: S)
    requires Did(next, s, a, v) && Did(next, v, b, w)
    ensures Did(next, s, a + b, w)
  {
    if b == [] {
      assert a + b == a;
    } else {
      var init, last := b[..|b| - 1], b[|b| - 1];
      var u :| Did(next, v, init, u) && next(u, last, w);
      DidTwo(next, s, a, v, init, u);
      DidOne(next, s, a + init, u, last, w);
      assert a + b == a + init + [last];
    }
  }

  lemma DidMore<S(!new), T>(next: (S, T, S) -> bool, s: S, done: seq<T>, v: S, acts: seq<T>, w: S, step: T, x: S)
    requires Did(next, s, done, v) && Did(next, v, acts, w) && next(w, step, x)
    ensures Did(next, s, done + acts + [step], x)
  {
    DidTwo(next, s, done, v, acts, w);
    DidOne(next, s, done + acts, w, step, x);
  }

  /** The i-th of several batches, empty behind the last. */
  function At<T>(batches: seq<seq<T>>, i: nat): seq<T> { if i < |batches| then batches[i] else [] }

  // ----- what each place hands on to the next -----

  ghost predicate HandsOn(ok: nat -> bool, i: nat) { ok(i) ==> ok(i + 1) }

  lemma {:induction false} Follows(ok: nat -> bool, n: nat)
    requires ok(0) && forall i: nat :: i < n ==> HandsOn(ok, i)
    ensures ok(n)
  {
    if n > 0 {
      Follows(ok, n - 1);
      assert HandsOn(ok, n - 1);
    }
  }
}
