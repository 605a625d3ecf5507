/**
 Runs of a transition system given by a total step function. An action that is
 not enabled leaves the state as it is, so "every interleaving" is "every
 sequence of actions".
 */
module Runs {

  /** The state after the actions `acts`, taken in order from `s`. */
  ghost function Exec<S, A>(step: (S, A) -> S, s: S, acts: seq<A>): S
    decreases |acts|
  {
    if acts == [] then s
    else step(Exec(step, s, acts[..|acts| - 1]), acts[|acts| - 1])
  }

  /** A step invariant that holds at the start holds after every run. */
  lemma {:induction false} Invariant<S(!new), A(!new)>(step: (S, A) -> S, inv: S -> bool, s: S, acts: seq<A>)
    requires inv(s)
    requires forall t: S, a: A :: inv(t) ==> inv(step(t, a))
    ensures inv(Exec(step, s, acts))
    decreases |acts|
  {
    if acts != [] {
      Invariant(step, inv, s, acts[..|acts| - 1]);
    }
  }

  /** A run of `a + b` is a run of `b` from where `a` ended. */
  lemma {:induction false} Split<S, A>(step: (S, A) -> S, s: S, a: seq<A>, b: seq<A>)
    ensures Exec(step, s, a + b) == Exec(step, Exec(step, s, a), b)
    decreases |b|
  {
    if b == [] {
      assert a + b == a;
    } else {
      var l := |b| - 1;
      assert (a + b)[..|a + b| - 1] == a + b[..l];
      Split(step, s, a, b[..l]);
    }
  }

  /** A run, read from its first action. */
  lemma Follow<S, A>(step: (S, A) -> S, s: S, acts: seq<A>)
    requires acts != []
    ensures Exec(step, s, acts) == Exec(step, step(s, acts[0]), acts[1..])
  {
    assert acts == acts[..1] + acts[1..];
    Split(step, s, acts[..1], acts[1..]);
    assert acts[..1][..0] == [];
  }

  /** Four actions at a time, for concrete runs. */
  lemma Four<S, A>(step: (S, A) -> S, s: S, before: seq<A>, a: A, b: A, c: A, d: A)
    ensures Exec(step, s, before + [a, b, c, d]) ==
            step(step(step(step(Exec(step, s, before), a), b), c), d)
  {
    Split(step, s, before, [a, b, c, d]);
    var t := Exec(step, s, before);
    Follow(step, t, [a, b, c, d]);
    assert [a, b, c, d][1..] == [b, c, d];
    Follow(step, step(t, a), [b, c, d]);
    assert [b, c, d][1..] == [c, d];
    Follow(step, step(step(t, a), b), [c, d]);
    assert [c, d][1..] == [d];
    Follow(step, step(step(step(t, a), b), c), [d]);
  }

  /** Where a concrete run stands after four more actions. */
  lemma Reach<S, A>(step: (S, A) -> S, s: S, before: seq<A>, t: S, a: A, b: A, c: A, d: A, u: S)
    requires Exec(step, s, before) == t && step(step(step(step(t, a), b), c), d) == u
    ensures Exec(step, s, before + [a, b, c, d]) == u
  {
    Four(step, s, before, a, b, c, d);
  }
}
