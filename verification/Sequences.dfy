/** Facts about sequences, named where a proof needs them. */
module Sequences {

  lemma Associate<T>(a: seq<T>, b: seq<T>, c: seq<T>)
    ensures a + (b + c) == a + b + c
  {
  }

  lemma FrontAndLast<T>(a: seq<T>, b: seq<T>)
    requires b != []
    ensures (a + b)[..|a + b| - 1] == a + b[..|b| - 1] && (a + b)[|a + b| - 1] == b[|b| - 1]
  {
  }

  lemma HeadAndTail<T>(a: seq<T>, b: seq<T>)
    requires a != []
    ensures (a + b)[0] == a[0] && (a + b)[1..] == a[1..] + b
  {
  }

  /** Strictly increasing positions in a sequence of length n. */
  ghost predicate Positions(ps: seq<nat>, n: nat) {
    (forall k | 0 <= k < |ps| :: ps[k] < n) && forall j, k | 0 <= j < k < |ps| :: ps[j] < ps[k]
  }

  lemma OneMorePosition(ps: seq<nat>, n: nat)
    requires Positions(ps, n)
    ensures Positions(ps, n + 1) && Positions(ps + [n], n + 1)
  {
  }
}
