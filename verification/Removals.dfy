/** Taking records out of a collection one by one. */
module Removals {
  import opened Text
  import opened Store
  import opened Counting

  /** One of the records in `mine` was taken out. */
  ghost predicate OneLess<T>(before: map<string, T>, after: map<string, T>, mine: set<string>) {
    exists k :: k in mine && k in before && after == before - {k}
  }

  /** Successive states of a map, one record of `mine` taken out at each step. */
  ghost predicate OneByOne<T>(steps: seq<map<string, T>>, mine: set<string>) {
    |steps| > 0 && forall j | 0 < j < |steps| :: OneLess(steps[j - 1], steps[j], mine)
  }

  /** In between, too, what is still there is as it was, and what is not in `mine` is still there. */
  lemma {:induction false} InBetween<T>(steps: seq<map<string, T>>, mine: set<string>, j: nat)
    requires OneByOne(steps, mine) && j < |steps|
    ensures forall k | k in steps[j] :: k in steps[0] && steps[j][k] == steps[0][k]
    ensures forall k | k in steps[0] && k !in mine :: k in steps[j]
  {
    if j != 0 {
      InBetween(steps, mine, j - 1);
      assert OneLess(steps[j - 1], steps[j], mine);
    }
  }

  /** The states of a map while the keys are taken out in order. */
  ghost function Steps<T>(before: map<string, T>, keys: seq<string>, n: nat): seq<map<string, T>>
    requires n <= |keys|
  {
    if n == 0 then [before] else Steps(before, keys, n - 1) + [Left(before, keys, n)]
  }

  ghost function Left<T>(before: map<string, T>, keys: seq<string>, n: nat): map<string, T>
    requires n <= |keys|
  {
    if n == 0 then before else Left(before, keys, n - 1) - {keys[n - 1]}
  }

  /** Different keys, all of them in `mine`. */
  ghost predicate DistinctIn(keys: seq<string>, mine: set<string>) {
    && (forall i | 0 <= i < |keys| :: keys[i] in mine)
    && forall i, j | 0 <= i < j < |keys| :: keys[i] != keys[j]
  }

  ghost predicate Removable<T>(before: map<string, T>, keys: seq<string>, mine: set<string>) {
    mine <= before.Keys && DistinctIn(keys, mine)
  }

  ghost function FirstKeys(keys: seq<string>, n: nat): set<string>
    requires n <= |keys|
  {
    if n == 0 then {} else FirstKeys(keys, n - 1) + {keys[n - 1]}
  }

  lemma {:induction false} NotAmongFirst(keys: seq<string>, n: nat, k: string)
    requires n <= |keys| && forall i | 0 <= i < n :: keys[i] != k
    ensures k !in FirstKeys(keys, n)
  {
    if n != 0 {
      NotAmongFirst(keys, n - 1, k);
    }
  }

  lemma {:induction false} FirstKeysCount(keys: seq<string>, n: nat, mine: set<string>)
    requires DistinctIn(keys, mine) && n <= |keys|
    ensures FirstKeys(keys, n) <= mine && |FirstKeys(keys, n)| == n
  {
    if n != 0 {
      FirstKeysCount(keys, n - 1, mine);
      NotAmongFirst(keys, n - 1, keys[n - 1]);
    }
  }

  lemma {:induction false} LeftIs<T>(before: map<string, T>, keys: seq<string>, n: nat)
    requires n <= |keys|
    ensures Left(before, keys, n) == before - FirstKeys(keys, n)
  {
    if n == 0 {
      MinusNone(before);
    } else {
      LeftIs(before, keys, n - 1);
      MinusOneMore(before, FirstKeys(keys, n - 1), keys[n - 1]);
    }
  }

  /** The next key is still there. */
  lemma NextIsLeft<T>(before: map<string, T>, keys: seq<string>, n: nat, mine: set<string>)
    requires Removable(before, keys, mine) && n < |keys|
    ensures keys[n] in Left(before, keys, n) && OneLess(Left(before, keys, n), Left(before, keys, n + 1), mine)
  {
    LeftIs(before, keys, n);
    NotAmongFirst(keys, n, keys[n]);
    assert keys[n] in mine;
  }

  lemma OneMoreStep<T>(steps: seq<map<string, T>>, mine: set<string>, after: map<string, T>)
    requires OneByOne(steps, mine) && OneLess(steps[|steps| - 1], after, mine)
    ensures OneByOne(steps + [after], mine)
  {
    var longer := steps + [after];
    forall j | 0 < j < |longer| ensures OneLess(longer[j - 1], longer[j], mine) {
      if j < |steps| { assert OneLess(steps[j - 1], steps[j], mine); }
    }
  }

  lemma {:induction false} StepByStep<T>(before: map<string, T>, keys: seq<string>, n: nat, mine: set<string>)
    requires Removable(before, keys, mine) && n <= |keys|
    ensures var steps := Steps(before, keys, n);
      OneByOne(steps, mine) && steps[0] == before && steps[|steps| - 1] == Left(before, keys, n)
  {
    if n != 0 {
      StepByStep(before, keys, n - 1, mine);
      NextIsLeft(before, keys, n - 1, mine);
      OneMoreStep(Steps(before, keys, n - 1), mine, Left(before, keys, n));
    }
  }

  lemma NoMoreThanMine<T>(before: map<string, T>, keys: seq<string>, mine: set<string>)
    requires Removable(before, keys, mine)
    ensures |keys| <= |mine|
  {
    FirstKeysCount(keys, |keys|, mine);
    SubsetCount(FirstKeys(keys, |keys|), mine);
  }

  lemma {:induction false} AmongFirst(keys: seq<string>, n: nat, i: nat)
    requires i < n <= |keys|
    ensures keys[i] in FirstKeys(keys, n)
  {
    if i < n - 1 {
      AmongFirst(keys, n - 1, i);
    }
  }

  lemma AllKeys(keys: seq<string>, mine: set<string>)
    requires DistinctIn(keys, mine) && forall k | k in mine :: k in keys
    ensures FirstKeys(keys, |keys|) == mine
  {
    FirstKeysCount(keys, |keys|, mine);
    forall k | k in mine ensures k in FirstKeys(keys, |keys|) {
      var i :| 0 <= i < |keys| && keys[i] == k;
      AmongFirst(keys, |keys|, i);
    }
  }

  /** When every record of `mine` had its turn, none of them is left. */
  lemma AllRemoved<T>(before: map<string, T>, keys: seq<string>, mine: set<string>)
    requires Removable(before, keys, mine) && forall k | k in mine :: k in keys
    ensures Left(before, keys, |keys|) == before - mine && |keys| == |mine|
  {
    LeftIs(before, keys, |keys|);
    FirstKeysCount(keys, |keys|, mine);
    AllKeys(keys, mine);
  }

  // ---------- the loop ----------

  /** The next n writes of a collection go through. */
  ghost predicate NextWritesGo(writable: nat -> bool, first: nat, n: nat) {
    forall k | first <= k < first + n :: Goes(writable, k)
  }

  lemma FewerWrites(writable: nat -> bool, first: nat, n: nat, m: nat)
    requires n <= m && NextWritesGo(writable, first, m)
    ensures NextWritesGo(writable, first, n)
  {
  }

  lemma NextWrite(writable: nat -> bool, first: nat, n: nat, at: nat)
    requires NextWritesGo(writable, first, n) && at == first + n
    ensures Goes(writable, at) ==> NextWritesGo(writable, first, n + 1)
    ensures !Goes(writable, at) ==> !NextWritesGo(writable, first, n + 1)
  {
  }

  /** A removal as far as the map and the count of writes are concerned. */
  method RemoveOne<T(!new)>(coll: Collection<T>, k: string) returns (err: Option<string>)
    requires coll.Valid() && k in coll.items
    modifies coll
    ensures coll.Valid() && coll.items == old(coll.items) - {k} && coll.flushes == old(coll.flushes) + 1
    ensures err.None? <==> Goes(coll.writable, old(coll.flushes))
  {
    err := coll.Delete(k);
  }
}
