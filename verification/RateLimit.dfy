/** How often one topic may raise a notification. Times are in nanoseconds. */
module RateLimit {

  const MINUTE := 60_000_000_000

  function Quiet(minutes: int): (q: int)
    ensures q > 0
  {
    if minutes <= 0 then 5 * MINUTE else minutes * MINUTE
  }

  datatype Call = Call(key: string, now: int)

  /** Grant j leaves the quiet period to every earlier grant for the same key. */
  ghost predicate Clear(calls: seq<Call>, granted: seq<bool>, q: int, j: nat)
    requires j < |calls| && j <= |granted|
  {
    forall i | 0 <= i < j && granted[i] && calls[i].key == calls[j].key :: calls[j].now - calls[i].now >= q
  }

  class Notifier {
    var cooldown: map<string, int>
    var quietMinutes: int

    constructor (quietMinutes: int)
      ensures cooldown == map[] && this.quietMinutes == quietMinutes
    {
      cooldown, this.quietMinutes := map[], quietMinutes;
    }

    method AllowRate(key: string, now: int) returns (ok: bool)
      modifies this`cooldown
      ensures ok <==> (key in old(cooldown) ==>
                         now - old(cooldown)[key] >= (if quietMinutes <= 0 then 300_000_000_000 else 60_000_000_000 * quietMinutes))
      ensures cooldown == if ok then old(cooldown)[key := now] else old(cooldown)
    {
      var quiet := Quiet(quietMinutes);
      if key in cooldown && now - cooldown[key] < quiet {
        return false;
      }
      cooldown := cooldown[key := now];
      ok := true;
    }

    /** Any calls for any keys, under a clock that does not run backwards: granted exactly when clear. */
    method Run(calls: seq<Call>) returns (granted: seq<bool>)
      requires cooldown == map[] && Monotone(calls)
      modifies this`cooldown
      ensures |granted| == |calls| && Right(calls, granted, Quiet(quietMinutes))
    {
      granted := [];
      for n := 0 to |calls|
        invariant |granted| == n && Latest(cooldown, calls, granted)
        invariant Right(calls, granted, Quiet(quietMinutes))
      {
        TableDecides(cooldown, calls, granted, Quiet(quietMinutes));
        LatestNext(cooldown, calls, granted);
        var ok := AllowRate(calls[n].key, calls[n].now);
        RightNext(calls, granted, ok, Quiet(quietMinutes));
        granted := granted + [ok];
      }
    }
  }

  ghost predicate Monotone(calls: seq<Call>) {
    forall i, j | 0 <= i < j < |calls| :: calls[i].now <= calls[j].now
  }

  /** The table holds, for each key, the time of its latest grant. */
  ghost predicate Latest(cooldown: map<string, int>, calls: seq<Call>, granted: seq<bool>)
    requires |granted| <= |calls|
  {
    && (forall i | 0 <= i < |granted| && granted[i] ::
          calls[i].key in cooldown && calls[i].now <= cooldown[calls[i].key])
    && (forall key | key in cooldown :: exists i :: GrantOf(cooldown, calls, granted, key, i))
  }

  /** One look at the table is as good as a look at all earlier grants. */
  lemma TableDecides(cooldown: map<string, int>, calls: seq<Call>, granted: seq<bool>, q: int)
    requires |granted| < |calls| && Latest(cooldown, calls, granted)
    ensures var c := calls[|granted|];
      (c.key in cooldown ==> c.now - cooldown[c.key] >= q) <==> Clear(calls, granted, q, |granted|)
  {
  }

  /** The i-th call was granted, and is the latest grant for its key. */
  ghost predicate GrantOf(cooldown: map<string, int>, calls: seq<Call>, granted: seq<bool>, key: string, i: int)
    requires |granted| <= |calls| && key in cooldown
  {
    0 <= i < |granted| && granted[i] && calls[i] == Call(key, cooldown[key])
  }

  lemma LatestAfterRefusal(cooldown: map<string, int>, calls: seq<Call>, granted: seq<bool>)
    requires |granted| < |calls| && Latest(cooldown, calls, granted)
    ensures Latest(cooldown, calls, granted + [false])
  {
    var more := granted + [false];
    forall key | key in cooldown ensures exists i :: GrantOf(cooldown, calls, more, key, i) {
      var i :| GrantOf(cooldown, calls, granted, key, i);
      assert GrantOf(cooldown, calls, more, key, i);
    }
  }

  lemma LatestAfterGrant(cooldown: map<string, int>, calls: seq<Call>, granted: seq<bool>)
    requires |granted| < |calls| && Latest(cooldown, calls, granted) && Monotone(calls)
    ensures Latest(cooldown[calls[|granted|].key := calls[|granted|].now], calls, granted + [true])
  {
    var n := |granted|;
    var later, more := cooldown[calls[n].key := calls[n].now], granted + [true];
    forall key | key in later ensures exists i :: GrantOf(later, calls, more, key, i) {
      if key == calls[n].key {
        assert GrantOf(later, calls, more, key, n);
      } else {
        var i :| GrantOf(cooldown, calls, granted, key, i);
        assert GrantOf(later, calls, more, key, i);
      }
    }
  }

  lemma LatestNext(cooldown: map<string, int>, calls: seq<Call>, granted: seq<bool>)
    requires |granted| < |calls| && Latest(cooldown, calls, granted) && Monotone(calls)
    ensures Latest(cooldown[calls[|granted|].key := calls[|granted|].now], calls, granted + [true])
    ensures Latest(cooldown, calls, granted + [false])
  {
    LatestAfterGrant(cooldown, calls, granted);
    LatestAfterRefusal(cooldown, calls, granted);
  }

  /** A call is granted exactly when it is clear of all earlier grants for its key. */
  ghost predicate Right(calls: seq<Call>, granted: seq<bool>, q: int)
    requires |granted| <= |calls|
  {
    forall j | 0 <= j < |granted| :: granted[j] <==> Clear(calls, granted, q, j)
  }

  lemma RightNext(calls: seq<Call>, granted: seq<bool>, ok: bool, q: int)
    requires |granted| < |calls| && Right(calls, granted, q)
    requires ok <==> Clear(calls, granted, q, |granted|)
    ensures Right(calls, granted + [ok], q)
  {
    var more := granted + [ok];
    forall j | 0 <= j < |more| ensures more[j] <==> Clear(calls, more, q, j) {
      assert forall i | 0 <= i < j :: more[i] == granted[i];
      assert Clear(calls, more, q, j) <==> Clear(calls, granted, q, j);
    }
  }

  /** The times of the grants for one key within a window. */
  ghost function GrantsIn(calls: seq<Call>, granted: seq<bool>, key: string, from: int, length: int): seq<int>
    requires |granted| == |calls|
  {
    if calls == [] then [] else
      var n := |calls| - 1;
      GrantsIn(calls[..n], granted[..n], key, from, length)
      + if granted[n] && calls[n].key == key && from <= calls[n].now <= from + length then [calls[n].now] else []
  }

  /** Grants q apart: the last one is at least (n - 1) * q after the first. */
  ghost predicate Spaced(times: seq<int>, q: int) {
    forall i, j | 0 <= i < j < |times| :: times[j] - times[i] >= q
  }

  lemma {:induction false} SpacedSpread(times: seq<int>, q: int)
    requires Spaced(times, q) && times != []
    ensures times[|times| - 1] - times[0] >= (|times| - 1) * q
  {
    if |times| > 1 {
      SpacedSpread(times[..|times| - 1], q);
    }
  }

  lemma {:induction false} GrantsAreSpaced(calls: seq<Call>, granted: seq<bool>, q: int, key: string, from: int, length: int)
    requires |granted| == |calls|
    requires forall j | 0 <= j < |calls| && granted[j] :: Clear(calls, granted, q, j)
    ensures var times := GrantsIn(calls, granted, key, from, length);
      && Spaced(times, q) && (forall t | t in times :: from <= t <= from + length)
      && forall t | t in times :: exists i :: 0 <= i < |calls| && granted[i] && calls[i] == Call(key, t)
  {
    if calls != [] {
      var n := |calls| - 1;
      var c, g := calls[..n], granted[..n];
      forall j | 0 <= j < n && g[j] ensures Clear(c, g, q, j) {
        assert Clear(calls, granted, q, j);
      }
      GrantsAreSpaced(c, g, q, key, from, length);
      var times := GrantsIn(c, g, key, from, length);
      forall t | t in times ensures exists i :: 0 <= i < |calls| && granted[i] && calls[i] == Call(key, t) {
        var i :| 0 <= i < n && g[i] && c[i] == Call(key, t);
        assert calls[i] == c[i];
      }
      if granted[n] && calls[n].key == key {
        assert Clear(calls, granted, q, n);
        forall i | 0 <= i < |times| ensures calls[n].now - times[i] >= q {
          assert times[i] in times;
        }
      }
    }
  }

  lemma SpacedFit(times: seq<int>, q: int, from: int, length: nat)
    requires Spaced(times, q) && q > 0 && forall t | t in times :: from <= t <= from + length
    ensures |times| <= length / q + 1
  {
    if times != [] {
      assert times[0] in times && times[|times| - 1] in times;
      SpacedSpread(times, q);
      FitsIn(|times| - 1, q, length);
    }
  }

  lemma FitsIn(n: nat, q: int, length: nat)
    requires q > 0 && n * q <= length
    ensures n <= length / q
  {
    var d := length / q;
    assert length < (d + 1) * q;
    Cancel(n, d + 1, q);
  }

  lemma Cancel(a: nat, b: nat, q: int)
    requires q > 0 && a * q < b * q
    ensures a < b
  {
    assert (b - a) * q == b * q - a * q;
  }

  /** No window of any length holds more than length / q + 1 grants for a key, whatever is asked for other keys. */
  lemma WindowBound(calls: seq<Call>, granted: seq<bool>, q: int, key: string, from: int, length: nat)
    requires |granted| == |calls| && q > 0
    requires Right(calls, granted, q)
    ensures |GrantsIn(calls, granted, key, from, length)| <= length / q + 1
  {
    GrantsAreSpaced(calls, granted, q, key, from, length);
    SpacedFit(GrantsIn(calls, granted, key, from, length), q, from, length);
  }
}
