/** The gateway client itself: critical sections over its fields, run under any schedule, and the backoff of its loop. */
module GatewayClient {
  import opened Text
  import opened Gateway

  /** The context package: contexts are numbered in the order of their creation. */
  class Contexts {
    var created: nat
    var cancelled: set<nat>

    constructor ()
      ensures created == 0 && cancelled == {}
    {
      created, cancelled := 0, {};
    }

    method WithCancel() returns (context: nat)
      modifies this
      ensures context == old(created) && created == old(created) + 1 && cancelled == old(cancelled)
    {
      context := created;
      created := created + 1;
    }

    method Cancel(context: nat)
      modifies this`cancelled
      ensures cancelled == old(cancelled) + {context}
    {
      cancelled := cancelled + {context};
    }
  }

  class Client {
    var config: Config
    var running: bool
    var cancel: Option<nat>
    const contexts: Contexts

    /** The client together with the callers that are in the middle of a call. */
    ghost function View(callers: map<nat, Pc>): World
      reads this, contexts
    {
      World(config, running, cancel, contexts.created, contexts.cancelled, callers)
    }

    constructor (config: Config)
      ensures fresh(contexts) && View(map[]) == Fresh(config)
    {
      this.config, running, cancel := config, false, None;
      contexts := new Contexts();
    }

    // ---------- what runs under the mutex ----------

    method StartLocked(ghost callers: map<nat, Pc>)
      modifies this, contexts
      ensures View(callers) == StartSection(old(View(callers)))
    {
      if running {
        return;
      }
      if Trim(config.appID) == "" || Trim(config.appSecret) == "" {
        return;
      }
      var context := contexts.WithCancel();
      cancel, running := Some(context), true;
    }

    method StopLocked(ghost callers: map<nat, Pc>) returns (taken: Option<nat>)
      modifies this
      ensures taken == old(cancel)
      ensures View(callers) == old(View(callers)).(cancel := None, running := false)
    {
      taken := cancel;
      running, cancel := false, None;
    }

    method ConfigureLocked(newConfig: Config, ghost callers: map<nat, Pc>) returns (restart: bool)
      modifies this
      ensures restart <==> old(config) != newConfig && old(running)
      ensures View(callers) == old(View(callers)).(config := newConfig)
    {
      var changed := config != newConfig;
      config := newConfig;
      restart := changed && running;
    }

    method CallCancel(taken: Option<nat>, ghost callers: map<nat, Pc>)
      modifies contexts
      ensures View(callers) == Cancelled(old(View(callers)), taken)
    {
      if taken.Some? {
        contexts.Cancel(taken.value);
      }
    }

    // ---------- the calls, undisturbed ----------

    method Start()
      modifies this, contexts
      ensures View(map[]) == Step(old(View(map[])), Move.Start(0))
    {
      StartLocked(map[]);
    }

    method Stop()
      modifies this, contexts
      ensures View(map[]) == Step(Step(old(View(map[])), Move.Stop(0)), Continue(0))
      ensures config == old(config) && !running
      ensures old(Accounted(View(map[]))) ==> Accounted(View(map[])) && Loops(View(map[])) == {}
    {
      ghost var before := View(map[]);
      var taken := StopLocked(map[]);
      CallCancel(taken, map[]);
      SoloStop(before);
    }

    method Configure(newConfig: Config)
      modifies this, contexts
      ensures config == newConfig
      ensures old(running) && old(config) != newConfig ==> running == Usable(newConfig)
      ensures !(old(running) && old(config) != newConfig) ==>
                View(map[]) == old(View(map[])).(config := newConfig)
      ensures old(Accounted(View(map[]))) ==> Accounted(View(map[]))
    {
      var restart := ConfigureLocked(newConfig, map[]);
      if restart {
        Reconnect();
      }
    }

    method Reconnect()
      modifies this, contexts
      ensures config == old(config) && running == Usable(config)
      ensures old(Accounted(View(map[]))) ==> Accounted(View(map[]))
    {
      Stop();
      ghost var stopped := View(map[]);
      Start();
      if Accounted(stopped) {
        StepKeepsAccount(stopped, Move.Start(0));
      }
    }

    // ---------- any schedule ----------

    method Perform(m: Move, callers: map<nat, Pc>) returns (after: map<nat, Pc>)
      modifies this, contexts
      ensures View(after) == Step(old(View(callers)), m)
    {
      after := callers;
      match m {
        case Start(p) =>
          if p !in callers {
            StartLocked(callers);
          }
        case Stop(p) =>
          if p !in callers {
            var taken := StopLocked(callers);
            after := callers[p := Cancelling(taken, false)];
          }
        case Configure(p, c) =>
          if p !in callers {
            var restart := ConfigureLocked(c, callers);
            if restart {
              after := callers[p := Stopping];
            }
          }
        case Continue(p) =>
          if p in callers {
            after := Proceed(p, callers);
          }
        case Expire(c) =>
          if c < contexts.created {
            contexts.Cancel(c);
          }
      }
    }

    method Proceed(p: nat, callers: map<nat, Pc>) returns (after: map<nat, Pc>)
      requires p in callers
      modifies this, contexts
      ensures View(after) == Step(old(View(callers)), Continue(p))
    {
      match callers[p] {
        case Stopping =>
          var taken := StopLocked(callers);
          after := callers[p := Cancelling(taken, true)];
        case Cancelling(held, restart) =>
          after := if restart then callers[p := Starting] else callers - {p};
          CallCancel(held, after);
        case Starting =>
          after := callers - {p};
          StartLocked(after);
      }
    }

    /** Every schedule of calls: the client follows the protocol, so it never has two loops. */
    method Interleave(moves: seq<Move>) returns (callers: map<nat, Pc>)
      requires View(map[]) == Fresh(config)
      modifies this, contexts
      ensures View(callers) == Run(old(View(map[])), moves)
      ensures Accounted(View(callers)) && (Held(View(callers)) == map[] ==> Loops(View(callers)) <= Current(View(callers)))
    {
      ghost var start, c := View(map[]), config;
      callers := map[];
      for i := 0 to |moves|
        invariant View(callers) == Run(start, moves[..i])
      {
        assert moves[..i + 1][..i] == moves[..i];
        callers := Perform(moves[i], callers);
      }
      assert moves[..|moves|] == moves;
      EveryLoopIsAccountedFor(c, moves);
      NeverTwoLoops(c, moves);
    }
  }

  /** A Stop that nobody interrupts leaves no loop. */
  lemma SoloStop(w: World)
    requires w.callers == map[]
    ensures var stopped := Step(Step(w, Move.Stop(0)), Continue(0));
      && stopped == Cancelled(w.(cancel := None, running := false), w.cancel)
      && (Accounted(w) ==> Accounted(stopped) && Loops(stopped) == {})
  {
    var half := Step(w, Move.Stop(0));
    assert half.callers - {0} == map[];
    if Accounted(w) {
      StepKeepsAccount(w, Move.Stop(0));
      StepKeepsAccount(half, Continue(0));
    }
  }

  // ---------- the backoff ----------

  const FIRST := 3
  const MAX := 120

  function Doubled(n: nat): nat {
    if n == 0 then FIRST else 2 * Doubled(n - 1)
  }

  /** Failures since the last session that ended without an error. */
  function Streak(failed: seq<bool>): nat {
    if failed == [] || !failed[|failed| - 1] then 0 else 1 + Streak(failed[..|failed| - 1])
  }

  /** The waiting times of the loop: three seconds, doubled with every failure in a row, never more than two minutes. */
  method Backoffs(failed: seq<bool>) returns (waits: seq<nat>)
    ensures |waits| == |failed|
    ensures forall i | 0 <= i < |failed| ::
              waits[i] == if Doubled(Streak(failed[..i])) < MAX then Doubled(Streak(failed[..i])) else MAX
  {
    var backoff := FIRST;
    waits := [];
    for n := 0 to |failed|
      invariant |waits| == n
      invariant backoff == if Doubled(Streak(failed[..n])) < MAX then Doubled(Streak(failed[..n])) else MAX
      invariant forall i | 0 <= i < n ::
                  waits[i] == if Doubled(Streak(failed[..i])) < MAX then Doubled(Streak(failed[..i])) else MAX
    {
      waits := waits + [backoff];
      assert failed[..n + 1][..n] == failed[..n];
      if !failed[n] {
        backoff := FIRST;
      } else if backoff < MAX {
        backoff := backoff * 2;
        if backoff > MAX {
          backoff := MAX;
        }
      }
    }
  }

  lemma {:induction false} DoublingGrows(n: nat)
    ensures n >= 6 ==> Doubled(n) >= 192
  {
    if n > 6 { DoublingGrows(n - 1); }
  }

  /** In seconds: 3, 6, 12, 24, 48, 96 and then always 120. */
  lemma WaitsAre(n: nat)
    ensures (if Doubled(n) < MAX then Doubled(n) else MAX) == if n < 6 then [3, 6, 12, 24, 48, 96][n] else 120
  {
    DoublingGrows(n);
    assert Doubled(0) == 3 && Doubled(1) == 6 && Doubled(2) == 12 && Doubled(3) == 24 && Doubled(4) == 48 && Doubled(5) == 96;
  }

  /** The sessions at the end that failed, back to the last one that did not. */
  lemma {:induction false} StreakIs(failed: seq<bool>)
    ensures var k := Streak(failed);
      && k <= |failed| && (forall i | |failed| - k <= i < |failed| :: failed[i])
      && (k < |failed| ==> !failed[|failed| - k - 1])
  {
    if failed != [] && failed[|failed| - 1] {
      StreakIs(failed[..|failed| - 1]);
    }
  }
}
