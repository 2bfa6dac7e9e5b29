/** The gateway client under any interleaving of callers: never two loops, none left behind. */
module Gateway {
  import opened Text
  import opened Counting

  datatype Config = Config(appID: string, appSecret: string, sandbox: bool, proxy: string)

  predicate Usable(c: Config) { Trim(c.appID) != "" && Trim(c.appSecret) != "" }

  // ---------- the protocol ----------

  /** Where a call that has left the mutex at least once stands; a caller without an entry is not in a call. */
  datatype Pc =
    | Cancelling(held: Option<nat>, restart: bool)  // Stop took the cancel function and has yet to call it
    | Stopping                                      // Configure saw a change and has yet to stop
    | Starting                                      // Configure has stopped and has yet to start

  /** Each loop runs under a context of its own, numbered in order; `cancelled` are those whose loop ends. */
  datatype World = World(
    config: Config,
    running: bool,
    cancel: Option<nat>,
    created: nat,
    cancelled: set<nat>,
    callers: map<nat, Pc>)

  /** One atomic step: a critical section, a call of a cancel function, or the end of a parent context. */
  datatype Move =
    | Start(caller: nat)
    | Stop(caller: nat)
    | Configure(caller: nat, config: Config)
    | Continue(caller: nat)
    | Expire(context: nat)

  function StartSection(w: World): World {
    if w.running || !Usable(w.config) then w
    else w.(cancel := Some(w.created), running := true, created := w.created + 1)
  }

  function StopSection(w: World, caller: nat, restart: bool): World {
    w.(cancel := None, running := false, callers := w.callers[caller := Cancelling(w.cancel, restart)])
  }

  function Cancelled(w: World, held: Option<nat>): World {
    if held.Some? then w.(cancelled := w.cancelled + {held.value}) else w
  }

  /** A caller in a call cannot begin another; a move that is not possible changes nothing. */
  function Step(w: World, m: Move): World {
    match m
    case Start(p) => if p in w.callers then w else StartSection(w)
    case Stop(p) => if p in w.callers then w else StopSection(w, p, false)
    case Configure(p, c) =>
      if p in w.callers then w
      else if w.config != c && w.running then w.(config := c, callers := w.callers[p := Stopping])
      else w.(config := c)
    case Continue(p) =>
      if p !in w.callers then w else (
        match w.callers[p]
        case Stopping => StopSection(w, p, true)
        case Cancelling(held, restart) =>
          Cancelled(w.(callers := if restart then w.callers[p := Starting] else w.callers - {p}), held)
        case Starting => StartSection(w.(callers := w.callers - {p})))
    case Expire(c) => if c < w.created then w.(cancelled := w.cancelled + {c}) else w
  }

  function Run(w: World, moves: seq<Move>): World {
    if moves == [] then w else Step(Run(w, moves[..|moves| - 1]), moves[|moves| - 1])
  }

  function Fresh(config: Config): World {
    World(config, false, None, 0, {}, map[])
  }

  // ---------- what every step keeps ----------

  ghost predicate Holds(w: World, p: nat, c: nat) {
    p in w.callers && w.callers[p].Cancelling? && w.callers[p].held == Some(c)
  }

  /** Every loop ever started is cancelled, or is the current one, or is about to be cancelled by a Stop in flight. */
  ghost predicate Accounted(w: World) {
    && (w.running <==> w.cancel.Some?)
    && (w.cancel.Some? ==> w.cancel.value < w.created)
    && (forall p: nat, c: nat | Holds(w, p, c) :: c < w.created)
    && (forall c: nat | c < w.created && c !in w.cancelled :: w.cancel == Some(c) || exists p: nat :: Holds(w, p, c))
  }

  lemma StepKeepsAccount(w: World, m: Move)
    requires Accounted(w)
    ensures Accounted(Step(w, m))
  {
    var n := Step(w, m);
    HoldersKnow(w, m);
    forall c: nat | c < n.created && c !in n.cancelled ensures n.cancel == Some(c) || exists p: nat :: Holds(n, p, c) {
      LoopStaysAccounted(w, m, c);
    }
  }

  lemma HoldersKnow(w: World, m: Move)
    requires Accounted(w)
    ensures var n := Step(w, m); forall p: nat, c: nat | Holds(n, p, c) :: c < n.created
  {
    var n := Step(w, m);
    forall p: nat, c: nat | Holds(n, p, c) ensures c < n.created {
      assert Holds(w, p, c) || w.cancel == Some(c);
    }
  }

  lemma LoopStaysAccounted(w: World, m: Move, c: nat)
    requires Accounted(w) && c < Step(w, m).created && c !in Step(w, m).cancelled
    ensures Step(w, m).cancel == Some(c) || exists p: nat :: Holds(Step(w, m), p, c)
  {
    if c < w.created && w.cancel != Some(c) {
      var p: nat :| Holds(w, p, c);
      HolderStays(w, m, p, c);
    } else if c < w.created && Step(w, m).cancel != Some(c) {
      StopperHolds(w, m, c);
    }
  }

  /** Whoever takes the current context away from the client holds it. */
  lemma StopperHolds(w: World, m: Move, c: nat)
    requires w.running && w.cancel == Some(c) && Step(w, m).cancel != Some(c)
    ensures exists p: nat :: Holds(Step(w, m), p, c)
  {
    assert !m.Expire?;
    assert Holds(Step(w, m), m.caller, c);
  }

  /** A Stop in flight holds its context until it cancels it. */
  lemma HolderStays(w: World, m: Move, p: nat, c: nat)
    requires Holds(w, p, c) && c !in Step(w, m).cancelled
    ensures Holds(Step(w, m), p, c)
  {
  }

  /** In every interleaving, at every moment. */
  lemma {:induction false} EveryLoopIsAccountedFor(config: Config, moves: seq<Move>)
    ensures Accounted(Run(Fresh(config), moves))
  {
    if moves != [] {
      EveryLoopIsAccountedFor(config, moves[..|moves| - 1]);
      StepKeepsAccount(Run(Fresh(config), moves[..|moves| - 1]), moves[|moves| - 1]);
    }
  }

  ghost function Loops(w: World): set<nat> {
    set c | 0 <= c < w.created && c !in w.cancelled
  }

  ghost function Current(w: World): set<nat> {
    if w.cancel.Some? then {w.cancel.value} else {}
  }

  /** The contexts that Stops in flight hold. */
  ghost function Held(w: World): map<nat, nat> {
    map p | p in w.callers && w.callers[p].Cancelling? && w.callers[p].held.Some? :: w.callers[p].held.value
  }

  /** Never more loops than the running one and one per Stop in flight; with no Stop in flight at most one, and it is the running one. */
  lemma NeverTwoLoops(config: Config, moves: seq<Move>)
    ensures var w := Run(Fresh(config), moves);
      && |Loops(w)| <= (if w.running then 1 else 0) + |Held(w)|
      && (Held(w) == map[] ==> Loops(w) <= Current(w))
  {
    var w := Run(Fresh(config), moves);
    EveryLoopIsAccountedFor(config, moves);
    var current := Current(w);
    forall c | c in Loops(w) ensures c in current + Held(w).Values {
      if c !in current {
        var p :| Holds(w, p, c);
        assert p in Held(w) && Held(w)[p] == c;
      }
    }
    SubsetCount(Loops(w), current + Held(w).Values);
    UnionCount(current, Held(w).Values);
    ValuesCount(Held(w));
    if Held(w) == map[] {
      assert Held(w).Values == {};
    }
  }

  lemma UnionCount<T>(a: set<T>, b: set<T>)
    ensures |a + b| <= |a| + |b|
  {
    assert a + b == a + (b - a);
    SubsetCount(b - a, b);
  }

  // ---------- does Stop last? ----------

  predicate Restarting(pc: Pc) {
    pc.Stopping? || pc.Starting? || (pc.Cancelling? && pc.restart)
  }

  /** Nothing is running and nobody in a call is going to start anything. */
  ghost predicate AtRest(w: World) {
    Accounted(w) && !w.running && forall p | p in w.callers :: !Restarting(w.callers[p])
  }

  /** Once stopped with no Configure under way, a client stays stopped until somebody calls Start. */
  lemma {:induction false} StopLasts(w: World, moves: seq<Move>)
    requires AtRest(w) && forall i | 0 <= i < |moves| :: !moves[i].Start?
    ensures AtRest(Run(w, moves))
    ensures Loops(Run(w, moves)) <= Loops(w)
  {
    if moves != [] {
      var n := |moves| - 1;
      StopLasts(w, moves[..n]);
      StepKeepsAccount(Run(w, moves[..n]), moves[n]);
    }
  }

  ghost predicate NobodyRestarts(w: World) {
    forall p | p in w.callers :: !Restarting(w.callers[p])
  }

  /** Whatever else is called, the client does not run again before somebody calls Start. */
  ghost predicate StaysStopped(w: World) {
    forall moves: seq<Move> | (forall i | 0 <= i < |moves| :: !moves[i].Start?) :: !Run(w, moves).running
  }

  /** A stopped client stays stopped exactly when no Configure is under way. */
  lemma StopLastsExactlyWhen(w: World)
    requires Accounted(w) && !w.running
    ensures StaysStopped(w) <==> NobodyRestarts(w)
  {
    if NobodyRestarts(w) {
      forall moves: seq<Move> | forall i | 0 <= i < |moves| :: !moves[i].Start? ensures !Run(w, moves).running {
        StopLasts(w, moves);
      }
    } else {
      var p :| p in w.callers && Restarting(w.callers[p]);
      SomebodyIdle(w.callers.Keys);
      var q: nat :| q !in w.callers;
      UsableIsUsable();
      RestartComes(w, p, q, USABLE);
    }
  }

  lemma SomebodyIdle(s: set<nat>)
    ensures exists q: nat :: q !in s && forall o | o in s :: o < q
  {
    if s == {} {
      assert 0 !in s;
    } else {
      var any :| any in s;
      SomebodyIdle(s - {any});
      var q: nat :| q !in s - {any} && forall o | o in s - {any} :: o < q;
      var r: nat := if any < q then q else any + 1;
      assert forall o | o in s :: o == any || o in s - {any};
      assert forall o | o in s :: o < r;
      assert r !in s;
    }
  }

  const USABLE := Config("x", "x", false, "")

  lemma UsableIsUsable()
    ensures Usable(USABLE)
  {
    TrimFixes("x");
  }

  /** An idle caller sets usable credentials; then the one that is restarting goes on. */
  lemma RestartComes(w: World, p: nat, q: nat, c: Config)
    requires !w.running && p in w.callers && Restarting(w.callers[p]) && q !in w.callers && Usable(c)
    ensures !StaysStopped(w)
  {
    var steps := Ahead(w.callers[p]);
    var moves := [Configure(q, c)] + seq(steps, _ => Continue(p));
    RunNext(w, moves, 0);
    assert moves[..0] == [] && Run(w, moves[..1]) == w.(config := c);
    GoesOn(w, moves, 1, steps, p, c);
    assert moves[..1 + steps] == moves;
    assert forall i | 0 <= i < |moves| :: !moves[i].Start?;
  }

  /** How many steps a restarting caller is from its start. */
  function Ahead(pc: Pc): nat {
    match pc
    case Stopping => 3
    case Cancelling(_, restart) => if restart then 2 else 0
    case Starting => 1
  }

  lemma {:induction false} GoesOn(w: World, moves: seq<Move>, n: nat, steps: nat, p: nat, c: Config)
    requires Usable(c) && 0 < steps && n + steps == |moves| && forall i | n <= i < |moves| :: moves[i] == Continue(p)
    requires var now := Run(w, moves[..n]);
      now.config == c && !now.running && p in now.callers && Ahead(now.callers[p]) == steps
    ensures Run(w, moves[..n + steps]).running
    decreases steps
  {
    RunNext(w, moves, n);
    if steps > 1 {
      GoesOn(w, moves, n + 1, steps - 1, p, c);
    }
  }

  /** But a Configure under way undoes a Stop that came after it: the client runs although the last word was Stop. */
  lemma ConfigureUndoesStop(a: Config, b: Config)
    requires Usable(a) && Usable(b) && a != b
    ensures Run(Fresh(a), StopDuringConfigure(b)) == Stopped(b) && !Stopped(b).running && Loops(Stopped(b)) == {}
    ensures Run(Stopped(b), ConfigureGoesOn()) == Restarted(b) && Restarted(b).running && 1 in Loops(Restarted(b))
  {
    StoppedAfterConfigure(a, b, StopDuringConfigure(b));
    RestartedAfterStop(b, ConfigureGoesOn());
  }

  function StopDuringConfigure(b: Config): seq<Move> {
    [Start(0), Configure(1, b), Stop(2), Continue(2)]
  }

  function ConfigureGoesOn(): seq<Move> {
    [Continue(1), Continue(1), Continue(1)]
  }

  ghost function Stopped(b: Config): World {
    World(b, false, None, 1, {0}, map[1 := Stopping])
  }

  ghost function Restarted(b: Config): World {
    World(b, true, Some(1), 2, {0}, map[])
  }

  lemma StoppedAfterConfigure(a: Config, b: Config, m: seq<Move>)
    requires Usable(a) && a != b
    requires |m| == 4 && m[0] == Start(0) && m[1] == Configure(1, b) && m[2] == Stop(2) && m[3] == Continue(2)
    ensures Run(Fresh(a), m) == Stopped(b)
  {
    var w1 := World(a, true, Some(0), 1, {}, map[]);
    var w2 := World(b, true, Some(0), 1, {}, map[1 := Stopping]);
    var w3 := World(b, false, None, 1, {}, map[1 := Stopping, 2 := Cancelling(Some(0), false)]);
    RunNext(Fresh(a), m, 0);
    assert Step(Fresh(a), m[0]) == w1;
    RunNext(Fresh(a), m, 1);
    assert Step(w1, m[1]) == w2;
    RunNext(Fresh(a), m, 2);
    assert Step(w2, m[2]) == w3;
    RunNext(Fresh(a), m, 3);
    assert Step(w3, m[3]) == Stopped(b);
    assert m[..4] == m;
  }

  lemma RestartedAfterStop(b: Config, m: seq<Move>)
    requires Usable(b)
    requires |m| == 3 && m[0] == m[1] == m[2] == Continue(1)
    ensures Run(Stopped(b), m) == Restarted(b)
  {
    var w5 := World(b, false, None, 1, {0}, map[1 := Cancelling(None, true)]);
    var w6 := World(b, false, None, 1, {0}, map[1 := Starting]);
    RunNext(Stopped(b), m, 0);
    assert Step(Stopped(b), m[0]) == w5;
    RunNext(Stopped(b), m, 1);
    assert Step(w5, m[1]) == w6;
    RunNext(Stopped(b), m, 2);
    assert Step(w6, m[2]) == Restarted(b);
    assert m[..3] == m;
  }

  lemma RunNext(w: World, moves: seq<Move>, n: nat)
    requires n < |moves|
    ensures Run(w, moves[..n + 1]) == Step(Run(w, moves[..n]), moves[n])
  {
    assert moves[..n + 1][..n] == moves[..n];
  }
}
