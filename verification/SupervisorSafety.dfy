/** No kernel is leaked or lost: what every run of engine calls keeps, whatever the library answers. */
module SupervisorSafety {
  import opened Text
  import opened Model
  import opened SupervisorSpec

  /** A unit is up with exactly the handle of its own kind, or it holds nothing at all. */
  ghost predicate Sound(u: Unit, id: Id, lib: Library) {
    && u.inst.id == id
    && (if u.up then
          && u.cancel.Some?
          && u.cancel.value in lib.Running()
          && u.cancel.value in lib.Uncancelled()
          && u.serverSvc == (if u.inst.IsServer() then u.cancel else None)
          && u.clientSvc == (if u.inst.IsServer() then None else u.cancel)
          && u.inst.Enabled() && u.err == "" && u.dash == DashFor(u.inst)
          && SameConfig(lib.launched[u.cancel.value].inst, u.inst)
          && (u.inst.IsServer() ||
              (lib.launched[u.cancel.value].tunnels == u.tunnels && u.tunnelCount == |u.tunnels|))
        else
          u.cancel.None? && u.serverSvc.None? && u.clientSvc.None?)
  }

  /** The handles the units hold. */
  ghost function Held(units: Units): set<Handle> {
    set id | id in units && units[id].up && units[id].cancel.Some? :: units[id].cancel.value
  }

  ghost predicate Tidy(lib: Library) {
    && lib.closed <= lib.launched.Keys <= lib.contexts
    && lib.cancelled <= lib.contexts
    && forall h | h in lib.contexts :: h < lib.requests
  }

  ghost predicate Balanced(units: Units, lib: Library) {
    && Tidy(lib)
    && (forall id | id in units :: Sound(units[id], id, lib))
    && (forall a, b | a in units && b in units && a != b && units[a].up && units[b].up ::
          units[a].cancel != units[b].cancel)
    && lib.Running() == Held(units)
    && lib.Uncancelled() == Held(units)
  }

  ghost predicate Safe(s: State) {
    && Balanced(s.units, s.lib)
    && s.units.Keys == (set id | id in s.order)
    && "" !in s.order
  }

  // ---------- one unit at a time ----------

  /** Taking one unit down gives back its handle and no other. */
  lemma ClosingOneStaysBalanced(units: Units, id: Id, lib: Library)
    requires Balanced(units, lib) && id in units
    ensures Balanced(units[id := CloseUnit(units[id])], CloseIn(units[id], lib))
  {
    var units', lib' := units[id := CloseUnit(units[id])], CloseIn(units[id], lib);
    if units[id].up {
      var h := units[id].cancel.value;
      assert lib'.closed == lib.closed + {h} && lib'.cancelled == lib.cancelled + {h};
      assert Held(units') == Held(units) - {h} by {
        forall k | k in Held(units) && k != h ensures k in Held(units') {
          var a :| a in units && units[a].up && units[a].cancel == Some(k);
          assert units'[a] == units[a];
        }
      }
      forall a | a in units' && a != id ensures Sound(units'[a], a, lib') {
        assert Sound(units[a], a, lib);
      }
    } else {
      assert units' == units && lib' == lib;
    }
  }

  /** A new description of a unit that is down, or of one that is up with an equal configuration. */
  lemma RedescribingStaysBalanced(units: Units, id: Id, u: Unit, lib: Library)
    requires Balanced(units, lib) && u.inst.id == id
    requires id in units || (!u.up && u.cancel.None? && u.serverSvc.None? && u.clientSvc.None?)
    requires id in units ==> u.up == units[id].up && u.cancel == units[id].cancel
                             && u.serverSvc == units[id].serverSvc && u.clientSvc == units[id].clientSvc
    requires u.up ==> SameConfig(units[id].inst, u.inst) && u == units[id].(inst := u.inst)
    ensures Balanced(units[id := u], lib)
  {
    var units' := units[id := u];
    assert Held(units') == Held(units) by {
      forall k | k in Held(units) ensures k in Held(units') {
        var a :| a in units && units[a].up && units[a].cancel == Some(k);
        assert a in units' && units'[a].up && units'[a].cancel == Some(k);
      }
    }
  }

  lemma HeldAfterReplacing(units: Units, id: Id, u: Unit)
    requires id in units ==> !units[id].up
    requires u.up ==> u.cancel.Some?
    ensures Held(units[id := u]) == Held(units) + if u.up then {u.cancel.value} else {}
  {
    var units' := units[id := u];
    forall k | k in Held(units) ensures k in Held(units') {
      var a :| a in units && units[a].up && units[a].cancel == Some(k);
      assert units'[a] == units[a];
    }
    if u.up {
      assert id in units' && units'[id].up && units'[id].cancel == Some(u.cancel.value);
    }
  }

  /** A unit that holds nothing and is ready to be started. */
  ghost predicate Ready(units: Units, id: Id, u: Unit) {
    && (id in units ==> !units[id].up)
    && u.inst.id == id && u.inst.Enabled() && u.dash == DashFor(u.inst) && u.tunnelCount == |u.tunnels|
    && u.serverSvc.None? && u.clientSvc.None?
  }

  lemma OthersStaySound(units: Units, lib: Library, lib': Library, id: Id)
    requires id in units && Sound(units[id], id, lib)
    requires forall h | h in lib.launched :: h in lib'.launched && lib'.launched[h] == lib.launched[h]
    requires units[id].up ==> lib'.closed == lib.closed && units[id].cancel.value in lib'.Uncancelled()
    ensures Sound(units[id], id, lib')
  {
  }

  lemma AcceptedStaysBalanced(units: Units, id: Id, u: Unit, lib: Library, fate: Fate)
    requires Balanced(units, lib) && Ready(units, id, u)
    requires VerdictOn(lib.requests, u.inst.IsServer(), u.tunnels, fate).Accepted?
    ensures var (u', lib') := Launch(u, lib, fate); Balanced(units[id := u'], lib')
  {
    var n := lib.requests;
    var (u', lib') := Launch(u, lib, fate);
    assert n !in lib.contexts;
    HeldAfterReplacing(units, id, u');
    assert lib'.Running() == lib.Running() + {n} && lib'.Uncancelled() == lib.Uncancelled() + {n};
    forall a | a in units && a != id ensures Sound(units[a], a, lib') && (units[a].up ==> units[a].cancel != Some(n)) {
      OthersStaySound(units, lib, lib', a);
    }
    assert Sound(u', id, lib');
  }

  lemma RefusedStaysBalanced(units: Units, id: Id, u: Unit, lib: Library, fate: Fate)
    requires Balanced(units, lib) && Ready(units, id, u)
    requires VerdictOn(lib.requests, u.inst.IsServer(), u.tunnels, fate).Refused?
    ensures var (u', lib') := Launch(u, lib, fate); Balanced(units[id := u'], lib')
  {
    var n := lib.requests;
    var (u', lib') := Launch(u, lib, fate);
    assert n !in lib.contexts;
    HeldAfterReplacing(units, id, u');
    assert lib'.Running() == lib.Running() && lib'.Uncancelled() == lib.Uncancelled();
    forall a | a in units && a != id ensures Sound(units[a], a, lib') {
      OthersStaySound(units, lib, lib', a);
    }
    assert Sound(u', id, lib');
  }

  /** Whatever the library answers, starting a unit that holds nothing leaves the books balanced. */
  lemma LaunchingStaysBalanced(units: Units, id: Id, u: Unit, lib: Library, fate: Fate)
    requires Balanced(units, lib) && Ready(units, id, u)
    ensures var (u', lib') := Launch(u, lib, fate); Balanced(units[id := u'], lib')
  {
    if VerdictOn(lib.requests, u.inst.IsServer(), u.tunnels, fate).Accepted? {
      AcceptedStaysBalanced(units, id, u, lib, fate);
    } else {
      RefusedStaysBalanced(units, id, u, lib, fate);
    }
  }

  lemma SettleStaysBalanced(w: Work, inst: Instance, tunnels: seq<Tunnel>, fate: Fate)
    requires Balanced(w.units, w.lib)
    ensures var w' := Settle(w, inst, tunnels, fate);
            Balanced(w'.units, w'.lib) && w'.units.Keys == w.units.Keys + {inst.id}
  {
    var id := inst.id;
    if id in w.units && !(inst.Enabled() && w.units[id].up && SameConfig(w.units[id].inst, inst)) {
      var units, lib := w.units[id := CloseUnit(w.units[id])], CloseIn(w.units[id], w.lib);
      ClosingOneStaysBalanced(w.units, id, w.lib);
      if inst.Enabled() {
        var u := Prepared(units[id], inst, tunnels);
        LaunchingStaysBalanced(units, id, u, lib, fate);
        assert units[id := Launch(u, lib, fate).0] == w.units[id := Launch(u, lib, fate).0];
      } else {
        var u := units[id].(inst := inst);
        RedescribingStaysBalanced(units, id, u, lib);
        assert units[id := u] == w.units[id := u];
        if !w.units[id].up {
          assert Sound(w.units[id], id, w.lib);
          assert CloseUnit(w.units[id]) == w.units[id];
        }
      }
    } else if id !in w.units && inst.Enabled() {
      LaunchingStaysBalanced(w.units, id, Prepared(NO_UNIT, inst, tunnels), w.lib, fate);
    } else if id in w.units {
      RedescribingStaysBalanced(w.units, id, w.units[id].(inst := inst), w.lib);
    } else {
      RedescribingStaysBalanced(w.units, id, NO_UNIT.(inst := inst, dash := DashFor(inst)), w.lib);
    }
  }

  lemma {:induction false} SettleAllStaysBalanced(w: Work, ids: seq<Id>, want: map<Id, Instance>,
                                                  tunnels: seq<Tunnel>, fate: Fate)
    requires Balanced(w.units, w.lib)
    requires forall id | id in ids :: id in want && want[id].id == id
    ensures var w' := SettleAll(w, ids, want, tunnels, fate);
            Balanced(w'.units, w'.lib) && w'.units.Keys == w.units.Keys + set id | id in ids
  {
    if ids != [] {
      var k := |ids| - 1;
      SettleAllStaysBalanced(w, ids[..k], want, tunnels, fate);
      SettleStaysBalanced(SettleAll(w, ids[..k], want, tunnels, fate), want[ids[k]], tunnels, fate);
      assert ids == ids[..k] + [ids[k]];
    }
  }

  lemma HeldSplits(units: Units, ids: set<Id>)
    requires forall a, b | a in units && b in units && a != b && units[a].up && units[b].up ::
               units[a].cancel != units[b].cancel
    ensures Held(Without(units, ids)) == Held(units) - Held(Without(units, units.Keys - ids))
  {
    var kept, gone := Without(units, ids), Without(units, units.Keys - ids);
    forall k | k in Held(units) ensures k in Held(kept) || k in Held(gone) {
      var a :| a in units && units[a].up && units[a].cancel == Some(k);
      assert if a in ids then a in gone && gone[a] == units[a] else a in kept && kept[a] == units[a];
    }
    forall k | k in Held(kept) ensures k in Held(units) && k !in Held(gone) {
      var a :| a in kept && kept[a].up && kept[a].cancel == Some(k);
      assert a in units && units[a] == kept[a];
    }
  }

  lemma CloseAllReturnsTheirHandles(units: Units, ids: set<Id>, lib: Library)
    requires forall id | id in units :: Sound(units[id], id, lib)
    ensures CloseAll(units, ids, lib).closed == lib.closed + Held(Without(units, units.Keys - ids))
    ensures CloseAll(units, ids, lib).cancelled == lib.cancelled + Held(Without(units, units.Keys - ids))
  {
    var gone, lib' := Without(units, units.Keys - ids), CloseAll(units, ids, lib);
    forall k | k in Held(gone) ensures k in lib'.closed && k in lib'.cancelled {
      var a :| a in gone && gone[a].up && gone[a].cancel == Some(k);
      assert a in ids && a in units && units[a].cancel == Some(k) && Sound(units[a], a, lib);
    }
    forall k | k in lib'.closed && k !in lib.closed ensures k in Held(gone) {
      var a :| a in ids && a in units && (units[a].clientSvc == Some(k) || units[a].serverSvc == Some(k));
      assert a in gone && gone[a] == units[a] && Sound(units[a], a, lib);
    }
    forall k | k in lib'.cancelled && k !in lib.cancelled ensures k in Held(gone) {
      var a :| a in ids && a in units && units[a].cancel == Some(k);
      assert a in gone && gone[a] == units[a] && Sound(units[a], a, lib);
    }
  }

  /** Closing a whole set of units, in whatever order, gives back exactly their handles. */
  lemma ClosingManyStaysBalanced(units: Units, ids: set<Id>, lib: Library)
    requires Balanced(units, lib)
    ensures Balanced(Without(units, ids), CloseAll(units, ids, lib))
  {
    var kept, lib' := Without(units, ids), CloseAll(units, ids, lib);
    HeldSplits(units, ids);
    CloseAllReturnsTheirHandles(units, ids, lib);
    assert lib'.Running() == Held(kept) && lib'.Uncancelled() == Held(kept);
    forall a | a in kept ensures Sound(kept[a], a, lib') {
      assert Sound(units[a], a, lib);
      if kept[a].up { assert kept[a].cancel.value in Held(kept); }
    }
  }

  lemma PushStaysBalanced(w: Work, id: Id, tunnels: seq<Tunnel>, fate: Fate)
    requires Balanced(w.units, w.lib)
    ensures var w' := Push(w, id, tunnels, fate);
            Balanced(w'.units, w'.lib) && w'.units.Keys == w.units.Keys
  {
    var w' := Push(w, id, tunnels, fate);
    if id in w.units && !w.units[id].inst.IsServer() && w.units[id].clientSvc.Some?
       && w'.failures == w.failures {
      var u, u' := w.units[id], w'.units[id];
      var h := u.clientSvc.value;
      assert Sound(u, id, w.lib) && u.cancel == Some(h);
      assert w'.lib.launched == w.lib.launched[h := Kernel(u.inst, u'.tunnels)];
      assert w'.lib.launched.Keys == w.lib.launched.Keys;
      assert w'.units == w.units[id := u'];
      HeldIsStable(w.units, id, u');
      forall a | a in w'.units ensures Sound(w'.units[a], a, w'.lib) {
        assert Sound(w.units[a], a, w.lib);
        if a != id && w.units[a].up { assert w.units[a].cancel != u.cancel; }
      }
      assert w'.lib.Running() == w.lib.Running();
    } else {
      assert w'.units == w.units;
      assert w'.lib == w.lib || w'.lib == w.lib.(requests := w.lib.requests + 1);
      assert forall a | a in w.units :: Sound(w.units[a], a, w.lib);
    }
  }

  lemma HeldIsStable(units: Units, id: Id, u: Unit)
    requires id in units && u.up == units[id].up && u.cancel == units[id].cancel
    ensures Held(units[id := u]) == Held(units)
  {
    forall k | k in Held(units) ensures k in Held(units[id := u]) {
      var a :| a in units && units[a].up && units[a].cancel == Some(k);
      assert a in units[id := u] && units[id := u][a].up && units[id := u][a].cancel == Some(k);
    }
  }

  lemma {:induction false} PushAllStaysBalanced(w: Work, ids: seq<Id>, tunnels: seq<Tunnel>, fate: Fate)
    requires Balanced(w.units, w.lib)
    ensures var w' := PushAll(w, ids, tunnels, fate);
            Balanced(w'.units, w'.lib) && w'.units.Keys == w.units.Keys
  {
    if ids != [] {
      PushAllStaysBalanced(w, ids[..|ids| - 1], tunnels, fate);
      PushStaysBalanced(PushAll(w, ids[..|ids| - 1], tunnels, fate), ids[|ids| - 1], tunnels, fate);
    }
  }

  // ---------- whole calls and whole runs ----------

  lemma {:induction false} OrderHasNoBlank(desired: seq<Instance>)
    ensures "" !in OrderOf(desired)
  {
    if desired != [] { OrderHasNoBlank(desired[..|desired| - 1]); }
  }

  lemma ApplyKeepsSafe(s: State, fate: Fate)
    requires Safe(s)
    ensures Safe(AfterApply(s, fate))
  {
    var want, p, order := Wanted(s.desired), Pruned(s), OrderOf(s.desired);
    OrderHasNoBlank(s.desired);
    ClosingManyStaysBalanced(s.units, s.units.Keys - want.Keys, s.lib);
    assert Balanced(p.units, p.lib) && p.units.Keys <= want.Keys;
    SettleAllStaysBalanced(p, order, want, s.tunnels, fate);
    assert SettleAll(p, order, want, s.tunnels, fate) == ApplyWork(s, fate);
  }

  /** Stop leaves no kernel running and no context alive. */
  lemma StopLeavesNothing(s: State)
    requires Safe(s)
    ensures Safe(AfterStop(s))
    ensures AfterStop(s).lib.launched.Keys == AfterStop(s).lib.closed
    ensures AfterStop(s).lib.contexts == AfterStop(s).lib.cancelled
  {
    var ids := set id | id in s.order;
    ClosingManyStaysBalanced(s.units, ids, s.lib);
    assert Without(s.units, ids) == map[];
    var lib := AfterStop(s).lib;
    assert lib.Running() == {} && lib.Uncancelled() == {};
    forall h | h in lib.launched ensures h in lib.closed { assert h !in lib.Running(); }
    forall h | h in lib.contexts ensures h in lib.cancelled { assert h !in lib.Uncancelled(); }
  }

  lemma CallKeepsSafe(s: State, call: Call, fate: Fate)
    requires Safe(s)
    ensures Safe(After(s, call, fate))
  {
    match call
    case Configure(_, _) =>
    case Apply => ApplyKeepsSafe(s, fate);
    case ApplyTunnels(tunnels) => PushAllStaysBalanced(Work(s.units, s.lib, []), s.order, tunnels, fate);
    case Stop => StopLeavesNothing(s);
    case Start => StopLeavesNothing(s); ApplyKeepsSafe(AfterStop(s), fate);
  }

  /** Over every run, with arbitrary answers of the library: nothing leaked, nothing lost. */
  lemma {:induction false} RunIsSafe(calls: seq<Call>, fate: Fate)
    ensures Safe(Run(calls, fate))
  {
    if calls != [] {
      RunIsSafe(calls[..|calls| - 1], fate);
      CallKeepsSafe(Run(calls[..|calls| - 1], fate), calls[|calls| - 1], fate);
    }
  }

  ghost predicate HoldsKernel(u: Unit, h: Handle) {
    u.up && (u.serverSvc == Some(h) || u.clientSvc == Some(h))
  }

  ghost predicate KernelsAccountedFor(s: State) {
    forall h :: h in s.lib.Running() <==>
      exists id :: id in s.units && HoldsKernel(s.units[id], h)
  }

  ghost predicate ContextsAccountedFor(s: State) {
    forall h :: h in s.lib.Uncancelled() <==>
      exists id :: id in s.units && s.units[id].cancel == Some(h)
  }

  ghost predicate Truthful(u: Unit) {
    && u.up == (if u.inst.IsServer() then u.serverSvc.Some? else u.clientSvc.Some?)
    && (if u.inst.IsServer() then u.clientSvc.None? else u.serverSvc.None?)
    && (u.up ==> u.err == "" && u.inst.Enabled())
  }

  lemma SafeMeansAccountedFor(s: State)
    requires Safe(s)
    ensures KernelsAccountedFor(s) && ContextsAccountedFor(s)
    ensures forall id | id in s.units :: Truthful(s.units[id])
  {
    forall id | id in s.units ensures Truthful(s.units[id]) {
      assert Sound(s.units[id], id, s.lib);
    }
    forall h | h in s.lib.Running()
      ensures exists id :: id in s.units && HoldsKernel(s.units[id], h)
      ensures exists id :: id in s.units && s.units[id].cancel == Some(h)
    {
      assert h in Held(s.units);
      var id :| id in s.units && s.units[id].up && s.units[id].cancel == Some(h);
      assert HoldsKernel(s.units[id], h) by { assert Sound(s.units[id], id, s.lib); }
    }
    forall id, h | id in s.units && HoldsKernel(s.units[id], h) ensures h in s.lib.Running() {
      assert Sound(s.units[id], id, s.lib);
    }
    forall id, h | id in s.units && s.units[id].cancel == Some(h) ensures h in s.lib.Uncancelled() {
      assert Sound(s.units[id], id, s.lib);
    }
  }

  /**
   * Over every run: the kernels opened and not closed are exactly those some unit holds, a context
   * is alive just as long as the unit it was made for, the units are those in `order`, and `up`
   * tells the truth.
   */
  lemma NoKernelLeakedOrLost(calls: seq<Call>, fate: Fate)
    ensures KernelsAccountedFor(Run(calls, fate)) && ContextsAccountedFor(Run(calls, fate))
    ensures Run(calls, fate).units.Keys == set id | id in Run(calls, fate).order
    ensures forall id | id in Run(calls, fate).units :: Truthful(Run(calls, fate).units[id])
  {
    var s := Run(calls, fate);
    RunIsSafe(calls, fate);
    SafeMeansAccountedFor(s);
  }

  lemma NothingRunsAfterStop(calls: seq<Call>, fate: Fate)
    ensures Run(calls + [Stop], fate).lib.launched.Keys == Run(calls + [Stop], fate).lib.closed
    ensures Run(calls + [Stop], fate).lib.contexts == Run(calls + [Stop], fate).lib.cancelled
  {
    RunIsSafe(calls, fate);
    StopLeavesNothing(Run(calls, fate));
    assert (calls + [Stop])[..|calls|] == calls;
  }
}
