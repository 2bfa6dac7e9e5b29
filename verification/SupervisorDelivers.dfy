/**
What Apply and ApplyTunnels deliver, said of the lists they are given: which instance a kernel was launched
from, which tunnels it was loaded with and in which order, and which kernels survive.
*/
module SupervisorDelivers {
  import opened Sequences
  import opened Text
  import opened Model
  import opened SupervisorSpec
  import opened SupervisorSafety
  import opened SupervisorConvergence
  import opened SupervisorTunnels

  // ---------- the share of one client ----------

  /** The tunnels that name the client, all of them and in the order of the list: those at the positions `ps`. */
  ghost predicate IsShare(mine: seq<Tunnel>, tunnels: seq<Tunnel>, id: Id, ps: seq<nat>) {
    && Positions(ps, |tunnels|) && |mine| == |ps|
    && (forall k | 0 <= k < |ps| :: mine[k] == tunnels[ps[k]] && mine[k].instanceID == id)
    && (forall i | 0 <= i < |tunnels| && tunnels[i].instanceID == id :: i in ps)
  }

  lemma {:induction false} ShareInOrder(tunnels: seq<Tunnel>, id: Id) returns (ps: seq<nat>)
    requires id != ""
    ensures IsShare(TunnelsFor(tunnels, id), tunnels, id, ps)
  {
    ps := [];
    if tunnels != [] {
      var n := |tunnels| - 1;
      ps := ShareInOrder(tunnels[..n], id);
      OneMorePosition(ps, n);
      if tunnels[n].instanceID == id {
        ps := ps + [n];
      }
      forall i | 0 <= i < |tunnels| && tunnels[i].instanceID == id ensures i in ps {
        if i < n { assert tunnels[..n][i] == tunnels[i]; } else { assert ps[|ps| - 1] == n; }
      }
    }
  }

  /**
   * Whatever was refused: a live client's kernel runs the tunnels that name it, in their order, if a request of its
   * own was accepted, and what it ran before otherwise.
   */
  lemma ClientRunsItsShare(s: State, tunnels: seq<Tunnel>, fate: Fate, id: Id) returns (ps: seq<nat>)
    requires Safe(s) && LiveClient(s.units, id)
    ensures var w := PushWork(s, tunnels, fate);
      && Balanced(w.units, w.lib) && LiveClient(w.units, id)
      && (if Granted(Before(s), s.order, |s.order|, tunnels, fate, id) then IsShare(Loaded(w, id), tunnels, id, ps)
          else Loaded(w, id) == Loaded(Before(s), id))
      && w.units[id].tunnels == Loaded(w, id) && w.units[id].tunnelCount == |Loaded(w, id)|
  {
    var w := PushWork(s, tunnels, fate);
    PushAllStaysBalanced(Before(s), s.order, tunnels, fate);
    ApplyTunnelsRoutes(s, tunnels, fate);
    assert Routed(Before(s), w.units, s.order, |s.order|, tunnels, fate, id);
    assert Sound(s.units[id], id, s.lib) && Sound(w.units[id], id, w.lib);
    ps := ShareInOrder(tunnels, id);
  }

  /** When no client was refused, every live client's kernel runs the tunnels that name it, in their order. */
  lemma EveryClientRunsItsShare(s: State, tunnels: seq<Tunnel>, fate: Fate, id: Id) returns (ps: seq<nat>)
    requires Safe(s) && PushWork(s, tunnels, fate).failures == [] && LiveClient(s.units, id)
    ensures var w := PushWork(s, tunnels, fate);
      && Balanced(w.units, w.lib) && LiveClient(w.units, id) && IsShare(Loaded(w, id), tunnels, id, ps)
  {
    EveryClientHoldsItsOwn(s, tunnels, fate, id);
    ps := ShareInOrder(tunnels, id);
  }

  // ---------- who is wanted ----------

  /** The instance that counts: of those with its id the last. */
  ghost predicate Counts(desired: seq<Instance>, i: nat) {
    && i < |desired| && desired[i].id != ""
    && forall j | i < j < |desired| :: desired[j].id != desired[i].id
  }

  lemma {:induction false} CountingIsWanted(desired: seq<Instance>, i: nat)
    requires Counts(desired, i)
    ensures desired[i].id in Wanted(desired) && Wanted(desired)[desired[i].id] == desired[i].Normalize()
  {
    if i < |desired| - 1 {
      CountingIsWanted(desired[..|desired| - 1], i);
    }
  }

  lemma {:induction false} WantedCounts(desired: seq<Instance>, id: Id) returns (i: nat)
    requires id in Wanted(desired)
    ensures Counts(desired, i) && desired[i].id == id
  {
    var n := |desired| - 1;
    if desired[n].id == id {
      i := n;
    } else {
      i := WantedCounts(desired[..n], id);
      CountsStill(desired, i);
    }
  }

  lemma CountsStill(desired: seq<Instance>, i: nat)
    requires desired != [] && Counts(desired[..|desired| - 1], i) && desired[|desired| - 1].id != desired[i].id
    ensures Counts(desired, i)
  {
    forall j | i < j < |desired| ensures desired[j].id != desired[i].id {
      if j < |desired| - 1 { assert desired[..|desired| - 1][j] == desired[j]; }
    }
  }

  /** Enabled, told by the switch of its own kind. */
  predicate SwitchedOn(i: Instance) {
    if Lower(Trim(i.kind)) == "server" then i.server.enable else i.client.enable
  }

  /** The kernel configuration is the same: kind, server settings and client settings. */
  predicate SameKernel(a: Instance, wanted: Instance) {
    a.kind == Lower(Trim(wanted.kind)) && a.server == wanted.server && a.client == wanted.client
  }

  // ---------- what Apply makes of an instance ----------

  /** The unit runs: under one handle for kernel and context, both alive, and held on the side of its kind. */
  ghost predicate Runs(u: Unit, lib: Library, server: bool, h: Handle) {
    && u.up && u.err == "" && u.cancel == Some(h)
    && (if server then u.serverSvc == Some(h) && u.clientSvc.None? else u.clientSvc == Some(h) && u.serverSvc.None?)
    && h in lib.launched && h !in lib.closed && h in lib.contexts && h !in lib.cancelled
  }

  /**
   * After Apply an instance that counts has a unit of its description. If that is up, the instance is switched on,
   * and its kernel was launched from the same kind, the same server settings and the same client settings; if it is
   * down, it holds nothing.
   */
  lemma UpRunsWhatIsWanted(s: State, fate: Fate, i: nat)
    requires Safe(s) && Counts(s.desired, i)
    ensures var after, wanted := AfterApply(s, fate), s.desired[i];
      && wanted.id in after.units
      && var u := after.units[wanted.id];
      && u.inst.id == wanted.id && u.inst.name == Trim(wanted.name) && u.inst.note == Trim(wanted.note) && SameKernel(u.inst, wanted)
      && if u.up then
           && SwitchedOn(wanted) && u.cancel.Some? && Runs(u, after.lib, Lower(Trim(wanted.kind)) == "server", u.cancel.value)
           && SameKernel(after.lib.launched[u.cancel.value].inst, wanted)
           && u.dash == Dash(wanted.server.dashboardPort, wanted.server.dashboardUser, wanted.server.dashboardPwd)
         else u.serverSvc.None? && u.clientSvc.None? && u.cancel.None?
  {
    var after, id := AfterApply(s, fate), s.desired[i].id;
    CountingIsWanted(s.desired, i);
    ApplyConverges(s, fate);
    assert ApplyRound(s, fate).Settled(s.units, after.units, |ApplyRound(s, fate).ids|, id);
    assert Sound(after.units[id], id, after.lib);
  }

  /** Switching off keeps what is remembered of the unit; one that is new has nothing to remember but its dashboard. */
  lemma SwitchedOffIsRemembered(s: State, fate: Fate, i: nat)
    requires Safe(s) && Counts(s.desired, i) && !SwitchedOn(s.desired[i])
    ensures var after, id := AfterApply(s, fate), s.desired[i].id;
      && id in after.units && !after.units[id].up
      && var u := after.units[id];
      if id in s.units then u.err == s.units[id].err && u.tunnels == s.units[id].tunnels && u.dash == s.units[id].dash
      else && u.err == "" && u.tunnels == []
           && u.dash == Dash(s.desired[i].server.dashboardPort, s.desired[i].server.dashboardUser, s.desired[i].server.dashboardPwd)
  {
    var after, id, r := AfterApply(s, fate), s.desired[i].id, ApplyRound(s, fate);
    CountingIsWanted(s.desired, i);
    ApplyConverges(s, fate);
    assert r.Settled(s.units, after.units, |r.ids|, id);
  }

  // ---------- which kernels survive ----------

  /** A unit that runs under a handle the library knew before Apply was kept; any other was launched just now. */
  lemma OldHandleIsKept(s: State, fate: Fate, id: Id)
    requires Safe(s) && id in Wanted(s.desired) && id in AfterApply(s, fate).units && AfterApply(s, fate).units[id].up
    ensures var after := AfterApply(s, fate);
      && after.units[id].cancel.Some?
      && if after.units[id].cancel.value < s.lib.requests then
           id in s.units && after.units[id] == s.units[id].(inst := Wanted(s.desired)[id])
         else && after.units[id].tunnels == TunnelsFor(s.tunnels, id)
              && (Wanted(s.desired)[id].IsServer() || AllNamed(TunnelsFor(s.tunnels, id)))
  {
    var after, r := AfterApply(s, fate), ApplyRound(s, fate);
    ApplyConverges(s, fate);
    assert r.Settled(s.units, after.units, |r.ids|, id);
    if id !in r.needs {
      assert Sound(s.units[id], id, s.lib);
    }
  }

  /** The instance that counts under the id has the same kind and the same settings. */
  ghost predicate StillWanted(desired: seq<Instance>, inst: Instance) {
    exists i: nat :: Counts(desired, i) && desired[i].id == inst.id && SameKernel(inst, desired[i])
  }

  /**
   * A kernel that runs before Apply still runs afterwards exactly when the instance that counts under its id has the
   * same kind and the same settings: a new name or note restarts nothing, any other change does.
   */
  lemma SurvivesExactlyWhen(s: State, fate: Fate, id: Id, h: Handle)
    requires Safe(s) && id in s.units && s.units[id].up && s.units[id].cancel == Some(h)
    ensures h !in AfterApply(s, fate).lib.closed <==> StillWanted(s.desired, s.units[id].inst)
  {
    if h !in AfterApply(s, fate).lib.closed {
      SurvivorIsStillWanted(s, fate, id, h);
    }
    if StillWanted(s.desired, s.units[id].inst) {
      StillWantedSurvives(s, fate, id, h);
    }
  }

  lemma StillWantedSurvives(s: State, fate: Fate, id: Id, h: Handle)
    requires Safe(s) && id in s.units && s.units[id].up && s.units[id].cancel == Some(h)
    requires StillWanted(s.desired, s.units[id].inst)
    ensures h !in AfterApply(s, fate).lib.closed
  {
    UnitHasItsId(s, id);
    var i: nat :| Counts(s.desired, i) && s.desired[i].id == id && SameKernel(s.units[id].inst, s.desired[i]);
    SameKernelIsKept(s, fate, id, i, h);
  }

  lemma SurvivorIsStillWanted(s: State, fate: Fate, id: Id, h: Handle)
    requires Safe(s) && id in s.units && s.units[id].up && s.units[id].cancel == Some(h)
    requires h !in AfterApply(s, fate).lib.closed
    ensures StillWanted(s.desired, s.units[id].inst)
  {
    UnitHasItsId(s, id);
    var i := SurvivorIsWanted(s, fate, id, h);
  }

  lemma UnitHasItsId(s: State, id: Id)
    requires Safe(s) && id in s.units
    ensures s.units[id].inst.id == id
  {
    assert Sound(s.units[id], id, s.lib);
  }

  /** The kernel and everything about its unit but the description stay as they are. */
  lemma SameKernelIsKept(s: State, fate: Fate, id: Id, i: nat, h: Handle)
    requires Safe(s) && id in s.units && s.units[id].up && s.units[id].cancel == Some(h)
    requires Counts(s.desired, i) && s.desired[i].id == id && SameKernel(s.units[id].inst, s.desired[i])
    ensures var after := AfterApply(s, fate);
      && id in after.units && after.units[id] == s.units[id].(inst := after.units[id].inst)
      && h in s.lib.launched && h in after.lib.launched && h !in after.lib.closed
      && after.lib.launched[h] == s.lib.launched[h]
  {
    var after, r := AfterApply(s, fate), ApplyRound(s, fate);
    CountingIsWanted(s.desired, i);
    ApplyConverges(s, fate);
    ApplyReloadsNothing(s, fate);
    assert Sound(s.units[id], id, s.lib);
    assert Current(s.units, Wanted(s.desired)[id]);
    assert r.Settled(s.units, after.units, |r.ids|, id);
    assert Sound(after.units[id], id, after.lib);
  }

  lemma SurvivorIsWanted(s: State, fate: Fate, id: Id, h: Handle) returns (i: nat)
    requires Safe(s) && id in s.units && s.units[id].up && s.units[id].cancel == Some(h)
    requires h !in AfterApply(s, fate).lib.closed
    ensures Counts(s.desired, i) && s.desired[i].id == id && SameKernel(s.units[id].inst, s.desired[i])
  {
    var after := AfterApply(s, fate);
    assert Sound(s.units[id], id, s.lib);
    ApplyKeepsSafe(s, fate);
    ApplyReloadsNothing(s, fate);
    ApplyConverges(s, fate);
    assert h in after.lib.Running() && h in Held(after.units);
    var o :| o in after.units && after.units[o].up && after.units[o].cancel == Some(h);
    OldHandleIsKept(s, fate, o);
    assert s.units[o].up && s.units[o].cancel == s.units[id].cancel;
    assert o == id;
    i := WantedCounts(s.desired, id);
    CountingIsWanted(s.desired, i);
    assert Sound(after.units[id], id, after.lib);
  }

  // ---------- what a new kernel is loaded with ----------

  /** A client launched just now runs the tunnels of the list that name it, in their order, and all of them have names. */
  lemma NewClientRunsItsShare(s: State, fate: Fate, i: nat, id: Id, h: Handle) returns (ps: seq<nat>)
    requires Safe(s) && Counts(s.desired, i) && s.desired[i].id == id && Lower(Trim(s.desired[i].kind)) != "server"
    requires id in AfterApply(s, fate).units && AfterApply(s, fate).units[id].up
    requires AfterApply(s, fate).units[id].cancel == Some(h) && h >= s.lib.requests
    ensures var after := AfterApply(s, fate);
      && h in after.lib.launched && IsShare(after.lib.launched[h].tunnels, s.tunnels, id, ps)
      && after.units[id].tunnels == after.lib.launched[h].tunnels && after.units[id].tunnelCount == |after.units[id].tunnels|
    ensures forall t | t in s.tunnels && t.instanceID == id :: Trim(t.name) != ""
  {
    var after := AfterApply(s, fate);
    CountingIsWanted(s.desired, i);
    OldHandleIsKept(s, fate, id);
    ApplyKeepsSafe(s, fate);
    assert Sound(after.units[id], id, after.lib) && !after.units[id].inst.IsServer() by {
      UpRunsWhatIsWanted(s, fate, i);
    }
    NamedOnes(s.tunnels, id);
    ps := ShareInOrder(s.tunnels, id);
  }

  lemma NamedOnes(tunnels: seq<Tunnel>, id: Id)
    requires id != "" && AllNamed(TunnelsFor(tunnels, id))
    ensures forall t | t in tunnels && t.instanceID == id :: Trim(t.name) != ""
  {
    forall t | t in tunnels && t.instanceID == id ensures Trim(t.name) != "" {
      RoutedByOwner(tunnels, id, t);
    }
  }

  /** A client with a nameless tunnel, unless it ran before, is down and says why. */
  lemma NamelessTunnelKeepsDown(s: State, fate: Fate, i: nat, t: Tunnel)
    requires Safe(s) && Counts(s.desired, i) && Lower(Trim(s.desired[i].kind)) != "server" && SwitchedOn(s.desired[i])
    requires t in s.tunnels && t.instanceID == s.desired[i].id && Trim(t.name) == ""
    requires s.desired[i].id in s.units ==> !s.units[s.desired[i].id].up
    ensures var after, id := AfterApply(s, fate), s.desired[i].id;
      id in after.units && !after.units[id].up && after.units[id].err == "tunnel name must not be empty"
  {
    var after, id, r := AfterApply(s, fate), s.desired[i].id, ApplyRound(s, fate);
    CountingIsWanted(s.desired, i);
    ApplyConverges(s, fate);
    RoutedByOwner(s.tunnels, id, t);
    assert r.Settled(s.units, after.units, |r.ids|, id);
  }

  // ---------- the order of the units, and the failures ----------

  /** The engine keeps the ids in the order of the list, leaving out the blank ones. */
  lemma {:induction false} OrderIsThatOfTheList(desired: seq<Instance>) returns (ps: seq<nat>)
    ensures Positions(ps, |desired|) && |OrderOf(desired)| == |ps|
    ensures forall k | 0 <= k < |ps| :: OrderOf(desired)[k] == desired[ps[k]].id != ""
    ensures forall i | 0 <= i < |desired| && desired[i].id != "" :: i in ps
  {
    ps := [];
    if desired != [] {
      var n := |desired| - 1;
      ps := OrderIsThatOfTheList(desired[..n]);
      OneMorePosition(ps, n);
      if desired[n].id != "" {
        ps := ps + [n];
      }
      forall i | 0 <= i < |desired| && desired[i].id != "" ensures i in ps {
        if i < n { assert desired[..n][i] == desired[i]; } else { assert ps[|ps| - 1] == n; }
      }
    }
  }

  /** Each failure names an instance that counts and is switched on, by its name and kind. */
  lemma FailuresNameTheWanted(s: State, fate: Fate, k: nat) returns (i: nat)
    requires Safe(s) && k < |ApplyWork(s, fate).failures|
    ensures Counts(s.desired, i) && SwitchedOn(s.desired[i])
    ensures ApplyWork(s, fate).failures[k].name == Trim(s.desired[i].name)
    ensures ApplyWork(s, fate).failures[k].kind == Lower(Trim(s.desired[i].kind))
  {
    var r := ApplyRound(s, fate);
    ApplyConverges(s, fate);
    var id := FailureIsOfATry(r, |r.ids|, k);
    i := WantedCounts(s.desired, id);
    CountingIsWanted(s.desired, i);
  }

  lemma {:induction false} FailureIsOfATry(r: Round, n: nat, k: nat) returns (id: Id)
    requires r.Valid() && n <= |r.ids| && k < |r.Failures(n)|
    ensures id in r.needs && id in r.want && r.Failures(n)[k].name == r.want[id].name && r.Failures(n)[k].kind == r.want[id].kind
  {
    if k < |r.Failures(n - 1)| {
      id := FailureIsOfATry(r, n - 1, k);
    } else {
      id := r.ids[n - 1];
    }
  }
}
