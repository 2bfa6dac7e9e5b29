/** The engine as the object the panel calls: its fields change step by step, as the calls require. */
module Supervisor {
  import opened Text
  import opened Model
  import opened SupervisorSpec
  import opened SupervisorSafety

  /** The frp library in this process. `fate` fixes how it will answer, request by request. */
  class KernelLibrary {
    var state: Library
    const fate: Fate

    constructor (fate: Fate)
      ensures this.fate == fate && state == EMPTY_LIBRARY
    {
      this.fate := fate;
      state := EMPTY_LIBRARY;
    }

    method Close(h: Handle)
      modifies this
      ensures state == old(state).Close(Some(h))
    {
      state := state.(closed := state.closed + {h});
    }

    method Cancel(h: Handle)
      modifies this
      ensures state == old(state).Cancel(Some(h))
    {
      state := state.(cancelled := state.cancelled + {h});
    }

    /** context.WithCancel, taking the number of the request about to be made. */
    method NewContext() returns (h: Handle)
      modifies this
      ensures h == old(state).requests
      ensures state == old(state).(requests := h + 1, contexts := old(state).contexts + {h})
    {
      h := state.requests;
      state := state.(requests := h + 1, contexts := state.contexts + {h});
    }

    /** The request belonging to context `h`: a kernel runs from here on, or a reason comes back. */
    method Serve(h: Handle, inst: Instance, tunnels: seq<Tunnel>) returns (v: Verdict)
      modifies this
      ensures v == Answer(fate, h)
      ensures state == if v.Accepted? then old(state).(launched := old(state).launched[h := Kernel(inst, tunnels)])
                       else old(state)
    {
      v := Answer(fate, h);
      if v.Accepted? {
        state := state.(launched := state.launched[h := Kernel(inst, tunnels)]);
      }
    }

    /** UpdateConfigSource on the kernel behind `svc`, or the refusal of the list before the library sees it. */
    method Reload(svc: Handle, inst: Instance, tunnels: seq<Tunnel>) returns (v: Verdict)
      modifies this
      ensures v == VerdictOn(old(state).requests, false, tunnels, fate)
      ensures var asked := old(state).(requests := old(state).requests + 1);
              state == if v.Accepted? then asked.(launched := asked.launched[svc := Kernel(inst, tunnels)]) else asked
    {
      var n := state.requests;
      state := state.(requests := n + 1);
      if exists t :: t in tunnels && Trim(t.name) == "" {
        return Refused(UNNAMED_TUNNEL);
      }
      v := Answer(fate, n);
      if v.Accepted? {
        state := state.(launched := state.launched[svc := Kernel(inst, tunnels)]);
      }
    }
  }

  /** Filters the tunnels of one instance; a blank id owns none. */
  method SelectTunnels(tunnels: seq<Tunnel>, id: Id) returns (mine: seq<Tunnel>)
    ensures mine == TunnelsFor(tunnels, id)
  {
    mine := [];
    if id == "" {
      return;
    }
    for i := 0 to |tunnels|
      invariant mine == TunnelsFor(tunnels[..i], id)
    {
      assert tunnels[..i + 1][..i] == tunnels[..i];
      if tunnels[i].instanceID == id {
        mine := mine + [tunnels[i]];
      }
    }
    assert tunnels[..|tunnels|] == tunnels;
  }

  /** The kernel handles and the state of one instance. */
  class Runtime {
    var inst: Instance
    var tunnels: seq<Tunnel>
    var serverSvc: Option<Handle>
    var clientSvc: Option<Handle>
    var cancel: Option<Handle>
    var up: bool
    var err: string
    var tunnelCount: nat
    var dash: Dash

    function View(): Unit
      reads this
    {
      Unit(inst, tunnels, serverSvc, clientSvc, cancel, up, err, tunnelCount, dash)
    }

    constructor ()
      ensures View() == NO_UNIT
    {
      inst, tunnels, serverSvc, clientSvc, cancel := EMPTY_INSTANCE, [], None, None, None;
      up, err, tunnelCount, dash := false, "", 0, Dash(0, "", "");
    }

    method Close(lib: KernelLibrary)
      modifies this, lib
      ensures View() == CloseUnit(old(View()))
      ensures lib.state == CloseIn(old(View()), old(lib.state))
    {
      if clientSvc.Some? {
        lib.Close(clientSvc.value);
      }
      if cancel.Some? {
        lib.Cancel(cancel.value);
      }
      if serverSvc.Some? {
        lib.Close(serverSvc.value);
      }
      serverSvc, clientSvc, cancel, up := None, None, None, false;
    }

    /** Takes over a wanted instance before a start. */
    method Fit(inst: Instance, all: seq<Tunnel>)
      modifies this
      ensures View() == Prepared(old(View()), inst, all)
    {
      this.inst, dash := inst, DashFor(inst);
      tunnels := SelectTunnels(all, inst.id);
      tunnelCount := |tunnels|;
    }

    /** Hands a live client its part of a new tunnel list; a refusal changes nothing. */
    method Update(all: seq<Tunnel>, lib: KernelLibrary) returns (v: Verdict)
      requires clientSvc.Some?
      modifies this, lib
      ensures v == VerdictOn(old(lib.state).requests, false, TunnelsFor(all, old(inst.id)), lib.fate)
      ensures var mine, asked := TunnelsFor(all, old(inst.id)), old(lib.state).(requests := old(lib.state).requests + 1);
        if v.Accepted? then
          && View() == old(View()).(tunnels := mine, tunnelCount := |mine|)
          && lib.state == asked.(launched := asked.launched[old(clientSvc.value) := Kernel(old(inst), mine)])
        else View() == old(View()) && lib.state == asked
    {
      var mine := SelectTunnels(all, inst.id);
      v := lib.Reload(clientSvc.value, inst, mine);
      if v.Accepted? {
        tunnels, tunnelCount := mine, |mine|;
      }
    }

    /** The request itself: a server is asked for at once, a client only if its tunnels all have names. */
    method Ask(lib: KernelLibrary, n: Handle, all: seq<Tunnel>) returns (v: Verdict)
      requires tunnels == TunnelsFor(all, inst.id) && tunnelCount == |tunnels|
      modifies this, lib
      ensures v == VerdictOn(n, inst.IsServer(), tunnels, lib.fate)
      ensures View() == if v.Refused? then old(View())
                        else if inst.IsServer() then old(View()).(serverSvc := Some(n)) else old(View()).(clientSvc := Some(n))
      ensures lib.state == if v.Refused? then old(lib.state)
                           else old(lib.state).(launched := old(lib.state).launched[n := Kernel(inst, tunnels)])
    {
      if inst.IsServer() {
        v := lib.Serve(n, inst, tunnels);
        if v.Accepted? {
          serverSvc := Some(n);
        }
      } else {
        var mine := SelectTunnels(all, inst.id);
        if exists t :: t in mine && Trim(t.name) == "" {
          return Refused(UNNAMED_TUNNEL);
        }
        v := lib.Serve(n, inst, mine);
        if v.Accepted? {
          clientSvc, tunnels, tunnelCount := Some(n), mine, |mine|;
        }
      }
    }

    /** startInstance together with the bookkeeping Apply does on its answer. */
    method Start(lib: KernelLibrary, all: seq<Tunnel>) returns (v: Verdict)
      requires tunnels == TunnelsFor(all, inst.id) && tunnelCount == |tunnels|
      modifies this, lib
      ensures (View(), lib.state) == Launch(old(View()), old(lib.state), lib.fate)
      ensures v.Accepted? <==> up
      ensures v.Refused? ==> err == v.reason
    {
      var n := lib.NewContext();
      cancel := Some(n);
      v := Ask(lib, n, all);
      if v.Refused? {
        lib.Cancel(n);
        cancel, err, up := None, v.reason, false;
      } else {
        err, up := "", true;
      }
    }
  }

  ghost function Views(m: map<Id, Runtime>): Units
    reads m.Values
  {
    map id | id in m :: m[id].View()
  }

  /** Each runtime sits under the id of its own instance, so no two ids share one. */
  ghost predicate Keyed(m: map<Id, Runtime>)
    reads m.Values
  {
    forall id | id in m :: m[id].inst.id == id
  }

  lemma OneChanged(before: Units, after: Units, id: Id)
    requires id in after && after.Keys == before.Keys + {id}
    requires forall k | k in before && k != id :: after[k] == before[k]
    ensures after == before[id := after[id]]
  {
  }

  class Engine {
    var desired: seq<Instance>
    var tunnels: seq<Tunnel>
    var order: seq<Id>
    var runtimes: map<Id, Runtime>
    const lib: KernelLibrary

    ghost function View(): State
      reads this, runtimes.Values, lib
    {
      State(desired, tunnels, order, Views(runtimes), lib.state)
    }

    ghost predicate Valid()
      reads this, runtimes.Values
    {
      Keyed(runtimes)
    }

    constructor (lib: KernelLibrary)
      requires lib.state == EMPTY_LIBRARY
      ensures Valid() && View() == INITIAL && this.lib == lib && runtimes == map[]
    {
      this.lib := lib;
      desired, tunnels, order, runtimes := [], [], [], map[];
      new;
      assert Views(runtimes) == map[];
    }

    method Configure(instances: seq<Instance>, newTunnels: seq<Tunnel>)
      requires Valid()
      modifies this
      ensures Valid() && runtimes == old(runtimes)
      ensures View() == After(old(View()), SupervisorSpec.Configure(instances, newTunnels), lib.fate)
    {
      desired, tunnels := instances, newTunnels;
    }

    /** Reconciles what runs with what is desired; the result lists the instances that did not start. */
    method Apply() returns (failures: seq<Failure>)
      requires Valid()
      modifies this, runtimes.Values, lib
      ensures Valid() && forall id | id in runtimes :: runtimes[id] in old(runtimes.Values) || fresh(runtimes[id])
      ensures View() == After(old(View()), SupervisorSpec.Apply, lib.fate)
      ensures failures == ApplyWork(old(View()), lib.fate).failures
    {
      failures := Reconcile();
    }

    method Publish(rts: map<Id, Runtime>, ids: seq<Id>)
      modifies this
      ensures runtimes == rts && order == ids && desired == old(desired) && tunnels == old(tunnels)
      ensures Views(rts) == old(Views(rts))
    {
      runtimes, order := rts, ids;
    }

    method Reconcile() returns (failures: seq<Failure>)
      requires Keyed(runtimes)
      modifies this, runtimes.Values, lib
      ensures Keyed(runtimes) && forall id | id in runtimes :: runtimes[id] in old(runtimes.Values) || fresh(runtimes[id])
      ensures desired == old(desired) && tunnels == old(tunnels) && order == OrderOf(desired)
      ensures Work(Views(runtimes), lib.state, failures) == ApplyWork(old(View()), lib.fate)
    {
      ghost var s := View();
      var want, ids := Collect(desired);
      var rts := RemoveUnwanted(runtimes, want, lib);
      ghost var p := Work(Views(rts), lib.state, []);
      assert p == Pruned(s);
      rts, failures := SettleEach(rts, ids, want, tunnels, lib);
      ghost var w := Work(Views(rts), lib.state, failures);
      assert w == ApplyWork(s, lib.fate) by {
        assert w == SettleAll(p, ids, want, s.tunnels, lib.fate);
      }
      Publish(rts, ids);
    }

    /** Tears everything down. */
    method Stop()
      requires Valid()
      modifies this, runtimes.Values, lib
      ensures Valid() && runtimes == map[]
      ensures View() == After(old(View()), SupervisorSpec.Stop, lib.fate)
    {
      var rts, ids := runtimes, order;
      Publish(map[], []);
      CloseEach(rts, ids, lib);
      assert Views(runtimes) == map[];
    }

    /** A full restart. */
    method Start() returns (failures: seq<Failure>)
      requires Valid()
      modifies this, runtimes.Values, lib
      ensures Valid() && forall id | id in runtimes :: fresh(runtimes[id])
      ensures View() == After(old(View()), SupervisorSpec.Start, lib.fate)
      ensures failures == ApplyWork(AfterStop(old(View())), lib.fate).failures
    {
      Stop();
      failures := Apply();
    }

    /** Hands every live client its part of the list; the first refusal comes back, the others go on. */
    method ApplyTunnels(list: seq<Tunnel>) returns (firstErr: Option<string>)
      requires Valid()
      modifies this, runtimes.Values, lib
      ensures Valid() && runtimes == old(runtimes)
      ensures View() == After(old(View()), SupervisorSpec.ApplyTunnels(list), lib.fate)
      ensures var failures := PushWork(old(View()), list, lib.fate).failures;
              firstErr == if failures == [] then None else Some(failures[0].reason)
    {
      tunnels := list;
      firstErr := PushEach(runtimes, order, list, lib);
    }
  }

  /** Closes the runtimes listed in `ids`, in that order. */
  method CloseEach(rts: map<Id, Runtime>, ids: seq<Id>, lib: KernelLibrary)
    requires Keyed(rts)
    modifies rts.Values, lib
    ensures lib.state == CloseAll(old(Views(rts)), (set id | id in ids), old(lib.state))
  {
    ghost var units, lib0 := Views(rts), lib.state;
    ghost var done: set<Id> := {};
    assert CloseAll(units, done, lib0) == lib0;
    for i := 0 to |ids|
      invariant forall id :: id in done <==> id in ids[..i]
      invariant Keyed(rts) && Views(rts) == ClosedViews(units, done)
      invariant lib.state == CloseAll(units, done, lib0)
    {
      assert ids[..i + 1] == ids[..i] + [ids[i]];
      CloseListed(rts, ids[i], lib, units, done, lib0);
      done := done + {ids[i]};
    }
    assert ids[..|ids|] == ids;
    assert done == set id | id in ids;
  }

  ghost function ClosedViews(units: Units, ids: set<Id>): Units {
    map id | id in units :: if id in ids then CloseUnit(units[id]) else units[id]
  }

  method CloseListed(rts: map<Id, Runtime>, id: Id, lib: KernelLibrary,
                     ghost units: Units, ghost done: set<Id>, ghost lib0: Library)
    requires Keyed(rts) && Views(rts) == ClosedViews(units, done)
    requires lib.state == CloseAll(units, done, lib0)
    modifies rts.Values, lib
    ensures Keyed(rts) && Views(rts) == ClosedViews(units, done + {id})
    ensures lib.state == CloseAll(units, done + {id}, lib0)
  {
    if id in rts {
      assert id in Views(rts) && Views(rts)[id] == rts[id].View();
      CloseOneMore(units, done, id, lib0);
      CloseTwice(units, done, id, lib0);
      rts[id].Close(lib);
      OneChanged(ClosedViews(units, done), Views(rts), id);
      ClosedOneMore(units, done, id);
    } else {
      assert id !in Views(rts);
      assert id !in ClosedViews(units, done);
      CloseNone(units, done, id, lib0);
    }
  }

  lemma ClosedOneMore(units: Units, ids: set<Id>, id: Id)
    requires id in units
    ensures ClosedViews(units, ids + {id}) == ClosedViews(units, ids)[id := CloseUnit(units[id])]
  {
  }

  lemma CloseTwice(units: Units, ids: set<Id>, id: Id, lib: Library)
    ensures id in ids ==> CloseAll(units, ids + {id}, lib) == CloseAll(units, ids, lib)
    ensures id in units ==> forall l :: CloseIn(CloseUnit(units[id]), l) == l
  {
    if id in ids { assert ids + {id} == ids; }
  }

  lemma CloseNone(units: Units, ids: set<Id>, id: Id, lib: Library)
    requires id !in units
    ensures CloseAll(units, ids + {id}, lib) == CloseAll(units, ids, lib)
  {
  }

  /** The wanted instances by id, and their ids in order. */
  method Collect(desired: seq<Instance>) returns (want: map<Id, Instance>, ids: seq<Id>)
    ensures want == Wanted(desired) && ids == OrderOf(desired)
  {
    want, ids := map[], [];
    for i := 0 to |desired|
      invariant want == Wanted(desired[..i]) && ids == OrderOf(desired[..i])
    {
      assert desired[..i + 1][..i] == desired[..i];
      var inst := desired[i].Normalize();
      if inst.id != "" {
        want, ids := want[inst.id := inst], ids + [inst.id];
      }
    }
    assert desired[..|desired|] == desired;
  }

  method CloseAndDrop(rts: map<Id, Runtime>, id: Id, lib: KernelLibrary) returns (rts': map<Id, Runtime>)
    requires Keyed(rts) && id in rts
    modifies rts[id], lib
    ensures rts' == map k | k in rts && k != id :: rts[k]
    ensures Keyed(rts') && Views(rts') == Without(old(Views(rts)), {id})
    ensures lib.state == CloseIn(old(rts[id].View()), old(lib.state))
  {
    rts[id].Close(lib);
    rts' := map k | k in rts && k != id :: rts[k];
  }

  /** Closes the runtimes of instances nobody wants any more, in the arbitrary order of a Go map. */
  method RemoveUnwanted(all: map<Id, Runtime>, want: map<Id, Instance>, lib: KernelLibrary)
    returns (rts: map<Id, Runtime>)
    requires Keyed(all)
    modifies all.Values, lib
    ensures Keyed(rts) && forall id | id in rts :: rts[id] in all.Values
    ensures var units := old(Views(all));
            Views(rts) == Without(units, units.Keys - want.Keys)
            && lib.state == CloseAll(units, units.Keys - want.Keys, old(lib.state))
  {
    ghost var units, lib0 := Views(all), lib.state;
    rts := all;
    var todo := rts.Keys;
    ghost var gone: set<Id> := {};
    while todo != {}
      invariant todo <= all.Keys
      invariant forall id :: id in gone <==> id in all && id !in todo && id !in want
      invariant forall id :: id in rts <==> id in all && id !in gone
      invariant forall id | id in rts :: rts[id] == all[id]
      invariant Keyed(rts) && Views(rts) == Without(units, gone)
      invariant lib.state == CloseAll(units, gone, lib0)
      decreases todo
    {
      var id :| id in todo;
      if id !in want {
        assert rts[id].View() == Views(rts)[id] == units[id];
        CloseOneMore(units, gone, id, lib0);
        WithoutOneMore(units, gone, id);
        rts := CloseAndDrop(rts, id, lib);
        gone := gone + {id};
      }
      todo := todo - {id};
    }
    assert gone == units.Keys - want.Keys;
  }

  lemma CloseOneMore(units: Units, ids: set<Id>, id: Id, lib: Library)
    requires id in units
    ensures CloseAll(units, ids + {id}, lib) == CloseIn(units[id], CloseAll(units, ids, lib))
  {
  }

  lemma WithoutOneMore(units: Units, ids: set<Id>, id: Id)
    ensures Without(Without(units, ids), {id}) == Without(units, ids + {id})
  {
  }

  method SettleEach(rts0: map<Id, Runtime>, ids: seq<Id>, want: map<Id, Instance>, tunnels: seq<Tunnel>,
                    lib: KernelLibrary)
    returns (rts: map<Id, Runtime>, failures: seq<Failure>)
    requires Keyed(rts0) && forall id | id in ids :: id in want
    modifies rts0.Values, lib
    ensures Keyed(rts) && forall id | id in rts :: rts[id] in rts0.Values || fresh(rts[id])
    ensures Work(Views(rts), lib.state, failures)
            == SettleAll(Work(old(Views(rts0)), old(lib.state), []), ids, want, tunnels, lib.fate)
  {
    ghost var w := Work(Views(rts0), lib.state, []);
    rts, failures := rts0, [];
    for i := 0 to |ids|
      invariant Keyed(rts) && forall id | id in rts :: rts[id] in rts0.Values || fresh(rts[id])
      invariant Work(Views(rts), lib.state, failures) == SettleAll(w, ids[..i], want, tunnels, lib.fate)
    {
      assert ids[..i + 1][..i] == ids[..i] && ids[i] in ids;
      rts, failures := SettleOne(rts, want[ids[i]], tunnels, failures, lib);
    }
    assert ids[..|ids|] == ids;
  }

  /** One round of Apply's second loop: a wanted instance is switched off, kept, or (re)started. */
  method SettleOne(rts: map<Id, Runtime>, inst: Instance, all: seq<Tunnel>, failures: seq<Failure>, lib: KernelLibrary)
    returns (rts': map<Id, Runtime>, failures': seq<Failure>)
    requires Keyed(rts)
    modifies rts.Values, lib
    ensures Keyed(rts') && forall id | id in rts' :: rts'[id] in rts.Values || fresh(rts'[id])
    ensures Work(Views(rts'), lib.state, failures')
            == Settle(Work(old(Views(rts)), old(lib.state), failures), inst, all, lib.fate)
  {
    var id := inst.id;
    failures' := failures;
    if !inst.Enabled() {
      rts' := SwitchOff(rts, inst, lib);
    } else if id in rts && rts[id].up && SameConfig(rts[id].inst, inst) {
      rts[id].inst := inst;
      rts' := rts;
      OneChanged(old(Views(rts)), Views(rts), id);
    } else {
      var rt;
      rts', rt := Restart(rts, inst, all, lib);
      if !rt.up {
        failures' := failures + [Failure(inst.name, inst.kind, rt.err)];
      }
    }
  }

  method SwitchOff(rts: map<Id, Runtime>, inst: Instance, lib: KernelLibrary) returns (rts': map<Id, Runtime>)
    requires Keyed(rts)
    modifies rts.Values, lib
    ensures Keyed(rts') && forall id | id in rts' :: rts'[id] in rts.Values || fresh(rts'[id])
    ensures Views(rts') == old(Views(rts))[inst.id := SwitchedOff(old(Views(rts)), inst)]
    ensures lib.state == if inst.id in rts && old(rts[inst.id].up) then CloseIn(old(rts[inst.id].View()), old(lib.state))
                         else old(lib.state)
  {
    if inst.id in rts {
      SwitchOffOld(rts, inst, lib);
      rts' := rts;
    } else {
      var rt := new Runtime();
      rt.inst, rt.dash := inst, DashFor(inst);
      rts' := rts[inst.id := rt];
      OneChanged(old(Views(rts)), Views(rts'), inst.id);
    }
  }

  method SwitchOffOld(rts: map<Id, Runtime>, inst: Instance, lib: KernelLibrary)
    requires Keyed(rts) && inst.id in rts
    modifies rts[inst.id], lib
    ensures Keyed(rts)
    ensures Views(rts) == old(Views(rts))[inst.id := SwitchedOff(old(Views(rts)), inst)]
    ensures lib.state == if old(rts[inst.id].up) then CloseIn(old(rts[inst.id].View()), old(lib.state)) else old(lib.state)
  {
    var rt := rts[inst.id];
    if rt.up {
      rt.Close(lib);
    }
    rt.inst := inst;
    OneChanged(old(Views(rts)), Views(rts), inst.id);
  }

  /** The runtime a kernel will be started in: an old one, closed, or a new one. */
  method Prepare(rts: map<Id, Runtime>, inst: Instance, all: seq<Tunnel>, lib: KernelLibrary)
    returns (rts': map<Id, Runtime>, rt: Runtime)
    requires Keyed(rts)
    modifies rts.Values, lib
    ensures rt in rts.Values || fresh(rt)
    ensures rts' == rts[inst.id := rt] && Keyed(rts')
    ensures rt.View() == Prepared(Reusable(old(Views(rts)), inst.id), inst, all)
    ensures rt.inst.id == inst.id && rt.tunnels == TunnelsFor(all, inst.id) && rt.tunnelCount == |rt.tunnels|
    ensures Views(rts') == old(Views(rts))[inst.id := rt.View()]
    ensures lib.state == Freed(old(Views(rts)), inst.id, old(lib.state))
  {
    if inst.id in rts {
      rt := rts[inst.id];
      rt.Close(lib);
    } else {
      rt := new Runtime();
    }
    rt.Fit(inst, all);
    rts' := rts[inst.id := rt];
    OneChanged(old(Views(rts)), Views(rts'), inst.id);
  }

  lemma UpdatedTwice<K, V>(m: map<K, V>, k: K, x: V, y: V)
    ensures m[k := x][k := y] == m[k := y]
  {
  }

  method Restart(rts: map<Id, Runtime>, inst: Instance, all: seq<Tunnel>, lib: KernelLibrary)
    returns (rts': map<Id, Runtime>, rt: Runtime)
    requires Keyed(rts)
    modifies rts.Values, lib
    ensures rt in rts.Values || fresh(rt)
    ensures rts' == rts[inst.id := rt] && Keyed(rts')
    ensures Views(rts') == old(Views(rts))[inst.id := rt.View()]
    ensures (rt.View(), lib.state) == Launch(Prepared(Reusable(old(Views(rts)), inst.id), inst, all),
                                             Freed(old(Views(rts)), inst.id, old(lib.state)), lib.fate)
  {
    rts', rt := Prepare(rts, inst, all, lib);
    ghost var units, ready := old(Views(rts)), rt.View();
    StartIn(rts', rt, all, lib);
    UpdatedTwice(units, inst.id, ready, rt.View());
  }

  /** Starting one of several runtimes changes none of the others. */
  method StartIn(rts: map<Id, Runtime>, rt: Runtime, all: seq<Tunnel>, lib: KernelLibrary)
    requires Keyed(rts) && rt.inst.id in rts && rts[rt.inst.id] == rt
    requires rt.tunnels == TunnelsFor(all, rt.inst.id) && rt.tunnelCount == |rt.tunnels|
    modifies rt, lib
    ensures rt.inst == old(rt.inst) && Keyed(rts)
    ensures Views(rts) == old(Views(rts))[rt.inst.id := rt.View()]
    ensures (rt.View(), lib.state) == Launch(old(rt.View()), old(lib.state), lib.fate)
  {
    var _ := rt.Start(lib, all);
  }

  method PushEach(rts: map<Id, Runtime>, ids: seq<Id>, tunnels: seq<Tunnel>, lib: KernelLibrary)
    returns (firstErr: Option<string>)
    requires Keyed(rts)
    modifies rts.Values, lib
    ensures Keyed(rts)
    ensures var w := PushAll(Work(old(Views(rts)), old(lib.state), []), ids, tunnels, lib.fate);
            Views(rts) == w.units && lib.state == w.lib
            && firstErr == if w.failures == [] then None else Some(w.failures[0].reason)
  {
    ghost var w0 := Work(Views(rts), lib.state, []);
    ghost var failures: seq<Failure> := [];
    firstErr := None;
    for i := 0 to |ids|
      invariant Keyed(rts)
      invariant Work(Views(rts), lib.state, failures) == PushAll(w0, ids[..i], tunnels, lib.fate)
      invariant firstErr == if failures == [] then None else Some(failures[0].reason)
    {
      assert ids[..i + 1][..i] == ids[..i] && ids[i] in ids;
      ghost var w := Work(Views(rts), lib.state, failures);
      var err := PushOne(rts, ids[i], tunnels, lib, failures);
      failures := Push(w, ids[i], tunnels, lib.fate).failures;
      if firstErr.None? {
        firstErr := err;
      }
    }
    assert ids[..|ids|] == ids;
  }

  method PushOne(rts: map<Id, Runtime>, id: Id, tunnels: seq<Tunnel>, lib: KernelLibrary, ghost failures: seq<Failure>)
    returns (err: Option<string>)
    requires Keyed(rts)
    modifies rts.Values, lib
    ensures Keyed(rts)
    ensures Answered(Push(Work(old(Views(rts)), old(lib.state), failures), id, tunnels, lib.fate),
                     Views(rts), lib.state, failures, err)
  {
    if id in rts && !rts[id].inst.IsServer() && rts[id].clientSvc.Some? {
      err := PushLive(rts, id, tunnels, lib, failures);
    } else {
      err := None;
    }
  }

  /** The units and the library are those of `w`, and `err` is the one failure `w` adds, if any. */
  ghost predicate Answered(w: Work, units: Units, lib: Library, failures: seq<Failure>, err: Option<string>) {
    && units == w.units && lib == w.lib
    && (if err.None? then w.failures == failures
        else |w.failures| == |failures| + 1 && w.failures[..|failures|] == failures
             && w.failures[|failures|].reason == err.value)
  }

  method PushLive(rts: map<Id, Runtime>, id: Id, tunnels: seq<Tunnel>, lib: KernelLibrary, ghost failures: seq<Failure>)
    returns (err: Option<string>)
    requires Keyed(rts) && id in rts && !rts[id].inst.IsServer() && rts[id].clientSvc.Some?
    modifies rts[id], lib
    ensures Keyed(rts)
    ensures Answered(Push(Work(old(Views(rts)), old(lib.state), failures), id, tunnels, lib.fate),
                     Views(rts), lib.state, failures, err)
  {
    var v := rts[id].Update(tunnels, lib);
    err := if v.Refused? then Some(v.reason) else None;
    OneChanged(old(Views(rts)), Views(rts), id);
  }

  /** Any sequence of calls on a fresh engine stays within what every run keeps. */
  method Drive(calls: seq<Call>, lib: KernelLibrary) returns (e: Engine)
    requires lib.state == EMPTY_LIBRARY
    modifies lib
    ensures e.lib == lib && e.Valid()
    ensures e.View() == Run(calls, lib.fate)
    ensures KernelsAccountedFor(e.View()) && ContextsAccountedFor(e.View())
  {
    e := new Engine(lib);
    for i := 0 to |calls|
      invariant e.lib == lib && e.Valid() && fresh(e) && fresh(e.runtimes.Values)
      invariant e.View() == Run(calls[..i], lib.fate)
    {
      assert calls[..i + 1][..i] == calls[..i];
      match calls[i] {
        case Configure(instances, tunnels) => e.Configure(instances, tunnels);
        case Apply => var _ := e.Apply();
        case ApplyTunnels(tunnels) => var _ := e.ApplyTunnels(tunnels);
        case Stop => e.Stop();
        case Start => var _ := e.Start();
      }
    }
    assert calls[..|calls|] == calls;
    NoKernelLeakedOrLost(calls, lib.fate);
  }
}
