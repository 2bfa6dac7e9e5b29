/** ApplyTunnels hands every live client exactly its own tunnels. */
module SupervisorTunnels {
  import opened Model
  import opened SupervisorSpec
  import opened SupervisorSafety
  import opened SupervisorConvergence

  predicate LiveClient(units: Units, id: Id) {
    id in units && !units[id].inst.IsServer() && units[id].clientSvc.Some?
  }

  /** The tunnels the library currently runs for a live client. */
  ghost function Loaded(w: Work, id: Id): seq<Tunnel>
    requires Balanced(w.units, w.lib) && LiveClient(w.units, id)
  {
    assert Sound(w.units[id], id, w.lib);
    w.lib.launched[w.units[id].clientSvc.value].tunnels
  }

  ghost predicate SameKernels(before: Library, after: Library) {
    && after.launched.Keys == before.launched.Keys
    && after.closed == before.closed && after.contexts == before.contexts && after.cancelled == before.cancelled
    && before.requests <= after.requests
  }

  // ---------- which request is whose ----------

  /** The number of live clients among the first n ids: each makes one request. */
  ghost function Asking(units: Units, ids: seq<Id>, n: nat): nat
    requires n <= |ids|
  {
    if n == 0 then 0 else Asking(units, ids, n - 1) + if LiveClient(units, ids[n - 1]) then 1 else 0
  }

  /** How the request of the i-th client ends. */
  ghost function VerdictAt(w: Work, ids: seq<Id>, i: nat, tunnels: seq<Tunnel>, fate: Fate): Verdict
    requires i < |ids|
  {
    VerdictOn(w.lib.requests + Asking(w.units, ids, i), false, TunnelsFor(tunnels, ids[i]), fate)
  }

  /** Some request of the client, among the first n, was accepted. */
  ghost predicate Granted(w: Work, ids: seq<Id>, n: nat, tunnels: seq<Tunnel>, fate: Fate, id: Id)
    requires n <= |ids|
  {
    exists i :: 0 <= i < n && ids[i] == id && VerdictAt(w, ids, i, tunnels, fate).Accepted?
  }

  /** One failure for each of the first n clients whose request was refused, in order. */
  ghost function Refusals(w: Work, ids: seq<Id>, n: nat, tunnels: seq<Tunnel>, fate: Fate): seq<Failure>
    requires n <= |ids|
  {
    if n == 0 then [] else
      var id := ids[n - 1];
      Refusals(w, ids, n - 1, tunnels, fate)
      + if LiveClient(w.units, id) && VerdictAt(w, ids, n - 1, tunnels, fate).Refused?
        then [Failure(w.units[id].inst.name, w.units[id].inst.kind, VerdictAt(w, ids, n - 1, tunnels, fate).reason)] else []
  }

  ghost function Reloaded(u: Unit, mine: seq<Tunnel>): Unit {
    u.(tunnels := mine, tunnelCount := |mine|)
  }

  /** A unit after the push: a live client whose own request was accepted has its new list, any other unit is as it was. */
  ghost predicate Routed(w: Work, after: Units, ids: seq<Id>, n: nat, tunnels: seq<Tunnel>, fate: Fate, id: Id)
    requires n <= |ids|
  {
    && (id in after <==> id in w.units)
    && (id in w.units ==>
          after[id] == if LiveClient(w.units, id) && Granted(w, ids, n, tunnels, fate, id)
                       then Reloaded(w.units[id], TunnelsFor(tunnels, id)) else w.units[id])
  }

  /** The push after its first n ids. */
  ghost predicate PushedTo(w: Work, now: Work, ids: seq<Id>, n: nat, tunnels: seq<Tunnel>, fate: Fate)
    requires n <= |ids|
  {
    && (forall id :: Routed(w, now.units, ids, n, tunnels, fate, id))
    && now.failures == w.failures + Refusals(w, ids, n, tunnels, fate)
    && now.lib.requests == w.lib.requests + Asking(w.units, ids, n)
    && SameKernels(w.lib, now.lib)
  }

  lemma GrantedNext(w: Work, ids: seq<Id>, n: nat, tunnels: seq<Tunnel>, fate: Fate, id: Id)
    requires n < |ids|
    ensures Granted(w, ids, n + 1, tunnels, fate, id) <==>
            Granted(w, ids, n, tunnels, fate, id) || (ids[n] == id && VerdictAt(w, ids, n, tunnels, fate).Accepted?)
  {
    if Granted(w, ids, n, tunnels, fate, id) {
      var i :| 0 <= i < n && ids[i] == id && VerdictAt(w, ids, i, tunnels, fate).Accepted?;
      assert 0 <= i < n + 1;
    }
  }

  /** What one push does to the unit it is for, and to the books. */
  lemma PushOne(w: Work, id: Id, tunnels: seq<Tunnel>, fate: Fate)
    requires Balanced(w.units, w.lib)
    ensures var after := Push(w, id, tunnels, fate);
      if LiveClient(w.units, id) then
        var v := VerdictOn(w.lib.requests, false, TunnelsFor(tunnels, id), fate);
        && after.units == (if v.Accepted? then w.units[id := Reloaded(w.units[id], TunnelsFor(tunnels, id))] else w.units)
        && after.failures == w.failures + (if v.Accepted? then []
                                           else [Failure(w.units[id].inst.name, w.units[id].inst.kind, v.reason)])
        && after.lib.requests == w.lib.requests + 1 && SameKernels(w.lib, after.lib)
      else after == w
  {
    if id in w.units { assert Sound(w.units[id], id, w.lib); }
  }

  lemma RoutedNext(w: Work, now: Units, after: Units, ids: seq<Id>, n: nat, tunnels: seq<Tunnel>, fate: Fate, id: Id)
    requires n < |ids| && Routed(w, now, ids, n, tunnels, fate, id) && Routed(w, now, ids, n, tunnels, fate, ids[n])
    requires after == if LiveClient(w.units, ids[n]) && VerdictAt(w, ids, n, tunnels, fate).Accepted?
                      then now[ids[n] := Reloaded(w.units[ids[n]], TunnelsFor(tunnels, ids[n]))] else now
    ensures Routed(w, after, ids, n + 1, tunnels, fate, id)
  {
    GrantedNext(w, ids, n, tunnels, fate, id);
  }

  lemma PushedNext(w: Work, now: Work, ids: seq<Id>, n: nat, tunnels: seq<Tunnel>, fate: Fate, m: nat)
    requires n < |ids| && PushedTo(w, now, ids, n, tunnels, fate) && Balanced(now.units, now.lib) && m == n + 1
    ensures PushedTo(w, Push(now, ids[n], tunnels, fate), ids, m, tunnels, fate)
  {
    var after := Push(now, ids[n], tunnels, fate);
    PushOne(now, ids[n], tunnels, fate);
    assert Routed(w, now.units, ids, n, tunnels, fate, ids[n]);
    assert LiveClient(now.units, ids[n]) == LiveClient(w.units, ids[n]);
    forall id ensures Routed(w, after.units, ids, m, tunnels, fate, id) {
      RoutedNext(w, now.units, after.units, ids, n, tunnels, fate, id);
    }
  }

  lemma {:induction false} PushAllRoutes(w: Work, ids: seq<Id>, n: nat, tunnels: seq<Tunnel>, fate: Fate)
    requires Balanced(w.units, w.lib) && n <= |ids|
    ensures PushedTo(w, PushAll(w, ids[..n], tunnels, fate), ids, n, tunnels, fate)
  {
    if n != 0 {
      assert ids[..n][..n - 1] == ids[..n - 1] && ids[..n][n - 1] == ids[n - 1];
      PushAllRoutes(w, ids, n - 1, tunnels, fate);
      PushAllStaysBalanced(w, ids[..n - 1], tunnels, fate);
      PushedNext(w, PushAll(w, ids[..n - 1], tunnels, fate), ids, n - 1, tunnels, fate, n);
    }
  }

  // ---------- the result of ApplyTunnels ----------

  /**
   * Each live client holds exactly its own tunnels if a request of its own was accepted, and its old list
   * otherwise; no other unit changes; the failures are the refusals, one by one and in order; and no kernel
   * is opened or closed.
   */
  lemma ApplyTunnelsRoutes(s: State, tunnels: seq<Tunnel>, fate: Fate)
    requires Safe(s)
    ensures PushedTo(Before(s), PushWork(s, tunnels, fate), s.order, |s.order|, tunnels, fate)
  {
    PushAllRoutes(Before(s), s.order, |s.order|, tunnels, fate);
    assert s.order[..|s.order|] == s.order;
  }

  /** With distinct ids: the client has its new list exactly when the one request that is its own was accepted. */
  lemma OwnRequestDecides(s: State, tunnels: seq<Tunnel>, fate: Fate, i: nat)
    requires Safe(s) && Distinct(s.order) && i < |s.order| && LiveClient(s.units, s.order[i])
    ensures var id, after := s.order[i], PushWork(s, tunnels, fate);
      && id in after.units
      && after.units[id] == if VerdictAt(Before(s), s.order, i, tunnels, fate).Accepted?
                            then Reloaded(s.units[id], TunnelsFor(tunnels, id)) else s.units[id]
  {
    ApplyTunnelsRoutes(s, tunnels, fate);
    var id, w := s.order[i], Before(s);
    assert Routed(w, PushWork(s, tunnels, fate).units, s.order, |s.order|, tunnels, fate, id);
    if Granted(w, s.order, |s.order|, tunnels, fate, id) {
      var j :| 0 <= j < |s.order| && s.order[j] == id && VerdictAt(w, s.order, j, tunnels, fate).Accepted?;
      assert j == i;
    }
  }

  /** No failure means that no client was refused. */
  lemma {:induction false} NoRefusals(w: Work, ids: seq<Id>, n: nat, tunnels: seq<Tunnel>, fate: Fate)
    requires n <= |ids|
    ensures Refusals(w, ids, n, tunnels, fate) == [] <==>
            forall i | 0 <= i < n && LiveClient(w.units, ids[i]) :: VerdictAt(w, ids, i, tunnels, fate).Accepted?
  {
    if n != 0 {
      NoRefusals(w, ids, n - 1, tunnels, fate);
    }
  }

  /** When no client was refused, what each client's kernel runs is exactly the tunnels naming it. */
  lemma EveryClientHoldsItsOwn(s: State, tunnels: seq<Tunnel>, fate: Fate, id: Id)
    requires Safe(s) && PushWork(s, tunnels, fate).failures == []
    requires LiveClient(s.units, id)
    ensures Balanced(PushWork(s, tunnels, fate).units, PushWork(s, tunnels, fate).lib)
    ensures LiveClient(PushWork(s, tunnels, fate).units, id)
    ensures Loaded(PushWork(s, tunnels, fate), id) == TunnelsFor(tunnels, id)
  {
    var w := PushWork(s, tunnels, fate);
    PushAllStaysBalanced(Before(s), s.order, tunnels, fate);
    ApplyTunnelsRoutes(s, tunnels, fate);
    NoRefusals(Before(s), s.order, |s.order|, tunnels, fate);
    assert Routed(Before(s), w.units, s.order, |s.order|, tunnels, fate, id);
    assert id in s.order;
    var i :| 0 <= i < |s.order| && s.order[i] == id;
    assert VerdictAt(Before(s), s.order, i, tunnels, fate).Accepted?;
    assert Granted(Before(s), s.order, |s.order|, tunnels, fate, id);
    assert Sound(s.units[id], id, s.lib) && Sound(w.units[id], id, w.lib);
  }

  /** A tunnel goes to the one client it names, and to none when it names none. */
  lemma {:induction false} RoutedByOwner(tunnels: seq<Tunnel>, id: Id, t: Tunnel)
    ensures t in TunnelsFor(tunnels, id) <==> id != "" && t in tunnels && t.instanceID == id
  {
    if id != "" && tunnels != [] {
      RoutedByOwner(tunnels[..|tunnels| - 1], id, t);
      assert tunnels == tunnels[..|tunnels| - 1] + [tunnels[|tunnels| - 1]];
    }
  }

  /** How many of the tunnels name one of these owners. */
  function OwnedCount(tunnels: seq<Tunnel>, owners: set<Id>): nat {
    if tunnels == [] then 0 else
      OwnedCount(tunnels[..|tunnels| - 1], owners) + if tunnels[|tunnels| - 1].instanceID in owners then 1 else 0
  }

  ghost function LiveClients(units: Units, ids: seq<Id>): set<Id> {
    set id | id in ids && LiveClient(units, id)
  }

  ghost function LoadedCount(w: Work, ids: seq<Id>): nat
    requires Balanced(w.units, w.lib)
  {
    if ids == [] then 0 else
      LoadedCount(w, ids[..|ids| - 1])
      + if LiveClient(w.units, ids[|ids| - 1]) then |Loaded(w, ids[|ids| - 1])| else 0
  }

  lemma {:induction false} OneMoreOwner(tunnels: seq<Tunnel>, owners: set<Id>, id: Id)
    requires id !in owners && id != ""
    ensures OwnedCount(tunnels, owners + {id}) == OwnedCount(tunnels, owners) + |TunnelsFor(tunnels, id)|
  {
    if tunnels != [] {
      OneMoreOwner(tunnels[..|tunnels| - 1], owners, id);
    }
  }

  lemma LiveClientsNext(units: Units, ids: seq<Id>, id: Id)
    ensures LiveClients(units, ids + [id]) == LiveClients(units, ids) + if LiveClient(units, id) then {id} else {}
  {
  }

  lemma {:induction false} LoadedAddsUp(w: Work, ids: seq<Id>, tunnels: seq<Tunnel>)
    requires Balanced(w.units, w.lib) && Distinct(ids) && "" !in ids
    requires forall id | id in ids && LiveClient(w.units, id) :: Loaded(w, id) == TunnelsFor(tunnels, id)
    ensures LoadedCount(w, ids) == OwnedCount(tunnels, LiveClients(w.units, ids))
  {
    if ids == [] {
      assert LiveClients(w.units, ids) == {};
      NoOwnerNoTunnels(tunnels);
    } else {
      var rest, last := ids[..|ids| - 1], ids[|ids| - 1];
      assert ids == rest + [last];
      assert last !in rest;
      LoadedAddsUp(w, rest, tunnels);
      LiveClientsNext(w.units, rest, last);
      if LiveClient(w.units, last) {
        OneMoreOwner(tunnels, LiveClients(w.units, rest), last);
      } else {
        assert LiveClients(w.units, rest) + {} == LiveClients(w.units, rest);
      }
    }
  }

  lemma NoOwnerNoTunnels(tunnels: seq<Tunnel>)
    ensures OwnedCount(tunnels, {}) == 0
  {
  }

  /** After a push without refusals the kernels together run each owned tunnel exactly once. */
  lemma TunnelsAreConserved(s: State, tunnels: seq<Tunnel>, fate: Fate)
    requires Safe(s) && Distinct(s.order)
    requires PushWork(s, tunnels, fate).failures == []
    ensures Balanced(PushWork(s, tunnels, fate).units, PushWork(s, tunnels, fate).lib)
    ensures LoadedCount(PushWork(s, tunnels, fate), s.order) == OwnedCount(tunnels, LiveClients(s.units, s.order))
  {
    var w := PushWork(s, tunnels, fate);
    PushAllStaysBalanced(Before(s), s.order, tunnels, fate);
    ApplyTunnelsRoutes(s, tunnels, fate);
    forall id ensures LiveClient(w.units, id) == LiveClient(s.units, id) {
      assert Routed(Before(s), w.units, s.order, |s.order|, tunnels, fate, id);
    }
    forall id | LiveClient(w.units, id) ensures Loaded(w, id) == TunnelsFor(tunnels, id) {
      EveryClientHoldsItsOwn(s, tunnels, fate, id);
    }
    assert LiveClients(w.units, s.order) == LiveClients(s.units, s.order);
    LoadedAddsUp(w, s.order, tunnels);
  }
}
