/**
The supervisor of the embedded frps and frpc kernels, on values: what each public call of the
engine turns one state into, and what every run of such calls keeps.

The frp library is an environment that answers its n-th request with `fate(n)`. The number of
the request is also the handle of the kernel, and of the context, that the request created.
*/
module SupervisorSpec {
  import opened Text
  import opened Model

  type Id = string
  type Handle = nat

  datatype Verdict = Accepted | Refused(reason: string)

  type Fate = nat -> Verdict

  function Answer(fate: Fate, n: nat): Verdict { fate(n) }

  /** What the library was last told to run behind one handle. */
  datatype Kernel = Kernel(inst: Instance, tunnels: seq<Tunnel>)

  datatype Library = Library(
    requests: nat,
    launched: map<Handle, Kernel>,
    closed: set<Handle>,
    contexts: set<Handle>,
    cancelled: set<Handle>)
  {
    function Close(h: Option<Handle>): Library {
      if h.Some? then this.(closed := closed + {h.value}) else this
    }

    function Cancel(h: Option<Handle>): Library {
      if h.Some? then this.(cancelled := cancelled + {h.value}) else this
    }

    ghost function Running(): set<Handle> { launched.Keys - closed }

    ghost function Uncancelled(): set<Handle> { contexts - cancelled }
  }

  datatype Dash = Dash(port: int, user: string, pass: string)

  function DashFor(inst: Instance): Dash {
    Dash(inst.server.dashboardPort, inst.server.dashboardUser, inst.server.dashboardPwd)
  }

  /** The run-time side of one instance. */
  datatype Unit = Unit(
    inst: Instance,
    tunnels: seq<Tunnel>,
    serverSvc: Option<Handle>,
    clientSvc: Option<Handle>,
    cancel: Option<Handle>,
    up: bool,
    err: string,
    tunnelCount: nat,
    dash: Dash)

  type Units = map<Id, Unit>

  datatype Failure = Failure(name: string, kind: string, reason: string)

  /** The state one call works on. */
  datatype Work = Work(units: Units, lib: Library, failures: seq<Failure>)

  datatype State = State(
    desired: seq<Instance>,
    tunnels: seq<Tunnel>,
    order: seq<Id>,
    units: Units,
    lib: Library)

  const EMPTY_LIBRARY := Library(0, map[], {}, {}, {})
  const INITIAL := State([], [], [], map[], EMPTY_LIBRARY)

  // ---------- the pieces of a call ----------

  /** Equal as far as the kernel is concerned: name and note do not matter. */
  predicate SameConfig(a: Instance, b: Instance) {
    a.kind == b.kind && a.Enabled() == b.Enabled() && a.server == b.server && a.client == b.client
  }

  function TunnelsFor(tunnels: seq<Tunnel>, id: Id): seq<Tunnel> {
    if id == "" || tunnels == [] then [] else
    TunnelsFor(tunnels[..|tunnels| - 1], id)
    + if tunnels[|tunnels| - 1].instanceID == id then [tunnels[|tunnels| - 1]] else []
  }

  predicate AllNamed(tunnels: seq<Tunnel>) {
    forall t | t in tunnels :: Trim(t.name) != ""
  }

  const UNNAMED_TUNNEL := "tunnel name must not be empty"

  /** How request `n` ends: a client whose tunnels are not all named never reaches the library. */
  function VerdictOn(n: nat, server: bool, tunnels: seq<Tunnel>, fate: Fate): Verdict {
    if !server && !AllNamed(tunnels) then Refused(UNNAMED_TUNNEL) else Answer(fate, n)
  }

  /** The desired instances by id; of two with one id the later one counts. */
  function Wanted(desired: seq<Instance>): (want: map<Id, Instance>)
    ensures forall id | id in want :: id != "" && want[id].id == id
    ensures want.Keys == set id | id in OrderOf(desired)
  {
    if desired == [] then map[] else
      var inst := desired[|desired| - 1].Normalize();
      var before := Wanted(desired[..|desired| - 1]);
      if inst.id == "" then before else before[inst.id := inst]
  }

  function OrderOf(desired: seq<Instance>): seq<Id> {
    if desired == [] then [] else
      var id := desired[|desired| - 1].id;
      OrderOf(desired[..|desired| - 1]) + if id == "" then [] else [id]
  }

  function CloseUnit(u: Unit): Unit {
    u.(serverSvc := None, clientSvc := None, cancel := None, up := false)
  }

  function CloseIn(u: Unit, lib: Library): Library {
    lib.Close(u.clientSvc).Cancel(u.cancel).Close(u.serverSvc)
  }

  /** Closing, in any order, every unit whose id is in `ids`. */
  ghost function CloseAll(units: Units, ids: set<Id>, lib: Library): Library {
    lib.(closed := lib.closed
           + (set id | id in ids && id in units && units[id].clientSvc.Some? :: units[id].clientSvc.value)
           + (set id | id in ids && id in units && units[id].serverSvc.Some? :: units[id].serverSvc.value),
         cancelled := lib.cancelled
           + (set id | id in ids && id in units && units[id].cancel.Some? :: units[id].cancel.value))
  }

  const NO_UNIT := Unit(EMPTY_INSTANCE, [], None, None, None, false, "", 0, Dash(0, "", ""))
  const EMPTY_INSTANCE := Instance("", "", "", "", NO_SERVER, NO_CLIENT_SETTINGS, 0, 0)

  function Prepared(u: Unit, inst: Instance, tunnels: seq<Tunnel>): Unit {
    u.(inst := inst, dash := DashFor(inst), tunnels := TunnelsFor(tunnels, inst.id),
       tunnelCount := |TunnelsFor(tunnels, inst.id)|)
  }

  /** The unit a start begins with: the old one, closed, or a new one. */
  function Reusable(units: Units, id: Id): Unit {
    if id in units then CloseUnit(units[id]) else NO_UNIT
  }

  function Freed(units: Units, id: Id, lib: Library): Library {
    if id in units then CloseIn(units[id], lib) else lib
  }

  /** Starting the kernel of a prepared unit: request number `lib.requests`. */
  function Launch(u: Unit, lib: Library, fate: Fate): (Unit, Library) {
    var n := lib.requests;
    match VerdictOn(n, u.inst.IsServer(), u.tunnels, fate)
    case Accepted =>
      var started := u.(cancel := Some(n), up := true, err := "");
      (if u.inst.IsServer() then started.(serverSvc := Some(n)) else started.(clientSvc := Some(n)),
       lib.(requests := n + 1, contexts := lib.contexts + {n}, launched := lib.launched[n := Kernel(u.inst, u.tunnels)]))
    case Refused(reason) =>
      (u.(cancel := None, up := false, err := reason),
       lib.(requests := n + 1, contexts := lib.contexts + {n}, cancelled := lib.cancelled + {n}))
  }

  function SwitchedOff(units: Units, inst: Instance): Unit {
    if inst.id !in units then NO_UNIT.(inst := inst, dash := DashFor(inst)) else
    if units[inst.id].up then CloseUnit(units[inst.id]).(inst := inst) else units[inst.id].(inst := inst)
  }

  /** What Apply does with one wanted instance. */
  function Settle(w: Work, inst: Instance, tunnels: seq<Tunnel>, fate: Fate): Work {
    var id := inst.id;
    if !inst.Enabled() then
      Work(w.units[id := SwitchedOff(w.units, inst)],
           if id in w.units && w.units[id].up then CloseIn(w.units[id], w.lib) else w.lib, w.failures)
    else if id in w.units && w.units[id].up && SameConfig(w.units[id].inst, inst) then
      w.(units := w.units[id := w.units[id].(inst := inst)])
    else
      var (u', lib') := Launch(Prepared(Reusable(w.units, id), inst, tunnels), Freed(w.units, id, w.lib), fate);
      Work(w.units[id := u'], lib', w.failures + if u'.up then [] else [Failure(inst.name, inst.kind, u'.err)])
  }

  function SettleAll(w: Work, ids: seq<Id>, want: map<Id, Instance>, tunnels: seq<Tunnel>, fate: Fate): Work
    requires forall id | id in ids :: id in want
  {
    if ids == [] then w else
      Settle(SettleAll(w, ids[..|ids| - 1], want, tunnels, fate), want[ids[|ids| - 1]], tunnels, fate)
  }

  ghost function Without(units: Units, ids: set<Id>): Units {
    map id | id in units && id !in ids :: units[id]
  }

  ghost function Pruned(s: State): Work {
    var gone := s.units.Keys - Wanted(s.desired).Keys;
    Work(Without(s.units, gone), CloseAll(s.units, gone, s.lib), [])
  }

  ghost function ApplyWork(s: State, fate: Fate): Work {
    SettleAll(Pruned(s), OrderOf(s.desired), Wanted(s.desired), s.tunnels, fate)
  }

  /** Handing one live client its part of a new tunnel list. */
  function Push(w: Work, id: Id, tunnels: seq<Tunnel>, fate: Fate): Work {
    if id !in w.units || w.units[id].inst.IsServer() || w.units[id].clientSvc.None? then w else
      var u := w.units[id];
      var mine := TunnelsFor(tunnels, u.inst.id);
      var n := w.lib.requests;
      var asked := w.lib.(requests := n + 1);
      match VerdictOn(n, false, mine, fate)
      case Accepted =>
        Work(w.units[id := u.(tunnels := mine, tunnelCount := |mine|)],
             asked.(launched := asked.launched[u.clientSvc.value := Kernel(u.inst, mine)]), w.failures)
      case Refused(reason) =>
        Work(w.units, asked, w.failures + [Failure(u.inst.name, u.inst.kind, reason)])
  }

  function PushAll(w: Work, ids: seq<Id>, tunnels: seq<Tunnel>, fate: Fate): Work {
    if ids == [] then w else
      Push(PushAll(w, ids[..|ids| - 1], tunnels, fate), ids[|ids| - 1], tunnels, fate)
  }

  // ---------- the public calls ----------

  datatype Call =
    | Configure(instances: seq<Instance>, tunnels: seq<Tunnel>)
    | Apply
    | ApplyTunnels(tunnels: seq<Tunnel>)
    | Stop
    | Start

  ghost function AfterApply(s: State, fate: Fate): State {
    var w := ApplyWork(s, fate);
    s.(order := OrderOf(s.desired), units := w.units, lib := w.lib)
  }

  ghost function PushWork(s: State, tunnels: seq<Tunnel>, fate: Fate): Work {
    PushAll(Work(s.units, s.lib, []), s.order, tunnels, fate)
  }

  ghost function AfterStop(s: State): State {
    s.(order := [], units := map[], lib := CloseAll(s.units, (set id | id in s.order), s.lib))
  }

  ghost function After(s: State, call: Call, fate: Fate): State {
    match call
    case Configure(instances, tunnels) => s.(desired := instances, tunnels := tunnels)
    case Apply => AfterApply(s, fate)
    case ApplyTunnels(tunnels) =>
      var w := PushWork(s, tunnels, fate);
      s.(tunnels := tunnels, units := w.units, lib := w.lib)
    case Stop => AfterStop(s)
    case Start => AfterApply(AfterStop(s), fate)
  }

  ghost function Run(calls: seq<Call>, fate: Fate): State {
    if calls == [] then INITIAL else After(Run(calls[..|calls| - 1], fate), calls[|calls| - 1], fate)
  }
}
