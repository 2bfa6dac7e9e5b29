/** The panel from its files to any sequence of requests. */
module PanelRuns {
  import opened Text
  import opened Model
  import opened Store
  import opened InstanceRules
  import opened ImportRules
  import opened Panel
  import opened TunnelRequests
  import opened Startup
  import opened Settings
  import opened PanelSteps
  import opened Removals

  // ---------- one request ----------

  ghost function Now(server: Server): Moment
    requires server.Valid()
    reads server, server.app, server.app.instances, server.app.tunnels
  {
    Moment(server.app.instances.items, server.app.tunnels.items, Goes(server.app.instances.writable, server.app.instances.flushes))
  }

  /** A request for a tunnel without an id does not reach the handlers: the path would not match. */
  method Handle(server: Server, r: Request, w: World) returns (ghost went: Option<string>)
    requires server.Valid() && Sane(w)
    modifies server.app.instances, server.app.tunnels
    ensures server.Valid() && Step(r, w, old(Now(server)), Now(server), went)
  {
    went := None;
    match r {
      case SaveInstance(_) => HandleSave(server, r, w);
      case ToggleInstance(_, _) => HandleToggle(server, r, w);
      case DeleteInstance(_) => HandleDelete(server, r, w);
      case AddTunnel(_) => HandleAdd(server, r, w);
      case UpdateTunnel(_, _) => HandleUpdate(server, r, w);
      case ToggleTunnel(_) => HandleToggleTunnel(server, r, w);
      case DeleteTunnel(_) => HandleDeleteTunnel(server, r, w);
      case Import(_, _, _, _, _) => went := HandleImport(server, r, w);
      case ChangeSettings(_, _) => HandleSettings(server, r, w);
    }
  }

  method HandleSave(server: Server, r: Request, w: World)
    requires server.Valid() && Sane(w) && r.SaveInstance?
    modifies server.app.instances
    ensures server.Valid() && Step(r, w, old(Now(server)), Now(server), None)
  {
    ghost var b := Now(server);
    var saved := server.app.SaveInstance(r.inst, w.id, w.now, w.later);
    SaveStep(r, w, b, Now(server));
  }

  method HandleToggle(server: Server, r: Request, w: World)
    requires server.Valid() && Sane(w) && r.ToggleInstance?
    modifies server.app.instances
    ensures server.Valid() && Step(r, w, old(Now(server)), Now(server), None)
  {
    ghost var b := Now(server);
    var saved := server.app.ToggleInstance(r.instance, r.enabled, w.now, w.later);
    ToggleStep(r, w, b, Now(server), r.instance, r.enabled);
  }

  method HandleDelete(server: Server, r: Request, w: World)
    requires server.Valid() && Sane(w) && r.DeleteInstance?
    modifies server.app.instances, server.app.tunnels
    ensures server.Valid() && Step(r, w, old(Now(server)), Now(server), None)
  {
    ghost var b := Now(server);
    var removed, err := server.app.DeleteInstance(r.instance);
    ghost var a := Now(server);
    if a.instances == b.instances - {r.instance} && a.tunnels == Disowned(b.tunnels, r.instance) {
      DeleteStep(r, w, b, a, r.instance);
    } else if r.instance in b.instances {
      ghost var steps :| OneByOne(steps, OwnedBy(b.tunnels, r.instance))
                         && steps[0] == b.tunnels && steps[|steps| - 1] == a.tunnels;
      InBetween(steps, OwnedBy(b.tunnels, r.instance), |steps| - 1);
      LossStep(r, w, b, a);
    } else {
      LossStep(r, w, b, a);
    }
  }

  method HandleAdd(server: Server, r: Request, w: World)
    requires server.Valid() && Sane(w) && r.AddTunnel?
    modifies server.app.tunnels
    ensures server.Valid() && Step(r, w, old(Now(server)), Now(server), None)
  {
    ghost var b, refused := Now(server), Rejects(server.app.instances.items, server.app.tunnels.items, r.tunnel, w.id, "");
    var saved := server.AddTunnel(r.tunnel, w.id, w.now, w.later);
    ghost var a := Now(server);
    if refused {
      LossStep(r, w, b, a);
    } else {
      ghost var v :| PutsThis(b.instances, b.tunnels, a.tunnels, r.tunnel, w.id, "", w.now, w.later, v);
      PutStep(r, w, b, a, r.tunnel, w.id, "", v);
    }
  }

  method HandleUpdate(server: Server, r: Request, w: World)
    requires server.Valid() && Sane(w) && r.UpdateTunnel?
    modifies server.app.tunnels
    ensures server.Valid() && Step(r, w, old(Now(server)), Now(server), None)
  {
    ghost var b, t := Now(server), r.tunnel.(id := r.id);
    ghost var refused := r.id == "" || r.id !in b.tunnels || Rejects(b.instances, b.tunnels, t, r.id, r.id);
    if r.id != "" {
      var saved := server.UpdateTunnel(r.id, r.tunnel, w.now, w.later);
    }
    ghost var a := Now(server);
    if refused {
      LossStep(r, w, b, a);
    } else {
      ghost var v :| PutsThis(b.instances, b.tunnels, a.tunnels, t, r.id, r.id, w.now, w.later, v);
      PutStep(r, w, b, a, t, r.id, r.id, v);
    }
  }

  /** The tunnels hold one more that the panel accepted. */
  lemma PutStep(r: Request, w: World, b: Moment, a: Moment, t: Tunnel, newID: string, selfID: string, v: Tunnel)
    requires Quiet(r) && a.instances == b.instances && Preserves(b.instances, b.tunnels, a.instances, a.tunnels)
    requires PutsThis(b.instances, b.tunnels, a.tunnels, t, newID, selfID, w.now, w.later, v)
    ensures Step(r, w, b, a, None)
  {
    OneCarrier(b.instances, t.instanceID, v.instanceID, v.instanceID);
    StoreStep(r, w, b, a, v.id, a.tunnels[v.id]);
  }

  method HandleToggleTunnel(server: Server, r: Request, w: World)
    requires server.Valid() && Sane(w) && r.ToggleTunnel?
    modifies server.app.tunnels
    ensures server.Valid() && Step(r, w, old(Now(server)), Now(server), None)
  {
    ghost var b := Now(server);
    if r.id != "" {
      var saved := server.ToggleTunnel(r.id, w.now, w.later);
    }
    ghost var a := Now(server);
    if r.id != "" && r.id in b.tunnels {
      StoreStep(r, w, b, a, r.id, a.tunnels[r.id]);
    } else {
      LossStep(r, w, b, a);
    }
  }

  method HandleDeleteTunnel(server: Server, r: Request, w: World)
    requires server.Valid() && Sane(w) && r.DeleteTunnel?
    modifies server.app.tunnels
    ensures server.Valid() && Step(r, w, old(Now(server)), Now(server), None)
  {
    ghost var b := Now(server);
    if r.id != "" {
      var err := server.DeleteTunnel(r.id);
    }
    LossStep(r, w, b, Now(server));
  }

  method HandleImport(server: Server, r: Request, w: World) returns (ghost went: Option<string>)
    requires server.Valid() && Sane(w) && r.Import?
    modifies server.app.instances, server.app.tunnels
    ensures server.Valid() && Step(r, w, old(Now(server)), Now(server), went)
  {
    ghost var b, first := Now(server), server.app.tunnels.flushes;
    var reply := server.ImportTunnels(r.proxies, r.common, r.instance, r.adopt, r.overwrite,
                                      w.id, w.more, w.now, w.later, w.clock);
    ghost var a := Now(server);
    if reply.Refused? {
      went := None;
      RefusedImportStep(r, w, b, a);
    } else {
      went := Some(reply.target);
      ghost var parsed :| IsParsed(r.proxies, parsed) && Imported(b.tunnels, a.tunnels, parsed, r.overwrite, reply,
                                                                  w.more, w.clock, server.app.tunnels.writable, first);
      ImportStep(r, w, b, a, reply.target, parsed);
    }
  }

  method HandleSettings(server: Server, r: Request, w: World)
    requires server.Valid() && Sane(w) && r.ChangeSettings?
    modifies server.app.instances
    ensures server.Valid() && Step(r, w, old(Now(server)), Now(server), None)
  {
    ghost var b := Now(server);
    ghost var between := SaveSettings(server.app, r.server, r.client, w.now, w.later, w.last);
    SettingsStep(r, w, b, between, Now(server));
  }

  /** SyncDefaultInstances, as far as the next request can tell. */
  method SaveSettings(app: App, server: Option<ServerConfig -> ServerConfig>, client: Option<ClientConfig -> ClientConfig>,
                      now: int, later: int, last: int)
    returns (ghost between: Instances)
    requires app.Valid()
    modifies app.instances
    ensures app.Valid() && EditsFirst(old(app.instances.items), between, true, ServerEdit(server), later)
    ensures app.instances.items == between || EditsFirst(between, app.instances.items, false, ClientEdit(client), last)
  {
    var err;
    err, between := SyncDefaultInstances(app, server, client, now, later, last);
  }

  // ---------- any sequence of requests ----------

  /** The moments a sequence of requests goes through, one step per request. */
  ghost predicate IsHistory(requests: seq<Request>, world: nat -> World, moments: seq<Moment>, went: seq<Option<string>>) {
    && |moments| == |requests| + 1 && |went| == |requests|
    && forall i, j | 0 <= i < |requests| && j == i + 1 :: Step(requests[i], world(i), moments[i], moments[j], went[i])
  }

  /** Whatever is asked of the panel, in whatever order, and whichever writes fail. */
  method Serve(server: Server, requests: seq<Request>, world: nat -> World)
    returns (ghost moments: seq<Moment>, ghost went: seq<Option<string>>)
    requires server.Valid() && forall n :: Sane(world(n))
    modifies server.app.instances, server.app.tunnels
    ensures server.Valid() && IsHistory(requests, world, moments, went)
    ensures moments[0] == old(Now(server)) && moments[|requests|] == Now(server)
  {
    moments, went := [Now(server)], [];
    for i := 0 to |requests|
      invariant server.Valid() && IsHistory(requests[..i], world, moments, went)
      invariant moments[0] == old(Now(server)) && moments[i] == Now(server)
    {
      ghost var to := Handle(server, requests[i], world(i));
      HistoryNext(requests, i, world, moments, went, Now(server), to);
      moments, went := moments + [Now(server)], went + [to];
    }
    assert requests[..|requests|] == requests;
  }

  lemma HistoryNext(requests: seq<Request>, n: nat, world: nat -> World, moments: seq<Moment>, went: seq<Option<string>>,
                    next: Moment, to: Option<string>)
    requires n < |requests| && IsHistory(requests[..n], world, moments, went) && Step(requests[n], world(n), moments[n], next, to)
    ensures IsHistory(requests[..n + 1], world, moments + [next], went + [to])
  {
    var rs, ms, ws := requests[..n + 1], moments + [next], went + [to];
    forall i, j | 0 <= i < |rs| && j == i + 1 ensures Step(rs[i], world(i), ms[i], ms[j], ws[i]) {
      if i < n { assert Step(requests[..n][i], world(i), moments[i], moments[j], went[i]); }
    }
  }

  lemma {:induction false} KindsStayKnown(requests: seq<Request>, world: nat -> World, moments: seq<Moment>,
                                          went: seq<Option<string>>, n: nat)
    requires IsHistory(requests, world, moments, went) && n <= |requests| && KindsKnown(moments[0].instances)
    ensures KindsKnown(moments[n].instances)
  {
    if n != 0 {
      KindsStayKnown(requests, world, moments, went, n - 1);
      assert Step(requests[n - 1], world(n - 1), moments[n - 1], moments[n], went[n - 1]);
    }
  }

  /** No conflict ever gets in, exactly when the settings page is never used to make one. */
  lemma {:induction false} ConflictsStayOut(requests: seq<Request>, world: nat -> World, moments: seq<Moment>,
                                            went: seq<Option<string>>, n: nat)
    requires IsHistory(requests, world, moments, went) && n <= |requests|
    requires KindsKnown(moments[0].instances) && NoConflicts(moments[0].instances)
    ensures (forall i | 0 <= i <= n :: NoConflicts(moments[i].instances)) <==>
            forall i | 0 <= i < n :: !MakesConflict(requests[i], moments[i])
  {
    if n != 0 {
      var m := n - 1;
      ConflictsStayOut(requests, world, moments, went, m);
      KindsStayKnown(requests, world, moments, went, m);
      assert Step(requests[m], world(m), moments[m], moments[n], went[m]);
      if forall i | 0 <= i < n :: !MakesConflict(requests[i], moments[i]) {
        assert NoConflicts(moments[m].instances) && NoConflicts(moments[n].instances);
      }
      if forall i | 0 <= i <= n :: NoConflicts(moments[i].instances) {
        assert NoConflicts(moments[m].instances) && NoConflicts(moments[n].instances);
      }
    }
  }

  /** Every owner always exists, exactly when no import goes into an instance that is not there. */
  lemma {:induction false} OwnersStay(requests: seq<Request>, world: nat -> World, moments: seq<Moment>,
                                      went: seq<Option<string>>, n: nat)
    requires IsHistory(requests, world, moments, went) && n <= |requests|
    requires OwnersExist(moments[0].instances, moments[0].tunnels)
    ensures (forall i | 0 <= i <= n :: OwnersExist(moments[i].instances, moments[i].tunnels)) <==>
            forall i | 0 <= i < n :: !Strands(requests[i], moments[i], went[i])
  {
    if n != 0 {
      var m := n - 1;
      OwnersStay(requests, world, moments, went, m);
      assert Step(requests[m], world(m), moments[m], moments[n], went[m]);
      if forall i | 0 <= i < n :: !Strands(requests[i], moments[i], went[i]) {
        assert OwnersExist(moments[m].instances, moments[m].tunnels) && OwnersExist(moments[n].instances, moments[n].tunnels);
      }
      if forall i | 0 <= i <= n :: OwnersExist(moments[i].instances, moments[i].tunnels) {
        assert OwnersExist(moments[m].instances, moments[m].tunnels) && OwnersExist(moments[n].instances, moments[n].tunnels);
      }
    }
  }

  /** Every owner is always a client, exactly when no import goes to anything else and no owner is saved as a server. */
  lemma {:induction false} OwnersStayClients(requests: seq<Request>, world: nat -> World, moments: seq<Moment>,
                                             went: seq<Option<string>>, n: nat)
    requires IsHistory(requests, world, moments, went) && n <= |requests|
    requires KindsKnown(moments[0].instances) && OwnersAreClients(moments[0].instances, moments[0].tunnels)
    ensures (forall i | 0 <= i <= n :: OwnersAreClients(moments[i].instances, moments[i].tunnels)) <==>
            forall i | 0 <= i < n :: !Misplaces(requests[i], world(i), moments[i], went[i])
  {
    if n != 0 {
      var m := n - 1;
      OwnersStayClients(requests, world, moments, went, m);
      KindsStayKnown(requests, world, moments, went, m);
      assert Step(requests[m], world(m), moments[m], moments[n], went[m]);
      if forall i | 0 <= i < n :: !Misplaces(requests[i], world(i), moments[i], went[i]) {
        assert OwnersAreClients(moments[m].instances, moments[m].tunnels);
        assert OwnersAreClients(moments[n].instances, moments[n].tunnels);
      }
      if forall i | 0 <= i <= n :: OwnersAreClients(moments[i].instances, moments[i].tunnels) {
        assert OwnersAreClients(moments[m].instances, moments[m].tunnels);
        assert OwnersAreClients(moments[n].instances, moments[n].tunnels);
      }
    }
  }

  /** With fresh identifiers names always stay distinct, exactly when no overwriting import brings one that is in use. */
  lemma {:induction false} NamesStayDistinct(requests: seq<Request>, world: nat -> World, moments: seq<Moment>,
                                             went: seq<Option<string>>, n: nat)
    requires IsHistory(requests, world, moments, went) && n <= |requests| && NamesDistinct(moments[0].tunnels)
    requires forall i | 0 <= i < |requests| :: FreshIds(world(i).more, moments[i].tunnels)
    ensures (forall i | 0 <= i <= n :: NamesDistinct(moments[i].tunnels)) <==>
            forall i | 0 <= i < n :: !Doubles(requests[i], moments[i], went[i])
  {
    if n != 0 {
      var m := n - 1;
      NamesStayDistinct(requests, world, moments, went, m);
      assert Step(requests[m], world(m), moments[m], moments[n], went[m]);
      if forall i | 0 <= i < n :: !Doubles(requests[i], moments[i], went[i]) {
        assert NamesDistinct(moments[m].tunnels) && NamesDistinct(moments[n].tunnels);
      }
      if forall i | 0 <= i <= n :: NamesDistinct(moments[i].tunnels) {
        assert NamesDistinct(moments[m].tunnels) && NamesDistinct(moments[n].tunnels);
      }
    }
  }

  /** Whatever the identifiers, names stay distinct as long as no import overwrites. */
  lemma {:induction false} PlainNamesStayDistinct(requests: seq<Request>, world: nat -> World, moments: seq<Moment>,
                                                  went: seq<Option<string>>, n: nat)
    requires IsHistory(requests, world, moments, went) && n <= |requests| && NamesDistinct(moments[0].tunnels)
    requires forall i | 0 <= i < |requests| :: !(requests[i].Import? && requests[i].overwrite)
    ensures NamesDistinct(moments[n].tunnels)
  {
    if n != 0 {
      PlainNamesStayDistinct(requests, world, moments, went, n - 1);
      assert Step(requests[n - 1], world(n - 1), moments[n - 1], moments[n], went[n - 1]);
    }
  }

  // ---------- from the files ----------

  /** What a file holds; one that is not there holds nothing. */
  function Held<T>(file: Option<seq<T>>): seq<T> {
    if file.Some? then file.value else []
  }

  /** A file that is not there is written first. */
  ghost predicate FileOpens<T>(file: Option<seq<T>>, writable: nat -> bool) {
    file.None? ==> Goes(writable, 0)
  }

  function WritesToOpen<T>(file: Option<seq<T>>): nat {
    if file.None? then 1 else 0
  }

  /** What start-up is given: the file of instances and the old configuration, and what it needs to create instances. */
  datatype Start = Start(
    file: Option<seq<Instance>>,
    cfg: OldConfig,
    hasTunnels: bool,
    writable: nat -> bool,
    serverID: string,
    clientID: string,
    now: int,
    later: int)
  {
    ghost predicate Valid() { serverID != "" && clientID != "" && serverID != clientID }

    ghost function Loads(): Instances { Loaded(INSTANCES, Held(file)) }

    /** Instances that were there have their tokens repaired; if there were none, the old configuration is migrated. */
    ghost predicate Succeeds() {
      FileOpens(file, writable) && (Loads() == map[] ==> MigrationGoes(cfg, hasTunnels, writable, WritesToOpen(file)))
    }

    ghost function Migrates(): Instances {
      Migrated(cfg, hasTunnels, serverID, clientID, now, later, writable, WritesToOpen(file))
    }

    ghost predicate Leaves(items: Instances) {
      if Loads() == map[] then items == Migrates() else IsFixed(Loads(), items, later)
    }

    /** The instances before the tokens are repaired. */
    ghost function Given(): Instances { if Loads() == map[] then Migrates() else Loads() }
  }

  /** loadInstances. */
  method LoadInstances(start: Start) returns (coll: Collection<Instance>, err: Option<string>)
    requires start.Valid()
    ensures fresh(coll) && coll.Valid() && coll.entity == INSTANCES
    ensures err.None? <==> start.Succeeds()
    ensures err.None? ==> start.Leaves(coll.items)
    ensures NoConflicts(start.Loads()) ==> NoConflicts(coll.items)
    ensures KindsKnown(start.Loads()) ==> KindsKnown(coll.items)
  {
    RecordsAreLawful();
    coll, err := Collection<Instance>.Open(INSTANCES, start.writable, start.file);
    if err.Some? {
      return;
    }
    if |coll.items| > 0 {
      FixTokenConsistency(coll, start.now, start.later);
    } else {
      assert coll.items.Keys == {};
      err := MigrateInstances(coll, start.cfg, start.hasTunnels, start.serverID, start.clientID, start.now, start.later);
    }
  }

  ghost predicate HasClients(m: Instances) {
    exists id :: id in m && !m[id].IsServer()
  }

  lemma SameKindsSameAnswer(a: Instances, b: Instances)
    requires a.Keys == b.Keys && forall id | id in a :: a[id].IsServer() == b[id].IsServer()
    ensures HasClients(a) <==> HasClients(b)
  {
    if id :| id in a && !a[id].IsServer() { assert id in b; }
    if id :| id in b && !b[id].IsServer() { assert id in a; }
  }

  /** Start-up changes no kinds. */
  lemma ClientsStay(start: Start, items: Instances)
    requires start.Leaves(items) && Keyed(INSTANCES, start.Loads())
    ensures HasClients(items) <==> HasClients(start.Given())
    ensures start.Loads().Keys <= items.Keys
  {
    if start.Loads() != map[] {
      FixingRepairs(start.Loads(), items, start.later);
      SameKindsSameAnswer(start.Loads(), items);
    }
  }

  /** The orphans are adopted if there is a client to adopt them. */
  ghost predicate TunnelsGo(m: Instances, before: Tunnels, writable: nat -> bool, first: nat) {
    HasClients(m) ==> AdoptionGoes(OrphanIDs(before), writable, first)
  }

  ghost predicate LeavesTunnels(m: Instances, before: Tunnels, after: Tunnels, later: int) {
    && (!HasClients(m) ==> after == before)
    && forall c | IsFirstOf(m, false, c) :: after == Adopted(before, before.Keys, c, later)
  }

  lemma AdoptionDecides(m: Instances, before: Tunnels, after: Tunnels, ids: set<string>, orphans: set<string>,
                        writable: nat -> bool, first: nat, done: bool, later: int)
    requires AreOrphanIDs(before, orphans)
    requires !HasClients(m) ==> done && after == before
    requires forall c | IsFirstOf(m, false, c) ::
               after == Adopted(before, ids, c, later) && IsAdoption(orphans, ids, writable, first, done)
    ensures done <==> TunnelsGo(m, before, writable, first)
    ensures done ==> LeavesTunnels(m, before, after, later)
  {
    if some :| some in m && !m[some].IsServer() {
      var c := FirstExists(m, false, some);
      OrphansAreEnough(before, orphans, c, later);
      forall o | IsFirstOf(m, false, o) ensures o == c {
        if o != c { AtMostAntisymmetric(o, c); }
      }
    }
  }

  method AdoptAtStart(app: App, now: int, later: int) returns (err: Option<string>)
    requires app.Valid()
    modifies app.tunnels
    ensures app.Valid()
    ensures err.None? <==> TunnelsGo(app.instances.items, old(app.tunnels.items), app.tunnels.writable, old(app.tunnels.flushes))
    ensures err.None? ==> LeavesTunnels(app.instances.items, old(app.tunnels.items), app.tunnels.items, later)
    ensures OwnersExist(app.instances.items, old(app.tunnels.items)) ==> OwnersExist(app.instances.items, app.tunnels.items)
  {
    ghost var m, before, first := app.instances.items, app.tunnels.items, app.tunnels.flushes;
    ghost var ids, orphans;
    err, ids, orphans := AdoptOrphanTunnels(app, now, later);
    AdoptionDecides(m, before, app.tunnels.items, ids, orphans, app.tunnels.writable, first, err.None?, later);
  }

  /** The panel over its two files. */
  method Open(start: Start, tunnels: Option<seq<Tunnel>>, writable: nat -> bool) returns (server: Option<Server>)
    requires start.Valid() && start.hasTunnels == (Held(tunnels) != [])
    ensures server.Some? <==>
            && FileOpens(tunnels, writable) && start.Succeeds()
            && TunnelsGo(start.Given(), Loaded(TUNNELS, Held(tunnels)), writable, WritesToOpen(tunnels))
    ensures server.Some? ==>
              && fresh(server.value) && fresh(server.value.app)
              && fresh(server.value.app.instances) && fresh(server.value.app.tunnels)
              && server.value.Valid()
    ensures server.Some? ==>
              var m, t := server.value.app.instances.items, server.value.app.tunnels.items;
              && start.Leaves(m) && LeavesTunnels(m, Loaded(TUNNELS, Held(tunnels)), t, start.later)
              && (NoConflicts(start.Loads()) ==> NoConflicts(m)) && (KindsKnown(start.Loads()) ==> KindsKnown(m))
              && (OwnersExist(start.Loads(), Loaded(TUNNELS, Held(tunnels))) ==> OwnersExist(m, t))
  {
    server := None;
    RecordsAreLawful();
    var tuns, err := Collection<Tunnel>.Open(TUNNELS, writable, tunnels);
    if err.Some? {
      return;
    }
    var coll;
    coll, err := LoadInstances(start);
    if err.Some? {
      return;
    }
    var app := new App(coll, tuns);
    LoadedIsKeyed(INSTANCES, Held(start.file));
    ClientsStay(start, coll.items);
    err := AdoptAtStart(app, start.now, start.later);
    if err.Some? {
      return;
    }
    var s := new Server(app);
    server := Some(s);
  }

  lemma NoOrphansGo(m: Instances, writable: nat -> bool, first: nat)
    ensures TunnelsGo(m, map[], writable, first)
  {
    assert OrphanIDs(map[]) == {};
  }

  lemma NothingLeft(m: Instances, after: Tunnels, later: int)
    requires LeavesTunnels(m, map[], after, later)
    ensures after == map[]
  {
    if some :| some in m && !m[some].IsServer() {
      var c := FirstExists(m, false, some);
      assert after.Keys == {};
    }
  }

  lemma FreshInstances(start: Start)
    requires start.file.None?
    ensures start.Loads() == map[]
    ensures start.Succeeds() <==> && Goes(start.writable, 0) && MigrationGoes(start.cfg, start.hasTunnels, start.writable, 1)
    ensures NoConflicts(start.Loads()) && KindsKnown(start.Loads())
  {
  }

  /** Both files are missing. */
  method OpenFresh(start: Start, writable: nat -> bool) returns (server: Option<Server>)
    requires start.Valid() && start.file.None? && !start.hasTunnels
    ensures server.Some? <==>
            Goes(writable, 0) && Goes(start.writable, 0) && MigrationGoes(start.cfg, false, start.writable, 1)
    ensures server.Some? ==>
              && fresh(server.value) && fresh(server.value.app)
              && fresh(server.value.app.instances) && fresh(server.value.app.tunnels)
              && server.value.Valid()
              && server.value.app.instances.items == start.Migrates() && server.value.app.tunnels.items == map[]
              && KindsKnown(start.Migrates()) && NoConflicts(start.Migrates())
  {
    FreshInstances(start);
    NoOrphansGo(start.Given(), writable, 1);
    server := Open(start, None, writable);
    if server.Some? {
      NothingLeft(server.value.app.instances.items, server.value.app.tunnels.items, start.later);
    }
  }

  /** From a fresh start, through any history. */
  method Run(start: Start, writable: nat -> bool, requests: seq<Request>, world: nat -> World)
    returns (server: Option<Server>, ghost moments: seq<Moment>, ghost went: seq<Option<string>>)
    requires start.Valid() && start.file.None? && !start.hasTunnels && forall n :: Sane(world(n))
    ensures server.Some? <==>
            Goes(writable, 0) && Goes(start.writable, 0) && MigrationGoes(start.cfg, false, start.writable, 1)
    ensures server.Some? ==>
              && server.value.Valid() && IsHistory(requests, world, moments, went) && moments[|requests|] == Now(server.value)
              && moments[0].instances == start.Migrates() && moments[0].tunnels == map[]
              && KindsKnown(moments[0].instances) && NoConflicts(moments[0].instances)
  {
    moments, went := [], [];
    server := OpenFresh(start, writable);
    if server.Some? {
      moments, went := Serve(server.value, requests, world);
    }
  }
}
