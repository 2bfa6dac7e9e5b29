/** Names and ports in conflict, told of the fields of the instances: which saves and switches the panel refuses. */
module InstanceConflicts {
  import opened Text
  import opened Model
  import opened Store
  import opened InstanceRules
  import opened Panel

  /** A listener of the server uses the port: one of six fields holds it, and it is not 0 or less, which means none. */
  ghost predicate Binds(s: ServerConfig, port: int) {
    && port > 0
    && (s.bindPort == port || s.dashboardPort == port || s.vhostHTTPPort == port
        || s.vhostHTTPSPort == port || s.kcpBindPort == port || s.quicBindPort == port)
  }

  ghost predicate BindACommonPort(a: ServerConfig, b: ServerConfig) {
    exists port :: Binds(a, port) && Binds(b, port)
  }

  /** Both are servers, both are switched on, and some port is used by both. */
  ghost predicate PortClash(a: Instance, b: Instance) {
    a.kind == "server" && b.kind == "server" && a.server.enable && b.server.enable && BindACommonPort(a.server, b.server)
  }

  lemma {:induction false} PositiveOnes(ps: seq<int>, p: int)
    ensures p in Positive(ps) <==> p in ps && p > 0
  {
    if ps != [] {
      PositiveOnes(ps[1..], p);
      assert ps == [ps[0]] + ps[1..];
    }
  }

  lemma PortsAreBound(i: Instance, p: int)
    ensures p in Ports(i) <==> i.kind == "server" && Binds(i.server, p)
  {
    PositiveOnes([i.server.bindPort, i.server.dashboardPort, i.server.vhostHTTPPort,
                  i.server.vhostHTTPSPort, i.server.kcpBindPort, i.server.quicBindPort], p);
  }

  lemma SharingIsPortClash(a: Instance, b: Instance)
    ensures SharePort(a, b) <==> PortClash(a, b)
  {
    if SharePort(a, b) {
      var p :| p in Ports(a) && p in Ports(b);
      PortsAreBound(a, p);
      PortsAreBound(b, p);
    }
    if PortClash(a, b) {
      var p :| Binds(a.server, p) && Binds(b.server, p);
      PortsAreBound(a, p);
      PortsAreBound(b, p);
      assert p in Ports(a) && p in Ports(b);
    }
  }

  // ---------- collections without conflicts ----------

  /** In a collection without conflicts no port is used by two different servers that are switched on. */
  lemma NoPortIsBoundTwice(m: Instances, a: string, b: string, port: int)
    requires NoConflicts(m) && a in m && b in m && a != b
    requires m[a].kind == "server" && m[a].server.enable && m[b].kind == "server" && m[b].server.enable
    ensures !(Binds(m[a].server, port) && Binds(m[b].server, port))
  {
    SharingIsPortClash(m[a], m[b]);
    assert !Clash(m[a], m[b]);
    assert !BindACommonPort(m[a].server, m[b].server);
  }

  /** Two different instances of one kind have different names, white space around them and upper case aside. */
  lemma NoNameIsUsedTwice(m: Instances, a: string, b: string)
    requires NoConflicts(m) && a in m && b in m && a != b && m[a].kind == m[b].kind
    ensures Lower(Trim(m[a].name)) != Lower(Trim(m[b].name))
  {
    assert !Clash(m[a], m[b]);
  }

  /** Conflicts are shared names and shared ports, and nothing else. */
  lemma NoConflictsExactlyWhen(m: Instances)
    ensures NoConflicts(m) <==>
            && "" !in m
            && forall a, b | a in m && b in m && a != b ::
                 && !(m[a].kind == m[b].kind && Lower(Trim(m[a].name)) == Lower(Trim(m[b].name)))
                 && !PortClash(m[a], m[b])
  {
    forall a, b | a in m && b in m && a != b
      ensures Clash(m[a], m[b]) <==>
              (m[a].kind == m[b].kind && Lower(Trim(m[a].name)) == Lower(Trim(m[b].name))) || PortClash(m[a], m[b])
    {
      SharingIsPortClash(m[a], m[b]);
    }
  }

  // ---------- what a save is refused for ----------

  /** The settings an instance of this kind needs. */
  ghost predicate HasItsSettings(kind: string, s: ServerConfig, c: ClientConfig) {
    if kind == "server" then
      && 1 <= s.bindPort <= 65535 && 0 <= s.dashboardPort <= 65535
      && s.dashboardPort != s.bindPort && s.vhostHTTPPort != s.bindPort && s.vhostHTTPSPort != s.bindPort
    else
      kind == "client" && Trim(c.serverAddr) != "" && 1 <= c.serverPort <= 65535
  }

  lemma FitExactlyWhen(i: Instance)
    ensures Validate(i).None? <==> Trim(i.name) != "" && HasItsSettings(i.kind, i.server, i.client)
  {
  }

  /** Some other instance has the name, or a port. */
  ghost predicate Taken(m: Instances, id: string, kind: string, name: string, s: ServerConfig) {
    exists o :: o in m && o != id && m[o].kind == kind
                && (Lower(Trim(m[o].name)) == Lower(name)
                    || (kind == "server" && s.enable && m[o].server.enable && BindACommonPort(m[o].server, s)))
  }

  lemma ObjectedWhenTaken(m: Instances, i: Instance)
    ensures Objected(m, i) <==> Taken(m, i.id, i.kind, i.name, i.server)
  {
    if o :| o in m && o != i.id && Objects(m[o], i) {
      SharingIsPortClash(m[o], i);
    }
    if Taken(m, i.id, i.kind, i.name, i.server) {
      var o :| o in m && o != i.id && m[o].kind == i.kind
               && (Lower(Trim(m[o].name)) == Lower(i.name)
                   || (i.kind == "server" && i.server.enable && m[o].server.enable && BindACommonPort(m[o].server, i.server)));
      SharingIsPortClash(m[o], i);
      assert Objects(m[o], i);
    }
  }

  /** The bind address does not matter for what a save is refused for. */
  lemma SaveIsAdmittedExactlyWhen(m: Instances, inst: Instance)
    ensures var kind, name := Lower(Trim(inst.kind)), Trim(inst.name);
      Admits(m, inst) <==> name != "" && HasItsSettings(kind, inst.server, inst.client)
                           && !Taken(m, inst.id, kind, name, inst.server)
  {
    var i := Prepared(inst);
    TrimIdempotent(inst.name);
    ObjectedWhenTaken(m, i);
    assert BoundAlike(i.server, inst.server);
    TakenAlike(m, i, inst.server);
  }

  ghost predicate BoundAlike(a: ServerConfig, b: ServerConfig) {
    a.enable == b.enable && forall port :: Binds(a, port) <==> Binds(b, port)
  }

  lemma TakenAlike(m: Instances, i: Instance, s: ServerConfig)
    requires BoundAlike(i.server, s)
    ensures Taken(m, i.id, i.kind, i.name, i.server) <==> Taken(m, i.id, i.kind, i.name, s)
  {
    forall o | o in m ensures BindACommonPort(m[o].server, i.server) <==> BindACommonPort(m[o].server, s) {
    }
  }

  /** Switching on is refused for the same reasons; the name is taken as it stands. Switching off is never refused. */
  lemma ToggleIsAdmittedExactlyWhen(m: Instances, id: string, enabled: bool)
    requires id in m && m[id].id == id
    ensures var i := m[id];
      AdmitsToggle(m, id, enabled) <==>
        !enabled || (Trim(i.name) != "" && HasItsSettings(i.kind, i.server, i.client)
                     && !Taken(m, id, i.kind, i.name, i.server.(enable := true)))
  {
    var on := m[id].SetEnabled(true);
    ObjectedWhenTaken(m, on);
    if m[id].kind != "server" {
      assert Taken(m, id, on.kind, on.name, on.server) <==> Taken(m, id, on.kind, on.name, on.server.(enable := true));
    }
  }

  // ---------- what is stored ----------

  lemma NamedFields(inst: Instance, newID: string)
    ensures var i := Named(inst, newID);
      && i.id == (if inst.id == "" then newID else inst.id) && i.name == Trim(inst.name) && i.note == Trim(inst.note)
      && i.kind == Lower(Trim(inst.kind)) && i.client == inst.client && i.createdAt == inst.createdAt
      && i.server == inst.server.(bindAddr := if i.kind == "server" && Trim(inst.server.bindAddr) == "" then "0.0.0.0"
                                              else inst.server.bindAddr)
  {
  }

  lemma StampedFields(i: Instance, id: string, created: int, updated: int)
    ensures INSTANCES.stamp(i, id, created, updated)
            == i.(id := id, createdAt := if created != 0 then created else i.createdAt, updatedAt := updated)
  {
  }

  /** The record a save leaves: name, note and kind cleaned up, a blank bind address opened to all, the rest as given. */
  lemma SavedRecord(m: Instances, inst: Instance, newID: string, now: int, later: int)
    requires Admits(m, inst) && (if inst.id == "" then newID else inst.id) != ""
    ensures var id, after := if inst.id == "" then newID else inst.id, SavedIn(m, inst, newID, now, later);
      && after.Keys == m.Keys + {id} && (forall o | o in m && o != id :: after[o] == m[o])
      && var i := after[id];
      && i.id == id && i.name == Trim(inst.name) && i.note == Trim(inst.note) && i.kind == Lower(Trim(inst.kind))
      && i.client == inst.client
      && i.server == inst.server.(bindAddr := if i.kind == "server" && Trim(inst.server.bindAddr) == "" then "0.0.0.0"
                                              else inst.server.bindAddr)
      && i.updatedAt == later
      && i.createdAt == (if id in m && m[id].createdAt != 0 then m[id].createdAt
                         else if id !in m && now != 0 then now else inst.createdAt)
  {
    var i := Named(inst, newID);
    NamedFields(inst, newID);
    StampedFields(i, i.id, if i.id in m then m[i.id].createdAt else now, later);
  }

  /** The record a switch leaves: the one flag of its kind is turned, and the time noted. */
  lemma ToggledRecord(m: Instances, id: string, enabled: bool, later: int)
    requires id in m && m[id].id == id != "" && AdmitsToggle(m, id, enabled)
    ensures var after := ToggledIn(m, id, enabled, later);
      && after.Keys == m.Keys && (forall o | o in m && o != id :: after[o] == m[o])
      && after[id] == (if m[id].kind == "server" then m[id].(server := m[id].server.(enable := enabled))
                       else m[id].(client := m[id].client.(enable := enabled))).(updatedAt := later)
  {
  }

  // ---------- edits of an instance ----------

  ghost predicate EditedAs(was: Instance, now: Instance, later: int) {
    && now.id == was.id && now.name == Trim(was.name) && now.note == Trim(was.note) && now.kind == Lower(Trim(was.kind))
    && now.createdAt == was.createdAt && now.updatedAt == later
  }

  /** An edit replaces one of the two configurations, cleans up name, note and kind, and touches nothing else. */
  lemma EditedRecord(m: Instances, id: string, edit: Edit, later: int)
    requires id in m && m[id].id == id && Updates(m, id, edit)
    ensures var after := Updated(m, id, edit, later);
      && after.Keys == m.Keys && (forall o | o in m && o != id :: after[o] == m[o]) && EditedAs(m[id], after[id], later)
      && match edit
         case EditServer(f) => after[id].server == f(m[id].server) && after[id].client == m[id].client
         case EditClient(f) => after[id].server == m[id].server && after[id].client == f(m[id].client)
  {
  }

  lemma EditIs(i: Instance, edit: Edit)
    ensures var now := edit.Of(i);
      && now.name == Trim(i.name) && now.kind == Lower(Trim(i.kind))
      && now.server == (if edit.EditServer? then edit.server(i.server) else i.server)
      && now.client == (if edit.EditClient? then edit.client(i.client) else i.client)
  {
  }

  /** An edit fails for want of the instance, of its name, or of settings that are fit; never for a conflict. */
  lemma EditGoesThroughExactlyWhen(m: Instances, id: string, edit: Edit)
    ensures Updates(m, id, edit) <==>
            && id in m && id != "" && Trim(m[id].name) != ""
            && HasItsSettings(Lower(Trim(m[id].kind)), if edit.EditServer? then edit.server(m[id].server) else m[id].server,
                              if edit.EditClient? then edit.client(m[id].client) else m[id].client)
  {
    if id in m {
      EditIs(m[id], edit);
      FitExactlyWhen(edit.Of(m[id]));
      TrimIdempotent(m[id].name);
    }
  }
}
