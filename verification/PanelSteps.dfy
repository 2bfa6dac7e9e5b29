/** What one request does to the panel's data: which rules it keeps, and exactly which requests break one. */
module PanelSteps {
  import opened Text
  import opened Model
  import opened Store
  import opened InstanceRules
  import opened ImportRules
  import opened Panel
  import opened TunnelRequests
  import opened Settings

  /** Every request that changes instances or tunnels. */
  datatype Request =
    | SaveInstance(inst: Instance)
    | ToggleInstance(instance: string, enabled: bool)
    | DeleteInstance(instance: string)
    | AddTunnel(tunnel: Tunnel)
    | UpdateTunnel(id: string, tunnel: Tunnel)
    | ToggleTunnel(id: string)
    | DeleteTunnel(id: string)
    | Import(proxies: seq<Option<Tunnel>>, common: ParsedCommon, instance: string, adopt: bool, overwrite: bool)
    | ChangeSettings(server: Option<ServerConfig -> ServerConfig>, client: Option<ClientConfig -> ClientConfig>)

  /** Identifiers and times from outside: `more(n)` names the tunnels of an import. */
  datatype World = World(id: string, more: nat -> string, now: int, later: int, last: int, clock: Clock)

  ghost predicate Sane(w: World) {
    w.id != "" && NoneBlank(w.more)
  }

  /** The data between two requests, and whether the next write of the instances will go through. */
  datatype Moment = Moment(instances: Instances, tunnels: Tunnels, writes: bool)

  // ---------- the requests that break a rule ----------

  /** Where the tunnels of an import went; nowhere if the request was refused, or was no import. */
  ghost predicate WentTo(r: Request, w: World, b: Moment, went: Option<string>) {
    if r.Import? then
      && (went.None? <==> ImportRefused(b.instances, r.common, r.instance, r.adopt, b.writes))
      && (went.Some? ==> IsTarget(b.instances, r.common, r.instance, w.id, went.value))
    else went.None?
  }

  /** The settings page moves the first server to a port or a name that is taken. */
  ghost predicate MakesConflict(r: Request, b: Moment) {
    r.ChangeSettings? && r.server.Some? && Collides(b.instances, r.server.value)
  }

  /** An import puts tunnels into an instance that is named but not there. */
  ghost predicate Strands(r: Request, b: Moment, went: Option<string>) {
    && r.Import? && went.Some? && Trim(r.instance) != "" && Trim(r.instance) !in b.instances
    && Adds(r.proxies, ExistingNames(b.tunnels, went.value), r.overwrite)
  }

  /** An import puts tunnels into an instance that is named and is not a client, or a save turns an owner into a server. */
  ghost predicate Misplaces(r: Request, w: World, b: Moment, went: Option<string>) {
    || (r.Import? && went.Some? && Trim(r.instance) != "" && !IsClient(b.instances, Trim(r.instance))
        && Adds(r.proxies, ExistingNames(b.tunnels, went.value), r.overwrite))
    || (r.SaveInstance? && Admits(b.instances, r.inst) && Prepared(r.inst).IsServer()
        && Named(r.inst, w.id).id != "" && OwnedBy(b.tunnels, Named(r.inst, w.id).id) != {})
  }

  /** An overwriting import brings a name that is in use; nothing is overwritten, the name is there twice. */
  ghost predicate Doubles(r: Request, b: Moment, went: Option<string>) {
    && r.Import? && went.Some? && r.overwrite
    && exists k :: 0 <= k < |r.proxies| && r.proxies[k].Some? && r.proxies[k].value.name in ExistingNames(b.tunnels, went.value)
  }

  /** A request that keeps every rule, apart from those it breaks. */
  ghost predicate Step(r: Request, w: World, b: Moment, a: Moment, went: Option<string>) {
    && WentTo(r, w, b, went)
    && InstancesStep(r, b, a)
    && OwnersStep(r, w, b, a, went)
    && NamesStep(r, w, b, a, went)
  }

  ghost predicate InstancesStep(r: Request, b: Moment, a: Moment) {
    KindsKnown(b.instances) ==>
      && KindsKnown(a.instances)
      && (NoConflicts(b.instances) ==> (NoConflicts(a.instances) <==> !MakesConflict(r, b)))
  }

  ghost predicate OwnersStep(r: Request, w: World, b: Moment, a: Moment, went: Option<string>) {
    && (OwnersExist(b.instances, b.tunnels) ==> (OwnersExist(a.instances, a.tunnels) <==> !Strands(r, b, went)))
    && (KindsKnown(b.instances) && OwnersAreClients(b.instances, b.tunnels) ==>
          (OwnersAreClients(a.instances, a.tunnels) <==> !Misplaces(r, w, b, went)))
  }

  ghost predicate NamesStep(r: Request, w: World, b: Moment, a: Moment, went: Option<string>) {
    NamesDistinct(b.tunnels) ==>
      && (!(r.Import? && r.overwrite) ==> NamesDistinct(a.tunnels))
      && (FreshIds(w.more, b.tunnels) ==> (NamesDistinct(a.tunnels) <==> !Doubles(r, b, went)))
  }

  // ---------- requests that break nothing ----------

  predicate Quiet(r: Request) {
    !r.Import? && !r.ChangeSettings? && !r.SaveInstance?
  }

  lemma QuietStep(r: Request, w: World, b: Moment, a: Moment)
    requires Quiet(r) && Preserves(b.instances, b.tunnels, a.instances, a.tunnels)
    requires KindsKnown(b.instances) ==> KindsKnown(a.instances)
    requires OwnersAreClients(b.instances, b.tunnels) ==> OwnersAreClients(a.instances, a.tunnels)
    ensures Step(r, w, b, a, None)
  {
  }

  /** A tunnel stored for a client, or in place of one with the same owner. */
  lemma StoreStep(r: Request, w: World, b: Moment, a: Moment, id: string, v: Tunnel)
    requires Quiet(r) && a.instances == b.instances && a.tunnels == b.tunnels[id := v]
    requires IsClient(b.instances, v.instanceID) || (id in b.tunnels && v.instanceID == b.tunnels[id].instanceID)
    requires Preserves(b.instances, b.tunnels, a.instances, a.tunnels)
    ensures Step(r, w, b, a, None)
  {
    StoringKeepsClients(b.instances, b.tunnels, id, v);
    QuietStep(r, w, b, a);
  }

  /** Tunnels taken away, or nothing done at all. */
  lemma LossStep(r: Request, w: World, b: Moment, a: Moment)
    requires Quiet(r) && a.instances == b.instances && forall k | k in a.tunnels :: k in b.tunnels && a.tunnels[k] == b.tunnels[k]
    ensures Step(r, w, b, a, None)
  {
    RemovingPreserves(b.instances, b.tunnels, a.tunnels);
    LosingTunnels(b.instances, b.tunnels, a.tunnels);
    QuietStep(r, w, b, a);
  }

  /** An instance taken away together with its tunnels. */
  lemma DeleteStep(r: Request, w: World, b: Moment, a: Moment, id: string)
    requires Quiet(r) && Preserves(b.instances, b.tunnels, a.instances, a.tunnels)
    requires a.instances == b.instances - {id} && a.tunnels == Disowned(b.tunnels, id)
    ensures Step(r, w, b, a, None)
  {
    DisowningKeepsClients(b.instances, b.tunnels, id);
    QuietStep(r, w, b, a);
  }

  lemma ToggleStep(r: Request, w: World, b: Moment, a: Moment, id: string, enabled: bool)
    requires Quiet(r) && Preserves(b.instances, b.tunnels, a.instances, a.tunnels)
    requires a.instances == ToggledIn(b.instances, id, enabled, w.later) && a.tunnels == b.tunnels
    ensures Step(r, w, b, a, None)
  {
    ToggleKeepsKinds(b.instances, b.tunnels, id, enabled, w.later);
    QuietStep(r, w, b, a);
  }

  lemma ToggleKeepsKinds(m: Instances, t: Tunnels, id: string, enabled: bool, later: int)
    ensures var after := ToggledIn(m, id, enabled, later);
      && (KindsKnown(m) ==> KindsKnown(after)) && (OwnersAreClients(m, t) ==> OwnersAreClients(after, t))
  {
    var after := ToggledIn(m, id, enabled, later);
    assert forall o | o in m :: o in after && after[o].kind == m[o].kind;
  }

  lemma LosingTunnels(m: Instances, before: Tunnels, after: Tunnels)
    requires forall k | k in after :: k in before && after[k] == before[k]
    ensures OwnersAreClients(m, before) ==> OwnersAreClients(m, after)
  {
  }

  lemma DisowningKeepsClients(m: Instances, t: Tunnels, id: string)
    ensures OwnersAreClients(m, t) ==> OwnersAreClients(m - {id}, Disowned(t, id))
    ensures KindsKnown(m) ==> KindsKnown(m - {id})
  {
  }

  /** A stored tunnel whose owner is a client, or which only flips the switch of one that is there. */
  lemma StoringKeepsClients(m: Instances, t: Tunnels, id: string, v: Tunnel)
    requires IsClient(m, v.instanceID) || (id in t && v.instanceID == t[id].instanceID)
    ensures OwnersAreClients(m, t) ==> OwnersAreClients(m, t[id := v])
  {
  }

  // ---------- saving an instance ----------

  lemma SaveKeepsKinds(m: Instances, inst: Instance, newID: string, now: int, later: int)
    ensures KindsKnown(m) ==> KindsKnown(SavedIn(m, inst, newID, now, later))
  {
  }

  lemma SaveStep(r: Request, w: World, b: Moment, a: Moment)
    requires r.SaveInstance? && a.tunnels == b.tunnels
    requires a.instances == SavedIn(b.instances, r.inst, w.id, w.now, w.later)
    ensures Step(r, w, b, a, None)
  {
    SaveKeepsKinds(b.instances, r.inst, w.id, w.now, w.later);
    SavedPreserves(b.instances, b.tunnels, r.inst, w.id, w.now, w.later);
    if OwnersAreClients(b.instances, b.tunnels) { SaveKeepsClients(r, w, b, a); }
  }

  lemma SaveKeepsClients(r: Request, w: World, b: Moment, a: Moment)
    requires r.SaveInstance? && a.tunnels == b.tunnels && OwnersAreClients(b.instances, b.tunnels)
    requires a.instances == SavedIn(b.instances, r.inst, w.id, w.now, w.later)
    ensures OwnersAreClients(a.instances, a.tunnels) <==> !Misplaces(r, w, b, None)
  {
    var i := Named(r.inst, w.id);
    if Misplaces(r, w, b, None) {
      var k :| k in OwnedBy(b.tunnels, i.id);
      assert a.instances[i.id].IsServer();
    } else {
      forall k | k in a.tunnels && a.tunnels[k].instanceID != "" ensures IsClient(a.instances, a.tunnels[k].instanceID) {
        assert IsClient(b.instances, a.tunnels[k].instanceID);
        if a.tunnels[k].instanceID == i.id { assert k in OwnedBy(b.tunnels, i.id); }
      }
    }
  }

  // ---------- the settings page ----------

  lemma SettingsStep(r: Request, w: World, b: Moment, between: Instances, a: Moment)
    requires r.ChangeSettings? && a.tunnels == b.tunnels && Keyed(INSTANCES, b.instances)
    requires EditsFirst(b.instances, between, true, ServerEdit(r.server), w.later)
    requires a.instances == between || EditsFirst(between, a.instances, false, ClientEdit(r.client), w.last)
    ensures Step(r, w, b, a, None)
  {
    EditingKeepsKeys(b.instances, between, true, ServerEdit(r.server), w.later);
    if a.instances != between { EditingKeepsKeys(between, a.instances, false, ClientEdit(r.client), w.last); }
    if KindsKnown(b.instances) {
      EditingKeepsKinds(b.instances, between, true, ServerEdit(r.server), w.later);
      if a.instances != between { EditingKeepsKinds(between, a.instances, false, ClientEdit(r.client), w.last); }
      assert SameKinds(b.instances, a.instances);
      SameKindsSameClients(b.instances, a.instances, b.tunnels);
      if NoConflicts(b.instances) { SettingsConflicts(r, w, b, between, a.instances); }
    }
  }

  lemma SettingsConflicts(r: Request, w: World, b: Moment, between: Instances, after: Instances)
    requires r.ChangeSettings? && Keyed(INSTANCES, b.instances) && NoConflicts(b.instances) && KindsKnown(between)
    requires EditsFirst(b.instances, between, true, ServerEdit(r.server), w.later)
    requires after == between || EditsFirst(between, after, false, ClientEdit(r.client), w.last)
    ensures NoConflicts(after) <==> !MakesConflict(r, b)
  {
    if r.server.Some? {
      EditingTheServer(b.instances, between, r.server.value, w.later);
    }
    if after != between && r.client.Some? {
      EditingTheClient(between, after, r.client.value, w.last);
    }
  }

  lemma SameKindsSameClients(before: Instances, after: Instances, t: Tunnels)
    requires SameKinds(before, after)
    ensures KindsKnown(before) ==> KindsKnown(after)
    ensures OwnersAreClients(before, t) <==> OwnersAreClients(after, t)
  {
    forall id ensures IsClient(before, id) == IsClient(after, id) {
    }
  }

  // ---------- an import ----------

  /** The instances after an import: nothing is lost, no client becomes a server, no conflict gets in. */
  ghost predicate Grown(before: Instances, after: Instances) {
    && before.Keys <= after.Keys && (forall id | IsClient(before, id) :: IsClient(after, id))
    && KindsKnown(after) && (NoConflicts(before) ==> NoConflicts(after))
  }

  lemma FreeClientIsFine(before: Instances, id: string, inst: Instance)
    requires NoConflicts(before) && KindsKnown(before) && id != "" && inst.kind == KIND_CLIENT
    requires Trim(inst.name) == inst.name && !ClientNameTaken(before, inst.name)
    ensures NoConflicts(before[id := inst])
  {
    forall o | o in before && o != id ensures !Clash(before[o], inst) {
      KindsAreNormal();
      if before[o].kind == KIND_CLIENT { assert IsClient(before, o) && !GoesBy(before[o], inst.name); }
    }
    StoringKeepsNoConflicts(before, id, inst);
  }

  lemma FreeClientGrows(before: Instances, id: string, inst: Instance)
    requires KindsKnown(before) && id != "" && inst.kind == KIND_CLIENT
    requires Trim(inst.name) == inst.name && !ClientNameTaken(before, inst.name)
    ensures Grown(before, before[id := inst]) && IsClient(before[id := inst], id)
  {
    KindsAreNormal();
    if NoConflicts(before) {
      FreeClientIsFine(before, id, inst);
    }
  }

  lemma CreatingGrows(before: Instances, after: Instances, common: ParsedCommon, newID: string)
    requires Creates(before, after, common, newID) && KindsKnown(before) && newID != ""
    ensures Grown(before, after) && (Importable(common) ==> IsClient(after, newID))
  {
    if Importable(common) {
      FreeClientGrows(before, newID, after[newID]);
    }
  }

  lemma AdoptingGrows(before: Instances, id: string, common: ParsedCommon, later: int)
    requires KindsKnown(before)
    ensures Grown(before, Updated(before, id, Adoption(common), later))
    ensures SameKinds(before, Updated(before, id, Adoption(common), later))
  {
    UpdateKeepsKinds(before, id, Adoption(common), later);
    if Updates(before, id, Adoption(common)) {
      ClientEditsAreHarmless(before, id, Adoption(common).client, before[id].createdAt, later);
    }
  }

  lemma ImportGrows(r: Request, w: World, before: Instances, after: Instances)
    requires r.Import? && Sane(w) && KindsKnown(before)
    requires ImportLeaves(before, after, r.common, r.instance, r.adopt, w.id, w.later)
    ensures Grown(before, after)
    ensures Trim(r.instance) != "" ==> SameKinds(before, after)
    ensures Trim(r.instance) == "" && Importable(r.common) ==> IsClient(after, w.id)
  {
    if Trim(r.instance) != "" {
      AdoptingGrows(before, Trim(r.instance), r.common, w.later);
    } else if Trim(r.common.serverAddr) != "" {
      CreatingGrows(before, after, r.common, w.id);
    }
  }

  /** Whatever the kinds, an import loses no instance. */
  lemma ImportKeepsKeys(r: Request, w: World, before: Instances, after: Instances)
    requires r.Import? && ImportLeaves(before, after, r.common, r.instance, r.adopt, w.id, w.later)
    ensures before.Keys <= after.Keys && (Trim(r.instance) != "" ==> after.Keys == before.Keys)
    ensures Trim(r.instance) == "" && Importable(r.common) ==> w.id in after
  {
  }

  /** Every tunnel after the import is as it was, or belongs to the target; and if any was accepted one does. */
  lemma {:induction false} RowsAreTargets(before: Tunnels, acc: seq<Tunnel>, target: string,
                          ids: nat -> string, clock: Clock)
    ensures var after := Imports(before, acc, target, ids, clock);
      && (forall id | id in after :: after[id].instanceID == target || (id in before && after[id] == before[id]))
      && (forall id | id in before :: id in after && (after[id].instanceID == target || after[id] == before[id]))
      && (acc != [] ==> exists id :: id in after && after[id].instanceID == target)
  {
    if acc != [] {
      var n := |acc| - 1;
      RowsAreTargets(before, acc[..n], target, ids, clock);
      assert Imports(before, acc, target, ids, clock)[ids(n)].instanceID == target;
    }
  }

  lemma OwnersAfterImport(m: Instances, m': Instances, before: Tunnels, acc: seq<Tunnel>, target: string,
                          ids: nat -> string, clock: Clock)
    requires target != ""
    ensures var after := Imports(before, acc, target, ids, clock);
      && (OwnersExist(m, before) && m.Keys <= m'.Keys ==> (OwnersExist(m', after) <==> acc == [] || target in m'))
      && (OwnersAreClients(m, before) && (forall id | IsClient(m, id) :: IsClient(m', id)) ==>
            (OwnersAreClients(m', after) <==> acc == [] || IsClient(m', target)))
  {
    RowsAreTargets(before, acc, target, ids, clock);
  }

  /** The import as it went through. */
  ghost predicate WentThrough(r: Request, w: World, b: Moment, t: Tunnels, target: string, parsed: seq<Tunnel>)
    requires r.Import?
  {
    && IsTarget(b.instances, r.common, r.instance, w.id, target) && IsParsed(r.proxies, parsed)
    && t == Imports(b.tunnels, Accepted(parsed, |parsed|, ExistingNames(b.tunnels, target), r.overwrite), target, w.more, w.clock)
  }

  lemma ImportOwnersStep(r: Request, w: World, b: Moment, a: Moment, target: string, parsed: seq<Tunnel>)
    requires r.Import? && Sane(w) && WentThrough(r, w, b, a.tunnels, target, parsed)
    requires ImportLeaves(b.instances, a.instances, r.common, r.instance, r.adopt, w.id, w.later)
    requires !ImportRefused(b.instances, r.common, r.instance, r.adopt, b.writes)
    ensures OwnersStep(r, w, b, a, Some(target))
  {
    var existing := ExistingNames(b.tunnels, target);
    var acc := Accepted(parsed, |parsed|, existing, r.overwrite);
    AcceptedWhenAdded(r.proxies, parsed, existing, r.overwrite);
    OwnersAfterImport(b.instances, a.instances, b.tunnels, acc, target, w.more, w.clock);
    ImportKeepsKeys(r, w, b.instances, a.instances);
    if KindsKnown(b.instances) {
      ImportGrows(r, w, b.instances, a.instances);
      if Trim(r.instance) != "" { SameKindsSameClients(b.instances, a.instances, b.tunnels); }
    }
  }

  lemma {:induction false} OverwritingAcceptsAll(parsed: seq<Tunnel>, n: nat, existing: set<string>)
    requires n <= |parsed|
    ensures Accepted(parsed, n, existing, true) == parsed[..n]
  {
    if n != 0 {
      OverwritingAcceptsAll(parsed, n - 1, existing);
    }
  }

  lemma ImportNamesStep(r: Request, w: World, b: Moment, a: Moment, target: string, parsed: seq<Tunnel>)
    requires r.Import? && Sane(w) && WentThrough(r, w, b, a.tunnels, target, parsed)
    ensures NamesStep(r, w, b, a, Some(target))
  {
    if NamesDistinct(b.tunnels) {
      var existing := ExistingNames(b.tunnels, target);
      ParsedNamesDiffer(r.proxies, parsed);
      if !r.overwrite {
        PlainImportKeepsNames(b.tunnels, parsed, target, w.more, w.clock);
      } else if FreshIds(w.more, b.tunnels) {
        OverwritingAcceptsAll(parsed, |parsed|, existing);
        assert parsed[..|parsed|] == parsed;
        ImportKeepsNames(b.tunnels, parsed, target, w.more, w.clock);
        NamesInUse(r, b, target, parsed);
      }
    }
  }

  lemma NamesInUse(r: Request, b: Moment, target: string, parsed: seq<Tunnel>)
    requires r.Import? && r.overwrite && IsParsed(r.proxies, parsed)
    ensures Doubles(r, b, Some(target)) <==>
            exists n :: 0 <= n < |parsed| && parsed[n].name in ExistingNames(b.tunnels, target)
  {
    if n :| 0 <= n < |parsed| && parsed[n].name in ExistingNames(b.tunnels, target) {
      var k :| IsFirst(r.proxies, k, parsed[n]);
      assert r.proxies[k].Some? && r.proxies[k].value.name in ExistingNames(b.tunnels, target);
    }
    if Doubles(r, b, Some(target)) {
      var k :| 0 <= k < |r.proxies| && r.proxies[k].Some? && r.proxies[k].value.name in ExistingNames(b.tunnels, target);
      var n :| 0 <= n < |parsed| && parsed[n].name == r.proxies[k].value.name;
    }
  }

  lemma ImportStep(r: Request, w: World, b: Moment, a: Moment, target: string, parsed: seq<Tunnel>)
    requires r.Import? && Sane(w) && WentThrough(r, w, b, a.tunnels, target, parsed)
    requires ImportLeaves(b.instances, a.instances, r.common, r.instance, r.adopt, w.id, w.later)
    requires !ImportRefused(b.instances, r.common, r.instance, r.adopt, b.writes)
    ensures Step(r, w, b, a, Some(target))
  {
    ImportOwnersStep(r, w, b, a, target, parsed);
    ImportNamesStep(r, w, b, a, target, parsed);
    if KindsKnown(b.instances) { ImportGrows(r, w, b.instances, a.instances); }
  }

  lemma RefusedImportStep(r: Request, w: World, b: Moment, a: Moment)
    requires r.Import? && Sane(w) && a.tunnels == b.tunnels
    requires ImportLeaves(b.instances, a.instances, r.common, r.instance, r.adopt, w.id, w.later)
    requires ImportRefused(b.instances, r.common, r.instance, r.adopt, b.writes)
    ensures Step(r, w, b, a, None)
  {
    ImportKeepsKeys(r, w, b.instances, a.instances);
    if KindsKnown(b.instances) { ImportGrows(r, w, b.instances, a.instances); }
  }
}
