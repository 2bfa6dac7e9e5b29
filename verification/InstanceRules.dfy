/** Which instances may stand beside each other, and which tunnels may be stored. */
module InstanceRules {
  import opened Text
  import opened Model
  import opened Store

  type Instances = map<string, Instance>
  type Tunnels = map<string, Tunnel>

  // ---------- records ----------

  const INSTANCES: Entity<Instance> := Entity(
    (i: Instance) => i.id, (i: Instance) => i.createdAt,
    (i: Instance, id: string, created: int, updated: int) =>
      i.(id := id, createdAt := if created != 0 then created else i.createdAt, updatedAt := updated))

  const TUNNELS: Entity<Tunnel> := Entity(
    (t: Tunnel) => t.id, (t: Tunnel) => t.createdAt,
    (t: Tunnel, id: string, created: int, updated: int) =>
      t.(id := id, createdAt := if created != 0 then created else t.createdAt, updatedAt := updated))

  lemma RecordsAreLawful()
    ensures Lawful(INSTANCES) && Lawful(TUNNELS)
  {
  }

  // ---------- one instance ----------

  predicate IsPort(p: int) { 0 < p <= 65535 }

  function Validate(i: Instance): Option<string> {
    if Trim(i.name) == "" then Some("name must not be empty")
    else if i.kind == KIND_SERVER then
      if !IsPort(i.server.bindPort) then Some("bind port out of range")
      else if i.server.dashboardPort < 0 || i.server.dashboardPort > 65535 then Some("dashboard port out of range")
      else if i.server.dashboardPort > 0 && i.server.dashboardPort == i.server.bindPort then Some("dashboard port is the bind port")
      else if i.server.vhostHTTPPort > 0 && i.server.vhostHTTPPort == i.server.bindPort then Some("HTTP port is the bind port")
      else if i.server.vhostHTTPSPort > 0 && i.server.vhostHTTPSPort == i.server.bindPort then Some("HTTPS port is the bind port")
      else None
    else if i.kind == KIND_CLIENT then
      if Trim(i.client.serverAddr) == "" then Some("server address must not be empty")
      else if !IsPort(i.client.serverPort) then Some("server port out of range")
      else None
    else Some("unknown kind")
  }

  /** The ports a server will bind; 0 stands for a switched-off listener. */
  function Ports(i: Instance): seq<int> {
    if i.IsServer() then
      Positive([i.server.bindPort, i.server.dashboardPort, i.server.vhostHTTPPort,
                i.server.vhostHTTPSPort, i.server.kcpBindPort, i.server.quicBindPort])
    else []
  }

  function Positive(ps: seq<int>): seq<int> {
    if ps == [] then [] else (if ps[0] > 0 then [ps[0]] else []) + Positive(ps[1..])
  }

  ghost predicate Overlap(a: seq<int>, b: seq<int>) {
    exists p :: p in a && p in b
  }

  // ---------- two instances ----------

  predicate SameName(a: Instance, b: Instance) {
    a.kind == b.kind && EqualFold(Trim(a.name), Trim(b.name))
  }

  ghost predicate SharePort(a: Instance, b: Instance) {
    && a.IsServer() && b.IsServer() && a.Enabled() && b.Enabled()
    && Overlap(Ports(a), Ports(b))
  }

  ghost predicate Clash(a: Instance, b: Instance) {
    SameName(a, b) || SharePort(a, b)
  }

  /** What the checks of `inst` object to in another instance; the name of `inst` is taken as it stands. */
  ghost predicate Objects(other: Instance, inst: Instance) {
    || (other.kind == inst.kind && EqualFold(Trim(other.name), inst.name))
    || SharePort(other, inst)
  }

  ghost predicate Objected(m: Instances, inst: Instance) {
    exists id :: id in m && id != inst.id && Objects(m[id], inst)
  }

  /** No two instances of one kind share a name, no two enabled servers a port. */
  ghost predicate NoConflicts(m: Instances) {
    && "" !in m
    && forall a, b | a in m && b in m && a != b :: !Clash(m[a], m[b])
  }

  lemma ClashIsSymmetric(a: Instance, b: Instance)
    ensures Clash(a, b) <==> Clash(b, a)
  {
  }

  /** Storing an instance that clashes with no other keeps the collection free of conflicts. */
  lemma StoringKeepsNoConflicts(m: Instances, id: string, i: Instance)
    requires NoConflicts(m) && id != ""
    requires forall o | o in m && o != id :: !Clash(m[o], i)
    ensures NoConflicts(m[id := i])
  {
    var m' := m[id := i];
    forall a, b | a in m' && b in m' && a != b ensures !Clash(m'[a], m'[b]) {
      if a == id { ClashIsSymmetric(m'[a], m'[b]); }
    }
  }

  /** Times and ids play no part in conflicts. */
  lemma StampKeepsClash(a: Instance, b: Instance, id: string, created: int, updated: int)
    ensures Clash(a, INSTANCES.stamp(b, id, created, updated)) <==> Clash(a, b)
    ensures Clash(INSTANCES.stamp(b, id, created, updated), a) <==> Clash(b, a)
  {
    assert Ports(INSTANCES.stamp(b, id, created, updated)) == Ports(b);
  }

  predicate KindKnown(i: Instance) {
    i.kind == KIND_SERVER || i.kind == KIND_CLIENT
  }

  ghost predicate KindsKnown(m: Instances) {
    forall id | id in m :: KindKnown(m[id])
  }

  // ---------- edits of one configuration ----------

  /** The edits the panel makes without looking at the other instances. */
  datatype Edit = EditServer(server: ServerConfig -> ServerConfig) | EditClient(client: ClientConfig -> ClientConfig)
  {
    function Of(i: Instance): Instance {
      var edited := if EditServer? then i.(server := server(i.server)) else i.(client := client(i.client));
      edited.Normalize()
    }
  }

  lemma KindsAreNormal()
    ensures Lower(Trim(KIND_SERVER)) == KIND_SERVER && Lower(Trim(KIND_CLIENT)) == KIND_CLIENT
    ensures KIND_SERVER != KIND_CLIENT
  {
    TrimFixes(KIND_SERVER);
    TrimFixes(KIND_CLIENT);
    assert Lower(KIND_SERVER) == KIND_SERVER && Lower(KIND_CLIENT) == KIND_CLIENT;
    assert KIND_SERVER[0] != KIND_CLIENT[0];
  }

  lemma EditKeepsIdentity(e: Edit, i: Instance)
    requires KindKnown(i)
    ensures e.Of(i).id == i.id && e.Of(i).kind == i.kind && e.Of(i).name == Trim(i.name)
  {
    KindsAreNormal();
  }

  /** Storing an edited instance makes a conflict exactly when the checks it went past would have objected. */
  lemma EditMeetsConflicts(m: Instances, id: string, i: Instance, created: int, updated: int)
    requires NoConflicts(m) && id in m && i.id == id && Trim(i.name) == i.name
    ensures NoConflicts(m[id := INSTANCES.stamp(i, id, created, updated)]) <==> !Objected(m, i)
  {
    var stamped := INSTANCES.stamp(i, id, created, updated);
    if Objected(m, i) {
      var o :| o in m && o != id && Objects(m[o], i);
      StampKeepsClash(m[o], i, id, created, updated);
      assert Clash(m[id := stamped][o], m[id := stamped][id]);
    } else {
      forall o | o in m && o != id ensures !Clash(m[o], stamped) {
        assert !Objects(m[o], i);
        StampKeepsClash(m[o], i, id, created, updated);
      }
      StoringKeepsNoConflicts(m, id, stamped);
    }
  }

  /** The settings of a client never matter for conflicts. */
  lemma ClientEditsAreHarmless(m: Instances, id: string, f: ClientConfig -> ClientConfig, created: int, updated: int)
    requires id in m && KindKnown(m[id])
    ensures NoConflicts(m[id := INSTANCES.stamp(EditClient(f).Of(m[id]), id, created, updated)]) <==> NoConflicts(m)
  {
    var i := EditClient(f).Of(m[id]);
    var stamped := INSTANCES.stamp(i, id, created, updated);
    EditKeepsIdentity(EditClient(f), m[id]);
    TrimIdempotent(m[id].name);
    assert Ports(stamped) == Ports(m[id]);
    forall o ensures Clash(o, stamped) == Clash(o, m[id]) && Clash(stamped, o) == Clash(m[id], o) {
    }
    var m' := m[id := stamped];
    assert NoConflicts(m) ==> NoConflicts(m');
    if NoConflicts(m') {
      forall a, b | a in m && b in m && a != b ensures !Clash(m[a], m[b]) {
        assert !Clash(m'[a], m'[b]);
      }
    }
  }

  // ---------- tunnels ----------

  ghost predicate IsClient(m: Instances, id: string) {
    id in m && !m[id].IsServer()
  }

  /** The panel's own rule: every owner a tunnel names is a client. */
  ghost predicate OwnersAreClients(instances: Instances, tunnels: Tunnels) {
    forall id | id in tunnels && tunnels[id].instanceID != "" :: IsClient(instances, tunnels[id].instanceID)
  }

  /** Every owner a tunnel names exists. */
  ghost predicate OwnersExist(instances: Instances, tunnels: Tunnels) {
    forall id | id in tunnels && tunnels[id].instanceID != "" :: tunnels[id].instanceID in instances
  }

  /** No two tunnels of one instance share a name, and none has a blank id. */
  ghost predicate NamesDistinct(tunnels: Tunnels) {
    && "" !in tunnels
    && forall a, b | a in tunnels && b in tunnels && a != b && tunnels[a].instanceID == tunnels[b].instanceID ::
         tunnels[a].name != tunnels[b].name
  }

  /** Some other tunnel of the same owner has the name. */
  ghost predicate NameTaken(tunnels: Tunnels, t: Tunnel, selfID: string) {
    exists id :: id in tunnels && id != selfID && tunnels[id].instanceID == t.instanceID && tunnels[id].name == t.name
  }

  lemma StoringKeepsNamesDistinct(tunnels: Tunnels, t: Tunnel)
    requires NamesDistinct(tunnels) && t.id != ""
    requires !NameTaken(tunnels, t, t.id)
    ensures NamesDistinct(tunnels[t.id := t])
  {
  }

  predicate TakesRemotePort(kind: string) { kind == "tcp" || kind == "udp" }

  predicate TakesDomains(kind: string) { kind == "http" || kind == "https" || kind == "tcpmux" }

  predicate TakesSecret(kind: string) { kind == "stcp" || kind == "xtcp" || kind == "sudp" }

  /** A tunnel as the panel accepts it, apart from its owner and the uniqueness of its name. */
  predicate WellFormedTunnel(t: Tunnel) {
    && t.name != ""
    && (TakesRemotePort(t.kind) || TakesDomains(t.kind) || TakesSecret(t.kind))
    && (TakesRemotePort(t.kind) ==> IsPort(t.remotePort))
    && (TakesDomains(t.kind) ==> t.customDomains != [] || Trim(t.subdomain) != "")
    && (TakesSecret(t.kind) ==> Trim(t.secretKey) != "")
    && (!TakesSecret(t.kind) ==> IsPort(t.localPort))
  }

  // ---------- what the operations keep ----------

  /** Conflicts do not get in, owners do not get lost, names do not get doubled. */
  ghost predicate Preserves(i0: Instances, t0: Tunnels, i1: Instances, t1: Tunnels) {
    && (NoConflicts(i0) ==> NoConflicts(i1))
    && (OwnersExist(i0, t0) ==> OwnersExist(i1, t1))
    && (NamesDistinct(t0) ==> NamesDistinct(t1))
  }

  /** Saving what the checks did not object to, under its own id or, if that is blank, under a new one. */
  lemma SavingPreserves(m: Instances, t: Tunnels, i: Instance, id: string, created: int, updated: int)
    requires !Objected(m, i) && Trim(i.name) == i.name
    requires id != "" && (i.id == id || i.id == "")
    ensures Preserves(m, t, m[id := INSTANCES.stamp(i.(id := id), id, created, updated)], t)
  {
    var stamped := INSTANCES.stamp(i.(id := id), id, created, updated);
    if NoConflicts(m) {
      forall o | o in m && o != id ensures !Clash(m[o], stamped) {
        assert !Objects(m[o], i);
        StampKeepsClash(m[o], i.(id := id), id, created, updated);
      }
      StoringKeepsNoConflicts(m, id, stamped);
    }
  }

  /** Switching a stored instance on after the checks, or off without them. */
  lemma TogglingPreserves(m: Instances, t: Tunnels, id: string, enabled: bool, created: int, updated: int)
    requires id in m && m[id].id == id && id != ""
    requires enabled ==> !Objected(m, m[id].SetEnabled(true))
    ensures Preserves(m, t, m[id := INSTANCES.stamp(m[id].SetEnabled(enabled), id, created, updated)], t)
  {
    var i := m[id].SetEnabled(enabled);
    var stamped := INSTANCES.stamp(i, id, created, updated);
    if NoConflicts(m) {
      forall o | o in m && o != id ensures !Clash(m[o], stamped) {
        assert !Clash(m[o], m[id]);
        assert enabled ==> !Objects(m[o], i);
        StampKeepsClash(m[o], i, id, created, updated);
      }
      StoringKeepsNoConflicts(m, id, stamped);
    }
  }

  /** The tunnels not owned by `id`. */
  ghost function Disowned(tunnels: Tunnels, id: string): Tunnels {
    map k | k in tunnels && tunnels[k].instanceID != id :: tunnels[k]
  }

  /** Taking tunnels away preserves everything; so does taking an instance away once its tunnels are gone. */
  lemma RemovingPreserves(m: Instances, t: Tunnels, t': Tunnels)
    requires t'.Keys <= t.Keys && forall k | k in t' :: t'[k] == t[k]
    ensures Preserves(m, t, m, t')
  {
  }

  lemma DeletingPreserves(m: Instances, t: Tunnels, id: string)
    ensures id != "" ==> Preserves(m, t, m - {id}, Disowned(t, id))
  {
  }

  /** Storing a tunnel under an existing owner and a name no other tunnel of that owner has. */
  lemma StoringPreserves(m: Instances, t: Tunnels, v: Tunnel, selfID: string, created: int, updated: int)
    requires v.id != "" && (selfID == v.id || selfID == "")
    requires v.instanceID in m && !NameTaken(t, v, selfID)
    ensures Preserves(m, t, m, t[v.id := TUNNELS.stamp(v, v.id, created, updated)])
  {
    var stamped := TUNNELS.stamp(v, v.id, created, updated);
    if NamesDistinct(t) {
      assert !NameTaken(t, stamped, stamped.id) by {
        if NameTaken(t, stamped, stamped.id) {
          assert NameTaken(t, v, selfID);
        }
      }
      StoringKeepsNamesDistinct(t, stamped);
    }
  }

  /** Switching a tunnel on or off changes neither its name nor its owner. */
  lemma FlippingPreserves(m: Instances, t: Tunnels, id: string, created: int, updated: int)
    requires id in t && t[id].id == id && id != ""
    ensures Preserves(m, t, m, t[id := TUNNELS.stamp(t[id].(enabled := !t[id].enabled), id, created, updated)])
  {
  }
}
