/** The requests that add, change, switch and remove tunnels. */
module TunnelRequests {
  import opened Sequences
  import opened Text
  import opened Model
  import opened Store
  import opened InstanceRules
  import opened ImportRules
  import opened Panel

  // ---------- owners ----------

  /** The first client that is switched on, or the first client of all, or nothing. */
  ghost predicate IsDefaultClient(m: Instances, id: string) {
    if exists c :: IsClient(m, c) then
      && IsClient(m, id)
      && forall c | IsClient(m, c) && c != id ::
           if m[c].Enabled() == m[id].Enabled() then Below(id, c) else m[id].Enabled()
    else id == ""
  }

  /** The client that will carry a tunnel whose request asked for `wanted`. */
  ghost predicate Carries(m: Instances, wanted: string, owner: string) {
    && owner != ""
    && if Trim(wanted) == "" then IsDefaultClient(m, owner) else owner == Trim(wanted) && IsClient(m, owner)
  }

  /** At most one client can carry a tunnel. */
  lemma OneCarrier(m: Instances, wanted: string, a: string, b: string)
    requires Carries(m, wanted, a) && Carries(m, wanted, b)
    ensures a == b && IsClient(m, a)
  {
    if a != b { AtMostAntisymmetric(a, b); }
  }

  // ---------- what a request asks for ----------

  function Cleaned(t: Tunnel, newID: string): Tunnel {
    t.(name := Trim(t.name), kind := Lower(Trim(t.kind)), id := if t.id == "" then newID else t.id)
  }

  /** The tunnel the panel makes of `t`, when it accepts it in place of the tunnel `selfID`. */
  ghost predicate Accepts(m: Instances, tunnels: Tunnels, t: Tunnel, newID: string, selfID: string, v: Tunnel) {
    && WellFormedTunnel(Cleaned(t, newID))
    && v == Cleaned(t, newID).(instanceID := v.instanceID)
    && Carries(m, t.instanceID, v.instanceID)
    && !NameTaken(tunnels, v, selfID)
  }

  ghost predicate Rejects(m: Instances, tunnels: Tunnels, t: Tunnel, newID: string, selfID: string) {
    forall v :: !Accepts(m, tunnels, t, newID, selfID, v)
  }

  /** A request has at most one outcome. */
  lemma OneAcceptance(m: Instances, tunnels: Tunnels, t: Tunnel, newID: string, selfID: string, v: Tunnel, w: Tunnel)
    requires Accepts(m, tunnels, t, newID, selfID, v) && Accepts(m, tunnels, t, newID, selfID, w)
    ensures v == w
  {
    OneCarrier(m, t.instanceID, v.instanceID, w.instanceID);
  }

  // ---------- the server ----------

  method Any<T>(list: seq<T>, passes: T -> bool) returns (found: bool)
    ensures found <==> exists k :: 0 <= k < |list| && passes(list[k])
  {
    for i := 0 to |list|
      invariant forall k | 0 <= k < i :: !passes(list[k])
    {
      if passes(list[i]) {
        return true;
      }
    }
    found := false;
  }

  /** The part of handleImportTunnels that writes: what the file could not take is reported as skipped, but memory has it. */
  method ImportInto(tunnels: Collection<Tunnel>, parsed: seq<Tunnel>, target: string, overwrite: bool,
                    ids: nat -> string, clock: Clock)
    returns (added: nat, skipped: nat, ghost accepted: seq<Tunnel>)
    requires tunnels.Valid() && tunnels.entity == TUNNELS && NoneBlank(ids)
    modifies tunnels
    ensures tunnels.Valid() && added + skipped == |parsed|
    ensures accepted == Accepted(parsed, |parsed|, ExistingNames(old(tunnels.items), target), overwrite)
    ensures tunnels.items == Imports(old(tunnels.items), accepted, target, ids, clock)
    ensures added == Written(tunnels.writable, old(tunnels.flushes), |accepted|)
  {
    var existing := TunnelNames(tunnels, target);
    added, skipped, accepted := ImportEach(tunnels, parsed, target, existing, overwrite, ids, clock);
  }

  /** Its loop over the parsed tunnels. */
  method ImportEach(tunnels: Collection<Tunnel>, parsed: seq<Tunnel>, target: string, existing: set<string>, overwrite: bool,
                    ids: nat -> string, clock: Clock)
    returns (added: nat, skipped: nat, ghost accepted: seq<Tunnel>)
    requires tunnels.Valid() && tunnels.entity == TUNNELS && NoneBlank(ids)
    modifies tunnels
    ensures tunnels.Valid() && added + skipped == |parsed|
    ensures accepted == Accepted(parsed, |parsed|, existing, overwrite)
    ensures tunnels.items == Imports(old(tunnels.items), accepted, target, ids, clock)
    ensures added == Written(tunnels.writable, old(tunnels.flushes), |accepted|)
  {
    ghost var before, first := tunnels.items, tunnels.flushes;
    added, skipped, accepted := 0, 0, [];
    var taken := 0;
    for i := 0 to |parsed|
      invariant tunnels.Valid() && added + skipped == i && taken == |accepted|
      invariant accepted == Accepted(parsed, i, existing, overwrite)
      invariant tunnels.items == Imports(before, accepted, target, ids, clock)
      invariant tunnels.flushes == first + taken && added == Written(tunnels.writable, first, taken)
    {
      AcceptedNext(parsed, i, existing, overwrite);
      if parsed[i].name in existing && !overwrite {
        skipped := skipped + 1;
      } else {
        ImportsNext(before, accepted, parsed[i], target, ids, clock);
        WrittenNext(tunnels.writable, first, taken, tunnels.flushes);
        var ok := ImportOne(tunnels, parsed[i], target, taken, ids, clock);
        accepted, taken := accepted + [parsed[i]], taken + 1;
        if ok {
          added := added + 1;
        } else {
          skipped := skipped + 1;
        }
      }
    }
  }

  /** The names in use under an instance. */
  method TunnelNames(tunnels: Collection<Tunnel>, target: string) returns (existing: set<string>)
    requires tunnels.Valid() && tunnels.entity == TUNNELS
    ensures existing == ExistingNames(tunnels.items, target)
  {
    var list := tunnels.List();
    existing := {};
    for i := 0 to |list|
      invariant existing == set k | 0 <= k < i && list[k].instanceID == target :: list[k].name
    {
      if list[i].instanceID == target {
        existing := existing + {list[i].name};
      }
    }
    ListedNames(tunnels.items, list, target);
  }

  class Server {
    const app: App

    ghost predicate Valid()
      reads this, app, app.instances, app.tunnels
    {
      app.Valid()
    }

    constructor (app: App)
      requires app.Valid()
      ensures Valid() && this.app == app
    {
      this.app := app;
    }

    method ClientInstances() returns (out: seq<Instance>)
      requires Valid()
      ensures IsListing(INSTANCES, Clients(app.instances.items), out)
    {
      var list := app.instances.List();
      out := [];
      for i := 0 to |list|
        invariant out == Filtered(list[..i], IS_CLIENT)
      {
        assert list[..i + 1][..i] == list[..i];
        if !list[i].IsServer() {
          out := out + [list[i]];
        }
      }
      assert list[..|list|] == list;
      FilteredIsListing(INSTANCES, app.instances.items, list, IS_CLIENT);
      assert Clients(app.instances.items) == Part(app.instances.items, IS_CLIENT);
    }

    method DefaultClientInstanceID() returns (id: string)
      requires Valid()
      ensures IsDefaultClient(app.instances.items, id)
    {
      var clients := ClientInstances();
      ghost var m := app.instances.items;
      if |clients| == 0 {
        assert forall c | IsClient(m, c) :: c in Clients(m);
        return "";
      }
      assert IsClient(m, INSTANCES.id(clients[0]));
      for i := 0 to |clients|
        invariant forall k | 0 <= k < i :: !clients[k].Enabled()
      {
        if clients[i].Enabled() {
          FirstOfListing(m, clients, i);
          return clients[i].id;
        }
      }
      FirstOfListing(m, clients, 0);
      id := clients[0].id;
    }

    /** resolveTunnelInstance: settles the owner of a tunnel, or says why there is none. */
    method ResolveTunnelInstance(t: Tunnel) returns (r: Tunnel, err: Option<string>)
      requires Valid()
      ensures r == t.(instanceID := r.instanceID)
      ensures err.None? ==> Carries(app.instances.items, t.instanceID, r.instanceID)
      ensures err.Some? ==> forall owner :: !Carries(app.instances.items, t.instanceID, owner)
    {
      r := t.(instanceID := Trim(t.instanceID));
      if r.instanceID == "" {
        var id := DefaultClientInstanceID();
        r := r.(instanceID := id);
        if id == "" {
          forall owner ensures !Carries(app.instances.items, t.instanceID, owner) {
            if Carries(app.instances.items, t.instanceID, owner) {
              AtMostAntisymmetric(owner, id);
            }
          }
          return r, Some(NO_CLIENT);
        }
        return r, None;
      }
      if r.instanceID !in app.instances.items {
        return r, Some(NO_INSTANCE);
      }
      if app.instances.items[r.instanceID].IsServer() {
        return r, Some(NOT_A_CLIENT);
      }
      err := None;
    }

    /** The checks a tunnel stands or falls by on its own. */
    static method Clean(t: Tunnel, newID: string) returns (v: Tunnel, ok: bool)
      ensures ok <==> WellFormedTunnel(Cleaned(t, newID))
      ensures ok ==> v == Cleaned(t, newID)
    {
      v, ok := t.(name := Trim(t.name)), false;
      if v.name == "" {
        return;
      }
      v := v.(kind := Lower(Trim(t.kind)));
      if !(TakesRemotePort(v.kind) || TakesDomains(v.kind) || TakesSecret(v.kind)) {
        return;
      }
      if TakesRemotePort(v.kind) && !IsPort(v.remotePort) {
        return;
      }
      if TakesDomains(v.kind) && |v.customDomains| == 0 && Trim(v.subdomain) == "" {
        return;
      }
      if TakesSecret(v.kind) && Trim(v.secretKey) == "" {
        return;
      }
      if !TakesSecret(v.kind) && !IsPort(v.localPort) {
        return;
      }
      if v.id == "" {
        v := v.(id := newID);
      }
      ok := true;
    }

    method ValidateTunnel(t: Tunnel, selfID: string, newID: string) returns (v: Tunnel, err: Option<string>)
      requires Valid()
      ensures err.None? ==> Accepts(app.instances.items, app.tunnels.items, t, newID, selfID, v)
      ensures err.Some? ==> Rejects(app.instances.items, app.tunnels.items, t, newID, selfID)
    {
      var ok;
      v, ok := Clean(t, newID);
      if !ok {
        return v, Some(BAD_TUNNEL);
      }
      v, err := ResolveTunnelInstance(v);
      if err.Some? {
        return;
      }
      var taken := NameIsTaken(v, selfID);
      if taken {
        OneCarrierRejects(app.instances.items, app.tunnels.items, t, newID, selfID, v);
        return v, Some(DUPLICATE_NAME);
      }
      err := None;
    }

    method NameIsTaken(v: Tunnel, selfID: string) returns (taken: bool)
      requires Valid()
      ensures taken <==> NameTaken(app.tunnels.items, v, selfID)
    {
      var list := app.tunnels.List();
      for i := 0 to |list|
        invariant forall k | 0 <= k < i ::
          !(list[k].name == v.name && list[k].id != selfID && list[k].instanceID == v.instanceID)
      {
        if list[i].name == v.name && list[i].id != selfID && list[i].instanceID == v.instanceID {
          assert TUNNELS.id(list[i]) in app.tunnels.items;
          return true;
        }
      }
      taken := false;
      forall id | id in app.tunnels.items && id != selfID
        ensures !(app.tunnels.items[id].instanceID == v.instanceID && app.tunnels.items[id].name == v.name)
      {
        var k :| 0 <= k < |list| && TUNNELS.id(list[k]) == id;
      }
    }

    // ---------- the requests ----------

    /** POST /api/tunnels. */
    method AddTunnel(t: Tunnel, newID: string, now: int, later: int) returns (r: Outcome<Tunnel>)
      requires Valid() && newID != ""
      modifies app.tunnels
      ensures Valid() && Preserves(app.instances.items, old(app.tunnels.items), app.instances.items, app.tunnels.items)
      ensures Rejects(app.instances.items, old(app.tunnels.items), t, newID, "") ==>
                r.Failed? && app.tunnels.items == old(app.tunnels.items) && app.tunnels.file == old(app.tunnels.file)
      ensures !Rejects(app.instances.items, old(app.tunnels.items), t, newID, "") ==>
                Puts(old(app.tunnels.items), t, newID, "", now, later, old(WillWrite()), r)
    {
      var v, err := ValidateTunnel(t, "", newID);
      if err.Some? {
        return Failed(err.value);
      }
      r := PutTunnel(t, v, newID, "", now, later);
    }

    /** PUT /api/tunnels/{id}. */
    method UpdateTunnel(id: string, t: Tunnel, now: int, later: int) returns (r: Outcome<Tunnel>)
      requires Valid() && id != ""
      modifies app.tunnels
      ensures Valid() && Preserves(app.instances.items, old(app.tunnels.items), app.instances.items, app.tunnels.items)
      ensures id !in old(app.tunnels.items) || Rejects(app.instances.items, old(app.tunnels.items), t.(id := id), id, id) ==>
                r.Failed? && app.tunnels.items == old(app.tunnels.items) && app.tunnels.file == old(app.tunnels.file)
      ensures id in old(app.tunnels.items) && !Rejects(app.instances.items, old(app.tunnels.items), t.(id := id), id, id) ==>
                Puts(old(app.tunnels.items), t.(id := id), id, id, now, later, old(WillWrite()), r)
    {
      if id !in app.tunnels.items {
        return Failed(NO_TUNNEL);
      }
      var v, err := ValidateTunnel(t.(id := id), id, id);
      if err.Some? {
        return Failed(err.value);
      }
      r := PutTunnel(t.(id := id), v, id, id, now, later);
    }

    ghost predicate WillWrite()
      reads this, app, app.tunnels
    {
      Goes(app.tunnels.writable, app.tunnels.flushes)
    }

    /** The store holds one more tunnel, the one the request stands for, and the reply says whether the file has it. */
    ghost predicate Puts(before: Tunnels, t: Tunnel, newID: string, selfID: string, now: int, later: int, ok: bool, r: Outcome<Tunnel>)
      reads this, app, app.instances, app.tunnels
    {
      exists v ::
        && PutsThis(app.instances.items, before, app.tunnels.items, t, newID, selfID, now, later, v)
        && (if ok then r == Stored(app.tunnels.items[v.id]) && app.tunnels.Synced() else r == Failed(NOT_WRITTEN))
    }

    method PutTunnel(t: Tunnel, v: Tunnel, newID: string, selfID: string, now: int, later: int) returns (r: Outcome<Tunnel>)
      requires Valid() && Accepts(app.instances.items, app.tunnels.items, t, newID, selfID, v)
      requires v.id != "" && (selfID == "" || selfID == v.id)
      modifies app.tunnels
      ensures Valid() && Preserves(app.instances.items, old(app.tunnels.items), app.instances.items, app.tunnels.items)
      ensures Puts(old(app.tunnels.items), t, newID, selfID, now, later, old(WillWrite()), r)
    {
      ghost var before := app.tunnels.items;
      assert TUNNELS.id(v) == v.id;
      ghost var created := if v.id in before then before[v.id].createdAt else now;
      OneCarrier(app.instances.items, t.instanceID, v.instanceID, v.instanceID);
      StoringPreserves(app.instances.items, before, v, selfID, created, later);
      r := app.tunnels.Put(v, now, later);
    }

    /** POST /api/tunnels/{id}/toggle. */
    method ToggleTunnel(id: string, now: int, later: int) returns (r: Outcome<Tunnel>)
      requires Valid() && id != ""
      modifies app.tunnels
      ensures Valid() && Preserves(app.instances.items, old(app.tunnels.items), app.instances.items, app.tunnels.items)
      ensures id !in old(app.tunnels.items) ==> r == Failed(NO_TUNNEL) && app.tunnels.items == old(app.tunnels.items)
      ensures id in old(app.tunnels.items) ==>
                var was := old(app.tunnels.items)[id];
                && app.tunnels.items == old(app.tunnels.items)
                     [id := TUNNELS.stamp(was.(enabled := !was.enabled), id, was.createdAt, later)]
                && (if old(WillWrite()) then r == Stored(app.tunnels.items[id]) && app.tunnels.Synced()
                    else r == Failed(NOT_WRITTEN))
    {
      if id !in app.tunnels.items {
        return Failed(NO_TUNNEL);
      }
      var t := app.tunnels.items[id];
      assert TUNNELS.id(t) == id;
      FlippingPreserves(app.instances.items, app.tunnels.items, id, t.createdAt, later);
      r := app.tunnels.Put(t.(enabled := !t.enabled), now, later);
    }

    /** DELETE /api/tunnels/{id}. */
    method DeleteTunnel(id: string) returns (err: Option<string>)
      requires Valid()
      modifies app.tunnels
      ensures Valid() && Preserves(app.instances.items, old(app.tunnels.items), app.instances.items, app.tunnels.items)
      ensures app.tunnels.items == old(app.tunnels.items) - {id}
      ensures if id in old(app.tunnels.items) && old(WillWrite()) then err.None? && app.tunnels.Synced() else err.Some?
    {
      RemovingPreserves(app.instances.items, app.tunnels.items, app.tunnels.items - {id});
      err := app.tunnels.Delete(id);
    }

    // ---------- import ----------

    /** clientInstanceNameTaken. */
    method ClientInstanceNameTaken(name: string) returns (taken: bool)
      requires Valid()
      ensures taken <==> ClientNameTaken(app.instances.items, name)
    {
      var clients := ClientInstances();
      taken := Any(clients, (i: Instance) => GoesBy(i, name));
      TakenInListing(app.instances.items, clients, name);
    }

    /** The naming loop of createImportedClientInstance: it has no bound in the source, and needs none. */
    method FreeName(base: string) returns (name: string, tries: nat)
      requires Valid()
      ensures !ClientNameTaken(app.instances.items, name) && name == Candidate(base, tries)
      ensures 1 <= tries <= |Clients(app.instances.items)| + 1
      ensures TakenUpTo(app.instances.items, base, tries - 1)
    {
      name, tries := base, 1;
      while true
        invariant 1 <= tries <= |Clients(app.instances.items)| + 1 && name == Candidate(base, tries)
        invariant TakenUpTo(app.instances.items, base, tries - 1)
        decreases |Clients(app.instances.items)| + 1 - tries
      {
        var taken := ClientInstanceNameTaken(name);
        if !taken {
          return;
        }
        TakenOneFurther(app.instances.items, base, tries - 1);
        FreeNameSoon(app.instances.items, base, tries);
        tries := tries + 1;
        name := base + "-" + Itoa(tries);
      }
    }

    /** The client instance for a pasted configuration; its name is never what stops it. */
    method CreateImportedClientInstance(common: ParsedCommon, newID: string, now: int, later: int)
      returns (r: Outcome<Instance>)
      requires Valid() && newID != ""
      modifies app.instances
      ensures Valid() && Preserves(old(app.instances.items), app.tunnels.items, app.instances.items, app.tunnels.items)
      ensures Creates(old(app.instances.items), app.instances.items, common, newID)
      ensures r.Stored? <==> Importable(common) && Goes(app.instances.writable, old(app.instances.flushes))
      ensures r.Stored? ==> r.record == app.instances.items[newID] && r.record.id == newID
    {
      ghost var before := app.instances.items;
      var name, tries := FreeName(Base(common));
      ImportCreates(before, common, newID, tries, now, later);
      r := app.SaveInstance(ImportedInstance(common, newID, name), newID, now, later);
    }

    /** Which instance an import goes to: the one asked for, a new one, or the default client. */
    method ImportTarget(common: ParsedCommon, instanceID: string, adopt: bool, newID: string, now: int, later: int)
      returns (target: string, err: Option<string>)
      requires Valid() && newID != ""
      modifies app.instances
      ensures Valid() && ImportLeaves(old(app.instances.items), app.instances.items, common, instanceID, adopt, newID, later)
      ensures err.Some? <==> ImportRefused(old(app.instances.items), common, instanceID, adopt,
                                           Goes(app.instances.writable, old(app.instances.flushes)))
      ensures err.None? ==> IsTarget(old(app.instances.items), common, instanceID, newID, target)
    {
      target, err := Trim(instanceID), None;
      if target == "" {
        if Trim(common.serverAddr) != "" {
          var r := CreateImportedClientInstance(common, newID, now, later);
          if r.Failed? {
            return "", Some(r.reason);
          }
          target := r.record.id;
        } else {
          target := DefaultClientInstanceID();
          if target == "" {
            err := Some(NO_CLIENT);
          }
        }
      } else if adopt {
        err := app.UpdateInstance(target, Adoption(common), now, later);
      }
    }

    /** POST /api/tunnels/import of a configuration that parsed. */
    method ImportTunnels(proxies: seq<Option<Tunnel>>, common: ParsedCommon, instanceID: string, adopt: bool, overwrite: bool,
                         newID: string, ids: nat -> string, now: int, later: int, clock: Clock)
      returns (reply: ImportReply)
      requires Valid() && newID != "" && NoneBlank(ids)
      modifies app.instances, app.tunnels
      ensures Valid() && ImportLeaves(old(app.instances.items), app.instances.items, common, instanceID, adopt, newID, later)
      ensures reply.Refused? <==> ImportRefused(old(app.instances.items), common, instanceID, adopt,
                                                Goes(app.instances.writable, old(app.instances.flushes)))
      ensures reply.Refused? ==> app.tunnels.items == old(app.tunnels.items)
      ensures reply.Done? ==>
                && IsTarget(old(app.instances.items), common, instanceID, newID, reply.target)
                && exists parsed :: IsParsed(proxies, parsed) && Imported(old(app.tunnels.items), app.tunnels.items, parsed, overwrite,
                                      reply, ids, clock, app.tunnels.writable, old(app.tunnels.flushes))
    {
      var parsed, warnings := KeepFirst(proxies);
      var target, err := ImportTarget(common, instanceID, adopt, newID, now, later);
      if err.Some? {
        return Refused(err.value);
      }
      var added, skipped, accepted := ImportInto(app.tunnels, parsed, target, overwrite, ids, clock);
      reply := Done(added, skipped, target);
    }
  }

  /** The tunnel v, which the request stands for, was stored; one that was there keeps its time of creation. */
  ghost predicate PutsThis(m: Instances, before: Tunnels, after: Tunnels, t: Tunnel, newID: string, selfID: string,
                           now: int, later: int, v: Tunnel) {
    && Accepts(m, before, t, newID, selfID, v) && v.id in after
    && after == before[v.id := TUNNELS.stamp(v, v.id, if v.id in before then before[v.id].createdAt else now, later)]
  }

  datatype ImportReply = Done(added: nat, skipped: nat, target: string) | Refused(reason: string)

  method ImportOne(tunnels: Collection<Tunnel>, t: Tunnel, target: string, n: nat, ids: nat -> string, clock: Clock)
    returns (ok: bool)
    requires tunnels.Valid() && tunnels.entity == TUNNELS && NoneBlank(ids)
    modifies tunnels
    ensures tunnels.Valid() && tunnels.flushes == old(tunnels.flushes) + 1 && ok == Goes(tunnels.writable, old(tunnels.flushes))
    ensures tunnels.items == WithRow(old(tunnels.items), t, target, n, ids, clock)
  {
    var r := tunnels.Put(t.(id := ids(n), instanceID := target), clock.now(n), clock.later(n));
    ok := r.Stored?;
  }

  lemma ListedNames(tunnels: Tunnels, list: seq<Tunnel>, target: string)
    requires IsListing(TUNNELS, tunnels, list)
    ensures (set k | 0 <= k < |list| && list[k].instanceID == target :: list[k].name) == ExistingNames(tunnels, target)
  {
    forall id | id in tunnels && tunnels[id].instanceID == target
      ensures exists k :: 0 <= k < |list| && list[k].instanceID == target && list[k].name == tunnels[id].name
    {
      var k :| 0 <= k < |list| && TUNNELS.id(list[k]) == id;
    }
    forall k | 0 <= k < |list| && list[k].instanceID == target ensures list[k].name in ExistingNames(tunnels, target) {
      assert TUNNELS.id(list[k]) in tunnels;
    }
  }

  /** A switched-on client with the pasted settings, under the first name for its address that no client had. */
  ghost predicate IsImported(before: Instances, common: ParsedCommon, inst: Instance) {
    && inst.kind == "client" && inst.note == "" && inst.server == NO_SERVER && HasPasted(inst.client, common)
    && Trim(inst.name) == inst.name
    && IsFirstFree(before, Trim(common.serverAddr) + if common.serverPort > 0 then ":" + Itoa(common.serverPort) else "", inst.name)
  }

  ghost predicate HasPasted(c: ClientConfig, common: ParsedCommon) {
    && c.enable && c.serverAddr == Trim(common.serverAddr)
    && c.serverPort == (if common.serverPort <= 0 then 7000 else common.serverPort)
    && c.token == common.token && c.user == common.user && c.transportTLS == common.tls && c.logLevel == common.logLevel
    && c.transportProto == (if Trim(common.protocol) == "" then "tcp" else Trim(common.protocol))
    && !c.loginFailExit && !c.useEncryption && !c.useCompression && c.logMaxDays == 0
  }

  /** The base, or else the base with the least number from 2 on that makes a name no client goes by. */
  ghost predicate IsFirstFree(m: Instances, base: string, name: string) {
    !ClientNameTaken(m, name) && exists n: nat :: name == Numbered(base, n) && forall k: nat | k < n :: ClientNameTaken(m, Numbered(base, k))
  }

  /** The base, base-2, base-3 and so on. */
  ghost function Numbered(base: string, n: nat): string {
    if n == 0 then base else base + "-" + Itoa(n + 1)
  }

  predicate Importable(common: ParsedCommon) {
    Trim(common.serverAddr) != "" && common.serverPort <= 65535
  }

  /** One more client, if the pasted address allows it, and nothing else. */
  ghost predicate Creates(before: Instances, after: Instances, common: ParsedCommon, newID: string) {
    if Importable(common) then
      newID in after && IsImported(before, common, after[newID]) && after == before[newID := after[newID]]
    else after == before
  }

  /** What an import does to the instances, even when it is refused because a file could not be written. */
  ghost predicate ImportLeaves(before: Instances, after: Instances, common: ParsedCommon, instanceID: string,
                               adopt: bool, newID: string, later: int) {
    if Trim(instanceID) != "" then
      after == if adopt then Updated(before, Trim(instanceID), Adoption(common), later) else before
    else if Trim(common.serverAddr) != "" then Creates(before, after, common, newID)
    else after == before
  }

  /** When an import gets nowhere: `writes` says whether the next write of the instances goes through. */
  ghost predicate ImportRefused(before: Instances, common: ParsedCommon, instanceID: string, adopt: bool, writes: bool) {
    if Trim(instanceID) != "" then adopt && UpdateFails(before, Trim(instanceID), Adoption(common), writes)
    else if Trim(common.serverAddr) != "" then common.serverPort > 65535 || !writes
    else IsDefaultClient(before, "")
  }

  /** The instance asked for; or else the new one for the pasted address; or else the default client. */
  ghost predicate IsTarget(before: Instances, common: ParsedCommon, instanceID: string, newID: string, target: string) {
    if Trim(instanceID) != "" then target == Trim(instanceID)
    else if Trim(common.serverAddr) != "" then target == newID
    else target != "" && IsDefaultClient(before, target)
  }

  /** What an import that was not refused does to the tunnels, and what it reports. */
  ghost predicate Imported(before: Tunnels, after: Tunnels, parsed: seq<Tunnel>, overwrite: bool, reply: ImportReply,
                           ids: nat -> string, clock: Clock, writable: nat -> bool, first: nat)
    requires reply.Done?
  {
    var accepted := Accepted(parsed, |parsed|, ExistingNames(before, reply.target), overwrite);
    && after == Imports(before, accepted, reply.target, ids, clock)
    && reply.added == Written(writable, first, |accepted|) && reply.added + reply.skipped == |parsed|
  }

  function ImportedInstance(common: ParsedCommon, id: string, name: string): Instance {
    var proto := if Trim(common.protocol) == "" then "tcp" else Trim(common.protocol);
    var port := if common.serverPort <= 0 then 7000 else common.serverPort;
    Instance(id, name, KIND_CLIENT, "", NO_SERVER,
             ClientConfig(true, Trim(common.serverAddr), port, common.token, common.user, false, common.logLevel, 0,
                          common.tls, proto, false, false),
             0, 0)
  }

  /** Normalising an imported instance leaves it as it is. */
  lemma ImportedIsPrepared(inst: Instance)
    requires inst.kind == KIND_CLIENT && inst.note == "" && Trim(inst.name) == inst.name
    ensures Prepared(inst) == inst
  {
    TrimFixes(KIND_CLIENT);
    assert Lower(KIND_CLIENT) == KIND_CLIENT;
  }

  lemma ImportedIsAdmitted(before: Instances, common: ParsedCommon, newID: string, name: string)
    requires name != "" && Trim(name) == name && !ClientNameTaken(before, name)
    ensures var inst := ImportedInstance(common, newID, name);
      Prepared(inst) == inst && (Admits(before, inst) <==> Importable(common))
  {
    var inst := ImportedInstance(common, newID, name);
    ImportedIsPrepared(inst);
    FreeNameIsNotObjected(before, inst);
    TrimIdempotent(common.serverAddr);
    KindsAreNormal();
  }

  /** Saving the client made of a pasted address under the first free candidate name adds it, if the address will do. */
  lemma ImportCreates(before: Instances, common: ParsedCommon, newID: string, tries: nat, now: int, later: int)
    requires newID != "" && tries >= 1 && !ClientNameTaken(before, Candidate(Base(common), tries))
    requires TakenUpTo(before, Base(common), tries - 1)
    ensures var inst := ImportedInstance(common, newID, Candidate(Base(common), tries));
      && Named(inst, newID) == inst && (Admits(before, inst) <==> Importable(common))
      && Creates(before, SavedIn(before, inst, newID, now, later), common, newID)
  {
    var inst := ImportedInstance(common, newID, Candidate(Base(common), tries));
    CandidatesAreTrimmed(common, tries);
    ImportedIsAdmitted(before, common, newID, inst.name);
    KindsAreNormal();
    if Importable(common) {
      FirstFree(before, Base(common), tries);
      StoredIsImported(before, common, inst, now, later);
    }
  }

  lemma FirstFree(m: Instances, base: string, tries: nat)
    requires tries >= 1 && !ClientNameTaken(m, Candidate(base, tries)) && TakenUpTo(m, base, tries - 1)
    ensures IsFirstFree(m, base, Candidate(base, tries))
  {
    assert forall k: nat :: Numbered(base, k) == Candidate(base, k + 1);
    var n := tries - 1;
    assert Candidate(base, tries) == Numbered(base, n);
  }

  lemma MadeAsPasted(common: ParsedCommon, id: string, name: string)
    ensures var inst := ImportedInstance(common, id, name);
      && inst.id == id && inst.name == name && inst.kind == KIND_CLIENT && inst.note == "" && inst.server == NO_SERVER
      && HasPasted(inst.client, common)
  {
  }

  lemma BaseIsAddress(common: ParsedCommon)
    requires Importable(common)
    ensures Base(common) == Trim(common.serverAddr) + if common.serverPort > 0 then ":" + Itoa(common.serverPort) else ""
  {
    assert Trim(common.serverAddr) + "" == Trim(common.serverAddr);
    Associate(Trim(common.serverAddr), ":", Itoa(common.serverPort));
  }

  /** Storing changes the times of an instance and nothing else. */
  lemma StampedOnly(m: Instances, inst: Instance, now: int, later: int)
    requires inst.id != ""
    ensures var after := StoredIn(m, inst, now, later);
      && inst.id in after && after == m[inst.id := after[inst.id]]
      && after[inst.id] == inst.(createdAt := after[inst.id].createdAt, updatedAt := later)
  {
  }

  lemma StoredIsImported(before: Instances, common: ParsedCommon, inst: Instance, now: int, later: int)
    requires inst.id != "" && Importable(common) && inst == ImportedInstance(common, inst.id, inst.name)
    requires Trim(inst.name) == inst.name && IsFirstFree(before, Base(common), inst.name)
    ensures var after := StoredIn(before, inst, now, later);
      && inst.id in after && IsImported(before, common, after[inst.id]) && after == before[inst.id := after[inst.id]]
  {
    StampedOnly(before, inst, now, later);
    MadeAsPasted(common, inst.id, inst.name);
    BaseIsAddress(common);
  }

  /** A client under a free name meets no objection: clients bind no ports. */
  lemma FreeNameIsNotObjected(m: Instances, inst: Instance)
    requires inst.kind == KIND_CLIENT && !ClientNameTaken(m, inst.name)
    ensures !Objected(m, inst)
  {
    if id :| id in m && id != inst.id && Objects(m[id], inst) {
      assert IsClient(m, id);
    }
  }

  /** A taken name under the one possible owner leaves nothing to accept. */
  lemma OneCarrierRejects(m: Instances, tunnels: Tunnels, t: Tunnel, newID: string, selfID: string, v: Tunnel)
    requires v == Cleaned(t, newID).(instanceID := v.instanceID)
    requires Carries(m, t.instanceID, v.instanceID) && NameTaken(tunnels, v, selfID)
    ensures Rejects(m, tunnels, t, newID, selfID)
  {
    forall w ensures !Accepts(m, tunnels, t, newID, selfID, w) {
      if Accepts(m, tunnels, t, newID, selfID, w) {
        OneCarrier(m, t.instanceID, v.instanceID, w.instanceID);
      }
    }
  }

  lemma TakenInListing(m: Instances, clients: seq<Instance>, name: string)
    requires IsListing(INSTANCES, Clients(m), clients)
    ensures ClientNameTaken(m, name) <==> exists k :: 0 <= k < |clients| && GoesBy(clients[k], name)
  {
    ListedClients(m, clients);
  }

  lemma ListedClients(m: Instances, list: seq<Instance>)
    requires IsListing(INSTANCES, Clients(m), list)
    ensures forall k | 0 <= k < |list| :: IsClient(m, list[k].id) && m[list[k].id] == list[k]
    ensures forall id | IsClient(m, id) :: exists k :: 0 <= k < |list| && list[k] == m[id]
  {
    forall k | 0 <= k < |list| ensures IsClient(m, list[k].id) && m[list[k].id] == list[k] {
      assert INSTANCES.id(list[k]) in Clients(m);
    }
    forall id | IsClient(m, id) ensures exists k :: 0 <= k < |list| && list[k] == m[id] {
      assert id in Clients(m);
      var k :| 0 <= k < |list| && INSTANCES.id(list[k]) == id;
    }
  }

  /** In a listing of the clients, the first that is switched on is the default; failing that, the first. */
  lemma FirstOfListing(m: Instances, list: seq<Instance>, i: nat)
    requires IsListing(INSTANCES, Clients(m), list) && i < |list|
    requires forall k | 0 <= k < i :: !list[k].Enabled()
    requires list[i].Enabled() || (i == 0 && forall k | 0 <= k < |list| :: !list[k].Enabled())
    ensures IsDefaultClient(m, list[i].id)
  {
    var id := list[i].id;
    assert id == INSTANCES.id(list[i]) && IsClient(m, id);
    forall c | IsClient(m, c) && c != id
      ensures if m[c].Enabled() == m[id].Enabled() then Below(id, c) else m[id].Enabled()
    {
      assert c in Clients(m);
      var k :| 0 <= k < |list| && INSTANCES.id(list[k]) == c;
      assert list[k] == m[c];
      if k > i { Earlier(INSTANCES, Clients(m), list, i, k); }
      if k < i { Earlier(INSTANCES, Clients(m), list, k, i); }
    }
  }
}
